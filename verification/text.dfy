/**
 * The string operations the handlers rely on: JavaScript's `String.prototype.trim`,
 * `String(n)` for a non-negative integer and `padStart` with a one-character pad.
 * `ValueOf` reads a digit string back as a number; it is the inverse the round-trip
 * lemmas are stated with.
 */
module Text {

  /** The characters `trim` removes: ECMAScript WhiteSpace and LineTerminator code points. */
  predicate IsJsSpace(c: char) {
    || c == '\t' || c == '\n' || c == '\U{B}' || c == '\U{C}' || c == '\r' || c == ' '
    || c == '\U{A0}' || c == '\U{1680}' || ('\U{2000}' <= c <= '\U{200A}')
    || c == '\U{2028}' || c == '\U{2029}' || c == '\U{202F}' || c == '\U{205F}'
    || c == '\U{3000}' || c == '\U{FEFF}'
  }

  /** Every character of `s` is whitespace. */
  predicate AllSpace(s: string) {
    forall i :: 0 <= i < |s| ==> IsJsSpace(s[i])
  }

  /** Neither end of `s` is a whitespace character. */
  predicate Unpadded(s: string) {
    s == [] || (!IsJsSpace(s[0]) && !IsJsSpace(s[|s| - 1]))
  }

  /** The first index from `k` on that does not hold whitespace, or `|s|`. */
  function FirstNonSpace(s: string, k: nat): (n: nat)
    requires k <= |s|
    ensures k <= n <= |s|
    ensures forall m :: k <= m < n ==> IsJsSpace(s[m])
    ensures n < |s| ==> !IsJsSpace(s[n])
    decreases |s| - k
  {
    if k < |s| && IsJsSpace(s[k]) then FirstNonSpace(s, k + 1) else k
  }

  /** The end of `s[lo..hi]` once its trailing whitespace is cut off. */
  function EndOfText(s: string, lo: nat, hi: nat): (n: nat)
    requires lo <= hi <= |s|
    ensures lo <= n <= hi
    ensures forall m :: n <= m < hi ==> IsJsSpace(s[m])
    ensures lo < n ==> !IsJsSpace(s[n - 1])
  {
    if lo < hi && IsJsSpace(s[hi - 1]) then EndOfText(s, lo, hi - 1) else hi
  }

  /**
   * JavaScript's `s.trim()`: `s` without whitespace at either end. The result
   * starts at the first non-whitespace character and only whitespace follows it.
   */
  function Trim(s: string): (r: string)
    ensures Unpadded(r)
    ensures var i := FirstNonSpace(s, 0);
            && i + |r| <= |s| && r == s[i..i + |r|]
            && AllSpace(s[..i]) && AllSpace(s[i + |r|..])
  {
    var i := FirstNonSpace(s, 0);
    s[i..EndOfText(s, i, |s|)]
  }

  /** Trimming changes nothing when neither end is whitespace; in particular `Trim` is idempotent. */
  lemma TrimKeepsUnpadded(s: string)
    requires Unpadded(s)
    ensures Trim(s) == s
  {
  }

  lemma TrimIdempotent(s: string)
    ensures Trim(Trim(s)) == Trim(s)
  {
    TrimKeepsUnpadded(Trim(s));
  }

  // ---- decimal digits ------------------------------------------------------

  predicate IsDigit(c: char) {
    '0' <= c <= '9'
  }

  predicate AllDigits(s: string) {
    forall i :: 0 <= i < |s| ==> IsDigit(s[i])
  }

  function DigitChar(d: nat): (c: char)
    requires d < 10
    ensures IsDigit(c)
  {
    "0123456789"[d]
  }

  function DigitValue(c: char): (d: nat)
    requires IsDigit(c)
    ensures d < 10
  {
    (c as int) - ('0' as int)
  }

  lemma DigitCharValue(d: nat)
    requires d < 10
    ensures DigitValue(DigitChar(d)) == d
  {
  }

  /** The number a string of decimal digits denotes, most significant digit first. */
  function ValueOf(s: string): nat
    requires AllDigits(s)
  {
    if s == [] then 0 else ValueOf(s[..|s| - 1]) * 10 + DigitValue(s[|s| - 1])
  }

  /**
   * JavaScript's `String(n)` for a non-negative integer: the shortest decimal
   * rendering, which starts with '0' only for zero, and which reads back as `n`.
   */
  function Decimal(n: nat): (r: string)
    ensures |r| >= 1 && AllDigits(r)
    ensures r[0] == '0' ==> n == 0
    ensures ValueOf(r) == n
  {
    if n < 10 then
      DigitCharValue(n);
      [DigitChar(n)]
    else
      var hi := Decimal(n / 10);
      var r := hi + [DigitChar(n % 10)];
      assert r[..|r| - 1] == hi;
      DigitCharValue(n % 10);
      r
  }

  lemma DecimalInjective(a: nat, b: nat)
    ensures Decimal(a) == Decimal(b) <==> a == b
  {
  }

  /** `s.padStart(width, c)` for a one-character pad string. */
  function PadStart(s: string, width: nat, c: char): (r: string)
    ensures |r| == if |s| >= width then |s| else width
    ensures r[|r| - |s|..] == s
    ensures forall i :: 0 <= i < |r| - |s| ==> r[i] == c
  {
    if |s| >= width then s else seq(width - |s|, _ => c) + s
  }

  /** A leading zero does not change the value of a digit string. */
  lemma {:induction false} LeadingZero(t: string)
    requires AllDigits(t)
    ensures AllDigits("0" + t) && ValueOf("0" + t) == ValueOf(t)
  {
    var z := "0" + t;
    assert AllDigits(z);
    if t == [] {
      assert z[..|z| - 1] == [];
    } else {
      assert z[..|z| - 1] == "0" + t[..|t| - 1];
      LeadingZero(t[..|t| - 1]);
    }
  }

  /** Padding with zeros keeps the value of a digit string. */
  lemma {:induction false} ZeroPadKeepsValue(s: string, width: nat)
    requires AllDigits(s)
    ensures AllDigits(PadStart(s, width, '0'))
    ensures ValueOf(PadStart(s, width, '0')) == ValueOf(s)
    decreases width - |s|
  {
    if |s| < width {
      LeadingZero(s);
      var s' := "0" + s;
      ZeroPadKeepsValue(s', width);
      assert PadStart(s', width, '0') == PadStart(s, width, '0');
    }
  }
}
