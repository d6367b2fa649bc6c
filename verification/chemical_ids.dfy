/**
 * Chemical identifiers: `/addChemical` renders its counter as the fixed prefix
 * followed by the counter's decimal form, zero-padded to at least three digits.
 * `ParseChemicalId` reads such an identifier back; it exists only to state that
 * the rendering loses nothing, so distinct counters give distinct identifiers.
 */
module ChemicalIds {
  import opened Wrappers
  import opened Text

  const IdPrefix: string := "MURTI-BLR/INDIUM/BRL-"
  const MinDigits: nat := 3

  /** `MURTI-BLR/INDIUM/BRL-${String(n).padStart(3, '0')}` */
  function ChemicalIdOf(n: nat): (id: string)
  {
    IdPrefix + PadStart(Decimal(n), MinDigits, '0')
  }

  /** The counter an identifier of the form above carries; `None` for any other string. */
  function ParseChemicalId(id: string): Option<nat>
  {
    if |id| >= |IdPrefix| + MinDigits && id[..|IdPrefix|] == IdPrefix && AllDigits(id[|IdPrefix|..]) then
      Some(ValueOf(id[|IdPrefix|..]))
    else
      None
  }

  /** Round trip: the counter can be read back from the identifier built from it. */
  lemma ParseChemicalIdOf(n: nat)
    ensures ParseChemicalId(ChemicalIdOf(n)) == Some(n)
  {
    var digits := PadStart(Decimal(n), MinDigits, '0');
    ZeroPadKeepsValue(Decimal(n), MinDigits);
    assert ChemicalIdOf(n)[|IdPrefix|..] == digits;
  }

  /** The identifier is the prefix and at least three digits; from three digits on they are `String(n)` unchanged. */
  lemma ChemicalIdShape(n: nat)
    ensures |IdPrefix| + MinDigits <= |ChemicalIdOf(n)|
    ensures ChemicalIdOf(n)[..|IdPrefix|] == IdPrefix
    ensures |Decimal(n)| >= MinDigits ==> ChemicalIdOf(n) == IdPrefix + Decimal(n)
    ensures |Decimal(n)| < MinDigits ==> ChemicalIdOf(n)[|IdPrefix|] == '0'
  {
  }

  /** Distinct counter values always give distinct identifiers. */
  lemma ChemicalIdOfInjective(a: nat, b: nat)
    ensures ChemicalIdOf(a) == ChemicalIdOf(b) <==> a == b
  {
    ParseChemicalIdOf(a);
    ParseChemicalIdOf(b);
  }

  /** Small counters are padded to three digits; from 1000 on nothing is cut off. */
  lemma ChemicalIdExamples()
    ensures ChemicalIdOf(1) == "MURTI-BLR/INDIUM/BRL-001"
    ensures ChemicalIdOf(42) == "MURTI-BLR/INDIUM/BRL-042"
    ensures ChemicalIdOf(1000) == "MURTI-BLR/INDIUM/BRL-1000"
  {
  }
}
