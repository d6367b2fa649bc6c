/**
 * Accounts: `/register`, `/login`, and password reset by one-time password
 * (`/forgot-password` issues the OTP, `/reset-password` consumes it).
 */
module Accounts {
  import opened Wrappers
  import opened Text
  import opened LabStore

  /** `crypto.randomInt(100000, 999999)`: the upper bound is exclusive. */
  const OtpLow: nat := 100000
  const OtpHigh: nat := 999999

  /** A value `crypto.randomInt(100000, 999999)` can return. */
  type OtpDraw = n: nat | OtpLow <= n < OtpHigh witness OtpLow

  /** An OTP stays valid for 15 minutes. */
  const OtpLifetime: nat := 15 * 60 * 1000

  /** `role || 'user'`: an absent or empty role becomes the default role. */
  function EffectiveRole(requested: string): (role: string)
    ensures requested == "" ==> role == DefaultRole
    ensures requested != "" ==> role == requested
    ensures role != ""
  {
    if requested == "" then DefaultRole else requested
  }

  /** The account `/register` creates in store `s`. */
  function NewAccount(s: Store, name: string, email: Email, password: string, role: string): UserAccount {
    UserAccount(s.nextObjectId, name, email, Bcrypt(password), EffectiveRole(role))
  }

  /** `POST /register` (app.js:83-97). An empty `role` stands for a missing one. */
  function Register(s: Store, name: string, email: Email, password: string, role: string): (r: Step<()>)
    ensures HasEmail(s.users, email) ==> r == Step(s, Err(400, UserExists))
    ensures !HasEmail(s.users, email) ==>
      && r.reply == Ok(201, ())
      && r.store.users == s.users + [NewAccount(s, name, email, password, role)]
      && r.store == s.(users := r.store.users, nextObjectId := s.nextObjectId + 1)
  {
    if IndexOfEmail(s.users, email).Some? then
      Step(s, Err(400, UserExists))
    else
      var u := NewAccount(s, name, email, password, role);
      Step(s.(users := s.users + [u], nextObjectId := s.nextObjectId + 1), Ok(201, ()))
  }

  /**
   * `POST /login` (app.js:100-119). The signed token is represented by the
   * claims it carries; login never changes the store.
   */
  function Login(s: Store, email: Email, password: string): (r: Reply<Claims>)
    ensures !HasEmail(s.users, email) ==> r == Err(400, UserNotFound)
    ensures r.Err? ==> r.status == 400 && r.error in {UserNotFound, InvalidCredentials}
    ensures HasEmail(s.users, email) && r.Err? ==> r == Err(400, InvalidCredentials)
    ensures r.Ok? ==>
      && r.status == 200
      && exists u :: u in s.users && u.email == email && PasswordMatches(password, u.password)
                     && r.value == Claims(u.id, u.name, u.role)
  {
    match IndexOfEmail(s.users, email)
    case None => Err(400, UserNotFound)
    case Some(i) =>
      var u := s.users[i];
      if !PasswordMatches(password, u.password) then Err(400, InvalidCredentials)
      else Ok(200, Claims(u.id, u.name, u.role))
  }

  /**
   * `POST /forgot-password` (app.js:122-157). `otp` is the random draw and `now`
   * the clock; `mailSent` says whether sending the e-mail succeeded. The OTP
   * entry is already written when the e-mail fails.
   */
  function ForgotPassword(s: Store, email: Email, otp: OtpDraw, now: Millis, mailSent: bool): (r: Step<()>)
    ensures !HasEmail(s.users, email) ==> r == Step(s, Err(200, UserNotFound))
    ensures HasEmail(s.users, email) ==>
      && r.store == s.(otps := r.store.otps)
      && r.store.otps.Keys == s.otps.Keys + {email}
      && r.store.otps[email] == OtpEntry(Decimal(otp), now + OtpLifetime)
      && (forall e :: e in s.otps && e != email ==> r.store.otps[e] == s.otps[e])
      && r.reply == (if mailSent then Ok(200, ()) else Err(200, MailFailed))
  {
    if IndexOfEmail(s.users, email).None? then
      Step(s, Err(200, UserNotFound))
    else
      var s' := s.(otps := s.otps[email := OtpEntry(Decimal(otp), now + OtpLifetime)]);
      Step(s', if mailSent then Ok(200, ()) else Err(200, MailFailed))
  }

  /** The OTP entry for `email` exists, equals `otp` and has not expired at `now`. */
  predicate OtpAccepted(s: Store, email: Email, otp: string, now: Millis) {
    email in s.otps && s.otps[email].otp == otp && now <= s.otps[email].expiresAt
  }

  /** `POST /reset-password` (app.js:160-194). */
  function ResetPassword(s: Store, email: Email, otp: string, newPassword: string, now: Millis): (r: Step<()>)
    ensures r.reply.Ok? <==> HasEmail(s.users, email) && OtpAccepted(s, email, otp, now)
    ensures r.reply.Err? ==> r.store == s && r.reply.status == 200
    ensures !HasEmail(s.users, email) ==> r.reply == Err(200, UserNotFound)
    ensures HasEmail(s.users, email) && !(email in s.otps && s.otps[email].otp == otp) ==> r.reply == Err(200, InvalidOtp)
    ensures HasEmail(s.users, email) && email in s.otps && s.otps[email].otp == otp && s.otps[email].expiresAt < now ==>
      r.reply == Err(200, OtpExpired)
    ensures r.reply.Ok? ==>
      && r.reply.status == 200
      && r.store.otps == s.otps - {email}
      && |r.store.users| == |s.users|
      && (forall j :: 0 <= j < |s.users| && s.users[j].email != email ==> r.store.users[j] == s.users[j])
      && (forall j :: 0 <= j < |s.users| ==>
            r.store.users[j] == s.users[j] || r.store.users[j] == s.users[j].(password := Bcrypt(newPassword)))
      && (exists j :: 0 <= j < |s.users| && s.users[j].email == email
                     && r.store.users[j] == s.users[j].(password := Bcrypt(newPassword)))
      && r.store == s.(users := r.store.users, otps := r.store.otps)
  {
    match IndexOfEmail(s.users, email)
    case None => Step(s, Err(200, UserNotFound))
    case Some(i) =>
      if email !in s.otps || s.otps[email].otp != otp then
        Step(s, Err(200, InvalidOtp))
      else if s.otps[email].expiresAt < now then
        Step(s, Err(200, OtpExpired))
      else
        var u := s.users[i].(password := Bcrypt(newPassword));
        Step(s.(users := s.users[i := u], otps := s.otps - {email}), Ok(200, ()))
  }

  // ---- properties ----------------------------------------------------------

  /** Registration keeps the store valid: the new e-mail and `_id` are unused. */
  lemma RegisterPreservesValid(s: Store, name: string, email: Email, password: string, role: string)
    requires Valid(s)
    ensures Valid(Register(s, name, email, password, role).store)
  {
    var r := Register(s, name, email, password, role);
    if !HasEmail(s.users, email) {
      var users := r.store.users;
      forall i, j | 0 <= i < j < |users|
        ensures users[i].email != users[j].email && users[i].id != users[j].id
      {
        if j == |s.users| {
          assert users[i] in s.users;
        }
      }
    }
  }

  /** Whoever registers can log in at once with the same password, and gets the defaulted role. */
  lemma RegisterThenLogin(s: Store, name: string, email: Email, password: string, role: string)
    requires Valid(s)
    requires Register(s, name, email, password, role).reply.Ok?
    ensures Login(Register(s, name, email, password, role).store, email, password)
            == Ok(200, Claims(s.nextObjectId, name, EffectiveRole(role)))
  {
    var s' := Register(s, name, email, password, role).store;
    RegisterPreservesValid(s, name, email, password, role);
    UniqueEmail(s', email, s'.users[|s.users|]);
  }

  /** Nothing but the stored password lets a registered user in. */
  lemma LoginNeedsPassword(s: Store, email: Email, password: string, u: UserAccount)
    requires Valid(s) && u in s.users && u.email == email
    ensures Login(s, email, password).Ok? <==> PasswordMatches(password, u.password)
    ensures Login(s, email, password).Ok? ==> Login(s, email, password).value.role == u.role
  {
    UniqueEmail(s, email, u);
  }

  /** `/register` takes the role from the request body, so anyone can register as an administrator. */
  lemma SelfRegisteredAdmin(s: Store, name: string, email: Email, password: string)
    requires Valid(s) && !HasEmail(s.users, email)
    ensures Login(Register(s, name, email, password, AdminRole).store, email, password)
            == Ok(200, Claims(s.nextObjectId, name, AdminRole))
  {
    RegisterThenLogin(s, name, email, password, AdminRole);
  }

  /** Password reset keeps the store valid: only a password changes. */
  lemma ResetPreservesValid(s: Store, email: Email, otp: string, newPassword: string, now: Millis)
    requires Valid(s)
    ensures Valid(ResetPassword(s, email, otp, newPassword, now).store)
  {
  }

  /** A successful reset consumes the OTP: the same OTP is refused afterwards. */
  lemma OtpSingleUse(s: Store, email: Email, otp: string, p1: string, p2: string, t1: Millis, t2: Millis)
    requires ResetPassword(s, email, otp, p1, t1).reply.Ok?
    ensures ResetPassword(ResetPassword(s, email, otp, p1, t1).store, email, otp, p2, t2).reply == Err(200, InvalidOtp)
  {
    var s' := ResetPassword(s, email, otp, p1, t1).store;
    var i := IndexOfEmail(s.users, email).value;
    assert s'.users[i].email == email;
  }

  /**
   * After `/forgot-password` for a registered e-mail, a reset succeeds exactly
   * with the decimal form of the new OTP, up to 15 minutes later: any earlier
   * OTP for that e-mail has been overwritten.
   */
  lemma ForgotThenReset(s: Store, email: Email, otp: OtpDraw, now: Millis, mailSent: bool,
                        attempt: nat, newPassword: string, later: Millis)
    requires HasEmail(s.users, email)
    ensures ResetPassword(ForgotPassword(s, email, otp, now, mailSent).store, email, Decimal(attempt), newPassword, later).reply.Ok?
            <==> attempt == otp && later <= now + OtpLifetime
  {
    var s' := ForgotPassword(s, email, otp, now, mailSent).store;
    assert s'.users == s.users;
    DecimalInjective(attempt, otp);
  }

  /** Issuing an OTP keeps the store valid: only the OTP collection changes. */
  lemma ForgotPreservesValid(s: Store, email: Email, otp: OtpDraw, now: Millis, mailSent: bool)
    requires Valid(s)
    ensures Valid(ForgotPassword(s, email, otp, now, mailSent).store)
  {
  }

  /** After a successful reset the new password logs in. */
  lemma ResetThenLogin(s: Store, email: Email, otp: string, newPassword: string, now: Millis)
    requires Valid(s)
    requires ResetPassword(s, email, otp, newPassword, now).reply.Ok?
    ensures Login(ResetPassword(s, email, otp, newPassword, now).store, email, newPassword).Ok?
  {
    var s' := ResetPassword(s, email, otp, newPassword, now).store;
    var i := IndexOfEmail(s.users, email).value;
    ResetPreservesValid(s, email, otp, newPassword, now);
    UniqueEmail(s', email, s'.users[i]);
  }
}
