/**
 * The state every handler of the lab-records backend reads and writes, as one
 * immutable value: the `User`, `OTP`, `Chemical`, `Counter` and `UserChemical`
 * collections of the database, plus the replies a handler sends.
 */
module LabStore {
  import opened Wrappers
  import opened ChemicalIds

  type Email = string

  /** A user document's `_id`; the database hands them out fresh. */
  type UserId = nat

  /** A timestamp in milliseconds since the epoch (`Date.now()`). */
  type Millis = int

  /**
   * A bcrypt hash. Only what `bcrypt.compare` observes is kept: which password
   * the hash was made from. Salt and cost are not modelled.
   */
  datatype Digest = Bcrypt(plain: string)

  /** `bcrypt.compare(password, digest)` */
  predicate PasswordMatches(password: string, digest: Digest) {
    digest.plain == password
  }

  datatype UserAccount = UserAccount(id: UserId, name: string, email: Email, password: Digest, role: string)

  /** A document of the OTP collection, keyed by the e-mail it was sent to. */
  datatype OtpEntry = OtpEntry(otp: string, expiresAt: Millis)

  /**
   * A chemical document, with the field names app.js reads and writes.
   * `grade` is the document's `type` field (LR or AR).
   */
  datatype Chemical = Chemical(
    chemicalId: string,
    chemicalName: string,
    chemicalType: string,
    grade: string,
    gramsAvailable: real,
    make: string,
    dateOfMFG: Millis,
    dateOfExp: Millis,
    purchase: Option<real>,
    purchaseDate: Millis)

  /** A `UserChemical` document: one issue of a chemical to a user. */
  datatype UsageRecord = UsageRecord(
    userId: UserId,
    chemicalId: string,
    chemicalName: string,
    gramsUsed: real,
    date: Millis,
    name: string)

  /**
   * The whole database. `counter` is the `chemicalId` counter document (absent
   * until the first `/addChemical`); `nextObjectId` stands for the driver's
   * supply of fresh `_id`s.
   */
  datatype Store = Store(
    users: seq<UserAccount>,
    nextObjectId: UserId,
    otps: map<Email, OtpEntry>,
    chemicals: map<string, Chemical>,
    counter: Option<nat>,
    usage: seq<UsageRecord>)

  /** The claims of a verified JSON web token: what a handler knows of its caller. */
  datatype Claims = Claims(id: UserId, name: string, role: string)

  const AdminRole: string := "admin"
  const DefaultRole: string := "user"

  datatype ErrorKind =
    | AdminsOnly            // 'Unauthorized: Admins only'
    | UserExists            // 'User already exists'
    | UserNotFound          // 'User not found'
    | InvalidCredentials    // 'Invalid credentials'
    | MissingFields         // a required field is absent
    | InvalidGrams          // 'Invalid grams value' / 'Invalid gramsAvailable value'
    | ChemicalNotFound      // 'Chemical not found' / 'Chemical with ID ... not found'
    | NotEnoughStock        // 'Not enough stock'
    | InvalidDates          // 'Invalid date format for dateOfMFG or dateOfExp'
    | InvalidPurchase       // 'Invalid purchase value'
    | InvalidPurchaseDate   // 'Invalid date format for purchaseDate'
    | InvalidOtp            // 'Invalid OTP'
    | OtpExpired            // 'OTP has expired'
    | DuplicateChemicalId   // the unique index on chemicalId refuses the insert
    | MailFailed            // sending the OTP e-mail threw

  /**
   * A handler's reply: the HTTP status and either the payload or the error.
   * The password-reset handlers answer 200 even on errors.
   */
  datatype Reply<T> = Ok(status: nat, value: T) | Err(status: nat, error: ErrorKind)

  /** The outcome of one handler: the store afterwards and the reply. */
  datatype Step<T> = Step(store: Store, reply: Reply<T>)

  /** A request body field as the handler sees it: `Absent` when the handler's
      presence test fails, otherwise what parsing it gave (`None` for NaN or an
      invalid date). */
  datatype Input<T> = Absent | Present(parsed: Option<T>)

  /** The counter value `$inc` starts from: an absent counter document counts as 0. */
  function CounterValue(c: Option<nat>): nat {
    c.GetOr(0)
  }

  // ---- lookups -------------------------------------------------------------

  /** The index of the first element satisfying `p`: what `findOne` returns. */
  function FindFirst<T>(xs: seq<T>, p: T -> bool): (r: Option<nat>)
    ensures r.Some? ==> r.value < |xs| && p(xs[r.value]) && forall j :: 0 <= j < r.value ==> !p(xs[j])
    ensures r.None? <==> forall j :: 0 <= j < |xs| ==> !p(xs[j])
  {
    if xs == [] then None
    else if p(xs[0]) then Some(0)
    else
      match FindFirst(xs[1..], p)
      case None => None
      case Some(k) => Some(k + 1)
  }

  predicate HasEmail(users: seq<UserAccount>, email: Email) {
    exists u :: u in users && u.email == email
  }

  predicate HasId(users: seq<UserAccount>, id: UserId) {
    exists u :: u in users && u.id == id
  }

  /** `User.findOne({ email })` */
  function IndexOfEmail(users: seq<UserAccount>, email: Email): (r: Option<nat>)
    ensures r.Some? ==> r.value < |users| && users[r.value].email == email
    ensures r.Some? ==> forall j :: 0 <= j < r.value ==> users[j].email != email
    ensures r.None? <==> !HasEmail(users, email)
  {
    FindFirst(users, (u: UserAccount) => u.email == email)
  }

  /** `User.findById(id)` */
  function UserById(users: seq<UserAccount>, id: UserId): (r: Option<UserAccount>)
    ensures r.Some? ==> r.value in users && r.value.id == id
    ensures r.None? <==> !HasId(users, id)
  {
    match FindFirst(users, (u: UserAccount) => u.id == id)
    case None => None
    case Some(i) => Some(users[i])
  }

  // ---- invariant -----------------------------------------------------------

  /** `id` is not an identifier `/addChemical` builds from a counter value above `counter`. */
  ghost predicate IssuedAtMost(id: string, counter: nat) {
    forall n: nat :: ChemicalIdOf(n) == id ==> n <= counter
  }

  /** The identifier built from `n` is issued at most `m` exactly when `n <= m`. */
  lemma IssuedAtMostOf(n: nat, m: nat)
    ensures IssuedAtMost(ChemicalIdOf(n), m) <==> n <= m
  {
    forall k: nat | ChemicalIdOf(k) == ChemicalIdOf(n)
      ensures k == n
    {
      ChemicalIdOfInjective(k, n);
    }
  }

  lemma IssuedAtMostMonotone(id: string, a: nat, b: nat)
    requires a <= b && IssuedAtMost(id, a)
    ensures IssuedAtMost(id, b)
  {
  }

  /**
   * What the handlers keep true of the store: e-mails and `_id`s are unique and
   * every `_id` comes from the fresh supply; each chemical is stored under its own
   * `chemicalId`, and no stored identifier is ahead of the counter.
   */
  ghost predicate Valid(s: Store) {
    && (forall i, j :: 0 <= i < j < |s.users| ==> s.users[i].email != s.users[j].email)
    && (forall i, j :: 0 <= i < j < |s.users| ==> s.users[i].id != s.users[j].id)
    && (forall i :: 0 <= i < |s.users| ==> s.users[i].id < s.nextObjectId)
    && (forall k :: k in s.chemicals ==> s.chemicals[k].chemicalId == k)
    && (forall k :: k in s.chemicals ==> IssuedAtMost(k, CounterValue(s.counter)))
  }

  /** In a valid store the user `findOne({ email })` finds is the only one with that e-mail. */
  lemma UniqueEmail(s: Store, email: Email, u: UserAccount)
    requires Valid(s) && u in s.users && u.email == email
    ensures IndexOfEmail(s.users, email).Some? && s.users[IndexOfEmail(s.users, email).value] == u
  {
    var i :| 0 <= i < |s.users| && s.users[i] == u;
  }

  /** Storing a chemical under its own identifier, with the counter moved past it, keeps the store valid. */
  lemma InsertChemicalPreservesValid(s: Store, c: Chemical, n: nat)
    requires Valid(s) && CounterValue(s.counter) <= n && IssuedAtMost(c.chemicalId, n)
    ensures Valid(s.(chemicals := s.chemicals[c.chemicalId := c], counter := Some(n)))
  {
    var s' := s.(chemicals := s.chemicals[c.chemicalId := c], counter := Some(n));
    forall k | k in s'.chemicals
      ensures s'.chemicals[k].chemicalId == k && IssuedAtMost(k, n)
    {
      if k != c.chemicalId {
        IssuedAtMostMonotone(k, CounterValue(s.counter), n);
      }
    }
  }
}
