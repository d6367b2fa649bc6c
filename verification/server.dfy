/**
 * The server as a whole: every request any handler of the core accepts, and
 * what a sequence of them does to the store. Reads and logins leave the store
 * as it was.
 */
module Server {
  import opened Wrappers
  import opened LabStore
  import opened Accounts
  import opened Inventory
  import opened Issue
  import opened Views

  /** One HTTP request, with the clock reading, random draw or mail outcome it meets. */
  datatype Request =
    | RegisterReq(name: string, email: Email, password: string, role: string)
    | LoginReq(email: Email, password: string)
    | ForgotPasswordReq(email: Email, otp: OtpDraw, now: Millis, mailSent: bool)
    | ResetPasswordReq(email: Email, code: string, newPassword: string, now: Millis)
    | AddChemicalReq(caller: Claims, chemical: NewChemical, now: Millis)
    | GetChemicalsReq(caller: Claims)
    | RequestChemicalReq(caller: Claims, issue: IssueRequest, now: Millis)
    | GetUserChemicalsReq(caller: Claims)
    | UpdateChemicalReq(caller: Claims, rawId: string, update: ChemicalUpdate)
    | DeleteChemicalReq(caller: Claims, id: string)

  /** The store after one request. */
  function Handle(s: Store, req: Request): Store
  {
    match req
    case RegisterReq(name, email, password, role) => Register(s, name, email, password, role).store
    case LoginReq(_, _) => s
    case ForgotPasswordReq(email, otp, now, mailSent) => ForgotPassword(s, email, otp, now, mailSent).store
    case ResetPasswordReq(email, code, newPassword, now) => ResetPassword(s, email, code, newPassword, now).store
    case AddChemicalReq(caller, chemical, now) => AddChemical(s, caller, chemical, now).store
    case GetChemicalsReq(_) => s
    case RequestChemicalReq(caller, issue, now) => RequestChemical(s, caller, issue, now).store
    case GetUserChemicalsReq(_) => s
    case UpdateChemicalReq(caller, rawId, update) => UpdateChemical(s, caller, rawId, update).store
    case DeleteChemicalReq(caller, id) => DeleteChemical(s, caller, id).store
  }

  /** The store after a sequence of requests, handled one after the other. */
  function Run(s: Store, reqs: seq<Request>): Store
    decreases |reqs|
  {
    if reqs == [] then s else Run(Handle(s, reqs[0]), reqs[1..])
  }

  /** Every handler keeps the store valid. */
  lemma HandlePreservesValid(s: Store, req: Request)
    requires Valid(s)
    ensures Valid(Handle(s, req))
  {
    match req
    case RegisterReq(name, email, password, role) => RegisterPreservesValid(s, name, email, password, role);
    case LoginReq(_, _) =>
    case ForgotPasswordReq(email, otp, now, mailSent) => ForgotPreservesValid(s, email, otp, now, mailSent);
    case ResetPasswordReq(email, code, newPassword, now) => ResetPreservesValid(s, email, code, newPassword, now);
    case AddChemicalReq(caller, chemical, now) =>
      if caller.role == AdminRole {
        AddChemicalSucceedsAndPreservesValid(s, caller, chemical, now);
      }
    case GetChemicalsReq(_) =>
    case RequestChemicalReq(caller, issue, now) => IssuePreservesValid(s, caller, issue, now);
    case GetUserChemicalsReq(_) =>
    case UpdateChemicalReq(caller, rawId, update) => UpdatePreservesValid(s, caller, rawId, update);
    case DeleteChemicalReq(caller, id) => DeletePreservesValid(s, caller, id);
  }

  /**
   * Whatever requests arrive, the store stays valid: e-mails stay unique, so
   * `/login` and `/reset-password` always find the one account; and every
   * `/addChemical` by an administrator succeeds with a fresh identifier.
   */
  lemma {:induction false} RunPreservesValid(s: Store, reqs: seq<Request>)
    requires Valid(s)
    ensures Valid(Run(s, reqs))
    decreases |reqs|
  {
    if reqs != [] {
      HandlePreservesValid(s, reqs[0]);
      RunPreservesValid(Handle(s, reqs[0]), reqs[1..]);
    }
  }

  /** The empty database every deployment starts from. */
  const Empty: Store := Store([], 0, map[], map[], None, [])

  /** From an empty database, every administrator's `/addChemical` succeeds, however many requests came before. */
  lemma AddAlwaysSucceeds(reqs: seq<Request>, caller: Claims, chemical: NewChemical, now: Millis)
    requires caller.role == AdminRole
    ensures AddChemical(Run(Empty, reqs), caller, chemical, now).reply.Ok?
  {
    RunPreservesValid(Empty, reqs);
    AddChemicalSucceedsAndPreservesValid(Run(Empty, reqs), caller, chemical, now);
  }
}
