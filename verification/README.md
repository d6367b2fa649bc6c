# Lab chemical records: a Dafny model of the request handlers

The lab-records backend is an Express server over a MongoDB database. Users
register and log in. Administrators add, update and delete chemicals. Any
user can take grams of a chemical out of stock (`/requestChemical`), and every
issue is logged as a `UserChemical` record. A forgotten password is reset with
a one-time password (OTP) sent by e-mail.

This project models the rules those handlers apply, as pure functions over one
immutable store:

- `LabStore.Store` holds the users, the OTP entries (keyed by e-mail), the
  chemicals (keyed by `chemicalId`), the `chemicalId` counter and the usage log.
- Each handler is a function `Store × input → Step(store, reply)`. A `Reply` carries
  the HTTP status and either the payload or an `ErrorKind`.
- The clock (`now`), the random OTP draw and the e-mail outcome are parameters.

Modules:

| module | file | what it holds |
|---|---|---|
| `Wrappers` | wrappers.dfy | `Option` |
| `Text` | text.dfy | JavaScript `trim`, `String(n)` and `padStart`, and reading digits back |
| `ChemicalIds` | chemical_ids.dfy | the `MURTI-BLR/INDIUM/BRL-NNN` identifiers and their inverse |
| `LabStore` | store.dfy | documents, store, replies, `findOne`/`findById`, the store invariant `Valid` |
| `Accounts` | accounts.dfy | `/register`, `/login`, `/forgot-password`, `/reset-password` |
| `Inventory` | inventory.dfy | `/addChemical`, `/updateChemical/:chemicalId`, `/deleteChemical/:chemicalId` |
| `Issue` | issue.dfy | `/requestChemical` |
| `Views` | views.dfy | `/getchemicals`, `/getUserChemicals` |
| `Server` | server.dfy | all handlers together, and runs of requests |

Conventions:

- The users collection is a sequence. Handlers look users up both by e-mail
  (`findOne`) and by the token's `_id` (`findById`), and the first match wins.
- A request body field is an `Input<T>`. It is `Absent` when the handler's
  presence test fails; that test is `=== undefined` for some fields and a
  falsiness test for others, as each handler's comment says. A present field
  carries what parsing gave: `None` stands for `NaN` or an invalid date.
- An empty `chemicalId` in a request body stands for a missing one.
- Field names follow app.js (`gramsAvailable`, `gramsUsed`). The schemas in
  models/Chemical.js and models/UserChemical.js say `quantityAvailable` and
  `quantityUsed` instead.
- The `status` fields of the User, ScrapChemical and NewChemicalRequest
  schemas (models/User.js:14, models/ScrapChemical.js:9-13,
  models/NewChemicalRequest.js:9) are never read or set by app.js.

## Model

| member | source | states |
|---|---|---|
| `Text.Trim` | app.js:464 | `trim` removes only whitespace, and only at the two ends; the result starts and ends with non-whitespace |
| `Text.TrimIdempotent` | app.js:464 | trimming an already trimmed id changes nothing |
| `Text.Decimal` | app.js:131 | `String(n)` is a digit string that reads back as `n` and starts with '0' only for zero |
| `Text.DecimalInjective` | app.js:131 | different numbers give different decimal strings, so different OTP draws give different OTPs |
| `Text.PadStart` | app.js:242 | `padStart(3, '0')` gives length max(3, length) and only adds pad characters in front |
| `ChemicalIds.ParseChemicalIdOf` | app.js:242 | the counter value can be read back from the identifier built from it |
| `ChemicalIds.ChemicalIdShape` | app.js:242 | an identifier is the fixed prefix plus at least three digits; from three digits on the number is not cut or padded |
| `ChemicalIds.ChemicalIdOfInjective` | app.js:237-242 | two counter values give the same identifier only if they are equal |
| `ChemicalIds.ChemicalIdExamples` | app.js:242 | counter 1 gives `...-001`, 42 gives `...-042`, 1000 gives `...-1000` |
| `LabStore.FindFirst` | app.js:86 | `findOne` returns the first matching document, or nothing exactly when none matches |
| `LabStore.IndexOfEmail` | app.js:103 | `User.findOne({ email })` finds a user with that e-mail, the first one, and fails only when there is none |
| `LabStore.UserById` | app.js:328 | `User.findById` returns a user with that `_id`, and fails only when there is none |
| `LabStore.UniqueEmail` | models/User.js:5 | with unique e-mails, the user found by e-mail is the only user with that e-mail |
| `LabStore.IssuedAtMostOf` | app.js:237-242 | the identifier for counter `n` counts as issued up to `m` exactly when `n <= m` |
| `Accounts.EffectiveRole` | app.js:90 | the role falls back to `user`: a missing or empty role becomes `user`; any other role is kept |
| `Accounts.Register` | app.js:83-97 | a taken e-mail gets 400 and no change; otherwise 201 and one account appended with a fresh `_id`, the hashed password and the defaulted role, nothing else changed |
| `Accounts.Login` | app.js:100-119 | an unknown e-mail gets 400 "User not found", a registered one that fails gets 400 "Invalid credentials"; success means a user with that e-mail whose hash matches the password, and the claims are that user's id, name and role |
| `Accounts.ForgotPassword` | app.js:122-157 | an unknown e-mail gets an error and no change; otherwise the e-mail's OTP entry is overwritten with the drawn code, expiring 15 minutes later, other entries are kept, and the entry stays even when the e-mail fails |
| `Accounts.ResetPassword` | app.js:160-194 | unknown user, wrong or missing OTP, and expired OTP each get their own error; success exactly when the user exists and the OTP entry exists, matches and has not expired; then the password of the user with that e-mail is replaced, no other user changes, and the entry is deleted; any failure changes nothing |
| `Accounts.RegisterPreservesValid` | app.js:86-91 | registration keeps e-mails and `_id`s unique |
| `Accounts.RegisterThenLogin` | app.js:83-119 | a user who has just registered logs in with the same password and gets the defaulted role |
| `Accounts.LoginNeedsPassword` | app.js:103-107 | for a registered e-mail, login succeeds exactly with the matching password |
| `Accounts.SelfRegisteredAdmin` | app.js:85-90 | the role comes from the request body, so anyone can register as `admin` and log in with admin claims |
| `Accounts.ResetPreservesValid` | app.js:182-187 | a password reset keeps the store valid |
| `Accounts.OtpSingleUse` | app.js:172-187 | after a successful reset the same OTP is refused as invalid |
| `Accounts.ForgotThenReset` | app.js:131-142 | after an OTP is issued, a reset succeeds exactly with that OTP and no later than its expiry; any earlier OTP is gone |
| `Accounts.ForgotPreservesValid` | app.js:138-142 | issuing an OTP keeps the store valid |
| `Accounts.ResetThenLogin` | app.js:182-184 | after a successful reset the new password logs in |
| `Inventory.AddChemical` | app.js:233-261 | a non-admin gets 403 and no change; an admin always advances the counter by one and fails exactly when the new identifier is already in use; on success the new identifier is built from the new counter, was not in use, and is added without touching other chemicals; the purchase date defaults to `now` |
| `Inventory.UpdateError` | app.js:477-500 | no error exactly when every field check passes |
| `Inventory.UpdateErrors` | app.js:477-500 | for an existing chemical: a missing required field gives MissingFields, else bad grams InvalidGrams, else a bad date InvalidDates, else a bad purchase InvalidPurchase, else a bad purchase date InvalidPurchaseDate |
| `Inventory.UpdateChemical` | app.js:456-525 | non-admin 403, then a missing trimmed id 404 whatever the fields, then field validation 400; every failure changes nothing; success overwrites grams and both dates, keeps purchase and purchase date unless supplied, keeps the other fields and all other chemicals |
| `Inventory.DeleteChemical` | app.js:532-568 | non-admin 403; an untrimmed id not present 404 with no change; otherwise exactly that chemical is removed |
| `Inventory.AddChemicalSucceedsAndPreservesValid` | app.js:237-255 | in a valid store, an admin's add always succeeds, because the next identifier is never in use, and the store stays valid |
| `Inventory.AddChemicalIdsDistinct` | app.js:237-242 | two successive adds return different identifiers |
| `Inventory.UpdatePreservesValid` | app.js:502-512 | an update keeps each chemical under its own identifier |
| `Inventory.DeletePreservesValid` | app.js:552 | a delete keeps the store valid |
| `Inventory.AdminGuards` | app.js:234 | add, update and delete refuse every role other than `admin`, `superadmin` included, with 403 and no change |
| `Inventory.UpdateTrimsDeleteDoesNot` | app.js:543 | a space-padded id reaches the chemical through update but gets 404 from delete |
| `Issue.RequestChemical` | app.js:316-352 | success exactly when the id and grams are present, grams > 0, the chemical exists with enough stock, and the caller's user exists; then stock drops by exactly the grams, `updatedStock` is the new stock and is not negative, and one record is appended with the caller's id, the chemical and the grams; any failure changes nothing |
| `Issue.IssueErrors` | app.js:319-329 | a missing id or grams gives MissingFields; else unparsable or non-positive grams give InvalidGrams; else an unknown id gives 404, too little stock 400 NotEnoughStock, an unknown caller 404 UserNotFound |
| `Issue.IssueKeepsStockNonNegative` | app.js:326-331 | if no stock was negative before an issue, none is after |
| `Issue.IssuePreservesValid` | app.js:331-342 | an issue keeps the store valid |
| `Issue.IssueConservesStock` | app.js:331-342 | for every chemical, stock plus the grams the log records as issued stays the same |
| `Views.RecordsOf` | app.js:361 | `find({ userId })` keeps every copy of the records of that user and nothing else |
| `Views.UsageFor` | app.js:285-304 | a chemical's `userUsage` has one entry per usage record of that chemical: each entry (name, grams, date) occurs exactly as many times as records of that chemical produce it, and the length is the number of such records |
| `Views.GetUserChemicals` | app.js:355-368 | an admin gets the whole log; anyone else gets exactly their own records |
| `Views.GetChemicals` | app.js:275-313 | every chemical is returned unchanged; `userUsage` is added exactly for admins and holds one entry per usage record of that chemical, with duplicates counted |
| `Views.OwnRecordsOnly` | app.js:358-362 | a non-admin sees a record exactly when it is in the log and carries their id |
| `Views.IssueVisibility` | app.js:358-362 | a logged issue is visible to admins and to the user it was made for, and to no one else |
| `Server.HandlePreservesValid` | app.js:83-568 | every modelled handler keeps the store valid |
| `Server.RunPreservesValid` | app.js:83-568 | any sequence of requests keeps the store valid |
| `Server.AddAlwaysSucceeds` | app.js:237-256 | starting from an empty database, an admin's add succeeds whatever requests came before it |

`LabStore.Valid` is the store invariant. It says that e-mails and `_id`s are
unique (models/User.js:5), that each chemical is stored under its own
`chemicalId` (models/Chemical.js:4), and that no stored identifier is ahead
of the counter.

## Left out

- `/scrapRequest` and `/newChemicalRequest` (app.js:640-765): they check their inputs and send an e-mail, and they change no database state. `/scrapRequest` also stores the uploaded photo under `uploads/` through multer's disk storage (app.js:72-80); that file is not modelled.
- `/userRole` and `/getUserDetails` (app.js:198-207, 371-380): plain reads by `_id`.
- `getAdminEmails` in models/role.js: nothing calls it. It filters on status `approve`, which the User schema's status values do not include.
- The `authenticate` middleware and JWT signing and expiry: handlers receive the decoded claims (`Claims`), and `/login` returns the claims in place of a signed token.
- bcrypt: a hash is modelled as the password it was made from (`Digest`), so comparison is plain equality. Salting, hash collisions and bcrypt's 72-byte cut-off are not modelled.
- Schema validation and casting. The User schema requires fields that `/register` never sends (salutation, designation, department, contact number, joining date), so the real insert would be refused. The Chemical schema requires `phase`, `quantityAvailable`, `unit` and `rack` (models/Chemical.js:8,10,11,20), which `/addChemical` never sends, so that insert would be refused too; in strict mode it would also drop `gramsAvailable`, which it does not declare. The UserChemical schema requires `quantityUsed` and `unit` (models/UserChemical.js:7-8), so the record insert at app.js:342 would fail after the stock was already saved at app.js:332. For all three collections the model follows what app.js writes.
- `/forgot-password` also sets `resetPasswordOTP` and `resetPasswordExpires` on the user document (app.js:134-136). The User schema does not declare them and no handler reads them, so they are not modelled.
- models/otp is not part of this model. The OTP entry's fields (`email`, `otp`, `expiresAt`) are taken from how app.js uses them.
- Floating point: grams are exact `real`s, and parsing is folded into `Input`.
- Dates are integer milliseconds. An invalid `Date` is `None`.
- Database and mail errors that reach the `catch` blocks (500, or `status: 'error'`) are not modelled. The one exception is the OTP e-mail failure, which is the `mailSent` parameter.
- The 500 "Failed to delete chemical" branch of `/deleteChemical` (app.js:553-556): only a concurrent delete can reach it. Concurrency and the atomicity of `findOneAndUpdate` are not modelled.
- Counter values above 2^53, and `String(n)` switching to exponent notation from 10^21: `Decimal` renders exact integers.
- Result order: `/getchemicals` is modelled as a map keyed by identifier, so the database's natural order is not modelled.
- Mongoose drops an `undefined` filter value, so a missing `email` would match any user; e-mails are always strings in the model.
- Inventory.AddChemical: the contract pins the new document's identifier, stock and purchase date only. The other fields are copied unchanged from the request body, and the contract does not restate that.
