/**
 * The administrators' inventory handlers: `/addChemical`,
 * `/updateChemical/:chemicalId` and `/deleteChemical/:chemicalId`. Each one
 * refuses a caller whose token role is not exactly "admin" before it reads the
 * database.
 */
module Inventory {
  import opened Wrappers
  import opened Text
  import opened ChemicalIds
  import opened LabStore

  /** The body of an `/addChemical` request, as the schema would cast it. */
  datatype NewChemical = NewChemical(
    chemicalName: string,
    chemicalType: string,
    grade: string,
    gramsAvailable: real,
    make: string,
    dateOfMFG: Millis,
    dateOfExp: Millis,
    purchase: Option<real>,
    purchaseDate: Option<Millis>)   // None: absent or empty

  /** The fields a request can set; `SameDescription` says the others agree. */
  predicate SameDescription(a: Chemical, b: Chemical) {
    && a.chemicalId == b.chemicalId
    && a.chemicalName == b.chemicalName
    && a.chemicalType == b.chemicalType
    && a.grade == b.grade
    && a.make == b.make
  }

  /** Every chemical other than `id` is still present and unchanged. */
  predicate OthersKept(before: map<string, Chemical>, after: map<string, Chemical>, id: string) {
    forall k :: k in before && k != id ==> k in after && after[k] == before[k]
  }

  /**
   * `POST /addChemical` (app.js:233-261). The counter is incremented before the
   * insert; if the unique index refuses the new identifier the increment stays.
   */
  function AddChemical(s: Store, caller: Claims, req: NewChemical, now: Millis): (r: Step<string>)
    ensures caller.role != AdminRole ==> r == Step(s, Err(403, AdminsOnly))
    ensures caller.role == AdminRole ==>
      (r.reply.Ok? <==> ChemicalIdOf(CounterValue(s.counter) + 1) !in s.chemicals)
    ensures caller.role == AdminRole ==>
      && r.store.counter == Some(CounterValue(s.counter) + 1)
      && r.store.users == s.users && r.store.otps == s.otps && r.store.usage == s.usage
      && r.store.nextObjectId == s.nextObjectId
      && OthersKept(s.chemicals, r.store.chemicals, ChemicalIdOf(CounterValue(s.counter) + 1))
    ensures r.reply.Ok? ==>
      && r.reply.status == 201
      && r.reply.value == ChemicalIdOf(CounterValue(s.counter) + 1)
      && r.reply.value !in s.chemicals
      && r.store.chemicals.Keys == s.chemicals.Keys + {r.reply.value}
      && r.store.chemicals[r.reply.value].chemicalId == r.reply.value
      && r.store.chemicals[r.reply.value].gramsAvailable == req.gramsAvailable
      && r.store.chemicals[r.reply.value].purchaseDate == req.purchaseDate.GetOr(now)
    ensures r.reply.Err? && caller.role == AdminRole ==>
      r.reply == Err(500, DuplicateChemicalId) && r.store.chemicals == s.chemicals
  {
    if caller.role != AdminRole then
      Step(s, Err(403, AdminsOnly))
    else
      var n := CounterValue(s.counter) + 1;   // `$inc` with upsert
      var id := ChemicalIdOf(n);
      var s1 := s.(counter := Some(n));
      if id in s.chemicals then
        Step(s1, Err(500, DuplicateChemicalId))
      else
        var c := Chemical(id, req.chemicalName, req.chemicalType, req.grade, req.gramsAvailable, req.make,
                          req.dateOfMFG, req.dateOfExp, req.purchase, req.purchaseDate.GetOr(now));
        Step(s1.(chemicals := s.chemicals[id := c]), Ok(201, id))
  }

  /** The body of an `/updateChemical` request. For `gramsAvailable` and `purchase`
      `Absent` means undefined; for the three dates it means any falsy value. */
  datatype ChemicalUpdate = ChemicalUpdate(
    gramsAvailable: Input<real>,
    dateOfMFG: Input<Millis>,
    dateOfExp: Input<Millis>,
    purchase: Input<real>,
    purchaseDate: Input<Millis>)

  /** The three required fields are present (`gramsAvailable` defined, the dates truthy). */
  predicate FieldsPresent(u: ChemicalUpdate) {
    u.gramsAvailable.Present? && u.dateOfMFG.Present? && u.dateOfExp.Present?
  }

  /** `gramsAvailable` parses to a number that is not negative. */
  predicate GramsValid(u: ChemicalUpdate) {
    u.gramsAvailable.Present? && u.gramsAvailable.parsed.Some? && u.gramsAvailable.parsed.value >= 0.0
  }

  /** Both dates parse. */
  predicate DatesValid(u: ChemicalUpdate) {
    u.dateOfMFG.Present? && u.dateOfMFG.parsed.Some? && u.dateOfExp.Present? && u.dateOfExp.parsed.Some?
  }

  /** A given `purchase` parses to a number that is not negative. */
  predicate PurchaseValid(u: ChemicalUpdate) {
    u.purchase.Present? ==> u.purchase.parsed.Some? && u.purchase.parsed.value >= 0.0
  }

  /** A given `purchaseDate` parses. */
  predicate PurchaseDateValid(u: ChemicalUpdate) {
    u.purchaseDate.Present? ==> u.purchaseDate.parsed.Some?
  }

  /** Every check of the update handler passes on these fields. */
  predicate UpdateAcceptable(u: ChemicalUpdate) {
    FieldsPresent(u) && GramsValid(u) && DatesValid(u) && PurchaseValid(u) && PurchaseDateValid(u)
  }

  /** The first check the update handler's field validation fails, in its order. */
  function UpdateError(u: ChemicalUpdate): (e: Option<ErrorKind>)
    ensures e.None? <==> UpdateAcceptable(u)
  {
    if u.gramsAvailable.Absent? || u.dateOfMFG.Absent? || u.dateOfExp.Absent? then Some(MissingFields)
    else if u.gramsAvailable.parsed.None? || u.gramsAvailable.parsed.value < 0.0 then Some(InvalidGrams)
    else if u.dateOfMFG.parsed.None? || u.dateOfExp.parsed.None? then Some(InvalidDates)
    else if u.purchase.Present? && (u.purchase.parsed.None? || u.purchase.parsed.value < 0.0) then Some(InvalidPurchase)
    else if u.purchaseDate.Present? && u.purchaseDate.parsed.None? then Some(InvalidPurchaseDate)
    else None
  }

  /**
   * The document `findOneAndUpdate` returns: the three required fields are
   * replaced, `purchase` and `purchaseDate` only when given, the rest is kept.
   */
  function Updated(c: Chemical, u: ChemicalUpdate): (c': Chemical)
    requires UpdateAcceptable(u)
    ensures SameDescription(c, c')
    ensures Some(c'.gramsAvailable) == u.gramsAvailable.parsed
    ensures Some(c'.dateOfMFG) == u.dateOfMFG.parsed
    ensures Some(c'.dateOfExp) == u.dateOfExp.parsed
    ensures u.purchase.Absent? ==> c'.purchase == c.purchase
    ensures u.purchase.Present? ==> c'.purchase == u.purchase.parsed
    ensures u.purchaseDate.Absent? ==> c'.purchaseDate == c.purchaseDate
    ensures u.purchaseDate.Present? ==> Some(c'.purchaseDate) == u.purchaseDate.parsed
  {
    c.(gramsAvailable := u.gramsAvailable.parsed.value,
       dateOfMFG := u.dateOfMFG.parsed.value,
       dateOfExp := u.dateOfExp.parsed.value,
       purchase := if u.purchase.Present? then u.purchase.parsed else c.purchase,
       purchaseDate := if u.purchaseDate.Present? then u.purchaseDate.parsed.value else c.purchaseDate)
  }

  /** `PUT /updateChemical/:chemicalId` (app.js:456-525). */
  function UpdateChemical(s: Store, caller: Claims, rawId: string, u: ChemicalUpdate): (r: Step<Chemical>)
    ensures r.reply.Err? ==> r.store == s
    ensures caller.role != AdminRole ==> r.reply == Err(403, AdminsOnly)
    ensures caller.role == AdminRole && Trim(rawId) !in s.chemicals ==> r.reply == Err(404, ChemicalNotFound)
    ensures caller.role == AdminRole && Trim(rawId) in s.chemicals && !UpdateAcceptable(u) ==>
      r.reply == Err(400, UpdateError(u).value)
    ensures r.reply.Ok? <==> caller.role == AdminRole && Trim(rawId) in s.chemicals && UpdateAcceptable(u)
    ensures r.reply.Ok? ==>
      var id := Trim(rawId);
      && r.reply.status == 200
      && r.store == s.(chemicals := r.store.chemicals)
      && r.store.chemicals.Keys == s.chemicals.Keys
      && OthersKept(s.chemicals, r.store.chemicals, id)
      && r.store.chemicals[id] == r.reply.value
    ensures r.reply.Ok? ==>
      var before := s.chemicals[Trim(rawId)];
      var after := r.reply.value;
      && SameDescription(before, after)
      && Some(after.gramsAvailable) == u.gramsAvailable.parsed
      && Some(after.dateOfMFG) == u.dateOfMFG.parsed
      && Some(after.dateOfExp) == u.dateOfExp.parsed
      && (u.purchase.Absent? ==> after.purchase == before.purchase)
      && (u.purchase.Present? ==> after.purchase == u.purchase.parsed)
      && (u.purchaseDate.Absent? ==> after.purchaseDate == before.purchaseDate)
      && (u.purchaseDate.Present? ==> Some(after.purchaseDate) == u.purchaseDate.parsed)
  {
    if caller.role != AdminRole then
      Step(s, Err(403, AdminsOnly))
    else
      var id := Trim(rawId);
      if id !in s.chemicals then
        Step(s, Err(404, ChemicalNotFound))
      else
        match UpdateError(u)
        case Some(e) => Step(s, Err(400, e))
        case None =>
          var c' := Updated(s.chemicals[id], u);
          Step(s.(chemicals := s.chemicals[id := c']), Ok(200, c'))
  }

  /** `DELETE /deleteChemical/:chemicalId` (app.js:532-568). The id is not trimmed. */
  function DeleteChemical(s: Store, caller: Claims, id: string): (r: Step<()>)
    ensures r.reply.Err? ==> r.store == s
    ensures caller.role != AdminRole ==> r.reply == Err(403, AdminsOnly)
    ensures caller.role == AdminRole && id !in s.chemicals ==> r.reply == Err(404, ChemicalNotFound)
    ensures r.reply.Ok? <==> caller.role == AdminRole && id in s.chemicals
    ensures r.reply.Ok? ==>
      && r.reply.status == 200
      && r.store == s.(chemicals := r.store.chemicals)
      && r.store.chemicals.Keys == s.chemicals.Keys - {id}
      && OthersKept(s.chemicals, r.store.chemicals, id)
  {
    if caller.role != AdminRole then
      Step(s, Err(403, AdminsOnly))
    else if id !in s.chemicals then
      Step(s, Err(404, ChemicalNotFound))
    else
      Step(s.(chemicals := s.chemicals - {id}), Ok(200, ()))
  }

  // ---- properties ----------------------------------------------------------

  /** In a valid store `/addChemical` by an administrator always succeeds and keeps the store valid. */
  lemma AddChemicalSucceedsAndPreservesValid(s: Store, caller: Claims, req: NewChemical, now: Millis)
    requires Valid(s) && caller.role == AdminRole
    ensures AddChemical(s, caller, req, now).reply.Ok?
    ensures Valid(AddChemical(s, caller, req, now).store)
  {
    var n := CounterValue(s.counter) + 1;
    var id := ChemicalIdOf(n);
    assert id !in s.chemicals by {
      IssuedAtMostOf(n, n - 1);
    }
    var r := AddChemical(s, caller, req, now);
    var c := r.store.chemicals[id];
    assert r.store == s.(chemicals := s.chemicals[c.chemicalId := c], counter := Some(n));
    IssuedAtMostOf(n, n);
    InsertChemicalPreservesValid(s, c, n);
  }

  /** Two successive `/addChemical` calls hand out different identifiers. */
  lemma AddChemicalIdsDistinct(s: Store, caller: Claims, a: NewChemical, b: NewChemical, t1: Millis, t2: Millis)
    requires caller.role == AdminRole
    ensures var first := AddChemical(s, caller, a, t1);
            var second := AddChemical(first.store, caller, b, t2);
            first.reply.Ok? && second.reply.Ok? ==> first.reply.value != second.reply.value
  {
    var n := CounterValue(s.counter) + 1;
    ChemicalIdOfInjective(n, n + 1);
  }

  /** Updating keeps the store valid: the chemical stays under its own identifier. */
  lemma UpdatePreservesValid(s: Store, caller: Claims, rawId: string, u: ChemicalUpdate)
    requires Valid(s)
    ensures Valid(UpdateChemical(s, caller, rawId, u).store)
  {
  }

  /** Deleting keeps the store valid. */
  lemma DeletePreservesValid(s: Store, caller: Claims, id: string)
    requires Valid(s)
    ensures Valid(DeleteChemical(s, caller, id).store)
  {
  }

  /** Add, update and delete all refuse a non-administrator, a super-administrator included, and change nothing. */
  lemma AdminGuards(s: Store, caller: Claims, req: NewChemical, now: Millis, rawId: string, u: ChemicalUpdate)
    requires caller.role != AdminRole
    ensures AddChemical(s, caller, req, now) == Step(s, Err(403, AdminsOnly))
    ensures UpdateChemical(s, caller, rawId, u) == Step(s, Err(403, AdminsOnly))
    ensures DeleteChemical(s, caller, rawId) == Step(s, Err(403, AdminsOnly))
  {
  }

  /**
   * Which 400 error an update of an existing chemical reports, in the order the
   * handler checks: missing fields, the stock value, the two dates, the
   * purchase value, the purchase date.
   */
  lemma UpdateErrors(s: Store, caller: Claims, rawId: string, u: ChemicalUpdate)
    requires caller.role == AdminRole && Trim(rawId) in s.chemicals
    ensures !FieldsPresent(u) ==>
      UpdateChemical(s, caller, rawId, u).reply == Err(400, MissingFields)
    ensures FieldsPresent(u) && !GramsValid(u) ==>
      UpdateChemical(s, caller, rawId, u).reply == Err(400, InvalidGrams)
    ensures FieldsPresent(u) && GramsValid(u) && !DatesValid(u) ==>
      UpdateChemical(s, caller, rawId, u).reply == Err(400, InvalidDates)
    ensures FieldsPresent(u) && GramsValid(u) && DatesValid(u) && !PurchaseValid(u) ==>
      UpdateChemical(s, caller, rawId, u).reply == Err(400, InvalidPurchase)
    ensures FieldsPresent(u) && GramsValid(u) && DatesValid(u) && PurchaseValid(u) && !PurchaseDateValid(u) ==>
      UpdateChemical(s, caller, rawId, u).reply == Err(400, InvalidPurchaseDate)
  {
    if !UpdateAcceptable(u) {
      assert UpdateChemical(s, caller, rawId, u).reply == Err(400, UpdateError(u).value);
    }
  }

  /** Update trims the identifier and delete does not: with padding, update finds what delete misses. */
  lemma UpdateTrimsDeleteDoesNot(s: Store, caller: Claims, id: string, u: ChemicalUpdate)
    requires caller.role == AdminRole && id in s.chemicals && Unpadded(id)
    requires " " + id !in s.chemicals
    ensures UpdateChemical(s, caller, " " + id, u).reply != Err(404, ChemicalNotFound)
    ensures DeleteChemical(s, caller, " " + id).reply == Err(404, ChemicalNotFound)
  {
    var padded := " " + id;
    assert FirstNonSpace(padded, 0) == 1 by {
      assert id != [] ==> padded[1] == id[0];
    }
    assert EndOfText(padded, 1, |padded|) == |padded| by {
      assert id != [] ==> padded[|padded| - 1] == id[|id| - 1];
    }
    assert Trim(padded) == padded[1..] == id;
  }
}
