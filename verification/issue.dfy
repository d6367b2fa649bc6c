/**
 * `/requestChemical`: a user takes grams of a chemical out of stock. The
 * handler validates the request, checks the stock, deducts the amount and
 * logs the issue as a `UserChemical` record.
 */
module Issue {
  import opened Wrappers
  import opened LabStore

  /** The body of a `/requestChemical` request. An empty `chemicalId` stands
      for a missing one; `requestedGrams` is `Absent` for any falsy value. */
  datatype IssueRequest = IssueRequest(chemicalId: string, requestedGrams: Input<real>)

  /** Every check of the handler passes: the reference for when an issue succeeds. */
  predicate IssueAllowed(s: Store, caller: Claims, req: IssueRequest) {
    && req.chemicalId != ""
    && req.requestedGrams.Present? && req.requestedGrams.parsed.Some?
    && req.requestedGrams.parsed.value > 0.0
    && req.chemicalId in s.chemicals
    && s.chemicals[req.chemicalId].gramsAvailable >= req.requestedGrams.parsed.value
    && HasId(s.users, caller.id)
  }

  /** `POST /requestChemical` (app.js:316-352). The reply carries `updatedStock`. */
  function RequestChemical(s: Store, caller: Claims, req: IssueRequest, now: Millis): (r: Step<real>)
    ensures r.reply.Ok? <==> IssueAllowed(s, caller, req)
    ensures r.reply.Err? ==> r.store == s
    ensures r.reply.Ok? ==> r.store.chemicals.Keys == s.chemicals.Keys
    ensures r.reply.Ok? ==>
      var id := req.chemicalId;
      var grams := req.requestedGrams.parsed.value;
      var before := s.chemicals[id];
      var after := r.store.chemicals[id];
      && r.reply.status == 200
      && r.store == s.(chemicals := r.store.chemicals, usage := r.store.usage)
      && (forall k :: k in s.chemicals && k != id ==> r.store.chemicals[k] == s.chemicals[k])
      && after == before.(gramsAvailable := after.gramsAvailable)
      && after.gramsAvailable == before.gramsAvailable - grams
      && after.gramsAvailable >= 0.0
      && r.reply.value == after.gramsAvailable
      && |r.store.usage| == |s.usage| + 1
      && r.store.usage[..|s.usage|] == s.usage
      && var rec := r.store.usage[|s.usage|];
         rec.userId == caller.id && rec.chemicalId == before.chemicalId
         && rec.chemicalName == before.chemicalName && rec.gramsUsed == grams && rec.date == now
         && exists u :: u in s.users && u.id == caller.id && rec.name == u.name
  {
    if req.chemicalId == "" || req.requestedGrams.Absent? then
      Step(s, Err(400, MissingFields))
    else if req.requestedGrams.parsed.None? || req.requestedGrams.parsed.value <= 0.0 then
      Step(s, Err(400, InvalidGrams))
    else if req.chemicalId !in s.chemicals then
      Step(s, Err(404, ChemicalNotFound))
    else
      var grams := req.requestedGrams.parsed.value;
      var c := s.chemicals[req.chemicalId];
      if c.gramsAvailable < grams then
        Step(s, Err(400, NotEnoughStock))
      else
        match UserById(s.users, caller.id)
        case None => Step(s, Err(404, UserNotFound))
        case Some(u) =>
          var c' := c.(gramsAvailable := c.gramsAvailable - grams);
          var rec := UsageRecord(caller.id, c.chemicalId, c.chemicalName, grams, now, u.name);
          Step(s.(chemicals := s.chemicals[req.chemicalId := c'], usage := s.usage + [rec]),
               Ok(200, c'.gramsAvailable))
  }

  /** Which error a refused issue reports, in the order the handler checks. */
  lemma IssueErrors(s: Store, caller: Claims, req: IssueRequest, now: Millis)
    ensures req.chemicalId == "" || req.requestedGrams.Absent? ==>
      RequestChemical(s, caller, req, now).reply == Err(400, MissingFields)
    ensures req.chemicalId != "" && req.requestedGrams.Present?
            && (req.requestedGrams.parsed.None? || req.requestedGrams.parsed.value <= 0.0) ==>
      RequestChemical(s, caller, req, now).reply == Err(400, InvalidGrams)
    ensures req.chemicalId != "" && req.requestedGrams.Present? && req.requestedGrams.parsed.Some?
            && req.requestedGrams.parsed.value > 0.0 ==>
      var grams := req.requestedGrams.parsed.value;
      && (req.chemicalId !in s.chemicals ==> RequestChemical(s, caller, req, now).reply == Err(404, ChemicalNotFound))
      && (req.chemicalId in s.chemicals && s.chemicals[req.chemicalId].gramsAvailable < grams ==>
            RequestChemical(s, caller, req, now).reply == Err(400, NotEnoughStock))
      && (req.chemicalId in s.chemicals && s.chemicals[req.chemicalId].gramsAvailable >= grams && !HasId(s.users, caller.id) ==>
            RequestChemical(s, caller, req, now).reply == Err(404, UserNotFound))
  {
  }

  /** Issuing never drives a stock negative that was not negative before. */
  lemma IssueKeepsStockNonNegative(s: Store, caller: Claims, req: IssueRequest, now: Millis)
    requires forall k :: k in s.chemicals ==> s.chemicals[k].gramsAvailable >= 0.0
    ensures var s' := RequestChemical(s, caller, req, now).store;
            forall k :: k in s'.chemicals ==> s'.chemicals[k].gramsAvailable >= 0.0
  {
  }

  /** An issue keeps the store valid. */
  lemma IssuePreservesValid(s: Store, caller: Claims, req: IssueRequest, now: Millis)
    requires Valid(s)
    ensures Valid(RequestChemical(s, caller, req, now).store)
  {
  }

  /** The total the usage log records as issued of chemical `id`. */
  function Issued(log: seq<UsageRecord>, id: string): real
  {
    if log == [] then 0.0
    else Issued(log[..|log| - 1], id) + (if log[|log| - 1].chemicalId == id then log[|log| - 1].gramsUsed else 0.0)
  }

  /**
   * Stock and usage log stay in balance: whatever an issue takes from a
   * chemical's stock, the log records for that chemical.
   */
  lemma {:induction false} IssueConservesStock(s: Store, caller: Claims, req: IssueRequest, now: Millis, id: string)
    requires Valid(s) && id in s.chemicals
    ensures var s' := RequestChemical(s, caller, req, now).store;
            id in s'.chemicals &&
            s'.chemicals[id].gramsAvailable + Issued(s'.usage, id) == s.chemicals[id].gramsAvailable + Issued(s.usage, id)
  {
    var s' := RequestChemical(s, caller, req, now).store;
    if RequestChemical(s, caller, req, now).reply.Ok? {
      assert s'.usage[..|s'.usage| - 1] == s.usage;
    }
  }
}
