/**
 * The role-filtered reads: `/getUserChemicals` lists usage records and
 * `/getchemicals` lists chemicals, enriched with who used them when the
 * caller is an administrator.
 */
module Views {
  import opened Wrappers
  import opened LabStore

  /** One element of a chemical's `userUsage` list. */
  datatype UsageEntry = UsageEntry(userName: string, gramsUsed: real, date: Millis)

  /** A chemical as `/getchemicals` returns it; `userUsage` is `None` when the field is not added. */
  datatype ChemicalView = ChemicalView(chemical: Chemical, userUsage: Option<seq<UsageEntry>>)

  /** What the aggregation's `$push` keeps of a usage record. */
  function EntryOf(rec: UsageRecord): UsageEntry {
    UsageEntry(rec.name, rec.gramsUsed, rec.date)
  }

  /** The records of `log` that `caller` may see: all of them for an administrator, else their own. */
  predicate Visible(caller: Claims, rec: UsageRecord) {
    caller.role == AdminRole || rec.userId == caller.id
  }

  /** `UserChemical.find({ userId })`: the records of one user, in log order. */
  function RecordsOf(log: seq<UsageRecord>, userId: UserId): (r: seq<UsageRecord>)
    ensures |r| <= |log|
    ensures forall rec :: multiset(r)[rec] == if rec.userId == userId then multiset(log)[rec] else 0
  {
    if log == [] then []
    else
      var rest := RecordsOf(log[1..], userId);
      assert log == [log[0]] + log[1..];
      if log[0].userId == userId then [log[0]] + rest else rest
  }

  /** The positions in `log` of the records of chemical `id` that `$push` turns into entry `e`. */
  ghost function EntryPositions(log: seq<UsageRecord>, id: string, e: UsageEntry): set<nat> {
    set i: nat | i < |log| && log[i].chemicalId == id && EntryOf(log[i]) == e
  }

  /** The positions in `log` of the records of chemical `id`. */
  ghost function ChemicalPositions(log: seq<UsageRecord>, id: string): set<nat> {
    set i: nat | i < |log| && log[i].chemicalId == id
  }

  /** Adding a position beyond every one in `a` adds one to the count. */
  lemma CardAddAbove(a: set<nat>, n: nat)
    requires forall i :: i in a ==> i < n
    ensures |a + {n}| == |a| + 1
  {
    assert n !in a;
  }

  /** Splitting off the last record splits off at most its own position among the chemical's records. */
  lemma ChemicalPositionsOfSnoc(log: seq<UsageRecord>, id: string)
    requires log != []
    ensures var n := |log| - 1;
            |ChemicalPositions(log, id)| == |ChemicalPositions(log[..n], id)| + (if log[n].chemicalId == id then 1 else 0)
  {
    var n := |log| - 1;
    var c0 := ChemicalPositions(log[..n], id);
    var c := ChemicalPositions(log, id);
    if log[n].chemicalId == id {
      assert c == c0 + {n};
      CardAddAbove(c0, n);
    } else {
      assert c == c0;
    }
  }

  /** Splitting off the last record splits off at most its own position among those giving `e`. */
  lemma EntryPositionsOfSnoc(log: seq<UsageRecord>, id: string, e: UsageEntry)
    requires log != []
    ensures var n := |log| - 1;
            |EntryPositions(log, id, e)|
              == |EntryPositions(log[..n], id, e)| + (if log[n].chemicalId == id && EntryOf(log[n]) == e then 1 else 0)
  {
    var n := |log| - 1;
    var e0 := EntryPositions(log[..n], id, e);
    var e1 := EntryPositions(log, id, e);
    if log[n].chemicalId == id && EntryOf(log[n]) == e {
      assert e1 == e0 + {n};
      CardAddAbove(e0, n);
    } else {
      assert e1 == e0;
    }
  }

  /**
   * The usage grouped under chemical `id`: `$push` adds one entry per record of
   * that chemical, so each entry occurs as often as records produce it.
   */
  function UsageFor(log: seq<UsageRecord>, id: string): (r: seq<UsageEntry>)
    ensures |r| == |ChemicalPositions(log, id)|
    ensures forall e :: multiset(r)[e] == |EntryPositions(log, id, e)|
    ensures forall e :: e in r <==> exists i :: 0 <= i < |log| && log[i].chemicalId == id && EntryOf(log[i]) == e
  {
    if log == [] then []
    else
      var n := |log| - 1;
      var rest := UsageFor(log[..n], id);
      ChemicalPositionsOfSnoc(log, id);
      EntryPositionsOfSnocAll(log, id);
      var r := if log[n].chemicalId == id then rest + [EntryOf(log[n])] else rest;
      UsageMembersOfSnoc(log[..n], log[n], id, rest, r);
      assert log[..n] + [log[n]] == log;
      r
  }

  /** The membership half of `UsageFor`'s contract carries over from `prev` to `prev` and one more record. */
  lemma UsageMembersOfSnoc(prev: seq<UsageRecord>, last: UsageRecord, id: string, rest: seq<UsageEntry>, r: seq<UsageEntry>)
    requires forall e :: e in rest <==> exists i :: 0 <= i < |prev| && prev[i].chemicalId == id && EntryOf(prev[i]) == e
    requires r == if last.chemicalId == id then rest + [EntryOf(last)] else rest
    ensures forall e :: e in r <==>
      exists i :: 0 <= i < |prev + [last]| && (prev + [last])[i].chemicalId == id && EntryOf((prev + [last])[i]) == e
  {
    assert forall i :: 0 <= i < |prev| ==> (prev + [last])[i] == prev[i];
    assert (prev + [last])[|prev|] == last;
  }

  /** `EntryPositionsOfSnoc` for every entry at once. */
  lemma EntryPositionsOfSnocAll(log: seq<UsageRecord>, id: string)
    requires log != []
    ensures var n := |log| - 1;
            forall e :: |EntryPositions(log, id, e)|
              == |EntryPositions(log[..n], id, e)| + (if log[n].chemicalId == id && EntryOf(log[n]) == e then 1 else 0)
  {
    forall e {
      EntryPositionsOfSnoc(log, id, e);
    }
  }

  /** `GET /getUserChemicals` (app.js:355-368). */
  function GetUserChemicals(s: Store, caller: Claims): (r: seq<UsageRecord>)
    ensures caller.role == AdminRole ==> r == s.usage
    ensures forall rec :: multiset(r)[rec] == if Visible(caller, rec) then multiset(s.usage)[rec] else 0
  {
    if caller.role == AdminRole then s.usage else RecordsOf(s.usage, caller.id)
  }

  /** `GET /getchemicals` (app.js:275-313). */
  function GetChemicals(s: Store, caller: Claims): (r: map<string, ChemicalView>)
    ensures r.Keys == s.chemicals.Keys
    ensures forall k :: k in r ==> r[k].chemical == s.chemicals[k]
    ensures forall k :: k in r ==> (r[k].userUsage.Some? <==> caller.role == AdminRole)
    ensures forall k, e :: k in r && r[k].userUsage.Some? ==>
      multiset(r[k].userUsage.value)[e] == |EntryPositions(s.usage, s.chemicals[k].chemicalId, e)|
    ensures forall k, e :: k in r && r[k].userUsage.Some? ==>
      (e in r[k].userUsage.value <==>
         exists i :: 0 <= i < |s.usage| && s.usage[i].chemicalId == s.chemicals[k].chemicalId && EntryOf(s.usage[i]) == e)
  {
    map k | k in s.chemicals ::
      ChemicalView(s.chemicals[k],
                   if caller.role == AdminRole then Some(UsageFor(s.usage, s.chemicals[k].chemicalId)) else None)
  }

  /** A non-administrator sees exactly their own records, and every one of them. */
  lemma OwnRecordsOnly(s: Store, caller: Claims, rec: UsageRecord)
    requires caller.role != AdminRole
    ensures rec in GetUserChemicals(s, caller) <==> rec in s.usage && rec.userId == caller.id
  {
    var r := GetUserChemicals(s, caller);
    assert multiset(r)[rec] == if rec.userId == caller.id then multiset(s.usage)[rec] else 0;
  }

  /** Every issue is visible to the user it was made for and to every administrator, never to another user. */
  lemma IssueVisibility(s: Store, rec: UsageRecord, viewer: Claims)
    requires rec in s.usage
    ensures rec in GetUserChemicals(s, viewer) <==> viewer.role == AdminRole || viewer.id == rec.userId
  {
    if viewer.role != AdminRole {
      OwnRecordsOnly(s, viewer, rec);
    }
  }
}
