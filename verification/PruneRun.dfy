/** One pruning run over a whole bucket: parse, group, plan every incarnation, delete in order. */
module PruneRun {
  import opened Options
  import opened Sorting
  import opened BackupKeys
  import opened PruneBackups

  datatype Entry = Entry(key: string, lastModified: int)
  datatype Refusal = Refusal(uuid: string, reason: Reason)
  datatype PrunePlan = PrunePlan(deleteDumps: seq<Dump>, deleteBinlogs: seq<Binlog>, refusals: seq<Refusal>)

  function DumpsIn(listing: seq<Entry>): seq<Dump> {
    if listing == [] then []
    else
      var e := listing[|listing| - 1];
      var parsed := ParseDumpKey(e.key);
      DumpsIn(listing[..|listing| - 1])
      + (if parsed.Some? then [Dump(e.key, parsed.value.uuid, e.lastModified)] else [])
  }

  function BinlogsIn(listing: seq<Entry>): seq<Binlog> {
    if listing == [] then []
    else
      var e := listing[|listing| - 1];
      var parsed := ParseBinlogKey(e.key);
      BinlogsIn(listing[..|listing| - 1])
      + (if parsed.Some? then [Binlog(e.key, parsed.value.uuid, parsed.value.name, e.lastModified)] else [])
  }

  method ParseDumpObjects(listing: seq<Entry>) returns (objects: seq<Dump>)
    ensures objects == DumpsIn(listing)
  {
    objects := [];
    for i := 0 to |listing|
      invariant objects == DumpsIn(listing[..i])
    {
      assert listing[..i + 1][..i] == listing[..i];
      var parsed := ParseDumpKey(listing[i].key);
      if parsed.Some? {
        objects := objects + [Dump(listing[i].key, parsed.value.uuid, listing[i].lastModified)];
      }
    }
    assert listing[..|listing|] == listing;
  }

  method ParseBinlogObjects(listing: seq<Entry>) returns (objects: seq<Binlog>)
    ensures objects == BinlogsIn(listing)
  {
    objects := [];
    for i := 0 to |listing|
      invariant objects == BinlogsIn(listing[..i])
    {
      assert listing[..i + 1][..i] == listing[..i];
      var parsed := ParseBinlogKey(listing[i].key);
      if parsed.Some? {
        objects := objects + [Binlog(listing[i].key, parsed.value.uuid, parsed.value.name, listing[i].lastModified)];
      }
    }
    assert listing[..|listing|] == listing;
  }

  function OfUuid(uuid: string): Dump -> bool { (d: Dump) => d.uuid == uuid }
  function LogOfUuid(uuid: string): Binlog -> bool { (b: Binlog) => b.uuid == uuid }

  function DumpsOf(dumps: seq<Dump>, uuid: string): seq<Dump> { Filter(dumps, OfUuid(uuid)) }
  function BinlogsOf(binlogs: seq<Binlog>, uuid: string): seq<Binlog> { Filter(binlogs, LogOfUuid(uuid)) }

  function Decision(dumps: seq<Dump>, binlogs: seq<Binlog>, uuid: string, now: int, p: Policy): GroupPlan {
    PlanGroup(DumpsOf(dumps, uuid), BinlogsOf(binlogs, uuid), now, p)
  }

  /** The plan over a list of incarnations: each one's decision, in turn. */
  function PlanOver(dumps: seq<Dump>, binlogs: seq<Binlog>, uuids: seq<string>, now: int, p: Policy): PrunePlan {
    if uuids == [] then PrunePlan([], [], [])
    else
      var before := PlanOver(dumps, binlogs, uuids[..|uuids| - 1], now, p);
      var uuid := uuids[|uuids| - 1];
      match Decision(dumps, binlogs, uuid, now, p)
      case Refused(reason) => before.(refusals := before.refusals + [Refusal(uuid, reason)])
      case Planned(dead, gone) =>
        before.(deleteDumps := before.deleteDumps + dead, deleteBinlogs := before.deleteBinlogs + gone)
  }

  function FirstSeen(names: seq<string>): seq<string> {
    if names == [] then []
    else
      var front, last := FirstSeen(names[..|names| - 1]), names[|names| - 1];
      if last in front then front else front + [last]
  }

  /** `sorted(set(dump_groups) | set(binlog_groups))`. */
  function UuidsOf(dumps: seq<Dump>, binlogs: seq<Binlog>): seq<string> {
    StableSort(FirstSeen(seq(|dumps|, i requires 0 <= i < |dumps| => dumps[i].uuid)
                         + seq(|binlogs|, i requires 0 <= i < |binlogs| => binlogs[i].uuid)), NameLe)
  }

  lemma {:induction false} FirstSeenIs(names: seq<string>)
    ensures Distinct(FirstSeen(names)) && forall n :: n in FirstSeen(names) <==> n in names
  {
    if names != [] {
      FirstSeenIs(names[..|names| - 1]);
      assert names == names[..|names| - 1] + [names[|names| - 1]];
    }
  }

  /** Every incarnation the listing names is decided, and none twice. */
  lemma UuidsAreListed(dumps: seq<Dump>, binlogs: seq<Binlog>)
    ensures Distinct(UuidsOf(dumps, binlogs))
    ensures forall d | d in dumps :: d.uuid in UuidsOf(dumps, binlogs)
    ensures forall b | b in binlogs :: b.uuid in UuidsOf(dumps, binlogs)
  {
    var ds := seq(|dumps|, i requires 0 <= i < |dumps| => dumps[i].uuid);
    var bs := seq(|binlogs|, i requires 0 <= i < |binlogs| => binlogs[i].uuid);
    var seen := FirstSeen(ds + bs);
    FirstSeenIs(ds + bs);
    SortContains(seen, NameLe);
    SortMembers(seen, NameLe);
    DistinctByCount(seen);
    DistinctByCount(StableSort(seen, NameLe));
    forall d | d in dumps ensures d.uuid in ds + bs {
      var i :| 0 <= i < |dumps| && dumps[i] == d;
      assert ds[i] == d.uuid;
    }
    forall b | b in binlogs ensures b.uuid in ds + bs {
      var i :| 0 <= i < |binlogs| && binlogs[i] == b;
      assert bs[i] == b.uuid;
    }
  }

  /** `groups.get(uuid, [])`. */
  function Get<T>(groups: map<string, seq<T>>, uuid: string): seq<T> { if uuid in groups then groups[uuid] else [] }

  /** `_group_by_uuid`: each incarnation's objects, in listing order. */
  method GroupByUuid<T(!new)>(objects: seq<T>, uuid: T -> string, of: string -> (T -> bool))
    returns (groups: map<string, seq<T>>)
    requires forall u, x: T :: of(u)(x) <==> uuid(x) == u
    ensures forall u :: u in groups <==> exists x | x in objects :: uuid(x) == u
    ensures forall u :: Get(groups, u) == Filter(objects, of(u))
  {
    groups := map[];
    for i := 0 to |objects|
      invariant forall u :: u in groups <==> exists x | x in objects[..i] :: uuid(x) == u
      invariant forall u :: Get(groups, u) == Filter(objects[..i], of(u))
    {
      var x := objects[i];
      forall u { GroupStep(objects[..i], x, of(u)); }
      assert objects[..i + 1] == objects[..i] + [x];
      groups := groups[uuid(x) := Get(groups, uuid(x)) + [x]];
    }
    assert objects[..|objects|] == objects;
  }

  lemma GroupStep<T(!new)>(front: seq<T>, last: T, keep: T -> bool)
    ensures Filter(front + [last], keep) == Filter(front, keep) + (if keep(last) then [last] else [])
  {
    FilterConcat(front, [last], keep);
    FilterCons(last, [], keep);
    assert [last] + [] == [last];
  }

  function PlanAll(dumps: seq<Dump>, binlogs: seq<Binlog>, now: int, p: Policy): PrunePlan {
    PlanOver(dumps, binlogs, UuidsOf(dumps, binlogs), now, p)
  }

  /** The planning loop, one incarnation after another in sorted order. */
  method PlanPrune(dumps: seq<Dump>, binlogs: seq<Binlog>, now: int, p: Policy) returns (plan: PrunePlan)
    ensures plan == PlanAll(dumps, binlogs, now, p)
  {
    var dumpGroups := GroupByUuid(dumps, (d: Dump) => d.uuid, OfUuid);
    var binlogGroups := GroupByUuid(binlogs, (b: Binlog) => b.uuid, LogOfUuid);
    var uuids := UuidsOf(dumps, binlogs);
    var deleteDumps, deleteBinlogs, refusals := [], [], [];
    for i := 0 to |uuids|
      invariant PrunePlan(deleteDumps, deleteBinlogs, refusals) == PlanOver(dumps, binlogs, uuids[..i], now, p)
    {
      assert uuids[..i + 1][..i] == uuids[..i];
      var decision := PlanGroup(Get(dumpGroups, uuids[i]), Get(binlogGroups, uuids[i]), now, p);
      assert decision == Decision(dumps, binlogs, uuids[i], now, p);
      if decision.Refused? {
        refusals := refusals + [Refusal(uuids[i], decision.reason)];
      } else {
        deleteDumps := deleteDumps + decision.dumps;
        deleteBinlogs := deleteBinlogs + decision.binlogs;
      }
    }
    assert uuids[..|uuids|] == uuids;
    return PrunePlan(deleteDumps, deleteBinlogs, refusals);
  }

  /** `build_plan`: parse the two listings, then plan. */
  method BuildPlan(dumpListing: seq<Entry>, binlogListing: seq<Entry>, now: int, p: Policy) returns (plan: PrunePlan)
    ensures plan == PlanAll(DumpsIn(dumpListing), BinlogsIn(binlogListing), now, p)
  {
    var dumps := ParseDumpObjects(dumpListing);
    var binlogs := ParseBinlogObjects(binlogListing);
    plan := PlanPrune(dumps, binlogs, now, p);
  }

  /* Each incarnation is decided on its own. */

  lemma DecisionStaysHome(dumps: seq<Dump>, binlogs: seq<Binlog>, uuid: string, now: int, p: Policy)
    ensures var decision := Decision(dumps, binlogs, uuid, now, p);
      && (forall d | d in PlannedDumps(decision) :: d.uuid == uuid && d in dumps)
      && (forall b | b in PlannedBinlogs(decision) :: b.uuid == uuid && b in binlogs)
  {
    var mine, logs := DumpsOf(dumps, uuid), BinlogsOf(binlogs, uuid);
    FilterMembers(dumps, OfUuid(uuid));
    FilterMembers(binlogs, LogOfUuid(uuid));
    BinlogsCleanPrefix(mine, logs, now, p);
    if Anchor(mine, AnchorCutoff(now, p)).Some? {
      PlanShape(mine, logs, now, p);
      SortedDumpFacts(mine);
      FilterMembers(SortDumps(mine),
                    DumpKeyNotIn(KeepKeys(mine, RetentionCutoff(now, p), Anchor(mine, AnchorCutoff(now, p)).value)));
    }
  }

  /** One more incarnation's decision adds to its own share and to no other. */
  lemma DecisionShare(dumps: seq<Dump>, binlogs: seq<Binlog>, last: string, now: int, p: Policy, uuid: string)
    ensures var decision := Decision(dumps, binlogs, last, now, p);
      && DumpsOf(PlannedDumps(decision), uuid) == (if uuid == last then PlannedDumps(decision) else [])
      && BinlogsOf(PlannedBinlogs(decision), uuid) == (if uuid == last then PlannedBinlogs(decision) else [])
  {
    var decision := Decision(dumps, binlogs, last, now, p);
    DecisionStaysHome(dumps, binlogs, last, now, p);
    if uuid == last {
      FilterAll(PlannedDumps(decision), OfUuid(uuid));
      FilterAll(PlannedBinlogs(decision), LogOfUuid(uuid));
    } else {
      FilterNone(PlannedDumps(decision), OfUuid(uuid));
      FilterNone(PlannedBinlogs(decision), LogOfUuid(uuid));
    }
  }

  lemma DecisionAppends(dumps: seq<Dump>, binlogs: seq<Binlog>, uuids: seq<string>, now: int, p: Policy)
    requires uuids != []
    ensures var before := PlanOver(dumps, binlogs, uuids[..|uuids| - 1], now, p);
      var decision := Decision(dumps, binlogs, uuids[|uuids| - 1], now, p);
      var plan := PlanOver(dumps, binlogs, uuids, now, p);
      && plan.deleteDumps == before.deleteDumps + PlannedDumps(decision)
      && plan.deleteBinlogs == before.deleteBinlogs + PlannedBinlogs(decision)
      && plan.refusals == before.refusals
           + (if decision.Refused? then [Refusal(uuids[|uuids| - 1], decision.reason)] else [])
  {
  }

  /** What the whole plan deletes of one incarnation is that incarnation's own decision,
      a function of its own objects only. */
  lemma {:induction false} DecidedIndependently(dumps: seq<Dump>, binlogs: seq<Binlog>, uuids: seq<string>, now: int,
                                                p: Policy, uuid: string)
    requires Distinct(uuids)
    ensures var plan := PlanOver(dumps, binlogs, uuids, now, p);
      var decision := Decision(dumps, binlogs, uuid, now, p);
      && DumpsOf(plan.deleteDumps, uuid) == (if uuid in uuids then PlannedDumps(decision) else [])
      && BinlogsOf(plan.deleteBinlogs, uuid) == (if uuid in uuids then PlannedBinlogs(decision) else [])
  {
    if uuids != [] {
      var front, last := uuids[..|uuids| - 1], uuids[|uuids| - 1];
      assert uuids == front + [last] && last !in front;
      DecidedIndependently(dumps, binlogs, front, now, p, uuid);
      DecisionAppends(dumps, binlogs, uuids, now, p);
      DecisionShare(dumps, binlogs, last, now, p, uuid);
      var before := PlanOver(dumps, binlogs, front, now, p);
      var decision := Decision(dumps, binlogs, last, now, p);
      FilterConcat(before.deleteDumps, PlannedDumps(decision), OfUuid(uuid));
      FilterConcat(before.deleteBinlogs, PlannedBinlogs(decision), LogOfUuid(uuid));
    }
  }

  /** A refusal is recorded exactly for the incarnations whose own decision it is. */
  lemma {:induction false} RefusalsRecorded(dumps: seq<Dump>, binlogs: seq<Binlog>, uuids: seq<string>, now: int,
                                            p: Policy, r: Refusal)
    ensures r in PlanOver(dumps, binlogs, uuids, now, p).refusals
      <==> r.uuid in uuids && Decision(dumps, binlogs, r.uuid, now, p) == Refused(r.reason)
  {
    if uuids != [] {
      var front, last := uuids[..|uuids| - 1], uuids[|uuids| - 1];
      assert uuids == front + [last];
      RefusalsRecorded(dumps, binlogs, front, now, p, r);
      DecisionAppends(dumps, binlogs, uuids, now, p);
    }
  }

  /* Deletion, and stopping in the middle of it. */

  function PlanKeys(plan: PrunePlan): seq<string> {
    seq(|plan.deleteDumps|, i requires 0 <= i < |plan.deleteDumps| => plan.deleteDumps[i].key)
    + seq(|plan.deleteBinlogs|, i requires 0 <= i < |plan.deleteBinlogs| => plan.deleteBinlogs[i].key)
  }

  function KeySet(keys: seq<string>): set<string> { set k | k in keys }

  class Bucket {
    var objects: map<string, int>

    /** Deletes in plan order, dumps first; the run may stop before removal number `stopAt`. */
    method ApplyPlan(plan: PrunePlan, stopAt: nat) returns (removed: nat)
      modifies this
      ensures removed == if stopAt < |PlanKeys(plan)| then stopAt else |PlanKeys(plan)|
      ensures objects == old(objects) - KeySet(PlanKeys(plan)[..removed])
    {
      var keys := PlanKeys(plan);
      removed := 0;
      while removed < |keys| && removed < stopAt
        invariant removed <= |keys| && removed <= stopAt
        invariant objects == old(objects) - KeySet(keys[..removed])
      {
        assert keys[..removed + 1] == keys[..removed] + [keys[removed]];
        objects := objects - {keys[removed]};
        removed := removed + 1;
      }
    }
  }

  /** A key names one kind of object, one incarnation and one log, as any parsed listing guarantees. */
  predicate KeysDetermine(dumps: seq<Dump>, binlogs: seq<Binlog>) {
    && (forall a, b | a in dumps && b in dumps && a.key == b.key :: a.uuid == b.uuid)
    && (forall a, b | a in binlogs && b in binlogs && a.key == b.key :: a.uuid == b.uuid && a.logName == b.logName)
    && (forall a, b | a in dumps && b in binlogs :: a.key != b.key)
  }

  lemma {:induction false} DumpsInAre(listing: seq<Entry>)
    ensures forall d | d in DumpsIn(listing) :: ParseDumpKey(d.key).Some? && ParseDumpKey(d.key).value.uuid == d.uuid
  {
    if listing != [] {
      DumpsInAre(listing[..|listing| - 1]);
    }
  }

  lemma {:induction false} BinlogsInAre(listing: seq<Entry>)
    ensures forall b | b in BinlogsIn(listing) :: ParseBinlogKey(b.key) == Some(KeyParts(b.uuid, b.logName))
  {
    if listing != [] {
      BinlogsInAre(listing[..|listing| - 1]);
    }
  }

  lemma ParsedKeysDetermine(dumpListing: seq<Entry>, binlogListing: seq<Entry>)
    ensures KeysDetermine(DumpsIn(dumpListing), BinlogsIn(binlogListing))
  {
    DumpsInAre(dumpListing);
    BinlogsInAre(binlogListing);
    forall a, b | a in DumpsIn(dumpListing) && b in BinlogsIn(binlogListing) ensures a.key != b.key {
      KeyKindsDiffer(a.key);
    }
  }

  lemma {:induction false} PlanIsFromListing(dumps: seq<Dump>, binlogs: seq<Binlog>, uuids: seq<string>, now: int,
                                             p: Policy)
    ensures var plan := PlanOver(dumps, binlogs, uuids, now, p);
      && (forall d | d in plan.deleteDumps :: d in dumps)
      && (forall b | b in plan.deleteBinlogs :: b in binlogs)
  {
    if uuids != [] {
      var last := uuids[|uuids| - 1];
      PlanIsFromListing(dumps, binlogs, uuids[..|uuids| - 1], now, p);
      DecisionStaysHome(dumps, binlogs, last, now, p);
    }
  }

  lemma RemovedKeyIsPlanned(plan: PrunePlan, removed: nat, k: string)
    requires removed <= |PlanKeys(plan)| && k in KeySet(PlanKeys(plan)[..removed])
    ensures (exists d | d in plan.deleteDumps :: d.key == k) || (exists b | b in plan.deleteBinlogs :: b.key == k)
  {
    var keys := PlanKeys(plan);
    var i :| 0 <= i < |keys| && keys[i] == k;
    if i < |plan.deleteDumps| {
      assert plan.deleteDumps[i] in plan.deleteDumps;
    } else {
      assert plan.deleteBinlogs[i - |plan.deleteDumps|] in plan.deleteBinlogs;
    }
  }

  /** A removed key that names one incarnation's dump was planned by that incarnation. */
  lemma RemovedDumpIsMine(dumps: seq<Dump>, binlogs: seq<Binlog>, uuids: seq<string>, t1: int, p: Policy, uuid: string,
                          removed: nat, k: string)
    requires Distinct(uuids) && KeysDetermine(dumps, binlogs)
    requires removed <= |PlanKeys(PlanOver(dumps, binlogs, uuids, t1, p))|
    requires k in KeySet(PlanKeys(PlanOver(dumps, binlogs, uuids, t1, p))[..removed])
    requires k in DumpKeys(DumpsOf(dumps, uuid))
    ensures k in DumpKeys(PlannedDumps(Decision(dumps, binlogs, uuid, t1, p)))
  {
    var plan := PlanOver(dumps, binlogs, uuids, t1, p);
    RemovedKeyIsPlanned(plan, removed, k);
    PlanIsFromListing(dumps, binlogs, uuids, t1, p);
    DecidedIndependently(dumps, binlogs, uuids, t1, p, uuid);
    FilterMembers(dumps, OfUuid(uuid));
    FilterMembers(plan.deleteDumps, OfUuid(uuid));
    var e :| e in DumpsOf(dumps, uuid) && e.key == k;
    assert e in dumps;
    var d :| d in plan.deleteDumps && d.key == k;
    assert d in DumpsOf(plan.deleteDumps, uuid);
  }

  lemma RemovedBinlogIsMine(dumps: seq<Dump>, binlogs: seq<Binlog>, uuids: seq<string>, t1: int, p: Policy,
                            uuid: string, removed: nat, k: string)
    requires Distinct(uuids) && KeysDetermine(dumps, binlogs)
    requires removed <= |PlanKeys(PlanOver(dumps, binlogs, uuids, t1, p))|
    requires k in KeySet(PlanKeys(PlanOver(dumps, binlogs, uuids, t1, p))[..removed])
    requires k in BinlogKeys(BinlogsOf(binlogs, uuid))
    ensures k in BinlogKeys(PlannedBinlogs(Decision(dumps, binlogs, uuid, t1, p)))
  {
    var plan := PlanOver(dumps, binlogs, uuids, t1, p);
    RemovedKeyIsPlanned(plan, removed, k);
    PlanIsFromListing(dumps, binlogs, uuids, t1, p);
    DecidedIndependently(dumps, binlogs, uuids, t1, p, uuid);
    FilterMembers(binlogs, LogOfUuid(uuid));
    FilterMembers(plan.deleteBinlogs, LogOfUuid(uuid));
    var e :| e in BinlogsOf(binlogs, uuid) && e.key == k;
    assert e in binlogs;
    var b :| b in plan.deleteBinlogs && b.key == k;
    assert b in BinlogsOf(plan.deleteBinlogs, uuid);
  }

  /** Keys removed from the whole bucket touch an incarnation only through its own decision. */
  lemma RemovedIsPartOfPlan(dumps: seq<Dump>, binlogs: seq<Binlog>, uuids: seq<string>, t1: int, p: Policy,
                            uuid: string, removed: nat)
    requires Distinct(uuids) && KeysDetermine(dumps, binlogs)
    requires removed <= |PlanKeys(PlanOver(dumps, binlogs, uuids, t1, p))|
    ensures var gone := KeySet(PlanKeys(PlanOver(dumps, binlogs, uuids, t1, p))[..removed]);
      var mine, logs := DumpsOf(dumps, uuid), BinlogsOf(binlogs, uuid);
      PartOfPlan(mine, logs, t1, p, gone * DumpKeys(mine), gone * BinlogKeys(logs))
  {
    var gone := KeySet(PlanKeys(PlanOver(dumps, binlogs, uuids, t1, p))[..removed]);
    var mine, logs := DumpsOf(dumps, uuid), BinlogsOf(binlogs, uuid);
    forall k | k in gone * DumpKeys(mine) ensures k in DumpKeys(PlannedDumps(PlanGroup(mine, logs, t1, p))) {
      RemovedDumpIsMine(dumps, binlogs, uuids, t1, p, uuid, removed, k);
    }
    forall k | k in gone * BinlogKeys(logs) ensures k in BinlogKeys(PlannedBinlogs(PlanGroup(mine, logs, t1, p))) {
      RemovedBinlogIsMine(dumps, binlogs, uuids, t1, p, uuid, removed, k);
    }
  }

  /** Wherever a run over the whole bucket stopped, finishing at `t2` leaves every incarnation
      (whose direct decision at `t2` is not a refusal) as one undisturbed run at `t2` would. */
  lemma StoppedRunConverges(dumps: seq<Dump>, binlogs: seq<Binlog>, t1: int, t2: int, p: Policy, removed: nat,
                            uuid: string)
    requires t1 <= t2 && p.margin >= 0 && KeysDetermine(dumps, binlogs)
    requires removed <= |PlanKeys(PlanAll(dumps, binlogs, t1, p))|
    requires Decision(dumps, binlogs, uuid, t2, p).Planned?
    ensures var gone := KeySet(PlanKeys(PlanAll(dumps, binlogs, t1, p))[..removed]);
      var d1, b1 := DumpsOf(LeftDumps(dumps, gone), uuid), BinlogsOf(LeftBinlogs(binlogs, gone), uuid);
      && DumpsAfter(d1, b1, t2, p) == DumpsAfter(DumpsOf(dumps, uuid), BinlogsOf(binlogs, uuid), t2, p)
      && BinlogsAfter(d1, b1, t2, p) == BinlogsAfter(DumpsOf(dumps, uuid), BinlogsOf(binlogs, uuid), t2, p)
  {
    var gone := KeySet(PlanKeys(PlanAll(dumps, binlogs, t1, p))[..removed]);
    var mine, logs := DumpsOf(dumps, uuid), BinlogsOf(binlogs, uuid);
    UuidsAreListed(dumps, binlogs);
    RemovedIsPartOfPlan(dumps, binlogs, UuidsOf(dumps, binlogs), t1, p, uuid, removed);
    FilterMembers(binlogs, LogOfUuid(uuid));
    PruneConverges(mine, logs, t1, t2, p, gone * DumpKeys(mine), gone * BinlogKeys(logs));
    FilterSwap(dumps, DumpKeyNotIn(gone), OfUuid(uuid));
    FilterSwap(binlogs, BinlogKeyNotIn(gone), LogOfUuid(uuid));
    FilterCongruent(mine, DumpKeyNotIn(gone), DumpKeyNotIn(gone * DumpKeys(mine)));
    FilterCongruent(logs, BinlogKeyNotIn(gone), BinlogKeyNotIn(gone * BinlogKeys(logs)));
  }

  /** What the whole plan deletes of an incarnation, and in which order. */
  lemma WholePlan(dumps: seq<Dump>, binlogs: seq<Binlog>, now: int, p: Policy, uuid: string)
    ensures var plan := PlanAll(dumps, binlogs, now, p);
      var decision := Decision(dumps, binlogs, uuid, now, p);
      && DumpsOf(plan.deleteDumps, uuid) == PlannedDumps(decision)
      && BinlogsOf(plan.deleteBinlogs, uuid) == PlannedBinlogs(decision)
  {
    UuidsAreListed(dumps, binlogs);
    DecidedIndependently(dumps, binlogs, UuidsOf(dumps, binlogs), now, p, uuid);
    if uuid !in UuidsOf(dumps, binlogs) {
      DecisionStaysHome(dumps, binlogs, uuid, now, p);
      NoMembers(PlannedDumps(Decision(dumps, binlogs, uuid, now, p)));
      NoMembers(PlannedBinlogs(Decision(dumps, binlogs, uuid, now, p)));
    }
  }

  /* What a plan makes of the two listings themselves. */

  /** The entry is a dump of that incarnation. */
  ghost predicate DumpEntry(e: Entry, uuid: string) {
    exists stamp :: StampText(stamp) && PathSegment(uuid) && e.key == DumpKey(uuid, stamp)
  }

  lemma DumpEntryIff(e: Entry, uuid: string)
    ensures DumpEntry(e, uuid) <==> ParseDumpKey(e.key).Some? && ParseDumpKey(e.key).value.uuid == uuid
  {
    if DumpEntry(e, uuid) {
      var stamp :| StampText(stamp) && PathSegment(uuid) && e.key == DumpKey(uuid, stamp);
      DumpKeyIff(e.key, uuid, stamp);
    }
    if ParseDumpKey(e.key).Some? && ParseDumpKey(e.key).value.uuid == uuid {
      DumpKeyIff(e.key, uuid, ParseDumpKey(e.key).value.name);
    }
  }

  /** Each dump entry gives one dump, of its own key, incarnation and upload time, in listing order. */
  lemma {:induction false} DumpsInParts(front: seq<Entry>, e: Entry, rest: seq<Entry>)
    ensures DumpsIn(front + [e] + rest) == DumpsIn(front) + DumpsIn([e]) + DumpsIn(rest)
    ensures forall d ::
      (d in DumpsIn([e]) <==> DumpEntry(e, d.uuid) && d == Dump(e.key, d.uuid, e.lastModified))
    ensures |DumpsIn([e])| <= 1
    decreases |rest|
  {
    assert [e][..0] == [];
    forall uuid { DumpEntryIff(e, uuid); }
    if rest == [] {
      assert (front + [e] + [])[..|front|] == front && front + [e] + [] == front + [e];
      assert DumpsIn(front) + DumpsIn([e]) + [] == DumpsIn(front) + DumpsIn([e]);
    } else {
      var most, last := rest[..|rest| - 1], rest[|rest| - 1];
      DumpsInParts(front, e, most);
      assert (front + [e] + rest)[..|front + [e] + rest| - 1] == front + [e] + most;
    }
  }

  lemma {:induction false} DumpsInIff(listing: seq<Entry>, d: Dump)
    ensures d in DumpsIn(listing) <==>
      exists e | e in listing :: DumpEntry(e, d.uuid) && d == Dump(e.key, d.uuid, e.lastModified)
  {
    if listing != [] {
      var front, e := listing[..|listing| - 1], listing[|listing| - 1];
      assert listing == front + [e];
      DumpsInIff(front, d);
      DumpEntryIff(e, d.uuid);
    }
  }

  /** The same for binlogs: each entry that is one gives its key, incarnation, log name and upload time. */
  lemma {:induction false} BinlogsInParts(front: seq<Entry>, e: Entry, rest: seq<Entry>)
    ensures BinlogsIn(front + [e] + rest) == BinlogsIn(front) + BinlogsIn([e]) + BinlogsIn(rest)
    ensures forall b ::
      (b in BinlogsIn([e]) <==>
         BinlogEntry(e, b.uuid, b.logName) && b == Binlog(e.key, b.uuid, b.logName, e.lastModified))
    ensures |BinlogsIn([e])| <= 1
    decreases |rest|
  {
    assert [e][..0] == [];
    forall uuid, name { BinlogKeyIff(e.key, uuid, name); }
    if rest == [] {
      assert (front + [e] + [])[..|front|] == front && front + [e] + [] == front + [e];
      assert BinlogsIn(front) + BinlogsIn([e]) + [] == BinlogsIn(front) + BinlogsIn([e]);
    } else {
      var most, last := rest[..|rest| - 1], rest[|rest| - 1];
      BinlogsInParts(front, e, most);
      assert (front + [e] + rest)[..|front + [e] + rest| - 1] == front + [e] + most;
    }
  }

  predicate BinlogEntry(e: Entry, uuid: string, logName: string) {
    PathSegment(uuid) && logName != "" && e.key == BinlogKey(uuid, logName)
  }

  lemma {:induction false} BinlogsInIff(listing: seq<Entry>, b: Binlog)
    ensures b in BinlogsIn(listing) <==>
      exists e | e in listing ::
        BinlogEntry(e, b.uuid, b.logName) && b == Binlog(e.key, b.uuid, b.logName, e.lastModified)
  {
    if listing != [] {
      var front, e := listing[..|listing| - 1], listing[|listing| - 1];
      assert listing == front + [e];
      BinlogsInIff(front, b);
      BinlogKeyIff(e.key, b.uuid, b.logName);
    }
  }

  predicate KeysOnce(listing: seq<Entry>) { forall a, b | a in listing && b in listing && a.key == b.key :: a == b }

  predicate Takes(plan: PrunePlan, key: string) {
    (exists d | d in plan.deleteDumps :: d.key == key) || (exists b | b in plan.deleteBinlogs :: b.key == key)
  }

  function PlanOf(dumpListing: seq<Entry>, binlogListing: seq<Entry>, now: int, p: Policy): PrunePlan {
    PlanAll(DumpsIn(dumpListing), BinlogsIn(binlogListing), now, p)
  }

  /** Another dump of the incarnation, newer than that one and old enough to anchor the window. */
  ghost predicate NewerAnchor(listing: seq<Entry>, e: Entry, uuid: string, cutoff: int) {
    exists a | a in listing && DumpEntry(a, uuid) :: e.lastModified < a.lastModified <= cutoff
  }

  ghost predicate NoTwin(listing: seq<Entry>, e: Entry, uuid: string) {
    forall a | a in listing && DumpEntry(a, uuid) && a.lastModified == e.lastModified :: a == e
  }

  /** Whose dumps go: a listed dump is deleted exactly when its incarnation's plan stands, it was uploaded before
      retention began, and a newer one is old enough to anchor the window. */
  lemma ListedDumpGoesIff(dumpListing: seq<Entry>, binlogListing: seq<Entry>, now: int, p: Policy,
                          e: Entry, uuid: string)
    requires KeysOnce(dumpListing) && e in dumpListing && DumpEntry(e, uuid) && NoTwin(dumpListing, e, uuid)
    requires p.margin >= 0
    ensures Takes(PlanOf(dumpListing, binlogListing, now, p), e.key) <==>
      && Decision(DumpsIn(dumpListing), BinlogsIn(binlogListing), uuid, now, p).Planned?
      && e.lastModified <= now - (p.window + p.margin)
      && NewerAnchor(dumpListing, e, uuid, now - p.window)
  {
    TakenDump(dumpListing, binlogListing, now, p, e, uuid);
    PlannedDumpIff(dumpListing, now, p, e, uuid, DumpsOf(DumpsIn(dumpListing), uuid),
                   BinlogsOf(BinlogsIn(binlogListing), uuid));
  }

  lemma PlannedDumpIff(dumpListing: seq<Entry>, now: int, p: Policy, e: Entry, uuid: string,
                       mine: seq<Dump>, logs: seq<Binlog>)
    requires KeysOnce(dumpListing) && e in dumpListing && DumpEntry(e, uuid) && NoTwin(dumpListing, e, uuid)
    requires p.margin >= 0 && mine == DumpsOf(DumpsIn(dumpListing), uuid)
    ensures e.key in DumpKeys(PlannedDumps(PlanGroup(mine, logs, now, p))) <==>
      && PlanGroup(mine, logs, now, p).Planned?
      && e.lastModified <= now - (p.window + p.margin)
      && NewerAnchor(dumpListing, e, uuid, now - p.window)
  {
    var d := Dump(e.key, uuid, e.lastModified);
    MineAre(dumpListing, uuid, mine);
    DumpsKept(mine, logs, now, p, d);
    if Anchor(mine, now - p.window).Some? {
      AnchorNewer(dumpListing, now, p, e, uuid, mine);
    } else {
      NoneNewer(dumpListing, e, uuid, now - p.window, mine);
    }
  }

  lemma NoneNewer(dumpListing: seq<Entry>, e: Entry, uuid: string, cutoff: int, mine: seq<Dump>)
    requires mine == DumpsOf(DumpsIn(dumpListing), uuid) && Anchor(mine, cutoff).None?
    ensures !NewerAnchor(dumpListing, e, uuid, cutoff)
  {
    AnchorIsNewest(mine, cutoff);
    NoAnchorListed(dumpListing, uuid, cutoff, mine);
  }

  /** The incarnation's dumps are its entries. */
  lemma MineAre(dumpListing: seq<Entry>, uuid: string, mine: seq<Dump>)
    requires mine == DumpsOf(DumpsIn(dumpListing), uuid)
    ensures forall e | e in dumpListing && DumpEntry(e, uuid) :: Dump(e.key, uuid, e.lastModified) in mine
    ensures forall d | d in mine :: d.uuid == uuid && EntryOf(d) in dumpListing && DumpEntry(EntryOf(d), uuid)
  {
    FilterMembers(DumpsIn(dumpListing), OfUuid(uuid));
    forall e | e in dumpListing && DumpEntry(e, uuid) ensures Dump(e.key, uuid, e.lastModified) in mine {
      DumpsInIff(dumpListing, Dump(e.key, uuid, e.lastModified));
    }
    forall d | d in mine ensures d.uuid == uuid && EntryOf(d) in dumpListing && DumpEntry(EntryOf(d), uuid) {
      DumpsInIff(dumpListing, d);
      var e :| e in dumpListing && DumpEntry(e, d.uuid) && d == Dump(e.key, d.uuid, e.lastModified);
      assert e == EntryOf(d);
    }
  }

  function EntryOf(d: Dump): Entry { Entry(d.key, d.ts) }

  lemma NoAnchorListed(dumpListing: seq<Entry>, uuid: string, cutoff: int, mine: seq<Dump>)
    requires mine == DumpsOf(DumpsIn(dumpListing), uuid) && forall d | d in mine :: d.ts > cutoff
    ensures forall e | e in dumpListing && DumpEntry(e, uuid) :: e.lastModified > cutoff
  {
    MineAre(dumpListing, uuid, mine);
    forall e | e in dumpListing && DumpEntry(e, uuid) ensures e.lastModified > cutoff {
      assert Dump(e.key, uuid, e.lastModified) in mine;
    }
  }

  lemma AnchorNewer(dumpListing: seq<Entry>, now: int, p: Policy, e: Entry, uuid: string, mine: seq<Dump>)
    requires KeysOnce(dumpListing) && e in dumpListing && DumpEntry(e, uuid) && NoTwin(dumpListing, e, uuid)
    requires p.margin >= 0 && mine == DumpsOf(DumpsIn(dumpListing), uuid) && Anchor(mine, now - p.window).Some?
    ensures e.key !in KeepKeys(mine, now - (p.window + p.margin), Anchor(mine, now - p.window).value) <==>
      e.lastModified <= now - (p.window + p.margin) && NewerAnchor(dumpListing, e, uuid, now - p.window)
  {
    var anchor := Anchor(mine, now - p.window).value;
    AnchorIsNewest(mine, now - p.window);
    MineAre(dumpListing, uuid, mine);
    var d := Dump(e.key, uuid, e.lastModified);
    assert d in mine;
    forall o | o in mine && o.key == e.key ensures o == d {
      assert EntryOf(o) == e;
    }
    assert EntryOf(anchor) in dumpListing;
    if NewerAnchor(dumpListing, e, uuid, now - p.window) {
      var a :| a in dumpListing && DumpEntry(a, uuid) && e.lastModified < a.lastModified <= now - p.window;
      assert Dump(a.key, uuid, a.lastModified) in mine;
    }
  }

  /** Only a dump of the plan has a dump's key. */
  lemma TakenDump(dumpListing: seq<Entry>, binlogListing: seq<Entry>, now: int, p: Policy, e: Entry, uuid: string)
    requires e in dumpListing && DumpEntry(e, uuid)
    ensures var dumps, binlogs := DumpsIn(dumpListing), BinlogsIn(binlogListing);
      Takes(PlanOf(dumpListing, binlogListing, now, p), e.key) <==>
        e.key in DumpKeys(PlannedDumps(Decision(dumps, binlogs, uuid, now, p)))
  {
    var dumps, binlogs := DumpsIn(dumpListing), BinlogsIn(binlogListing);
    var plan, decision := PlanAll(dumps, binlogs, now, p), Decision(dumps, binlogs, uuid, now, p);
    ParsedKeysDetermine(dumpListing, binlogListing);
    PlanIsFromListing(dumps, binlogs, UuidsOf(dumps, binlogs), now, p);
    WholePlan(dumps, binlogs, now, p, uuid);
    FilterMembers(plan.deleteDumps, OfUuid(uuid));
    DumpsInIff(dumpListing, Dump(e.key, uuid, e.lastModified));
    assert Dump(e.key, uuid, e.lastModified) in dumps;
    forall d | d in plan.deleteDumps && d.key == e.key ensures d in PlannedDumps(decision) {
      assert d in dumps && d.uuid == uuid && d in DumpsOf(plan.deleteDumps, uuid);
    }
    forall d | d in PlannedDumps(decision) ensures d in plan.deleteDumps {
      assert d in DumpsOf(plan.deleteDumps, uuid);
    }
  }

  /** Nothing uploaded since retention began is deleted, dump or binlog. */
  lemma NothingRecentGoes(dumpListing: seq<Entry>, binlogListing: seq<Entry>, now: int, p: Policy, key: string)
    requires var plan := PlanOf(dumpListing, binlogListing, now, p);
      key in DumpKeys(plan.deleteDumps) || key in BinlogKeys(plan.deleteBinlogs)
    ensures exists e | e in dumpListing || e in binlogListing ::
      e.key == key && e.lastModified <= now - (p.window + p.margin)
  {
    var dumps, binlogs := DumpsIn(dumpListing), BinlogsIn(binlogListing);
    var plan := PlanAll(dumps, binlogs, now, p);
    if d :| d in plan.deleteDumps && d.key == key {
      RecentDumpStays(dumps, binlogs, now, p, d);
      DumpsInIff(dumpListing, d);
    } else {
      var b :| b in plan.deleteBinlogs && b.key == key;
      RecentBinlogStays(dumps, binlogs, now, p, b);
      BinlogsInIff(binlogListing, b);
    }
  }

  lemma RecentDumpStays(dumps: seq<Dump>, binlogs: seq<Binlog>, now: int, p: Policy, d: Dump)
    requires d in PlanAll(dumps, binlogs, now, p).deleteDumps
    ensures d in dumps && d.ts <= now - (p.window + p.margin)
  {
    var plan, mine, logs := PlanAll(dumps, binlogs, now, p), DumpsOf(dumps, d.uuid), BinlogsOf(binlogs, d.uuid);
    PlanIsFromListing(dumps, binlogs, UuidsOf(dumps, binlogs), now, p);
    WholePlan(dumps, binlogs, now, p, d.uuid);
    FilterMembers(plan.deleteDumps, OfUuid(d.uuid));
    FilterMembers(dumps, OfUuid(d.uuid));
    assert d in DumpsOf(plan.deleteDumps, d.uuid) && d in mine;
    DumpsKept(mine, logs, now, p, d);
  }

  lemma RecentBinlogStays(dumps: seq<Dump>, binlogs: seq<Binlog>, now: int, p: Policy, b: Binlog)
    requires b in PlanAll(dumps, binlogs, now, p).deleteBinlogs
    ensures b in binlogs && b.ts < now - (p.window + p.margin)
  {
    var plan, mine, logs := PlanAll(dumps, binlogs, now, p), DumpsOf(dumps, b.uuid), BinlogsOf(binlogs, b.uuid);
    PlanIsFromListing(dumps, binlogs, UuidsOf(dumps, binlogs), now, p);
    WholePlan(dumps, binlogs, now, p, b.uuid);
    FilterMembers(plan.deleteBinlogs, LogOfUuid(b.uuid));
    assert b in BinlogsOf(plan.deleteBinlogs, b.uuid);
    BinlogGoesIff(mine, logs, now, p, b);
  }
}
