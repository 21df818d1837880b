/** A pruning plan over one bucket, read as the log numbers it removes. */
module RecoveryPlan {
  import opened BinlogNames
  import opened Options
  import opened BackupKeys
  import opened Sorting
  import opened PruneBackups
  import opened PruneRun

  /** One shipped log in the bucket: the incarnation and the log's number. */
  datatype Slot = Slot(uuid: string, number: nat)

  /** The object a slot is listed as: the key the shipper gave it, and its upload time. */
  function LogObject(base: string, slot: Slot, ts: int): Binlog {
    Binlog(BinlogKey(slot.uuid, LogName(base, slot.number)), slot.uuid, LogName(base, slot.number), ts)
  }

  function Lister(base: string, logs: map<Slot, int>): Slot -> Binlog {
    (s: Slot) => LogObject(base, s, if s in logs then logs[s] else 0)
  }

  function Map(order: seq<Slot>, obj: Slot -> Binlog): seq<Binlog> {
    seq(|order|, i requires 0 <= i < |order| => obj(order[i]))
  }

  function SlotOf(b: Binlog): Slot { Slot(b.uuid, if Parses(b) then TrailingSequence(b.logName).value else 0) }

  function SlotsOf(binlogs: seq<Binlog>): seq<Slot> {
    seq(|binlogs|, i requires 0 <= i < |binlogs| => SlotOf(binlogs[i]))
  }

  /** A listing of the whole bucket, in any order. */
  predicate Lists(order: seq<Slot>, logs: map<Slot, int>) {
    Distinct(order) && (forall s | s in order :: s in logs) && (forall s | s in logs :: s in order)
  }

  ghost predicate Faithful(obj: Slot -> Binlog) {
    forall s :: obj(s).uuid == s.uuid && TrailingSequence(obj(s).logName) == Some(s.number)
  }

  lemma ListerIsFaithful(base: string, logs: map<Slot, int>)
    requires base != ""
    ensures Faithful(Lister(base, logs))
  {
    forall s
      ensures Lister(base, logs)(s).uuid == s.uuid && TrailingSequence(Lister(base, logs)(s).logName) == Some(s.number)
    {
      LogNameParses(base, s.number);
    }
  }

  lemma ObjectsCompare(obj: Slot -> Binlog, a: Slot, b: Slot)
    requires Faithful(obj)
    ensures SequenceLess(obj(a), obj(b)) <==> a.number < b.number
    ensures SlotOf(obj(a)) == a
    ensures ShareSequence(obj(a), obj(b)) <==> a.number == b.number
  {
  }

  lemma ListedMembers(order: seq<Slot>, obj: Slot -> Binlog, uuid: string)
    requires Faithful(obj)
    ensures var mine := BinlogsOf(Map(order, obj), uuid);
      && (forall s :: s in order && s.uuid == uuid ==> obj(s) in mine)
      && (forall b :: b in mine ==> SlotOf(b) in order && b == obj(SlotOf(b)) && b.uuid == uuid)
  {
    var all := Map(order, obj);
    FilterMembers(all, LogOfUuid(uuid));
    forall s | s in order && s.uuid == uuid ensures obj(s) in BinlogsOf(all, uuid) {
      var i :| 0 <= i < |order| && order[i] == s;
      assert all[i] == obj(s);
    }
    forall b | b in BinlogsOf(all, uuid) ensures SlotOf(b) in order && b == obj(SlotOf(b)) && b.uuid == uuid {
      var i :| 0 <= i < |order| && all[i] == b;
      ObjectsCompare(obj, order[i], order[i]);
    }
  }

  lemma ListedDistinct(order: seq<Slot>, obj: Slot -> Binlog, uuid: string)
    requires Faithful(obj) && Distinct(order)
    ensures Distinct(BinlogsOf(Map(order, obj), uuid)) && OneObjectPerNumber(BinlogsOf(Map(order, obj), uuid))
  {
    var all := Map(order, obj);
    forall i, j | 0 <= i < j < |all| ensures all[i] != all[j] {
      ObjectsCompare(obj, order[i], order[j]);
      ObjectsCompare(obj, order[j], order[i]);
    }
    FilterKeepsDistinct(all, LogOfUuid(uuid));
    ListedMembers(order, obj, uuid);
    var mine := BinlogsOf(all, uuid);
    forall a, b | a in mine && b in mine && ShareSequence(a, b) ensures a == b {
      ObjectsCompare(obj, SlotOf(a), SlotOf(b));
    }
  }

  /** One incarnation: removals are downward closed, leave a higher number, and are older than a listed dump. */
  lemma DecisionOnSlots(dumps: seq<Dump>, order: seq<Slot>, obj: Slot -> Binlog, now: int, p: Policy, g: Slot)
    requires Faithful(obj) && Distinct(order)
    requires obj(g) in PlannedBinlogs(Decision(dumps, Map(order, obj), g.uuid, now, p))
    ensures var decision := Decision(dumps, Map(order, obj), g.uuid, now, p);
      && g in order
      && (forall s | s in order && s.uuid == g.uuid && s.number <= g.number :: obj(s) in PlannedBinlogs(decision))
      && (exists k :: k in order && k.uuid == g.uuid && k.number > g.number)
      && OlderThanADump(obj(g), dumps)
  {
    var mine, logs := DumpsOf(dumps, g.uuid), BinlogsOf(Map(order, obj), g.uuid);
    var decision := Decision(dumps, Map(order, obj), g.uuid, now, p);
    BinlogsCleanPrefix(mine, logs, now, p);
    ListedMembers(order, obj, g.uuid);
    ListedDistinct(order, obj, g.uuid);
    GoneOrdered(mine, logs, now, p);
    ObjectsCompare(obj, g, g);
    forall s | s in order && s.uuid == g.uuid && s.number <= g.number ensures obj(s) in PlannedBinlogs(decision) {
      ObjectsCompare(obj, g, s);
    }
    var k :| k in logs && k !in PlannedBinlogs(decision);
    ObjectsCompare(obj, g, SlotOf(k));
    FilterMembers(dumps, OfUuid(g.uuid));
  }

  lemma KeptResumeSlot(dumps: seq<Dump>, order: seq<Slot>, obj: Slot -> Binlog, now: int, p: Policy, d: Dump, r: Slot)
    requires Faithful(obj)
    requires d in dumps && forall e | e in dumps && e.key == d.key :: e == d
    requires r in order && r.uuid == d.uuid && obj(r).ts >= d.ts
    ensures var decision := Decision(dumps, Map(order, obj), d.uuid, now, p);
      d.key !in DumpKeys(PlannedDumps(decision)) ==> obj(r) !in PlannedBinlogs(decision)
  {
    var decision := Decision(dumps, Map(order, obj), d.uuid, now, p);
    FilterMembers(dumps, OfUuid(d.uuid));
    ListedMembers(order, obj, d.uuid);
    if d.key !in DumpKeys(PlannedDumps(decision)) {
      ResumeLogKept(DumpsOf(dumps, d.uuid), BinlogsOf(Map(order, obj), d.uuid), now, p, d, obj(r));
    }
  }

  /** The slots a whole plan removes, in removal order. */
  function Removals(dumps: seq<Dump>, order: seq<Slot>, obj: Slot -> Binlog, now: int, p: Policy): seq<Slot> {
    SlotsOf(PlanAll(dumps, Map(order, obj), now, p).deleteBinlogs)
  }

  lemma SlotsMember(all: seq<Binlog>, obj: Slot -> Binlog, s: Slot)
    requires forall b | b in all && b.uuid == s.uuid :: b == obj(SlotOf(b))
    requires SlotOf(obj(s)) == s
    ensures s in SlotsOf(all) <==> obj(s) in all
  {
    var gone := SlotsOf(all);
    if s in gone {
      var i :| 0 <= i < |gone| && gone[i] == s;
      assert all[i] in all && all[i].uuid == s.uuid;
    }
    if obj(s) in all {
      var i :| 0 <= i < |all| && all[i] == obj(s);
      assert gone[i] == s;
    }
  }

  lemma RemovedIff(dumps: seq<Dump>, order: seq<Slot>, obj: Slot -> Binlog, now: int, p: Policy, s: Slot)
    requires Faithful(obj)
    ensures s in Removals(dumps, order, obj, now, p)
      <==> obj(s) in PlannedBinlogs(Decision(dumps, Map(order, obj), s.uuid, now, p))
  {
    ObjectsCompare(obj, s, s);
    PlannedIsListed(dumps, order, obj, now, p, s.uuid);
    SlotsMember(PlanAll(dumps, Map(order, obj), now, p).deleteBinlogs, obj, s);
  }

  lemma PlannedIsListed(dumps: seq<Dump>, order: seq<Slot>, obj: Slot -> Binlog, now: int, p: Policy, uuid: string)
    requires Faithful(obj)
    ensures var decision := Decision(dumps, Map(order, obj), uuid, now, p);
      forall b :: b in PlannedBinlogs(decision)
        <==> b in PlanAll(dumps, Map(order, obj), now, p).deleteBinlogs && b.uuid == uuid
    ensures forall b | b in PlanAll(dumps, Map(order, obj), now, p).deleteBinlogs && b.uuid == uuid ::
      b == obj(SlotOf(b))
    ensures forall d | d in PlannedDumps(Decision(dumps, Map(order, obj), uuid, now, p)) ::
      d in PlanAll(dumps, Map(order, obj), now, p).deleteDumps
  {
    var plan := PlanAll(dumps, Map(order, obj), now, p);
    WholePlan(dumps, Map(order, obj), now, p, uuid);
    FilterMembers(plan.deleteBinlogs, LogOfUuid(uuid));
    FilterMembers(plan.deleteDumps, OfUuid(uuid));
    BinlogsCleanPrefix(DumpsOf(dumps, uuid), BinlogsOf(Map(order, obj), uuid), now, p);
    ListedMembers(order, obj, uuid);
  }

  /** Each incarnation's removals go lowest number first. */
  lemma RemovalOrder(dumps: seq<Dump>, order: seq<Slot>, obj: Slot -> Binlog, now: int, p: Policy, i: nat, j: nat)
    requires Faithful(obj) && Distinct(order)
    requires i < j < |Removals(dumps, order, obj, now, p)|
    ensures var gone := Removals(dumps, order, obj, now, p);
      gone[i].uuid == gone[j].uuid ==> gone[i].number < gone[j].number
  {
    var all := PlanAll(dumps, Map(order, obj), now, p).deleteBinlogs;
    var uuid := all[i].uuid;
    if all[j].uuid == uuid {
      ListedDistinct(order, obj, uuid);
      GoneOrdered(DumpsOf(dumps, uuid), BinlogsOf(Map(order, obj), uuid), now, p);
      WholePlan(dumps, Map(order, obj), now, p, uuid);
      FilterOrder(all, LogOfUuid(uuid), SequenceLess);
    }
  }
}
