/** Shipping, dumping and pruning over one bucket, interleaved: db/provision/ship_binlogs.py,
    db/provision/dump_nightly.py and db/provision/prune_backups.py as one state machine. */
module Recovery {
  import opened BinlogNames
  import opened Options
  import opened Sorting
  import opened PruneBackups
  import opened PruneRun
  import opened RecoveryPlan
  import Ship = ShipBinlogs
  import Extract = ExtractBinlog

  /** A dump in the bucket: its incarnation, upload time, and the log its comment resumes from. */
  datatype Saved = Saved(uuid: string, ts: int, log: nat)

  /** A shipper run: logs `next` to `end - 1` are still pending; `uploaded` says the first
      of them is up but not yet recorded in the marker. */
  datatype Shipping = Idle | Shipping(next: nat, end: nat, uploaded: bool)
  datatype Dumping = NoDump | Dumping(key: string, log: nat)
  datatype Pruning = Quiet | Listed(dumps: seq<Dump>, at: int) | Deleting(dead: seq<string>, gone: seq<Slot>)

  /** The server retains closed logs `first` to `open - 1` and writes log `open`. `shipped` and
      `pruned` are bookkeeping: the highest number ever uploaded and removed, per incarnation. */
  datatype State = State(
    base: string, now: int,
    uuid: string, first: nat, open: nat,
    marker: Option<Slot>, shipped: map<string, nat>, pruned: map<string, nat>,
    logs: map<Slot, int>, dumps: map<string, Saved>,
    ship: Shipping, dumping: Dumping, prune: Pruning)

  datatype Step =
    | Tick(to: int)
    | Rotate
    | Purge(upTo: nat)
    | Rebuild(freshUuid: string)
    | StartShip | Upload | SaveMarker | EndShip
    | StartDump(key: string) | UploadDump | EndDump
    | ListDumps(listing: seq<Dump>)
    | Plan(order: seq<Slot>, clock: int, policy: Policy)
    | RemoveDump | RemoveLog | EndPrune

  /** The number a bookkeeping map holds for an incarnation, 0 before the first. */
  function To(m: map<string, nat>, uuid: string): nat { if uuid in m then m[uuid] else 0 }

  function ShippedTo(s: State): nat { To(s.shipped, s.uuid) }
  function Max(a: nat, b: nat): nat { if a < b then b else a }

  predicate MarkerHolds(s: State) {
    s.marker.Some? && s.marker.value.uuid == s.uuid && s.first <= s.marker.value.number < s.open
  }

  /** Where `logs_to_ship` starts. */
  function Start(s: State): nat { if MarkerHolds(s) then s.marker.value.number + 1 else s.first }

  predicate ListsDumps(listing: seq<Dump>, dumps: map<string, Saved>) {
    && (forall d | d in listing :: d.key in dumps && d == Dump(d.key, dumps[d.key].uuid, dumps[d.key].ts))
    && (forall k | k in dumps :: Dump(k, dumps[k].uuid, dumps[k].ts) in listing)
  }

  predicate Enabled(s: State, step: Step) {
    match step
    case Tick(to) => s.now <= to
    case Rotate => true
    // the server keeps a closed log until it is shipped
    case Purge(upTo) => s.first <= upTo <= ShippedTo(s) + 1
    // a rebuilt server has a uuid never seen before, and is not rebuilt under a running job
    case Rebuild(freshUuid) => freshUuid !in s.shipped && s.ship.Idle? && s.dumping.NoDump?
    case StartShip => s.ship.Idle?
    case Upload => s.ship.Shipping? && !s.ship.uploaded && s.first <= s.ship.next < s.ship.end
    case SaveMarker => s.ship.Shipping? && s.ship.uploaded
    case EndShip => s.ship.Shipping?
    case StartDump(_) => s.dumping.NoDump?
    // the log a dump resumes from ships no earlier than the dump
    case UploadDump => s.dumping.Dumping? && ShippedTo(s) < s.dumping.log
    case EndDump => s.dumping.Dumping?
    case ListDumps(listing) => s.prune.Quiet? && ListsDumps(listing, s.dumps)
    case Plan(order, _, _) => s.prune.Listed? && Lists(order, s.logs)
    case RemoveDump => s.prune.Deleting? && s.prune.dead != []
    case RemoveLog => s.prune.Deleting? && s.prune.dead == [] && s.prune.gone != []
    case EndPrune => !s.prune.Quiet?
  }

  function DeadKeys(dumps: seq<Dump>): seq<string> { seq(|dumps|, i requires 0 <= i < |dumps| => dumps[i].key) }

  function Planned(s: State, order: seq<Slot>, clock: int, policy: Policy): Pruning
    requires s.prune.Listed?
  {
    var obj := Lister(s.base, s.logs);
    Deleting(DeadKeys(PlanAll(s.prune.dumps, Map(order, obj), clock, policy).deleteDumps),
             Removals(s.prune.dumps, order, obj, clock, policy))
  }

  /** Every way a job can stop half-way is its End step, at any point. */
  function Do(s: State, step: Step): State
    requires Enabled(s, step)
  {
    match step
    case Tick(to) => s.(now := to)
    case Rotate => s.(open := s.open + 1)
    case Purge(upTo) => s.(first := upTo)
    case Rebuild(freshUuid) =>
      s.(uuid := freshUuid, first := 1, open := 1,
         shipped := s.shipped[freshUuid := 0], pruned := s.pruned[freshUuid := 0])
    case StartShip => s.(ship := Shipping(Start(s), s.open, false))
    case Upload =>
      s.(logs := s.logs[Slot(s.uuid, s.ship.next) := s.now],
         shipped := s.shipped[s.uuid := Max(ShippedTo(s), s.ship.next)],
         ship := s.ship.(uploaded := true))
    case SaveMarker =>
      s.(marker := Some(Slot(s.uuid, s.ship.next)), ship := Shipping(s.ship.next + 1, s.ship.end, false))
    case EndShip => s.(ship := Idle)
    case StartDump(key) => s.(dumping := Dumping(key, s.open))
    case UploadDump =>
      s.(dumps := s.dumps[s.dumping.key := Saved(s.uuid, s.now, s.dumping.log)], dumping := NoDump)
    case EndDump => s.(dumping := NoDump)
    case ListDumps(listing) => s.(prune := Listed(listing, s.now))
    case Plan(order, clock, policy) => s.(prune := Planned(s, order, clock, policy))
    case RemoveDump =>
      s.(dumps := s.dumps - {s.prune.dead[0]}, prune := s.prune.(dead := s.prune.dead[1..]))
    case RemoveLog =>
      var g := s.prune.gone[0];
      s.(logs := s.logs - {g}, pruned := s.pruned[g.uuid := g.number], prune := s.prune.(gone := s.prune.gone[1..]))
    case EndPrune => s.(prune := Quiet)
  }

  /* What every run keeps. */

  predicate ServerOk(s: State) {
    && s.base != "" && s.uuid in s.shipped
    && 1 <= s.first <= s.open && s.first <= ShippedTo(s) + 1 && ShippedTo(s) < s.open
    && (s.marker.Some? ==> s.marker.value.uuid in s.shipped)
    && (s.marker.Some? && s.marker.value.uuid == s.uuid ==> s.marker.value.number <= ShippedTo(s))
    && ShippedTo(s) <= Start(s)
  }

  predicate ShipOk(s: State) {
    s.ship.Shipping? ==>
      && s.ship.end <= s.open
      && (!s.ship.uploaded && s.ship.next < s.ship.end ==> ShippedTo(s) <= s.ship.next <= Start(s))
      && (s.ship.uploaded ==> s.ship.next == ShippedTo(s))
  }

  /** The bucket holds exactly one unbroken run of logs per incarnation. */
  ghost predicate LogsOk(logs: map<Slot, int>, shipped: map<string, nat>, pruned: map<string, nat>, now: int) {
    && (forall t: Slot :: t in logs <==> To(pruned, t.uuid) < t.number <= To(shipped, t.uuid))
    && (forall t | t in logs :: logs[t] <= now)
    && (forall u :: To(pruned, u) < To(shipped, u) || To(pruned, u) == To(shipped, u) == 0)
  }

  /** A dump's resume log is never pruned before the dump, and is up no earlier than the dump. */
  predicate DumpOk(d: Saved, logs: map<Slot, int>, shipped: map<string, nat>, pruned: map<string, nat>) {
    var resume := Slot(d.uuid, d.log);
    && d.uuid in shipped && To(pruned, d.uuid) < d.log
    && (d.log <= To(shipped, d.uuid) ==> resume in logs && d.ts <= logs[resume])
  }

  predicate DumpsOk(s: State) {
    forall k | k in s.dumps :: s.dumps[k].ts <= s.now && DumpOk(s.dumps[k], s.logs, s.shipped, s.pruned)
  }

  predicate ListedOk(prune: Pruning, dumps: map<string, Saved>, now: int) {
    prune.Listed? ==>
      && prune.at <= now
      && (forall d | d in prune.dumps :: d.ts <= prune.at)
      && (forall d, e | d in prune.dumps && e in prune.dumps && d.key == e.key :: d == e)
      && (forall k | k in dumps :: Dump(k, dumps[k].uuid, dumps[k].ts) in prune.dumps || prune.at <= dumps[k].ts)
  }

  predicate InRange(gone: seq<Slot>, shipped: map<string, nat>, pruned: map<string, nat>) {
    forall g | g in gone :: To(pruned, g.uuid) < g.number < To(shipped, g.uuid)
  }

  predicate LowestFirst(gone: seq<Slot>) {
    forall i, j | 0 <= i < j < |gone| :: gone[i].uuid == gone[j].uuid ==> gone[i].number < gone[j].number
  }

  ghost predicate NoGaps(gone: seq<Slot>, pruned: map<string, nat>) {
    forall g, t: Slot | g in gone && t.uuid == g.uuid && To(pruned, g.uuid) < t.number <= g.number :: t in gone
  }

  predicate BelowKept(gone: seq<Slot>, dumps: map<string, Saved>, dead: seq<string>) {
    forall g, k | g in gone && k in dumps && dumps[k].uuid == g.uuid && k !in dead :: g.number < dumps[k].log
  }

  /** The removals still to come: lowest first, without gaps, and below every dump that is to stay. */
  ghost predicate DeletingOk(prune: Pruning, dumps: map<string, Saved>, shipped: map<string, nat>,
                             pruned: map<string, nat>)
  {
    prune.Deleting? ==>
      && InRange(prune.gone, shipped, pruned) && LowestFirst(prune.gone) && NoGaps(prune.gone, pruned)
      && BelowKept(prune.gone, dumps, prune.dead)
  }

  ghost predicate Inv(s: State) {
    && ServerOk(s) && ShipOk(s) && LogsOk(s.logs, s.shipped, s.pruned, s.now) && DumpsOk(s)
    && ListedOk(s.prune, s.dumps, s.now) && DeletingOk(s.prune, s.dumps, s.shipped, s.pruned)
  }

  /** An empty bucket and a new server. */
  predicate Init(s: State) {
    && s.base != "" && s.first == 1 && s.open == 1 && s.marker.None?
    && s.shipped == map[s.uuid := 0] && s.pruned == map[s.uuid := 0] && s.logs == map[] && s.dumps == map[]
    && s.ship.Idle? && s.dumping.NoDump? && s.prune.Quiet?
  }

  lemma InitHolds(s: State)
    requires Init(s)
    ensures Inv(s)
  {
  }

  lemma ServerKeeps(s: State, step: Step)
    requires Inv(s) && Enabled(s, step) && (step.Tick? || step.Rotate? || step.Purge?)
    ensures Inv(Do(s, step))
  {
  }

  lemma RebuildKeeps(s: State, freshUuid: string)
    requires Inv(s) && Enabled(s, Rebuild(freshUuid))
    ensures Inv(Do(s, Rebuild(freshUuid)))
  {
    var t := Do(s, Rebuild(freshUuid));
    assert forall u :: To(t.shipped, u) == To(s.shipped, u);
    assert forall u :: To(t.pruned, u) == To(s.pruned, u);
    assert ServerOk(t) && ShipOk(t);
  }

  lemma ShipKeeps(s: State, step: Step)
    requires Inv(s) && Enabled(s, step) && (step.StartShip? || step.SaveMarker? || step.EndShip?)
    ensures Inv(Do(s, step))
  {
    var t := Do(s, step);
    assert ServerOk(t);
    assert ShipOk(t);
  }

  lemma LogUploaded(logs: map<Slot, int>, shipped: map<string, nat>, pruned: map<string, nat>, now: int, slot: Slot,
                    after: map<string, nat>)
    requires LogsOk(logs, shipped, pruned, now)
    requires 1 <= slot.number && To(shipped, slot.uuid) <= slot.number <= To(shipped, slot.uuid) + 1
    requires after == shipped[slot.uuid := slot.number]
    ensures LogsOk(logs[slot := now], after, pruned, now)
    ensures forall d | DumpOk(d, logs, shipped, pruned) && d.ts <= now :: DumpOk(d, logs[slot := now], after, pruned)
  {
    assert To(after, slot.uuid) == slot.number && forall u | u != slot.uuid :: To(after, u) == To(shipped, u);
    assert LogsOk(logs[slot := now], after, pruned, now);
  }

  lemma UploadKeeps(s: State)
    requires Inv(s) && Enabled(s, Upload)
    ensures Inv(Do(s, Upload))
  {
    var t := Do(s, Upload);
    LogUploaded(s.logs, s.shipped, s.pruned, s.now, Slot(s.uuid, s.ship.next), t.shipped);
    assert ServerOk(t) && ShipOk(t);
    assert forall u :: To(s.shipped, u) <= To(t.shipped, u);
  }

  lemma DumpKeeps(s: State, step: Step)
    requires Inv(s) && Enabled(s, step) && (step.StartDump? || step.UploadDump? || step.EndDump?)
    ensures Inv(Do(s, step))
  {
    var t := Do(s, step);
    assert LogsOk(s.logs, s.shipped, s.pruned, s.now);
    if step.UploadDump? {
      assert To(s.pruned, s.uuid) < To(s.shipped, s.uuid) || To(s.pruned, s.uuid) == To(s.shipped, s.uuid) == 0;
      assert DumpOk(t.dumps[s.dumping.key], t.logs, t.shipped, t.pruned);
    }
    assert DumpsOk(t);
    assert DeletingOk(t.prune, t.dumps, t.shipped, t.pruned);
  }

  lemma ListKeeps(s: State, step: Step)
    requires Inv(s) && Enabled(s, step) && (step.ListDumps? || step.EndPrune?)
    ensures Inv(Do(s, step))
  {
  }

  lemma RemoveDumpKeeps(s: State)
    requires Inv(s) && Enabled(s, RemoveDump)
    ensures Inv(Do(s, RemoveDump))
  {
    var t := Do(s, RemoveDump);
    assert s.prune.dead == [s.prune.dead[0]] + t.prune.dead;
    assert DeletingOk(t.prune, t.dumps, t.shipped, t.pruned);
  }

  lemma FirstRemoval(s: State)
    requires Inv(s) && Enabled(s, RemoveLog)
    ensures var g := s.prune.gone[0];
      g in s.prune.gone && g.number == To(s.pruned, g.uuid) + 1
  {
    var g := s.prune.gone[0];
    var next := Slot(g.uuid, To(s.pruned, g.uuid) + 1);
    assert g in s.prune.gone;
    assert next in s.prune.gone;
  }

  lemma LogRemoved(logs: map<Slot, int>, shipped: map<string, nat>, pruned: map<string, nat>, now: int, g: Slot,
                   after: map<string, nat>)
    requires LogsOk(logs, shipped, pruned, now)
    requires To(pruned, g.uuid) + 1 == g.number < To(shipped, g.uuid) && after == pruned[g.uuid := g.number]
    ensures LogsOk(logs - {g}, shipped, after, now)
    ensures forall d | DumpOk(d, logs, shipped, pruned) && (d.uuid == g.uuid ==> g.number < d.log) ::
      DumpOk(d, logs - {g}, shipped, after)
  {
    assert To(after, g.uuid) == g.number && forall u | u != g.uuid :: To(after, u) == To(pruned, u);
    assert LogsOk(logs - {g}, shipped, after, now);
  }

  lemma RemoveLogKeeps(s: State)
    requires Inv(s) && Enabled(s, RemoveLog)
    ensures Inv(Do(s, RemoveLog))
  {
    var t := Do(s, RemoveLog);
    FirstRemoval(s);
    LogRemoved(s.logs, s.shipped, s.pruned, s.now, s.prune.gone[0], t.pruned);
    RestOfRemovals(s.prune.gone, s.shipped, s.pruned, t.pruned);
    RestBelowKept(s.prune.gone, s.dumps, s.prune.dead);
    assert DumpsOk(t);
  }

  lemma RestBelowKept(gone: seq<Slot>, dumps: map<string, Saved>, dead: seq<string>)
    requires gone != [] && BelowKept(gone, dumps, dead)
    ensures BelowKept(gone[1..], dumps, dead)
    ensures forall k | k in dumps && dumps[k].uuid == gone[0].uuid && k !in dead :: gone[0].number < dumps[k].log
  {
    assert gone == [gone[0]] + gone[1..];
  }

  lemma RestInRange(gone: seq<Slot>, shipped: map<string, nat>, pruned: map<string, nat>, after: map<string, nat>)
    requires gone != [] && after == pruned[gone[0].uuid := gone[0].number]
    requires InRange(gone, shipped, pruned) && LowestFirst(gone)
    ensures InRange(gone[1..], shipped, after) && LowestFirst(gone[1..])
  {
    var g, rest := gone[0], gone[1..];
    assert gone == [g] + rest;
    forall h | h in rest ensures To(after, h.uuid) < h.number < To(shipped, h.uuid) {
      var i :| 0 <= i < |rest| && rest[i] == h;
      assert gone[i + 1] == h && h in gone;
    }
  }

  lemma RestWithoutGaps(gone: seq<Slot>, pruned: map<string, nat>, after: map<string, nat>)
    requires gone != [] && after == pruned[gone[0].uuid := gone[0].number]
    requires To(pruned, gone[0].uuid) < gone[0].number && NoGaps(gone, pruned)
    ensures NoGaps(gone[1..], after)
  {
    var g, rest := gone[0], gone[1..];
    assert gone == [g] + rest;
    forall h, t: Slot | h in rest && t.uuid == h.uuid && To(after, h.uuid) < t.number <= h.number ensures t in rest {
      assert h in gone && t in gone && t != g;
    }
  }

  lemma RestOfRemovals(gone: seq<Slot>, shipped: map<string, nat>, pruned: map<string, nat>, after: map<string, nat>)
    requires gone != [] && after == pruned[gone[0].uuid := gone[0].number]
    requires InRange(gone, shipped, pruned) && LowestFirst(gone) && NoGaps(gone, pruned)
    ensures InRange(gone[1..], shipped, after) && LowestFirst(gone[1..]) && NoGaps(gone[1..], after)
  {
    assert gone[0] in gone;
    RestInRange(gone, shipped, pruned, after);
    RestWithoutGaps(gone, pruned, after);
  }

  /* Planning. */

  lemma KeptSlotStays(s: State, order: seq<Slot>, clock: int, policy: Policy, key: string)
    requires Inv(s) && Enabled(s, Plan(order, clock, policy)) && key in s.dumps
    ensures var d := s.dumps[key];
      (key !in Planned(s, order, clock, policy).dead && d.log <= To(s.shipped, d.uuid)) ==>
        Slot(d.uuid, d.log) !in Planned(s, order, clock, policy).gone
  {
    var d, obj, listed := s.dumps[key], Lister(s.base, s.logs), s.prune.dumps;
    var r, dump := Slot(d.uuid, d.log), Dump(key, d.uuid, d.ts);
    ListerIsFaithful(s.base, s.logs);
    assert DumpOk(d, s.logs, s.shipped, s.pruned);
    RemovedIff(listed, order, obj, clock, policy, r);
    if d.log <= To(s.shipped, d.uuid) {
      assert r in order && obj(r).ts == s.logs[r] >= d.ts;
      if dump in listed {
        KeptResumeSlot(listed, order, obj, clock, policy, dump, r);
        PlannedIsListed(listed, order, obj, clock, policy, d.uuid);
        DeadKeyIsDead(PlanAll(listed, Map(order, obj), clock, policy).deleteDumps,
                      PlannedDumps(Decision(listed, Map(order, obj), d.uuid, clock, policy)), key);
      } else {
        LateDumpStays(listed, order, obj, clock, policy, r, s.prune.at);
      }
    }
  }

  lemma DeadKeyIsDead(all: seq<Dump>, mine: seq<Dump>, key: string)
    requires forall d | d in mine :: d in all
    ensures key in DumpKeys(mine) ==> key in DeadKeys(all)
  {
    if key in DumpKeys(mine) {
      var d :| d in mine && d.key == key;
      var i :| 0 <= i < |all| && all[i] == d;
      assert DeadKeys(all)[i] == key;
    }
  }

  /** A log as young as the dump listing is not removed by a plan made from it. */
  lemma LateDumpStays(listed: seq<Dump>, order: seq<Slot>, obj: Slot -> Binlog, clock: int, policy: Policy, r: Slot,
                      at: int)
    requires Faithful(obj) && Distinct(order) && at <= obj(r).ts
    requires forall d | d in listed :: d.ts <= at
    ensures obj(r) !in PlannedBinlogs(Decision(listed, Map(order, obj), r.uuid, clock, policy))
  {
    if obj(r) in PlannedBinlogs(Decision(listed, Map(order, obj), r.uuid, clock, policy)) {
      DecisionOnSlots(listed, order, obj, clock, policy, r);
    }
  }

  lemma PlannedSlot(listed: seq<Dump>, order: seq<Slot>, obj: Slot -> Binlog, clock: int, policy: Policy, g: Slot)
    requires Faithful(obj) && Distinct(order) && g in Removals(listed, order, obj, clock, policy)
    ensures g in order && exists k :: k in order && k.uuid == g.uuid && k.number > g.number
    ensures forall t | t in order && t.uuid == g.uuid && t.number <= g.number ::
      t in Removals(listed, order, obj, clock, policy)
  {
    RemovedIff(listed, order, obj, clock, policy, g);
    DecisionOnSlots(listed, order, obj, clock, policy, g);
    forall t | t in order && t.uuid == g.uuid && t.number <= g.number
      ensures t in Removals(listed, order, obj, clock, policy)
    {
      RemovedIff(listed, order, obj, clock, policy, t);
    }
  }

  lemma PlannedRange(listed: seq<Dump>, order: seq<Slot>, obj: Slot -> Binlog, clock: int, policy: Policy,
                     logs: map<Slot, int>, shipped: map<string, nat>, pruned: map<string, nat>, now: int)
    requires Faithful(obj) && Lists(order, logs) && LogsOk(logs, shipped, pruned, now)
    ensures var gone := Removals(listed, order, obj, clock, policy);
      InRange(gone, shipped, pruned) && LowestFirst(gone) && NoGaps(gone, pruned)
  {
    var gone := Removals(listed, order, obj, clock, policy);
    forall g | g in gone
      ensures To(pruned, g.uuid) < g.number < To(shipped, g.uuid)
      ensures forall t: Slot | t.uuid == g.uuid && To(pruned, g.uuid) < t.number <= g.number :: t in gone
    {
      PlannedSlot(listed, order, obj, clock, policy, g);
    }
    forall i, j | 0 <= i < j < |gone| ensures gone[i].uuid == gone[j].uuid ==> gone[i].number < gone[j].number {
      RemovalOrder(listed, order, obj, clock, policy, i, j);
    }
  }

  lemma PlannedBelowKept(s: State, order: seq<Slot>, clock: int, policy: Policy, g: Slot, k: string)
    requires Inv(s) && Enabled(s, Plan(order, clock, policy)) && k in s.dumps
    requires g in Planned(s, order, clock, policy).gone && g.uuid == s.dumps[k].uuid
    requires k !in Planned(s, order, clock, policy).dead
    ensures g.number < s.dumps[k].log
  {
    var d := s.dumps[k];
    ListerIsFaithful(s.base, s.logs);
    PlannedRange(s.prune.dumps, order, Lister(s.base, s.logs), clock, policy, s.logs, s.shipped, s.pruned, s.now);
    KeptSlotStays(s, order, clock, policy, k);
    assert DumpOk(d, s.logs, s.shipped, s.pruned);
    assert Slot(d.uuid, d.log).uuid == g.uuid;
  }

  lemma PlanIsSound(s: State, order: seq<Slot>, clock: int, policy: Policy)
    requires Inv(s) && Enabled(s, Plan(order, clock, policy))
    ensures DeletingOk(Planned(s, order, clock, policy), s.dumps, s.shipped, s.pruned)
  {
    var plan := Planned(s, order, clock, policy);
    ListerIsFaithful(s.base, s.logs);
    PlannedRange(s.prune.dumps, order, Lister(s.base, s.logs), clock, policy, s.logs, s.shipped, s.pruned, s.now);
    forall g, k | g in plan.gone && k in s.dumps && s.dumps[k].uuid == g.uuid && k !in plan.dead
      ensures g.number < s.dumps[k].log
    {
      PlannedBelowKept(s, order, clock, policy, g, k);
    }
  }

  lemma PlanKeeps(s: State, order: seq<Slot>, clock: int, policy: Policy)
    requires Inv(s) && Enabled(s, Plan(order, clock, policy))
    ensures Inv(Do(s, Plan(order, clock, policy)))
  {
    PlanIsSound(s, order, clock, policy);
    var plan := Planned(s, order, clock, policy);
    PlanKept(s, plan);
  }

  lemma PlanKept(s: State, plan: Pruning)
    requires Inv(s) && plan.Deleting? && DeletingOk(plan, s.dumps, s.shipped, s.pruned)
    ensures Inv(s.(prune := plan))
  {
  }

  lemma StepKeeps(s: State, step: Step)
    requires Inv(s) && Enabled(s, step)
    ensures Inv(Do(s, step))
  {
    match step
    case Tick(_) => ServerKeeps(s, step);
    case Rotate => ServerKeeps(s, step);
    case Purge(_) => ServerKeeps(s, step);
    case Rebuild(u) => RebuildKeeps(s, u);
    case StartShip => ShipKeeps(s, step);
    case Upload => UploadKeeps(s);
    case SaveMarker => ShipKeeps(s, step);
    case EndShip => ShipKeeps(s, step);
    case StartDump(_) => DumpKeeps(s, step);
    case UploadDump => DumpKeeps(s, step);
    case EndDump => DumpKeeps(s, step);
    case ListDumps(_) => ListKeeps(s, step);
    case Plan(order, clock, policy) => PlanKeeps(s, order, clock, policy);
    case RemoveDump => RemoveDumpKeeps(s);
    case RemoveLog => RemoveLogKeeps(s);
    case EndPrune => ListKeeps(s, step);
  }

  /** The states a run goes through, first to last. */
  predicate IsRun(states: seq<State>, steps: seq<Step>) {
    && |states| == |steps| + 1 && Init(states[0])
    && forall i | 0 <= i < |steps| :: Enabled(states[i], steps[i]) && states[i + 1] == Do(states[i], steps[i])
  }

  lemma {:induction false} RunKeeps(states: seq<State>, steps: seq<Step>, i: nat)
    requires IsRun(states, steps) && i < |states|
    ensures Inv(states[i])
  {
    if i == 0 {
      InitHolds(states[0]);
    } else {
      RunKeeps(states, steps, i - 1);
      StepKeeps(states[i - 1], steps[i - 1]);
    }
  }

  /* What the pieces are, in the jobs' own terms. */

  /** The names of the server's logs `lo` to `hi - 1`, oldest first. */
  function Names(base: string, lo: nat, hi: nat): seq<string>
    requires lo <= hi
  {
    seq(hi - lo, i requires 0 <= i < hi - lo => LogName(base, lo + i))
  }

  function MarkerOf(s: State): Option<Ship.Marker> {
    if s.marker.None? then None else Some(Ship.Marker(s.marker.value.uuid, LogName(s.base, s.marker.value.number)))
  }

  lemma NameInList(base: string, lo: nat, hi: nat, n: nat)
    requires base != "" && lo <= hi
    ensures LogName(base, n) in Names(base, lo, hi) <==> lo <= n < hi
    ensures lo <= n < hi ==> Ship.IndexOf(Names(base, lo, hi), LogName(base, n)) == n - lo
  {
    var names, name := Names(base, lo, hi), LogName(base, n);
    if name in names {
      var i := Ship.IndexOf(names, name);
      LogNameInjective(base, n, lo + i);
    }
    if lo <= n < hi {
      assert names[n - lo] == name;
    }
  }

  /** A shipper run started in any state has exactly the pending list `logs_to_ship` computes. */
  lemma PendingIsLogsToShip(s: State)
    requires s.base != "" && s.first <= s.open
    ensures Start(s) <= s.open
    ensures Ship.LogsToShip(Names(s.base, s.first, s.open), MarkerOf(s), s.uuid) == Names(s.base, Start(s), s.open)
  {
    if s.marker.Some? && s.marker.value.uuid == s.uuid {
      NameInList(s.base, s.first, s.open, s.marker.value.number);
    }
  }

  /** The local paths of an incarnation's logs in the bucket, downloaded under `prefix`, each once, in any order. */
  ghost predicate Downloaded(s: State, uuid: string, prefix: string, paths: seq<string>) {
    && Distinct(paths)
    && (forall p | p in paths :: exists n: nat :: Slot(uuid, n) in s.logs && p == Extract.PathOf(prefix, s.base, n))
    && (forall n: nat | Slot(uuid, n) in s.logs :: Extract.PathOf(prefix, s.base, n) in paths)
  }

  lemma DownloadedLogs(s: State, uuid: string, prefix: string, paths: seq<string>)
    requires Inv(s) && Downloaded(s, uuid, prefix, paths)
    ensures Extract.TheLogs(paths, Extract.LogPaths(prefix, s.base), To(s.pruned, uuid), To(s.shipped, uuid))
  {
    var lo, hi, path := To(s.pruned, uuid), To(s.shipped, uuid), Extract.LogPaths(prefix, s.base);
    forall p | p in paths ensures exists n: nat | lo < n <= hi :: p == path(n) {
      var n: nat :| Slot(uuid, n) in s.logs && p == Extract.PathOf(prefix, s.base, n);
      assert lo < n <= hi && p == path(n);
    }
    forall n: nat | lo < n <= hi ensures path(n) in paths {
      assert Slot(uuid, n) in s.logs;
    }
  }

  /** At any moment of any run, whatever is in the bucket restores: the coordinates read from a
      dump's own comment are found among its incarnation's logs as soon as the log they name is
      shipped, and the replay then reads every log from there to the last shipped one, in order.
      Only a resume log that is not shipped yet is refused, as not found. */
  lemma EveryDumpRestores(states: seq<State>, steps: seq<Step>, i: nat, key: string, position: nat, body: seq<string>,
                          at: nat, point: Extract.ResumePoint, prefix: string, paths: seq<string>)
    requires IsRun(states, steps) && i < |states| && key in states[i].dumps
    requires Extract.BaseWord(states[i].base) && '\'' !in states[i].base
    requires var s, d := states[i], states[i].dumps[key];
      && Downloaded(s, d.uuid, prefix, paths)
      && Extract.FirstComment(
           [Extract.CommentLine(Extract.ResumePoint(LogName(s.base, d.log), position)) + "\n"] + body, at, point)
    ensures var s, d := states[i], states[i].dumps[key];
      && point == Extract.ResumePoint(LogName(s.base, d.log), position)
      && Extract.ReplayPlan(paths, point.logFile)
        == if d.log <= To(s.shipped, d.uuid)
           then Extract.Accepted(Extract.Span(Extract.LogFiles(prefix, s.base), d.log, To(s.shipped, d.uuid)))
           else Extract.Rejected(Extract.ResumeNotFound)
  {
    var s, d := states[i], states[i].dumps[key];
    RunKeeps(states, steps, i);
    assert DumpOk(d, s.logs, s.shipped, s.pruned);
    NameIsQuotable(s.base, d.log);
    Extract.OwnCommentFound(Extract.ResumePoint(LogName(s.base, d.log), position), body);
    DownloadedLogs(s, d.uuid, prefix, paths);
    Extract.ReplayOfLogs(paths, prefix, s.base, To(s.pruned, d.uuid), To(s.shipped, d.uuid), d.log);
  }

  lemma NameIsQuotable(base: string, n: nat)
    requires '\'' !in base
    ensures LogName(base, n) != "" && '\'' !in LogName(base, n)
  {
    NumeralIs(n);
  }

  /** The last shipped log and the server's oldest retained log leave no gap between them. */
  lemma NothingLost(states: seq<State>, steps: seq<Step>, i: nat, n: nat)
    requires IsRun(states, steps) && i < |states|
    ensures var s := states[i];
      To(s.pruned, s.uuid) < n < s.open ==> Slot(s.uuid, n) in s.logs || s.first <= n
  {
    RunKeeps(states, steps, i);
  }
}
