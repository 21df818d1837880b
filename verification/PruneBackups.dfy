/** The retention decision of db/provision/prune_backups.py and what it guarantees. */
module PruneBackups {
  import opened BinlogNames
  import opened Options
  import opened Sorting

  datatype Dump = Dump(key: string, uuid: string, ts: int)
  datatype Binlog = Binlog(key: string, uuid: string, logName: string, ts: int)

  datatype Reason = NoCover | Unreplayable | Unparseable | NotMonotonic | NotPrefix
  datatype GroupPlan = Refused(reason: Reason) | Planned(dumps: seq<Dump>, binlogs: seq<Binlog>)

  /** The two widths of the rule, in any unit: the promised window and the slack beyond it. */
  datatype Policy = Policy(window: int, margin: int)

  function RetentionCutoff(now: int, p: Policy): int { now - (p.window + p.margin) }
  function AnchorCutoff(now: int, p: Policy): int { now - p.window }

  predicate DumpLe(a: Dump, b: Dump) { a.ts <= b.ts }
  predicate BinlogLe(a: Binlog, b: Binlog) { a.ts <= b.ts }

  function DumpUpTo(t: int): Dump -> bool { (d: Dump) => d.ts <= t }
  function DumpKeyIn(keys: set<string>): Dump -> bool { (d: Dump) => d.key in keys }
  function DumpKeyNotIn(keys: set<string>): Dump -> bool { (d: Dump) => d.key !in keys }
  function BinlogBefore(t: int): Binlog -> bool { (b: Binlog) => b.ts < t }
  function BinlogFrom(t: int): Binlog -> bool { (b: Binlog) => b.ts >= t }
  function BinlogKeyNotIn(keys: set<string>): Binlog -> bool { (b: Binlog) => b.key !in keys }

  function DumpKeys(dumps: seq<Dump>): set<string> { set d | d in dumps :: d.key }
  function BinlogKeys(binlogs: seq<Binlog>): set<string> { set b | b in binlogs :: b.key }

  function SortDumps(dumps: seq<Dump>): seq<Dump> { StableSort(dumps, DumpLe) }
  function SortBinlogs(binlogs: seq<Binlog>): seq<Binlog> { StableSort(binlogs, BinlogLe) }

  /** The newest dump old enough to anchor the window, if there is one. */
  function Anchor(dumps: seq<Dump>, cutoff: int): Option<Dump> {
    var eligible := Filter(SortDumps(dumps), DumpUpTo(cutoff));
    if eligible == [] then None else Some(eligible[|eligible| - 1])
  }

  function KeepKeys(dumps: seq<Dump>, cutoff: int, anchor: Dump): set<string> {
    (set d | d in dumps && d.ts > cutoff :: d.key) + {anchor.key}
  }

  function DeadDumps(dumps: seq<Dump>, cutoff: int, anchor: Dump): seq<Dump> {
    Filter(SortDumps(dumps), DumpKeyNotIn(KeepKeys(dumps, cutoff, anchor)))
  }

  function OldestTs(dumps: seq<Dump>): int
    requires dumps != []
  {
    if |dumps| == 1 then dumps[0].ts
    else
      var rest := OldestTs(dumps[1..]);
      if dumps[0].ts <= rest then dumps[0].ts else rest
  }

  function BinlogCutoff(cutoff: int, anchor: Dump): int {
    if cutoff < anchor.ts then cutoff else anchor.ts
  }

  predicate Parses(b: Binlog) { TrailingSequence(b.logName).Some? }

  predicate SequenceLe(a: Binlog, b: Binlog) {
    Parses(a) && Parses(b) && TrailingSequence(a.logName).value <= TrailingSequence(b.logName).value
  }

  predicate SequenceLess(a: Binlog, b: Binlog) {
    Parses(a) && Parses(b) && TrailingSequence(a.logName).value < TrailingSequence(b.logName).value
  }

  /** Why a split of the binlogs may not be carried out, if it may not. */
  function Objection(all: seq<Binlog>, gone: seq<Binlog>, kept: seq<Binlog>): Option<Reason> {
    if gone == [] then None
    else if kept == [] then Some(Unreplayable)
    else if exists b | b in all :: !Parses(b) then Some(Unparseable)
    else if !SortedBy(all, SequenceLe) then Some(NotMonotonic)
    else if exists g, k | g in gone && k in kept :: !SequenceLess(g, k) then Some(NotPrefix)
    else None
  }

  /** One incarnation's decision. */
  function PlanGroup(dumps: seq<Dump>, binlogs: seq<Binlog>, now: int, p: Policy): GroupPlan {
    var retention := RetentionCutoff(now, p);
    var found := Anchor(dumps, AnchorCutoff(now, p));
    if found.None? then Planned([], [])
    else
      var anchor := found.value;
      var dead := DeadDumps(dumps, retention, anchor);
      AnchorSurvives(dumps, retention, AnchorCutoff(now, p));
      if OldestTs(Filter(SortDumps(dumps), DumpKeyNotIn(DumpKeys(dead)))) > AnchorCutoff(now, p) then Refused(NoCover)
      else
        var cut := BinlogCutoff(retention, anchor);
        var sorted := SortBinlogs(binlogs);
        var gone, kept := Filter(sorted, BinlogBefore(cut)), Filter(sorted, BinlogFrom(cut));
        var objection := Objection(sorted, gone, kept);
        if objection.Some? then Refused(objection.value) else Planned(dead, gone)
  }

  function PlannedDumps(plan: GroupPlan): seq<Dump> { if plan.Planned? then plan.dumps else [] }
  function PlannedBinlogs(plan: GroupPlan): seq<Binlog> { if plan.Planned? then plan.binlogs else [] }

  /* Facts about the pieces. */

  lemma OrdersAreTotal()
    ensures TotalPreorder(DumpLe) && TotalPreorder(BinlogLe)
  {
  }

  lemma SortedDumpFacts(dumps: seq<Dump>)
    ensures forall d :: d in SortDumps(dumps) <==> d in dumps
    ensures SortedBy(SortDumps(dumps), DumpLe)
  {
    OrdersAreTotal();
    SortContains(dumps, DumpLe);
    SortSorts(dumps, DumpLe);
  }

  lemma SortedBinlogFacts(binlogs: seq<Binlog>)
    ensures forall b :: b in SortBinlogs(binlogs) <==> b in binlogs
    ensures SortedBy(SortBinlogs(binlogs), BinlogLe)
  {
    OrdersAreTotal();
    SortContains(binlogs, BinlogLe);
    SortSorts(binlogs, BinlogLe);
  }

  /** The anchor is one of the dumps, old enough, and no other old-enough dump is newer. */
  lemma AnchorIsNewest(dumps: seq<Dump>, cutoff: int)
    ensures Anchor(dumps, cutoff).None? ==> forall d | d in dumps :: d.ts > cutoff
    ensures Anchor(dumps, cutoff).Some? ==>
      var a := Anchor(dumps, cutoff).value;
      a in dumps && a.ts <= cutoff && forall d | d in dumps && d.ts <= cutoff :: d.ts <= a.ts
  {
    var sorted := SortDumps(dumps);
    SortedDumpFacts(dumps);
    FilterMembers(sorted, DumpUpTo(cutoff));
    FilterSorted(sorted, DumpUpTo(cutoff), DumpLe);
    var eligible := Filter(sorted, DumpUpTo(cutoff));
    forall d | d in dumps && d.ts <= cutoff
      ensures eligible != [] && d.ts <= eligible[|eligible| - 1].ts
    {
      assert d in eligible;
      var k :| 0 <= k < |eligible| && eligible[k] == d;
      assert k == |eligible| - 1 || DumpLe(eligible[k], eligible[|eligible| - 1]);
    }
    if eligible != [] {
      assert eligible[|eligible| - 1] in eligible;
    }
  }

  /** A dump survives its own incarnation's plan exactly when its key is to be kept. */
  lemma DeadIff(dumps: seq<Dump>, cutoff: int, anchor: Dump, d: Dump)
    requires d in dumps
    ensures d.key in DumpKeys(DeadDumps(dumps, cutoff, anchor)) <==> d.key !in KeepKeys(dumps, cutoff, anchor)
  {
    SortedDumpFacts(dumps);
    FilterMembers(SortDumps(dumps), DumpKeyNotIn(KeepKeys(dumps, cutoff, anchor)));
    assert d in SortDumps(dumps);
  }

  lemma AnchorSurvives(dumps: seq<Dump>, retention: int, cutoff: int)
    requires Anchor(dumps, cutoff).Some?
    ensures var a := Anchor(dumps, cutoff).value;
      var surviving := Filter(SortDumps(dumps), DumpKeyNotIn(DumpKeys(DeadDumps(dumps, retention, a))));
      a in surviving && surviving != []
  {
    var a := Anchor(dumps, cutoff).value;
    var dead := DeadDumps(dumps, retention, a);
    AnchorIsNewest(dumps, cutoff);
    DeadIff(dumps, retention, a, a);
    SortedDumpFacts(dumps);
    FilterMembers(SortDumps(dumps), DumpKeyNotIn(DumpKeys(dead)));
  }

  lemma {:induction false} OldestIsLeast(dumps: seq<Dump>)
    requires dumps != []
    ensures forall d | d in dumps :: OldestTs(dumps) <= d.ts
  {
    if |dumps| > 1 {
      OldestIsLeast(dumps[1..]);
      assert dumps == [dumps[0]] + dumps[1..];
    }
  }

  /** The "no retained dump would cover the window" refusal cannot happen. */
  lemma NoCoverUnreachable(dumps: seq<Dump>, binlogs: seq<Binlog>, now: int, p: Policy)
    ensures PlanGroup(dumps, binlogs, now, p) != Refused(NoCover)
  {
    var found := Anchor(dumps, AnchorCutoff(now, p));
    if found.Some? {
      var dead := DeadDumps(dumps, RetentionCutoff(now, p), found.value);
      AnchorSurvives(dumps, RetentionCutoff(now, p), AnchorCutoff(now, p));
      AnchorIsNewest(dumps, AnchorCutoff(now, p));
      OldestIsLeast(Filter(SortDumps(dumps), DumpKeyNotIn(DumpKeys(dead))));
    }
  }

  /** What a plan is, once the unreachable refusal is set aside. */
  lemma PlanShape(dumps: seq<Dump>, binlogs: seq<Binlog>, now: int, p: Policy)
    requires Anchor(dumps, AnchorCutoff(now, p)).Some?
    ensures var anchor := Anchor(dumps, AnchorCutoff(now, p)).value;
      var cut := BinlogCutoff(RetentionCutoff(now, p), anchor);
      var sorted := SortBinlogs(binlogs);
      var gone, kept := Filter(sorted, BinlogBefore(cut)), Filter(sorted, BinlogFrom(cut));
      PlanGroup(dumps, binlogs, now, p)
        == if Objection(sorted, gone, kept).Some? then Refused(Objection(sorted, gone, kept).value)
           else Planned(DeadDumps(dumps, RetentionCutoff(now, p), anchor), gone)
  {
    NoCoverUnreachable(dumps, binlogs, now, p);
  }

  /* What every plan guarantees. */

  /** Dumps: the window's anchor and everything inside retention stay; all else goes. */
  lemma DumpsKept(dumps: seq<Dump>, binlogs: seq<Binlog>, now: int, p: Policy, d: Dump)
    requires d in dumps
    ensures var plan := PlanGroup(dumps, binlogs, now, p);
      var anchor := Anchor(dumps, AnchorCutoff(now, p));
      d.key in DumpKeys(PlannedDumps(plan)) <==>
        plan.Planned? && anchor.Some? && d.key !in KeepKeys(dumps, RetentionCutoff(now, p), anchor.value)
  {
    if Anchor(dumps, AnchorCutoff(now, p)).Some? {
      PlanShape(dumps, binlogs, now, p);
      DeadIff(dumps, RetentionCutoff(now, p), Anchor(dumps, AnchorCutoff(now, p)).value, d);
    }
  }

  /** Binlogs: a carried-out deletion is a strict sequence prefix, and something stays behind it. */
  lemma BinlogsCleanPrefix(dumps: seq<Dump>, binlogs: seq<Binlog>, now: int, p: Policy)
    ensures var gone := PlannedBinlogs(PlanGroup(dumps, binlogs, now, p));
      && (forall g | g in gone :: g in binlogs)
      && (forall g, k | g in gone && k in binlogs && k !in gone :: SequenceLess(g, k))
      && (gone != [] ==> exists k :: k in binlogs && k !in gone)
      && SortedBy(gone, SequenceLe)
  {
    if Anchor(dumps, AnchorCutoff(now, p)).Some? {
      PlanShape(dumps, binlogs, now, p);
      var cut := BinlogCutoff(RetentionCutoff(now, p), Anchor(dumps, AnchorCutoff(now, p)).value);
      var sorted := SortBinlogs(binlogs);
      SortedBinlogFacts(binlogs);
      FilterMembers(sorted, BinlogBefore(cut));
      FilterMembers(sorted, BinlogFrom(cut));
      var kept := Filter(sorted, BinlogFrom(cut));
      if PlannedBinlogs(PlanGroup(dumps, binlogs, now, p)) != [] {
        FilterSorted(sorted, BinlogBefore(cut), SequenceLe);
        assert kept[0] in kept;
      }
    }
  }

  /** A log's number, where its name carries one. */
  function Number(b: Binlog): int { if TrailingSequence(b.logName).Some? then TrailingSequence(b.logName).value else 0 }

  /** Numbers never fall along the list. */
  predicate InOrder(all: seq<Binlog>) { forall i, j | 0 <= i < j < |all| :: Number(all[i]) <= Number(all[j]) }

  /** A log older than the cutoff is not numbered below one that is not. */
  predicate Straddles(binlogs: seq<Binlog>, cut: int) {
    exists g, k | g in binlogs && k in binlogs :: g.ts < cut <= k.ts && Number(g) >= Number(k)
  }

  /** When an anchored incarnation is refused, and why, the first that applies: everything would go, a name carries
      no number, numbers do not follow upload times, or what goes is not numbered below what stays. */
  lemma RefusalIff(dumps: seq<Dump>, binlogs: seq<Binlog>, now: int, p: Policy)
    requires Anchor(dumps, AnchorCutoff(now, p)).Some?
    ensures var cut := BinlogCutoff(RetentionCutoff(now, p), Anchor(dumps, AnchorCutoff(now, p)).value);
      var plan := PlanGroup(dumps, binlogs, now, p);
      var someGo, someStay := (exists b | b in binlogs :: b.ts < cut), (exists b | b in binlogs :: b.ts >= cut);
      var allParse := forall b | b in binlogs :: TrailingSequence(b.logName).Some?;
      var inOrder := InOrder(SortBinlogs(binlogs));
      && (plan == Refused(Unreplayable) <==> someGo && !someStay)
      && (plan == Refused(Unparseable) <==> someGo && someStay && !allParse)
      && (plan == Refused(NotMonotonic) <==> someGo && someStay && allParse && !inOrder)
      && (plan == Refused(NotPrefix) <==> someGo && someStay && allParse && inOrder && Straddles(binlogs, cut))
  {
    var cut := BinlogCutoff(RetentionCutoff(now, p), Anchor(dumps, AnchorCutoff(now, p)).value);
    var s := SortBinlogs(binlogs);
    PlanShape(dumps, binlogs, now, p);
    SortedBinlogFacts(binlogs);
    FilterMembers(s, BinlogBefore(cut));
    FilterMembers(s, BinlogFrom(cut));
    ObjectionIff(binlogs, cut, s, Filter(s, BinlogBefore(cut)), Filter(s, BinlogFrom(cut)));
  }

  lemma ObjectionIff(binlogs: seq<Binlog>, cut: int, all: seq<Binlog>, gone: seq<Binlog>, kept: seq<Binlog>)
    requires forall b :: b in all <==> b in binlogs
    requires forall b :: b in gone <==> b in binlogs && b.ts < cut
    requires forall b :: b in kept <==> b in binlogs && b.ts >= cut
    ensures var o := Objection(all, gone, kept);
      var someGo, someStay := (exists b | b in binlogs :: b.ts < cut), (exists b | b in binlogs :: b.ts >= cut);
      var allParse := forall b | b in binlogs :: TrailingSequence(b.logName).Some?;
      && (o == Some(Unreplayable) <==> someGo && !someStay)
      && (o == Some(Unparseable) <==> someGo && someStay && !allParse)
      && (o == Some(NotMonotonic) <==> someGo && someStay && allParse && !InOrder(all))
      && (o == Some(NotPrefix) <==> someGo && someStay && allParse && InOrder(all) && Straddles(binlogs, cut))
  {
    SidesNamed(binlogs, cut, gone, kept);
    assert (exists b | b in all :: !Parses(b)) <==> !(forall b | b in binlogs :: TrailingSequence(b.logName).Some?);
    if forall b | b in binlogs :: Parses(b) {
      InOrderIff(all);
      StraddlesIff(binlogs, cut, gone, kept);
    }
  }

  lemma InOrderIff(all: seq<Binlog>)
    requires forall b | b in all :: Parses(b)
    ensures InOrder(all) <==> SortedBy(all, SequenceLe)
  {
    forall i, j | 0 <= i < j < |all| ensures Number(all[i]) <= Number(all[j]) <==> SequenceLe(all[i], all[j]) {
      assert Parses(all[i]) && Parses(all[j]);
    }
  }

  lemma StraddlesIff(binlogs: seq<Binlog>, cut: int, gone: seq<Binlog>, kept: seq<Binlog>)
    requires forall b | b in binlogs :: Parses(b)
    requires forall b :: b in gone <==> b in binlogs && b.ts < cut
    requires forall b :: b in kept <==> b in binlogs && b.ts >= cut
    ensures (exists g, k | g in gone && k in kept :: !SequenceLess(g, k)) <==> Straddles(binlogs, cut)
  {
    forall g, k | g in binlogs && k in binlogs ensures SequenceLess(g, k) <==> Number(g) < Number(k) {
    }
  }

  lemma SidesNamed(binlogs: seq<Binlog>, cut: int, gone: seq<Binlog>, kept: seq<Binlog>)
    requires forall b :: b in gone <==> b in binlogs && b.ts < cut
    requires forall b :: b in kept <==> b in binlogs && b.ts >= cut
    ensures gone == [] <==> !exists b | b in binlogs :: b.ts < cut
    ensures kept == [] <==> !exists b | b in binlogs :: b.ts >= cut
  {
    assert gone != [] ==> gone[0] in gone;
    assert kept != [] ==> kept[0] in kept;
  }

  predicate ShareSequence(a: Binlog, b: Binlog) {
    Parses(a) && Parses(b) && TrailingSequence(a.logName) == TrailingSequence(b.logName)
  }

  lemma EarlierIsNotHigher(sorted: seq<Binlog>, g: Binlog, k: Binlog)
    requires SortedBy(sorted, BinlogLe) && SortedBy(sorted, SequenceLe)
    requires g in sorted && k in sorted && g.ts < k.ts
    ensures SequenceLe(g, k)
  {
    var i :| 0 <= i < |sorted| && sorted[i] == g;
    var j :| 0 <= j < |sorted| && sorted[j] == k;
    assert j < i ==> BinlogLe(sorted[j], sorted[i]);
    assert SequenceLe(sorted[i], sorted[j]);
  }

  /** The last guard fires only on a sequence number that two of the incarnation's binlogs share. */
  lemma NotPrefixMeansShared(dumps: seq<Dump>, binlogs: seq<Binlog>, now: int, p: Policy)
    requires PlanGroup(dumps, binlogs, now, p) == Refused(NotPrefix)
    ensures exists g, k :: g in binlogs && k in binlogs && g.ts < k.ts && ShareSequence(g, k)
  {
    PlanShape(dumps, binlogs, now, p);
    var cut := BinlogCutoff(RetentionCutoff(now, p), Anchor(dumps, AnchorCutoff(now, p)).value);
    var sorted := SortBinlogs(binlogs);
    var gone, kept := Filter(sorted, BinlogBefore(cut)), Filter(sorted, BinlogFrom(cut));
    assert Objection(sorted, gone, kept) == Some(NotPrefix);
    var g, k :| g in gone && k in kept && !SequenceLess(g, k);
    SortedBinlogFacts(binlogs);
    FilterMembers(sorted, BinlogBefore(cut));
    FilterMembers(sorted, BinlogFrom(cut));
    EarlierIsNotHigher(sorted, g, k);
    assert ShareSequence(g, k);
  }

  /** A binlog goes exactly when its incarnation's plan stands and it is older than the cutoff. */
  lemma BinlogGoesIff(dumps: seq<Dump>, binlogs: seq<Binlog>, now: int, p: Policy, b: Binlog)
    ensures var plan := PlanGroup(dumps, binlogs, now, p);
      var anchor := Anchor(dumps, AnchorCutoff(now, p));
      b in PlannedBinlogs(plan) <==>
        && plan.Planned? && anchor.Some? && b in binlogs
        && b.ts < BinlogCutoff(RetentionCutoff(now, p), anchor.value)
  {
    var found := Anchor(dumps, AnchorCutoff(now, p));
    if found.Some? {
      PlanShape(dumps, binlogs, now, p);
      SortedBinlogFacts(binlogs);
      FilterMembers(SortBinlogs(binlogs), BinlogBefore(BinlogCutoff(RetentionCutoff(now, p), found.value)));
    }
  }

  /** A resume log is still there after the plan when it was shipped no earlier than its kept dump. */
  lemma ResumeLogKept(dumps: seq<Dump>, binlogs: seq<Binlog>, now: int, p: Policy, d: Dump, b: Binlog)
    requires d in dumps && d.key !in DumpKeys(PlannedDumps(PlanGroup(dumps, binlogs, now, p)))
    requires forall e | e in dumps && e.key == d.key :: e == d
    requires b in binlogs && b.ts >= d.ts
    ensures b !in PlannedBinlogs(PlanGroup(dumps, binlogs, now, p))
  {
    var found := Anchor(dumps, AnchorCutoff(now, p));
    if found.Some? && PlanGroup(dumps, binlogs, now, p).Planned? {
      PlanShape(dumps, binlogs, now, p);
      DumpsKept(dumps, binlogs, now, p, d);
      AnchorIsNewest(dumps, AnchorCutoff(now, p));
      var cut := BinlogCutoff(RetentionCutoff(now, p), found.value);
      assert d.ts >= cut;
      FilterMembers(SortBinlogs(binlogs), BinlogBefore(cut));
    }
  }

  /** Dividing the binlogs at that time raises no objection. */
  predicate SplitStands(binlogs: seq<Binlog>, cut: int) {
    var s := SortBinlogs(binlogs);
    Objection(s, Filter(s, BinlogBefore(cut)), Filter(s, BinlogFrom(cut))).None?
  }

  predicate KeepsDump(dumps: seq<Dump>, binlogs: seq<Binlog>, now: int, p: Policy, d: Dump) {
    d.key !in DumpKeys(PlannedDumps(PlanGroup(dumps, binlogs, now, p)))
  }

  /** With that window, no plan deletes the binlog and keeps the dump, whatever its clock and margin. */
  ghost predicate OutlivesDump(dumps: seq<Dump>, binlogs: seq<Binlog>, window: int, d: Dump, b: Binlog) {
    forall now, margin: nat | KeepsDump(dumps, binlogs, now, Policy(window, margin), d) ::
      b !in PlannedBinlogs(PlanGroup(dumps, binlogs, now, Policy(window, margin)))
  }

  /** The same for one policy: no clock deletes the binlog and keeps the dump. */
  ghost predicate OutlivesUnder(dumps: seq<Dump>, binlogs: seq<Binlog>, p: Policy, d: Dump, b: Binlog) {
    forall now | KeepsDump(dumps, binlogs, now, p, d) :: b !in PlannedBinlogs(PlanGroup(dumps, binlogs, now, p))
  }

  predicate OnlyOne(dumps: seq<Dump>, d: Dump) {
    d in dumps && forall e | e in dumps && (e.key == d.key || e.ts == d.ts) :: e == d
  }

  /** A dump's resume log outlives it, for any window, exactly when no division between the log and the dump
      stands: it can be lost under a kept dump as soon as it was shipped before that dump landed and one stands. */
  lemma ResumeLogOutlivesIff(dumps: seq<Dump>, binlogs: seq<Binlog>, window: int, d: Dump, b: Binlog)
    requires OnlyOne(dumps, d) && b in binlogs
    ensures OutlivesDump(dumps, binlogs, window, d, b)
      <==> !exists cut :: b.ts < cut <= d.ts && SplitStands(binlogs, cut)
  {
    if cut :| b.ts < cut <= d.ts && SplitStands(binlogs, cut) {
      LostAt(dumps, binlogs, window, d, b, cut);
    } else {
      forall now, margin: nat | KeepsDump(dumps, binlogs, now, Policy(window, margin), d)
        ensures b !in PlannedBinlogs(PlanGroup(dumps, binlogs, now, Policy(window, margin)))
      {
        GoesMeansSplit(dumps, binlogs, now, Policy(window, margin), d, b);
      }
    }
  }

  lemma LostAt(dumps: seq<Dump>, binlogs: seq<Binlog>, window: int, d: Dump, b: Binlog, cut: int)
    requires OnlyOne(dumps, d) && b in binlogs && b.ts < cut <= d.ts && SplitStands(binlogs, cut)
    ensures !OutlivesDump(dumps, binlogs, window, d, b)
  {
    var margin: nat := d.ts - cut;
    if cut < d.ts {
      LostWithin(dumps, binlogs, Policy(window, margin), d, b, cut);
    } else {
      LostAtAnchor(dumps, binlogs, Policy(window, margin), d, b);
    }
  }

  lemma LostWithin(dumps: seq<Dump>, binlogs: seq<Binlog>, p: Policy, d: Dump, b: Binlog, cut: int)
    requires d in dumps && b in binlogs && b.ts < cut && d.ts - p.margin <= cut < d.ts && SplitStands(binlogs, cut)
    ensures !OutlivesDump(dumps, binlogs, p.window, d, b) && !OutlivesUnder(dumps, binlogs, p, d, b)
  {
    DeletedUnder(dumps, binlogs, p, d, b, cut);
    OneLoss(dumps, binlogs, cut + p.window + p.margin, p, d, b);
  }

  lemma LostAtAnchor(dumps: seq<Dump>, binlogs: seq<Binlog>, p: Policy, d: Dump, b: Binlog)
    requires OnlyOne(dumps, d) && b in binlogs && b.ts < d.ts && p.margin >= 0 && SplitStands(binlogs, d.ts)
    requires NoneWithin(dumps, d, p.margin)
    ensures !OutlivesDump(dumps, binlogs, p.window, d, b) && !OutlivesUnder(dumps, binlogs, p, d, b)
  {
    DeletedUnderAnchor(dumps, binlogs, p, d, b);
    OneLoss(dumps, binlogs, d.ts + p.window + p.margin, p, d, b);
  }

  lemma OneLoss(dumps: seq<Dump>, binlogs: seq<Binlog>, now: int, p: Policy, d: Dump, b: Binlog)
    requires KeepsDump(dumps, binlogs, now, p, d) && b in PlannedBinlogs(PlanGroup(dumps, binlogs, now, p))
    ensures p.margin >= 0 ==> !OutlivesDump(dumps, binlogs, p.window, d, b)
    ensures !OutlivesUnder(dumps, binlogs, p, d, b)
  {
    if p.margin >= 0 {
      var margin: nat := p.margin;
      assert p == Policy(p.window, margin);
    }
  }

  /** Under any one policy: at the clock that puts the end of retention within one margin before the dump, the
      dump stays and every log older than that goes, if the division stands. */
  lemma DeletedUnder(dumps: seq<Dump>, binlogs: seq<Binlog>, p: Policy, d: Dump, b: Binlog, cut: int)
    requires d in dumps && b in binlogs && b.ts < cut && d.ts - p.margin <= cut < d.ts && SplitStands(binlogs, cut)
    ensures var now := cut + p.window + p.margin;
      KeepsDump(dumps, binlogs, now, p, d) && b in PlannedBinlogs(PlanGroup(dumps, binlogs, now, p))
  {
    var now := cut + p.window + p.margin;
    CutoffIs(dumps, now, p, d, cut);
    PlanStands(dumps, binlogs, now, p, cut, b);
    KeptInRetention(dumps, binlogs, now, p, d);
  }

  lemma CutoffIs(dumps: seq<Dump>, now: int, p: Policy, d: Dump, cut: int)
    requires d in dumps && RetentionCutoff(now, p) == cut < d.ts <= AnchorCutoff(now, p)
    ensures Anchor(dumps, AnchorCutoff(now, p)).Some?
    ensures BinlogCutoff(RetentionCutoff(now, p), Anchor(dumps, AnchorCutoff(now, p)).value) == cut
  {
    AnchorIsNewest(dumps, AnchorCutoff(now, p));
  }

  lemma KeptInRetention(dumps: seq<Dump>, binlogs: seq<Binlog>, now: int, p: Policy, d: Dump)
    requires d in dumps && d.ts > RetentionCutoff(now, p)
    ensures KeepsDump(dumps, binlogs, now, p, d)
  {
    DumpsKept(dumps, binlogs, now, p, d);
  }

  lemma PlanStands(dumps: seq<Dump>, binlogs: seq<Binlog>, now: int, p: Policy, cut: int, b: Binlog)
    requires Anchor(dumps, AnchorCutoff(now, p)).Some?
    requires BinlogCutoff(RetentionCutoff(now, p), Anchor(dumps, AnchorCutoff(now, p)).value) == cut
    requires SplitStands(binlogs, cut) && b in binlogs && b.ts < cut
    ensures b in PlannedBinlogs(PlanGroup(dumps, binlogs, now, p))
  {
    PlanShape(dumps, binlogs, now, p);
    BinlogGoesIff(dumps, binlogs, now, p, b);
  }

  /** No newer dump lies within that distance. */
  predicate NoneWithin(dumps: seq<Dump>, d: Dump, margin: int) {
    forall e | e in dumps :: !(d.ts < e.ts <= d.ts + margin)
  }

  /** And when retention ends at the dump itself, if no newer dump can be the anchor. */
  lemma DeletedUnderAnchor(dumps: seq<Dump>, binlogs: seq<Binlog>, p: Policy, d: Dump, b: Binlog)
    requires OnlyOne(dumps, d) && b in binlogs && b.ts < d.ts && p.margin >= 0 && SplitStands(binlogs, d.ts)
    requires NoneWithin(dumps, d, p.margin)
    ensures var now := d.ts + p.window + p.margin;
      KeepsDump(dumps, binlogs, now, p, d) && b in PlannedBinlogs(PlanGroup(dumps, binlogs, now, p))
  {
    var now := d.ts + p.window + p.margin;
    AnchorIs(dumps, d, AnchorCutoff(now, p));
    PlanStands(dumps, binlogs, now, p, d.ts, b);
    AnchorIsKept(dumps, binlogs, now, p, d);
  }

  lemma AnchorIsKept(dumps: seq<Dump>, binlogs: seq<Binlog>, now: int, p: Policy, d: Dump)
    requires d in dumps && Anchor(dumps, AnchorCutoff(now, p)) == Some(d)
    ensures d.key !in DumpKeys(PlannedDumps(PlanGroup(dumps, binlogs, now, p)))
  {
    DumpsKept(dumps, binlogs, now, p, d);
  }

  lemma AnchorIs(dumps: seq<Dump>, d: Dump, cutoff: int)
    requires OnlyOne(dumps, d) && d.ts <= cutoff && forall e | e in dumps :: !(d.ts < e.ts <= cutoff)
    ensures Anchor(dumps, cutoff) == Some(d)
  {
    AnchorIsNewest(dumps, cutoff);
  }

  lemma GoesMeansSplit(dumps: seq<Dump>, binlogs: seq<Binlog>, now: int, p: Policy, d: Dump, b: Binlog)
    requires OnlyOne(dumps, d) && KeepsDump(dumps, binlogs, now, p, d)
    ensures b in PlannedBinlogs(PlanGroup(dumps, binlogs, now, p)) ==>
      exists cut :: b.ts < cut <= d.ts && SplitStands(binlogs, cut)
  {
    var found := Anchor(dumps, AnchorCutoff(now, p));
    if found.Some? && b in PlannedBinlogs(PlanGroup(dumps, binlogs, now, p)) {
      BinlogGoesIff(dumps, binlogs, now, p, b);
      DumpsKept(dumps, binlogs, now, p, d);
      PlanShape(dumps, binlogs, now, p);
      AnchorIsNewest(dumps, AnchorCutoff(now, p));
      var cut := BinlogCutoff(RetentionCutoff(now, p), found.value);
      assert cut <= d.ts && SplitStands(binlogs, cut);
    }
  }

  /** What the shipper leaves: numbered logs, a later object holding a higher number. */
  predicate Orderly(binlogs: seq<Binlog>) {
    && (forall b | b in binlogs :: Parses(b))
    && (forall a, b | a in binlogs && b in binlogs && a.ts < b.ts :: SequenceLess(a, b))
    && SortedBy(SortBinlogs(binlogs), SequenceLe)
  }

  lemma OrderlySplits(binlogs: seq<Binlog>, cut: int)
    requires Orderly(binlogs)
    ensures SplitStands(binlogs, cut) <==>
      (forall b | b in binlogs :: b.ts >= cut) || (exists k :: k in binlogs && k.ts >= cut)
  {
    var s := SortBinlogs(binlogs);
    SortedBinlogFacts(binlogs);
    FilterMembers(s, BinlogBefore(cut));
    FilterMembers(s, BinlogFrom(cut));
    var gone, kept := Filter(s, BinlogBefore(cut)), Filter(s, BinlogFrom(cut));
    assert gone != [] ==> gone[0] in gone;
    assert kept != [] ==> kept[0] in kept;
  }

  /** Over what the shipper leaves, that is: when the log was shipped no earlier than the dump landed, or
      is still the newest. */
  lemma ResumeLogOutlivesOrderly(dumps: seq<Dump>, binlogs: seq<Binlog>, window: int, d: Dump, b: Binlog)
    requires OnlyOne(dumps, d) && b in binlogs && Orderly(binlogs)
    ensures OutlivesDump(dumps, binlogs, window, d, b) <==> b.ts >= d.ts || forall k | k in binlogs :: k.ts <= b.ts
  {
    ResumeLogOutlivesIff(dumps, binlogs, window, d, b);
    forall cut ensures SplitStands(binlogs, cut) <==>
      (forall b | b in binlogs :: b.ts >= cut) || (exists k :: k in binlogs && k.ts >= cut)
    {
      OrderlySplits(binlogs, cut);
    }
    if k :| k in binlogs && k.ts > b.ts {
      assert b.ts < d.ts ==> b.ts < b.ts + 1 <= d.ts && SplitStands(binlogs, b.ts + 1);
    }
  }

  predicate Newest(binlogs: seq<Binlog>, b: Binlog) { b in binlogs && forall k | k in binlogs :: k.ts <= b.ts }

  /** The last end of retention before the dump that leaves a log behind it. */
  function LastCut(d: Dump, newest: Binlog): int { if newest.ts < d.ts then newest.ts else d.ts - 1 }

  predicate DumpWithin(dumps: seq<Dump>, after: int, upTo: int) { exists e | e in dumps :: after < e.ts <= upTo }

  /** While retention still holds the dump, some division behind the log can be reached: there is room for it
      before the dump, and a dump newer than the log that can be the anchor then. */
  predicate LostInRetention(dumps: seq<Dump>, p: Policy, d: Dump, b: Binlog, newest: Binlog) {
    var cut := LastCut(d, newest);
    b.ts < cut && DumpWithin(dumps, b.ts, cut + p.margin)
  }

  /** Once the dump is kept as the anchor only: a log is as new as it, and no newer dump takes its place at once. */
  predicate LostAsAnchor(dumps: seq<Dump>, p: Policy, d: Dump, b: Binlog, newest: Binlog) {
    b.ts < d.ts <= newest.ts && NoneWithin(dumps, d, p.margin)
  }

  /** Under one policy, over what the shipper leaves: some clock keeps the dump and loses its resume log exactly
      in these two cases. */
  lemma FixedPolicyIff(dumps: seq<Dump>, binlogs: seq<Binlog>, p: Policy, d: Dump, b: Binlog, newest: Binlog)
    requires OnlyOne(dumps, d) && b in binlogs && Orderly(binlogs) && Newest(binlogs, newest) && p.margin >= 0
    ensures OutlivesUnder(dumps, binlogs, p, d, b) <==>
      !LostInRetention(dumps, p, d, b, newest) && !LostAsAnchor(dumps, p, d, b, newest)
  {
    if LostInRetention(dumps, p, d, b, newest) {
      LostBefore(dumps, binlogs, p, d, b, newest);
    } else if LostAsAnchor(dumps, p, d, b, newest) {
      StandsBefore(binlogs, newest, d.ts);
      LostAtAnchor(dumps, binlogs, p, d, b);
    } else {
      forall now | KeepsDump(dumps, binlogs, now, p, d)
        ensures b !in PlannedBinlogs(PlanGroup(dumps, binlogs, now, p))
      {
        LostMeans(dumps, binlogs, now, p, d, b, newest);
      }
    }
  }

  lemma StandsBefore(binlogs: seq<Binlog>, later: Binlog, cut: int)
    requires Orderly(binlogs) && later in binlogs && later.ts >= cut
    ensures SplitStands(binlogs, cut)
  {
    OrderlySplits(binlogs, cut);
  }

  lemma LostBefore(dumps: seq<Dump>, binlogs: seq<Binlog>, p: Policy, d: Dump, b: Binlog, newest: Binlog)
    requires OnlyOne(dumps, d) && b in binlogs && Orderly(binlogs) && Newest(binlogs, newest)
    requires LostInRetention(dumps, p, d, b, newest)
    ensures !OutlivesUnder(dumps, binlogs, p, d, b)
  {
    var end := LastCut(d, newest);
    var now := end + p.window + p.margin;
    AnchorIsNewest(dumps, AnchorCutoff(now, p));
    var cut := BinlogCutoff(end, Anchor(dumps, AnchorCutoff(now, p)).value);
    StandsBefore(binlogs, newest, cut);
    PlanStands(dumps, binlogs, now, p, cut, b);
    KeptInRetention(dumps, binlogs, now, p, d);
    OneLoss(dumps, binlogs, now, p, d, b);
  }

  lemma LostMeans(dumps: seq<Dump>, binlogs: seq<Binlog>, now: int, p: Policy, d: Dump, b: Binlog, newest: Binlog)
    requires OnlyOne(dumps, d) && Orderly(binlogs) && Newest(binlogs, newest) && p.margin >= 0
    requires KeepsDump(dumps, binlogs, now, p, d)
    ensures b in PlannedBinlogs(PlanGroup(dumps, binlogs, now, p)) ==>
      LostInRetention(dumps, p, d, b, newest) || LostAsAnchor(dumps, p, d, b, newest)
  {
    var found := Anchor(dumps, AnchorCutoff(now, p));
    if found.Some? && b in PlannedBinlogs(PlanGroup(dumps, binlogs, now, p)) {
      BinlogGoesIff(dumps, binlogs, now, p, b);
      DumpsKept(dumps, binlogs, now, p, d);
      PlanShape(dumps, binlogs, now, p);
      AnchorIsNewest(dumps, AnchorCutoff(now, p));
      OrderlySplits(binlogs, BinlogCutoff(RetentionCutoff(now, p), found.value));
      CutReached(dumps, p, d, b, newest, RetentionCutoff(now, p), found.value);
    }
  }

  lemma CutReached(dumps: seq<Dump>, p: Policy, d: Dump, b: Binlog, newest: Binlog, end: int, anchor: Dump)
    requires p.margin >= 0 && b.ts < BinlogCutoff(end, anchor) <= newest.ts
    requires anchor in dumps && anchor.ts <= end + p.margin
    requires forall e | e in dumps && e.ts <= end + p.margin :: e.ts <= anchor.ts
    requires d.ts > end || d == anchor
    ensures LostInRetention(dumps, p, d, b, newest) || LostAsAnchor(dumps, p, d, b, newest)
  {
  }

  /* Repeated and interrupted pruning. */

  function LeftDumps(dumps: seq<Dump>, keys: set<string>): seq<Dump> { Filter(dumps, DumpKeyNotIn(keys)) }
  function LeftBinlogs(binlogs: seq<Binlog>, keys: set<string>): seq<Binlog> { Filter(binlogs, BinlogKeyNotIn(keys)) }

  function DumpsAfter(dumps: seq<Dump>, binlogs: seq<Binlog>, now: int, p: Policy): seq<Dump> {
    LeftDumps(dumps, DumpKeys(PlannedDumps(PlanGroup(dumps, binlogs, now, p))))
  }

  function BinlogsAfter(dumps: seq<Dump>, binlogs: seq<Binlog>, now: int, p: Policy): seq<Binlog> {
    LeftBinlogs(binlogs, BinlogKeys(PlannedBinlogs(PlanGroup(dumps, binlogs, now, p))))
  }

  /** Object keys determine log names, as they do in any listing the keys were parsed from. */
  predicate WellKeyed(binlogs: seq<Binlog>) {
    forall a, b | a in binlogs && b in binlogs && a.key == b.key :: a.logName == b.logName
  }

  lemma FilterSwap<T(!new)>(s: seq<T>, p: T -> bool, q: T -> bool)
    ensures Filter(Filter(s, p), q) == Filter(Filter(s, q), p)
  {
    var both := x => p(x) && q(x);
    FilterFilter(s, p, q, both);
    FilterFilter(s, q, p, both);
  }

  lemma {:induction false} LastStays<T(!new)>(s: seq<T>, q: T -> bool)
    requires s != [] && q(s[|s| - 1])
    ensures Filter(s, q) != [] && Filter(s, q)[|Filter(s, q)| - 1] == s[|s| - 1]
  {
    if |s| > 1 {
      assert s == [s[0]] + s[1..];
      LastStays(s[1..], q);
    } else {
      FilterAll(s, q);
    }
  }

  /** Removing dumps other than the anchor does not change the anchor. */
  lemma AnchorStays(dumps: seq<Dump>, gone: set<string>, cutoff: int)
    requires Anchor(dumps, cutoff).Some? && Anchor(dumps, cutoff).value.key !in gone
    ensures Anchor(LeftDumps(dumps, gone), cutoff) == Anchor(dumps, cutoff)
  {
    OrdersAreTotal();
    SortFilter(dumps, DumpKeyNotIn(gone), DumpLe);
    FilterSwap(SortDumps(dumps), DumpKeyNotIn(gone), DumpUpTo(cutoff));
    LastStays(Filter(SortDumps(dumps), DumpUpTo(cutoff)), DumpKeyNotIn(gone));
  }

  /** An earlier plan keeps a later plan's anchor. */
  lemma LaterAnchorKept(dumps: seq<Dump>, t1: int, t2: int, p: Policy)
    requires t1 <= t2 && p.margin >= 0 && Anchor(dumps, AnchorCutoff(t1, p)).Some?
    ensures Anchor(dumps, AnchorCutoff(t2, p)).Some?
    ensures var a1, a2 := Anchor(dumps, AnchorCutoff(t1, p)).value, Anchor(dumps, AnchorCutoff(t2, p)).value;
      a1.ts <= a2.ts && a2.key in KeepKeys(dumps, RetentionCutoff(t1, p), a1)
  {
    var c1, c2 := AnchorCutoff(t1, p), AnchorCutoff(t2, p);
    AnchorIsNewest(dumps, c1);
    AnchorIsNewest(dumps, c2);
    var a2 := Anchor(dumps, c2).value;
    if a2.ts <= RetentionCutoff(t1, p) {
      var sorted := SortDumps(dumps);
      LastStays(Filter(sorted, DumpUpTo(c2)), DumpUpTo(c1));
      FilterFilter(sorted, DumpUpTo(c2), DumpUpTo(c1), DumpUpTo(c1));
    }
  }

  /** The run at `t1` removed some of what it planned; what it planned to keep is untouched. */
  predicate PartOfPlan(dumps: seq<Dump>, binlogs: seq<Binlog>, t1: int, p: Policy, goneDumps: set<string>,
                       goneBinlogs: set<string>)
  {
    && goneDumps <= DumpKeys(PlannedDumps(PlanGroup(dumps, binlogs, t1, p)))
    && goneBinlogs <= BinlogKeys(PlannedBinlogs(PlanGroup(dumps, binlogs, t1, p)))
  }

  /** Keys the later plan keeps were kept by the earlier one. */
  lemma LaterKeepsLess(dumps: seq<Dump>, binlogs: seq<Binlog>, t1: int, t2: int, p: Policy, gone: set<string>)
    requires t1 <= t2 && p.margin >= 0 && Anchor(dumps, AnchorCutoff(t2, p)).Some?
    requires gone <= DumpKeys(PlannedDumps(PlanGroup(dumps, binlogs, t1, p)))
    ensures var a2 := Anchor(dumps, AnchorCutoff(t2, p)).value;
      && a2.key !in gone
      && (forall d | d in dumps && d.key in KeepKeys(dumps, RetentionCutoff(t2, p), a2) :: d.key !in gone)
      && KeepKeys(LeftDumps(dumps, gone), RetentionCutoff(t2, p), a2) == KeepKeys(dumps, RetentionCutoff(t2, p), a2)
  {
    var a2 := Anchor(dumps, AnchorCutoff(t2, p)).value;
    AnchorIsNewest(dumps, AnchorCutoff(t2, p));
    if Anchor(dumps, AnchorCutoff(t1, p)).Some? {
      LaterAnchorKept(dumps, t1, t2, p);
    }
    forall d | d in dumps && d.key in KeepKeys(dumps, RetentionCutoff(t2, p), a2)
      ensures d.key !in gone
    {
      DumpsKept(dumps, binlogs, t1, p, d);
    }
    FilterMembers(dumps, DumpKeyNotIn(gone));
  }

  /** Dumps: finishing later what an earlier run began ends where one later run would. */
  lemma DumpsConverge(dumps: seq<Dump>, t1: int, t2: int, p: Policy, binlogs: seq<Binlog>, gone: set<string>)
    requires t1 <= t2 && p.margin >= 0 && Anchor(dumps, AnchorCutoff(t2, p)).Some?
    requires gone <= DumpKeys(PlannedDumps(PlanGroup(dumps, binlogs, t1, p)))
    ensures var a2 := Anchor(dumps, AnchorCutoff(t2, p)).value;
      var left := LeftDumps(dumps, gone);
      && Anchor(left, AnchorCutoff(t2, p)) == Some(a2)
      && LeftDumps(left, DumpKeys(DeadDumps(left, RetentionCutoff(t2, p), a2)))
         == LeftDumps(dumps, DumpKeys(DeadDumps(dumps, RetentionCutoff(t2, p), a2)))
  {
    var a2 := Anchor(dumps, AnchorCutoff(t2, p)).value;
    var r2 := RetentionCutoff(t2, p);
    var left := LeftDumps(dumps, gone);
    LaterKeepsLess(dumps, binlogs, t1, t2, p, gone);
    AnchorStays(dumps, gone, AnchorCutoff(t2, p));
    FilterMembers(dumps, DumpKeyNotIn(gone));
    var keep := KeepKeys(dumps, r2, a2);
    forall d | d in left ensures (d.key !in DumpKeys(DeadDumps(left, r2, a2))) == (d.key in keep) {
      DeadIff(left, r2, a2, d);
    }
    forall d | d in dumps ensures (d.key !in DumpKeys(DeadDumps(dumps, r2, a2))) == (d.key in keep) {
      DeadIff(dumps, r2, a2, d);
    }
    FilterCongruent(left, DumpKeyNotIn(DumpKeys(DeadDumps(left, r2, a2))), DumpKeyIn(keep));
    FilterCongruent(dumps, DumpKeyNotIn(DumpKeys(DeadDumps(dumps, r2, a2))), DumpKeyIn(keep));
    FilterFilter(dumps, DumpKeyNotIn(gone), DumpKeyIn(keep), DumpKeyIn(keep));
  }

  /** With no objection, the surviving keys are exactly those of the later part. */
  lemma GoneKeysIff(binlogs: seq<Binlog>, cut: int, b: Binlog)
    requires WellKeyed(binlogs) && b in binlogs
    requires var s := SortBinlogs(binlogs);
      Objection(s, Filter(s, BinlogBefore(cut)), Filter(s, BinlogFrom(cut))).None?
    ensures b.key in BinlogKeys(Filter(SortBinlogs(binlogs), BinlogBefore(cut))) <==> b.ts < cut
  {
    var s := SortBinlogs(binlogs);
    SortedBinlogFacts(binlogs);
    FilterMembers(s, BinlogBefore(cut));
    FilterMembers(s, BinlogFrom(cut));
    KeyGoneIff(binlogs, Filter(s, BinlogBefore(cut)), Filter(s, BinlogFrom(cut)), cut, b);
  }

  lemma KeyGoneIff(binlogs: seq<Binlog>, gone: seq<Binlog>, kept: seq<Binlog>, cut: int, b: Binlog)
    requires WellKeyed(binlogs) && b in binlogs
    requires forall g :: g in gone <==> g in binlogs && g.ts < cut
    requires forall k :: k in kept <==> k in binlogs && k.ts >= cut
    requires forall g, k | g in gone && k in kept :: SequenceLess(g, k)
    ensures b.key in BinlogKeys(gone) <==> b.ts < cut
  {
    forall g | g in gone && b.ts >= cut ensures g.key != b.key {
      assert b in kept && SequenceLess(g, b);
    }
  }

  lemma {:induction false} SameKept(binlogs: seq<Binlog>, gone: set<string>, cut: int)
    requires forall b | b in binlogs && b.ts >= cut :: b.key !in gone
    ensures Filter(LeftBinlogs(binlogs, gone), BinlogFrom(cut)) == Filter(binlogs, BinlogFrom(cut))
  {
    FilterFilter(binlogs, BinlogKeyNotIn(gone), BinlogFrom(cut), BinlogFrom(cut));
  }

  /** Leaving out some of what goes raises no new objection. */
  lemma ObjectionShrinks(s: seq<Binlog>, gone: set<string>, cut: int)
    requires Objection(s, Filter(s, BinlogBefore(cut)), Filter(s, BinlogFrom(cut))).None?
    requires forall b | b in s && b.ts >= cut :: b.key !in gone
    ensures var left := LeftBinlogs(s, gone);
      Objection(left, Filter(left, BinlogBefore(cut)), Filter(left, BinlogFrom(cut))).None?
  {
    var left := LeftBinlogs(s, gone);
    SameKept(s, gone, cut);
    FilterMembers(s, BinlogKeyNotIn(gone));
    FilterMembers(s, BinlogBefore(cut));
    FilterMembers(left, BinlogBefore(cut));
    var before := Filter(left, BinlogBefore(cut));
    if before != [] {
      assert before[0] in before && before[0] in Filter(s, BinlogBefore(cut));
      FilterSorted(s, BinlogKeyNotIn(gone), SequenceLe);
    }
  }

  /** The heart of convergence for one incarnation. A run planned at `t1` and stopped
      anywhere (even reordered), then a run at `t2`, leaves what one run at `t2` leaves.
      With `t1 == t2` this is idempotence and resumption; with everything removed it is composition. */
  lemma PruneConverges(dumps: seq<Dump>, binlogs: seq<Binlog>, t1: int, t2: int, p: Policy,
                       goneDumps: set<string>, goneBinlogs: set<string>)
    requires t1 <= t2 && p.margin >= 0 && WellKeyed(binlogs)
    requires PlanGroup(dumps, binlogs, t2, p).Planned?
    requires PartOfPlan(dumps, binlogs, t1, p, goneDumps, goneBinlogs)
    ensures var d1, b1 := LeftDumps(dumps, goneDumps), LeftBinlogs(binlogs, goneBinlogs);
      && PlanGroup(d1, b1, t2, p).Planned?
      && DumpsAfter(d1, b1, t2, p) == DumpsAfter(dumps, binlogs, t2, p)
      && BinlogsAfter(d1, b1, t2, p) == BinlogsAfter(dumps, binlogs, t2, p)
  {
    var d1, b1 := LeftDumps(dumps, goneDumps), LeftBinlogs(binlogs, goneBinlogs);
    if Anchor(dumps, AnchorCutoff(t2, p)).None? {
      NothingAnchoredEarlier(dumps, binlogs, t1, t2, p);
      assert goneDumps == {} && goneBinlogs == {};
      FilterAll(dumps, DumpKeyNotIn({}));
      FilterAll(binlogs, BinlogKeyNotIn({}));
    } else {
      PlanShape(dumps, binlogs, t2, p);
      DumpsConverge(dumps, t1, t2, p, binlogs, goneDumps);
      PlanShape(d1, b1, t2, p);
      var cut2 := BinlogCutoff(RetentionCutoff(t2, p), Anchor(dumps, AnchorCutoff(t2, p)).value);
      LaterPartUntouched(dumps, binlogs, t1, t2, p, goneBinlogs);
      BinlogsConverge(binlogs, cut2, goneBinlogs);
    }
  }

  lemma NothingAnchoredEarlier(dumps: seq<Dump>, binlogs: seq<Binlog>, t1: int, t2: int, p: Policy)
    requires t1 <= t2 && Anchor(dumps, AnchorCutoff(t2, p)).None?
    ensures PlanGroup(dumps, binlogs, t1, p) == Planned([], [])
  {
    AnchorIsNewest(dumps, AnchorCutoff(t1, p));
    AnchorIsNewest(dumps, AnchorCutoff(t2, p));
  }

  /** Nothing the earlier run removed lies in the part the later run keeps. */
  lemma LaterPartUntouched(dumps: seq<Dump>, binlogs: seq<Binlog>, t1: int, t2: int, p: Policy, gone: set<string>)
    requires t1 <= t2 && p.margin >= 0 && WellKeyed(binlogs) && Anchor(dumps, AnchorCutoff(t2, p)).Some?
    requires gone <= BinlogKeys(PlannedBinlogs(PlanGroup(dumps, binlogs, t1, p)))
    ensures var cut2 := BinlogCutoff(RetentionCutoff(t2, p), Anchor(dumps, AnchorCutoff(t2, p)).value);
      forall b | b in binlogs && b.ts >= cut2 :: b.key !in gone
  {
    if PlannedBinlogs(PlanGroup(dumps, binlogs, t1, p)) != [] {
      LaterAnchorKept(dumps, t1, t2, p);
      PlanShape(dumps, binlogs, t1, p);
      var cut1 := BinlogCutoff(RetentionCutoff(t1, p), Anchor(dumps, AnchorCutoff(t1, p)).value);
      forall b | b in binlogs && b.ts >= cut1 ensures b.key !in gone {
        GoneKeysIff(binlogs, cut1, b);
      }
    }
  }

  lemma BinlogsConverge(binlogs: seq<Binlog>, cut: int, gone: set<string>)
    requires WellKeyed(binlogs) && forall b | b in binlogs && b.ts >= cut :: b.key !in gone
    requires var s := SortBinlogs(binlogs);
      Objection(s, Filter(s, BinlogBefore(cut)), Filter(s, BinlogFrom(cut))).None?
    ensures var left := LeftBinlogs(binlogs, gone);
      var s := SortBinlogs(left);
      && Objection(s, Filter(s, BinlogBefore(cut)), Filter(s, BinlogFrom(cut))).None?
      && LeftBinlogs(left, BinlogKeys(Filter(s, BinlogBefore(cut))))
         == LeftBinlogs(binlogs, BinlogKeys(Filter(SortBinlogs(binlogs), BinlogBefore(cut))))
  {
    var left := LeftBinlogs(binlogs, gone);
    OrdersAreTotal();
    SortFilter(binlogs, BinlogKeyNotIn(gone), BinlogLe);
    SortedBinlogFacts(binlogs);
    ObjectionShrinks(SortBinlogs(binlogs), gone, cut);
    FilterMembers(binlogs, BinlogKeyNotIn(gone));
    KeptPart(left, cut);
    KeptPart(binlogs, cut);
    SameKept(binlogs, gone, cut);
  }

  lemma KeptPart(binlogs: seq<Binlog>, cut: int)
    requires WellKeyed(binlogs)
    requires var s := SortBinlogs(binlogs);
      Objection(s, Filter(s, BinlogBefore(cut)), Filter(s, BinlogFrom(cut))).None?
    ensures LeftBinlogs(binlogs, BinlogKeys(Filter(SortBinlogs(binlogs), BinlogBefore(cut))))
      == Filter(binlogs, BinlogFrom(cut))
  {
    var keys := BinlogKeys(Filter(SortBinlogs(binlogs), BinlogBefore(cut)));
    forall b | b in binlogs ensures (b.key !in keys) == (b.ts >= cut) { GoneKeysIff(binlogs, cut, b); }
    FilterCongruent(binlogs, BinlogKeyNotIn(keys), BinlogFrom(cut));
  }

  /** Re-planning the same listing at the same time deletes nothing more. */
  lemma ReplanDeletesNothing(dumps: seq<Dump>, binlogs: seq<Binlog>, now: int, p: Policy)
    requires p.margin >= 0 && WellKeyed(binlogs)
    ensures var d1, b1 := DumpsAfter(dumps, binlogs, now, p), BinlogsAfter(dumps, binlogs, now, p);
      DumpsAfter(d1, b1, now, p) == d1 && BinlogsAfter(d1, b1, now, p) == b1
  {
    var plan := PlanGroup(dumps, binlogs, now, p);
    if plan.Planned? {
      PruneConverges(dumps, binlogs, now, now, p, DumpKeys(plan.dumps), BinlogKeys(plan.binlogs));
    } else {
      RefusedLeavesAll(dumps, binlogs, now, p);
    }
  }

  /** A refused incarnation loses nothing. */
  lemma RefusedLeavesAll(dumps: seq<Dump>, binlogs: seq<Binlog>, now: int, p: Policy)
    requires PlanGroup(dumps, binlogs, now, p).Refused?
    ensures DumpsAfter(dumps, binlogs, now, p) == dumps && BinlogsAfter(dumps, binlogs, now, p) == binlogs
  {
    assert DumpKeys([]) == {} && BinlogKeys([]) == {};
    FilterAll(dumps, DumpKeyNotIn({}));
    FilterAll(binlogs, BinlogKeyNotIn({}));
  }

  /** Pruning at one time and again at a later one leaves what the later prune alone would. */
  ghost predicate Composes(p: Policy) {
    forall dumps, binlogs, t1, t2 | t1 <= t2 && WellKeyed(binlogs) && PlanGroup(dumps, binlogs, t2, p).Planned? ::
      var d1, b1 := DumpsAfter(dumps, binlogs, t1, p), BinlogsAfter(dumps, binlogs, t1, p);
      && DumpsAfter(d1, b1, t2, p) == DumpsAfter(dumps, binlogs, t2, p)
      && BinlogsAfter(d1, b1, t2, p) == BinlogsAfter(dumps, binlogs, t2, p)
  }

  /** It does for every listing exactly when the margin is not negative: without slack an earlier run would
      drop a dump that a later one needs as its anchor. */
  lemma ComposesIff(p: Policy)
    ensures Composes(p) <==> p.margin >= 0
  {
    if p.margin >= 0 {
      forall dumps, binlogs, t1, t2 | t1 <= t2 && WellKeyed(binlogs) && PlanGroup(dumps, binlogs, t2, p).Planned?
        ensures var d1, b1 := DumpsAfter(dumps, binlogs, t1, p), BinlogsAfter(dumps, binlogs, t1, p);
          && DumpsAfter(d1, b1, t2, p) == DumpsAfter(dumps, binlogs, t2, p)
          && BinlogsAfter(d1, b1, t2, p) == BinlogsAfter(dumps, binlogs, t2, p)
      {
        var plan := PlanGroup(dumps, binlogs, t1, p);
        PruneConverges(dumps, binlogs, t1, t2, p, DumpKeys(PlannedDumps(plan)), BinlogKeys(PlannedBinlogs(plan)));
      }
    } else {
      RoutesDiffer(p, Dump("first", "", 0), Dump("next", "", 1));
    }
  }

  lemma RoutesDiffer(p: Policy, first: Dump, next: Dump)
    requires p.margin < 0 && first.key != next.key && first.ts == 0 && next.ts == 1
    ensures !Composes(p)
  {
    OnlyFirst(first, next, p.window, p);
    OnlyNext(first, next, p.window + 1, p);
    OneDump(first, p.window + 1, p);
    RoutesApart([first, next], p.window, p.window + 1, p, [first], [next]);
  }

  lemma OnlyFirst(first: Dump, next: Dump, now: int, p: Policy)
    requires first.key != next.key && first.ts <= AnchorCutoff(now, p) < next.ts <= RetentionCutoff(now, p)
    ensures DumpsAfter([first, next], [], now, p) == [first]
  {
    TwoDumps(first, next, now, p);
  }

  lemma OnlyNext(first: Dump, next: Dump, now: int, p: Policy)
    requires first.key != next.key && first.ts < next.ts <= RetentionCutoff(now, p) && next.ts <= AnchorCutoff(now, p)
    ensures PlanGroup([first, next], [], now, p).Planned? && DumpsAfter([first, next], [], now, p) == [next]
  {
    TwoDumps(first, next, now, p);
  }

  lemma RoutesApart(dumps: seq<Dump>, t1: int, t2: int, p: Policy, left: seq<Dump>, direct: seq<Dump>)
    requires t1 <= t2 && PlanGroup(dumps, [], t2, p).Planned? && DumpsAfter(dumps, [], t1, p) == left
    requires DumpsAfter(left, [], t2, p) == left && DumpsAfter(dumps, [], t2, p) == direct && left != direct
    ensures !Composes(p)
  {
    assert BinlogsAfter(dumps, [], t1, p) == [] && WellKeyed([]);
  }

  lemma NoBinlogs(dumps: seq<Dump>, now: int, p: Policy)
    ensures PlanGroup(dumps, [], now, p).Planned?
  {
    if Anchor(dumps, AnchorCutoff(now, p)).Some? {
      PlanShape(dumps, [], now, p);
    }
  }

  lemma OneDump(d: Dump, now: int, p: Policy)
    requires d.ts <= AnchorCutoff(now, p)
    ensures DumpsAfter([d], [], now, p) == [d]
  {
    AnchorIsNewest([d], AnchorCutoff(now, p));
    DumpsKept([d], [], now, p, d);
    FilterAll([d], DumpKeyNotIn(DumpKeys(PlannedDumps(PlanGroup([d], [], now, p)))));
  }

  lemma TwoDumps(first: Dump, next: Dump, now: int, p: Policy)
    requires first.key != next.key && first.ts < next.ts <= RetentionCutoff(now, p) && first.ts <= AnchorCutoff(now, p)
    ensures PlanGroup([first, next], [], now, p).Planned?
    ensures DumpsAfter([first, next], [], now, p) == if next.ts <= AnchorCutoff(now, p) then [next] else [first]
  {
    var dumps := [first, next];
    assert first == dumps[0] && next == dumps[1] && dumps == [first] + [next];
    NoBinlogs(dumps, now, p);
    AnchorIsNewest(dumps, AnchorCutoff(now, p));
    DumpsKept(dumps, [], now, p, first);
    DumpsKept(dumps, [], now, p, next);
    var keep := DumpKeyNotIn(DumpKeys(PlannedDumps(PlanGroup(dumps, [], now, p))));
    FilterCons(first, [next], keep);
    if keep(next) {
      FilterAll([next], keep);
    } else {
      FilterNone([next], keep);
    }
  }

  predicate OlderThanADump(g: Binlog, dumps: seq<Dump>) { exists d | d in dumps :: g.ts < d.ts }

  predicate OneObjectPerNumber(binlogs: seq<Binlog>) {
    forall a, b | a in binlogs && b in binlogs && ShareSequence(a, b) :: a == b
  }

  lemma StrictlyOrdered(gone: seq<Binlog>, binlogs: seq<Binlog>, i: nat, j: nat)
    requires OneObjectPerNumber(binlogs) && Distinct(gone) && SortedBy(gone, SequenceLe)
    requires i < j < |gone| && gone[i] in binlogs && gone[j] in binlogs
    ensures SequenceLess(gone[i], gone[j])
  {
    var a, b := gone[i], gone[j];
    assert SequenceLe(a, b) && a != b;
    assert ShareSequence(a, b) <==> TrailingSequence(a.logName) == TrailingSequence(b.logName);
  }

  /** What is deleted goes lowest number first, and every one of them is older than some dump that was listed. */
  lemma GoneOrdered(dumps: seq<Dump>, binlogs: seq<Binlog>, now: int, p: Policy)
    requires Distinct(binlogs) && OneObjectPerNumber(binlogs)
    ensures var gone := PlannedBinlogs(PlanGroup(dumps, binlogs, now, p));
      SortedBy(gone, SequenceLess) && forall g | g in gone :: OlderThanADump(g, dumps)
  {
    var gone := PlannedBinlogs(PlanGroup(dumps, binlogs, now, p));
    BinlogsCleanPrefix(dumps, binlogs, now, p);
    if gone != [] {
      PlanShape(dumps, binlogs, now, p);
      AnchorIsNewest(dumps, AnchorCutoff(now, p));
      var anchor := Anchor(dumps, AnchorCutoff(now, p)).value;
      SplitKeepsDistinct(binlogs, BinlogCutoff(RetentionCutoff(now, p), anchor));
      forall g | g in gone ensures OlderThanADump(g, dumps) {
        assert anchor in dumps && g.ts < anchor.ts;
      }
    }
    forall i, j | 0 <= i < j < |gone| ensures SequenceLess(gone[i], gone[j]) {
      assert gone[i] in gone && gone[j] in gone;
      StrictlyOrdered(gone, binlogs, i, j);
    }
  }

  lemma SplitKeepsDistinct(binlogs: seq<Binlog>, cut: int)
    requires Distinct(binlogs)
    ensures Distinct(Filter(SortBinlogs(binlogs), BinlogBefore(cut)))
    ensures forall g | g in Filter(SortBinlogs(binlogs), BinlogBefore(cut)) :: g.ts < cut
  {
    SortKeepsDistinct(binlogs, BinlogLe);
    FilterKeepsDistinct(SortBinlogs(binlogs), BinlogBefore(cut));
    FilterMembers(SortBinlogs(binlogs), BinlogBefore(cut));
  }
}
