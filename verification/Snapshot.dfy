/** The bounded snapshot among concurrent writers: db/provision/bounded_snapshot.py. */
module Snapshot {

  /** One row change; `body` is whatever the change does to its table. */
  datatype Change = Change(table: string, body: string)
  type Transaction = seq<Change>

  /** A binary-log position: a file and how much of it lies before. */
  datatype Position = Position(file: nat, offset: nat)

  /** A table's contents are the changes it has taken, in order: two tables with the same
      changes are the same table, whatever the changes mean. */
  type Contents = map<string, seq<string>>

  function Get(rows: Contents, table: string): seq<string> { if table in rows then rows[table] else [] }

  function Applied(rows: Contents, tx: Transaction): Contents {
    if tx == [] then rows
    else
      var before, c := Applied(rows, tx[..|tx| - 1]), tx[|tx| - 1];
      before[c.table := Get(before, c.table) + [c.body]]
  }

  /** The part of a transaction, or of a stretch of log, that one table takes. */
  function Bodies(tx: Transaction, table: string): seq<string> {
    if tx == [] then []
    else Bodies(tx[..|tx| - 1], table) + if tx[|tx| - 1].table == table then [tx[|tx| - 1].body] else []
  }

  function Share(log: seq<Transaction>, table: string): seq<string> {
    if log == [] then [] else Share(log[..|log| - 1], table) + Bodies(log[|log| - 1], table)
  }

  function Flat(files: seq<seq<Transaction>>): seq<Transaction> {
    if files == [] then [] else Flat(files[..|files| - 1]) + files[|files| - 1]
  }

  /** The coordinator's progress. Between `Granted` and `Done` the tables are read-locked. */
  datatype Phase =
    | Idle
    | Named(tables: seq<string>)
    | Locking(tables: seq<string>, held: set<string>)
    | Granted(tables: seq<string>)
    | Relisted(tables: seq<string>)
    | Positioned(tables: seq<string>, at: Position)
    | Spawned(tables: seq<string>, at: Position)
    | Opened(tables: seq<string>, at: Position, snapshot: Contents)
    | Done(tables: seq<string>, at: Position, snapshot: Contents)

  /** The server and the coordinator. `open` are transactions still running; `logged` are in the
      binary log but not yet committed in the engine, oldest first; `alive` says the coordinator's
      session, and with it every lock it holds, still exists. `start` is what the tables held
      before the first log file. */
  datatype State = State(
    start: Contents, rows: Contents, open: map<int, Transaction>, logged: seq<Transaction>,
    files: seq<seq<Transaction>>, catalog: seq<string>, alive: bool, phase: Phase)

  datatype Step =
    // writers and the server
    | Begin(w: int) | Write(w: int, change: Change) | Rollback(w: int) | Log(w: int) | Commit
    | Rotate | Alter(catalog: seq<string>) | SessionDrops
    // the coordinator and its dump
    | ListTables | RequestLock | Lock(table: string) | LockGranted | Relist | ReadPosition
    | SpawnDump | OpenSnapshot | Unlock | GiveUp

  predicate Touches(tx: Transaction, table: string) { exists c | c in tx :: c.table == table }

  /** No transaction that wrote the table is still in flight. */
  predicate Unwritten(s: State, table: string) {
    && (forall w | w in s.open :: !Touches(s.open[w], table))
    && (forall tx | tx in s.logged :: !Touches(tx, table))
  }

  predicate Locked(s: State, table: string) {
    && s.alive
    && match s.phase
       case Idle => false
       case Named(_) => false
       case Locking(_, held) => table in held
       case Granted(tables) => table in tables
       case Relisted(tables) => table in tables
       case Positioned(tables, _) => table in tables
       case Spawned(tables, _) => table in tables
       case Opened(tables, _, _) => table in tables
       case Done(_, _, _) => false
  }

  predicate Enabled(s: State, step: Step) {
    match step
    case Begin(w) => w !in s.open
    case Write(w, change) => w in s.open && !Locked(s, change.table)
    case Rollback(w) => w in s.open
    case Log(w) => w in s.open
    case Commit => s.logged != []
    case Rotate => true
    case Alter(_) => true
    case SessionDrops => s.alive
    case ListTables => s.phase.Idle? && s.catalog != []
    case RequestLock => s.phase.Named? && s.alive
    case Lock(table) => s.phase.Locking? && s.alive && table in s.phase.tables && Unwritten(s, table)
    case LockGranted => s.phase.Locking? && s.alive && forall t | t in s.phase.tables :: t in s.phase.held
    case Relist => s.phase.Granted? && s.alive && s.catalog == s.phase.tables
    case ReadPosition => s.phase.Relisted? && s.alive
    case SpawnDump => s.phase.Positioned?
    case OpenSnapshot => s.phase.Spawned?
    // asked only after the dump reported its snapshot open, answered only by a living session
    case Unlock => s.phase.Opened? && s.alive
    case GiveUp => !s.phase.Idle? && !s.phase.Done?
  }

  function End(files: seq<seq<Transaction>>): Position
    requires files != []
  {
    Position(|files| - 1, |files[|files| - 1]|)
  }

  function Do(s: State, step: Step): State
    requires Enabled(s, step) && s.files != []
  {
    match step
    case Begin(w) => s.(open := s.open[w := []])
    case Write(w, change) => s.(open := s.open[w := s.open[w] + [change]])
    case Rollback(w) => s.(open := s.open - {w})
    case Log(w) =>
      var last := |s.files| - 1;
      s.(open := s.open - {w}, logged := s.logged + [s.open[w]], files := s.files[last := s.files[last] + [s.open[w]]])
    case Commit => s.(rows := Applied(s.rows, s.logged[0]), logged := s.logged[1..])
    case Rotate => s.(files := s.files + [[]])
    case Alter(catalog) => s.(catalog := catalog)
    case SessionDrops => s.(alive := false)
    case ListTables => s.(alive := true, phase := Named(s.catalog))
    case RequestLock => s.(phase := Locking(s.phase.tables, {}))
    case Lock(table) => s.(phase := s.phase.(held := s.phase.held + {table}))
    case LockGranted => s.(phase := Granted(s.phase.tables))
    case Relist => s.(phase := Relisted(s.phase.tables))
    case ReadPosition => s.(phase := Positioned(s.phase.tables, End(s.files)))
    case SpawnDump => s.(phase := Spawned(s.phase.tables, s.phase.at))
    case OpenSnapshot => s.(phase := Opened(s.phase.tables, s.phase.at, s.rows))
    case Unlock => s.(alive := false, phase := Done(s.phase.tables, s.phase.at, s.phase.snapshot))
    case GiveUp => s.(alive := false, phase := Idle)
  }

  /** The log up to a position, and from it on. */
  function Before(files: seq<seq<Transaction>>, at: Position): seq<Transaction>
    requires at.file < |files| && at.offset <= |files[at.file]|
  {
    Flat(files[..at.file]) + files[at.file][..at.offset]
  }

  function From(files: seq<seq<Transaction>>, at: Position): seq<Transaction>
    requires at.file < |files| && at.offset <= |files[at.file]|
  {
    files[at.file][at.offset..] + Flat(files[at.file + 1..])
  }

  predicate InLog(files: seq<seq<Transaction>>, at: Position) { at.file < |files| && at.offset <= |files[at.file]| }

  // ---- folding lemmas -----------------------------------------------------

  lemma {:induction false} AppliedShare(rows: Contents, tx: Transaction, table: string)
    ensures Get(Applied(rows, tx), table) == Get(rows, table) + Bodies(tx, table)
  {
    if tx != [] {
      AppliedShare(rows, tx[..|tx| - 1], table);
    }
  }

  lemma {:induction false} ShareConcat(a: seq<Transaction>, b: seq<Transaction>, table: string)
    ensures Share(a + b, table) == Share(a, table) + Share(b, table)
  {
    if b == [] {
      assert a + b == a;
    } else {
      var front, last := b[..|b| - 1], b[|b| - 1];
      assert (a + b)[..|a + b| - 1] == a + front;
      ShareConcat(a, front, table);
      assert (Share(a, table) + Share(front, table)) + Bodies(last, table)
        == Share(a, table) + (Share(front, table) + Bodies(last, table));
    }
  }

  lemma ShareOne(tx: Transaction, table: string)
    ensures Share([tx], table) == Bodies(tx, table)
  {
    assert [tx][..0] == [];
  }

  lemma {:induction false} UntouchedBodies(tx: Transaction, table: string)
    requires !Touches(tx, table)
    ensures Bodies(tx, table) == []
  {
    if tx != [] {
      assert tx == tx[..|tx| - 1] + [tx[|tx| - 1]];
      UntouchedBodies(tx[..|tx| - 1], table);
    }
  }

  lemma {:induction false} UntouchedShare(log: seq<Transaction>, table: string)
    requires forall tx | tx in log :: !Touches(tx, table)
    ensures Share(log, table) == []
  {
    if log != [] {
      assert log == log[..|log| - 1] + [log[|log| - 1]];
      UntouchedShare(log[..|log| - 1], table);
      UntouchedBodies(log[|log| - 1], table);
    }
  }

  lemma {:induction false} FlatConcat(a: seq<seq<Transaction>>, b: seq<seq<Transaction>>)
    ensures Flat(a + b) == Flat(a) + Flat(b)
  {
    if b == [] {
      assert a + b == a;
    } else {
      assert (a + b)[..|a + b| - 1] == a + b[..|b| - 1];
      FlatConcat(a, b[..|b| - 1]);
    }
  }

  lemma FlatOne(file: seq<Transaction>)
    ensures Flat([file]) == file
  {
    assert [file][..0] == [];
  }

  /** A position cuts the log in two. */
  lemma BeforeAndFrom(files: seq<seq<Transaction>>, at: Position)
    requires InLog(files, at)
    ensures Before(files, at) + From(files, at) == Flat(files)
  {
    var head, file, rest := files[..at.file], files[at.file], files[at.file + 1..];
    assert files == head + ([file] + rest);
    FlatConcat(head, [file] + rest);
    FlatConcat([file], rest);
    FlatOne(file);
    Regroup(Flat(head), file[..at.offset], file[at.offset..], Flat(rest));
    assert file == file[..at.offset] + file[at.offset..];
  }

  lemma Regroup<T>(a: seq<T>, b: seq<T>, c: seq<T>, d: seq<T>)
    ensures (a + b) + (c + d) == a + ((b + c) + d)
  {
  }

  lemma EndCutsAll(files: seq<seq<Transaction>>)
    requires files != []
    ensures InLog(files, End(files)) && From(files, End(files)) == [] && Before(files, End(files)) == Flat(files)
  {
    BeforeAndFrom(files, End(files));
    assert files[|files|..] == [];
  }

  /** Writing at the end, or opening a new file, leaves what lies before a position alone. */
  lemma LogGrows(files: seq<seq<Transaction>>, at: Position, tx: Transaction)
    requires InLog(files, at)
    ensures var more := files[|files| - 1 := files[|files| - 1] + [tx]];
      && InLog(more, at) && Before(more, at) == Before(files, at) && Flat(more) == Flat(files) + [tx]
  {
    var last := |files| - 1;
    var more := files[last := files[last] + [tx]];
    assert more[..at.file] == files[..at.file];
    assert more[at.file][..at.offset] == files[at.file][..at.offset];
    assert more[..last] == files[..last];
    assert Flat(files[..last]) + (files[last] + [tx]) == Flat(files[..last]) + files[last] + [tx];
  }

  lemma LogRotates(files: seq<seq<Transaction>>, at: Position)
    requires InLog(files, at)
    ensures var more := files + [[]];
      InLog(more, at) && Before(more, at) == Before(files, at) && Flat(more) == Flat(files)
  {
    var more := files + [[]];
    assert more[..at.file] == files[..at.file];
    assert more[..|more| - 1] == files;
  }

  // ---- what every step keeps ----------------------------------------------

  /** A table holds what it started with and its share of the log, up to what is still to be committed. */
  ghost predicate Conserved(s: State) {
    forall t :: Get(s.rows, t) + Share(s.logged, t) == Get(s.start, t) + Share(Flat(s.files), t)
  }

  ghost predicate LocksHold(s: State) { forall t | Locked(s, t) :: Unwritten(s, t) }

  /** The contents are, for these tables, exactly what the log holds before the position. */
  predicate AsOf(contents: Contents, tables: seq<string>, start: Contents, before: seq<Transaction>) {
    forall t | t in tables :: Get(contents, t) == Get(start, t) + Share(before, t)
  }

  predicate PositionHolds(s: State) {
    match s.phase
    case Positioned(tables, at) =>
      InLog(s.files, at) && (s.alive ==> AsOf(s.rows, tables, s.start, Before(s.files, at)))
    case Spawned(tables, at) =>
      InLog(s.files, at) && (s.alive ==> AsOf(s.rows, tables, s.start, Before(s.files, at)))
    case Opened(tables, at, snapshot) =>
      InLog(s.files, at) && (s.alive ==> AsOf(snapshot, tables, s.start, Before(s.files, at)))
    case Done(tables, at, snapshot) =>
      InLog(s.files, at) && AsOf(snapshot, tables, s.start, Before(s.files, at))
    case _ => true
  }

  ghost predicate Inv(s: State) { s.files != [] && Conserved(s) && LocksHold(s) && PositionHolds(s) }

  predicate Init(s: State) {
    s.files == [[]] && s.rows == s.start && s.open == map[] && s.logged == [] && s.phase.Idle? && !s.alive
  }

  lemma InitHolds(s: State)
    requires Init(s)
    ensures Inv(s)
  {
    FlatOne([]);
  }

  lemma Extend<T>(a: seq<T>, b: seq<T>, c: seq<T>, d: seq<T>, e: seq<T>)
    requires a + b == c + d
    ensures a + (b + e) == c + (d + e)
  {
    assert a + (b + e) == (a + b) + e && c + (d + e) == (c + d) + e;
  }

  lemma BothGrow(rows: seq<string>, logged: seq<Transaction>, start: seq<string>, log: seq<Transaction>,
                 tx: Transaction, b: string)
    requires rows + Share(logged, b) == start + Share(log, b)
    ensures rows + Share(logged + [tx], b) == start + Share(log + [tx], b)
  {
    ShareConcat(logged, [tx], b);
    ShareConcat(log, [tx], b);
    Extend(rows, Share(logged, b), start, Share(log, b), Share([tx], b));
  }

  lemma LogConserves(s: State, w: int)
    requires Inv(s) && Enabled(s, Log(w))
    ensures Conserved(Do(s, Log(w)))
  {
    var t, tx := Do(s, Log(w)), s.open[w];
    LogGrows(s.files, End(s.files), tx);
    forall b ensures Get(t.rows, b) + Share(t.logged, b) == Get(t.start, b) + Share(Flat(t.files), b) {
      BothGrow(Get(s.rows, b), s.logged, Get(s.start, b), Flat(s.files), tx, b);
    }
  }

  lemma LogHoldsLocks(s: State, w: int)
    requires Inv(s) && Enabled(s, Log(w))
    ensures LocksHold(Do(s, Log(w)))
  {
    var t := Do(s, Log(w));
    forall b | Locked(t, b) ensures Unwritten(t, b) {
      assert Locked(s, b) && Unwritten(s, b);
    }
  }

  lemma LogKeeps(s: State, w: int)
    requires Inv(s) && Enabled(s, Log(w))
    ensures Inv(Do(s, Log(w)))
  {
    LogConserves(s, w);
    LogHoldsLocks(s, w);
    if InLogPhase(s.phase) {
      LogGrows(s.files, s.phase.at, s.open[w]);
    }
    assert PositionHolds(Do(s, Log(w)));
  }

  predicate InLogPhase(p: Phase) { p.Positioned? || p.Spawned? || p.Opened? || p.Done? }

  lemma RotateKeeps(s: State)
    requires Inv(s)
    ensures Inv(Do(s, Rotate))
  {
    var t := Do(s, Rotate);
    LogRotates(s.files, End(s.files));
    if InLogPhase(s.phase) {
      LogRotates(s.files, s.phase.at);
    }
    assert forall b :: Locked(t, b) ==> Locked(s, b);
  }

  lemma CommitConserves(s: State)
    requires Inv(s) && Enabled(s, Commit)
    ensures Conserved(Do(s, Commit))
  {
    var t, tx := Do(s, Commit), s.logged[0];
    assert s.logged == [tx] + t.logged;
    forall b ensures Get(t.rows, b) + Share(t.logged, b) == Get(s.rows, b) + Share(s.logged, b) {
      AppliedShare(s.rows, tx, b);
      ShareConcat([tx], t.logged, b);
      ShareOne(tx, b);
      assert Get(s.rows, b) + (Bodies(tx, b) + Share(t.logged, b))
          == (Get(s.rows, b) + Bodies(tx, b)) + Share(t.logged, b);
    }
  }

  /** Committing touches no locked table. */
  lemma CommitKeeps(s: State)
    requires Inv(s) && Enabled(s, Commit)
    ensures Inv(Do(s, Commit))
  {
    var t, tx := Do(s, Commit), s.logged[0];
    CommitConserves(s);
    assert s.logged == [tx] + t.logged && tx in s.logged;
    forall b | Locked(s, b) ensures Unwritten(t, b) && Get(t.rows, b) == Get(s.rows, b) {
      AppliedShare(s.rows, tx, b);
      UntouchedBodies(tx, b);
    }
    assert forall b :: Locked(t, b) ==> Locked(s, b);
  }

  lemma WriterKeeps(s: State, step: Step)
    requires Inv(s) && Enabled(s, step)
    requires step.Begin? || step.Write? || step.Rollback? || step.Alter? || step.SessionDrops? || step.GiveUp?
    ensures Inv(Do(s, step))
  {
    var t := Do(s, step);
    forall b | Locked(t, b) ensures Unwritten(t, b) {
      assert Locked(s, b) && Unwritten(s, b);
    }
  }

  /** Under the locks, nothing of the locked tables is still on its way: the end of the log is what the rows show. */
  lemma ReadPositionKeeps(s: State)
    requires Inv(s) && Enabled(s, ReadPosition)
    ensures Inv(Do(s, ReadPosition))
  {
    var t := Do(s, ReadPosition);
    EndCutsAll(s.files);
    forall b | b in s.phase.tables ensures Get(t.rows, b) == Get(t.start, b) + Share(Before(t.files, t.phase.at), b) {
      assert Locked(s, b);
      UntouchedShare(s.logged, b);
      assert Get(s.rows, b) + [] == Get(s.rows, b);
    }
    assert forall b :: Locked(t, b) ==> Locked(s, b);
  }

  lemma CoordinatorKeeps(s: State, step: Step)
    requires Inv(s) && Enabled(s, step)
    requires step.ListTables? || step.RequestLock? || step.Lock? || step.LockGranted? || step.Relist?
      || step.SpawnDump? || step.OpenSnapshot? || step.Unlock?
    ensures Inv(Do(s, step))
  {
    var t := Do(s, step);
    forall b | Locked(t, b) ensures Unwritten(t, b) {
      if !Locked(s, b) {
        assert step.Lock? && b == step.table;
      }
    }
  }

  lemma StepKeeps(s: State, step: Step)
    requires Inv(s) && Enabled(s, step)
    ensures Inv(Do(s, step))
  {
    match step
    case Log(w) => LogKeeps(s, w);
    case Commit => CommitKeeps(s);
    case Rotate => RotateKeeps(s);
    case ReadPosition => ReadPositionKeeps(s);
    case Begin(_) => WriterKeeps(s, step);
    case Write(_, _) => WriterKeeps(s, step);
    case Rollback(_) => WriterKeeps(s, step);
    case Alter(_) => WriterKeeps(s, step);
    case SessionDrops => WriterKeeps(s, step);
    case GiveUp => WriterKeeps(s, step);
    case _ => CoordinatorKeeps(s, step);
  }

  predicate IsRun(states: seq<State>, steps: seq<Step>) {
    && |states| == |steps| + 1 && Init(states[0])
    && (forall i | 0 <= i < |states| :: states[i].files != [])
    && forall i | 0 <= i < |steps| :: Enabled(states[i], steps[i]) && states[i + 1] == Do(states[i], steps[i])
  }

  lemma {:induction false} RunKeeps(states: seq<State>, steps: seq<Step>, i: nat)
    requires IsRun(states, steps) && i < |states|
    ensures Inv(states[i])
  {
    if i == 0 {
      InitHolds(states[0]);
    } else {
      RunKeeps(states, steps, i - 1);
      StepKeeps(states[i - 1], steps[i - 1]);
    }
  }

  /** Loading the snapshot and replaying the log from the reported position. */
  function Restored(s: State, table: string): seq<string>
    requires s.phase.Done? && InLog(s.files, s.phase.at)
  {
    Get(s.phase.snapshot, table) + Share(From(s.files, s.phase.at), table)
  }

  /** After a successful attempt, at every later moment of every interleaving: for each locked
      table, the snapshot and a replay from the reported coordinates give exactly the source's
      rows and the transactions it has logged but not finished committing. */
  lemma SnapshotPlusReplayIsSource(states: seq<State>, steps: seq<Step>, i: nat, table: string)
    requires IsRun(states, steps) && i < |states| && states[i].phase.Done? && table in states[i].phase.tables
    ensures var s := states[i];
      && InLog(s.files, s.phase.at)
      && Restored(s, table) == Get(s.rows, table) + Share(s.logged, table)
      && (Unwritten(s, table) ==> Restored(s, table) == Get(s.rows, table))
  {
    var s := states[i];
    RunKeeps(states, steps, i);
    var before, from := Before(s.files, s.phase.at), From(s.files, s.phase.at);
    BeforeAndFrom(s.files, s.phase.at);
    ShareSplits(Get(s.start, table), before, from, table);
    if Unwritten(s, table) {
      UntouchedShare(s.logged, table);
      assert Get(s.rows, table) + [] == Get(s.rows, table);
    }
  }

  lemma ShareSplits(start: seq<string>, before: seq<Transaction>, from: seq<Transaction>, table: string)
    ensures start + Share(before + from, table) == (start + Share(before, table)) + Share(from, table)
  {
    ShareConcat(before, from, table);
    assert start + (Share(before, table) + Share(from, table)) == (start + Share(before, table)) + Share(from, table);
  }

  /** The locks gone, a write slips in, and only then does the dump open its snapshot. */
  function WriteThenOpen(w: int, change: Change): seq<Step> {
    [SessionDrops]
    + ([Begin(w)] + ([Write(w, change)] + ([Log(w)] + ([Commit] + ([SpawnDump] + ([OpenSnapshot] + []))))))
  }

  predicate CanDoAll(s: State, steps: seq<Step>)
    decreases |steps|
  {
    steps != [] ==> s.files != [] && Enabled(s, steps[0]) && CanDoAll(Do(s, steps[0]), steps[1..])
  }

  function DoAll(s: State, steps: seq<Step>): State
    requires CanDoAll(s, steps)
    decreases |steps|
  {
    if steps == [] then s else DoAll(Do(s, steps[0]), steps[1..])
  }

  lemma DoCons(s: State, step: Step, rest: seq<Step>)
    requires s.files != [] && Enabled(s, step) && CanDoAll(Do(s, step), rest)
    ensures CanDoAll(s, [step] + rest) && DoAll(s, [step] + rest) == DoAll(Do(s, step), rest)
  {
    assert ([step] + rest)[1..] == rest;
  }

  function Written(s: State, change: Change): seq<seq<Transaction>>
    requires s.files != []
  {
    s.files[|s.files| - 1 := s.files[|s.files| - 1] + [[change]]]
  }

  /** The writer's five steps. */
  lemma WriteSlipsIn(s: State, w: int, change: Change, rest: seq<Step>, t: State)
    requires s.files != [] && s.phase.Positioned? && s.alive && s.logged == [] && w !in s.open
    requires t == s.(alive := false, rows := Applied(s.rows, [change]), files := Written(s, change))
    requires CanDoAll(t, rest)
    ensures var steps := [SessionDrops] + ([Begin(w)] + ([Write(w, change)] + ([Log(w)] + ([Commit] + rest))));
      CanDoAll(s, steps) && DoAll(s, steps) == DoAll(t, rest)
  {
    var s1 := Do(s, SessionDrops);
    var s2 := Do(s1, Begin(w));
    var s3 := Do(s2, Write(w, change));
    assert s3.open[w] == [change];
    var s4 := Do(s3, Log(w));
    assert s4.open == s.open && s4.logged == [[change]];
    assert Do(s4, Commit) == t;
    DoCons(s4, Commit, rest);
    DoCons(s3, Log(w), [Commit] + rest);
    DoCons(s2, Write(w, change), [Log(w)] + ([Commit] + rest));
    DoCons(s1, Begin(w), [Write(w, change)] + ([Log(w)] + ([Commit] + rest)));
    DoCons(s, SessionDrops, [Begin(w)] + ([Write(w, change)] + ([Log(w)] + ([Commit] + rest))));
  }

  function Overtaken(s: State, change: Change): State
    requires s.files != [] && s.phase.Positioned?
  {
    var rows := Applied(s.rows, [change]);
    s.(alive := false, rows := rows, files := Written(s, change), phase := Opened(s.phase.tables, s.phase.at, rows))
  }

  lemma WriteThenOpenEnds(s: State, w: int, change: Change)
    requires s.files != [] && s.phase.Positioned? && s.alive && s.logged == [] && w !in s.open
    ensures CanDoAll(s, WriteThenOpen(w, change)) && DoAll(s, WriteThenOpen(w, change)) == Overtaken(s, change)
  {
    var t := s.(alive := false, rows := Applied(s.rows, [change]), files := Written(s, change));
    var u := Do(t, SpawnDump);
    DoCons(u, OpenSnapshot, []);
    DoCons(t, SpawnDump, [OpenSnapshot] + []);
    WriteSlipsIn(s, w, change, [SpawnDump] + ([OpenSnapshot] + []), t);
  }

  lemma Cut<T>(before: seq<T>, from: seq<T>, after: seq<T>, whole: seq<T>, x: T)
    requires before + from == whole && before + after == whole + [x]
    ensures after == from + [x]
  {
    assert before + after == before + (from + [x]);
    assert after == (before + after)[|before|..];
    assert from + [x] == (before + (from + [x]))[|before|..];
  }

  lemma NothingMore<T>(a: seq<T>, b: seq<T>)
    requires a == a + b
    ensures b == []
  {
    assert |a| == |a| + |b|;
  }

  /** Nothing of a locked table follows the position that was read. */
  lemma NothingFollows(s: State, b: string)
    requires Inv(s) && s.phase.Positioned? && s.alive && s.logged == [] && b in s.phase.tables
    ensures Share(From(s.files, s.phase.at), b) == []
  {
    var before, from := Before(s.files, s.phase.at), From(s.files, s.phase.at);
    BeforeAndFrom(s.files, s.phase.at);
    ShareSplits(Get(s.start, b), before, from, b);
    assert Get(s.rows, b) + Share([], b) == Get(s.rows, b);
    NothingMore(Get(s.rows, b), Share(from, b));
  }

  lemma FromGrows(files: seq<seq<Transaction>>, at: Position, tx: Transaction)
    requires InLog(files, at)
    ensures var more := files[|files| - 1 := files[|files| - 1] + [tx]];
      InLog(more, at) && From(more, at) == From(files, at) + [tx]
  {
    var more := files[|files| - 1 := files[|files| - 1] + [tx]];
    LogGrows(files, at, tx);
    BeforeAndFrom(files, at);
    BeforeAndFrom(more, at);
    Cut(Before(files, at), From(files, at), From(more, at), Flat(files), tx);
  }

  lemma OneBody(change: Change)
    ensures Bodies([change], change.table) == [change.body]
  {
    assert [change][..0] == [];
  }

  lemma ReplayedTwice(s: State, change: Change)
    requires Inv(s) && s.phase.Positioned? && s.alive && s.logged == [] && change.table in s.phase.tables
    ensures InLog(Written(s, change), s.phase.at)
    ensures Share(From(Written(s, change), s.phase.at), change.table) == [change.body]
  {
    FromGrows(s.files, s.phase.at, [change]);
    NothingFollows(s, change.table);
    ShareConcat(From(s.files, s.phase.at), [[change]], change.table);
    ShareOne([change], change.table);
    OneBody(change);
  }

  /** Why the unlock must be answered: had the session died after the position was read, one write
      to a locked table makes the snapshot hold a change that the replay applies again. */
  lemma UnansweredUnlockIsWrong(s: State, w: int, change: Change)
    requires Inv(s) && s.phase.Positioned? && s.alive && s.logged == [] && w !in s.open
    requires change.table in s.phase.tables
    ensures CanDoAll(s, WriteThenOpen(w, change)) && DoAll(s, WriteThenOpen(w, change)) == Overtaken(s, change)
    ensures var t := Overtaken(s, change);
      && t.phase.Opened? && !Enabled(t, Unlock) && t.logged == [] && InLog(t.files, t.phase.at)
      && Get(t.phase.snapshot, change.table) + Share(From(t.files, t.phase.at), change.table)
           == Get(t.rows, change.table) + [change.body]
  {
    WriteThenOpenEnds(s, w, change);
    ReplayedTwice(s, change);
  }
}
