/** One attempt of db/provision/bounded_snapshot.py against the server: what its answers say of the tables,
    the position and the locks, and so what a snapshot it reports is worth. */
module SnapshotAttempt {
  import opened Options
  import opened SnapshotRun
  import opened Strings
  import Server = Snapshot

  /** The table a listed line names. */
  function NameOf(line: string): string {
    var t := ParseTable(line);
    t.schema + "\t" + t.name
  }

  function Names(lines: seq<string>): seq<string> { seq(|lines|, i requires 0 <= i < |lines| => NameOf(lines[i])) }

  /** How the file and offset the server answers with name a place in its log. */
  type Placing = Coordinates -> Server.Position

  // ---- the attempt among other steps -----------------------------------------

  /** The coordinator gave up waiting: the answer it needed next is not the one it got. */
  predicate Disappointed(phase: Server.Phase, s: Script, read: Reader) {
    match phase
    case Named(_) => !s.lock.Rows?
    case Locking(_, _) => !s.lock.Rows?
    case Granted(tables) => !s.relist.Rows? || Names(s.relist.lines) != tables
    case Relisted(_) => !s.coordinates.Rows? || read(s.coordinates.lines).None?
    case Spawned(_, _) => !s.marker
    case Opened(_, _, _) => !s.unlock.Rows?
    case _ => false
  }

  /** What the attempt is told is what the server does. A request answered with rows was served, by a step of
      the server at that moment; one the session ended on, or that came too late, was not known to be. */
  predicate Told(before: Server.State, step: Server.Step, s: Script, read: Reader, place: Placing) {
    match step
    case ListTables => ConnectionId(s.connect).Some? && s.list.Rows? && Names(s.list.lines) == before.catalog
    case LockGranted => s.lock.Rows?
    case Relist => s.relist.Rows? && Names(s.relist.lines) == before.catalog
    case ReadPosition =>
      && s.coordinates.Rows? && read(s.coordinates.lines).Some? && before.files != []
      && place(read(s.coordinates.lines).value) == Server.End(before.files)
    case OpenSnapshot => s.marker
    case Unlock => s.unlock.Rows?
    case GiveUp => Disappointed(before.phase, s, read)
    case _ => true
  }

  /** From state `a` to state `i` of a run, one attempt and whatever else goes on. */
  predicate OneAttempt(states: seq<Server.State>, steps: seq<Server.Step>, a: nat, i: nat,
                       s: Script, read: Reader, place: Placing)
    requires |states| == |steps| + 1
  {
    && a <= i < |states| && states[a].phase.Idle?
    && (forall k | a <= k < i :: Told(states[k], steps[k], s, read, place))
    && forall j, k | a <= j < k < i :: !(steps[j].ListTables? && steps[k].ListTables?)
  }

  predicate Listed(steps: seq<Server.Step>, a: nat, i: nat)
    requires a <= i <= |steps|
  {
    exists k | a <= k < i :: steps[k].ListTables?
  }

  /** The attempt is over: done, given up, or never begun for want of a session or of tables. */
  predicate Over(states: seq<Server.State>, steps: seq<Server.Step>, a: nat, i: nat, s: Script)
    requires |states| == |steps| + 1 && a <= i < |states|
  {
    || states[i].phase.Done?
    || (states[i].phase.Idle?
        && (Listed(steps, a, i) || ConnectionId(s.connect).None? || !s.list.Rows? || s.list.lines == []))
  }

  /** How far the answers have carried the coordinator. */
  predicate Carried(p: Server.Phase, s: Script, read: Reader, place: Placing) {
    match p
    case Idle => true
    case Named(tables) => Asked(s) && tables == Names(s.list.lines)
    case Locking(tables, _) => Asked(s) && tables == Names(s.list.lines)
    case Granted(tables) => Granted(s) && tables == Names(s.list.lines)
    case Relisted(tables) => SameTables(s) && tables == Names(s.list.lines)
    case Positioned(tables, at) => AtPosition(s, read, place, tables, at)
    case Spawned(tables, at) => AtPosition(s, read, place, tables, at)
    case Opened(tables, at, _) => AtPosition(s, read, place, tables, at) && s.marker
    case Done(tables, at, _) => AtPosition(s, read, place, tables, at) && s.marker && s.unlock.Rows?
  }

  predicate AtPosition(s: Script, read: Reader, place: Placing, tables: seq<string>, at: Server.Position) {
    Positioned(s, read) && tables == Names(s.list.lines) && at == place(read(s.coordinates.lines).value)
  }

  lemma SchemaHasNoTab(line: string)
    ensures '\t' !in ParseTable(line).schema
  {
    FindChar(line, '\t');
  }

  lemma NameIff(a: string, b: string)
    ensures NameOf(a) == NameOf(b) <==> ParseTable(a) == ParseTable(b)
  {
    SchemaHasNoTab(a);
    SchemaHasNoTab(b);
    var s, t := ParseTable(a), ParseTable(b);
    if NameOf(a) == NameOf(b) {
      FirstTab(s.schema, s.name);
      FirstTab(t.schema, t.name);
      assert NameOf(a)[|s.schema| + 1..] == s.name && NameOf(b)[|t.schema| + 1..] == t.name;
    }
  }

  lemma FirstTab(schema: string, name: string)
    requires '\t' !in schema
    ensures (schema + "\t" + name)[..|schema|] == schema && Find(schema + "\t" + name, "\t") == |schema|
  {
    var text := schema + "\t" + name;
    FindChar(text, '\t');
    assert text[|schema|] == '\t' && text[..|schema|] == schema;
    InPrefix(text, |schema|, Find(text, "\t"));
    InPrefix(text, Find(text, "\t"), |schema|);
  }

  lemma NamesIff(a: seq<string>, b: seq<string>)
    ensures Names(a) == Names(b) <==> ParseTables(a) == ParseTables(b)
  {
    forall i | 0 <= i < |a| && i < |b| ensures NameOf(a[i]) == NameOf(b[i]) <==> ParseTable(a[i]) == ParseTable(b[i]) {
      NameIff(a[i], b[i]);
    }
    if Names(a) == Names(b) {
      assert |a| == |Names(a)| == |Names(b)| == |b|;
      forall i | 0 <= i < |a| ensures ParseTables(a)[i] == ParseTables(b)[i] {
        assert Names(a)[i] == Names(b)[i];
      }
    }
    if ParseTables(a) == ParseTables(b) {
      assert |a| == |ParseTables(a)| == |ParseTables(b)| == |b|;
      forall i | 0 <= i < |a| ensures Names(a)[i] == Names(b)[i] {
        assert ParseTables(a)[i] == ParseTables(b)[i];
      }
    }
  }

  lemma CarriedOn(before: Server.State, step: Server.Step, s: Script, read: Reader, place: Placing)
    requires before.files != [] && Server.Enabled(before, step)
    requires Carried(before.phase, s, read, place) && Told(before, step, s, read, place)
    ensures Carried(Server.Do(before, step).phase, s, read, place)
    ensures step.GiveUp? ==> !Succeeds(s, read)
  {
    if before.phase.Granted? && s.relist.Rows? {
      NamesIff(s.list.lines, s.relist.lines);
    }
  }

  lemma {:induction false} AttemptCarried(states: seq<Server.State>, steps: seq<Server.Step>, a: nat, i: nat,
                                          s: Script, read: Reader, place: Placing)
    requires Server.IsRun(states, steps) && OneAttempt(states, steps, a, i, s, read, place)
    ensures Carried(states[i].phase, s, read, place)
    ensures states[i].phase.Idle? && Listed(steps, a, i) ==> !Succeeds(s, read)
    ensures !states[i].phase.Idle? ==> Listed(steps, a, i)
    decreases i
  {
    if i > a {
      AttemptCarried(states, steps, a, i - 1, s, read, place);
      CarriedOn(states[i - 1], steps[i - 1], s, read, place);
      assert Listed(steps, a, i) <==> Listed(steps, a, i - 1) || steps[i - 1].ListTables?;
    }
  }

  /** An attempt that is over succeeded exactly when the server reached the end of the protocol: the unlock
      itself was served, by a session that was still alive. */
  lemma AttemptIff(states: seq<Server.State>, steps: seq<Server.Step>, a: nat, i: nat,
                   s: Script, read: Reader, place: Placing)
    requires Server.IsRun(states, steps) && OneAttempt(states, steps, a, i, s, read, place)
    requires Over(states, steps, a, i, s)
    ensures Succeeds(s, read) <==> states[i].phase.Done?
    ensures states[i].phase.Done? ==>
      && states[i].phase.tables == Names(s.list.lines)
      && read(s.coordinates.lines).Some? && states[i].phase.at == place(read(s.coordinates.lines).value)
  {
    AttemptCarried(states, steps, a, i, s, read, place);
  }

  /** The snapshot at the reported position: loading it and replaying the log from there gives, table by table,
      the rows and what is logged but not yet committed. */
  ghost predicate Faithful(now: Server.State, tables: seq<string>, at: Server.Position) {
    && now.phase.Done? && now.phase.tables == tables && now.phase.at == at && Server.InLog(now.files, at)
    && forall t | t in tables ::
         Server.Restored(now, t) == Server.Get(now.rows, t) + Server.Share(now.logged, t)
  }

  /** An attempt as it runs among the server's other steps: it reports a snapshot exactly when the server's end
      of the protocol was reached, and then the snapshot is faithful at the position it reports, now and as long
      as the run goes on from there. */
  method AttemptAmong(h: Host, attempt: nat, s: Script, read: Reader, ghost states: seq<Server.State>,
                      ghost steps: seq<Server.Step>, ghost a: nat, ghost i: nat, ghost place: Placing)
    returns (outcome: Outcome)
    requires OneAtATime(h.events) && Sessions(h.events) == {} && Dumps(h.events) == {}
    requires Server.IsRun(states, steps) && OneAttempt(states, steps, a, i, s, read, place)
    requires Over(states, steps, a, i, s)
    modifies h
    ensures outcome.Success? <==> states[i].phase.Done?
    ensures outcome.Success? ==>
      && s.list.Rows? && outcome.report.tables == |s.list.lines|
      && Faithful(states[i], Names(s.list.lines), place(outcome.report.at))
  {
    outcome := h.Attempt(attempt, s, read);
    AttemptIff(states, steps, a, i, s, read, place);
    if outcome.Success? {
      forall t | t in states[i].phase.tables
        ensures Server.InLog(states[i].files, states[i].phase.at)
        ensures Server.Restored(states[i], t) == Server.Get(states[i].rows, t) + Server.Share(states[i].logged, t)
      {
        Server.SnapshotPlusReplayIsSource(states, steps, i, t);
      }
      Server.RunKeeps(states, steps, i);
    }
  }

  // ---- on a quiet server -------------------------------------------------------

  /** A request: served if the session lives; if the answer is its end, the session is gone before. */
  function Request(a: Answer, served: seq<Server.Step>): seq<Server.Step> {
    match a
    case Rows(_) => served
    case Ended(_) => [Server.SessionDrops] + served
    case Late => [Server.GiveUp]
  }

  function LockEach(tables: seq<string>): seq<Server.Step> {
    if tables == [] then [] else LockEach(tables[..|tables| - 1]) + [Server.Lock(tables[|tables| - 1])]
  }

  /* What the coordinator asks of the server, from the unlock back. */

  function UnlockPart(s: Script): seq<Server.Step> { Request(s.unlock, [Server.Unlock]) }

  function DumpPart(s: Script): seq<Server.Step> {
    [Server.SpawnDump] + ([if s.marker then Server.OpenSnapshot else Server.GiveUp] + UnlockPart(s))
  }

  function PositionPart(s: Script, read: Reader): seq<Server.Step> {
    (if s.coordinates.Rows? && read(s.coordinates.lines).None? then [Server.GiveUp]
     else Request(s.coordinates, [Server.ReadPosition])) + DumpPart(s)
  }

  function RelistPart(s: Script, read: Reader): seq<Server.Step> {
    (if s.relist.Rows? then [Server.Alter(Names(s.relist.lines))] else [])
    + (Request(s.relist, [Server.Relist]) + PositionPart(s, read))
  }

  function LockPart(s: Script, read: Reader, tables: seq<string>): seq<Server.Step> {
    Request(s.lock, [Server.RequestLock] + (LockEach(tables) + [Server.LockGranted])) + RelistPart(s, read)
  }

  function AllParts(s: Script, read: Reader): seq<Server.Step> {
    if ConnectionId(s.connect).None? || !s.list.Rows? then []
    else
      var tables := Names(s.list.lines);
      [Server.Alter(tables)] + ([Server.ListTables] + LockPart(s, read, tables))
  }

  /** Steps as far as the server can do them. */
  function Drive(m: Server.State, steps: seq<Server.Step>): Server.State
    decreases |steps|
  {
    if steps == [] || m.files == [] || !Server.Enabled(m, steps[0]) then m
    else Drive(Server.Do(m, steps[0]), steps[1..])
  }

  lemma DriveStep(m: Server.State, step: Server.Step, rest: seq<Server.Step>)
    requires m.files != [] && Server.Enabled(m, step)
    ensures Drive(m, [step] + rest) == Drive(Server.Do(m, step), rest)
  {
    assert ([step] + rest)[1..] == rest;
  }

  lemma DriveStops(m: Server.State, step: Server.Step, rest: seq<Server.Step>)
    requires m.files == [] || !Server.Enabled(m, step)
    ensures Drive(m, [step] + rest) == m
  {
  }

  /** Given up, nothing but a new listing starts the protocol again. */
  lemma {:induction false} IdleStays(m: Server.State, steps: seq<Server.Step>)
    requires m.phase.Idle? && forall step | step in steps :: !step.ListTables?
    ensures Drive(m, steps).phase.Idle?
    decreases |steps|
  {
    if steps != [] && m.files != [] && Server.Enabled(m, steps[0]) {
      assert steps == [steps[0]] + steps[1..];
      IdleStays(Server.Do(m, steps[0]), steps[1..]);
    }
  }

  lemma GivenUp(m: Server.State, rest: seq<Server.Step>)
    requires m.files != [] && !m.phase.Idle? && !m.phase.Done? && forall step | step in rest :: !step.ListTables?
    ensures !Drive(m, [Server.GiveUp] + rest).phase.Done?
  {
    DriveStep(m, Server.GiveUp, rest);
    IdleStays(Server.Do(m, Server.GiveUp), rest);
  }

  /** A session that drops serves nothing more. */
  lemma Dropped(m: Server.State, step: Server.Step, rest: seq<Server.Step>)
    requires m.files != [] && m.alive && !m.phase.Done?
    requires step.RequestLock? || step.Relist? || step.ReadPosition? || step.Unlock?
    ensures !Drive(m, [Server.SessionDrops] + ([step] + rest)).phase.Done?
  {
    DriveStep(m, Server.SessionDrops, [step] + rest);
    DriveStops(Server.Do(m, Server.SessionDrops), step, rest);
  }

  lemma NoListing(s: Script, read: Reader)
    ensures forall step | step in PositionPart(s, read) || step in RelistPart(s, read) :: !step.ListTables?
  {
  }

  /** The protocol's end, at those tables and that position. */
  predicate EndsAt(m: Server.State, tables: seq<string>, at: Server.Position) {
    m.phase.Done? && m.phase.tables == tables && m.phase.at == at
  }

  lemma DriveUnlock(m: Server.State, s: Script)
    requires m.files != [] && m.phase.Opened? && m.alive
    ensures if s.unlock.Rows? then EndsAt(Drive(m, UnlockPart(s)), m.phase.tables, m.phase.at)
            else !Drive(m, UnlockPart(s)).phase.Done?
  {
    match s.unlock
    case Rows(_) =>
      DriveStep(m, Server.Unlock, []);
      assert [Server.Unlock] + [] == [Server.Unlock];
    case Ended(_) =>
      Dropped(m, Server.Unlock, []);
      assert [Server.Unlock] + [] == [Server.Unlock];
    case Late =>
      GivenUp(m, []);
      assert [Server.GiveUp] + [] == [Server.GiveUp];
  }

  lemma DriveDump(m: Server.State, s: Script)
    requires m.files != [] && m.phase.Positioned? && m.alive
    ensures if s.marker && s.unlock.Rows? then EndsAt(Drive(m, DumpPart(s)), m.phase.tables, m.phase.at)
            else !Drive(m, DumpPart(s)).phase.Done?
  {
    var spawned := Server.Do(m, Server.SpawnDump);
    DriveStep(m, Server.SpawnDump, [if s.marker then Server.OpenSnapshot else Server.GiveUp] + UnlockPart(s));
    if s.marker {
      DriveStep(spawned, Server.OpenSnapshot, UnlockPart(s));
      DriveUnlock(Server.Do(spawned, Server.OpenSnapshot), s);
    } else {
      GivenUp(spawned, UnlockPart(s));
    }
  }

  lemma DrivePosition(m: Server.State, s: Script, read: Reader)
    requires m.files != [] && m.phase.Relisted? && m.alive
    ensures if s.coordinates.Rows? && read(s.coordinates.lines).Some? && s.marker && s.unlock.Rows?
            then EndsAt(Drive(m, PositionPart(s, read)), m.phase.tables, Server.End(m.files))
            else !Drive(m, PositionPart(s, read)).phase.Done?
  {
    var rest := DumpPart(s);
    if s.coordinates.Rows? && read(s.coordinates.lines).Some? {
      DriveStep(m, Server.ReadPosition, rest);
      DriveDump(Server.Do(m, Server.ReadPosition), s);
    } else if s.coordinates.Ended? {
      Dropped(m, Server.ReadPosition, rest);
      assert [Server.SessionDrops] + [Server.ReadPosition] + rest
          == [Server.SessionDrops] + ([Server.ReadPosition] + rest);
    } else {
      GivenUp(m, rest);
    }
  }

  lemma DriveRelisted(m: Server.State, s: Script, read: Reader, seen: seq<string>)
    requires m.files != [] && m.phase.Granted? && m.alive
    ensures var end := Drive(m, [Server.Alter(seen), Server.Relist] + PositionPart(s, read));
      if seen == m.phase.tables && s.coordinates.Rows? && read(s.coordinates.lines).Some? && s.marker && s.unlock.Rows?
      then EndsAt(end, m.phase.tables, Server.End(m.files)) else !end.phase.Done?
  {
    var rest := PositionPart(s, read);
    var altered := Server.Do(m, Server.Alter(seen));
    assert [Server.Alter(seen), Server.Relist] + rest == [Server.Alter(seen)] + ([Server.Relist] + rest);
    NoListing(s, read);
    DriveStep(m, Server.Alter(seen), [Server.Relist] + rest);
    if seen == m.phase.tables {
      DriveStep(altered, Server.Relist, rest);
      DrivePosition(Server.Do(altered, Server.Relist), s, read);
    } else {
      DriveStops(altered, Server.Relist, rest);
    }
  }

  lemma DriveRelist(m: Server.State, s: Script, read: Reader)
    requires m.files != [] && m.phase.Granted? && m.alive
    ensures if s.relist.Rows? && Names(s.relist.lines) == m.phase.tables
              && s.coordinates.Rows? && read(s.coordinates.lines).Some? && s.marker && s.unlock.Rows?
            then EndsAt(Drive(m, RelistPart(s, read)), m.phase.tables, Server.End(m.files))
            else !Drive(m, RelistPart(s, read)).phase.Done?
  {
    var rest := PositionPart(s, read);
    NoListing(s, read);
    match s.relist
    case Rows(lines) =>
      DriveRelisted(m, s, read, Names(lines));
    case Ended(_) =>
      Dropped(m, Server.Relist, rest);
      assert [] + ([Server.SessionDrops] + [Server.Relist] + rest)
          == [Server.SessionDrops] + ([Server.Relist] + rest);
    case Late =>
      GivenUp(m, rest);
      assert [] + ([Server.GiveUp] + rest) == [Server.GiveUp] + rest;
  }

  /** With nothing in flight every lock is granted. */
  lemma {:induction false} DriveLocks(m: Server.State, tables: seq<string>, rest: seq<Server.Step>)
    requires m.files != [] && m.phase.Locking? && m.alive && m.open == map[] && m.logged == []
    requires forall t | t in tables :: t in m.phase.tables
    ensures Drive(m, LockEach(tables) + rest)
      == Drive(m.(phase := m.phase.(held := m.phase.held + set t | t in tables)), rest)
    decreases |tables|
  {
    if tables == [] {
      assert [] + rest == rest && m.phase.held + {} == m.phase.held;
      assert (set t | t in tables) == {};
    } else {
      var front, last := tables[..|tables| - 1], tables[|tables| - 1];
      assert tables == front + [last];
      assert LockEach(tables) + rest == LockEach(front) + ([Server.Lock(last)] + rest);
      DriveLocks(m, front, [Server.Lock(last)] + rest);
      var held := m.(phase := m.phase.(held := m.phase.held + set t | t in front));
      DriveStep(held, Server.Lock(last), rest);
      assert (m.phase.held + set t | t in front) + {last} == m.phase.held + set t | t in tables;
    }
  }

  lemma DriveGranted(m: Server.State, rest: seq<Server.Step>)
    requires m.files != [] && m.phase.Named? && m.alive && m.open == map[] && m.logged == []
    ensures Drive(m, [Server.RequestLock] + (LockEach(m.phase.tables) + [Server.LockGranted]) + rest)
      == Drive(m.(phase := Server.Granted(m.phase.tables)), rest)
  {
    var tables := m.phase.tables;
    var locking := Server.Do(m, Server.RequestLock);
    assert [Server.RequestLock] + (LockEach(tables) + [Server.LockGranted]) + rest
        == [Server.RequestLock] + (LockEach(tables) + ([Server.LockGranted] + rest));
    DriveStep(m, Server.RequestLock, LockEach(tables) + ([Server.LockGranted] + rest));
    DriveLocks(locking, tables, [Server.LockGranted] + rest);
    DriveStep(locking.(phase := locking.phase.(held := {} + set t | t in tables)), Server.LockGranted, rest);
  }

  lemma DriveLock(m: Server.State, s: Script, read: Reader)
    requires m.files != [] && m.phase.Named? && m.alive && m.open == map[] && m.logged == []
    ensures var end := Drive(m, LockPart(s, read, m.phase.tables));
      if s.lock.Rows? && s.relist.Rows? && Names(s.relist.lines) == m.phase.tables
        && s.coordinates.Rows? && read(s.coordinates.lines).Some? && s.marker && s.unlock.Rows?
      then EndsAt(end, m.phase.tables, Server.End(m.files))
      else !end.phase.Done?
  {
    var tables, rest := m.phase.tables, RelistPart(s, read);
    var served := [Server.RequestLock] + (LockEach(tables) + [Server.LockGranted]);
    NoListing(s, read);
    match s.lock
    case Rows(_) =>
      DriveGranted(m, rest);
      DriveRelist(m.(phase := Server.Granted(tables)), s, read);
    case Ended(_) =>
      Dropped(m, Server.RequestLock, LockEach(tables) + [Server.LockGranted] + rest);
      assert [Server.SessionDrops] + served + rest
          == [Server.SessionDrops] + ([Server.RequestLock] + (LockEach(tables) + [Server.LockGranted] + rest));
    case Late =>
      GivenUp(m, rest);
  }

  predicate Quiet(m: Server.State) { m.files != [] && m.phase.Idle? && m.open == map[] && m.logged == [] }

  /** The requests of an attempt, put to a server with nothing in flight: they reach the end of the protocol,
      by an unlock that was served, exactly when the attempt succeeds. */
  lemma DriveIff(m: Server.State, s: Script, read: Reader)
    requires Quiet(m)
    ensures Drive(m, AllParts(s, read)).phase.Done? <==> Succeeds(s, read)
    ensures Succeeds(s, read) ==> EndsAt(Drive(m, AllParts(s, read)), Names(s.list.lines), Server.End(m.files))
  {
    if ConnectionId(s.connect).Some? && s.list.Rows? {
      var tables := Names(s.list.lines);
      var altered := Server.Do(m, Server.Alter(tables));
      DriveStep(m, Server.Alter(tables), [Server.ListTables] + LockPart(s, read, tables));
      if tables == [] {
        DriveStops(altered, Server.ListTables, LockPart(s, read, tables));
      } else {
        DriveStep(altered, Server.ListTables, LockPart(s, read, tables));
        DriveLock(Server.Do(altered, Server.ListTables), s, read);
        if s.relist.Rows? {
          NamesIff(s.list.lines, s.relist.lines);
        }
      }
    }
  }

  // ---- giving up ---------------------------------------------------------------

  /** Each answer by itself: good, out of a bound that a retry may meet, or broken. */
  datatype Stage = Good | OutOfBound | Broken

  /** A later answer than asked for is out of bound, a session that ended is broken. */
  function ByAnswer(a: Answer, good: bool, otherwise: Stage): Stage {
    if a.Late? then OutOfBound else if a.Ended? then Broken else if good then Good else otherwise
  }

  function Stages(s: Script, read: Reader): seq<Stage> {
    [if ConnectionId(s.connect).Some? then Good else Broken,
     if s.list.Rows? && s.list.lines != [] then Good else Broken,
     if s.lock.Ended? && Occurs(s.lock.stderr, "ERROR 1205") then OutOfBound else ByAnswer(s.lock, true, Broken),
     ByAnswer(s.relist, s.relist.Rows? && s.list.Rows? && Names(s.relist.lines) == Names(s.list.lines), OutOfBound),
     ByAnswer(s.coordinates, s.coordinates.Rows? && read(s.coordinates.lines).Some?, Broken),
     if s.marker then Good else OutOfBound,
     ByAnswer(s.unlock, true, Broken)]
  }

  /** The first answer that is not good. */
  predicate FirstBad(stages: seq<Stage>, k: int) {
    0 <= k < |stages| && !stages[k].Good? && forall j | 0 <= j < k :: stages[j].Good?
  }

  /** An attempt succeeds exactly when every answer is good, and may be retried exactly when the first that is
      not is out of a bound and the session's end was confirmed. */
  lemma OutcomeIff(s: Script, read: Reader)
    ensures Succeeds(s, read) <==> forall k | 0 <= k < 7 :: Stages(s, read)[k].Good?
    ensures Retries(s, read) <==> s.killed && exists k :: FirstBad(Stages(s, read), k) && Stages(s, read)[k].OutOfBound?
  {
    var stages := Stages(s, read);
    if s.list.Rows? && s.relist.Rows? {
      NamesIff(s.list.lines, s.relist.lines);
    }
    AllGood(s, read, stages);
    if GivesUp(s, read) {
      var k := if !stages[2].Good? then 2 else if !stages[3].Good? then 3 else if !stages[4].Good? then 4
               else if !stages[5].Good? then 5 else 6;
      assert FirstBad(stages, k) && stages[k].OutOfBound?;
    }
    if k :| FirstBad(stages, k) && stages[k].OutOfBound? {
      assert k in {2, 3, 4, 5, 6};
    }
  }

  lemma AllGood(s: Script, read: Reader, stages: seq<Stage>)
    requires stages == Stages(s, read)
    requires s.list.Rows? && s.relist.Rows? ==>
      (Names(s.relist.lines) == Names(s.list.lines) <==> ParseTables(s.relist.lines) == ParseTables(s.list.lines))
    ensures Succeeds(s, read) <==> (stages[0].Good? && stages[1].Good? && stages[2].Good? && stages[3].Good?
                                    && stages[4].Good? && stages[5].Good? && stages[6].Good?)
    ensures GivesUp(s, read) <==>
      || (stages[0].Good? && stages[1].Good? && stages[2].OutOfBound?)
      || (stages[0].Good? && stages[1].Good? && stages[2].Good? && stages[3].OutOfBound?)
      || (stages[0].Good? && stages[1].Good? && stages[2].Good? && stages[3].Good? && stages[4].OutOfBound?)
      || (stages[0].Good? && stages[1].Good? && stages[2].Good? && stages[3].Good? && stages[4].Good?
          && (stages[5].OutOfBound? || (stages[5].Good? && stages[6].OutOfBound?)))
  {
  }
}
