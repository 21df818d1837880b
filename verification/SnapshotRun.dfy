/** One snapshot attempt and its retries: `_attempt`, `_cleanup` and `take_bounded_snapshot`
    in db/provision/bounded_snapshot.py. */
module SnapshotRun {
  import opened BinlogNames
  import opened Options
  import opened Strings

  /** What comes back for one request: its rows, the session's end, or nothing before the deadline. */
  datatype Answer = Rows(lines: seq<string>) | Ended(stderr: string) | Late

  /** Everything one attempt can be told, whether it gets as far as asking or not: the answers in
      order, whether the dump reports its snapshot open, whether the session's end is confirmed by a kill,
      and whether its client exits by itself when closed. */
  datatype Script = Script(connect: Answer, list: Answer, lock: Answer, relist: Answer, coordinates: Answer,
                           marker: bool, unlock: Answer, killed: bool, closed: bool)

  datatype Coordinates = Coordinates(file: string, position: nat)
  datatype Report = Report(at: Coordinates, tables: nat, attempts: nat, aborted: nat)
  datatype Outcome = Success(report: Report) | Abort | Fatal
  datatype Result = Snapshot(report: Report) | Failed(attempts: nat, aborted: nat)

  /** How the answer to the position query is read: either source's parser, or nothing if it is malformed. */
  type Reader = seq<string> -> Option<Coordinates>

  /** `connection_id = int(...[0])`. */
  function ConnectionId(a: Answer): Option<nat> {
    if a.Rows? && a.lines != [] && a.lines[0] != "" && AllDigits(a.lines[0]) then Some(FromDecimal(a.lines[0]))
    else None
  }

  /** The id is the first line of the answer, a numeral. */
  lemma ConnectionIdIff(a: Answer, n: nat)
    ensures ConnectionId(a) == Some(n) <==> a.Rows? && a.lines != [] && NumeralOf(a.lines[0], n)
    ensures ConnectionId(a).None? <==> forall m: nat :: !(a.Rows? && a.lines != [] && NumeralOf(a.lines[0], m))
  {
    if ConnectionId(a).Some? {
      assert NumeralOf(a.lines[0], ConnectionId(a).value);
    }
  }

  datatype Table = Table(schema: string, name: string)

  /** `line.partition("\t")`. */
  function ParseTable(line: string): Table {
    var tab := Find(line, "\t");
    if tab == -1 then Table(line, "") else Table(line[..tab], line[tab + 1..])
  }

  function ParseTables(lines: seq<string>): seq<Table> {
    seq(|lines|, i requires 0 <= i < |lines| => ParseTable(lines[i]))
  }

  predicate LockTimedOut(a: Answer) { a.Late? || (a.Ended? && Occurs(a.stderr, "ERROR 1205")) }

  predicate TablesMoved(s: Script) {
    s.list.Rows? && s.relist.Rows? && ParseTables(s.relist.lines) != ParseTables(s.list.lines)
  }

  /* How far an attempt gets. */

  predicate Connected(s: Script) { ConnectionId(s.connect).Some? }

  predicate Asked(s: Script) { Connected(s) && s.list.Rows? && s.list.lines != [] }

  predicate Granted(s: Script) { Asked(s) && s.lock.Rows? }

  predicate SameTables(s: Script) { Granted(s) && s.relist.Rows? && !TablesMoved(s) }

  predicate Positioned(s: Script, read: Reader) {
    SameTables(s) && s.coordinates.Rows? && read(s.coordinates.lines).Some?
  }

  /** The one way to succeed: every answer in time, the same tables twice, the snapshot reported
      open, and the unlock acknowledged. */
  predicate Succeeds(s: Script, read: Reader) { Positioned(s, read) && s.marker && s.unlock.Rows? }

  /** Giving up on a bound: the lock wait, the hold, a table set that moved, or a snapshot not opened. */
  predicate GivesUp(s: Script, read: Reader) {
    || (Asked(s) && LockTimedOut(s.lock))
    || (Granted(s) && (s.relist.Late? || TablesMoved(s)))
    || (SameTables(s) && s.coordinates.Late?)
    || (Positioned(s, read) && (!s.marker || s.unlock.Late?))
  }

  /** A retry is allowed only after the session is confirmed gone. */
  predicate Retries(s: Script, read: Reader) { GivesUp(s, read) && s.killed }

  datatype Event =
    | SessionStarted(attempt: nat) | SessionGone(attempt: nat)
    | DumpStarted(attempt: nat) | DumpKilled(attempt: nat)
    | Slept(seconds: int)

  /** The coordinator sessions not known to be gone, after a stretch of events. */
  function Sessions(events: seq<Event>): set<nat> {
    if events == [] then {}
    else
      var before, e := Sessions(events[..|events| - 1]), events[|events| - 1];
      if e.SessionStarted? then before + {e.attempt} else if e.SessionGone? then before - {e.attempt} else before
  }

  function Dumps(events: seq<Event>): set<nat> {
    if events == [] then {}
    else
      var before, e := Dumps(events[..|events| - 1]), events[|events| - 1];
      if e.DumpStarted? then before + {e.attempt} else if e.DumpKilled? then before - {e.attempt} else before
  }

  function Naps(events: seq<Event>): seq<int> {
    if events == [] then []
    else
      var before, e := Naps(events[..|events| - 1]), events[|events| - 1];
      if e.Slept? then before + [e.seconds] else before
  }

  /** The first `n` waits: each of the back-offs in turn, then the last one again and again. */
  function Backoffs(backoff: seq<int>, n: int): seq<int>
    requires backoff != []
  {
    seq(if n < 0 then 0 else n, i requires 0 <= i => backoff[if i < |backoff| - 1 then i else |backoff| - 1])
  }

  /** Wait after wait, until the last is repeated. */
  lemma BackoffsAre(backoff: seq<int>, n: nat, i: nat)
    requires backoff != [] && i < n
    ensures |Backoffs(backoff, n)| == n
    ensures i < |backoff| ==> Backoffs(backoff, n)[i] == backoff[i]
    ensures i >= |backoff| ==> Backoffs(backoff, n)[i] == backoff[|backoff| - 1]
  {
  }

  /** No session is started while another may live or another attempt's dump runs. */
  predicate OneAtATime(events: seq<Event>) {
    forall i | 0 <= i < |events| && events[i].SessionStarted? :: Sessions(events[..i]) == {} && Dumps(events[..i]) == {}
  }

  lemma OneMore(events: seq<Event>, e: Event)
    ensures Sessions(events + [e])
      == if e.SessionStarted? then Sessions(events) + {e.attempt}
         else if e.SessionGone? then Sessions(events) - {e.attempt} else Sessions(events)
    ensures Dumps(events + [e])
      == if e.DumpStarted? then Dumps(events) + {e.attempt}
         else if e.DumpKilled? then Dumps(events) - {e.attempt} else Dumps(events)
    ensures Naps(events + [e]) == Naps(events) + if e.Slept? then [e.seconds] else []
    ensures (OneAtATime(events) && (e.SessionStarted? ==> Sessions(events) == {} && Dumps(events) == {})) ==>
      OneAtATime(events + [e])
  {
    var more := events + [e];
    assert more[..|more| - 1] == events;
    forall i | 0 <= i < |events| ensures more[..i] == events[..i] {
    }
  }

  /** One session at a time means at most one ever lives, and where one starts no dump is alive. */
  lemma {:induction false} AtMostOneLives(events: seq<Event>, i: nat)
    requires OneAtATime(events) && i <= |events|
    ensures |Sessions(events[..i])| <= 1
    ensures i > 0 && events[i - 1].SessionStarted? ==>
      Sessions(events[..i]) == {events[i - 1].attempt} && Dumps(events[..i]) == {}
  {
    if i > 0 {
      AtMostOneLives(events, i - 1);
      var front := events[..i - 1];
      assert events[..i] == front + [events[i - 1]];
      OneMore(front, events[i - 1]);
    }
  }

  class Host {
    var events: seq<Event>

    method Note(e: Event)
      requires OneAtATime(events) && (e.SessionStarted? ==> Sessions(events) == {} && Dumps(events) == {})
      modifies this
      ensures events == old(events) + [e] && OneAtATime(events)
      ensures Sessions(events)
        == if e.SessionStarted? then old(Sessions(events)) + {e.attempt}
           else if e.SessionGone? then old(Sessions(events)) - {e.attempt} else old(Sessions(events))
      ensures Dumps(events)
        == if e.DumpStarted? then old(Dumps(events)) + {e.attempt}
           else if e.DumpKilled? then old(Dumps(events)) - {e.attempt} else old(Dumps(events))
      ensures Naps(events) == old(Naps(events)) + if e.Slept? then [e.seconds] else []
    {
      OneMore(events, e);
      events := events + [e];
    }

    /** `_cleanup` and `_release`: the dump dies first, then the session; false if its end cannot be confirmed. */
    method Cleanup(attempt: nat, connection: Option<nat>, dumping: bool, killed: bool) returns (confirmed: bool)
      requires OneAtATime(events) && Sessions(events) == {attempt}
      requires Dumps(events) == (if dumping then {attempt} else {})
      modifies this
      ensures OneAtATime(events) && Dumps(events) == {}
      ensures Sessions(events) == if connection.Some? && killed then {} else {attempt}
      ensures confirmed <==> connection.None? || killed
      ensures Naps(events) == old(Naps(events))
    {
      if dumping {
        Note(DumpKilled(attempt));
      }
      if connection.None? {
        return true;
      }
      if killed {
        Note(SessionGone(attempt));
      }
      return killed;
    }

    /** `_attempt`. */
    method Attempt(attempt: nat, s: Script, read: Reader) returns (outcome: Outcome)
      requires OneAtATime(events) && Sessions(events) == {} && Dumps(events) == {}
      modifies this
      ensures OneAtATime(events)
      ensures outcome.Success? <==> Succeeds(s, read)
      ensures outcome.Abort? <==> Retries(s, read)
      ensures outcome.Success? ==>
        outcome.report == Report(read(s.coordinates.lines).value, |s.list.lines|, 0, 0)
      ensures outcome.Success? ==>
        Sessions(events) == (if s.closed then {} else {attempt}) && Dumps(events) == {attempt}
      ensures outcome.Abort? ==> Sessions(events) == {} && Dumps(events) == {}
      ensures outcome.Fatal? ==> Dumps(events) == {}
      ensures Naps(events) == old(Naps(events))
    {
      Note(SessionStarted(attempt));
      var raised, connection, dumping := Fatal, ConnectionId(s.connect), false;
      if connection.Some? && s.list.Rows? && s.list.lines != [] {
        if LockTimedOut(s.lock) {
          raised := Abort;
        } else if s.lock.Rows? {
          if s.relist.Late? || TablesMoved(s) {
            raised := Abort;
          } else if s.relist.Rows? {
            if s.coordinates.Late? {
              raised := Abort;
            } else if s.coordinates.Rows? && read(s.coordinates.lines).Some? {
              Note(DumpStarted(attempt));
              dumping := true;
              if !s.marker || s.unlock.Late? {
                raised := Abort;
              } else if s.unlock.Rows? {
                if s.closed {
                  Note(SessionGone(attempt));
                }
                return Success(Report(read(s.coordinates.lines).value, |s.list.lines|, 0, 0));
              }
            }
          }
        }
      }
      var confirmed := Cleanup(attempt, connection, dumping, s.killed);
      return if confirmed then raised else Fatal;
    }

    /** `take_bounded_snapshot`, with what attempt `i` is told in `scripts[i]`. */
    method TakeBoundedSnapshot(scripts: seq<Script>, read: Reader, maxAttempts: nat, backoff: seq<int>)
      returns (r: Result)
      requires |scripts| >= maxAttempts && backoff != []
      requires events == []
      modifies this
      ensures OneAtATime(events)
      ensures r.Snapshot? ==>
        && 1 <= r.report.attempts <= maxAttempts && r.report.aborted == r.report.attempts - 1
        && Succeeds(scripts[r.report.attempts - 1], read)
        && (forall i | 0 <= i < r.report.attempts - 1 :: Retries(scripts[i], read))
        && r.report.at == read(scripts[r.report.attempts - 1].coordinates.lines).value
        && r.report.tables == |scripts[r.report.attempts - 1].list.lines|
        && Sessions(events) == (if scripts[r.report.attempts - 1].closed then {} else {r.report.attempts - 1})
        && Dumps(events) == {r.report.attempts - 1}
        && Naps(events) == Backoffs(backoff, r.report.attempts - 1)
      ensures r.Failed? ==>
        && Dumps(events) == {}
        && r.aborted <= r.attempts <= maxAttempts
        && (forall i | 0 <= i < r.aborted :: Retries(scripts[i], read))
        && (r.aborted == r.attempts ==> r.attempts == maxAttempts && Sessions(events) == {})
        && (r.aborted < r.attempts ==> (&& r.aborted == r.attempts - 1
                                        && !Succeeds(scripts[r.aborted], read) && !Retries(scripts[r.aborted], read)))
    {
      var attempt, aborted := 0, 0;
      while attempt < maxAttempts
        invariant attempt == aborted <= maxAttempts
        invariant OneAtATime(events) && Sessions(events) == {} && Dumps(events) == {}
        invariant forall i | 0 <= i < attempt :: Retries(scripts[i], read)
        invariant Naps(events) == Backoffs(backoff, if attempt < maxAttempts then attempt else attempt - 1)
      {
        var outcome := Attempt(attempt, scripts[attempt], read);
        if outcome.Success? {
          return Snapshot(outcome.report.(attempts := attempt + 1, aborted := aborted));
        }
        if outcome.Fatal? {
          return Failed(attempt + 1, aborted);
        }
        aborted := aborted + 1;
        if attempt + 1 < maxAttempts {
          Note(Slept(backoff[if attempt < |backoff| - 1 then attempt else |backoff| - 1]));
        }
        attempt := attempt + 1;
      }
      return Failed(maxAttempts, aborted);
    }
  }

  /* Reading one answer, and a child's stderr. */

  /** `_Coordinator.ask`: the rows up to this request's sentinel. What arrived in time is `lines`;
      `ended` says the stream closed after them. */
  method Ask(lines: seq<string>, ended: bool, stderr: string, token: string) returns (answer: Answer, taken: nat)
    ensures taken <= |lines|
    ensures token in lines ==>
      taken > 0 && answer == Rows(lines[..taken - 1]) && lines[taken - 1] == token && token !in lines[..taken - 1]
    ensures token !in lines ==> taken == |lines| && answer == if ended then Ended(stderr) else Late
  {
    var rows := [];
    taken := 0;
    while taken < |lines|
      invariant taken <= |lines| && rows == lines[..taken] && token !in rows
    {
      var line := lines[taken];
      taken := taken + 1;
      if line == token {
        return Rows(rows), taken;
      }
      rows := rows + [line];
    }
    return if ended then Ended(stderr) else Late, taken;
  }

  /** An answer that does not contain its own sentinel is read whole, and the next one starts right after it. */
  lemma AnswersStayApart(rows: seq<string>, token: string, later: seq<string>, taken: nat)
    requires token !in rows
    requires var lines := rows + [token] + later;
      0 < taken <= |lines| && lines[taken - 1] == token && token !in lines[..taken - 1]
    ensures var lines := rows + [token] + later;
      lines[..taken - 1] == rows && lines[taken..] == later
  {
    var lines := rows + [token] + later;
    assert lines[|rows|] == token && lines[..|rows|] == rows;
    InPrefix(lines, |rows|, taken - 1);
    InPrefix(lines, taken - 1, |rows|);
  }

  const TAIL_LINES := 40

  /** What `_StderrTail` keeps: neither the marker nor mysqldump's other comment lines. */
  function Kept(lines: seq<string>, marker: string): seq<string> {
    if lines == [] then []
    else
      var before, line := Kept(lines[..|lines| - 1], marker), lines[|lines| - 1];
      if StartsWith(line, marker) || StartsWith(line, "-- ") then before else before + [line]
  }

  /** Line by line: the dump's own marker and comments go, everything else stays in order. */
  lemma {:induction false} KeptIs(front: seq<string>, line: string, rest: seq<string>, marker: string)
    ensures Kept(front + [line] + rest, marker)
      == Kept(front, marker) + (if marker <= line || "-- " <= line then [] else [line]) + Kept(rest, marker)
    decreases |rest|
  {
    if rest == [] {
      assert (front + [line] + [])[..|front|] == front && front + [line] + [] == front + [line];
    } else {
      var most := rest[..|rest| - 1];
      KeptIs(front, line, most, marker);
      assert (front + [line] + rest)[..|front + [line] + rest| - 1] == front + [line] + most;
    }
  }

  function Last(lines: seq<string>, n: nat): seq<string> { if |lines| <= n then lines else lines[|lines| - n..] }

  /** `_StderrTail._drain`: the marker is noticed wherever it comes, and only the last lines are held. */
  method Drain(lines: seq<string>, marker: string) returns (tail: seq<string>, seen: bool)
    ensures seen <==> exists i :: 0 <= i < |lines| && StartsWith(lines[i], marker)
    ensures tail == Last(Kept(lines, marker), 40)
  {
    tail, seen := [], false;
    for n := 0 to |lines|
      invariant seen <==> exists i :: 0 <= i < n && StartsWith(lines[i], marker)
      invariant tail == Last(Kept(lines[..n], marker), TAIL_LINES)
    {
      assert lines[..n + 1][..n] == lines[..n];
      if StartsWith(lines[n], marker) {
        seen := true;
      } else if !StartsWith(lines[n], "-- ") {
        tail := Last(tail + [lines[n]], TAIL_LINES);
      }
    }
    assert lines[..|lines|] == lines;
  }
}
