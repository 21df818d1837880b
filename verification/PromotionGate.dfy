/** The cutover gate: db/provision/promotion_gate.py. */
module PromotionGate {
  import opened BinlogNames
  import opened Options
  import opened Strings

  type Row = map<string, string>

  datatype Decision = Promote | Wait | Abandon

  datatype Reason =
    | UnusableInput | NotOneChannel | MissingFields | OtherSource | SqlError | SqlStopped | IoStopped
    | OtherLog | Past | Behind | IoUnhealthy | Caught | BadLimit | Unreadable | TimedOut

  datatype Verdict = Verdict(decision: Decision, why: Reason)

  datatype Frozen = Frozen(uuid: string, file: string, position: int)
  datatype Coordinates = Coordinates(base: string, sequence: int, position: int)

  predicate Hex(c: char) { '0' <= c <= '9' || 'a' <= c <= 'f' }

  predicate UuidShape(s: string) {
    |s| == 36 && forall i | 0 <= i < 36 :: if i in {8, 13, 18, 23} then s[i] == '-' else Hex(s[i])
  }

  /** `binlog_coordinates`. */
  function BinlogCoordinates(file: string, position: int): Option<Coordinates> {
    var id := ParseLogName(file);
    if id.None? || '/' in file then None else Some(Coordinates(id.value.base, id.value.number, position))
  }

  const FIRST_EVENT := 4

  /** `validate_frozen`. */
  function ValidateFrozen(f: Frozen): Option<Coordinates> {
    if !UuidShape(LowerAll(f.uuid)) || f.position < FIRST_EVENT then None else BinlogCoordinates(f.file, f.position)
  }

  /** `_as_int`. */
  function AsInt(row: Row, key: string): Option<nat>
    requires key in row
  {
    if row[key] == "" || !AllDigits(row[key]) then None else Some(FromDecimal(row[key]))
  }

  /** Python's order on `(sequence, position)`. */
  predicate Less(a: Coordinates, b: Coordinates) {
    a.sequence < b.sequence || (a.sequence == b.sequence && a.position < b.position)
  }

  predicate HasFields(row: Row) {
    && "Source_UUID" in row && "Replica_IO_Running" in row && "Replica_SQL_Running" in row
    && "Last_IO_Errno" in row && "Last_SQL_Errno" in row && "Last_SQL_Error" in row
    && "Relay_Source_Log_File" in row && "Exec_Source_Log_Pos" in row
  }

  /** What one row says, read field by field. */
  datatype Reading = Reading(
    uuid: string, sqlRunning: string, sqlErrno: Option<nat>, ioRunning: string, ioErrno: Option<nat>,
    executed: Option<Coordinates>)

  function ReadRow(row: Row): Reading
    requires HasFields(row)
  {
    var position := AsInt(row, "Exec_Source_Log_Pos");
    Reading(row["Source_UUID"], row["Replica_SQL_Running"], AsInt(row, "Last_SQL_Errno"),
            row["Replica_IO_Running"], AsInt(row, "Last_IO_Errno"),
            if position.None? then None else BinlogCoordinates(row["Relay_Source_Log_File"], position.value))
  }

  /** `_evaluate_row` once the fields are known to be there. */
  function Judge(f: Frozen, target: Coordinates, r: Reading): Verdict {
    if LowerAll(r.uuid) != LowerAll(f.uuid) then Verdict(Abandon, OtherSource)
    else if r.sqlErrno.None? then Verdict(Abandon, UnusableInput)
    else if r.sqlErrno.value != 0 then Verdict(Abandon, SqlError)
    else if r.sqlRunning != "Yes" then Verdict(Abandon, SqlStopped)
    else if r.ioErrno.None? then Verdict(Abandon, UnusableInput)
    else if r.ioRunning != "Yes" && r.ioRunning != "Connecting" then Verdict(Abandon, IoStopped)
    else if r.executed.None? then Verdict(Abandon, UnusableInput)
    else if r.executed.value.base != target.base then Verdict(Abandon, OtherLog)
    else if Less(target, r.executed.value) then Verdict(Abandon, Past)
    else if Less(r.executed.value, target) then Verdict(Wait, Behind)
    else if r.ioRunning != "Yes" || r.ioErrno.value != 0 then Verdict(Wait, IoUnhealthy)
    else Verdict(Promote, Caught)
  }

  /** `evaluate`. */
  function Evaluate(f: Frozen, rows: seq<Row>): Verdict {
    var target := ValidateFrozen(f);
    if target.None? then Verdict(Abandon, UnusableInput)
    else if |rows| != 1 then Verdict(Abandon, NotOneChannel)
    else if !HasFields(rows[0]) then Verdict(Abandon, MissingFields)
    else Judge(f, target.value, ReadRow(rows[0]))
  }

  /* The source and a replica that applies its log in order. */

  /** The source's log: `marks[k]` is where it stands after `k` events, and every event moves it on. */
  predicate SourceLog(marks: seq<Coordinates>) {
    && marks != []
    && (forall i | 0 <= i < |marks| :: marks[i].base == marks[0].base)
    && forall i, j | 0 <= i < j < |marks| :: Less(marks[i], marks[j])
  }

  /** A replica of the frozen source, applying without error and receiving without error. */
  predicate Following(f: Frozen, r: Reading) {
    LowerAll(r.uuid) == LowerAll(f.uuid) && r.sqlErrno == Some(0) && r.sqlRunning == "Yes"
    && r.ioErrno.Some? && (r.ioRunning == "Yes" || r.ioRunning == "Connecting")
  }

  predicate Receiving(r: Reading) { r.ioRunning == "Yes" && r.ioErrno == Some(0) }

  /** The one reading that allows a promotion: the replica follows the frozen source, both threads
      are well, and of the source's log it has applied exactly what came before the freeze. */
  lemma PromotesExactlyTheFrozenPrefix(f: Frozen, r: Reading, marks: seq<Coordinates>, frozen: nat, applied: nat)
    requires SourceLog(marks) && frozen < |marks| && applied < |marks|
    requires ValidateFrozen(f) == Some(marks[frozen]) && r.executed == Some(marks[applied])
    ensures Judge(f, marks[frozen], r).decision == Promote <==> Following(f, r) && Receiving(r) && applied == frozen
    ensures Judge(f, marks[frozen], r).decision == Wait
      <==> Following(f, r) && (applied < frozen || (applied == frozen && !Receiving(r)))
    ensures applied > frozen ==> Judge(f, marks[frozen], r).decision == Abandon
  {
  }

  /** What a whole reading must be for the gate to promote, whatever the status says otherwise. */
  lemma PromoteNeeds(f: Frozen, rows: seq<Row>)
    ensures Evaluate(f, rows).decision == Promote <==>
      && ValidateFrozen(f).Some? && |rows| == 1 && HasFields(rows[0])
      && Following(f, ReadRow(rows[0])) && Receiving(ReadRow(rows[0]))
      && ReadRow(rows[0]).executed == ValidateFrozen(f)
  {
  }

  /* The gate in plain terms: which texts lead to which answer. */

  /** Thirty-six characters: hexadecimal digits of either case, with the four dashes of a uuid. */
  predicate UuidText(s: string) {
    && |s| == 36 && s[8] == '-' && s[13] == '-' && s[18] == '-' && s[23] == '-'
    && forall i | 0 <= i < 36 && i != 8 && i != 13 && i != 18 && i != 23 ::
         '0' <= s[i] <= '9' || 'a' <= s[i] <= 'f' || 'A' <= s[i] <= 'F'
  }

  /** The file of a log of that base and number, not a path. */
  ghost predicate LogFileOf(file: string, base: string, n: nat) { '/' !in file && NamesLog(file, base, n) }

  lemma CoordinatesIff(file: string, position: int, c: Coordinates)
    ensures BinlogCoordinates(file, position) == Some(c)
      <==> c.position == position && c.sequence >= 0 && LogFileOf(file, c.base, c.sequence)
  {
    if c.sequence >= 0 {
      ParseLogNameIff(file, c.base, c.sequence);
    }
  }

  /** Frozen coordinates are usable exactly when the uuid is one, the position is past the magic and the file is
      a log's. */
  lemma FrozenUsableIff(f: Frozen, c: Coordinates)
    ensures ValidateFrozen(f) == Some(c) <==>
      && UuidText(f.uuid) && f.position >= 4
      && c.position == f.position && c.sequence >= 0 && LogFileOf(f.file, c.base, c.sequence)
  {
    CoordinatesIff(f.file, f.position, c);
    assert UuidShape(LowerAll(f.uuid)) <==> UuidText(f.uuid) by {
      UuidLower(f.uuid);
    }
  }

  lemma UuidLower(s: string)
    ensures UuidShape(LowerAll(s)) <==> UuidText(s)
  {
    if |s| == 36 {
      var low := LowerAll(s);
      assert forall i | 0 <= i < 36 :: low[i] == Lower(s[i]);
      if UuidShape(low) {
        assert low[8] == '-' && low[13] == '-' && low[18] == '-' && low[23] == '-';
      }
    }
  }

  predicate AllNamed(row: Row, keys: seq<string>) { forall k | k in keys :: k in row }

  const REQUIRED_FIELDS := [
    "Source_UUID", "Replica_IO_Running", "Replica_SQL_Running", "Last_IO_Errno", "Last_SQL_Errno",
    "Last_SQL_Error", "Relay_Source_Log_File", "Exec_Source_Log_Pos"]

  lemma FieldsIff(row: Row)
    ensures HasFields(row) <==> AllNamed(row, REQUIRED_FIELDS)
  {
    var r := REQUIRED_FIELDS;
    if AllNamed(row, r) {
      assert r[0] in row && r[1] in row && r[2] in row && r[3] in row;
      assert r[4] in row && r[5] in row && r[6] in row && r[7] in row;
    }
  }

  /** The row is about the frozen source, and its applier is well. */
  predicate FollowsIn(f: Frozen, row: Row)
    requires AllNamed(row, REQUIRED_FIELDS)
  {
    FieldsIff(row);
    && LowerAll(row["Source_UUID"]) == LowerAll(f.uuid)
    && row["Replica_SQL_Running"] == "Yes" && NumeralOf(row["Last_SQL_Errno"], 0)
  }

  predicate ReceivesIn(row: Row)
    requires AllNamed(row, REQUIRED_FIELDS)
  {
    FieldsIff(row);
    row["Replica_IO_Running"] == "Yes" && NumeralOf(row["Last_IO_Errno"], 0)
  }

  /** The receiver is not stopped for good, whatever its last error. */
  ghost predicate ReceiverMayReturn(row: Row)
    requires AllNamed(row, REQUIRED_FIELDS)
  {
    FieldsIff(row);
    (row["Replica_IO_Running"] == "Yes" || row["Replica_IO_Running"] == "Connecting")
    && exists e: nat :: NumeralOf(row["Last_IO_Errno"], e)
  }

  /** The row names that log and that place in it as what has been applied. */
  ghost predicate AppliedIn(row: Row, base: string, n: nat, position: nat)
    requires AllNamed(row, REQUIRED_FIELDS)
  {
    FieldsIff(row);
    LogFileOf(row["Relay_Source_Log_File"], base, n) && NumeralOf(row["Exec_Source_Log_Pos"], position)
  }

  lemma IntIff(row: Row, key: string, n: nat)
    requires key in row
    ensures AsInt(row, key) == Some(n) <==> NumeralOf(row[key], n)
    ensures AsInt(row, key).Some? <==> exists e: nat :: NumeralOf(row[key], e)
  {
    if AsInt(row, key).Some? {
      assert NumeralOf(row[key], AsInt(row, key).value);
    }
  }

  lemma ExecutedIff(row: Row, c: Coordinates)
    requires AllNamed(row, REQUIRED_FIELDS) && HasFields(row)
    ensures ReadRow(row).executed == Some(c) <==>
      c.position >= 0 && c.sequence >= 0 && AppliedIn(row, c.base, c.sequence, c.position)
  {
    var position := AsInt(row, "Exec_Source_Log_Pos");
    if position.Some? {
      IntIff(row, "Exec_Source_Log_Pos", position.value);
      CoordinatesIff(row["Relay_Source_Log_File"], position.value, c);
    }
    if c.position >= 0 {
      IntIff(row, "Exec_Source_Log_Pos", c.position);
    }
  }

  /** The gate promotes exactly when there is one row, about the frozen source, both threads are well in it, and
      what it has applied is the frozen log and position. */
  lemma PromotesIff(f: Frozen, rows: seq<Row>, c: Coordinates)
    requires ValidateFrozen(f) == Some(c)
    ensures Evaluate(f, rows).decision == Promote <==>
      && |rows| == 1 && AllNamed(rows[0], REQUIRED_FIELDS)
      && FollowsIn(f, rows[0]) && ReceivesIn(rows[0]) && AppliedIn(rows[0], c.base, c.sequence, c.position)
  {
    FrozenUsableIff(f, c);
    PromoteNeeds(f, rows);
    if |rows| == 1 && HasFields(rows[0]) {
      RowReads(f, rows[0]);
      ExecutedIff(rows[0], c);
    }
    if |rows| == 1 {
      FieldsIff(rows[0]);
    }
  }

  lemma RowReads(f: Frozen, row: Row)
    requires HasFields(row) && AllNamed(row, REQUIRED_FIELDS)
    ensures RowReadsAs(f, row)
  {
    IntIff(row, "Last_SQL_Errno", 0);
    IntIff(row, "Last_IO_Errno", 0);
  }

  /** It waits exactly when the applier is well and behind in the frozen log's own series, or has just reached the
      frozen place while the receiver is not well but may return. */
  lemma WaitsIff(f: Frozen, rows: seq<Row>, c: Coordinates)
    requires ValidateFrozen(f) == Some(c)
    ensures Evaluate(f, rows).decision == Wait <==>
      && |rows| == 1 && AllNamed(rows[0], REQUIRED_FIELDS)
      && FollowsIn(f, rows[0]) && ReceiverMayReturn(rows[0])
      && exists n: nat, position: nat :: AppliedIn(rows[0], c.base, n, position)
           && (n < c.sequence || (n == c.sequence && position < c.position)
               || (n == c.sequence && position == c.position && !ReceivesIn(rows[0])))
  {
    FrozenUsableIff(f, c);
    if |rows| == 1 {
      FieldsIff(rows[0]);
      if HasFields(rows[0]) {
        RowReads(f, rows[0]);
        WaitsOnRow(f, rows[0], c);
      }
    }
  }

  lemma WaitsOnRow(f: Frozen, row: Row, c: Coordinates)
    requires HasFields(row) && AllNamed(row, REQUIRED_FIELDS) && ValidateFrozen(f) == Some(c)
    requires RowReadsAs(f, row)
    ensures Judge(f, c, ReadRow(row)).decision == Wait <==>
      && FollowsIn(f, row) && ReceiverMayReturn(row)
      && exists n: nat, position: nat :: AppliedIn(row, c.base, n, position)
           && (n < c.sequence || (n == c.sequence && position < c.position)
               || (n == c.sequence && position == c.position && !ReceivesIn(row)))
  {
    var r := ReadRow(row);
    if r.executed.Some? {
      ExecutedIff(row, r.executed.value);
    }
    forall n: nat, position: nat | AppliedIn(row, c.base, n, position)
      ensures r.executed == Some(Coordinates(c.base, n, position))
    {
      ExecutedIff(row, Coordinates(c.base, n, position));
    }
  }

  ghost predicate RowReadsAs(f: Frozen, row: Row)
    requires HasFields(row) && AllNamed(row, REQUIRED_FIELDS)
  {
    var r := ReadRow(row);
    && (FollowsIn(f, row) <==> LowerAll(r.uuid) == LowerAll(f.uuid) && r.sqlErrno == Some(0) && r.sqlRunning == "Yes")
    && (ReceivesIn(row) <==> Receiving(r))
    && (ReceiverMayReturn(row) <==> r.ioErrno.Some? && (r.ioRunning == "Yes" || r.ioRunning == "Connecting"))
  }

  /** With unusable frozen coordinates it never promotes and never waits. */
  lemma UnusableNeverPromotes(f: Frozen, rows: seq<Row>)
    requires !UuidText(f.uuid) || f.position < 4 || forall base, n: nat :: !LogFileOf(f.file, base, n)
    ensures Evaluate(f, rows) == Verdict(Abandon, UnusableInput)
  {
    forall c ensures ValidateFrozen(f) != Some(c) {
      FrozenUsableIff(f, c);
    }
    NoneHeld(ValidateFrozen(f));
  }

  lemma NoneHeld(x: Option<Coordinates>)
    requires forall c :: x != Some(c)
    ensures x.None?
  {
    match x
    case None =>
    case Some(c) =>
  }

  /** The gate reads the name mysqld gives log number `n` as that number. */
  lemma LogNameCoordinates(base: string, n: nat, position: int)
    requires base != "" && '/' !in base
    ensures BinlogCoordinates(LogName(base, n), position) == Some(Coordinates(base + ".", n, position))
  {
    LogNameParses(base, n);
    NumeralIs(n);
  }

  /* Waiting. */

  const MAX_WAIT := 600_000

  /** What one call to the status reader gives. */
  datatype Status = Rows(rows: seq<Row>) | Failed

  type Judging = seq<Row> -> Verdict

  function JudgeFor(f: Frozen): Judging { (rows: seq<Row>) => Evaluate(f, rows) }

  predicate Waits(judge: Judging, s: Status) { s.Rows? && judge(s.rows).decision == Wait }

  predicate UsableLimit(ms: int) { 0 < ms <= MAX_WAIT }

  function Ceiling(a: int, b: int): int
    requires b > 0
  {
    (a + b - 1) / b
  }

  /** Reading `k` said to wait, and there was time left after it. */
  predicate WaitedOn(judge: Judging, timeout: int, status: nat -> Status, clock: nat -> int, k: nat) {
    Waits(judge, status(k)) && clock(k + 1) < clock(0) + timeout
  }

  /** The clock moved on by at least the poll interval between calls `k` and `k + 1`. */
  predicate SleptAfter(clock: nat -> int, poll: int, k: nat) { clock(k) + poll <= clock(k + 1) }

  ghost predicate Advances(clock: nat -> int, poll: int) {
    clock(0) <= clock(1) && forall k: nat | k >= 1 :: SleptAfter(clock, poll, k)
  }

  /** How a wait that began at `clock(0)` ends after `readings` readings. */
  predicate Ends(judge: Judging, timeout: int, status: nat -> Status, clock: nat -> int, v: Verdict, readings: nat) {
    && readings >= 1
    && (forall k | 0 <= k < readings - 1 :: WaitedOn(judge, timeout, status, clock, k))
    && (if Waits(judge, status(readings - 1))
        then v == Verdict(Abandon, TimedOut) && clock(readings) >= clock(0) + timeout
        else if status(readings - 1).Failed? then v == Verdict(Abandon, Unreadable)
        else v == judge(status(readings - 1).rows))
  }

  /** The polling loop. */
  method PollUntil(judge: Judging, timeout: int, poll: int, status: nat -> Status, clock: nat -> int)
    returns (v: Verdict, readings: nat)
    requires UsableLimit(timeout) && UsableLimit(poll)
    requires Advances(clock, poll)
    ensures v.decision != Wait && readings <= Ceiling(timeout, poll) + 1
    ensures Ends(judge, timeout, status, clock, v, readings)
  {
    var deadline := clock(0) + timeout;
    readings := 0;
    ghost var bound := Ceiling(timeout, poll);
    while true
      invariant 0 <= readings <= bound
      invariant forall k | 0 <= k < readings :: WaitedOn(judge, timeout, status, clock, k)
      decreases bound - readings
    {
      var s := status(readings);
      if s.Failed? {
        return Verdict(Abandon, Unreadable), readings + 1;
      }
      v := judge(s.rows);
      if v.decision != Wait {
        return v, readings + 1;
      }
      if clock(readings + 1) >= deadline {
        return Verdict(Abandon, TimedOut), readings + 1;
      }
      WaitedInTime(clock, timeout, poll, readings);
      assert WaitedOn(judge, timeout, status, clock, readings);
      readings := readings + 1;
    }
  }

  lemma WaitedInTime(clock: nat -> int, timeout: int, poll: int, k: nat)
    requires poll > 0 && Advances(clock, poll)
    requires clock(k + 1) < clock(0) + timeout
    ensures k < Ceiling(timeout, poll)
  {
    ClockAt(clock, poll, k + 1);
    FewerThanCeiling(timeout, poll, k);
  }

  /** `wait_for_promotion`, in milliseconds: reading `k` is `status(k)`, clock call `k` gives `clock(k)`,
      and each sleep moves the clock on by at least the poll interval. */
  method WaitForPromotion(f: Frozen, timeout: int, poll: int, status: nat -> Status, clock: nat -> int)
    returns (v: Verdict, readings: nat)
    requires Advances(clock, poll)
    ensures v.decision != Wait
    ensures !(0 < timeout <= 600_000) || !(0 < poll <= 600_000) ==> v == Verdict(Abandon, BadLimit) && readings == 0
    ensures 0 < timeout <= 600_000 && 0 < poll <= 600_000 ==>
      readings <= Ceiling(timeout, poll) + 1 && Ends(JudgeFor(f), timeout, status, clock, v, readings)
  {
    if !UsableLimit(timeout) || !UsableLimit(poll) {
      return Verdict(Abandon, BadLimit), 0;
    }
    v, readings := PollUntil(JudgeFor(f), timeout, poll, status, clock);
  }

  /** How a wait ends: every reading but the last said to wait, in time; the last one gives the verdict, unless it
      says to wait and the time is up, or cannot be had. */
  lemma WaitedInTurn(f: Frozen, timeout: int, status: nat -> Status, clock: nat -> int, v: Verdict, readings: nat)
    requires Ends(JudgeFor(f), timeout, status, clock, v, readings)
    ensures forall k | 0 <= k < readings - 1 :: status(k).Rows? && Evaluate(f, status(k).rows).decision == Wait
    ensures forall k | 1 <= k < readings :: clock(k) < clock(0) + timeout
    ensures match status(readings - 1)
            case Failed => v == Verdict(Abandon, Unreadable)
            case Rows(rows) =>
              if Evaluate(f, rows).decision == Wait
              then v == Verdict(Abandon, TimedOut) && clock(readings) >= clock(0) + timeout
              else v == Evaluate(f, rows)
  {
    forall k | 0 <= k < readings - 1
      ensures status(k).Rows? && Evaluate(f, status(k).rows).decision == Wait
    {
      assert WaitedOn(JudgeFor(f), timeout, status, clock, k);
    }
    forall k | 1 <= k < readings ensures clock(k) < clock(0) + timeout {
      assert WaitedOn(JudgeFor(f), timeout, status, clock, k - 1);
    }
  }

  /** All but the last two readings' sleeps fit into the timeout. */
  lemma ReadingsFit(timeout: int, poll: int, readings: nat)
    requires timeout > 0 && poll > 0 && readings <= Ceiling(timeout, poll) + 1
    ensures (readings - 2) * poll < timeout
  {
    var c := Ceiling(timeout, poll);
    assert c * poll <= timeout + poll - 1;
    assert (c - 1) * poll == c * poll - poll;
    TimesGrows(readings - 2, c - 1, poll);
  }

  lemma {:induction false} ClockAt(clock: nat -> int, poll: int, k: nat)
    requires Advances(clock, poll) && k >= 1
    ensures clock(k) >= clock(0) + (k - 1) * poll
  {
    if k > 1 {
      ClockAt(clock, poll, k - 1);
      assert SleptAfter(clock, poll, k - 1);
    }
  }

  lemma TimesGrows(a: int, b: int, p: int)
    requires p > 0
    ensures a <= b ==> a * p <= b * p
  {
    if a <= b {
      assert (b - a) * p >= 0;
    }
  }

  lemma FewerThanCeiling(timeout: int, poll: int, k: nat)
    requires poll > 0 && k * poll < timeout
    ensures k < Ceiling(timeout, poll)
  {
    assert Ceiling(timeout, poll) * poll >= timeout;
    TimesGrows(Ceiling(timeout, poll), k, poll);
  }

  /** A promotion is granted on the last reading only, every earlier one having been a wait, and on
      that reading the replica has applied exactly the frozen prefix of the source's log. */
  lemma WaitedPromotionIsSafe(f: Frozen, timeout: int, status: nat -> Status, clock: nat -> int, readings: nat,
                              v: Verdict, marks: seq<Coordinates>, frozen: nat, applied: nat -> nat)
    requires SourceLog(marks) && frozen < |marks| && ValidateFrozen(f) == Some(marks[frozen])
    requires Ends(JudgeFor(f), timeout, status, clock, v, readings) && v.decision == Promote
    requires forall k | 0 <= k < readings :: Reports(status(k), marks, applied(k))
    ensures applied(readings - 1) == frozen
    ensures forall k | 0 <= k < readings - 1 ::
      status(k).Rows? && Evaluate(f, status(k).rows).decision == Wait && applied(k) <= frozen
  {
    forall k | 0 <= k < readings - 1 ensures Waits(JudgeFor(f), status(k)) && applied(k) <= frozen {
      assert WaitedOn(JudgeFor(f), timeout, status, clock, k);
      ReportedIsRead(status(k), marks, applied(k));
      PromotesExactlyTheFrozenPrefix(f, ReadRow(status(k).rows[0]), marks, frozen, applied(k));
    }
    var last := status(readings - 1);
    PromoteNeeds(f, last.rows);
    ReportedIsRead(last, marks, applied(readings - 1));
    PromotesExactlyTheFrozenPrefix(f, ReadRow(last.rows[0]), marks, frozen, applied(readings - 1));
  }

  /** The status of a replica that has applied the first `applied` events, if it shows a position at all. */
  ghost predicate Reports(s: Status, marks: seq<Coordinates>, applied: nat) {
    applied < |marks|
    && (s.Rows? && |s.rows| == 1 && AllNamed(s.rows[0], REQUIRED_FIELDS) ==>
          forall base, n: nat, position: nat | AppliedIn(s.rows[0], base, n, position) ::
            marks[applied] == Coordinates(base, n, position))
  }

  lemma ReportedIsRead(s: Status, marks: seq<Coordinates>, applied: nat)
    requires Reports(s, marks, applied)
    requires s.Rows? && |s.rows| == 1 && HasFields(s.rows[0]) && ReadRow(s.rows[0]).executed.Some?
    ensures ReadRow(s.rows[0]).executed == Some(marks[applied])
  {
    FieldsIff(s.rows[0]);
    ExecutedIff(s.rows[0], ReadRow(s.rows[0]).executed.value);
  }
}
