/**
 The store half of db/provision/rewrite_media_links.py: scan, refuse, back up,
 rewrite in one transaction, and put everything back.
 */
module LinkStore {
  import opened LinkRewrite

  datatype Kind = Text | Json
  datatype Column = Column(table: string, name: string, kind: Kind)
  type Key = seq<string>
  datatype Cell = Cell(table: string, column: string, key: Key)
  datatype Row = Row(key: Key, value: string)
  datatype Change = Change(cell: Cell, before: string, after: string)
  datatype Problem = JsonHolds(col: Column) | NoPrimaryKey(col: Column)

  /** A database: `rows` lists each keyed table's keys in scan order, `cells` holds the
      non-null values of keyed tables, `loose` the non-null values of the others. */
  datatype Database = Database(
    columns: seq<Column>,
    rows: map<string, seq<Key>>,
    cells: map<Cell, string>,
    loose: map<(string, string), seq<string>>)

  datatype Failure = Blocked(problems: seq<Problem>) | BackupExists | NoBackup | NotABackup
                   | WriteFailed | Conflict(at: seq<Cell>)
  datatype Result<T> = Ok(value: T) | Err(error: Failure)

  /** What goes wrong in one run: nothing, the backup write, or update number `at`
      (the commit itself when `at` is the number of updates). */
  datatype Fault = NoFault | BackupWrite | Update(at: nat)

  datatype Backup = Backup(valid: bool, entries: seq<Change>)

  predicate Keyed(db: Database, table: string) { table in db.rows }

  function KeyedRows(db: Database, col: Column, keys: seq<Key>): seq<Row> {
    if keys == [] then []
    else
      var cell := Cell(col.table, col.name, keys[0]);
      (if cell in db.cells then [Row(keys[0], db.cells[cell])] else []) + KeyedRows(db, col, keys[1..])
  }

  function LooseRows(values: seq<string>): seq<Row> {
    seq(|values|, i requires 0 <= i < |values| => Row([], values[i]))
  }

  /** `store.rows(...)`: the non-null values of one column, with their keys. */
  function RowsOf(db: Database, col: Column): seq<Row> {
    if Keyed(db, col.table) then KeyedRows(db, col, db.rows[col.table])
    else if (col.table, col.name) in db.loose then LooseRows(db.loose[(col.table, col.name)])
    else []
  }

  predicate Holds(db: Database, col: Column, links: LinkMap) {
    exists r | r in RowsOf(db, col) :: HasOld(r.value, links)
  }

  function ProblemAt(db: Database, col: Column, links: LinkMap): seq<Problem> {
    if !Holds(db, col, links) then []
    else if col.kind == Json then [JsonHolds(col)]
    else if !Keyed(db, col.table) then [NoPrimaryKey(col)]
    else []
  }

  function BlockersOf(db: Database, cols: seq<Column>, links: LinkMap): seq<Problem> {
    if cols == [] then [] else BlockersOf(db, cols[..|cols| - 1], links) + ProblemAt(db, cols[|cols| - 1], links)
  }

  function RemainingIn(db: Database, cols: seq<Column>, links: LinkMap): seq<Column> {
    if cols == [] then []
    else RemainingIn(db, cols[..|cols| - 1], links)
         + (if Holds(db, cols[|cols| - 1], links) then [cols[|cols| - 1]] else [])
  }

  function ChangesIn(rows: seq<Row>, col: Column, links: LinkMap): seq<Change>
    requires Accepted(links)
  {
    if rows == [] then []
    else
      var last := rows[|rows| - 1];
      var after := RewriteValue(last.value, links);
      ChangesIn(rows[..|rows| - 1], col, links)
      + (if after != last.value then [Change(Cell(col.table, col.name, last.key), last.value, after)] else [])
  }

  function PlanOf(db: Database, cols: seq<Column>, links: LinkMap): seq<Change>
    requires Accepted(links)
  {
    if cols == [] then []
    else
      var col := cols[|cols| - 1];
      PlanOf(db, cols[..|cols| - 1], links)
      + (if col.kind == Text && Keyed(db, col.table) then ChangesIn(RowsOf(db, col), col, links) else [])
  }

  function UpdateCell(cells: map<Cell, string>, cell: Cell, value: string): map<Cell, string> {
    if cell in cells then cells[cell := value] else cells
  }

  function ApplyAll(cells: map<Cell, string>, changes: seq<Change>): map<Cell, string> {
    if changes == [] then cells
    else
      var last := changes[|changes| - 1];
      UpdateCell(ApplyAll(cells, changes[..|changes| - 1]), last.cell, last.after)
  }

  function RestoreAll(cells: map<Cell, string>, changes: seq<Change>): map<Cell, string> {
    if changes == [] then cells
    else
      var last := changes[|changes| - 1];
      UpdateCell(RestoreAll(cells, changes[..|changes| - 1]), last.cell, last.before)
  }

  predicate HoldsAfter(cells: map<Cell, string>, c: Change) { c.cell in cells && cells[c.cell] == c.after }
  predicate HoldsBefore(cells: map<Cell, string>, c: Change) { c.cell in cells && cells[c.cell] == c.before }

  function Todo(cells: map<Cell, string>, entries: seq<Change>): seq<Change> {
    if entries == [] then []
    else
      var last := entries[|entries| - 1];
      Todo(cells, entries[..|entries| - 1])
      + (if !HoldsBefore(cells, last) && HoldsAfter(cells, last) then [last] else [])
  }

  function Conflicts(cells: map<Cell, string>, entries: seq<Change>): seq<Cell> {
    if entries == [] then []
    else
      var last := entries[|entries| - 1];
      Conflicts(cells, entries[..|entries| - 1])
      + (if !HoldsBefore(cells, last) && !HoldsAfter(cells, last) then [last.cell] else [])
  }

  /* What a plan is. */

  /** A planned change records the stored value and its rewriting, and they differ. */
  predicate Faithful(c: Change, cells: map<Cell, string>, links: LinkMap)
    requires Accepted(links)
  {
    c.cell in cells && c.before == cells[c.cell] && c.after == RewriteValue(c.before, links) && c.after != c.before
  }

  lemma {:induction false} KeyedRowsAre(db: Database, col: Column, keys: seq<Key>)
    ensures forall r :: r in KeyedRows(db, col, keys) <==>
      var cell := Cell(col.table, col.name, r.key); r.key in keys && cell in db.cells && db.cells[cell] == r.value
  {
    if keys != [] {
      KeyedRowsAre(db, col, keys[1..]);
      assert keys == [keys[0]] + keys[1..];
    }
  }

  lemma {:induction false} ChangesAre(rows: seq<Row>, col: Column, links: LinkMap)
    requires Accepted(links)
    ensures forall c :: c in ChangesIn(rows, col, links) <==>
      && c.cell.table == col.table && c.cell.column == col.name
      && Row(c.cell.key, c.before) in rows
      && c.after == RewriteValue(c.before, links) && c.after != c.before
  {
    if rows != [] {
      ChangesAre(rows[..|rows| - 1], col, links);
      assert rows == rows[..|rows| - 1] + [rows[|rows| - 1]];
    }
  }

  predicate Targets(col: Column, cell: Cell) {
    col.kind == Text && col.table == cell.table && col.name == cell.column
  }

  predicate TargetedBy(cols: seq<Column>, cell: Cell) {
    exists col | col in cols :: Targets(col, cell)
  }

  lemma TargetedLast(front: seq<Column>, last: Column, cell: Cell)
    ensures TargetedBy(front + [last], cell) <==> TargetedBy(front, cell) || Targets(last, cell)
  {
    if TargetedBy(front, cell) {
      var col :| col in front && Targets(col, cell);
      assert col in front + [last];
    }
    assert last in front + [last];
  }

  predicate Addressed(db: Database, cell: Cell) {
    Keyed(db, cell.table) && cell.key in db.rows[cell.table]
  }

  lemma ColumnPlanIsExact(db: Database, col: Column, links: LinkMap, c: Change)
    requires Accepted(links) && col.kind == Text && Keyed(db, col.table)
    ensures c in ChangesIn(RowsOf(db, col), col, links) <==>
      Targets(col, c.cell) && Addressed(db, c.cell) && Faithful(c, db.cells, links)
  {
    ChangesAre(RowsOf(db, col), col, links);
    KeyedRowsAre(db, col, db.rows[col.table]);
  }

  /** The plan holds exactly the stored text values that rewriting would change. */
  lemma {:induction false} PlanIsExact(db: Database, cols: seq<Column>, links: LinkMap, c: Change)
    requires Accepted(links)
    ensures c in PlanOf(db, cols, links) <==>
      TargetedBy(cols, c.cell) && Addressed(db, c.cell) && Faithful(c, db.cells, links)
  {
    if cols != [] {
      var front, col := cols[..|cols| - 1], cols[|cols| - 1];
      PlanIsExact(db, front, links, c);
      if col.kind == Text && Keyed(db, col.table) {
        ColumnPlanIsExact(db, col, links, c);
      }
      TargetedLast(front, col, c.cell);
      assert cols == front + [col];
    }
  }

  predicate AllFaithful(changes: seq<Change>, cells: map<Cell, string>, links: LinkMap)
    requires Accepted(links)
  {
    forall c | c in changes :: Faithful(c, cells, links)
  }

  predicate Touched(changes: seq<Change>, cell: Cell) {
    exists c | c in changes :: c.cell == cell
  }

  lemma TouchedLast(front: seq<Change>, last: Change, cell: Cell)
    ensures Touched(front + [last], cell) <==> Touched(front, cell) || cell == last.cell
  {
    if Touched(front, cell) {
      var c :| c in front && c.cell == cell;
      assert c in front + [last];
    }
    assert last in front + [last];
  }

  function AppliedAt(cells: map<Cell, string>, changes: seq<Change>, links: LinkMap, x: Cell): string
    requires Accepted(links) && x in cells
  {
    if Touched(changes, x) then RewriteValue(cells[x], links) else cells[x]
  }

  lemma {:induction false} AppliedCells(cells: map<Cell, string>, changes: seq<Change>, links: LinkMap)
    requires Accepted(links) && AllFaithful(changes, cells, links)
    ensures var out := ApplyAll(cells, changes);
      out.Keys == cells.Keys && forall x | x in cells :: out[x] == AppliedAt(cells, changes, links, x)
  {
    if changes != [] {
      var front, last := changes[..|changes| - 1], changes[|changes| - 1];
      assert changes == front + [last] && last in changes;
      assert forall c | c in front :: c in changes;
      AppliedCells(cells, front, links);
      forall x | x in cells ensures ApplyAll(cells, changes)[x] == AppliedAt(cells, changes, links, x) {
        TouchedLast(front, last, x);
      }
    }
  }

  lemma {:induction false} AppliedEntriesAreTodo(cells: map<Cell, string>, changes: seq<Change>, entries: seq<Change>)
    requires forall e | e in entries :: HoldsAfter(cells, e) && e.before != e.after
    ensures Todo(cells, entries) == entries && Conflicts(cells, entries) == []
  {
    if entries != [] {
      var front, last := entries[..|entries| - 1], entries[|entries| - 1];
      assert entries == front + [last] && last in entries;
      assert forall e | e in front :: e in entries;
      AppliedEntriesAreTodo(cells, changes, front);
    }
  }

  function RestoredAt(cells: map<Cell, string>, original: map<Cell, string>, entries: seq<Change>, x: Cell): string
    requires x in cells && x in original
  {
    if Touched(entries, x) then original[x] else cells[x]
  }

  lemma {:induction false} RestoredCells(cells: map<Cell, string>, original: map<Cell, string>, entries: seq<Change>)
    requires cells.Keys == original.Keys
    requires forall e | e in entries :: HoldsBefore(original, e)
    ensures var out := RestoreAll(cells, entries);
      out.Keys == original.Keys && forall x | x in original :: out[x] == RestoredAt(cells, original, entries, x)
  {
    if entries != [] {
      var front, last := entries[..|entries| - 1], entries[|entries| - 1];
      assert entries == front + [last] && last in entries;
      assert forall e | e in front :: e in entries;
      RestoredCells(cells, original, front);
      forall x | x in original
        ensures RestoreAll(cells, entries)[x] == RestoredAt(cells, original, entries, x)
      {
        TouchedLast(front, last, x);
      }
    }
  }

  /** Undoing a rewrite: every entry is found changed, none conflicts, and the original cells come back. */
  lemma ReverseInvertsApply(db: Database, links: LinkMap)
    requires Accepted(links)
    ensures var changes := PlanOf(db, db.columns, links);
      var cells := ApplyAll(db.cells, changes);
      && Todo(cells, changes) == changes && Conflicts(cells, changes) == []
      && RestoreAll(cells, changes) == db.cells
      && Todo(db.cells, changes) == [] && Conflicts(db.cells, changes) == []
  {
    var changes := PlanOf(db, db.columns, links);
    var cells := ApplyAll(db.cells, changes);
    forall c | c in changes ensures Faithful(c, db.cells, links) { PlanIsExact(db, db.columns, links, c); }
    AppliedCells(db.cells, changes, links);
    forall e | e in changes ensures HoldsAfter(cells, e) { assert Touched(changes, e.cell); }
    AppliedEntriesAreTodo(cells, changes, changes);
    RestoredCells(cells, db.cells, changes);
    assert RestoreAll(cells, changes) == db.cells;
    RestoredEntriesAreDone(db.cells, changes);
  }

  lemma {:induction false} RestoredEntriesAreDone(cells: map<Cell, string>, entries: seq<Change>)
    requires forall e | e in entries :: HoldsBefore(cells, e)
    ensures Todo(cells, entries) == [] && Conflicts(cells, entries) == []
  {
    if entries != [] {
      var front, last := entries[..|entries| - 1], entries[|entries| - 1];
      assert entries == front + [last] && last in entries;
      assert forall e | e in front :: e in entries;
      RestoredEntriesAreDone(cells, front);
    }
  }

  /** A run stops for a conflict exactly when some recorded cell holds neither of its two values. */
  lemma {:induction false} ConflictIff(cells: map<Cell, string>, entries: seq<Change>)
    ensures Conflicts(cells, entries) != [] <==>
      exists e | e in entries :: !HoldsBefore(cells, e) && !HoldsAfter(cells, e)
  {
    if entries != [] {
      var front, last := entries[..|entries| - 1], entries[|entries| - 1];
      assert entries == front + [last];
      ConflictIff(cells, front);
    }
  }

  /* Completeness of an apply. */

  lemma {:induction false} BlockersAreProblems(db: Database, cols: seq<Column>, links: LinkMap)
    ensures BlockersOf(db, cols, links) == [] <==> forall col | col in cols :: ProblemAt(db, col, links) == []
  {
    if cols != [] {
      var front, last := cols[..|cols| - 1], cols[|cols| - 1];
      assert cols == front + [last];
      BlockersAreProblems(db, front, links);
      assert BlockersOf(db, cols, links) == BlockersOf(db, front, links) + ProblemAt(db, last, links);
    }
  }

  lemma BlockersIff(db: Database, cols: seq<Column>, links: LinkMap)
    ensures BlockersOf(db, cols, links) == [] <==>
      forall col | col in cols && Holds(db, col, links) :: col.kind == Text && Keyed(db, col.table)
  {
    BlockersAreProblems(db, cols, links);
  }

  lemma {:induction false} RemainingIff(db: Database, cols: seq<Column>, links: LinkMap)
    ensures RemainingIn(db, cols, links) == [] <==> forall col | col in cols :: !Holds(db, col, links)
  {
    if cols != [] {
      var front, last := cols[..|cols| - 1], cols[|cols| - 1];
      assert cols == front + [last];
      RemainingIff(db, front, links);
    }
  }

  function Applied(db: Database, links: LinkMap): Database
    requires Accepted(links)
  {
    db.(cells := ApplyAll(db.cells, PlanOf(db, db.columns, links)))
  }

  /** An apply that was not refused leaves no old link in any text or json column of any table. */
  lemma ApplyLeavesNothing(db: Database, links: LinkMap)
    requires Plain(links) && SafeLinks(links) && BlockersOf(db, db.columns, links) == []
    ensures RemainingIn(Applied(db, links), db.columns, links) == []
    ensures PlanOf(Applied(db, links), db.columns, links) == []
  {
    var after := Applied(db, links);
    BlockersIff(db, db.columns, links);
    forall col | col in db.columns ensures !Holds(after, col, links) {
      ColumnIsClear(db, links, col);
    }
    RemainingIff(after, db.columns, links);
    PlanNeedsOld(after, db.columns, links);
  }

  lemma PlanNeedsOld(db: Database, cols: seq<Column>, links: LinkMap)
    requires Accepted(links)
    ensures PlanOf(db, cols, links) != [] ==> exists col | col in cols :: Holds(db, col, links)
  {
    var changes := PlanOf(db, cols, links);
    if changes != [] {
      var c := changes[0];
      PlanIsExact(db, cols, links, c);
      var col :| col in cols && Targets(col, c.cell);
      KeyedRowsAre(db, col, db.rows[col.table]);
      assert Row(c.cell.key, c.before) in RowsOf(db, col);
      if !HasOld(c.before, links) {
        CleanValueUntouched(c.before, links);
      }
    }
  }

  lemma ColumnIsClear(db: Database, links: LinkMap, col: Column)
    requires Plain(links) && SafeLinks(links) && col in db.columns
    requires Holds(db, col, links) ==> col.kind == Text && Keyed(db, col.table)
    ensures !Holds(Applied(db, links), col, links)
  {
    var after := Applied(db, links);
    forall r | r in RowsOf(after, col) ensures !HasOld(r.value, links) {
      if Keyed(db, col.table) {
        RowIsClear(db, links, col, r);
      }
    }
  }

  lemma PlannedCells(db: Database, links: LinkMap, cell: Cell)
    requires Accepted(links)
    ensures var changes := PlanOf(db, db.columns, links);
      && (cell in Applied(db, links).cells <==> cell in db.cells)
      && (cell in db.cells ==> Applied(db, links).cells[cell] == AppliedAt(db.cells, changes, links, cell))
  {
    var changes := PlanOf(db, db.columns, links);
    forall c | c in changes ensures Faithful(c, db.cells, links) { PlanIsExact(db, db.columns, links, c); }
    AppliedCells(db.cells, changes, links);
  }

  lemma RowIsClear(db: Database, links: LinkMap, col: Column, r: Row)
    requires Plain(links) && SafeLinks(links) && col in db.columns && Keyed(db, col.table)
    requires Holds(db, col, links) ==> col.kind == Text
    requires r in RowsOf(Applied(db, links), col)
    ensures !HasOld(r.value, links)
  {
    var cell := Cell(col.table, col.name, r.key);
    KeyedRowsAre(db, col, db.rows[col.table]);
    KeyedRowsAre(Applied(db, links), col, db.rows[col.table]);
    PlannedCells(db, links, cell);
    var was := db.cells[cell];
    SafeLinksClear(was, links);
    if HasOld(was, links) {
      assert Row(r.key, was) in RowsOf(db, col) && Targets(col, cell);
      PlanIsExact(db, db.columns, links, Change(cell, was, RewriteValue(was, links)));
    }
  }

  /* The two commands, over a store and its backup file. */

  class Store {
    var db: Database
    var backup: map<string, Backup>

    method Blockers(links: LinkMap) returns (problems: seq<Problem>)
      ensures problems == BlockersOf(db, db.columns, links)
    {
      problems := [];
      for i := 0 to |db.columns|
        invariant problems == BlockersOf(db, db.columns[..i], links)
      {
        assert db.columns[..i + 1][..i] == db.columns[..i];
        problems := problems + ProblemAt(db, db.columns[i], links);
      }
      assert db.columns[..|db.columns|] == db.columns;
    }

    method Plan(links: LinkMap) returns (changes: seq<Change>)
      requires Accepted(links)
      ensures changes == PlanOf(db, db.columns, links)
    {
      changes := [];
      for i := 0 to |db.columns|
        invariant changes == PlanOf(db, db.columns[..i], links)
      {
        var col := db.columns[i];
        assert db.columns[..i + 1][..i] == db.columns[..i];
        if col.kind == Text && Keyed(db, col.table) {
          var found := PlanColumn(col, links);
          changes := changes + found;
        }
      }
      assert db.columns[..|db.columns|] == db.columns;
    }

    method PlanColumn(col: Column, links: LinkMap) returns (found: seq<Change>)
      requires Accepted(links)
      ensures found == ChangesIn(RowsOf(db, col), col, links)
    {
      var rows := RowsOf(db, col);
      found := [];
      for j := 0 to |rows|
        invariant found == ChangesIn(rows[..j], col, links)
      {
        assert rows[..j + 1][..j] == rows[..j];
        var after := RewriteValue(rows[j].value, links);
        if after != rows[j].value {
          found := found + [Change(Cell(col.table, col.name, rows[j].key), rows[j].value, after)];
        }
      }
      assert rows[..|rows|] == rows;
    }

    method Remaining(links: LinkMap) returns (left: seq<Column>)
      ensures left == RemainingIn(db, db.columns, links)
    {
      left := [];
      for i := 0 to |db.columns|
        invariant left == RemainingIn(db, db.columns[..i], links)
      {
        assert db.columns[..i + 1][..i] == db.columns[..i];
        if Holds(db, db.columns[i], links) {
          left := left + [db.columns[i]];
        }
      }
      assert db.columns[..|db.columns|] == db.columns;
    }

    /** One transaction: every update, or none. */
    method Transaction(changes: seq<Change>, restore: bool, fault: Fault) returns (ok: bool)
      modifies this`db
      ensures ok <==> !(fault.Update? && fault.at <= |changes|)
      ensures db == if !ok then old(db)
                    else old(db).(cells := if restore then RestoreAll(old(db).cells, changes)
                                           else ApplyAll(old(db).cells, changes))
    {
      var before := db;
      for i := 0 to |changes|
        invariant !(fault.Update? && fault.at < i)
        invariant db == before.(cells := if restore then RestoreAll(before.cells, changes[..i])
                                         else ApplyAll(before.cells, changes[..i]))
      {
        if fault == Update(i) {
          db := before;
          return false;
        }
        assert changes[..i + 1][..i] == changes[..i];
        var value := if restore then changes[i].before else changes[i].after;
        db := db.(cells := UpdateCell(db.cells, changes[i].cell, value));
      }
      assert changes[..|changes|] == changes;
      if fault == Update(|changes|) {
        db := before;
        return false;
      }
      return true;
    }

    method Apply(links: LinkMap, path: string, fault: Fault) returns (r: Result<seq<Change>>)
      requires Accepted(links)
      modifies this
      ensures r.Err? ==> db == old(db) && backup == old(backup)
      ensures r.Ok? ==> BlockersOf(old(db), old(db).columns, links) == []
      ensures r.Ok? ==> r.value == PlanOf(old(db), old(db).columns, links) && db == Applied(old(db), links)
      ensures r.Ok? ==> backup == if r.value == [] then old(backup) else old(backup)[path := Backup(true, r.value)]
      ensures r.Ok? && r.value != [] ==> path !in old(backup)
      ensures fault == NoFault && BlockersOf(old(db), old(db).columns, links) == [] && path !in old(backup) ==> r.Ok?
      ensures BlockersOf(old(db), old(db).columns, links) != [] ==>
        r == Err(Blocked(BlockersOf(old(db), old(db).columns, links)))
      ensures (BlockersOf(old(db), old(db).columns, links) == [] && PlanOf(old(db), old(db).columns, links) != []
               && path in old(backup)) ==> r == Err(BackupExists)
    {
      var problems := Blockers(links);
      if problems != [] {
        return Err(Blocked(problems));
      }
      var changes := Plan(links);
      if changes == [] {
        assert db == Applied(db, links);
        return Ok([]);
      }
      if path in backup {
        return Err(BackupExists);
      }
      var ok := BackUpAndUpdate(changes, path, fault);
      return if ok then Ok(changes) else Err(WriteFailed);
    }

    /** Writes the backup, then the changes; a failure in either takes the backup away again. */
    method BackUpAndUpdate(changes: seq<Change>, path: string, fault: Fault) returns (ok: bool)
      requires path !in backup
      modifies this
      ensures !ok ==> db == old(db) && backup == old(backup)
      ensures ok ==>
        && db == old(db).(cells := ApplyAll(old(db).cells, changes))
        && backup == old(backup)[path := Backup(true, changes)]
      ensures fault == NoFault ==> ok
    {
      backup := backup[path := Backup(false, [])];
      if fault == BackupWrite {
        backup := backup - {path};
        return false;
      }
      backup := backup[path := Backup(true, changes)];
      ok := Transaction(changes, false, fault);
      if !ok {
        backup := backup - {path};
      }
    }

    method Reverse(path: string, fault: Fault) returns (r: Result<nat>)
      modifies this`db
      ensures r.Err? ==> db == old(db)
      ensures r.Ok? ==> path in backup && backup[path].valid
      ensures r.Ok? ==>
        var todo := Todo(old(db).cells, backup[path].entries);
        r.value == |todo| && db == old(db).(cells := RestoreAll(old(db).cells, todo))
      ensures path in backup && backup[path].valid && Conflicts(old(db).cells, backup[path].entries) != [] ==>
        r == Err(Conflict(Conflicts(old(db).cells, backup[path].entries)))
      ensures (path in backup && backup[path].valid && !fault.Update?
               && Conflicts(old(db).cells, backup[path].entries) == []) ==> r.Ok?
    {
      if path !in backup {
        return Err(NoBackup);
      }
      if !backup[path].valid {
        return Err(NotABackup);
      }
      var entries := backup[path].entries;
      var todo: seq<Change>, conflicts: seq<Cell> := [], [];
      for i := 0 to |entries|
        invariant todo == Todo(db.cells, entries[..i]) && conflicts == Conflicts(db.cells, entries[..i])
      {
        assert entries[..i + 1][..i] == entries[..i];
        if HoldsBefore(db.cells, entries[i]) {
        } else if HoldsAfter(db.cells, entries[i]) {
          todo := todo + [entries[i]];
        } else {
          conflicts := conflicts + [entries[i].cell];
        }
      }
      assert entries[..|entries|] == entries;
      if conflicts != [] {
        return Err(Conflict(conflicts));
      }
      if todo != [] {
        var ok := Transaction(todo, true, fault);
        if !ok {
          return Err(WriteFailed);
        }
      }
      return Ok(|todo|);
    }

    /** A rewrite, its undo, and the undo again: the second undo finds nothing to do. */
    method ApplyThenReverseTwice(links: LinkMap, path: string) returns (applied: Result<seq<Change>>)
      requires Accepted(links) && path !in backup
      modifies this
      ensures db == old(db)
      ensures applied.Ok? <==> BlockersOf(old(db), old(db).columns, links) == []
    {
      applied := Apply(links, path, NoFault);
      if applied.Ok? && applied.value != [] {
        ReverseInvertsApply(old(db), links);
        var first := Reverse(path, NoFault);
        assert first == Ok(|applied.value|) && db == old(db);
        var second := Reverse(path, NoFault);
        assert second == Ok(0);
      }
    }
  }
}
