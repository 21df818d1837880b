/** Point-in-time replay: the coordinates comment a dump carries (db/provision/bounded_snapshot.py)
    and the log files a replay accepts (db/provision/extract_tenant_binlog.py). */
module ExtractBinlog {
  import opened BinlogNames
  import opened Options
  import opened Sorting
  import opened Strings

  datatype ResumePoint = ResumePoint(logFile: string, position: nat)

  // ---- the comment -------------------------------------------------------

  const DASHES := "--"
  const CHANGE := "CHANGE MASTER TO MASTER_LOG_FILE='"
  const COMMA := ","
  const POSITION := "MASTER_LOG_POS="
  const SEMICOLON := ";"

  predicate AllSpace(s: string) { forall c | c in s :: IsSpace(c) }

  /** `MASTER_LOG_POS=(\d+);\s*$`. */
  function ParseNumber(s: string): Option<nat> {
    var digits := After(s, POSITION);
    if digits.None? then None
    else
      var k := Run(digits.value, DigitTest());
      var end := After(digits.value[k..], SEMICOLON);
      if k == 0 || end.None? || !AllSpace(end.value) then None
      else Some(FromDecimal(digits.value[..k]))
  }

  /** `,\s*MASTER_LOG_POS=(\d+);\s*$`. */
  function ParsePosition(s: string): Option<nat> {
    var number := After(s, COMMA);
    if number.None? then None else ParseNumber(TrimLeft(number.value))
  }

  /** `([^']+)'` and then the position. */
  function ParseCoordinates(s: string): Option<ResumePoint> {
    var q := Find(s, "'");
    if q < 1 then None
    else
      var position := ParsePosition(s[q + 1..]);
      if position.None? then None else Some(ResumePoint(s[..q], position.value))
  }

  /** `_match_resume_comment`. */
  function ParseComment(line: string): Option<ResumePoint> {
    var change := After(line, DASHES);
    if change.None? then None
    else
      var coordinates := After(TrimLeft(change.value), CHANGE);
      if coordinates.None? then None else ParseCoordinates(coordinates.value)
  }

  function PositionText(position: nat): string { COMMA + (" " + (POSITION + (ToDecimal(position) + SEMICOLON))) }

  /** `coordinates_comment`, without its line break. */
  function CommentLine(p: ResumePoint): string {
    DASHES + (" " + (CHANGE + (p.logFile + ("'" + PositionText(p.position)))))
  }

  lemma TrimBlank(s: string)
    requires s == "" || !IsSpace(s[0])
    ensures TrimLeft(" " + s) == s
  {
    assert (" " + s)[1..] == s;
  }

  lemma NumberReads(position: nat)
    ensures ParseNumber(POSITION + (ToDecimal(position) + SEMICOLON)) == Some(position)
  {
    var digits := ToDecimal(position);
    DecimalRoundTrip(position);
    AfterHead(POSITION, digits + SEMICOLON);
    RunAll(digits, SEMICOLON, DigitTest());
  }

  lemma PositionReads(position: nat)
    ensures ParsePosition(PositionText(position)) == Some(position)
  {
    var number := POSITION + (ToDecimal(position) + SEMICOLON);
    NumberReads(position);
    AfterHead(COMMA, " " + number);
    TrimBlank(number);
  }

  lemma {:induction false} TrimmedChars(s: string)
    ensures forall c | c in s :: IsSpace(c) || c in TrimLeft(s)
  {
    if s != "" && IsSpace(s[0]) {
      TrimmedChars(s[1..]);
      assert s == [s[0]] + s[1..];
    }
  }

  lemma CharsOf(s: string, k: nat, c: char)
    requires k <= |s| && c in s
    ensures c in s[..k] || c in s[k..]
  {
    assert s == s[..k] + s[k..];
  }

  /** Nothing the position part may hold is a quote. */
  lemma NumberHasNoQuote(s: string)
    ensures ParseNumber(s).Some? ==> '\'' !in s
  {
    if ParseNumber(s).Some? && '\'' in s {
      var digits := s[|POSITION|..];
      CharsOf(s, |POSITION|, '\'');
      assert s[..|POSITION|] == POSITION;
      var k := Run(digits, DigitTest());
      CharsOf(digits, k, '\'');
      CharsOf(digits[k..], 1, '\'');
    }
  }

  lemma PositionHasNoQuote(s: string)
    ensures ParsePosition(s).Some? ==> '\'' !in s
  {
    if ParsePosition(s).Some? && '\'' in s {
      CharsOf(s, 1, '\'');
      TrimmedChars(s[1..]);
      NumberHasNoQuote(TrimLeft(s[1..]));
    }
  }

  lemma QuotedFileReads(file: string, tail: string, s: string)
    requires s == file + ("'" + tail) && '\'' !in file
    ensures Find(s, "'") == |file| && s[..|file|] == file && s[|file| + 1..] == tail
  {
    var q := Find(s, "'");
    assert s[|file|] == '\'';
    QuoteAtOrBefore(s, |file|, q);
    FindChar(s, '\'');
    FileBeforeQuote(file, "'" + tail, q);
  }

  lemma QuoteRemains(file: string, tail: string, s: string)
    requires s == file + ("'" + tail) && '\'' in file
    ensures 0 <= Find(s, "'") < |s| && '\'' in s[Find(s, "'") + 1..]
  {
    var i :| 0 <= i < |file| && file[i] == '\'';
    var q := Find(s, "'");
    assert s[i] == '\'';
    QuoteAtOrBefore(s, i, q);
    assert s[|file|] == '\'' && s[q + 1..][|file| - q - 1] == s[|file|];
  }

  lemma CoordinatesRead(file: string, tail: string, position: nat)
    requires ParsePosition(tail) == Some(position)
    ensures ParseCoordinates(file + ("'" + tail))
      == if file != "" && '\'' !in file then Some(ResumePoint(file, position)) else None
  {
    var s := file + ("'" + tail);
    if '\'' in file {
      QuoteRemains(file, tail, s);
      PositionHasNoQuote(s[Find(s, "'") + 1..]);
    } else {
      QuotedFileReads(file, tail, s);
    }
  }

  lemma FileBeforeQuote(file: string, rest: string, q: int)
    requires '\'' !in file && 0 <= q < |file + rest| && (file + rest)[q] == '\''
    ensures |file| <= q
  {
    InPrefix(file + rest, q, |file|);
    assert (file + rest)[..|file|] == file;
  }

  lemma QuoteAtOrBefore(s: string, i: nat, q: int)
    requires i < |s| && s[i] == '\'' && q == Find(s, "'")
    ensures 0 <= q <= i
  {
    FindChar(s, '\'');
    InPrefix(s, i, q);
  }

  /** The comment a snapshot writes is read back as its own coordinates, exactly when the file's name can be quoted. */
  lemma CommentRoundTrip(p: ResumePoint)
    ensures ParseComment(CommentLine(p)) == if p.logFile != "" && '\'' !in p.logFile then Some(p) else None
  {
    var coordinates := p.logFile + ("'" + PositionText(p.position));
    AfterHead(DASHES, " " + (CHANGE + coordinates));
    TrimBlank(CHANGE + coordinates);
    AfterHead(CHANGE, coordinates);
    PositionReads(p.position);
    CoordinatesRead(p.logFile, PositionText(p.position), p.position);
  }

  // ---- the scan of a dump -------------------------------------------------

  datatype Found = Found(point: ResumePoint) | NoComment | NotDeclared

  /** Python's `line.rstrip("\n")`. */
  function StripBreaks(line: string): string {
    if line != "" && line[|line| - 1] == '\n' then StripBreaks(line[..|line| - 1]) else line
  }

  predicate WordChar(c: char) { IsDigit(c) || 'a' <= c <= 'z' || 'A' <= c <= 'Z' || c == '_' }

  lemma WordCharIs(c: char)
    ensures WordChar(c) <==> c in DIGITS || c in SMALL || c in CAPITAL || c == '_'
  {
    RangesAre(c);
  }

  /** `_declares_database`. */
  predicate Declares(line: string, database: string) {
    var name := "`" + database + "`";
    var create, use := After(line, "CREATE DATABASE"), After(line, "USE " + name + ";");
    || (create.Some? && create.value != "" && !WordChar(create.value[0]) && Occurs(create.value, name))
    || (use.Some? && AllSpace(use.value))
  }

  /** The two lines mysqldump opens a database with; `before` is its version comment, `after` the rest. */
  function UseLine(database: string): string { "USE `" + database + "`;" }

  function CreateLine(before: string, database: string, after: string): string {
    "CREATE DATABASE" + (before + ("`" + (database + ("`" + after))))
  }

  lemma BackquotesApart(a: string, b: string, rest: string, other: string)
    requires '`' !in a && '`' !in b && a + ("`" + rest) == b + ("`" + other)
    ensures a == b && rest == other
  {
    var s := a + ("`" + rest);
    assert s[|a|] == '`' && s[|b|] == '`';
    assert forall i | 0 <= i < |a| :: s[i] == a[i];
    assert forall i | 0 <= i < |b| :: s[i] == b[i];
    assert |a| == |b|;
    assert s[..|a|] == a && s[..|b|] == b && s[|a| + 1..] == rest && s[|b| + 1..] == other;
  }

  /** A USE line declares its own database and no other. */
  lemma UseDeclaresIff(named: string, database: string)
    requires '`' !in named && '`' !in database
    ensures Declares(UseLine(named), database) <==> named == database
  {
    var line, wanted := UseLine(named), "USE `" + database + "`;";
    assert line[0] == 'U' && "CREATE DATABASE"[0] == 'C';
    assert After(line, "CREATE DATABASE").None?;
    assert "USE " + ("`" + database + "`") + ";" == wanted;
    if named == database {
      AfterHead(wanted, "");
      assert wanted + "" == line;
    }
    if wanted <= line {
      var rest := line[|wanted|..];
      assert line == wanted + rest && line[5..] == named + ("`" + ";") && line[5..] == database + ("`" + (";" + rest));
      BackquotesApart(named, database, ";", ";" + rest);
    }
  }

  /** A CREATE line declares its own database and no other. */
  lemma CreateDeclaresIff(before: string, named: string, after: string, database: string)
    requires before != "" && !WordChar(before[0])
    requires '`' !in before && '`' !in named && '`' !in after && '`' !in database
    ensures Declares(CreateLine(before, named, after), database) <==> named == database
  {
    var rest := before + ("`" + (named + ("`" + after)));
    var line := CreateLine(before, named, after);
    AfterHead("CREATE DATABASE", rest);
    assert line[0] == 'C' && ("USE " + ("`" + database + "`") + ";")[0] == 'U';
    QuotedNameIn(before, named, after, database, rest);
  }

  /** Between the only two quotes of a text stands the only name it quotes. */
  lemma QuotedNameIn(before: string, named: string, after: string, database: string, text: string)
    requires text == before + ("`" + (named + ("`" + after)))
    requires '`' !in before && '`' !in named && '`' !in after && '`' !in database
    ensures Occurs(text, "`" + database + "`") <==> named == database
  {
    var quoted := "`" + database + "`";
    var first, second := |before|, |before| + 1 + |named|;
    assert text[first] == '`' && text[second] == '`';
    assert text[0..first] == before && text[first + 1..second] == named && text[second + 1..|text|] == after;
    forall i | 0 <= i < |text| && text[i] == '`' ensures i == first || i == second {
      InSlice(text, i, 0, first);
      InSlice(text, i, first + 1, second);
      InSlice(text, i, second + 1, |text|);
    }
    if named == database {
      assert text[first..first + |quoted|] == quoted;
      OccursIntro(text, quoted, first);
    }
    if i :| 0 <= i <= |text| && OccursAt(text, quoted, i) {
      OccursChars(text, quoted, i);
      assert text[i + 0] == quoted[0] && text[i + (|quoted| - 1)] == quoted[|quoted| - 1];
      assert text[i..i + |quoted|] == quoted && quoted[1..|quoted| - 1] == database;
      assert i == first && i + |quoted| - 1 == second;
      SliceOfSlice(text, i, i + |quoted|, 1, |quoted| - 1);
      assert text[first + 1..second] == named;
    }
  }

  function CommentIn(line: string): Option<ResumePoint> { ParseComment(StripBreaks(line)) }

  /** Line `i` carries the first resume comment of the dump, naming `p`. */
  predicate FirstComment(lines: seq<string>, i: nat, p: ResumePoint) {
    i < |lines| && CommentIn(lines[i]) == Some(p) && forall j | 0 <= j < i :: CommentIn(lines[j]).None?
  }

  predicate DeclaredBy(line: string, database: string) { Declares(StripBreaks(line), database) }

  predicate DeclaredIn(lines: seq<string>, database: string) {
    exists i | 0 <= i < |lines| :: DeclaredBy(lines[i], database)
  }

  method FindResumePoint(lines: seq<string>, database: string) returns (r: Found)
    ensures r.NoComment? <==> forall i | 0 <= i < |lines| :: CommentIn(lines[i]).None?
    ensures r.NotDeclared? <==> !r.NoComment? && !DeclaredIn(lines, database)
    ensures r.Found? ==> exists i :: FirstComment(lines, i, r.point)
  {
    var point: Option<ResumePoint> := None;
    var declared := false;
    ghost var at := 0;
    for n := 0 to |lines|
      invariant point.None? ==> forall i | 0 <= i < n :: CommentIn(lines[i]).None?
      invariant point.Some? ==> at < n && FirstComment(lines, at, point.value)
      invariant declared <==> DeclaredIn(lines[..n], database)
    {
      if point.None? {
        point := CommentIn(lines[n]);
        at := n;
      }
      DeclaredStep(lines, n, database);
      if !declared && DeclaredBy(lines[n], database) {
        declared := true;
      }
    }
    assert lines[..|lines|] == lines;
    return if point.None? then NoComment else if !declared then NotDeclared else Found.Found(point.value);
  }

  lemma DeclaredStep(lines: seq<string>, n: nat, database: string)
    requires n < |lines|
    ensures DeclaredIn(lines[..n + 1], database)
      <==> DeclaredIn(lines[..n], database) || DeclaredBy(lines[n], database)
  {
    var front, all := lines[..n], lines[..n + 1];
    assert all == front + [lines[n]];
    if DeclaredIn(front, database) {
      var i :| 0 <= i < n && DeclaredBy(front[i], database);
      assert all[i] == front[i];
    }
    if DeclaredBy(lines[n], database) {
      assert all[n] == lines[n];
    }
    if DeclaredIn(all, database) {
      var i :| 0 <= i < n + 1 && Declares(StripBreaks(all[i]), database);
      assert i < n ==> front[i] == all[i];
    }
  }

  /** A dump that opens with a snapshot's comment resumes at that snapshot's coordinates,
      whatever the rest of the dump says. */
  lemma OwnCommentFound(p: ResumePoint, body: seq<string>)
    requires p.logFile != "" && '\'' !in p.logFile
    ensures FirstComment([CommentLine(p) + "\n"] + body, 0, p)
    ensures forall i, q :: FirstComment([CommentLine(p) + "\n"] + body, i, q) ==> q == p
  {
    CommentRoundTrip(p);
    StripOwnBreak(CommentLine(p));
  }

  lemma StripOwnBreak(line: string)
    requires line != "" && line[|line| - 1] == ';'
    ensures StripBreaks(line + "\n") == line
  {
    assert (line + "\n")[..|line|] == line;
  }

  // ---- the log files ------------------------------------------------------

  /** A path with what `_binlog_sequence` reads from its file name. */
  datatype LogFile = LogFile(path: string, base: string, number: nat)
  datatype Reading = Files(files: seq<LogFile>) | BadPath(path: string)

  datatype Refusal = NotABinlog(path: string) | OtherBase(path: string) | Gap(path: string) | ResumeNotFound
  datatype Replay = Accepted(files: seq<LogFile>) | Rejected(why: Refusal)

  /** `path.rsplit("/", 1)[-1]`. */
  function BaseName(path: string): string {
    if path == "" || path[|path| - 1] == '/' then "" else BaseName(path[..|path| - 1]) + [path[|path| - 1]]
  }

  function ReadPath(path: string): Option<LogFile> {
    var id := ParseLogName(BaseName(path));
    if id.None? then None else Some(LogFile(path, id.value.base, id.value.number))
  }

  /** The sort key of every path, or the first path that has none. */
  function ReadAll(paths: seq<string>, read: string -> Option<LogFile>): Reading {
    if paths == [] then Files([])
    else
      var front, last := ReadAll(paths[..|paths| - 1], read), read(paths[|paths| - 1]);
      if front.BadPath? then front
      else if last.None? then BadPath(paths[|paths| - 1])
      else Files(front.files + [last.value])
  }

  predicate SameReading(paths: seq<string>, files: seq<LogFile>, read: string -> Option<LogFile>) {
    |files| == |paths| && forall i | 0 <= i < |paths| :: read(paths[i]) == Some(files[i])
  }

  lemma {:induction false} ReadAllIs(paths: seq<string>, read: string -> Option<LogFile>)
    ensures ReadAll(paths, read).Files? <==> forall p | p in paths :: read(p).Some?
    ensures ReadAll(paths, read).Files? ==> SameReading(paths, ReadAll(paths, read).files, read)
  {
    if paths != [] {
      var front := paths[..|paths| - 1];
      ReadAllIs(front, read);
      assert paths == front + [paths[|paths| - 1]];
    }
  }

  /** Python's order on the `(base, number)` keys. */
  predicate FileLe(a: LogFile, b: LogFile) {
    NameLe(a.base, b.base) && (a.base == b.base ==> a.number <= b.number)
  }

  predicate Follows(a: LogFile, b: LogFile) { b.base == a.base && b.number == a.number + 1 }

  /** Every file follows the one before it: one base name, numbers going up by one. */
  predicate Chain(files: seq<LogFile>) {
    forall i | 0 < i < |files| :: Follows(files[i - 1], files[i])
  }

  /** The first break in the chain, if there is one. */
  function ChainError(files: seq<LogFile>, from: nat): (error: Option<Refusal>)
    decreases |files| - from
  {
    if from + 1 >= |files| then None
    else
      var a, b := files[from], files[from + 1];
      if b.base != a.base then Some(OtherBase(b.path))
      else if b.number != a.number + 1 then Some(Gap(b.path))
      else ChainError(files, from + 1)
  }

  lemma {:induction false} ChainErrorIff(files: seq<LogFile>, from: nat)
    ensures ChainError(files, from).None? <==> forall i | from < i < |files| :: Follows(files[i - 1], files[i])
    decreases |files| - from
  {
    if from + 1 < |files| {
      ChainErrorIff(files, from + 1);
      assert Follows(files[from + 1 - 1], files[from + 1]) <==> Follows(files[from], files[from + 1]);
    }
  }

  /** `assert_contiguous`: the error it raises, if any. */
  method AssertContiguous(files: seq<LogFile>) returns (error: Option<Refusal>)
    ensures error == ChainError(files, 0)
    ensures error.None? <==> Chain(files)
  {
    ChainErrorIff(files, 0);
    if |files| < 2 {
      return None;
    }
    var prev := files[0];
    var n := 1;
    while n < |files|
      invariant 1 <= n <= |files| && prev == files[n - 1]
      invariant ChainError(files, 0) == ChainError(files, n - 1)
    {
      if files[n].base != prev.base {
        return Some(OtherBase(files[n].path));
      }
      if files[n].number != prev.number + 1 {
        return Some(Gap(files[n].path));
      }
      prev := files[n];
      n := n + 1;
    }
    return None;
  }

  function FirstEnding(files: seq<LogFile>, logFile: string): (r: Option<nat>)
    ensures r.None? ==> forall f | f in files :: !EndsWith(f.path, logFile)
    ensures r.Some? ==> r.value < |files| && EndsWith(files[r.value].path, logFile)
    ensures r.Some? ==> forall i | 0 <= i < r.value :: !EndsWith(files[i].path, logFile)
  {
    if files == [] then None
    else if EndsWith(files[0].path, logFile) then Some(0)
    else
      var later := FirstEnding(files[1..], logFile);
      assert files == [files[0]] + files[1..];
      if later.None? then None else Some(later.value + 1)
  }

  /** What `_replay_from_resume_point` does with the keyed files: sort, check, find, slice. */
  function PlanOf(files: seq<LogFile>, logFile: string): Replay {
    var sorted := StableSort(files, FileLe);
    var error := ChainError(sorted, 0);
    if error.Some? then Rejected(error.value)
    else
      var resume := FirstEnding(sorted, logFile);
      if resume.None? then Rejected(ResumeNotFound) else Accepted(sorted[resume.value..])
  }

  function ReplayWith(paths: seq<string>, logFile: string, read: string -> Option<LogFile>): Replay {
    var files := ReadAll(paths, read);
    if files.BadPath? then Rejected(NotABinlog(files.path)) else PlanOf(files.files, logFile)
  }

  /** The files handed to mysqlbinlog, in order, or the refusal. */
  function ReplayPlan(paths: seq<string>, logFile: string): Replay { ReplayWith(paths, logFile, ReadPath) }

  predicate HasNumber(files: seq<LogFile>, n: int) { exists f | f in files :: f.number == n }

  /** The files make one unbroken run, whatever order they are given in: one base name,
      no file twice, no number twice, and no number missing between two that are there. */
  predicate OneRun(files: seq<LogFile>) {
    && (forall f | f in files :: multiset(files)[f] == 1)
    && (forall f, g | f in files && g in files :: f.base == g.base && (f.number == g.number ==> f == g))
    && (forall f, g, n | f in files && g in files && f.number <= n <= g.number :: HasNumber(files, n))
  }

  lemma FileOrder()
    ensures TotalPreorder(FileLe)
  {
    forall a, b ensures FileLe(a, b) || FileLe(b, a) {
      NamesCompare(a.base, b.base);
    }
    forall a, b, c ensures FileLe(a, b) && FileLe(b, c) ==> FileLe(a, c) {
      if FileLe(a, b) && FileLe(b, c) {
        NamesCompare(a.base, b.base);
        NamesCompare(b.base, c.base);
        NamesTransitive(a.base, b.base, c.base);
      }
    }
  }

  lemma SortedFacts(files: seq<LogFile>)
    ensures var s := StableSort(files, FileLe);
      SortedBy(s, FileLe) && multiset(s) == multiset(files) && forall f :: f in s <==> f in files
  {
    FileOrder();
    SortSorts(files, FileLe);
    SortMembers(files, FileLe);
    SortContains(files, FileLe);
  }

  lemma {:induction false} ChainNumbers(s: seq<LogFile>, i: nat)
    requires Chain(s) && i < |s|
    ensures s[i].base == s[0].base && s[i].number == s[0].number + i
  {
    if i > 0 {
      ChainNumbers(s, i - 1);
      assert Follows(s[i - 1], s[i]);
    }
  }

  lemma ChainIsOneRun(s: seq<LogFile>)
    requires Chain(s)
    ensures OneRun(s)
  {
    forall i | 0 <= i < |s| ensures s[i].base == s[0].base && s[i].number == s[0].number + i {
      ChainNumbers(s, i);
    }
    DistinctByCount(s);
    forall f, g, n | f in s && g in s && f.number <= n <= g.number ensures HasNumber(s, n) {
      assert s[n - s[0].number].number == n;
    }
  }

  lemma RunIsChain(s: seq<LogFile>)
    requires SortedBy(s, FileLe) && OneRun(s)
    ensures Chain(s)
  {
    DistinctByCount(s);
    forall i | 0 < i < |s| ensures Follows(s[i - 1], s[i]) {
      assert s[i - 1] in s && s[i] in s && FileLe(s[i - 1], s[i]);
      NothingBetween(s, i, s[i - 1].number + 1);
    }
  }

  lemma NumbersSorted(s: seq<LogFile>, i: nat, j: nat)
    requires SortedBy(s, FileLe) && OneRun(s) && i <= j < |s|
    ensures s[i].number <= s[j].number
  {
    assert s[i] in s && s[j] in s;
    if i < j {
      assert FileLe(s[i], s[j]);
    }
  }

  lemma NothingBetween(s: seq<LogFile>, i: nat, n: int)
    requires SortedBy(s, FileLe) && OneRun(s) && 0 < i < |s|
    ensures s[i - 1].number < n <= s[i].number ==> n == s[i].number
  {
    assert s[i - 1] in s && s[i] in s;
    if s[i - 1].number < n <= s[i].number {
      assert HasNumber(s, n);
      var f :| f in s && f.number == n;
      var k :| 0 <= k < |s| && s[k] == f;
      if k < i {
        NumbersSorted(s, k, i - 1);
      } else {
        NumbersSorted(s, i, k);
      }
    }
  }

  lemma OneRunOfSorted(files: seq<LogFile>, s: seq<LogFile>)
    requires multiset(s) == multiset(files) && forall f :: f in s <==> f in files
    ensures OneRun(s) <==> OneRun(files)
  {
    assert forall n :: HasNumber(s, n) <==> HasNumber(files, n);
  }

  /** Exactly the lists a replay accepts: whatever their order, log files that make one
      unbroken run, the resume point's own file among them. */
  lemma PlanAcceptedIff(files: seq<LogFile>, logFile: string)
    ensures PlanOf(files, logFile).Accepted? <==> OneRun(files) && exists f | f in files :: EndsWith(f.path, logFile)
  {
    var s := StableSort(files, FileLe);
    SortedFacts(files);
    ChainErrorIff(s, 0);
    OneRunOfSorted(files, s);
    if Chain(s) {
      ChainIsOneRun(s);
    }
    if OneRun(s) {
      RunIsChain(s);
    }
  }

  /** What an accepted replay reads: from the resume point's file on, every later file given,
      each once, in the order mysqld wrote them. */
  lemma PlanAcceptedShape(files: seq<LogFile>, logFile: string)
    requires PlanOf(files, logFile).Accepted?
    ensures var read := PlanOf(files, logFile).files;
      && read != [] && EndsWith(read[0].path, logFile)
      && (forall i | 0 <= i < |read| :: read[i].number == read[0].number + i)
      && (forall f :: f in read <==> f in files && f.number >= read[0].number)
  {
    var s := StableSort(files, FileLe);
    var k := FirstEnding(s, logFile).value;
    SortedFacts(files);
    ChainErrorIff(s, 0);
    forall i | 0 <= i < |s| ensures s[i].number == s[0].number + i {
      ChainNumbers(s, i);
    }
    SuffixFromNumber(s, k);
  }

  lemma SuffixFromNumber(s: seq<LogFile>, k: nat)
    requires k < |s| && forall i | 0 <= i < |s| :: s[i].number == s[0].number + i
    ensures forall i | 0 <= i < |s[k..]| :: s[k..][i].number == s[k].number + i
    ensures forall f :: f in s[k..] <==> f in s && f.number >= s[k].number
  {
    forall f ensures f in s[k..] <==> f in s && f.number >= s[k].number {
      if f in s && f.number >= s[k].number {
        var i :| 0 <= i < |s| && s[i] == f;
        assert s[k..][i - k] == f;
      }
    }
  }

  // ---- the files mysqld wrote ---------------------------------------------

  lemma NoSlashInNumeral(base: string, n: nat)
    requires '/' !in base
    ensures '/' !in LogName(base, n)
  {
    NumeralIs(n);
  }

  lemma {:induction false} BaseNameOf(prefix: string, name: string)
    requires '/' !in name
    ensures BaseName(prefix + name) == BaseName(prefix) + name
  {
    if name == "" {
      assert prefix + name == prefix;
    } else {
      var front := name[..|name| - 1];
      assert name == front + [name[|name| - 1]];
      assert (prefix + name)[..|prefix + name| - 1] == prefix + front;
      BaseNameOf(prefix, front);
      assert BaseName(prefix) + name == BaseName(prefix) + front + [name[|name| - 1]];
    }
  }

  /** Where log number `n` was put on the recovery host. */
  function PathOf(prefix: string, base: string, n: nat): string { prefix + LogName(base, n) }

  predicate BaseWord(base: string) { base != "" && '/' !in base }

  lemma Regroup(a: string, b: string, c: string)
    ensures a + (b + "." + c) == (a + b) + "." + c
  {
  }

  lemma BaseNameOfPath(prefix: string, base: string, n: nat)
    requires BaseWord(base)
    ensures BaseName(PathOf(prefix, base, n)) == LogName(BaseName(prefix) + base, n)
    ensures PathOf(prefix, base, n) == LogName(prefix + base, n)
  {
    NoSlashInNumeral(base, n);
    BaseNameOf(prefix, LogName(base, n));
    Regroup(BaseName(prefix), base, Numeral(n));
    Regroup(prefix, base, Numeral(n));
  }

  lemma PathReads(prefix: string, base: string, n: nat)
    requires BaseWord(base)
    ensures ReadPath(PathOf(prefix, base, n))
      == Some(LogFile(PathOf(prefix, base, n), BaseName(prefix) + base + ".", n))
  {
    var name, b := BaseName(PathOf(prefix, base, n)), BaseName(prefix) + base;
    BaseNameOfPath(prefix, base, n);
    LogNameParses(b, n);
    assert ParseLogName(name) == Some(LogId(b + ".", n));
  }

  lemma EndDigits(head: string, name: string)
    requires TrailingDigits(name) < |name|
    ensures TrailingDigits(head + name) == TrailingDigits(name)
    ensures TrailingSequence(head + name) == TrailingSequence(name)
  {
    var path, k := head + name, TrailingDigits(name);
    assert forall i | |head| <= i < |path| :: path[i] == name[i - |head|];
    TrailingDigitsUnique(path, k);
    assert path[|path| - k..] == name[|name| - k..];
  }

  lemma EndsWithSplits(path: string, name: string)
    ensures EndsWith(path, name) <==> exists head :: path == head + name
  {
    if EndsWith(path, name) {
      assert path == path[..|path| - |name|] + name;
    }
  }

  lemma LogNameStops(base: string, n: nat)
    ensures TrailingDigits(LogName(base, n)) < |LogName(base, n)|
  {
    assert LogName(base, n)[|base|] == '.';
  }

  /** A resume point names one file: its path ends in that log's name, and no other log's does. */
  lemma EndsWithOwnName(prefix: string, base: string, n: nat, r: nat)
    requires BaseWord(base)
    ensures EndsWith(PathOf(prefix, base, n), LogName(base, r)) <==> n == r
  {
    var path, name := PathOf(prefix, base, n), LogName(base, r);
    EndsWithSplits(path, name);
    if EndsWith(path, name) {
      var head :| path == head + name;
      LogNameStops(base, r);
      EndDigits(head, name);
      LogNameParses(base, r);
      BaseNameOfPath(prefix, base, n);
      LogNameParses(prefix + base, n);
    }
  }

  function LogAt(prefix: string, base: string, n: nat): LogFile {
    LogFile(PathOf(prefix, base, n), BaseName(prefix) + base + ".", n)
  }

  function LogPaths(prefix: string, base: string): nat -> string { (n: nat) => PathOf(prefix, base, n) }
  function LogFiles(prefix: string, base: string): nat -> LogFile { (n: nat) => LogAt(prefix, base, n) }

  /** The files numbered `lo + 1` to `hi`, each once, in any order. */
  predicate TheLogs(paths: seq<string>, path: nat -> string, lo: nat, hi: nat) {
    && Distinct(paths)
    && (forall p | p in paths :: exists n: nat | lo < n <= hi :: p == path(n))
    && (forall n: nat | lo < n <= hi :: path(n) in paths)
  }

  predicate Numbered(files: seq<LogFile>, at: nat -> LogFile, lo: nat, hi: nat) {
    && Distinct(files)
    && (forall f | f in files :: lo < f.number <= hi && f == at(f.number))
    && (forall n: nat | lo < n <= hi :: at(n) in files)
  }

  lemma LogsRead(paths: seq<string>, read: string -> Option<LogFile>, path: nat -> string, at: nat -> LogFile, lo: nat,
                 hi: nat)
    requires TheLogs(paths, path, lo, hi)
    requires forall n: nat :: read(path(n)) == Some(at(n)) && at(n).number == n && at(n).path == path(n)
    ensures ReadAll(paths, read).Files? && Numbered(ReadAll(paths, read).files, at, lo, hi)
  {
    ReadAllIs(paths, read);
    var files := ReadAll(paths, read).files;
    forall i | 0 <= i < |files|
      ensures files[i].path == paths[i] && lo < files[i].number <= hi && files[i] == at(files[i].number)
    {
      assert paths[i] in paths;
      var n: nat :| lo < n <= hi && paths[i] == path(n);
    }
    forall n: nat | lo < n <= hi ensures at(n) in files {
      var i :| 0 <= i < |paths| && paths[i] == path(n);
      assert files[i] == at(n);
    }
  }

  lemma LogsNamed(prefix: string, base: string, r: nat)
    requires BaseWord(base)
    ensures forall n: nat :: ReadPath(LogPaths(prefix, base)(n)) == Some(LogFiles(prefix, base)(n))
    ensures forall n: nat :: EndsWith(LogFiles(prefix, base)(n).path, LogName(base, r)) <==> n == r
  {
    forall n: nat ensures ReadPath(LogPaths(prefix, base)(n)) == Some(LogFiles(prefix, base)(n))
      && (EndsWith(LogFiles(prefix, base)(n).path, LogName(base, r)) <==> n == r)
    {
      PathReads(prefix, base, n);
      EndsWithOwnName(prefix, base, n, r);
    }
  }

  /** Files `r` to `hi` of a numbering, in order. */
  function Span(at: nat -> LogFile, r: nat, hi: nat): seq<LogFile>
    requires r <= hi + 1
  {
    seq(hi - r + 1, i requires 0 <= i < hi - r + 1 => at(r + i))
  }

  /** Whatever order the logs `lo + 1` to `hi` come in, a replay from log `r` is accepted exactly
      when `r` is one of them, and it then reads logs `r` to `hi` in order. */
  lemma ReplayOfLogs(paths: seq<string>, prefix: string, base: string, lo: nat, hi: nat, r: nat)
    requires BaseWord(base) && TheLogs(paths, LogPaths(prefix, base), lo, hi)
    ensures ReplayPlan(paths, LogName(base, r))
      == if lo < r <= hi then Accepted(Span(LogFiles(prefix, base), r, hi)) else Rejected(ResumeNotFound)
  {
    LogsNamed(prefix, base, r);
    ReplayOfNamed(paths, ReadPath, LogPaths(prefix, base), LogFiles(prefix, base), lo, hi, r, LogName(base, r));
  }

  lemma ReplayOfNamed(paths: seq<string>, read: string -> Option<LogFile>, path: nat -> string, at: nat -> LogFile,
                      lo: nat, hi: nat, r: nat, name: string)
    requires TheLogs(paths, path, lo, hi)
    requires forall n: nat :: read(path(n)) == Some(at(n))
    requires forall n: nat :: at(n).number == n && at(n).path == path(n)
    requires forall n: nat, m: nat :: at(n).base == at(m).base
    requires forall n: nat :: EndsWith(at(n).path, name) <==> n == r
    ensures ReplayWith(paths, name, read)
      == if lo < r <= hi then Accepted(Span(at, r, hi)) else Rejected(ResumeNotFound)
  {
    LogsRead(paths, read, path, at, lo, hi);
    NumberedReplay(ReadAll(paths, read).files, at, lo, hi, r, name);
  }

  lemma NumberedIsOneRun(files: seq<LogFile>, at: nat -> LogFile, lo: nat, hi: nat)
    requires Numbered(files, at, lo, hi)
    requires forall n: nat, m: nat :: at(n).number == n && at(n).base == at(m).base
    ensures OneRun(files)
  {
    DistinctByCount(files);
    forall f, g, n | f in files && g in files && f.number <= n <= g.number ensures HasNumber(files, n) {
      assert at(n) in files;
    }
    assert forall f | f in files :: f in multiset(files);
  }

  lemma NumberedSlice(files: seq<LogFile>, read: seq<LogFile>, at: nat -> LogFile, lo: nat, hi: nat, r: nat)
    requires Numbered(files, at, lo, hi) && lo < r <= hi
    requires forall n: nat :: at(n).number == n
    requires read != [] && read[0] == at(r)
    requires forall i | 0 <= i < |read| :: read[i].number == r + i
    requires forall f :: f in read <==> f in files && f.number >= r
    ensures read == Span(at, r, hi)
  {
    forall i | 0 <= i < |read| ensures read[i] == at(r + i) && r + i <= hi {
      assert read[i] in read;
    }
    assert at(hi) in read;
    var last :| 0 <= last < |read| && read[last] == at(hi);
    assert read[|read| - 1].number <= hi;
  }

  /** The same for any numbered files of one base. */
  lemma NumberedReplay(files: seq<LogFile>, at: nat -> LogFile, lo: nat, hi: nat, r: nat, name: string)
    requires Numbered(files, at, lo, hi)
    requires forall n: nat, m: nat :: at(n).number == n && at(n).base == at(m).base
    requires forall n: nat :: EndsWith(at(n).path, name) <==> n == r
    ensures PlanOf(files, name)
      == if lo < r <= hi then Accepted(Span(at, r, hi)) else Rejected(ResumeNotFound)
  {
    NumberedIsOneRun(files, at, lo, hi);
    PlanAcceptedIff(files, name);
    if lo < r <= hi {
      assert at(r) in files;
      PlanAcceptedShape(files, name);
      var read := PlanOf(files, name).files;
      assert read[0] in read;
      NumberedSlice(files, read, at, lo, hi, r);
    } else {
      OneRunNotFound(files, name);
    }
  }

  lemma OneRunNotFound(files: seq<LogFile>, name: string)
    requires OneRun(files) && forall f | f in files :: !EndsWith(f.path, name)
    ensures PlanOf(files, name) == Rejected(ResumeNotFound)
  {
    var s := StableSort(files, FileLe);
    SortedFacts(files);
    OneRunOfSorted(files, s);
    RunIsChain(s);
    ChainErrorIff(s, 0);
  }
}
