/** The reader of `SHOW REPLICA STATUS\G`: `parse_replica_status` in db/provision/promotion_gate.py. */
module ReplicaStatus {
  import opened BinlogNames
  import opened Options
  import opened Strings

  type Row = map<string, string>

  datatype Line = Blank | Header | Field(key: string, value: string) | Other(text: string)

  predicate KeyChar(c: char) { 'a' <= c <= 'z' || 'A' <= c <= 'Z' || c == '_' }

  function Stars(): char -> bool { (c: char) => c == '*' }
  function KeyChars(): char -> bool { (c: char) => KeyChar(c) }

  /** `^\*+ \d+\. row \*+$`. */
  predicate IsHeader(s: string) {
    var stars := Run(s, Stars());
    var number := After(s[stars..], " ");
    stars > 0 && number.Some? &&
      var digits := Run(number.value, DigitTest());
      var end := After(number.value[digits..], ". row ");
      digits > 0 && end.Some? && end.value != "" && Run(end.value, Stars()) == |end.value|
  }

  /** `^\s*(?P<key>[A-Za-z_]+):(?: (?P<value>.*))?$`. */
  function ParseField(line: string): Option<(string, string)> {
    var s := TrimLeft(line);
    var k := Run(s, KeyChars());
    var colon := After(s[k..], ":");
    if k == 0 || colon.None? then None
    else if colon.value == "" then Some((s[..k], ""))
    else if colon.value[0] == ' ' then Some((s[..k], colon.value[1..]))
    else None
  }

  function Classify(line: string): Line {
    var s := Strip(line);
    if s == "" then Blank
    else if IsHeader(s) then Header
    else
      var field := ParseField(line);
      if field.None? then Other(s) else Field(field.value.0, Strip(field.value.1))
  }

  /** The reader's state, or a refusal. */
  datatype State = Reading(rows: seq<Row>, last: Option<string>) | Refused

  predicate Sound(s: State) {
    s.Reading? && s.last.Some? ==> s.rows != [] && s.last.value in s.rows[|s.rows| - 1]
  }

  function Step(s: State, line: Line): (t: State)
    requires Sound(s)
    ensures Sound(t)
  {
    if s.Refused? || line.Blank? then s
    else if line.Header? then Reading(s.rows + [map[]], None)
    else if s.rows == [] then Refused
    else
      var n := |s.rows| - 1;
      match line
      case Field(key, value) =>
        if key in s.rows[n] then Refused else Reading(s.rows[n := s.rows[n][key := value]], Some(key))
      case Other(text) =>
        if s.last.None? then Refused
        else Reading(s.rows[n := s.rows[n][s.last.value := s.rows[n][s.last.value] + "\n" + text]], s.last)
  }

  function Fold(s: State, lines: seq<Line>): (t: State)
    requires Sound(s)
    ensures Sound(t)
  {
    if lines == [] then s else Step(Fold(s, lines[..|lines| - 1]), lines[|lines| - 1])
  }

  function Classified(lines: seq<string>): seq<Line> {
    seq(|lines|, i requires 0 <= i < |lines| => Classify(lines[i]))
  }

  function RowsFrom(lines: seq<Line>): Option<seq<Row>> {
    var end := Fold(Reading([], None), lines);
    if end.Refused? then None else Some(end.rows)
  }

  lemma {:induction false} RefusedForGood(s: State, lines: seq<Line>, n: nat)
    requires Sound(s) && n <= |lines| && Fold(s, lines[..n]).Refused?
    ensures Fold(s, lines).Refused?
    decreases |lines|
  {
    if n == |lines| {
      assert lines[..n] == lines;
    } else {
      var front := lines[..|lines| - 1];
      assert front[..n] == lines[..n];
      RefusedForGood(s, front, n);
    }
  }

  lemma FoldNext(s: State, lines: seq<Line>, n: nat)
    requires Sound(s) && n < |lines|
    ensures Fold(s, lines[..n + 1]) == Step(Fold(s, lines[..n]), lines[n])
  {
    assert lines[..n + 1][..n] == lines[..n];
  }

  /** The reader's loop, over the lines it tells apart. */
  method ReadLines(lines: seq<Line>) returns (r: Option<seq<Row>>)
    ensures r == RowsFrom(lines)
  {
    var rows: seq<Row>, last: Option<string> := [], None;
    for n := 0 to |lines|
      invariant Sound(Reading(rows, last)) && Fold(Reading([], None), lines[..n]) == Reading(rows, last)
    {
      FoldNext(Reading([], None), lines, n);
      if Step(Reading(rows, last), lines[n]).Refused? {
        RefusedForGood(Reading([], None), lines, n + 1);
      }
      match lines[n] {
        case Blank =>
        case Header =>
          rows, last := rows + [map[]], None;
        case Field(key, value) =>
          if rows == [] || key in rows[|rows| - 1] {
            return None;
          }
          rows, last := rows[|rows| - 1 := rows[|rows| - 1][key := value]], Some(key);
        case Other(text) =>
          if rows == [] || last.None? {
            return None;
          }
          rows := rows[|rows| - 1 := rows[|rows| - 1][last.value := rows[|rows| - 1][last.value] + "\n" + text]];
      }
    }
    assert lines[..|lines|] == lines;
    return Some(rows);
  }

  /** `parse_replica_status`, on the text the client prints. */
  method ParseReplicaStatus(text: string) returns (r: Option<seq<Row>>)
    ensures r == RowsFrom(Classified(Lines(text)))
  {
    r := ReadLines(Classified(Lines(text)));
  }

  // ---- what the server prints is read back ---------------------------------

  predicate Key(k: string) { k != "" && forall c | c in k :: KeyChar(c) }

  lemma KeyIff(k: string)
    ensures Key(k) <==> Spelled(k, SMALL, CAPITAL, "_", "")
  {
    forall c ensures KeyChar(c) <==> c in SMALL || c in CAPITAL || c in "_" || c in "" {
      RangesAre(c);
    }
    SpelledIff(k, SMALL, CAPITAL, "_", "", KeyChars());
  }

  function Spaces(n: nat): string { seq(n, _ => ' ') }

  /** One printed field, the key right-aligned. */
  function FieldText(indent: nat, key: string, value: string): string { Spaces(indent) + (key + (":" + (" " + value))) }

  function HeaderText(stars: string, n: nat): string { stars + (" " + (ToDecimal(n) + (". row " + stars))) }

  lemma {:induction false} SpacesTrim(n: nat, s: string)
    requires s == "" || !IsSpace(s[0])
    ensures TrimLeft(Spaces(n) + s) == s
  {
    if n == 0 {
      assert Spaces(0) + s == s;
    } else {
      assert (Spaces(n) + s)[1..] == Spaces(n - 1) + s;
      SpacesTrim(n - 1, s);
    }
  }

  lemma FieldParses(indent: nat, key: string, value: string)
    requires Key(key)
    ensures ParseField(FieldText(indent, key, value)) == Some((key, value))
  {
    var tail := ":" + (" " + value);
    assert key[0] in key;
    SpacesTrim(indent, key + tail);
    RunAll(key, tail, KeyChars());
    AfterHead(":", " " + value);
    assert (" " + value)[1..] == value;
  }

  lemma NotHeader(s: string)
    requires s != "" && s[0] != '*'
    ensures !IsHeader(s)
  {
  }

  /** A printed field is read as that field. */
  lemma FieldReads(indent: nat, key: string, value: string)
    requires Key(key) && NoOuterSpace(value)
    ensures Classify(FieldText(indent, key, value)) == Field(key, value)
  {
    var body := key + (":" + (" " + value));
    assert key[0] in key;
    SpacesTrim(indent, body);
    StripKeepsFirst(body);
    NotHeader(Strip(FieldText(indent, key, value)));
    FieldParses(indent, key, value);
    StripNone(value);
  }

  lemma HeaderIs(stars: string, digits: string)
    requires stars != "" && (forall c | c in stars :: c == '*') && digits != "" && AllDigits(digits)
    ensures IsHeader(stars + (" " + (digits + (". row " + stars))))
  {
    RunAll(stars, " " + (digits + (". row " + stars)), Stars());
    AfterHead(" ", digits + (". row " + stars));
    RunAll(digits, ". row " + stars, DigitTest());
    AfterHead(". row ", stars);
    RunAll(stars, "", Stars());
    assert stars + "" == stars;
  }

  lemma HeaderClassified(s: string)
    requires IsHeader(s) && s != "" && NoOuterSpace(s)
    ensures Classify(s) == Header
  {
    StripNone(s);
  }

  /** A printed row header is read as one. */
  lemma HeaderReads(stars: string, n: nat)
    requires stars != "" && forall c | c in stars :: c == '*'
    ensures Classify(HeaderText(stars, n)) == Header
  {
    DecimalRoundTrip(n);
    HeaderIs(stars, ToDecimal(n));
    assert stars[0] in stars && stars[|stars| - 1] in stars;
    EndsPlain(stars, " " + (ToDecimal(n) + ". row "));
    assert HeaderText(stars, n) == stars + ((" " + (ToDecimal(n) + ". row ")) + stars);
    HeaderClassified(HeaderText(stars, n));
  }

  lemma EndsPlain(stars: string, middle: string)
    requires stars != "" && stars[0] == '*' && stars[|stars| - 1] == '*'
    ensures NoOuterSpace(stars + (middle + stars)) && stars + (middle + stars) != ""
  {
  }

  /** A field as printed: its key right-aligned, and its value over one line or several. */
  datatype Printed = Printed(indent: nat, key: string, first: string, more: seq<string>)

  /** A line after the first is taken as more of the value when it is neither blank, a header nor a field. */
  predicate Continues(line: string) { OneLine(line) && Classify(line) == Other(line) }

  predicate Printable(f: Printed) {
    && Key(f.key) && OneLine(f.first) && NoOuterSpace(f.first)
    && forall i | 0 <= i < |f.more| :: Continues(f.more[i])
  }

  /** One printed row: no key twice. */
  predicate PrintableRow(fields: seq<Printed>) {
    && (forall i | 0 <= i < |fields| :: Printable(fields[i]))
    && (forall i, j | 0 <= i < j < |fields| :: fields[i].key != fields[j].key)
  }

  /** The value as one text, line breaks and all. */
  function Joined(first: string, more: seq<string>): string {
    if more == [] then first else Joined(first, more[..|more| - 1]) + "\n" + more[|more| - 1]
  }

  function RowOf(fields: seq<Printed>): Row {
    if fields == [] then map[]
    else
      var last := fields[|fields| - 1];
      RowOf(fields[..|fields| - 1])[last.key := Joined(last.first, last.more)]
  }

  function RowsOf(table: seq<seq<Printed>>): seq<Row> {
    seq(|table|, i requires 0 <= i < |table| => RowOf(table[i]))
  }

  function FieldTexts(fields: seq<Printed>): seq<string> {
    if fields == [] then []
    else
      var last := fields[|fields| - 1];
      FieldTexts(fields[..|fields| - 1]) + ([FieldText(last.indent, last.key, last.first)] + last.more)
  }

  /** The lines of a whole answer: each row under its numbered header. */
  function TableTexts(stars: string, table: seq<seq<Printed>>): seq<string> {
    if table == [] then []
    else
      var n := |table| - 1;
      TableTexts(stars, table[..n]) + ([HeaderText(stars, n + 1)] + FieldTexts(table[n]))
  }

  /** Each line ends in a line break. */
  function TextOf(lines: seq<string>): string {
    if lines == [] then "" else lines[0] + ("\n" + TextOf(lines[1..]))
  }

  lemma {:induction false} LinesOfText(lines: seq<string>)
    requires forall i | 0 <= i < |lines| :: OneLine(lines[i])
    ensures Lines(TextOf(lines)) == lines
  {
    if lines != [] {
      LinesOf(lines[0], TextOf(lines[1..]));
      LinesOfText(lines[1..]);
    }
  }

  // ---- how the printed lines are told apart ----------------------------------

  function OthersOf(more: seq<string>): seq<Line> { seq(|more|, i requires 0 <= i < |more| => Other(more[i])) }

  function FieldLines(fields: seq<Printed>): seq<Line> {
    if fields == [] then []
    else
      var last := fields[|fields| - 1];
      FieldLines(fields[..|fields| - 1]) + ([Field(last.key, last.first)] + OthersOf(last.more))
  }

  function TableLines(table: seq<seq<Printed>>): seq<Line> {
    if table == [] then []
    else TableLines(table[..|table| - 1]) + ([Header] + FieldLines(table[|table| - 1]))
  }

  predicate AllOneLine(lines: seq<string>) { forall i | 0 <= i < |lines| :: OneLine(lines[i]) }

  lemma ClassifiedConcat(a: seq<string>, b: seq<string>)
    ensures Classified(a + b) == Classified(a) + Classified(b)
    ensures AllOneLine(a) && AllOneLine(b) ==> AllOneLine(a + b)
  {
  }

  lemma ClassifiedCons(line: string, rest: seq<string>)
    ensures Classified([line] + rest) == [Classify(line)] + Classified(rest)
    ensures OneLine(line) && AllOneLine(rest) ==> AllOneLine([line] + rest)
  {
  }

  lemma FieldOnOneLine(f: Printed)
    requires Printable(f)
    ensures OneLine(FieldText(f.indent, f.key, f.first))
  {
    assert '\n' !in Spaces(f.indent) && '\n' !in f.key;
  }

  lemma PrintedField(f: Printed)
    requires Printable(f)
    ensures Classified([FieldText(f.indent, f.key, f.first)] + f.more) == [Field(f.key, f.first)] + OthersOf(f.more)
    ensures AllOneLine([FieldText(f.indent, f.key, f.first)] + f.more)
  {
    FieldReads(f.indent, f.key, f.first);
    FieldOnOneLine(f);
    FieldUnder(FieldText(f.indent, f.key, f.first), f);
  }

  lemma FieldUnder(line: string, f: Printed)
    requires Classify(line) == Field(f.key, f.first) && OneLine(line)
    requires forall i | 0 <= i < |f.more| :: Continues(f.more[i])
    ensures Classified([line] + f.more) == [Field(f.key, f.first)] + OthersOf(f.more) && AllOneLine([line] + f.more)
  {
    ClassifiedCons(line, f.more);
    assert Classified(f.more) == OthersOf(f.more);
  }

  lemma {:induction false} PrintedFields(fields: seq<Printed>)
    requires PrintableRow(fields)
    ensures Classified(FieldTexts(fields)) == FieldLines(fields) && AllOneLine(FieldTexts(fields))
  {
    if fields != [] {
      var last := fields[|fields| - 1];
      PrintedFields(fields[..|fields| - 1]);
      PrintedField(last);
      ClassifiedConcat(FieldTexts(fields[..|fields| - 1]), [FieldText(last.indent, last.key, last.first)] + last.more);
    }
  }

  lemma HeaderOnOneLine(stars: string, n: nat)
    requires forall c | c in stars :: c == '*'
    ensures OneLine(HeaderText(stars, n))
  {
    var digits := ToDecimal(n);
    assert forall c | c in digits :: IsDigit(c);
    assert '\n' !in digits && '\n' !in stars;
  }

  lemma {:induction false} PrintedTable(stars: string, table: seq<seq<Printed>>)
    requires stars != "" && forall c | c in stars :: c == '*'
    requires forall i | 0 <= i < |table| :: PrintableRow(table[i])
    ensures Classified(TableTexts(stars, table)) == TableLines(table) && AllOneLine(TableTexts(stars, table))
  {
    if table != [] {
      var n := |table| - 1;
      PrintedTable(stars, table[..n]);
      PrintedFields(table[n]);
      HeaderReads(stars, n + 1);
      HeaderOnOneLine(stars, n + 1);
      ClassifiedCons(HeaderText(stars, n + 1), FieldTexts(table[n]));
      ClassifiedConcat(TableTexts(stars, table[..n]), [HeaderText(stars, n + 1)] + FieldTexts(table[n]));
    }
  }

  // ---- and what is made of them ----------------------------------------------

  lemma {:induction false} FoldConcat(s: State, a: seq<Line>, b: seq<Line>)
    requires Sound(s)
    ensures Fold(s, a + b) == Fold(Fold(s, a), b)
  {
    if b == [] {
      assert a + b == a;
    } else {
      assert (a + b)[..|a + b| - 1] == a + b[..|b| - 1];
      FoldConcat(s, a, b[..|b| - 1]);
    }
  }

  lemma FoldOne(s: State, line: Line)
    requires Sound(s)
    ensures Fold(s, [line]) == Step(s, line)
  {
    assert [line][..0] == [];
  }

  lemma {:induction false} RowKeys(fields: seq<Printed>, k: string)
    ensures k in RowOf(fields) <==> exists i :: 0 <= i < |fields| && fields[i].key == k
  {
    if fields != [] {
      RowKeys(fields[..|fields| - 1], k);
      assert forall i | 0 <= i < |fields| - 1 :: fields[..|fields| - 1][i] == fields[i];
    }
  }

  lemma {:induction false} MoreFold(before: seq<Row>, row: Row, key: string, first: string, more: seq<string>)
    ensures Fold(Reading(before + [row[key := first]], Some(key)), OthersOf(more))
      == Reading(before + [row[key := Joined(first, more)]], Some(key))
  {
    if more != [] {
      var front := more[..|more| - 1];
      MoreFold(before, row, key, first, front);
      assert OthersOf(more)[..|more| - 1] == OthersOf(front);
      var rows := before + [row[key := Joined(first, front)]];
      assert rows[|before| := row[key := Joined(first, more)]] == before + [row[key := Joined(first, more)]];
      assert rows[|before|][key := Joined(first, more)] == row[key := Joined(first, more)];
    }
  }

  lemma FieldFold(before: seq<Row>, row: Row, last: Option<string>, f: Printed)
    requires Sound(Reading(before + [row], last)) && f.key !in row
    ensures Fold(Reading(before + [row], last), [Field(f.key, f.first)] + OthersOf(f.more))
      == Reading(before + [row[f.key := Joined(f.first, f.more)]], Some(f.key))
  {
    var s := Reading(before + [row], last);
    FoldConcat(s, [Field(f.key, f.first)], OthersOf(f.more));
    FoldOne(s, Field(f.key, f.first));
    assert (before + [row])[|before| := row[f.key := f.first]] == before + [row[f.key := f.first]];
    MoreFold(before, row, f.key, f.first, f.more);
  }

  lemma {:induction false} FieldsFold(before: seq<Row>, fields: seq<Printed>)
    requires PrintableRow(fields)
    ensures var t := Fold(Reading(before + [map[]], None), FieldLines(fields));
      t.Reading? && t.rows == before + [RowOf(fields)]
  {
    if fields != [] {
      var start := Reading(before + [map[]], None);
      var front, f := fields[..|fields| - 1], fields[|fields| - 1];
      FieldsFold(before, front);
      RowKeys(front, f.key);
      FoldConcat(start, FieldLines(front), [Field(f.key, f.first)] + OthersOf(f.more));
      FieldFold(before, RowOf(front), Fold(start, FieldLines(front)).last, f);
    }
  }

  lemma RowFold(before: State, fields: seq<Printed>)
    requires Sound(before) && before.Reading? && PrintableRow(fields)
    ensures var t := Fold(before, [Header] + FieldLines(fields));
      t.Reading? && t.rows == before.rows + [RowOf(fields)]
  {
    FoldConcat(before, [Header], FieldLines(fields));
    FoldOne(before, Header);
    FieldsFold(before.rows, fields);
  }

  lemma {:induction false} TableFold(table: seq<seq<Printed>>)
    requires forall i | 0 <= i < |table| :: PrintableRow(table[i])
    ensures RowsFrom(TableLines(table)) == Some(RowsOf(table))
  {
    if table != [] {
      var front, last := table[..|table| - 1], table[|table| - 1];
      TableFold(front);
      OneRowMore(TableLines(front), RowsOf(front), last);
      RowsOfMore(table);
    } else {
      assert TableLines(table) == [] && RowsOf(table) == [];
    }
  }

  lemma RowsOfMore(table: seq<seq<Printed>>)
    requires table != []
    ensures RowsOf(table) == RowsOf(table[..|table| - 1]) + [RowOf(table[|table| - 1])]
  {
  }

  lemma OneRowMore(lines: seq<Line>, rows: seq<Row>, fields: seq<Printed>)
    requires RowsFrom(lines) == Some(rows) && PrintableRow(fields)
    ensures RowsFrom(lines + ([Header] + FieldLines(fields))) == Some(rows + [RowOf(fields)])
  {
    FoldConcat(Reading([], None), lines, [Header] + FieldLines(fields));
    RowFold(Fold(Reading([], None), lines), fields);
  }

  /** Whatever rows the server prints, no key twice in one and values over any number of lines, the
      reader returns exactly those rows. */
  lemma StatusRoundTrip(stars: string, table: seq<seq<Printed>>)
    requires stars != "" && forall c | c in stars :: c == '*'
    requires forall i | 0 <= i < |table| :: PrintableRow(table[i])
    ensures RowsFrom(Classified(Lines(TextOf(TableTexts(stars, table))))) == Some(RowsOf(table))
  {
    PrintedTable(stars, table);
    LinesOfText(TableTexts(stars, table));
    TableFold(table);
  }

  /** A line of a GTID set, which starts with a server's uuid, continues the value before it. */
  lemma GtidLineContinues(line: string)
    requires OneLine(line) && NoOuterSpace(line) && |line| > 8 && line[0] != '*'
    requires line[8] == '-' && forall i | 0 <= i < 8 :: line[i] != ':'
    ensures Continues(line)
  {
    StripNone(line);
    NotHeader(line);
    var k := Run(line, KeyChars());
    assert k <= 8;
    assert line[k..] != "" && line[k..][0] == line[k] != ':';
  }
}
