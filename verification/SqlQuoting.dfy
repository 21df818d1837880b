/** The quoting the coordinator's statements rely on: db/provision/bounded_snapshot.py. */
module SqlQuoting {
  import opened Options
  import opened Strings
  import opened SnapshotRun

  function QuoteIdentifier(name: string): string { "`" + Replace(name, "`", "``") + "`" }

  function QuoteString(value: string): string { "'" + Replace(Replace(value, "\\", "\\\\"), "'", "''") + "'" }

  /** What a reader made of the front of a statement, and what is left of it. */
  datatype Token<T> = Token(value: T, rest: string)

  /** The server's reading of an identifier body, up to the closing backtick. */
  function IdentifierBody(s: string): Option<Token<string>> {
    if s == "" then None
    else if s[0] != '`' then Prefixed(s[0], IdentifierBody(s[1..]))
    else if |s| > 1 && s[1] == '`' then Prefixed('`', IdentifierBody(s[2..]))
    else Some(Token("", s[1..]))
  }

  /** The server's reading of a string body, up to the closing quote; a backslash takes the next character. */
  function StringBody(s: string): Option<Token<string>> {
    if s == "" then None
    else if s[0] == '\\' then if |s| > 1 then Prefixed(s[1], StringBody(s[2..])) else None
    else if s[0] != '\'' then Prefixed(s[0], StringBody(s[1..]))
    else if |s| > 1 && s[1] == '\'' then Prefixed('\'', StringBody(s[2..]))
    else Some(Token("", s[1..]))
  }

  function Prefixed(c: char, t: Option<Token<string>>): Option<Token<string>> {
    if t.None? then None else Some(Token([c] + t.value.value, t.value.rest))
  }

  function ReadIdentifier(s: string): Option<Token<string>> {
    if s != "" && s[0] == '`' then IdentifierBody(s[1..]) else None
  }

  function ReadString(s: string): Option<Token<string>> {
    if s != "" && s[0] == '\'' then StringBody(s[1..]) else None
  }

  predicate Stops(rest: string, quote: char) { rest == "" || rest[0] != quote }

  lemma {:induction false} IdentifierBodyReads(name: string, rest: string)
    requires Stops(rest, '`')
    ensures IdentifierBody(MapChar(name, '`', "``") + ("`" + rest)) == Some(Token(name, rest))
  {
    var body := MapChar(name, '`', "``") + ("`" + rest);
    if name == "" {
      assert body == "`" + rest && body[1..] == rest;
    } else {
      var more := MapChar(name[1..], '`', "``") + ("`" + rest);
      IdentifierBodyReads(name[1..], rest);
      assert name == [name[0]] + name[1..];
      assert if name[0] == '`' then body == "``" + more && body[2..] == more
             else body == [name[0]] + more && body[1..] == more;
    }
  }

  /** A quoted identifier names exactly what was quoted, whatever characters are in it. */
  lemma IdentifierRoundTrip(name: string, rest: string)
    requires Stops(rest, '`')
    ensures ReadIdentifier(QuoteIdentifier(name) + rest) == Some(Token(name, rest))
  {
    ReplaceCharIsMap(name, '`', "``");
    IdentifierBodyReads(name, rest);
    QuotedIdentifierReads(MapChar(name, '`', "``"), rest);
  }

  lemma QuotedIdentifierReads(quoted: string, rest: string)
    ensures ReadIdentifier(("`" + quoted + "`") + rest) == IdentifierBody(quoted + ("`" + rest))
  {
    var s := ("`" + quoted + "`") + rest;
    assert s[1..] == quoted + ("`" + rest);
  }

  function QuotedChar(c: char): string { if c == '\\' then "\\\\" else if c == '\'' then "''" else [c] }

  function QuotedBody(value: string): string {
    if value == "" then "" else QuotedChar(value[0]) + QuotedBody(value[1..])
  }

  function BothPasses(value: string): string { MapChar(MapChar(value, '\\', "\\\\"), '\'', "''") }

  lemma PassesOne(c: char)
    ensures BothPasses([c]) == QuotedChar(c)
  {
    MapCharCons(c, "", '\\', "\\\\");
    MapCharCons(c, "", '\'', "''");
    MapCharCons('\\', "", '\'', "''");
    MapCharCons('\\', "\\", '\'', "''");
    assert [c] + "" == [c];
    assert "\\" + "\\" == "\\\\" && "\\\\" + "" == "\\\\";
  }

  lemma PassesConcat(a: string, b: string)
    ensures BothPasses(a + b) == BothPasses(a) + BothPasses(b)
  {
    MapCharAppend(a, b, '\\', "\\\\");
    MapCharAppend(MapChar(a, '\\', "\\\\"), MapChar(b, '\\', "\\\\"), '\'', "''");
  }

  /** The two chained replacements quote every character once. */
  lemma {:induction false} TwoPasses(value: string)
    ensures BothPasses(value) == QuotedBody(value)
  {
    if value != "" {
      assert value == [value[0]] + value[1..];
      PassesConcat([value[0]], value[1..]);
      PassesOne(value[0]);
      TwoPasses(value[1..]);
    }
  }

  lemma StringBodyStep(c: char, more: string, value: string, rest: string)
    requires StringBody(more) == Some(Token(value, rest))
    ensures StringBody(QuotedChar(c) + more) == Some(Token([c] + value, rest))
  {
    var s := QuotedChar(c) + more;
    assert s[|QuotedChar(c)|..] == more;
  }

  lemma Regroup(a: string, b: string, c: string)
    ensures (a + b) + c == a + (b + c)
  {
  }

  lemma QuotedBodyCons(value: string, tail: string)
    requires value != ""
    ensures QuotedBody(value) + tail == QuotedChar(value[0]) + (QuotedBody(value[1..]) + tail)
    ensures value == [value[0]] + value[1..]
  {
    Regroup(QuotedChar(value[0]), QuotedBody(value[1..]), tail);
  }

  lemma ClosingQuote(rest: string)
    requires Stops(rest, '\'')
    ensures StringBody("'" + rest) == Some(Token("", rest))
  {
    assert ("'" + rest)[1..] == rest;
  }

  lemma {:induction false} StringBodyReads(value: string, rest: string)
    requires Stops(rest, '\'')
    ensures StringBody(QuotedBody(value) + ("'" + rest)) == Some(Token(value, rest))
  {
    if value == "" {
      ClosingQuote(rest);
      assert "" + ("'" + rest) == "'" + rest;
    } else {
      StringBodyReads(value[1..], rest);
      StringBodyStep(value[0], QuotedBody(value[1..]) + ("'" + rest), value[1..], rest);
      QuotedBodyCons(value, "'" + rest);
    }
  }

  /** A quoted string is read back as the value, whatever quotes and backslashes it holds. */
  lemma StringRoundTrip(value: string, rest: string)
    requires Stops(rest, '\'')
    ensures ReadString(QuoteString(value) + rest) == Some(Token(value, rest))
  {
    var once := Replace(value, "\\", "\\\\");
    ReplaceCharIsMap(value, '\\', "\\\\");
    ReplaceCharIsMap(once, '\'', "''");
    TwoPasses(value);
    StringBodyReads(value, rest);
    QuotedReads(QuotedBody(value), rest);
  }

  lemma QuotedReads(quoted: string, rest: string)
    ensures ReadString(("'" + quoted + "'") + rest) == StringBody(quoted + ("'" + rest))
  {
    var s := ("'" + quoted + "'") + rest;
    assert s[1..] == quoted + ("'" + rest);
  }

  /** One table of a LOCK TABLES list. */
  function LockItem(t: Table): string { QuoteIdentifier(t.schema) + ("." + (QuoteIdentifier(t.name) + " READ")) }

  /** `", ".join(...)` and the statement's end. */
  function Joined<T>(items: seq<T>, text: T -> string): string
    requires items != []
  {
    text(items[0]) + if |items| == 1 then ";" else ", " + Joined(items[1..], text)
  }

  function LockTablesSql(tables: seq<Table>): string
    requires tables != []
  {
    "LOCK TABLES " + Joined(tables, LockItem)
  }

  /** The server's reading of one table of the list. */
  function ReadItem(s: string): Option<Token<Table>> {
    var schema := ReadIdentifier(s);
    if schema.None? then None
    else
      var dot := After(schema.value.rest, ".");
      if dot.None? then None
      else
        var name := ReadIdentifier(dot.value);
        if name.None? then None
        else
          var read := After(name.value.rest, " READ");
          if read.None? then None else Some(Token(Table(schema.value.value, name.value.value), read.value))
  }

  function ReadList<T>(s: string, fuel: nat, read: string -> Option<Token<T>>): Option<seq<T>>
    decreases fuel
  {
    var first := read(s);
    if first.None? || fuel == 0 then None
    else if first.value.rest == ";" then Some([first.value.value])
    else
      var next := After(first.value.rest, ", ");
      if next.None? then None
      else
        var later := ReadList(next.value, fuel - 1, read);
        if later.None? then None else Some([first.value.value] + later.value)
  }

  /** The tables a LOCK TABLES statement locks, as the server reads it. */
  function ReadLock(sql: string): Option<seq<Table>> {
    var list := After(sql, "LOCK TABLES ");
    if list.None? then None else ReadList(list.value, |sql|, ReadItem)
  }

  lemma ItemReads(t: Table, rest: string)
    ensures ReadItem(LockItem(t) + rest) == Some(Token(t, rest))
  {
    var afterName := " READ" + rest;
    var afterDot := QuoteIdentifier(t.name) + afterName;
    assert LockItem(t) + rest == QuoteIdentifier(t.schema) + ("." + afterDot);
    IdentifierRoundTrip(t.schema, "." + afterDot);
    AfterHead(".", afterDot);
    IdentifierRoundTrip(t.name, afterName);
    AfterHead(" READ", rest);
  }

  lemma {:induction false} ListReads<T(!new)>(items: seq<T>, fuel: nat, text: T -> string,
                                              read: string -> Option<Token<T>>)
    requires items != [] && |items| <= fuel
    requires forall t, rest :: read(text(t) + rest) == Some(Token(t, rest))
    ensures ReadList(Joined(items, text), fuel, read) == Some(items)
  {
    var t, more := items[0], items[1..];
    assert items == [t] + more;
    if |items| > 1 {
      var later := Joined(more, text);
      ListReads(more, fuel - 1, text, read);
      AfterHead(", ", later);
      assert read(text(t) + (", " + later)) == Some(Token(t, ", " + later));
      assert (", " + later)[0] == ',';
    } else {
      assert read(text(t) + ";") == Some(Token(t, ";"));
      assert items == [t];
    }
  }

  lemma {:induction false} ListIsLong<T(!new)>(items: seq<T>, text: T -> string)
    requires items != []
    ensures |Joined(items, text)| >= |items|
  {
    if |items| > 1 {
      var later := Joined(items[1..], text);
      ListIsLong(items[1..], text);
      assert |", " + later| == 2 + |later|;
    }
  }

  /** The statement the coordinator sends locks exactly the tables it was given, in order. */
  lemma LockStatementRoundTrip(tables: seq<Table>)
    requires tables != []
    ensures ReadLock(LockTablesSql(tables)) == Some(tables)
  {
    forall t, rest ensures ReadItem(LockItem(t) + rest) == Some(Token(t, rest)) {
      ItemReads(t, rest);
    }
    AfterHead("LOCK TABLES ", Joined(tables, LockItem));
    ListIsLong(tables, LockItem);
    ListReads(tables, |LockTablesSql(tables)|, LockItem, ReadItem);
  }
}
