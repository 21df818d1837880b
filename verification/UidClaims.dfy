/** One claim file of the uid register, as demo-host/provision/demo_uid_claims.py and
    app/provision/provision_tenant_volume.py both write and read it. */
module UidClaims {
  import opened BinlogNames
  import opened Options
  import opened Strings

  datatype Claim = Claim(slug: string, uid: int)

  function Sign(n: int): string { if n < 0 then "-" else "" }

  function WithSign(negative: bool, n: int): int { if negative then -n else n }

  function Magnitude(n: int): nat { if n < 0 then -n else n }

  /** A claim's digits. */
  function Digits(c: Claim): (r: string)
    ensures r != "" && AllDigits(r)
  {
    ToDecimal(Magnitude(c.uid))
  }

  function Render(c: Claim): string { "slug=" + c.slug + "\n" + ("uid=" + (Sign(c.uid) + Digits(c)) + "\n") }

  /** One line's entry: nothing to add, one field, or a refusal. */
  datatype Entry = Nothing | Field(key: string, value: string) | Malformed

  function ReadLine(line: string): Entry {
    if Strip(line) == "" then Nothing
    else
      var i := Find(line, "=");
      if i == -1 then Malformed else Field(Strip(line[..i]), Strip(line[i + 1..]))
  }

  function Fields(entries: seq<Entry>): Option<map<string, string>> {
    if entries == [] then Some(map[])
    else
      var before, e := Fields(entries[..|entries| - 1]), entries[|entries| - 1];
      if before.None? || e.Malformed? then None
      else if e.Nothing? then before
      else Some(before.value[e.key := e.value])
  }

  function Entries(lines: seq<string>): seq<Entry> {
    seq(|lines|, i requires 0 <= i < |lines| => ReadLine(lines[i]))
  }

  /** What Python's `int` takes after an optional sign: digits, with single underscores between them. */
  predicate Grouped(s: string) {
    && s != "" && s[0] != '_' && s[|s| - 1] != '_'
    && forall i | 0 <= i < |s| :: IsDigit(s[i]) || (s[i] == '_' && 0 < i && s[i - 1] != '_')
  }

  function OnlyDigits(s: string): (r: string)
    ensures AllDigits(r)
    ensures AllDigits(s) ==> r == s
  {
    if s == "" then "" else OnlyDigits(s[..|s| - 1]) + if IsDigit(s[|s| - 1]) then [s[|s| - 1]] else []
  }

  predicate IsSign(c: char) { c == '+' || c == '-' }

  /** Python's `int(s)` of a stripped string, or nothing where it raises. */
  function PyInt(s: string): Option<int> {
    var signed := s != "" && IsSign(s[0]);
    var body := if signed then s[1..] else s;
    if !Grouped(body) then None
    else
      Some(WithSign(signed && s[0] == '-', FromDecimal(OnlyDigits(body))))
  }

  /** Signed, and with single underscores between digits, a numeral is still read; with any other it is not. */
  lemma PyIntReads(a: string, b: string)
    requires a != "" && AllDigits(a) && b != "" && AllDigits(b)
    ensures PyInt(a) == Some(FromDecimal(a)) && PyInt("+" + a) == Some(FromDecimal(a))
    ensures PyInt("-" + a) == Some(WithSign(true, FromDecimal(a)))
    ensures PyInt(a + ("_" + b)) == Some(FromDecimal(a + b))
    ensures PyInt("_" + a) == PyInt(a + "_") == PyInt(a + ("__" + b)) == PyInt("+") == PyInt("-") == PyInt("") == None
  {
    PyIntSigned(a);
    UnderscoreSkipped(a, b);
    NotGrouped(a, b);
  }

  lemma PyIntSigned(a: string)
    requires a != "" && AllDigits(a)
    ensures PyInt(a) == Some(FromDecimal(a)) && PyInt("+" + a) == Some(FromDecimal(a))
    ensures PyInt("-" + a) == Some(WithSign(true, FromDecimal(a)))
  {
    assert ("+" + a)[1..] == a && ("-" + a)[1..] == a;
    DigitsGroup(a);
    SignOrDigit(a);
    PyIntOf(a, a, false);
    PyIntOf("+" + a, a, false);
    PyIntOf("-" + a, a, true);
  }

  lemma PyIntOf(s: string, body: string, negative: bool)
    requires s != "" && body == (if IsSign(s[0]) then s[1..] else s) && (negative <==> s[0] == '-') && Grouped(body)
    ensures PyInt(s) == Some(WithSign(negative, FromDecimal(OnlyDigits(body))))
  {
  }

  lemma {:induction false} OnlyDigitsAppend(a: string, b: string)
    requires AllDigits(b)
    ensures OnlyDigits(a + b) == OnlyDigits(a) + b
  {
    if b == "" {
      assert a + b == a;
    } else {
      assert (a + b)[..|a + b| - 1] == a + b[..|b| - 1];
      OnlyDigitsAppend(a, b[..|b| - 1]);
    }
  }

  lemma UnderscoreSkipped(a: string, b: string)
    requires a != "" && AllDigits(a) && b != "" && AllDigits(b)
    ensures PyInt(a + ("_" + b)) == Some(FromDecimal(a + b))
  {
    var s := a + ("_" + b);
    UnderscoreDrops(a, b, s);
    SignOrDigit(a);
    UnderscoreGroups(a, b, s);
    PyIntOf(s, s, false);
  }

  lemma UnderscoreDrops(a: string, b: string, s: string)
    requires AllDigits(a) && AllDigits(b) && s == a + ("_" + b)
    ensures OnlyDigits(s) == a + b
  {
    var front := a + "_";
    assert front + b == s && front[..|front| - 1] == a;
    OnlyDigitsAppend(front, b);
  }

  lemma UnderscoreGroups(a: string, b: string, s: string)
    requires a != "" && AllDigits(a) && b != "" && AllDigits(b) && s == a + ("_" + b)
    ensures Grouped(s)
  {
    assert s[|a|] == '_' && s[|s| - 1] == b[|b| - 1] && s[0] == a[0];
    assert forall i | |a| < i < |s| :: s[i] == b[i - |a| - 1];
  }

  lemma NotGrouped(a: string, b: string)
    requires a != "" && AllDigits(a) && b != "" && AllDigits(b)
    ensures PyInt("_" + a) == PyInt(a + "_") == PyInt(a + ("__" + b)) == PyInt("+") == PyInt("-") == PyInt("") == None
  {
    assert ("_" + a)[0] == '_' && (a + "_")[|a|] == '_';
    var twice := a + ("__" + b);
    assert twice[|a|] == '_' && twice[|a| + 1] == '_';
    assert "+"[1..] == "" && "-"[1..] == "";
  }

  function ClaimOf(fields: Option<map<string, string>>): Option<Claim> {
    if fields.None? || "slug" !in fields.value || "uid" !in fields.value then None
    else
      var uid := PyInt(fields.value["uid"]);
      if uid.None? then None else Some(Claim(fields.value["slug"], uid.value))
  }

  function ParseEntries(entries: seq<Entry>): Option<Claim> { ClaimOf(Fields(entries)) }

  /** `parse_claim`. */
  function Parse(text: string): Option<Claim> { ParseEntries(Entries(Lines(text))) }

  /** The loop over a claim's lines. */
  method CollectFields(entries: seq<Entry>) returns (r: Option<map<string, string>>)
    ensures r == Fields(entries)
  {
    var fields: map<string, string> := map[];
    for n := 0 to |entries|
      invariant Fields(entries[..n]) == Some(fields)
    {
      assert entries[..n + 1][..n] == entries[..n];
      match entries[n] {
        case Nothing =>
        case Malformed =>
          MalformedStays(entries, n + 1);
          return None;
        case Field(key, value) =>
          fields := fields[key := value];
      }
    }
    assert entries[..|entries|] == entries;
    return Some(fields);
  }

  method ParseClaim(text: string) returns (r: Option<Claim>)
    ensures r == Parse(text)
  {
    var fields := CollectFields(Entries(Lines(text)));
    r := ClaimOf(fields);
  }

  lemma {:induction false} MalformedStays(entries: seq<Entry>, n: nat)
    requires n <= |entries| && Fields(entries[..n]).None?
    ensures Fields(entries).None?
    decreases |entries|
  {
    if n == |entries| {
      assert entries[..n] == entries;
    } else {
      var front := entries[..|entries| - 1];
      assert front[..n] == entries[..n];
      MalformedStays(front, n);
    }
  }

  predicate SlugWord(s: string) { s != "" && forall c | c in s :: 'a' <= c <= 'z' || IsDigit(c) || c == '-' }

  lemma FindEquals(key: string, value: string)
    requires '=' !in key
    ensures Find(key + ("=" + value), "=") == |key|
  {
    var line := key + ("=" + value);
    FindChar(line, '=');
    var i := Find(line, "=");
    assert line[|key|] == '=' && line[..|key|] == key;
    InPrefix(line, |key|, i);
    InPrefix(line, i, |key|);
  }

  lemma FieldReads(key: string, value: string, line: string)
    requires line == key + ("=" + value) && key != "" && '=' !in key && NoOuterSpace(key) && NoOuterSpace(value)
    ensures ReadLine(line) == Field(key, value)
  {
    FindEquals(key, value);
    assert line[..|key|] == key && line[|key| + 1..] == value;
    StripKeepsFirst(line);
    StripNone(key);
    StripNone(value);
  }

  lemma AtIsIn(s: string, i: int)
    ensures 0 <= i < |s| ==> s[i] in s
  {
  }

  lemma NoEquals(line: string)
    requires line != "" && !IsSpace(line[0]) && '=' !in line
    ensures ReadLine(line) == Malformed
  {
    FindChar(line, '=');
    StripKeepsFirst(line);
    AtIsIn(line, Find(line, "="));
  }

  lemma TwoFields(a: Entry, b: Entry)
    ensures Fields([a]) ==
      if a.Malformed? then None else if a.Nothing? then Some(map[]) else Some(map[a.key := a.value])
    ensures Fields([a, b]) ==
      if a.Malformed? || b.Malformed? then None
      else if b.Nothing? then Fields([a])
      else Some(Fields([a]).value[b.key := b.value])
  {
    assert [a][..0] == [] && [a, b][..1] == [a];
  }

  /** One line holds one field, and a claim needs two. */
  lemma OneLineNeverParses(text: string)
    requires OneLine(text)
    ensures Parse(text).None?
  {
    LinesOf(text, "");
    if text != "" {
      TwoFields(ReadLine(text), Nothing);
      assert Entries([text]) == [ReadLine(text)];
    }
  }

  lemma SlugLine(slug: string)
    requires SlugWord(slug)
    ensures ReadLine("slug=" + slug) == Field("slug", slug) && OneLine("slug=" + slug)
  {
    var key := "slug";
    assert slug[0] in slug && slug[|slug| - 1] in slug;
    assert "slug=" + slug == key + ("=" + slug);
    FieldReads(key, slug, "slug=" + slug);
  }

  /** A uid as it is printed, or a front part of it. */
  predicate Numeric(u: string) { u == "" || ((u[0] == '-' || IsDigit(u[0])) && AllDigits(u[1..])) }

  lemma NumericIsPlain(u: string)
    requires Numeric(u)
    ensures OneLine(u) && NoOuterSpace(u)
  {
    assert forall i | 0 < i < |u| :: u[i] == u[1..][i - 1];
  }

  lemma UidLine(u: string)
    requires Numeric(u)
    ensures ReadLine("uid=" + u) == Field("uid", u) && OneLine("uid=" + u)
  {
    var key := "uid";
    NumericIsPlain(u);
    assert "uid=" + u == key + ("=" + u);
    FieldReads(key, u, "uid=" + u);
  }

  /** A printed number is read as itself. */
  lemma PrintedInt(n: int, digits: string)
    requires AllDigits(digits)
    ensures Numeric(Sign(n) + digits)
    ensures PyInt(Sign(n) + digits) == if digits == "" then None else Some(WithSign(n < 0, FromDecimal(digits)))
  {
    var u := Sign(n) + digits;
    assert u[|Sign(n)|..] == digits;
    DigitsGroup(digits);
    SignOrDigit(digits);
  }

  lemma DigitsGroup(digits: string)
    requires AllDigits(digits)
    ensures Grouped(digits) <==> digits != ""
  {
  }

  lemma SignOrDigit(digits: string)
    requires AllDigits(digits)
    ensures digits != "" ==> !IsSign(digits[0]) && AllDigits(digits[1..])
  {
  }

  /** A first line, and whatever became of the second. */
  lemma SecondLine(slug: string, second: string)
    requires SlugWord(slug) && OneLine(second)
    ensures Parse(("slug=" + slug) + ("\n" + second))
      == if second == "" then None else ParseEntries([Field("slug", slug), ReadLine(second)])
  {
    SlugLine(slug);
    LinesOf("slug=" + slug, second);
    LinesOf(second, "");
    var lines := Lines(("slug=" + slug) + ("\n" + second));
    if second == "" {
      assert Entries(lines) == [Field("slug", slug)];
      TwoFields(Field("slug", slug), Nothing);
    } else {
      assert Entries(lines) == [Field("slug", slug), ReadLine(second)];
    }
  }

  function Holding(slug: string, uid: Option<int>): Option<Claim> {
    if uid.None? then None else Some(Claim(slug, uid.value))
  }

  lemma UidRead(slug: string, u: string)
    ensures ParseEntries([Field("slug", slug), Field("uid", u)]) == Holding(slug, PyInt(u))
  {
    TwoFields(Field("slug", slug), Field("uid", u));
  }

  lemma UidCut(slug: string, u: string)
    requires SlugWord(slug) && Numeric(u)
    ensures Parse(("slug=" + slug) + ("\n" + ("uid=" + u))) == Holding(slug, PyInt(u))
  {
    UidLine(u);
    SecondLine(slug, "uid=" + u);
    UidRead(slug, u);
  }

  lemma BothLines(slug: string, second: string)
    requires SlugWord(slug) && OneLine(second) && second != ""
    ensures Lines(("slug=" + slug) + ("\n" + (second + ("\n" + "")))) == ["slug=" + slug, second]
  {
    SlugLine(slug);
    LinesOf("slug=" + slug, second + ("\n" + ""));
    LinesOf(second, "");
  }

  lemma WholeClaim(slug: string, u: string)
    requires SlugWord(slug) && Numeric(u)
    ensures Parse(("slug=" + slug) + ("\n" + (("uid=" + u) + ("\n" + "")))) == Holding(slug, PyInt(u))
  {
    UidLine(u);
    BothLines(slug, "uid=" + u);
    SlugLine(slug);
    assert Entries(["slug=" + slug, "uid=" + u]) == [Field("slug", slug), Field("uid", u)];
    UidRead(slug, u);
  }

  /** A claim is read back as it was written. */
  lemma ClaimRoundTrip(c: Claim)
    requires SlugWord(c.slug)
    ensures Parse(Render(c)) == Some(c)
  {
    DecimalRoundTrip(Magnitude(c.uid));
    PrintedInt(c.uid, Digits(c));
    WholeClaim(c.slug, Sign(c.uid) + Digits(c));
    RenderSplits(c);
  }

  lemma RenderSplits(c: Claim)
    ensures Render(c) == ("slug=" + c.slug) + ("\n" + (("uid=" + (Sign(c.uid) + Digits(c))) + ("\n" + "")))
    ensures |Render(c)| == UidEnd(c) + 1
  {
  }

  /** Where the uid's digits begin and end in a claim's text. */
  function UidAt(c: Claim): nat { |c.slug| + |Sign(c.uid)| + 10 }

  function UidEnd(c: Claim): nat { UidAt(c) + |Digits(c)| }

  lemma CutBeforeSecond(slug: string, rest: string, cut: nat)
    requires SlugWord(slug) && cut <= 5 + |slug|
    ensures OneLine((("slug=" + slug) + rest)[..cut])
  {
    SlugLine(slug);
    var text := ("slug=" + slug) + rest;
    assert text[..cut] == ("slug=" + slug)[..cut];
  }

  lemma CutInName(slug: string, name: string)
    requires SlugWord(slug) && (name == "" || (!IsSpace(name[0]) && '=' !in name && OneLine(name)))
    ensures Parse(("slug=" + slug) + ("\n" + name)).None?
  {
    SecondLine(slug, name);
    if name != "" {
      NoEquals(name);
      TwoFields(Field("slug", slug), Malformed);
    }
  }

  /** What is left of a printed number. */
  lemma CutNumber(n: int, digits: string, at: nat)
    requires AllDigits(digits) && at <= |Sign(n)| + |digits|
    ensures (Sign(n) + digits)[..at] == if at < |Sign(n)| then Sign(0) else Sign(n) + digits[..at - |Sign(n)|]
  {
  }

  /** A claim cut short is refused exactly when nothing of the uid's digits is left. A cut inside
      them reads as another uid: the write of a claim must not be torn there. */
  lemma TornClaimIff(c: Claim, cut: nat)
    requires SlugWord(c.slug) && cut < |Render(c)|
    ensures Parse(Render(c)[..cut])
      == if cut <= UidAt(c) then None
         else Some(Claim(c.slug, WithSign(c.uid < 0, FromDecimal(Digits(c)[..cut - UidAt(c)]))))
  {
    RenderSplits(c);
    if cut <= 9 + |c.slug| {
      EarlyCut(c.slug, Sign(c.uid) + Digits(c), Render(c), cut);
    } else {
      LateCut(c.slug, c.uid, Digits(c), Render(c), cut);
    }
  }

  /** Nothing of the uid left, or not even its name. */
  lemma EarlyCut(slug: string, u: string, text: string, cut: nat)
    requires SlugWord(slug) && text == ("slug=" + slug) + ("\n" + (("uid=" + u) + ("\n" + "")))
    requires cut <= 9 + |slug|
    ensures Parse(text[..cut]).None?
  {
    if cut <= 5 + |slug| {
      CutBeforeSecond(slug, "\n" + (("uid=" + u) + ("\n" + "")), cut);
      OneLineNeverParses(text[..cut]);
    } else {
      var name := ("uid=" + u)[..cut - 6 - |slug|];
      assert text[..cut] == ("slug=" + slug) + ("\n" + name);
      CutOfUid(u, cut - 6 - |slug|);
      CutInName(slug, name);
    }
  }

  function TornAt(slug: string, n: int, digits: string, at: nat): Option<Claim>
    requires AllDigits(digits) && at <= |Sign(n)| + |digits|
  {
    if at <= |Sign(n)| then None else Some(Claim(slug, WithSign(n < 0, FromDecimal(digits[..at - |Sign(n)|]))))
  }

  lemma LateCut(slug: string, n: int, digits: string, text: string, cut: nat)
    requires SlugWord(slug) && text == ("slug=" + slug) + ("\n" + (("uid=" + (Sign(n) + digits)) + ("\n" + "")))
    requires AllDigits(digits) && 10 + |slug| <= cut <= 10 + |slug| + |Sign(n)| + |digits|
    ensures Parse(text[..cut]) == TornAt(slug, n, digits, cut - 10 - |slug|)
  {
    var at := cut - 10 - |slug|;
    var u := (Sign(n) + digits)[..at];
    assert text[..cut] == ("slug=" + slug) + ("\n" + ("uid=" + u));
    CutNumber(n, digits, at);
    if at < |Sign(n)| {
      PrintedInt(0, "");
    } else {
      PrintedInt(n, digits[..at - |Sign(n)|]);
    }
    UidCut(slug, u);
  }

  lemma CutOfUid(u: string, at: nat)
    requires at < 4
    ensures var name := ("uid=" + u)[..at];
      name == "" || (!IsSpace(name[0]) && '=' !in name && OneLine(name))
  {
    assert ("uid=" + u)[..at] == "uid"[..at];
  }
}
