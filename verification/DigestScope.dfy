/** The digest-only merge check: scripts/digest-line-scope.js. */
module DigestScope {
  import opened Options
  import opened Strings

  // ---- the FROM line -------------------------------------------------------

  datatype From = From(image: string, tag: string, digest: string)

  predicate LowerDigit(c: char) { 'a' <= c <= 'z' || '0' <= c <= '9' }
  predicate ImageChar(c: char) { LowerDigit(c) || c == '.' || c == '_' || c == '/' || c == '-' }
  predicate TagChar(c: char) { LowerDigit(c) || 'A' <= c <= 'Z' || c == '.' || c == '_' || c == '-' }
  predicate HexChar(c: char) { '0' <= c <= '9' || 'a' <= c <= 'f' }

  predicate Image(s: string) { s != "" && LowerDigit(s[0]) && forall c | c in s :: ImageChar(c) }
  predicate Tag(s: string) { s != "" && forall c | c in s :: TagChar(c) }
  predicate Digest(s: string) { |s| == 64 && forall c | c in s :: HexChar(c) }

  predicate Valid(f: From) { Image(f.image) && Tag(f.tag) && Digest(f.digest) }

  /** What the parts of a reference are written in. */
  lemma ValidIff(f: From)
    ensures Valid(f) <==>
      && Spelled(f.image, SMALL, DIGITS, "._/-", "") && (f.image[0] in SMALL || f.image[0] in DIGITS)
      && Spelled(f.tag, SMALL, CAPITAL, DIGITS, "._-")
      && |f.digest| == 64 && Spelled(f.digest, DIGITS, "abcdef", "", "")
  {
    ImageIff(f.image);
    TagIff(f.tag);
    HexDigestIff(f.digest);
  }

  lemma ImageIff(s: string)
    ensures Image(s) <==> Spelled(s, SMALL, DIGITS, "._/-", "") && (s[0] in SMALL || s[0] in DIGITS)
  {
    forall c ensures ImageChar(c) <==> c in SMALL || c in DIGITS || c in "._/-" || c in "" {
      RangesAre(c);
      assert "._/-" == ['.', '_', '/', '-'];
    }
    SpelledIff(s, SMALL, DIGITS, "._/-", "", c => ImageChar(c));
    if s != "" {
      RangesAre(s[0]);
    }
  }

  lemma TagIff(s: string)
    ensures Tag(s) <==> Spelled(s, SMALL, CAPITAL, DIGITS, "._-")
  {
    forall c ensures TagChar(c) <==> c in SMALL || c in CAPITAL || c in DIGITS || c in "._-" {
      RangesAre(c);
      assert "._-" == ['.', '_', '-'];
    }
    SpelledIff(s, SMALL, CAPITAL, DIGITS, "._-", c => TagChar(c));
  }

  lemma HexDigestIff(s: string)
    ensures Digest(s) <==> |s| == 64 && Spelled(s, DIGITS, "abcdef", "", "")
  {
    forall c ensures HexChar(c) <==> c in DIGITS || c in "abcdef" || c in "" || c in "" {
      RangesAre(c);
    }
    SpelledIff(s, DIGITS, "abcdef", "", "", c => HexChar(c));
  }

  function Print(f: From): string { "FROM " + (f.image + (":" + (f.tag + ("@sha256:" + f.digest)))) }

  /** What stands before and after the first `mark`. */
  function Split(s: string, mark: char): Option<(string, string)> {
    var i := Find(s, [mark]);
    if i == -1 then None else Some((s[..i], s[i + 1..]))
  }

  function ParseDigest(image: string, tag: string, s: string): Option<From> {
    var digest := After(s, "sha256:");
    if digest.None? || !Valid(From(image, tag, digest.value)) then None else Some(From(image, tag, digest.value))
  }

  function ParseTagged(image: string, s: string): Option<From> {
    var tagged := Split(s, '@');
    if tagged.None? then None else ParseDigest(image, tagged.value.0, tagged.value.1)
  }

  function ParseNamed(s: string): Option<From> {
    var named := Split(s, ':');
    if named.None? then None else ParseTagged(named.value.0, named.value.1)
  }

  /** `parseFromLine`. */
  function ParseFrom(line: string): Option<From> {
    var rest := After(line, "FROM ");
    if rest.None? then None else ParseNamed(rest.value)
  }

  lemma SplitIff(s: string, mark: char, a: string, b: string)
    ensures Split(s, mark) == Some((a, b)) <==> mark !in a && s == a + ([mark] + b)
  {
    var i := Find(s, [mark]);
    FindChar(s, mark);
    if i != -1 {
      SplitAt(s, i, mark);
    }
    if mark !in a && s == a + ([mark] + b) {
      assert s[|a|] == mark && s[..|a|] == a && s[|a| + 1..] == b;
      InPrefix(s, |a|, i);
      InPrefix(s, i, |a|);
    }
  }

  lemma AfterIff(s: string, head: string, rest: string)
    ensures After(s, head) == Some(rest) <==> s == head + rest
  {
    AfterHead(head, rest);
    if StartsWith(s, head) {
      assert s == head + s[|head|..];
    }
  }

  lemma DigestIff(image: string, tag: string, s: string, f: From)
    ensures ParseDigest(image, tag, s) == Some(f)
      <==> f.image == image && f.tag == tag && Valid(f) && s == "sha256:" + f.digest
  {
    AfterIff(s, "sha256:", f.digest);
  }

  lemma TaggedIff(image: string, s: string, f: From)
    ensures ParseTagged(image, s) == Some(f)
      <==> f.image == image && Valid(f) && s == f.tag + (['@'] + ("sha256:" + f.digest))
  {
    var after := "sha256:" + f.digest;
    SplitIff(s, '@', f.tag, after);
    DigestIff(image, f.tag, after, f);
    var split := Split(s, '@');
    if split.Some? {
      DigestIff(image, split.value.0, split.value.1, f);
    }
  }

  lemma NamedIff(s: string, f: From)
    ensures ParseNamed(s) == Some(f)
      <==> Valid(f) && s == f.image + ([':'] + (f.tag + (['@'] + ("sha256:" + f.digest))))
  {
    var after := f.tag + (['@'] + ("sha256:" + f.digest));
    SplitIff(s, ':', f.image, after);
    TaggedIff(f.image, after, f);
    var split := Split(s, ':');
    if split.Some? {
      TaggedIff(split.value.0, split.value.1, f);
    }
  }

  /** Parsing is unique and undoes printing: a line is read as `f` exactly when it is `f` printed. */
  lemma ParseFromIff(line: string, f: From)
    ensures ParseFrom(line) == Some(f) <==> Valid(f) && line == Print(f)
  {
    var named := f.image + ([':'] + (f.tag + (['@'] + ("sha256:" + f.digest))));
    assert "@sha256:" + f.digest == ['@'] + ("sha256:" + f.digest);
    AfterIff(line, "FROM ", named);
    NamedIff(named, f);
    if StartsWith(line, "FROM ") {
      AfterIff(line, "FROM ", line[5..]);
      NamedIff(line[5..], f);
    }
  }

  // ---- the patch ------------------------------------------------------------

  /** A file: its lines, and whether the last one ends in a line break. */
  datatype File = File(lines: seq<string>, ended: bool)

  /** One line of a hunk: removed, added, or the note that a file's last line has no line break. */
  datatype Mark = Removed(line: string) | Added(line: string) | NotEnded

  /** A hunk without context: at line `at` of the old file, what goes and what comes. */
  datatype Hunk = Hunk(title: string, at: nat, body: seq<Mark>)

  function Gone(body: seq<Mark>): seq<string> {
    if body == [] then []
    else Gone(body[..|body| - 1]) + if body[|body| - 1].Removed? then [body[|body| - 1].line] else []
  }

  function Come(body: seq<Mark>): seq<string> {
    if body == [] then []
    else Come(body[..|body| - 1]) + if body[|body| - 1].Added? then [body[|body| - 1].line] else []
  }

  /** From line `i` of the old file and line `j` of the new one, the hunks are the only difference. */
  predicate Takes(oldLines: seq<string>, newLines: seq<string>, hunks: seq<Hunk>, i: nat, j: nat)
    decreases |hunks|
  {
    if hunks == [] then i <= |oldLines| && j <= |newLines| && oldLines[i..] == newLines[j..]
    else
      var h := hunks[0];
      var gone, come, k := Gone(h.body), Come(h.body), j + h.at - i;
      && i <= h.at && h.at + |gone| <= |oldLines| && k + |come| <= |newLines|
      && oldLines[i..h.at] == newLines[j..k]
      && oldLines[h.at..h.at + |gone|] == gone && newLines[k..k + |come|] == come
      && Takes(oldLines, newLines, hunks[1..], h.at + |gone|, k + |come|)
  }

  /** The hunks are a diff from one file to the other; a change in how the file ends is noted in one of them. */
  predicate IsDiff(before: File, after: File, hunks: seq<Hunk>) {
    && Takes(before.lines, after.lines, hunks, 0, 0)
    && (before.ended != after.ended ==> exists h | h in hunks :: NotEnded in h.body)
  }

  function MarkText(m: Mark): string {
    match m
    case Removed(line) => "-" + line
    case Added(line) => "+" + line
    case NotEnded => "\\ No newline at end of file"
  }

  function BodyText(body: seq<Mark>): seq<string> { seq(|body|, i requires 0 <= i < |body| => MarkText(body[i])) }

  function HunksText(hunks: seq<Hunk>): seq<string> {
    if hunks == [] then []
    else [hunks[0].title] + BodyText(hunks[0].body) + HunksText(hunks[1..])
  }

  predicate IsTitle(line: string) { StartsWith(line, "@@") }

  // ---- the check ------------------------------------------------------------

  predicate BadHeader(line: string) {
    || StartsWith(line, "old mode") || StartsWith(line, "new mode") || StartsWith(line, "deleted file")
    || StartsWith(line, "new file") || StartsWith(line, "rename ") || StartsWith(line, "copy ")
    || StartsWith(line, "Binary files") || StartsWith(line, "similarity index")
  }

  /** The header lines git gives a change of contents alone are no objection. */
  lemma ContentHeaderPasses(rest: string)
    ensures !BadHeader("diff --git " + rest) && !BadHeader("index " + rest)
    ensures !BadHeader("--- " + rest) && !BadHeader("+++ " + rest)
  {
    HeadTells("diff --git ", rest);
    HeadTells("index ", rest);
    HeadTells("--- ", rest);
    HeadTells("+++ ", rest);
  }

  lemma HeadTells(head: string, rest: string)
    requires |head| >= 3
    ensures (head + rest)[0] == head[0] && (head + rest)[1] == head[1] && (head + rest)[2] == head[2]
  {
  }

  /** The lines for anything else it may do to a file are. */
  lemma OtherHeadersRefused(rest: string)
    ensures BadHeader("old mode " + rest) && BadHeader("new mode " + rest)
    ensures BadHeader("deleted file mode " + rest) && BadHeader("new file mode " + rest)
    ensures BadHeader("rename from " + rest) && BadHeader("rename to " + rest)
    ensures BadHeader("copy from " + rest) && BadHeader("copy to " + rest)
    ensures BadHeader("Binary files " + rest) && BadHeader("similarity index " + rest)
  {
    StartsSo("old mode", " " + rest, "old mode " + rest);
    StartsSo("new mode", " " + rest, "new mode " + rest);
    StartsSo("deleted file", " mode " + rest, "deleted file mode " + rest);
    StartsSo("new file", " mode " + rest, "new file mode " + rest);
    StartsSo("rename ", "from " + rest, "rename from " + rest);
    StartsSo("rename ", "to " + rest, "rename to " + rest);
    StartsSo("copy ", "from " + rest, "copy from " + rest);
    StartsSo("copy ", "to " + rest, "copy to " + rest);
    StartsSo("Binary files", " " + rest, "Binary files " + rest);
    StartsSo("similarity index", " " + rest, "similarity index " + rest);
  }

  lemma StartsSo(head: string, rest: string, line: string)
    requires line == head + rest
    ensures StartsWith(line, head)
  {
  }

  function Titles(lines: seq<string>): nat {
    if lines == [] then 0 else Titles(lines[1..]) + if IsTitle(lines[0]) then 1 else 0
  }

  /** `findIndex`: the first hunk title, or the end. */
  function FirstTitle(lines: seq<string>): (n: nat)
    ensures n <= |lines| && (forall i | 0 <= i < n :: !IsTitle(lines[i])) && (n < |lines| ==> IsTitle(lines[n]))
  {
    if lines == [] || IsTitle(lines[0]) then 0 else FirstTitle(lines[1..]) + 1
  }

  /** Two lines that replace one FROM line by another of the same image. */
  predicate ReplacesFrom(body: seq<string>) {
    && |body| == 2 && body[0] != "" && body[0][0] == '-' && body[1] != "" && body[1][0] == '+'
    && var before, after := ParseFrom(body[0][1..]), ParseFrom(body[1][1..]);
       before.Some? && after.Some? && before.value.image == after.value.image
  }

  /** What an applicable change must be. */
  predicate InScope(files: seq<string>, lines: seq<string>) {
    && files == ["M\tDockerfile"]
    && (forall i | 0 <= i < FirstTitle(lines) :: !BadHeader(lines[i]))
    && Titles(lines) == 1 && FirstTitle(lines) < |lines| && ReplacesFrom(lines[FirstTitle(lines) + 1..])
  }

  lemma {:induction false} TitlesConcat(a: seq<string>, b: seq<string>)
    ensures Titles(a + b) == Titles(a) + Titles(b)
    ensures (forall l | l in a :: !IsTitle(l)) ==> Titles(a) == 0
  {
    if a == [] {
      assert a + b == b;
    } else {
      assert (a + b)[1..] == a[1..] + b;
      assert a == [a[0]] + a[1..];
      TitlesConcat(a[1..], b);
    }
  }

  lemma MarkIsNoTitle(m: Mark)
    ensures !IsTitle(MarkText(m)) && MarkText(m) != ""
    ensures MarkText(m)[0] == '-' ==> m.Removed? && MarkText(m)[1..] == m.line
    ensures MarkText(m)[0] == '+' ==> m.Added? && MarkText(m)[1..] == m.line
  {
    assert "@@"[0] == '@' && MarkText(m)[0] != '@';
  }

  lemma {:induction false} TitlesOfHunks(hunks: seq<Hunk>)
    requires forall h | h in hunks :: IsTitle(h.title)
    ensures Titles(HunksText(hunks)) == |hunks|
  {
    if hunks != [] {
      var h, rest := hunks[0], hunks[1..];
      assert hunks == [h] + rest;
      forall l | l in BodyText(h.body) ensures !IsTitle(l) {
        var i :| 0 <= i < |h.body| && l == MarkText(h.body[i]);
        MarkIsNoTitle(h.body[i]);
      }
      TitlesOfHunks(rest);
      TitlesConcat(BodyText(h.body), HunksText(rest));
      TitlesConcat([h.title], BodyText(h.body) + HunksText(rest));
      assert [h.title] + BodyText(h.body) + HunksText(rest) == [h.title] + (BodyText(h.body) + HunksText(rest));
      assert Titles([h.title]) == 1;
    }
  }

  lemma {:induction false} FirstTitleAfter(header: seq<string>, title: string, rest: seq<string>)
    requires (forall l | l in header :: !IsTitle(l)) && IsTitle(title)
    ensures FirstTitle(header + [title] + rest) == |header|
  {
    var all := header + [title] + rest;
    assert all[|header|] == title;
    assert forall i | 0 <= i < |header| :: all[i] == header[i] && header[i] in header;
  }

  /** The text of a patch, line by line. */
  predicate IsPatch(lines: seq<string>, header: seq<string>, hunks: seq<Hunk>) {
    && lines == header + HunksText(hunks)
    && (forall l | l in header :: !("@@" <= l)) && forall h | h in hunks :: "@@" <= h.title
  }

  lemma PatchShape(lines: seq<string>, header: seq<string>, hunks: seq<Hunk>)
    requires IsPatch(lines, header, hunks) && Titles(lines) == 1
    ensures |hunks| == 1 && FirstTitle(lines) == |header| && lines[|header| + 1..] == BodyText(hunks[0].body)
  {
    TitlesConcat(header, HunksText(hunks));
    TitlesOfHunks(hunks);
    var h := hunks[0];
    assert hunks == [h] && HunksText(hunks[1..]) == [];
    assert lines == header + [h.title] + BodyText(h.body);
    FirstTitleAfter(header, h.title, BodyText(h.body));
  }

  lemma BodyReplaces(body: seq<Mark>) returns (x: string, y: string)
    requires ReplacesFrom(BodyText(body))
    ensures body == [Removed(x), Added(y)]
    ensures ParseFrom(x).Some? && ParseFrom(y).Some? && ParseFrom(x).value.image == ParseFrom(y).value.image
  {
    MarkIsNoTitle(body[0]);
    MarkIsNoTitle(body[1]);
    x, y := body[0].line, body[1].line;
    assert BodyText(body)[0] == MarkText(body[0]) && BodyText(body)[1] == MarkText(body[1]);
  }

  /** An accepted patch is one hunk that replaces one FROM line by one of the same image. */
  lemma InScopeIsOneLine(files: seq<string>, lines: seq<string>, header: seq<string>, hunks: seq<Hunk>)
    returns (x: string, y: string)
    requires InScope(files, lines) && IsPatch(lines, header, hunks)
    ensures |hunks| == 1 && hunks[0].body == [Removed(x), Added(y)]
    ensures ParseFrom(x).Some? && ParseFrom(y).Some? && ParseFrom(x).value.image == ParseFrom(y).value.image
  {
    PatchShape(lines, header, hunks);
    x, y := BodyReplaces(hunks[0].body);
  }

  predicate CleanHeader(header: seq<string>) { forall l | l in header :: !BadHeader(l) }

  ghost predicate OneFromLine(body: seq<Mark>) {
    exists f, g :: Valid(f) && Valid(g) && f.image == g.image && body == [Removed(Print(f)), Added(Print(g))]
  }

  lemma ReplacesFromIff(body: seq<Mark>)
    ensures ReplacesFrom(BodyText(body)) <==> OneFromLine(body)
  {
    if ReplacesFrom(BodyText(body)) {
      var x, y := BodyReplaces(body);
      var f, g := ParseFrom(x).value, ParseFrom(y).value;
      ParseFromIff(x, f);
      ParseFromIff(y, g);
      assert body == [Removed(Print(f)), Added(Print(g))];
    }
    if OneFromLine(body) {
      var f, g :| Valid(f) && Valid(g) && f.image == g.image && body == [Removed(Print(f)), Added(Print(g))];
      ParseFromIff(Print(f), f);
      ParseFromIff(Print(g), g);
      MarkIsNoTitle(body[0]);
      MarkIsNoTitle(body[1]);
    }
  }

  /** Exactly the patches that are in scope. */
  lemma InScopeIff(files: seq<string>, lines: seq<string>, header: seq<string>, hunks: seq<Hunk>)
    requires IsPatch(lines, header, hunks)
    ensures InScope(files, lines)
      <==> files == ["M\tDockerfile"] && CleanHeader(header) && |hunks| == 1 && OneFromLine(hunks[0].body)
  {
    TitlesConcat(header, HunksText(hunks));
    TitlesOfHunks(hunks);
    HeaderEnds(lines, header, hunks);
    if |hunks| == 1 {
      PatchShape(lines, header, hunks);
      ReplacesFromIff(hunks[0].body);
      assert forall i | 0 <= i < |header| :: lines[i] == header[i] && header[i] in header;
    }
  }

  lemma HeaderEnds(lines: seq<string>, header: seq<string>, hunks: seq<Hunk>)
    requires IsPatch(lines, header, hunks)
    ensures FirstTitle(lines) == |header|
  {
    if hunks == [] {
      assert header + HunksText([]) == header;
      assert lines == header && forall i | 0 <= i < |header| :: header[i] in header && !("@@" <= header[i]);
    } else {
      var rest := BodyText(hunks[0].body) + HunksText(hunks[1..]);
      assert hunks[0] in hunks && IsTitle(hunks[0].title);
      assert lines == header + [hunks[0].title] + rest;
      FirstTitleAfter(header, hunks[0].title, rest);
    }
  }

  lemma OneLineBody(x: string, y: string)
    ensures Gone([Removed(x), Added(y)]) == [x] && Come([Removed(x), Added(y)]) == [y]
  {
    var body := [Removed(x), Added(y)];
    assert body[..1] == [Removed(x)] && [Removed(x)][..0] == [];
    assert Gone([Removed(x)]) == [x] && Come([Removed(x)]) == [];
  }

  lemma OneLineChange(oldLines: seq<string>, newLines: seq<string>, h: Hunk, x: string, y: string)
    requires Takes(oldLines, newLines, [h], 0, 0) && h.body == [Removed(x), Added(y)]
    ensures h.at < |oldLines| && oldLines[h.at] == x && newLines == oldLines[h.at := y]
  {
    OneLineBody(x, y);
    var p := h.at;
    assert [h][1..] == [];
    assert oldLines[p..p + 1] == [x] && newLines[p..p + 1] == [y];
    assert oldLines[..p] == oldLines[0..p] == newLines[0..p];
    assert oldLines == oldLines[..p] + (oldLines[p..p + 1] + oldLines[p + 1..]);
    assert newLines == newLines[..p] + (newLines[p..p + 1] + newLines[p + 1..]);
  }

  /** Whatever the two files and whatever diff git prints between them: if the change is accepted as in
      scope, the new Dockerfile is the old one with one line replaced, that line is a FROM line before
      and after, and both name the same image. */
  lemma OnlyTheFromLineChanged(before: File, after: File, files: seq<string>, lines: seq<string>, header: seq<string>,
                               hunks: seq<Hunk>)
    returns (p: nat, f: From, g: From)
    requires IsDiff(before, after, hunks) && IsPatch(lines, header, hunks) && InScope(files, lines)
    ensures p < |before.lines| && Valid(f) && Valid(g) && f.image == g.image
    ensures before.lines[p] == Print(f) && after == File(before.lines[p := Print(g)], before.ended)
  {
    var x, y := InScopeIsOneLine(files, lines, header, hunks);
    p, f, g := hunks[0].at, ParseFrom(x).value, ParseFrom(y).value;
    assert hunks == [hunks[0]];
    OneLineChange(before.lines, after.lines, hunks[0], x, y);
    ParseFromIff(x, f);
    ParseFromIff(y, g);
    assert NotEnded !in hunks[0].body;
  }

  // ---- who it applies to -------------------------------------------------------

  predicate Letter(c: char) { LowerDigit(c) || 'A' <= c <= 'Z' }

  /** `IDENTITY_FORM`. */
  predicate IdentityForm(s: string) {
    && EndsWith(s, "[bot]") && |s| > 5 && Letter(s[0])
    && forall i | 0 <= i < |s| - 5 :: Letter(s[i]) || s[i] == '-'
  }

  /** An identity is an app's slug and `[bot]`: letters, digits and hyphens, the first no hyphen. */
  lemma IdentityFormIff(s: string)
    ensures IdentityForm(s) <==>
      exists slug :: s == slug + "[bot]" && Spelled(slug, SMALL, CAPITAL, DIGITS, "-") && slug[0] != '-'
  {
    if IdentityForm(s) {
      var slug := s[..|s| - 5];
      assert s == slug + s[|s| - 5..] && forall i | 0 <= i < |slug| :: slug[i] == s[i];
      SlugIff(slug);
    }
    if slug :| s == slug + "[bot]" && Spelled(slug, SMALL, CAPITAL, DIGITS, "-") && slug[0] != '-' {
      assert s[|s| - 5..] == "[bot]";
      SlugIff(slug);
      forall i | 0 <= i < |slug| ensures s[i] == slug[i] && slug[i] in slug {
      }
    }
  }

  lemma SlugIff(slug: string)
    ensures Spelled(slug, SMALL, CAPITAL, DIGITS, "-") && slug[0] != '-'
      <==> slug != "" && Letter(slug[0]) && forall c | c in slug :: Letter(c) || c == '-'
  {
    forall c ensures Letter(c) || c == '-' <==> c in SMALL || c in CAPITAL || c in DIGITS || c in "-" {
      RangesAre(c);
    }
    SpelledIff(slug, SMALL, CAPITAL, DIGITS, "-", c => Letter(c) || c == '-');
  }

  datatype Problem =
    | BadIdentity | NoAuthor | OtherFiles | HeaderChanged(line: string)
    | NotOneHunk | NotOneLine | NotFromLines | OtherImage

  datatype Result = Result(applies: bool, ok: bool, problems: seq<Problem>)

  function HeaderProblems(header: seq<string>): seq<Problem> {
    if header == [] then []
    else HeaderProblems(header[..|header| - 1])
           + if BadHeader(header[|header| - 1]) then [HeaderChanged(header[|header| - 1])] else []
  }

  lemma {:induction false} HeaderProblemsIff(header: seq<string>)
    ensures HeaderProblems(header) == [] <==> forall i | 0 <= i < |header| :: !BadHeader(header[i])
  {
    if header != [] {
      HeaderProblemsIff(header[..|header| - 1]);
      assert forall i | 0 <= i < |header| - 1 :: header[..|header| - 1][i] == header[i];
    }
  }

  /** The lines of a command's output that are not empty. */
  function NonEmpty(lines: seq<string>): seq<string> {
    if lines == [] then []
    else NonEmpty(lines[..|lines| - 1]) + if lines[|lines| - 1] == "" then [] else [lines[|lines| - 1]]
  }

  /** The only line that is not empty. */
  predicate OnlyLine(lines: seq<string>, line: string) {
    exists i | 0 <= i < |lines| :: lines[i] == line && forall j | 0 <= j < |lines| && j != i :: lines[j] == ""
  }

  /** The name-status output passes exactly when its one line says that the Dockerfile was modified. */
  lemma {:induction false} OnlyLineIff(lines: seq<string>, line: string)
    requires line != ""
    ensures NonEmpty(lines) == [line] <==> OnlyLine(lines, line)
    ensures NonEmpty(lines) == [] <==> forall j | 0 <= j < |lines| :: lines[j] == ""
    decreases |lines|
  {
    if lines != [] {
      var front, last := lines[..|lines| - 1], lines[|lines| - 1];
      OnlyLineIff(front, line);
      OnlyLineNext(front, last, line, lines);
      if last != "" {
        assert |NonEmpty(lines)| == |NonEmpty(front)| + 1 && NonEmpty(lines)[|NonEmpty(front)|] == last;
        assert NonEmpty(front) == [] ==> NonEmpty(lines) == [last];
      }
      assert forall j | 0 <= j < |front| :: lines[j] == front[j];
    }
  }

  lemma OnlyLineNext(front: seq<string>, last: string, line: string, lines: seq<string>)
    requires line != "" && lines == front + [last]
    ensures OnlyLine(lines, line)
      <==> if last == "" then OnlyLine(front, line) else last == line && forall j | 0 <= j < |front| :: front[j] == ""
  {
    assert forall j | 0 <= j < |front| :: lines[j] == front[j];
    if OnlyLine(lines, line) {
      var i :| 0 <= i < |lines| && lines[i] == line && forall j | 0 <= j < |lines| && j != i :: lines[j] == "";
      assert last == "" ==> front[i] == line;
    }
    if i :| 0 <= i < |front| && front[i] == line && forall j | 0 <= j < |front| && j != i :: front[j] == "" {
      assert last == "" ==> lines[i] == line;
    }
    assert lines[|front|] == last;
  }

  /** The patch's text split at line breaks, the empty piece after the last one dropped. */
  function PatchLines(split: seq<string>): seq<string> {
    if split != [] && split[|split| - 1] == "" then split[..|split| - 1] else split
  }

  /** The loop over the lines before the first hunk. */
  method CheckHeader(lines: seq<string>, n: nat) returns (problems: seq<Problem>)
    requires n <= |lines|
    ensures problems == HeaderProblems(lines[..n])
  {
    problems := [];
    for i := 0 to n
      invariant problems == HeaderProblems(lines[..i])
    {
      assert lines[..i + 1][..i] == lines[..i];
      if BadHeader(lines[i]) {
        problems := problems + [HeaderChanged(lines[i])];
      }
    }
  }

  /** `evaluate`, on the two outputs split at line breaks. */
  method Evaluate(author: string, login: string, nameStatus: seq<string>, patch: seq<string>) returns (r: Result)
    ensures Strip(login) == "" ==> r == Result(false, true, [])
    ensures Strip(login) != "" && !IdentityForm(Strip(login)) ==> r.applies && !r.ok
    ensures Strip(login) != "" && IdentityForm(Strip(login)) && Strip(author) == "" ==> r.applies && !r.ok
    ensures (IdentityForm(Strip(login)) && Strip(author) != "" && LowerAll(author) != LowerAll(Strip(login))) ==>
      r == Result(false, true, [])
    ensures (IdentityForm(Strip(login)) && Strip(author) != "" && LowerAll(author) == LowerAll(Strip(login))) ==>
      r.applies && (r.ok <==> InScope(NonEmpty(nameStatus), PatchLines(patch)))
    ensures r.ok <==> r.problems == []
  {
    var identity := Strip(login);
    if identity == "" {
      return Result(false, true, []);
    }
    if !IdentityForm(identity) {
      return Result(true, false, [BadIdentity]);
    }
    if Strip(author) == "" {
      return Result(true, false, [NoAuthor]);
    }
    if LowerAll(author) != LowerAll(identity) {
      return Result(false, true, []);
    }
    var problems := Judge(NonEmpty(nameStatus), PatchLines(patch));
    return Result(true, problems == [], problems);
  }

  /** The one hunk's own lines. */
  method JudgeBody(body: seq<string>) returns (problem: Option<Problem>)
    ensures problem.None? <==> ReplacesFrom(body)
  {
    if |body| != 2 || body[0] == "" || body[0][0] != '-' || body[1] == "" || body[1][0] != '+' {
      return Some(NotOneLine);
    }
    var before, after := ParseFrom(body[0][1..]), ParseFrom(body[1][1..]);
    if before.None? || after.None? {
      return Some(NotFromLines);
    }
    return if before.value.image != after.value.image then Some(OtherImage) else None;
  }

  /** The part of `evaluate` that reads the change. */
  method Judge(files: seq<string>, lines: seq<string>) returns (problems: seq<Problem>)
    ensures problems == [] <==> InScope(files, lines)
  {
    problems := if files == ["M\tDockerfile"] then [] else [OtherFiles];
    var first := FirstTitle(lines);
    var bad := CheckHeader(lines, first);
    HeaderProblemsIff(lines[..first]);
    assert forall i | 0 <= i < first :: lines[..first][i] == lines[i];
    problems := problems + bad;
    SomeTitle(lines);
    if Titles(lines) != 1 {
      problems := problems + [NotOneHunk];
    } else {
      var problem := JudgeBody(lines[first + 1..]);
      if problem.Some? {
        problems := problems + [problem.value];
      }
    }
  }

  lemma {:induction false} SomeTitle(lines: seq<string>)
    ensures Titles(lines) > 0 <==> FirstTitle(lines) < |lines|
  {
    if lines != [] && !IsTitle(lines[0]) {
      SomeTitle(lines[1..]);
    }
  }
}
