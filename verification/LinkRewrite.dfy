/**
 The string half of db/provision/rewrite_media_links.py: which address pairs
 make "no old link remains, ever" true, and why a second run changes nothing.
 */
module LinkRewrite {
  import opened Strings

  datatype LinkMap = LinkMap(source: string, target: string)

  /** `prefix.replace("/", "\\/")`: the form an address takes inside JSON text. */
  function Escaped(s: string): string {
    Replace(s, "/", "\\/")
  }

  /** What constructing a `LinkMap` accepts. */
  predicate Accepted(links: LinkMap) {
    && StartsWith(links.source, "https://") && EndsWith(links.source, "/")
    && StartsWith(links.target, "https://") && EndsWith(links.target, "/")
    && !Occurs(links.target, links.source) && !Occurs(links.source, links.target)
  }

  /** The plain pair first, then the slash-escaped pair, over the result. */
  function RewriteValue(value: string, links: LinkMap): string
    requires Accepted(links)
  {
    EscapedNonEmpty(links.source);
    Replace(Replace(value, links.source, links.target), Escaped(links.source), Escaped(links.target))
  }

  predicate HasOld(value: string, links: LinkMap) {
    Occurs(value, links.source) || Occurs(value, Escaped(links.source))
  }

  lemma EscapedNonEmpty(s: string)
    requires s != ""
    ensures Escaped(s) != ""
  {
    ReplaceCharIsMap(s, '/', "\\/");
  }

  /* One pass. */

  /** No suffix of `sub` begins an occurrence of `pat` that kept text could finish. */
  predicate NoRightOverlap(pat: string, sub: string) {
    forall k | 0 < k < |pat| && k <= |sub| :: sub[|sub| - k..] != pat[..k]
  }

  predicate OccursBefore(s: string, pat: string, end: int) {
    exists j | 0 <= j < end :: OccursAt(s, pat, j)
  }

  /** The end of `pat` is the start of `sub`, `k` characters long, and kept text
      that could pair the two holds no earlier match. */
  predicate OpenLeftOverlap(pat: string, sub: string, k: int)
    requires 0 < k < |pat|
  {
    && k <= |sub| && pat[|pat| - k..] == sub[..k]
    && !OccursBefore(pat[..|pat| - k] + pat, pat, |pat| - k)
  }

  /** Wherever the end of `pat` is the start of `sub`, the scan consumes an earlier match first. */
  predicate LeftOverlapsPreempted(pat: string, sub: string) {
    forall k | 0 < k < |pat| :: !OpenLeftOverlap(pat, sub, k)
  }

  predicate SafePair(pat: string, sub: string) {
    !Occurs(sub, pat) && NoRightOverlap(pat, sub) && LeftOverlapsPreempted(pat, sub)
  }

  /** Where an occurrence in `head + sub + tail` can sit. */
  lemma OccurrencePlacement(head: string, sub: string, tail: string, x: string, p: int)
    requires OccursAt(head + sub + tail, x, p)
    ensures p + |x| <= |head| ==> OccursAt(head, x, p)
    ensures p >= |head| + |sub| ==> OccursAt(tail, x, p - |head| - |sub|)
    ensures |head| <= p && p + |x| <= |head| + |sub| ==> OccursAt(sub, x, p - |head|)
    ensures p <= |head| && |head| + |sub| <= p + |x| ==> OccursAt(x, sub, |head| - p)
    ensures p < |head| < p + |x| < |head| + |sub| ==>
      var k := p + |x| - |head|; head[p..] == x[..|x| - k] && x[|x| - k..] == sub[..k]
    ensures |head| < p < |head| + |sub| < p + |x| ==>
      var k := |head| + |sub| - p; sub[|sub| - k..] == x[..k]
  {
    var whole := head + sub + tail;
    OccursChars(whole, x, p);
    if p + |x| <= |head| {
      assert head[p..p + |x|] == x;
    } else if p >= |head| + |sub| {
      assert tail[p - |head| - |sub|..p - |head| - |sub| + |x|] == x;
    }
  }

  /** A safe pair is never reintroduced across a replacement boundary. */
  lemma {:induction false} SafePairClears(value: string, pat: string, sub: string)
    requires pat != "" && !Occurs(pat, sub) && SafePair(pat, sub)
    ensures !Occurs(Replace(value, pat, sub), pat)
    decreases |value|
  {
    FindIsFirst(value, pat);
    var i := Find(value, pat);
    if i != -1 {
      var head, rest := value[..i], value[i + |pat|..];
      var tail := Replace(rest, pat, sub);
      SafePairClears(rest, pat, sub);
      forall p | 0 <= p <= |head + sub + tail| ensures !OccursAt(head + sub + tail, pat, p) {
        if OccursAt(head + sub + tail, pat, p) {
          OccurrencePlacement(head, sub, tail, pat, p);
          if p + |pat| <= i {
            OccursInSlice(value, pat, 0, i, p);
          } else if p < i < p + |pat| < i + |sub| {
            LeftOverlapIsPreempted(value, pat, sub, i, p);
          }
        }
      }
    }
  }

  lemma LeftOverlapIsPreempted(value: string, pat: string, sub: string, i: int, p: int)
    requires pat != "" && LeftOverlapsPreempted(pat, sub) && OccursAt(value, pat, i)
    requires 0 <= p < i < p + |pat| < i + |sub|
    requires var k := p + |pat| - i; value[p..i] == pat[..|pat| - k] && pat[|pat| - k..] == sub[..k]
    ensures OccursBefore(value, pat, i)
  {
    var k := p + |pat| - i;
    var window := pat[..|pat| - k] + pat;
    assert window == value[p..i + |pat|] by {
      assert value[p..i + |pat|] == value[p..i] + value[i..i + |pat|];
    }
    assert !OpenLeftOverlap(pat, sub, k);
    var j :| 0 <= j < |pat| - k && OccursAt(window, pat, j);
    OccursInSlice(value, pat, p, i + |pat|, j);
  }

  /** A value that one pass leaves dirty, for every unsafe pair. */
  ghost function Witness(pat: string, sub: string): (w: string)
    requires !SafePair(pat, sub)
  {
    if Occurs(sub, pat) then pat
    else if !NoRightOverlap(pat, sub) then
      var k :| 0 < k < |pat| && k <= |sub| && sub[|sub| - k..] == pat[..k];
      pat + pat[k..]
    else
      var k :| 0 < k < |pat| && OpenLeftOverlap(pat, sub, k);
      pat[..|pat| - k] + pat
  }

  lemma OneReplacement(value: string, pat: string, sub: string, i: nat)
    requires pat != "" && OccursAt(value, pat, i) && !OccursBefore(value, pat, i)
    requires |value| - i < 2 * |pat|
    ensures Replace(value, pat, sub) == value[..i] + sub + value[i + |pat|..]
  {
    FindIsFirst(value, pat);
    assert Find(value, pat) == i;
    assert Find(value[i + |pat|..], pat) == -1;
  }

  /** The converse of `SafePairClears`. */
  lemma UnsafePairLeaves(pat: string, sub: string)
    requires pat != "" && !SafePair(pat, sub)
    ensures Occurs(Replace(Witness(pat, sub), pat, sub), pat)
  {
    var w := Witness(pat, sub);
    if Occurs(sub, pat) {
      assert OccursAt(pat, pat, 0);
      OneReplacement(pat, pat, sub, 0);
      assert "" + sub + pat[|pat|..] == sub;
    } else if !NoRightOverlap(pat, sub) {
      var k :| 0 < k < |pat| && k <= |sub| && sub[|sub| - k..] == pat[..k] && w == pat + pat[k..];
      RightOverlapLeaves(pat, sub, k);
    } else {
      var k :| 0 < k < |pat| && OpenLeftOverlap(pat, sub, k) && w == pat[..|pat| - k] + pat;
      LeftOverlapLeaves(pat, sub, k);
    }
  }

  lemma OccursAtEnd(head: string, pat: string)
    ensures Occurs(head + pat, pat)
  {
    assert (head + pat)[|head|..|head| + |pat|] == pat;
    OccursIntro(head + pat, pat, |head|);
  }

  lemma RightOverlapText(pat: string, sub: string, k: int)
    requires 0 < k < |pat| && k <= |sub| && sub[|sub| - k..] == pat[..k]
    ensures sub + pat[k..] == sub[..|sub| - k] + pat
  {
    assert pat == pat[..k] + pat[k..];
    assert sub == sub[..|sub| - k] + sub[|sub| - k..];
  }

  lemma RightOverlapResult(pat: string, sub: string, w: string, k: int)
    requires 0 < k < |pat| && k <= |sub| && sub[|sub| - k..] == pat[..k] && w == pat + pat[k..]
    ensures Replace(w, pat, sub) == sub[..|sub| - k] + pat
  {
    assert w[0..0 + |pat|] == pat;
    OneReplacement(w, pat, sub, 0);
    assert w[..0] + sub + w[0 + |pat|..] == sub + pat[k..];
    RightOverlapText(pat, sub, k);
  }

  lemma RightOverlapLeaves(pat: string, sub: string, k: int)
    requires 0 < k < |pat| && k <= |sub| && sub[|sub| - k..] == pat[..k]
    ensures Occurs(Replace(pat + pat[k..], pat, sub), pat)
  {
    RightOverlapResult(pat, sub, pat + pat[k..], k);
    OccursAtEnd(sub[..|sub| - k], pat);
  }

  lemma LeftOverlapResult(pat: string, sub: string, head: string, k: int)
    requires 0 < k < |pat| && OpenLeftOverlap(pat, sub, k) && head == pat[..|pat| - k]
    ensures Replace(head + pat, pat, sub) == head + sub
  {
    var w := head + pat;
    assert w[|head|..|head| + |pat|] == pat;
    OneReplacement(w, pat, sub, |head|);
    assert w[..|head|] == head && w[|head| + |pat|..] == "";
  }

  lemma LeftOverlapLeaves(pat: string, sub: string, k: int)
    requires 0 < k < |pat| && OpenLeftOverlap(pat, sub, k)
    ensures Occurs(Replace(pat[..|pat| - k] + pat, pat, sub), pat)
  {
    var head := pat[..|pat| - k];
    LeftOverlapResult(pat, sub, head, k);
    var out := head + sub;
    assert out[0..|pat|] == pat by {
      assert sub == sub[..k] + sub[k..] && pat == head + sub[..k];
    }
    OccursIntro(out, pat, 0);
  }

  /* Two passes. */

  /** No occurrence of `x` can touch a copy of `sub`. */
  predicate Apart(x: string, sub: string) {
    && !Occurs(sub, x) && !Occurs(x, sub)
    && (forall k | 0 < k < |x| && k <= |sub| :: x[|x| - k..] != sub[..k] && sub[|sub| - k..] != x[..k])
  }

  /** Substituting text apart from `x` cannot create an `x`. */
  lemma {:induction false} ApartStaysAbsent(value: string, pat: string, sub: string, x: string)
    requires pat != "" && Apart(x, sub) && !Occurs(value, x)
    ensures !Occurs(Replace(value, pat, sub), x)
    decreases |value|
  {
    var i := Find(value, pat);
    if i != -1 {
      var head, rest := value[..i], value[i + |pat|..];
      forall q | 0 <= q <= |rest| ensures !OccursAt(rest, x, q) {
        if OccursAt(rest, x, q) {
          assert rest == value[i + |pat|..|value|];
          OccursInSlice(value, x, i + |pat|, |value|, q);
        }
      }
      forall q | 0 <= q <= |head| ensures !OccursAt(head, x, q) {
        if OccursAt(head, x, q) {
          OccursInSlice(value, x, 0, i, q);
        }
      }
      ApartStaysAbsent(rest, pat, sub, x);
      ApartAround(head, sub, Replace(rest, pat, sub), x);
    }
  }

  lemma ApartAround(head: string, sub: string, tail: string, x: string)
    requires Apart(x, sub) && !Occurs(head, x) && !Occurs(tail, x)
    ensures !Occurs(head + sub + tail, x)
  {
    forall p | 0 <= p <= |head + sub + tail| ensures !OccursAt(head + sub + tail, x, p) {
      if OccursAt(head + sub + tail, x, p) {
        OccurrencePlacement(head, sub, tail, x, p);
      }
    }
  }

  /** Text in which every slash is preceded by a backslash. */
  predicate SlashesEscaped(s: string) {
    forall i | 0 <= i < |s| && s[i] == '/' :: i > 0 && s[i - 1] == '\\'
  }

  lemma EscapedCons(s: string)
    requires s != ""
    ensures Escaped(s) == (if s[0] == '/' then "\\/" else [s[0]]) + Escaped(s[1..])
  {
    ReplaceCharIsMap(s, '/', "\\/");
    ReplaceCharIsMap(s[1..], '/', "\\/");
  }

  lemma {:induction false} EscapedShape(s: string)
    ensures Escaped(s) == MapChar(s, '/', "\\/")
    ensures SlashesEscaped(Escaped(s))
    ensures s != "" && s[0] != '/' ==> Escaped(s) != "" && Escaped(s)[0] == s[0]
  {
    ReplaceCharIsMap(s, '/', "\\/");
    if s != "" {
      EscapedCons(s);
      EscapedShape(s[1..]);
      var first := if s[0] == '/' then "\\/" else [s[0]];
      SlashesEscapedPrepend(first, Escaped(s[1..]));
    }
  }

  lemma SlashesEscapedPrepend(a: string, b: string)
    requires SlashesEscaped(a) && SlashesEscaped(b)
    ensures SlashesEscaped(a + b)
  {
    forall i | 0 <= i < |a + b| && (a + b)[i] == '/' ensures i > 0 && (a + b)[i - 1] == '\\' {
      if i >= |a| {
        assert b[i - |a|] == '/';
      }
    }
  }

  lemma EscapedAppend(a: string, b: string)
    ensures Escaped(a + b) == Escaped(a) + Escaped(b)
  {
    ReplaceCharIsMap(a + b, '/', "\\/");
    ReplaceCharIsMap(a, '/', "\\/");
    ReplaceCharIsMap(b, '/', "\\/");
    MapCharAppend(a, b, '/', "\\/");
  }

  const HTTPS := "https://"
  const HTTPS_ESCAPED := "https:\\/\\/"

  lemma EscapedScheme(scheme: string, slash: string)
    requires scheme == "https:" && slash == "/"
    ensures Escaped(slash) == "\\/"
    ensures Escaped(scheme + slash) == "https:\\/"
    ensures Escaped(scheme + slash + slash) == HTTPS_ESCAPED
  {
    EscapedShape(scheme);
    MapCharAbsent(scheme, '/', "\\/");
    EscapedShape(slash);
    assert slash[1..] == "" && MapChar("", '/', "\\/") == "";
    EscapedAppend(scheme, slash);
    EscapedAppend(scheme + slash, slash);
  }

  lemma AffixEscapes(s: string, prefix: string, suffix: string)
    requires StartsWith(s, prefix) && EndsWith(s, suffix)
    ensures StartsWith(Escaped(s), Escaped(prefix)) && EndsWith(Escaped(s), Escaped(suffix))
  {
    assert s == prefix + s[|prefix|..];
    EscapedAppend(prefix, s[|prefix|..]);
    var cut := |s| - |suffix|;
    assert s == s[..cut] + suffix;
    EscapedAppend(s[..cut], suffix);
  }

  /** The escaped form of an accepted address keeps its two ends. */
  lemma EscapedEnds(s: string)
    requires StartsWith(s, HTTPS) && EndsWith(s, "/")
    ensures StartsWith(Escaped(s), HTTPS_ESCAPED) && EndsWith(Escaped(s), "\\/") && SlashesEscaped(Escaped(s))
  {
    EscapedShape(s);
    EscapedScheme("https:", "/");
    AffixEscapes(s, "https:" + "/" + "/", "/");
    assert "https:" + "/" + "/" == HTTPS;
  }

  /** A plain address and an escaped replacement cannot touch. */
  lemma PlainApartFromEscaped(x: string, sub: string)
    requires StartsWith(x, HTTPS) && EndsWith(x, "/") && '\\' !in x
    requires StartsWith(sub, HTTPS_ESCAPED) && EndsWith(sub, "\\/") && SlashesEscaped(sub)
    ensures Apart(x, sub)
  {
    assert x[..8] == HTTPS && x[|x| - 1..] == "/";
    assert x[0] == 'h' && x[6] == '/' && x[7] == '/' && x[|x| - 1] == '/';
    assert sub[..10] == HTTPS_ESCAPED && sub[|sub| - 2..] == "\\/";
    assert sub[0] == 'h' && sub[6] == '\\' && sub[|sub| - 2] == '\\' && sub[|sub| - 1] == '/';
    forall i | 0 <= i <= |sub| ensures !OccursAt(sub, x, i) { OccursChars(sub, x, i); }
    forall i | 0 <= i <= |x| ensures !OccursAt(x, sub, i) { OccursChars(x, sub, i); }
    forall k | 0 < k < |x| && k <= |sub|
      ensures x[|x| - k..] != sub[..k] && sub[|sub| - k..] != x[..k]
    {
      assert x[|x| - k..][k - 1] == '/' && sub[|sub| - k..][k - 1] == '/';
      if k > 1 {
        assert sub[|sub| - k..][k - 2] == '\\' && x[..k][k - 2] == x[k - 2] != '\\';
        assert x[|x| - k..][k - 2] == x[|x| - 2] != '\\' && sub[..k][k - 1] == sub[k - 1];
        assert sub[..k][k - 2] == sub[k - 2];
      }
    }
  }

  /** Removing escapes: a prefix relation between escaped forms is one between the originals. */
  lemma {:induction false} EscapedPrefix(s: string, t: string)
    requires '\\' !in s && '\\' !in t && StartsWith(Escaped(s), Escaped(t))
    ensures StartsWith(s, t)
    decreases |t|
  {
    EscapedShape(s);
    EscapedShape(t);
    if t != "" {
      assert t[0] in t && s != "" && s[0] in s;
      assert s == [s[0]] + s[1..] && t == [t[0]] + t[1..];
      EscapedShape(s[1..]);
      EscapedShape(t[1..]);
      assert Escaped(s)[0] == Escaped(t)[0];
      assert s[0] == t[0];
      var n := if s[0] == '/' then 2 else 1;
      assert Escaped(s)[n..] == Escaped(s[1..]) && Escaped(t)[n..] == Escaped(t[1..]);
      EscapedPrefix(s[1..], t[1..]);
    }
  }

  /** An escaped occurrence comes from a plain one, and a later one from a later one. */
  lemma {:induction false} UnescapeOccurrence(s: string, t: string, i: int) returns (j: int)
    requires '\\' !in s && '\\' !in t && t != "" && t[0] != '/'
    requires OccursAt(Escaped(s), Escaped(t), i)
    ensures OccursAt(s, t, j) && (i > 0 ==> j > 0)
    decreases |s|
  {
    EscapedShape(s);
    EscapedShape(t);
    if i == 0 {
      assert Escaped(s)[0..|Escaped(t)|] == Escaped(s)[..|Escaped(t)|];
      EscapedPrefix(s, t);
      assert s[0..|t|] == s[..|t|];
      j := 0;
    } else {
      var n := EscapedStep(s, t, i);
      j := UnescapeOccurrence(s[1..], t, i - n);
      assert s[1..] == s[1..|s|];
      OccursInSlice(s, t, 1, |s|, j);
      j := j + 1;
    }
  }

  lemma EscapedStep(s: string, t: string, i: int) returns (n: int)
    requires '\\' !in t && t != "" && t[0] != '/' && i > 0
    requires OccursAt(Escaped(s), Escaped(t), i)
    ensures s != "" && n <= i && OccursAt(Escaped(s[1..]), Escaped(t), i - n)
  {
    EscapedShape(t);
    if s == "" {
      EscapedShape(s);
    }
    EscapedCons(s);
    var e, f := Escaped(s), Escaped(t);
    OccursChars(e, f, i);
    assert e[i + 0] == f[0];
    assert f[0] == t[0] && t[0] in t;
    n := if s[0] == '/' then 2 else 1;
    assert e[n..|e|] == Escaped(s[1..]);
    OccursToSlice(e, f, n, |e|, i);
  }

  lemma EscapedKeepsApart(a: string, b: string)
    requires '\\' !in a && '\\' !in b && StartsWith(b, HTTPS) && !Occurs(a, b)
    ensures !Occurs(Escaped(a), Escaped(b))
  {
    assert b[0] == HTTPS[0];
    forall i | 0 <= i <= |Escaped(a)| ensures !OccursAt(Escaped(a), Escaped(b), i) {
      if OccursAt(Escaped(a), Escaped(b), i) {
        var j := UnescapeOccurrence(a, b, i);
      }
    }
  }

  /* The whole rewrite. */

  predicate Plain(links: LinkMap) {
    Accepted(links) && '\\' !in links.source && '\\' !in links.target
  }

  predicate SafeLinks(links: LinkMap) {
    SafePair(links.source, links.target) && SafePair(Escaped(links.source), Escaped(links.target))
  }

  lemma PlainFacts(links: LinkMap)
    requires Plain(links)
    ensures links.source != "" && Escaped(links.source) != ""
    ensures !Occurs(Escaped(links.source), Escaped(links.target))
    ensures !Occurs(Escaped(links.target), Escaped(links.source))
    ensures Apart(links.source, Escaped(links.target))
    ensures Escaped(links.source)[0] == 'h' && '\\' in Escaped(links.source)
    ensures SlashesEscaped(Escaped(links.source))
    ensures EndsWith(Escaped(links.target), "\\/")
  {
    EscapedNonEmpty(links.source);
    EscapedKeepsApart(links.source, links.target);
    EscapedKeepsApart(links.target, links.source);
    EscapedEnds(links.source);
    EscapedEnds(links.target);
    PlainApartFromEscaped(links.source, Escaped(links.target));
    assert Escaped(links.source)[6] == HTTPS_ESCAPED[6];
    assert Escaped(links.source)[0] == HTTPS_ESCAPED[0];
  }

  lemma SafeLinksClear(value: string, links: LinkMap)
    requires Plain(links) && SafeLinks(links)
    ensures !HasOld(RewriteValue(value, links), links)
  {
    PlainFacts(links);
    var first := Replace(value, links.source, links.target);
    SafePairClears(value, links.source, links.target);
    SafePairClears(first, Escaped(links.source), Escaped(links.target));
    ApartStaysAbsent(first, Escaped(links.source), Escaped(links.target), links.source);
  }

  /** Only characters of the pattern and the substitute appear after a replacement of pattern text. */
  lemma {:induction false} ReplaceChars(value: string, pat: string, sub: string, c: char)
    requires pat != "" && c !in value && c !in sub
    ensures c !in Replace(value, pat, sub)
    decreases |value|
  {
    var i := Find(value, pat);
    if i != -1 {
      ReplaceChars(value[i + |pat|..], pat, sub, c);
    }
  }

  lemma ReplaceAbsent(value: string, pat: string, sub: string)
    requires pat != "" && !Occurs(value, pat)
    ensures Replace(value, pat, sub) == value
  {
    FindIsFirst(value, pat);
  }

  lemma AbsentByChar(value: string, pat: string, c: char)
    requires c in pat && c !in value
    ensures !Occurs(value, pat)
  {
    var k :| 0 <= k < |pat| && pat[k] == c;
    forall i | 0 <= i <= |value| ensures !OccursAt(value, pat, i) { OccursChars(value, pat, i); }
  }

  /** Where neither address holds the other, replacing an occurrence changes the text. */
  lemma ReplaceChanges(value: string, pat: string, sub: string)
    requires pat != "" && Occurs(value, pat) && !Occurs(sub, pat) && !Occurs(pat, sub)
    ensures Replace(value, pat, sub) != value
  {
    var i, r := Find(value, pat), Replace(value, pat, sub);
    FindIsFirst(value, pat);
    assert r == value[..i] + sub + Replace(value[i + |pat|..], pat, sub);
    assert r[i..i + |sub|] == sub && value[i..i + |pat|] == pat;
    if |sub| <= |pat| {
      SliceOfSlice(value, i, i + |pat|, 0, |sub|);
      assert !OccursAt(pat, sub, 0);
    } else {
      SliceOfSlice(r, i, i + |sub|, 0, |pat|);
      assert !OccursAt(sub, pat, 0);
    }
  }

  /** A second rewrite changes nothing. */
  predicate Settles(value: string, links: LinkMap)
    requires Accepted(links)
  {
    RewriteValue(RewriteValue(value, links), links) == RewriteValue(value, links)
  }

  /** The pieces with `sep` between them. */
  function Join(pieces: seq<string>, sep: string): string
    requires pieces != []
  {
    if |pieces| == 1 then pieces[0] else pieces[0] + sep + Join(pieces[1..], sep)
  }

  /** The text cut at its leftmost occurrences: none begins before a cut, and none is left in the last piece. */
  predicate LeftmostPieces(pieces: seq<string>, pat: string) {
    && pieces != [] && !Occurs(pieces[|pieces| - 1], pat)
    && forall i | 0 <= i < |pieces| - 1 :: !OccursBefore(pieces[i] + pat, pat, |pieces[i]|)
  }

  /** Replacement keeps all the text between the leftmost occurrences and puts the substitute for each of them. */
  lemma {:induction false} ReplaceIsJoin(value: string, pat: string, sub: string) returns (pieces: seq<string>)
    requires pat != ""
    ensures LeftmostPieces(pieces, pat)
    ensures value == Join(pieces, pat) && Replace(value, pat, sub) == Join(pieces, sub)
    decreases |value|
  {
    var i := Find(value, pat);
    FindIsFirst(value, pat);
    if i == -1 {
      pieces := [value];
    } else {
      var rest := ReplaceIsJoin(value[i + |pat|..], pat, sub);
      pieces := [value[..i]] + rest;
      assert pieces[1..] == rest;
      assert value == value[..i] + pat + value[i + |pat|..];
      FirstCut(value, pat, i);
    }
  }

  lemma FirstCut(value: string, pat: string, i: nat)
    requires i + |pat| <= |value| && value[i..i + |pat|] == pat && forall j :: OccursAt(value, pat, j) ==> i <= j
    ensures !OccursBefore(value[..i] + pat, pat, i)
  {
    assert value[..i] + pat == value[0..i + |pat|];
    forall j | 0 <= j < i ensures !OccursAt(value[..i] + pat, pat, j) {
      if OccursAt(value[0..i + |pat|], pat, j) {
        OccursInSlice(value, pat, 0, i + |pat|, j);
      }
    }
  }

  /** A rewrite keeps everything but the addresses: cut at the old plain address and joined by the new one, then
      cut at the old escaped address and joined by the new escaped one. */
  lemma RewriteIsJoin(value: string, links: LinkMap) returns (plain: seq<string>, escaped: seq<string>)
    requires Accepted(links)
    ensures LeftmostPieces(plain, links.source) && value == Join(plain, links.source)
    ensures LeftmostPieces(escaped, Escaped(links.source))
    ensures Join(plain, links.target) == Join(escaped, Escaped(links.source))
    ensures RewriteValue(value, links) == Join(escaped, Escaped(links.target))
  {
    EscapedNonEmpty(links.source);
    plain := ReplaceIsJoin(value, links.source, links.target);
    escaped := ReplaceIsJoin(Replace(value, links.source, links.target), Escaped(links.source), Escaped(links.target));
  }

  lemma UnsafePlainPairShows(links: LinkMap)
    requires Plain(links) && !SafePair(links.source, links.target)
    ensures exists value :: HasOld(RewriteValue(value, links), links) && !Settles(value, links)
  {
    PlainFacts(links);
    var w := Witness(links.source, links.target);
    UnsafePairLeaves(links.source, links.target);
    var first := Replace(w, links.source, links.target);
    ReplaceChars(w, links.source, links.target, '\\');
    AbsentByChar(first, Escaped(links.source), '\\');
    ReplaceAbsent(first, Escaped(links.source), Escaped(links.target));
    assert HasOld(RewriteValue(w, links), links);
    ReplaceChanges(first, links.source, links.target);
    var second := Replace(first, links.source, links.target);
    ReplaceChars(first, links.source, links.target, '\\');
    AbsentByChar(second, Escaped(links.source), '\\');
    ReplaceAbsent(second, Escaped(links.source), Escaped(links.target));
    assert !Settles(w, links);
  }

  lemma RightWitnessEscaped(pat: string, sub: string, k: nat)
    requires 0 < k < |pat| && k <= |sub| && sub[|sub| - k..] == pat[..k]
    requires SlashesEscaped(pat) && EndsWith(sub, "\\/")
    ensures SlashesEscaped(pat + pat[k..])
  {
    assert sub[|sub| - 2..][1] == sub[|sub| - 1];
    assert pat[..k][k - 1] == sub[|sub| - k..][k - 1];
    SlashesEscapedAppend(pat, pat[k..]);
  }

  lemma LeftWitnessEscaped(pat: string, k: nat)
    requires 0 < k < |pat| && SlashesEscaped(pat) && pat[0] == 'h'
    ensures SlashesEscaped(pat[..|pat| - k] + pat)
  {
    SlashesEscapedAppend(pat[..|pat| - k], pat);
  }

  /** The witness for the escaped pair holds no plain address, so the first pass skips it. */
  lemma EscapedWitnessIsEscaped(pat: string, sub: string)
    requires pat != "" && !SafePair(pat, sub) && SlashesEscaped(pat) && pat[0] == 'h' && EndsWith(sub, "\\/")
    ensures SlashesEscaped(Witness(pat, sub))
  {
    var w := Witness(pat, sub);
    if !Occurs(sub, pat) && !NoRightOverlap(pat, sub) {
      var k :| 0 < k < |pat| && k <= |sub| && sub[|sub| - k..] == pat[..k] && w == pat + pat[k..];
      RightWitnessEscaped(pat, sub, k);
    } else if !Occurs(sub, pat) {
      var k :| 0 < k < |pat| && OpenLeftOverlap(pat, sub, k) && w == pat[..|pat| - k] + pat;
      LeftWitnessEscaped(pat, k);
    }
  }

  lemma SlashesEscapedAppend(a: string, b: string)
    requires SlashesEscaped(a) && (b == "" || b[0] != '/')
    requires forall i | 0 < i < |b| && b[i] == '/' :: b[i - 1] == '\\'
    ensures SlashesEscaped(a + b)
  {
    forall i | 0 <= i < |a + b| && (a + b)[i] == '/' ensures i > 0 && (a + b)[i - 1] == '\\' {
      if i > |a| {
        assert b[i - |a|] == '/';
      }
    }
  }

  lemma EscapedHoldsNoAddress(w: string, address: string)
    requires SlashesEscaped(w) && |address| >= 8 && address[6] == '/' && address[7] == '/'
    ensures !Occurs(w, address)
  {
    forall i | 0 <= i <= |w| ensures !OccursAt(w, address, i) {
      OccursChars(w, address, i);
    }
  }

  lemma UnsafeEscapedPairShows(links: LinkMap)
    requires Plain(links) && !SafePair(Escaped(links.source), Escaped(links.target))
    ensures exists value :: HasOld(RewriteValue(value, links), links) && !Settles(value, links)
  {
    PlainFacts(links);
    var pat, sub := Escaped(links.source), Escaped(links.target);
    var w := Witness(pat, sub);
    UnsafePairLeaves(pat, sub);
    EscapedWitnessIsEscaped(pat, sub);
    assert links.source[..8] == HTTPS;
    EscapedHoldsNoAddress(w, links.source);
    ReplaceAbsent(w, links.source, links.target);
    assert HasOld(RewriteValue(w, links), links);
    EscapedUnsettled(links, w);
  }

  lemma EscapedUnsettled(links: LinkMap, value: string)
    requires Plain(links) && !Occurs(value, links.source)
    requires var pat, sub := Escaped(links.source), Escaped(links.target);
      pat != "" && Occurs(Replace(value, pat, sub), pat)
    ensures !Settles(value, links)
  {
    var pat, sub := Escaped(links.source), Escaped(links.target);
    var first := Replace(value, pat, sub);
    PlainFacts(links);
    ReplaceAbsent(value, links.source, links.target);
    ApartStaysAbsent(value, pat, sub, links.source);
    ReplaceAbsent(first, links.source, links.target);
    ReplaceChanges(first, pat, sub);
  }

  /** For backslash-free addresses, "no old link survives any rewrite" holds
      exactly when both pairs are safe -- which constructing a `LinkMap` does not check. */
  lemma RewriteClearsIff(links: LinkMap)
    requires Plain(links)
    ensures (forall value :: !HasOld(RewriteValue(value, links), links)) <==> SafeLinks(links)
  {
    if SafeLinks(links) {
      forall value ensures !HasOld(RewriteValue(value, links), links) { SafeLinksClear(value, links); }
    } else if !SafePair(links.source, links.target) {
      UnsafePlainPairShows(links);
    } else {
      UnsafeEscapedPairShows(links);
    }
  }

  /** A value with no old link is left exactly as it is. */
  lemma CleanValueUntouched(value: string, links: LinkMap)
    requires Accepted(links) && !HasOld(value, links)
    ensures RewriteValue(value, links) == value
  {
    EscapedNonEmpty(links.source);
    ReplaceAbsent(value, links.source, links.target);
    ReplaceAbsent(value, Escaped(links.source), Escaped(links.target));
  }

  /** "Once": no rewrite changes its own output, for any value, exactly when both pairs are safe. */
  lemma RewriteOnceIff(links: LinkMap)
    requires Plain(links)
    ensures (forall value :: Settles(value, links)) <==> SafeLinks(links)
  {
    if SafeLinks(links) {
      forall value ensures Settles(value, links) {
        SafeLinksClear(value, links);
        CleanValueUntouched(RewriteValue(value, links), links);
      }
    } else if !SafePair(links.source, links.target) {
      UnsafePlainPairShows(links);
    } else {
      UnsafeEscapedPairShows(links);
    }
  }

  /* The usual shape of an address: the scheme appears once, at the front. */

  predicate SchemeOnlyFirst(s: string) {
    forall i | 0 < i <= |s| :: !OccursAt(s, "https:/", i)
  }

  /** `scheme` is the address prefix up to and including its first slash. */
  predicate SchemeShape(s: string, scheme: string) {
    && StartsWith(s, scheme) && EndsWith(s, "/")
    && forall i | 0 < i <= |s| :: !OccursAt(s, scheme, i)
  }

  lemma SchemeOnceIsSafe(pat: string, sub: string, scheme: string)
    requires scheme != "" && forall i | 0 <= i < |scheme| - 1 :: scheme[i] != '/'
    requires SchemeShape(pat, scheme) && SchemeShape(sub, scheme)
    requires !Occurs(sub, pat) && !Occurs(pat, sub)
    ensures SafePair(pat, sub)
  {
    forall k | 0 < k < |pat| && k <= |sub|
      ensures sub[|sub| - k..] != pat[..k] && pat[|pat| - k..] != sub[..k]
    {
      NoBorder(sub, pat, scheme, k);
      NoBorder(pat, sub, scheme, k);
    }
  }

  lemma NoBorder(a: string, b: string, scheme: string, k: int)
    requires scheme != "" && forall i | 0 <= i < |scheme| - 1 :: scheme[i] != '/'
    requires SchemeShape(a, scheme) && StartsWith(b, scheme) && !Occurs(b, a) && 0 < k <= |a| && k <= |b|
    ensures a[|a| - k..] != b[..k]
  {
    assert a[|a| - 1..] == "/";
    assert a[|a| - k..][k - 1] == a[|a| - 1] == '/';
    if k == |a| {
      assert !OccursAt(b, a, 0) && b[0..k] == b[..k];
    } else if k >= |scheme| {
      assert b[..k][..|scheme|] == scheme;
      SliceOfSlice(a, |a| - k, |a|, 0, |scheme|);
      assert !OccursAt(a, scheme, |a| - k);
    }
  }

  /** Ordinary addresses are safe, so an ordinary rewrite is complete and runs once. */
  lemma OrdinaryAddressesAreSafe(links: LinkMap)
    requires Plain(links) && SchemeOnlyFirst(links.source) && SchemeOnlyFirst(links.target)
    ensures SafeLinks(links)
  {
    PlainFacts(links);
    OrdinaryShape(links.source);
    OrdinaryShape(links.target);
    BothSchemesSafe(links.source, links.target, Escaped(links.source), Escaped(links.target));
  }

  lemma BothSchemesSafe(source: string, target: string, escapedSource: string, escapedTarget: string)
    requires SchemeShape(source, "https:/") && SchemeShape(target, "https:/")
    requires SchemeShape(escapedSource, "https:\\/") && SchemeShape(escapedTarget, "https:\\/")
    requires !Occurs(source, target) && !Occurs(target, source)
    requires !Occurs(escapedSource, escapedTarget) && !Occurs(escapedTarget, escapedSource)
    ensures SafePair(source, target) && SafePair(escapedSource, escapedTarget)
  {
    SchemeOnceIsSafe(source, target, "https:/");
    SchemeOnceIsSafe(escapedSource, escapedTarget, "https:\\/");
  }

  lemma OrdinaryShape(s: string)
    requires StartsWith(s, HTTPS) && EndsWith(s, "/") && '\\' !in s && SchemeOnlyFirst(s)
    ensures SchemeShape(s, "https:/") && SchemeShape(Escaped(s), "https:\\/")
  {
    EscapedEnds(s);
    EscapedScheme("https:", "/");
    assert "https:" + "/" == "https:/" && HTTPS[..7] == "https:/" && HTTPS_ESCAPED[..8] == "https:\\/";
    var e := Escaped(s);
    assert e[|e| - 1..] == e[|e| - 2..][1..];
    forall i | 0 < i <= |e| ensures !OccursAt(e, "https:\\/", i) {
      if OccursAt(e, "https:\\/", i) {
        var j := UnescapeOccurrence(s, "https:/", i);
      }
    }
  }

  /** The accepted pair below nests one address in the other's tail without containment. */
  predicate Nested(links: LinkMap) {
    links.source == "https://x/" + "https://yy/" && links.target == "https://yy/" + "z/"
  }

  lemma NestedEnds(links: LinkMap)
    requires Nested(links)
    ensures StartsWith(links.source, HTTPS) && EndsWith(links.source, "/")
    ensures StartsWith(links.target, HTTPS) && EndsWith(links.target, "/")
  {
    assert links.source[20..] == "/" && links.target[12..] == "/";
  }

  lemma NestedChars(links: LinkMap)
    requires Nested(links)
    ensures 'x' in links.source && 'x' !in links.target && 'z' in links.target && 'z' !in links.source
    ensures '\\' !in links.source && '\\' !in links.target
  {
    CharsOfSource(links.source);
    CharsOfTarget(links.target);
  }

  lemma CharsOfSource(s: string)
    requires s == "https://x/" + "https://yy/"
    ensures 'x' in s && 'z' !in s && '\\' !in s
  {
    assert s[8] == 'x';
  }

  lemma CharsOfTarget(s: string)
    requires s == "https://yy/" + "z/"
    ensures 'z' in s && 'x' !in s && '\\' !in s
  {
    assert s[11] == 'z';
  }

  lemma NestedIsAccepted(links: LinkMap)
    requires Nested(links)
    ensures Plain(links)
  {
    NestedEnds(links);
    NestedChars(links);
    AbsentByChar(links.source, links.target, 'z');
    AbsentByChar(links.target, links.source, 'x');
  }

  lemma NestedFirstMatch(o: string, value: string)
    requires o == "https://x/" + "https://yy/" && value == "https://x/" + o
    ensures OccursAt(value, o, 10) && !OccursBefore(value, o, 10)
  {
    assert value[10..31] == o;
    assert o[18] == 'y' && forall i | 0 <= i < 28 :: value[i] != 'y';
    forall j | 0 <= j < 10 ensures !OccursAt(value, o, j) { OccursChars(value, o, j); }
  }

  /** Non-containment alone is not enough: this accepted pair puts an old link back. */
  lemma ContainmentIsNotEnough(links: LinkMap, value: string)
    requires Nested(links) && value == "https://x/" + links.source
    ensures Plain(links) && RewriteValue(value, links) == links.source + "z/"
    ensures HasOld(RewriteValue(value, links), links)
  {
    var o, n := links.source, links.target;
    NestedIsAccepted(links);
    NestedFirstMatch(o, value);
    OneReplacement(value, o, n, 10);
    var out := value[..10] + n + value[10 + |o|..];
    assert value[..10] == "https://x/" && value[10 + |o|..] == "";
    assert out == o + "z/";
    PlainFacts(links);
    AbsentByChar(out, Escaped(o), '\\');
    ReplaceAbsent(out, Escaped(o), Escaped(n));
    assert out[0..21] == o;
    OccursIntro(out, o, 0);
  }
}
