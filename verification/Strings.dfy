/** Python's string search and replacement: leftmost, non-overlapping. */
module Strings {
  import opened Options

  predicate OccursAt(s: string, pat: string, i: int) {
    0 <= i && i + |pat| <= |s| && s[i..i + |pat|] == pat
  }

  /** Python's `pat in s`. */
  predicate Occurs(s: string, pat: string) {
    exists i | 0 <= i <= |s| :: OccursAt(s, pat, i)
  }

  predicate StartsWith(s: string, pat: string) {
    pat <= s
  }

  predicate EndsWith(s: string, pat: string) {
    |pat| <= |s| && s[|s| - |pat|..] == pat
  }

  /** The first occurrence at or after `from`, or -1: Python's `s.find(pat, from)`. */
  function FindFrom(s: string, pat: string, from: nat): (r: int)
    requires from <= |s|
    ensures r == -1 || from <= r <= |s| - |pat|
    decreases |s| - from
  {
    if OccursAt(s, pat, from) then from
    else if from < |s| then FindFrom(s, pat, from + 1)
    else -1
  }

  lemma {:induction false} FindFromIsFirst(s: string, pat: string, from: nat)
    requires from <= |s|
    ensures var r := FindFrom(s, pat, from);
            && (r != -1 ==> OccursAt(s, pat, r))
            && (forall j :: from <= j && OccursAt(s, pat, j) ==> 0 <= r <= j)
    decreases |s| - from
  {
    if !OccursAt(s, pat, from) && from < |s| {
      FindFromIsFirst(s, pat, from + 1);
    }
  }

  /** The leftmost occurrence, or -1. */
  function Find(s: string, pat: string): (r: int)
    ensures r == -1 || 0 <= r <= |s| - |pat|
  {
    FindFrom(s, pat, 0)
  }

  lemma FindIsFirst(s: string, pat: string)
    ensures Find(s, pat) == -1 <==> !Occurs(s, pat)
    ensures Find(s, pat) != -1 ==> OccursAt(s, pat, Find(s, pat))
    ensures forall j :: OccursAt(s, pat, j) ==> 0 <= Find(s, pat) <= j
  {
    FindFromIsFirst(s, pat, 0);
  }

  /** Python's `s.replace(pat, sub)` for a non-empty `pat`. */
  function Replace(s: string, pat: string, sub: string): string
    requires pat != ""
    decreases |s|
  {
    var i := Find(s, pat);
    if i == -1 then s
    else s[..i] + sub + Replace(s[i + |pat|..], pat, sub)
  }

  lemma OccursIntro(s: string, pat: string, i: int)
    requires OccursAt(s, pat, i)
    ensures Occurs(s, pat)
  {
  }

  lemma SliceOfSlice<T>(s: seq<T>, lo: nat, hi: nat, a: nat, b: nat)
    requires lo <= hi <= |s| && a <= b <= hi - lo
    ensures s[lo..hi][a..b] == s[lo + a..lo + b]
  {
    var left, right := s[lo..hi][a..b], s[lo + a..lo + b];
    assert forall k | 0 <= k < b - a :: left[k] == s[lo + a + k] == right[k];
  }

  /** An occurrence inside a slice is an occurrence in the whole. */
  lemma OccursInSlice(s: string, pat: string, lo: nat, hi: nat, i: int)
    requires lo <= hi <= |s| && OccursAt(s[lo..hi], pat, i)
    ensures OccursAt(s, pat, lo + i)
  {
    SliceOfSlice(s, lo, hi, i, i + |pat|);
  }

  /** The converse: an occurrence that fits between two cuts survives the slicing. */
  lemma OccursToSlice(s: string, pat: string, lo: nat, hi: nat, i: int)
    requires lo <= i && i + |pat| <= hi <= |s| && OccursAt(s, pat, i)
    ensures OccursAt(s[lo..hi], pat, i - lo)
  {
    SliceOfSlice(s, lo, hi, i - lo, i - lo + |pat|);
  }

  /** An occurrence agrees with the pattern character by character. */
  lemma OccursChars(s: string, pat: string, i: int)
    ensures OccursAt(s, pat, i) ==> forall k | 0 <= k < |pat| :: s[i + k] == pat[k]
  {
    if OccursAt(s, pat, i) {
      var slice := s[i..i + |pat|];
      assert forall k | 0 <= k < |pat| :: slice[k] == s[i + k];
    }
  }

  /** The per-character image that a one-character replacement computes. */
  function MapChar(s: string, c: char, sub: string): string {
    if s == "" then "" else (if s[0] == c then sub else [s[0]]) + MapChar(s[1..], c, sub)
  }

  lemma {:induction false} MapCharAppend(a: string, b: string, c: char, sub: string)
    ensures MapChar(a + b, c, sub) == MapChar(a, c, sub) + MapChar(b, c, sub)
  {
    if a == "" {
      assert a + b == b;
    } else {
      assert (a + b)[1..] == a[1..] + b;
      MapCharAppend(a[1..], b, c, sub);
    }
  }

  lemma {:induction false} MapCharAbsent(s: string, c: char, sub: string)
    requires c !in s
    ensures MapChar(s, c, sub) == s
  {
    if s != "" {
      assert s[0] in s;
      MapCharAbsent(s[1..], c, sub);
      assert s == [s[0]] + s[1..];
    }
  }

  lemma FindChar(s: string, c: char)
    ensures Find(s, [c]) == -1 ==> c !in s
    ensures Find(s, [c]) != -1 ==> Find(s, [c]) < |s| && s[Find(s, [c])] == c && c !in s[..Find(s, [c])]
  {
    var i := Find(s, [c]);
    FindIsFirst(s, [c]);
    if i != -1 {
      OccursChars(s, [c], i);
    }
    forall k | 0 <= k < |s| && s[k] == c
      ensures 0 <= i <= k
    {
      assert s[k..k + 1] == [c];
      assert OccursAt(s, [c], k);
    }
  }

  lemma MapCharCons(d: char, tail: string, c: char, sub: string)
    ensures MapChar([d] + tail, c, sub) == (if d == c then sub else [d]) + MapChar(tail, c, sub)
  {
    assert ([d] + tail)[1..] == tail;
  }

  lemma ReplaceCharStep(s: string, c: char, sub: string, i: nat)
    requires Find(s, [c]) == i < |s|
    ensures Replace(s, [c], sub) == s[..i] + (sub + Replace(s[i + 1..], [c], sub))
  {
  }

  lemma SplitAt<T>(s: seq<T>, i: nat, c: T)
    requires i < |s| && s[i] == c
    ensures s == s[..i] + ([c] + s[i + 1..])
  {
  }

  /** Replacing a one-character string is the per-character map. */
  lemma {:induction false} ReplaceCharIsMap(s: string, c: char, sub: string)
    ensures Replace(s, [c], sub) == MapChar(s, c, sub)
    decreases |s|
  {
    var i := Find(s, [c]);
    FindChar(s, c);
    if i == -1 {
      MapCharAbsent(s, c, sub);
    } else {
      var head, tail := s[..i], s[i + 1..];
      ReplaceCharStep(s, c, sub, i);
      ReplaceCharIsMap(tail, c, sub);
      SplitAt(s, i, c);
      SplitMap(s, head, tail, c, sub);
    }
  }

  lemma SplitMap(s: string, head: string, tail: string, c: char, sub: string)
    requires s == head + ([c] + tail) && c !in head
    ensures MapChar(s, c, sub) == head + (sub + MapChar(tail, c, sub))
  {
    MapCharAbsent(head, c, sub);
    MapCharCons(c, tail, c, sub);
    MapCharAppend(head, [c] + tail, c, sub);
  }

  predicate IsSpace(c: char) { c == ' ' || '\t' <= c <= '\r' }

  function TrimLeft(s: string): string {
    if s != "" && IsSpace(s[0]) then TrimLeft(s[1..]) else s
  }

  function TrimRight(s: string): string {
    if s != "" && IsSpace(s[|s| - 1]) then TrimRight(s[..|s| - 1]) else s
  }

  lemma InPrefix<T>(s: seq<T>, i: int, j: int)
    ensures 0 <= i < j <= |s| ==> s[i] in s[..j]
  {
    if 0 <= i < j <= |s| {
      assert s[..j][i] == s[i];
    }
  }

  lemma InSlice<T>(s: seq<T>, i: int, lo: int, hi: int)
    ensures 0 <= lo <= i < hi <= |s| ==> s[i] in s[lo..hi]
  {
    if 0 <= lo <= i < hi <= |s| {
      assert s[lo..hi][i - lo] == s[i];
    }
  }

  /** What follows `head`, if the text starts with it. */
  function After(s: string, head: string): Option<string> {
    if StartsWith(s, head) then Some(s[|head|..]) else None
  }

  lemma AfterHead(head: string, rest: string)
    ensures After(head + rest, head) == Some(rest)
  {
    assert (head + rest)[..|head|] == head && (head + rest)[|head|..] == rest;
  }

  /** `text.split("\n")` without the empty piece after a final line break. */
  function Lines(text: string): seq<string>
    decreases |text|
  {
    if text == "" then []
    else
      var i := Find(text, "\n");
      if i == -1 then [text] else [text[..i]] + Lines(text[i + 1..])
  }

  predicate OneLine(s: string) { '\n' !in s }

  lemma FindBreak(first: string, rest: string)
    requires OneLine(first)
    ensures Find(first + ("\n" + rest), "\n") == |first|
    ensures Find(first, "\n") == -1
  {
    var text := first + ("\n" + rest);
    FindChar(text, '\n');
    FindChar(first, '\n');
    var i := Find(text, "\n");
    assert text[|first|] == '\n';
    InPrefix(text, |first|, i);
    InPrefix(text, i, |first|);
    assert text[..|first|] == first;
  }

  lemma LinesOf(first: string, rest: string)
    requires OneLine(first)
    ensures Lines(first + ("\n" + rest)) == [first] + Lines(rest)
    ensures Lines(first) == if first == "" then [] else [first]
  {
    var text := first + ("\n" + rest);
    FindBreak(first, rest);
    assert text[..|first|] == first && text[|first| + 1..] == rest;
  }

  function Strip(s: string): string { TrimRight(TrimLeft(s)) }

  predicate NoOuterSpace(s: string) { s == "" || (!IsSpace(s[0]) && !IsSpace(s[|s| - 1])) }

  lemma StripNone(s: string)
    requires NoOuterSpace(s)
    ensures Strip(s) == s
  {
  }

  lemma StripKeepsFirst(s: string)
    requires s != "" && !IsSpace(s[0])
    ensures Strip(s) != "" && Strip(s)[0] == s[0]
  {
    TrimRightKeepsFirst(s);
  }

  lemma {:induction false} TrimRightKeepsFirst(s: string)
    requires s != "" && !IsSpace(s[0])
    ensures TrimRight(s) != "" && TrimRight(s)[0] == s[0]
  {
    if IsSpace(s[|s| - 1]) {
      TrimRightKeepsFirst(s[..|s| - 1]);
    }
  }

  function Lower(c: char): char { if 'A' <= c <= 'Z' then ((c as int) + 32) as char else c }
  function LowerAll(s: string): string { seq(|s|, i requires 0 <= i < |s| => Lower(s[i])) }

  /** How many characters at the front satisfy `test`: a greedy `[...]*`. */
  function Run(s: string, test: char -> bool): (k: nat)
    ensures k <= |s| && (forall i | 0 <= i < k :: test(s[i])) && (k < |s| ==> !test(s[k]))
  {
    if s == "" || !test(s[0]) then 0 else Run(s[1..], test) + 1
  }

  lemma {:induction false} RunAll(head: string, rest: string, test: char -> bool)
    requires (forall c | c in head :: test(c)) && (rest == "" || !test(rest[0]))
    ensures Run(head + rest, test) == |head| && (head + rest)[..|head|] == head && (head + rest)[|head|..] == rest
  {
    if head == "" {
      assert head + rest == rest;
    } else {
      assert head == [head[0]] + head[1..];
      assert head[0] in head;
      assert (head + rest)[1..] == head[1..] + rest;
      RunAll(head[1..], rest, test);
    }
  }

  const SMALL := "abcdefghijklmnopqrstuvwxyz"
  const CAPITAL := "ABCDEFGHIJKLMNOPQRSTUVWXYZ"
  const DIGITS := "0123456789"

  /** A text in those alphabets, not empty. */
  predicate Spelled(s: string, a: string, b: string, c: string, d: string) {
    s != "" && forall x | x in s :: x in a || x in b || x in c || x in d
  }

  lemma RangesAre(c: char)
    ensures 'a' <= c <= 'z' <==> c in SMALL
    ensures 'A' <= c <= 'Z' <==> c in CAPITAL
    ensures '0' <= c <= '9' <==> c in DIGITS
    ensures 'a' <= c <= 'f' <==> c in "abcdef"
  {
    InAlphabet(SMALL, 'a', c);
    InAlphabet(CAPITAL, 'A', c);
    InAlphabet(DIGITS, '0', c);
    InAlphabet("abcdef", 'a', c);
  }

  lemma SpelledIff(s: string, a: string, b: string, c: string, d: string, test: char -> bool)
    requires forall x :: test(x) <==> x in a || x in b || x in c || x in d
    ensures Spelled(s, a, b, c, d) <==> s != "" && forall x | x in s :: test(x)
  {
  }

  /** A run of consecutive characters written out. */
  lemma InAlphabet(alphabet: string, first: char, c: char)
    requires forall i | 0 <= i < |alphabet| :: alphabet[i] as int == first as int + i
    ensures c in alphabet <==> first as int <= c as int < first as int + |alphabet|
  {
    if first as int <= c as int < first as int + |alphabet| {
      assert alphabet[c as int - first as int] == c;
    }
  }
}
