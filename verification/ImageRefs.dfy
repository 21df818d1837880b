/** What an image reference can expand to: `expand` and `emit` in scripts/assert-image-refs-on-mirror.py. */
module ImageRefs {
  import opened Options
  import opened Strings

  /** One definition of a variable: its value, and whether it is reported at its own line. */
  datatype Definition = Definition(value: string, flagged: bool)

  type Env = map<string, seq<Definition>>

  /** What the reference patterns make of a text: something that cannot be read, no variable but the
      kept one, a stray `$`, or the first variable to expand, at `start` to `end`, with the default
      that `${X:-default}` or `${X=default}` gives it. */
  datatype Scan =
    | Unreadable
    | Ground
    | Stray
    | Variable(name: string, fallback: Option<string>, start: nat, end: nat)

  type Scanner = string -> Scan

  const DEPTH_LIMIT := 6
  const VALUE_LIMIT := 16

  datatype Expansion = Expansion(values: seq<string>, covered: bool, count: nat)

  /** Where expansion stands: the variables being expanded, how deep, and whether the definition a
      self-reference's default comes from is reported. */
  datatype Frame = Frame(seen: set<string>, depth: nat, inherited: bool)

  function Defined(env: Env, glob: Env, name: string): seq<Definition> {
    if name in env && env[name] != [] then env[name] else if name in glob then glob[name] else []
  }

  /** The definitions to substitute: those of the repository, else the default, else none. */
  function Choices(env: Env, glob: Env, v: Scan, f: Frame): seq<Definition>
    requires v.Variable?
  {
    var defined := if v.name in f.seen then [] else Defined(env, glob, v.name);
    if defined != [] then defined
    else if v.fallback.Some? then [Definition(v.fallback.value, f.inherited && v.name in f.seen)]
    else []
  }

  function Cut(s: string, n: nat): string { if n <= |s| then s[..n] else s }
  function From(s: string, n: nat): string { if n <= |s| then s[n..] else "" }

  function Substitute(ref: string, v: Scan, value: string): string
    requires v.Variable?
  {
    Cut(ref, v.start) + value + From(ref, v.end)
  }

  function Deeper(f: Frame, name: string, flagged: bool): Frame { Frame(f.seen + {name}, f.depth + 1, flagged) }

  /** Measures: how deep expansion may still go. */
  function Left(f: Frame): nat { if f.depth > DEPTH_LIMIT then 0 else DEPTH_LIMIT + 1 - f.depth }

  function First(values: seq<string>): seq<string> { if |values| <= VALUE_LIMIT then values else values[..VALUE_LIMIT] }

  /** The reference's own reading, before any substitution. */
  function Read(scan: Scanner, ref: string, f: Frame): Scan { if f.depth > DEPTH_LIMIT then Unreadable else scan(ref) }

  /** One more definition's outcome: a reported one that cannot be expanded is passed over, any other refuses. */
  function Joined(before: Expansion, d: Definition, out: Option<Expansion>): Option<Expansion> {
    if out.None? then if d.flagged then Some(before.(count := before.count + 1)) else None
    else
      Some(Expansion(before.values + out.value.values, before.covered && d.flagged && out.value.covered,
                     before.count + out.value.count))
  }

  /** `expand`, one definition after another. */
  function Expand(scan: Scanner, env: Env, glob: Env, ref: string, f: Frame): Option<Expansion>
    decreases Left(f), 1, 0
  {
    var v := Read(scan, ref, f);
    if v.Ground? then Some(Expansion([ref], true, 0))
    else if !v.Variable? || Choices(env, glob, v, f) == [] then None
    else
      var all := Gather(scan, env, glob, ref, f, v, Choices(env, glob, v, f));
      if all.None? then None else Some(Expansion(First(all.value.values), all.value.covered, all.value.count))
  }

  /** The loop over the first definitions: values joined, covered only while every one is. */
  function Gather(scan: Scanner, env: Env, glob: Env, ref: string, f: Frame, v: Scan,
                  choices: seq<Definition>): Option<Expansion>
    requires v.Variable? && f.depth <= DEPTH_LIMIT
    decreases Left(f), 0, |choices|
  {
    if choices == [] then Some(Expansion([], true, 1))
    else
      var before := Gather(scan, env, glob, ref, f, v, choices[..|choices| - 1]);
      var d := choices[|choices| - 1];
      if before.None? then None
      else Joined(before.value, d, Expand(scan, env, glob, Substitute(ref, v, d.value), Deeper(f, v.name, d.flagged)))
  }

  lemma {:induction false} OneRefusalRefuses(scan: Scanner, env: Env, glob: Env, ref: string, f: Frame, v: Scan,
                                             choices: seq<Definition>, n: nat)
    requires v.Variable? && f.depth <= DEPTH_LIMIT && n <= |choices|
    requires Gather(scan, env, glob, ref, f, v, choices[..n]).None?
    ensures Gather(scan, env, glob, ref, f, v, choices).None?
    decreases |choices|
  {
    if n == |choices| {
      assert choices[..n] == choices;
    } else {
      var front := choices[..|choices| - 1];
      assert front[..n] == choices[..n];
      OneRefusalRefuses(scan, env, glob, ref, f, v, front, n);
    }
  }

  lemma GatherNext(scan: Scanner, env: Env, glob: Env, ref: string, f: Frame, v: Scan, choices: seq<Definition>, n: nat,
                   before: Expansion)
    requires v.Variable? && f.depth <= DEPTH_LIMIT && n < |choices|
    requires Gather(scan, env, glob, ref, f, v, choices[..n]) == Some(before)
    ensures Gather(scan, env, glob, ref, f, v, choices[..n + 1])
      == Joined(before, choices[n],
                Expand(scan, env, glob, Substitute(ref, v, choices[n].value), Deeper(f, v.name, choices[n].flagged)))
  {
    assert choices[..n + 1][..n] == choices[..n];
  }

  /** The recursion as it runs. */
  method ExpandRef(scan: Scanner, env: Env, glob: Env, ref: string, f: Frame) returns (r: Option<Expansion>)
    ensures r == Expand(scan, env, glob, ref, f)
    decreases Left(f), 1
  {
    var v := Read(scan, ref, f);
    if v.Ground? {
      return Some(Expansion([ref], true, 0));
    }
    if !v.Variable? {
      return None;
    }
    var choices := Choices(env, glob, v, f);
    if choices == [] {
      return None;
    }
    var all := GatherRef(scan, env, glob, ref, f, v, choices);
    return if all.None? then None else Some(Expansion(First(all.value.values), all.value.covered, all.value.count));
  }

  /** Its loop over the definitions of one variable, `acc` holding what is joined so far. */
  method GatherRef(scan: Scanner, env: Env, glob: Env, ref: string, f: Frame, v: Scan, choices: seq<Definition>)
    returns (all: Option<Expansion>)
    requires v.Variable? && f.depth <= DEPTH_LIMIT
    ensures all == Gather(scan, env, glob, ref, f, v, choices)
    decreases Left(f), 0
  {
    var acc := Expansion([], true, 1);
    for n := 0 to |choices|
      invariant Gather(scan, env, glob, ref, f, v, choices[..n]) == Some(acc)
    {
      GatherNext(scan, env, glob, ref, f, v, choices, n, acc);
      var out := ExpandRef(scan, env, glob, Substitute(ref, v, choices[n].value),
                           Deeper(f, v.name, choices[n].flagged));
      var next := Joined(acc, choices[n], out);
      if next.None? {
        OneRefusalRefuses(scan, env, glob, ref, f, v, choices, n + 1);
        return None;
      }
      acc := next.value;
    }
    assert choices[..|choices|] == choices;
    return Some(acc);
  }

  // ---- paths of substitutions ------------------------------------------------

  /** One after another, the definitions `path` are substituted into `ref`, each into a text that can
      still be expanded: the substitutions that are followed, not those a reported definition hides. */
  predicate Followed(scan: Scanner, env: Env, glob: Env, ref: string, f: Frame, path: seq<Definition>)
    decreases |path|
  {
    path != [] ==>
      var v := Read(scan, ref, f);
      && v.Variable? && path[0] in Choices(env, glob, v, f)
      && Expand(scan, env, glob, Substitute(ref, v, path[0].value), Deeper(f, v.name, path[0].flagged)).Some?
      && Followed(scan, env, glob, Substitute(ref, v, path[0].value), Deeper(f, v.name, path[0].flagged), path[1..])
  }

  /** The text a path ends in. */
  function EndOf(scan: Scanner, env: Env, glob: Env, ref: string, f: Frame, path: seq<Definition>): (string, Frame)
    requires Followed(scan, env, glob, ref, f, path)
    decreases |path|
  {
    if path == [] then (ref, f)
    else
      var v := Read(scan, ref, f);
      EndOf(scan, env, glob, Substitute(ref, v, path[0].value), Deeper(f, v.name, path[0].flagged), path[1..])
  }

  predicate AllFlagged(path: seq<Definition>) { forall d | d in path :: d.flagged }

  /** A path that ends in a text with nothing left to expand. */
  predicate Reaches(scan: Scanner, env: Env, glob: Env, ref: string, f: Frame, path: seq<Definition>, value: string) {
    Followed(scan, env, glob, ref, f, path)
    && var (end, frame) := EndOf(scan, env, glob, ref, f, path); end == value && Read(scan, end, frame).Ground?
  }

  ghost predicate EveryPathFlagged(scan: Scanner, env: Env, glob: Env, ref: string, f: Frame) {
    forall path :: Followed(scan, env, glob, ref, f, path) ==> AllFlagged(path)
  }

  function Sub(scan: Scanner, env: Env, glob: Env, ref: string, f: Frame, v: Scan, d: Definition): Option<Expansion>
    requires v.Variable?
  {
    Expand(scan, env, glob, Substitute(ref, v, d.value), Deeper(f, v.name, d.flagged))
  }

  lemma {:induction false} GatherIs(scan: Scanner, env: Env, glob: Env, ref: string, f: Frame, v: Scan,
                                    choices: seq<Definition>)
    requires v.Variable? && f.depth <= DEPTH_LIMIT
    ensures var all := Gather(scan, env, glob, ref, f, v, choices);
      && (all.Some? <==> forall d | d in choices :: Sub(scan, env, glob, ref, f, v, d).Some? || d.flagged)
      && (all.Some? ==> all.value.count >= 1)
      && (all.Some? ==> (all.value.covered <==> CoveredBy(scan, env, glob, ref, f, v, choices)))
    decreases |choices|
  {
    if choices != [] {
      var front, d := choices[..|choices| - 1], choices[|choices| - 1];
      assert choices == front + [d];
      GatherIs(scan, env, glob, ref, f, v, front);
    }
  }

  /** Every definition that can be expanded is reported, and so is all that follows it. */
  predicate CoveredBy(scan: Scanner, env: Env, glob: Env, ref: string, f: Frame, v: Scan, choices: seq<Definition>)
    requires v.Variable?
  {
    forall d | d in choices && Sub(scan, env, glob, ref, f, v, d).Some? ::
      d.flagged && Sub(scan, env, glob, ref, f, v, d).value.covered
  }

  lemma PathStep(scan: Scanner, env: Env, glob: Env, ref: string, f: Frame, v: Scan, d: Definition,
                 path: seq<Definition>)
    requires v == Read(scan, ref, f) && v.Variable? && d in Choices(env, glob, v, f)
    requires Sub(scan, env, glob, ref, f, v, d).Some?
    ensures Followed(scan, env, glob, ref, f, [d] + path)
      <==> Followed(scan, env, glob, Substitute(ref, v, d.value), Deeper(f, v.name, d.flagged), path)
    ensures AllFlagged([d] + path) <==> d.flagged && AllFlagged(path)
  {
    assert ([d] + path)[1..] == path && ([d] + path)[0] == d;
    assert d in [d] + path && forall e | e in path :: e in [d] + path;
  }

  /** A reference is covered exactly when every definition substituted along every path that is
      followed is reported at its own line, self-referencing defaults included. */
  lemma {:induction false} CoveredIff(scan: Scanner, env: Env, glob: Env, ref: string, f: Frame)
    requires Expand(scan, env, glob, ref, f).Some?
    ensures Expand(scan, env, glob, ref, f).value.covered <==> EveryPathFlagged(scan, env, glob, ref, f)
    decreases Left(f)
  {
    var v := Read(scan, ref, f);
    if v.Variable? {
      var choices := Choices(env, glob, v, f);
      GatherIs(scan, env, glob, ref, f, v, choices);
      forall d | d in choices && Sub(scan, env, glob, ref, f, v, d).Some?
        ensures Sub(scan, env, glob, ref, f, v, d).value.covered
          <==> EveryPathFlagged(scan, env, glob, Substitute(ref, v, d.value), Deeper(f, v.name, d.flagged))
      {
        CoveredIff(scan, env, glob, Substitute(ref, v, d.value), Deeper(f, v.name, d.flagged));
      }
      if CoveredBy(scan, env, glob, ref, f, v, choices) {
        PathsFlagged(scan, env, glob, ref, f, v, choices);
      }
      if EveryPathFlagged(scan, env, glob, ref, f) {
        FlaggedPaths(scan, env, glob, ref, f, v, choices);
      }
    }
  }

  ghost predicate SubsFlagged(scan: Scanner, env: Env, glob: Env, ref: string, f: Frame, v: Scan,
                              choices: seq<Definition>)
    requires v.Variable?
  {
    forall d | d in choices && Sub(scan, env, glob, ref, f, v, d).Some? ::
      d.flagged && EveryPathFlagged(scan, env, glob, Substitute(ref, v, d.value), Deeper(f, v.name, d.flagged))
  }

  lemma PathsFlagged(scan: Scanner, env: Env, glob: Env, ref: string, f: Frame, v: Scan, choices: seq<Definition>)
    requires v == Read(scan, ref, f) && v.Variable? && choices == Choices(env, glob, v, f)
    requires SubsFlagged(scan, env, glob, ref, f, v, choices)
    ensures EveryPathFlagged(scan, env, glob, ref, f)
  {
    forall path | Followed(scan, env, glob, ref, f, path) ensures AllFlagged(path) {
      if path != [] {
        assert path == [path[0]] + path[1..];
        PathStep(scan, env, glob, ref, f, v, path[0], path[1..]);
      }
    }
  }

  lemma FlaggedPaths(scan: Scanner, env: Env, glob: Env, ref: string, f: Frame, v: Scan, choices: seq<Definition>)
    requires v == Read(scan, ref, f) && v.Variable? && choices == Choices(env, glob, v, f)
    requires EveryPathFlagged(scan, env, glob, ref, f)
    ensures SubsFlagged(scan, env, glob, ref, f, v, choices)
  {
    forall d | d in choices && Sub(scan, env, glob, ref, f, v, d).Some?
      ensures d.flagged && EveryPathFlagged(scan, env, glob, Substitute(ref, v, d.value), Deeper(f, v.name, d.flagged))
    {
      PathStep(scan, env, glob, ref, f, v, d, []);
      forall path | Followed(scan, env, glob, Substitute(ref, v, d.value), Deeper(f, v.name, d.flagged), path)
        ensures AllFlagged(path)
      {
        PathStep(scan, env, glob, ref, f, v, d, path);
      }
    }
  }

  /** No path goes deeper than the limit, so expansion always ends. */
  lemma {:induction false} PathsAreShort(scan: Scanner, env: Env, glob: Env, ref: string, f: Frame,
                                         path: seq<Definition>)
    requires Followed(scan, env, glob, ref, f, path) && Expand(scan, env, glob, ref, f).Some?
    ensures f.depth + |path| <= DEPTH_LIMIT
    decreases |path|
  {
    if path != [] {
      var v := Read(scan, ref, f);
      PathsAreShort(scan, env, glob, Substitute(ref, v, path[0].value), Deeper(f, v.name, path[0].flagged), path[1..]);
    }
  }

  predicate SubHas(scan: Scanner, env: Env, glob: Env, ref: string, f: Frame, v: Scan, d: Definition, x: string)
    requires v.Variable?
  {
    Sub(scan, env, glob, ref, f, v, d).Some? && x in Sub(scan, env, glob, ref, f, v, d).value.values
  }

  lemma {:induction false} GatherHas(scan: Scanner, env: Env, glob: Env, ref: string, f: Frame, v: Scan,
                                     choices: seq<Definition>, x: string)
    requires v.Variable? && f.depth <= DEPTH_LIMIT && Gather(scan, env, glob, ref, f, v, choices).Some?
    ensures x in Gather(scan, env, glob, ref, f, v, choices).value.values
      <==> exists d :: d in choices && SubHas(scan, env, glob, ref, f, v, d, x)
    ensures forall d | d in choices && Sub(scan, env, glob, ref, f, v, d).Some? ::
      |Sub(scan, env, glob, ref, f, v, d).value.values| <= |Gather(scan, env, glob, ref, f, v, choices).value.values|
    decreases |choices|
  {
    if choices != [] {
      var front, last := choices[..|choices| - 1], choices[|choices| - 1];
      assert choices == front + [last];
      GatherHas(scan, env, glob, ref, f, v, front, x);
      var before := Gather(scan, env, glob, ref, f, v, front).value;
      var all := Gather(scan, env, glob, ref, f, v, choices).value;
      assert |before.values| <= |all.values|;
      assert x in all.values <==> x in before.values || SubHas(scan, env, glob, ref, f, v, last, x);
      forall d | d in choices && Sub(scan, env, glob, ref, f, v, d).Some?
        ensures |Sub(scan, env, glob, ref, f, v, d).value.values| <= |all.values|
      {
        if d in front {
        } else {
          assert d == last;
        }
      }
    }
  }

  /** Every value returned is a text with no variable left but the kept one, reached by following definitions. */
  lemma {:induction false} ValuesAreGround(scan: Scanner, env: Env, glob: Env, ref: string, f: Frame, x: string)
    returns (path: seq<Definition>)
    requires Expand(scan, env, glob, ref, f).Some? && x in Expand(scan, env, glob, ref, f).value.values
    ensures scan(x).Ground? && Reaches(scan, env, glob, ref, f, path, x)
    decreases Left(f)
  {
    var v := Read(scan, ref, f);
    path := [];
    if v.Variable? {
      var choices := Choices(env, glob, v, f);
      GatherHas(scan, env, glob, ref, f, v, choices, x);
      var d :| d in choices && SubHas(scan, env, glob, ref, f, v, d, x);
      var rest := ValuesAreGround(scan, env, glob, Substitute(ref, v, d.value), Deeper(f, v.name, d.flagged), x);
      PathStep(scan, env, glob, ref, f, v, d, rest);
      path := [d] + rest;
      assert path[1..] == rest && path[0] == d;
      assert EndOf(scan, env, glob, ref, f, path)
        == EndOf(scan, env, glob, Substitute(ref, v, d.value), Deeper(f, v.name, d.flagged), rest);
    }
  }

  /** Nothing a path reaches is missing from the values unless the limit on their number cut them. */
  lemma {:induction false} OnlyTheLimitDrops(scan: Scanner, env: Env, glob: Env, ref: string, f: Frame,
                                             path: seq<Definition>, x: string)
    requires Expand(scan, env, glob, ref, f).Some? && Reaches(scan, env, glob, ref, f, path, x)
    requires |Expand(scan, env, glob, ref, f).value.values| < VALUE_LIMIT
    ensures x in Expand(scan, env, glob, ref, f).value.values
    decreases Left(f)
  {
    if path != [] {
      var v, d := Read(scan, ref, f), path[0];
      var choices := Choices(env, glob, v, f);
      GatherHas(scan, env, glob, ref, f, v, choices, x);
      assert Sub(scan, env, glob, ref, f, v, d).Some?;
      OnlyTheLimitDrops(scan, env, glob, Substitute(ref, v, d.value), Deeper(f, v.name, d.flagged), path[1..], x);
      assert SubHas(scan, env, glob, ref, f, v, d, x);
    }
  }

  // ---- in plain terms ----------------------------------------------------------

  /** Where a definition of the variable may come from: the file's own; only where it has none the repository's;
      and only where neither has one, or the variable is already being expanded, the default. */
  predicate Origin(env: Env, glob: Env, name: string, fallback: Option<string>, f: Frame, d: Definition) {
    if name !in f.seen && name in env && env[name] != [] then d in env[name]
    else if name !in f.seen && name in glob && glob[name] != [] then d in glob[name]
    else fallback.Some? && d.value == fallback.value && (d.flagged <==> f.inherited && name in f.seen)
  }

  /** The variable stands in the reference between a head and a tail. */
  predicate StandsAt(v: Scan, head: string, token: string, tail: string, ref: string) {
    v.Variable? && ref == head + token + tail && v.start == |head| && v.end == |head| + |token|
  }

  /** What putting a definition in the variable's place gives, one step deeper. */
  function Put(scan: Scanner, env: Env, glob: Env, head: string, tail: string, f: Frame, name: string,
               d: Definition): Option<Expansion>
  {
    Expand(scan, env, glob, head + d.value + tail, Frame(f.seen + {name}, f.depth + 1, d.flagged))
  }

  predicate PutHas(scan: Scanner, env: Env, glob: Env, head: string, tail: string, f: Frame, name: string,
                   d: Definition, x: string)
  {
    var out := Put(scan, env, glob, head, tail, f, name, d);
    out.Some? && x in out.value.values
  }

  lemma SubstituteIs(v: Scan, head: string, token: string, tail: string, ref: string, value: string)
    requires StandsAt(v, head, token, tail, ref)
    ensures Substitute(ref, v, value) == head + value + tail
  {
    assert ref[..|head|] == head && ref[|head| + |token|..] == tail;
  }

  lemma ChoicesAre(env: Env, glob: Env, v: Scan, f: Frame, d: Definition)
    requires v.Variable?
    ensures d in Choices(env, glob, v, f) <==> Origin(env, glob, v.name, v.fallback, f, d)
  {
  }

  /** A returned value comes of one definition of the variable, put in its place and expanded in turn; and of
      every such definition each value is returned, unless the limit on their number cut it. */
  lemma ValuesAreOfDefinitions(scan: Scanner, env: Env, glob: Env, head: string, token: string, tail: string,
                               ref: string, f: Frame, x: string)
    requires StandsAt(scan(ref), head, token, tail, ref) && f.depth <= 6
    requires Expand(scan, env, glob, ref, f).Some?
    ensures var name, fallback := scan(ref).name, scan(ref).fallback;
      var values := Expand(scan, env, glob, ref, f).value.values;
      && (x in values ==>
            exists d :: Origin(env, glob, name, fallback, f, d) && PutHas(scan, env, glob, head, tail, f, name, d, x))
      && |values| <= 16
      && (|values| < 16 ==>
            forall d | Origin(env, glob, name, fallback, f, d) && PutHas(scan, env, glob, head, tail, f, name, d, x) ::
              x in values)
  {
    var v := scan(ref);
    var choices := Choices(env, glob, v, f);
    GatherHas(scan, env, glob, ref, f, v, choices, x);
    forall d ensures Sub(scan, env, glob, ref, f, v, d) == Put(scan, env, glob, head, tail, f, v.name, d) {
      SubstituteIs(v, head, token, tail, ref, d.value);
    }
    forall d ensures d in choices <==> Origin(env, glob, v.name, v.fallback, f, d) {
      ChoicesAre(env, glob, v, f, d);
    }
  }

  /** The definitions in the order they are tried. */
  function Definitions(env: Env, glob: Env, name: string, fallback: Option<string>, f: Frame): seq<Definition> {
    if name !in f.seen && name in env && env[name] != [] then env[name]
    else if name !in f.seen && name in glob && glob[name] != [] then glob[name]
    else if fallback.Some? then [Definition(fallback.value, f.inherited && name in f.seen)] else []
  }

  /** What each of them gives in the variable's place. */
  function Outcomes(scan: Scanner, env: Env, glob: Env, head: string, tail: string, f: Frame, name: string,
                    ds: seq<Definition>): seq<Option<Expansion>>
  {
    seq(|ds|, i requires 0 <= i < |ds| => Put(scan, env, glob, head, tail, f, name, ds[i]))
  }

  /** The values of all that were followed, one after another. */
  function ValuesOfEach(outs: seq<Option<Expansion>>): seq<string> {
    if outs == [] then [] else (if outs[0].Some? then outs[0].value.values else []) + ValuesOfEach(outs[1..])
  }

  /** The substitutions made inside each, one for a definition that was passed over. */
  function CountsOfEach(outs: seq<Option<Expansion>>): nat {
    if outs == [] then 0 else (if outs[0].Some? then outs[0].value.count else 1) + CountsOfEach(outs[1..])
  }

  lemma {:induction false} OneMoreOutcome(outs: seq<Option<Expansion>>, o: Option<Expansion>)
    ensures ValuesOfEach(outs + [o]) == ValuesOfEach(outs) + (if o.Some? then o.value.values else [])
    ensures CountsOfEach(outs + [o]) == CountsOfEach(outs) + (if o.Some? then o.value.count else 1)
  {
    if outs != [] {
      assert (outs + [o])[1..] == outs[1..] + [o];
      OneMoreOutcome(outs[1..], o);
    }
  }

  lemma {:induction false} GatherIsEach(scan: Scanner, env: Env, glob: Env, head: string, token: string, tail: string,
                                        ref: string, f: Frame, ds: seq<Definition>)
    requires StandsAt(scan(ref), head, token, tail, ref) && f.depth <= DEPTH_LIMIT
    requires Gather(scan, env, glob, ref, f, scan(ref), ds).Some?
    ensures var all, name := Gather(scan, env, glob, ref, f, scan(ref), ds).value, scan(ref).name;
      var outs := Outcomes(scan, env, glob, head, tail, f, name, ds);
      && all.values == ValuesOfEach(outs) && all.count == 1 + CountsOfEach(outs)
      && (all.covered <==> forall i | 0 <= i < |ds| && outs[i].Some? :: ds[i].flagged && outs[i].value.covered)
    decreases |ds|
  {
    if ds != [] {
      var v, front, d := scan(ref), ds[..|ds| - 1], ds[|ds| - 1];
      GatherIsEach(scan, env, glob, head, token, tail, ref, f, front);
      SubstituteIs(v, head, token, tail, ref, d.value);
      var outs, some := Outcomes(scan, env, glob, head, tail, f, v.name, ds),
                        Outcomes(scan, env, glob, head, tail, f, v.name, front);
      assert outs == some + [Put(scan, env, glob, head, tail, f, v.name, d)];
      OneMoreOutcome(some, Put(scan, env, glob, head, tail, f, v.name, d));
    }
  }

  /** What an expansion returns, in order: the values of each definition put in the variable's place, the first
      sixteen of them; one substitution and those made inside each; covered when every one that was followed is
      reported and covered in turn. */
  lemma ExpandsEach(scan: Scanner, env: Env, glob: Env, head: string, token: string, tail: string,
                    ref: string, f: Frame)
    requires StandsAt(scan(ref), head, token, tail, ref) && f.depth <= 6
    requires Expand(scan, env, glob, ref, f).Some?
    ensures var ds := Definitions(env, glob, scan(ref).name, scan(ref).fallback, f);
      var outs := Outcomes(scan, env, glob, head, tail, f, scan(ref).name, ds);
      var all, out := ValuesOfEach(outs), Expand(scan, env, glob, ref, f).value;
      && out.values == (if |all| < 16 then all else all[..16])
      && out.count == 1 + CountsOfEach(outs)
      && (out.covered <==> forall i | 0 <= i < |ds| && outs[i].Some? :: ds[i].flagged && outs[i].value.covered)
  {
    GatherIsEach(scan, env, glob, head, token, tail, ref, f,
                 Definitions(env, glob, scan(ref).name, scan(ref).fallback, f));
  }

  /** Nothing was substituted exactly when there was nothing to substitute: the reference itself is the value. */
  lemma UnsubstitutedIff(scan: Scanner, env: Env, glob: Env, ref: string, f: Frame)
    requires Expand(scan, env, glob, ref, f).Some?
    ensures var out := Expand(scan, env, glob, ref, f).value;
      && (out.count == 0 <==> scan(ref).Ground?)
      && (scan(ref).Ground? ==> out.values == [ref] && out.covered)
  {
    var v := scan(ref);
    if v.Variable? {
      GatherCounts(scan, env, glob, ref, f, v, Choices(env, glob, v, f));
    }
  }

  lemma {:induction false} GatherCounts(scan: Scanner, env: Env, glob: Env, ref: string, f: Frame, v: Scan,
                                        ds: seq<Definition>)
    requires v.Variable? && f.depth <= DEPTH_LIMIT && Gather(scan, env, glob, ref, f, v, ds).Some?
    ensures Gather(scan, env, glob, ref, f, v, ds).value.count >= 1
    decreases |ds|
  {
    if ds != [] {
      GatherCounts(scan, env, glob, ref, f, v, ds[..|ds| - 1]);
    }
  }

  /** It is refused exactly when the variable has no definition at all, or one that is not reported at its own
      line cannot be expanded. */
  lemma RefusedIff(scan: Scanner, env: Env, glob: Env, head: string, token: string, tail: string, ref: string, f: Frame)
    requires StandsAt(scan(ref), head, token, tail, ref) && f.depth <= 6
    ensures var name, fallback := scan(ref).name, scan(ref).fallback;
      Expand(scan, env, glob, ref, f).None? <==>
        || (forall d :: !Origin(env, glob, name, fallback, f, d))
        || (exists d :: Origin(env, glob, name, fallback, f, d) && !d.flagged
              && Put(scan, env, glob, head, tail, f, name, d).None?)
  {
    var v := scan(ref);
    var choices := Choices(env, glob, v, f);
    GatherIs(scan, env, glob, ref, f, v, choices);
    forall d ensures Sub(scan, env, glob, ref, f, v, d) == Put(scan, env, glob, head, tail, f, v.name, d) {
      SubstituteIs(v, head, token, tail, ref, d.value);
    }
    forall d ensures d in choices <==> Origin(env, glob, v.name, v.fallback, f, d) {
      ChoicesAre(env, glob, v, f, d);
    }
    assert choices != [] ==> choices[0] in choices;
  }

  /** A count of nothing means nothing was substituted. */
  lemma CountsSubstitutions(scan: Scanner, env: Env, glob: Env, ref: string, f: Frame)
    requires Expand(scan, env, glob, ref, f).Some?
    ensures Expand(scan, env, glob, ref, f).value.count == 0 <==> Read(scan, ref, f).Ground?
  {
    var v := Read(scan, ref, f);
    if v.Variable? {
      GatherIs(scan, env, glob, ref, f, v, Choices(env, glob, v, f));
    }
  }

  // ---- what is reported --------------------------------------------------------

  /** A reference found on a line; `unresolved` when its value is not in the repository. */
  datatype Candidate = Candidate(line: nat, ref: string, unresolved: bool)

  function Start(own: Option<string>): Frame { Frame(if own.Some? then {own.value} else {}, 0, false) }

  function Reported(line: nat, values: seq<string>, skip: string -> bool): seq<Candidate> {
    if values == [] then []
    else
      var last := values[|values| - 1];
      Reported(line, values[..|values| - 1], skip) + if skip(last) then [] else [Candidate(line, last, false)]
  }

  predicate Suppressed(out: Expansion) { out.count > 0 && out.covered }

  predicate IsQuote(c: char) { c == '"' || c == '\'' }

  function Unquoted(s: string): string
    decreases |s|
  {
    if s != "" && IsQuote(s[0]) then Unquoted(s[1..])
    else if s != "" && IsQuote(s[|s| - 1]) then Unquoted(s[..|s| - 1])
    else s
  }

  /** What `emit` makes of the raw text: no outer blanks, no outer quotes, no `docker://`. */
  function Cleaned(raw: string): string {
    var s := Unquoted(Strip(raw));
    var rest := After(s, "docker://");
    if rest.Some? then rest.value else s
  }

  predicate IsLiteral(ref: string) { ref == "" || ref == "true" || ref == "false" || ref == "null" || ref == "~" }

  /** What is reported of one cleaned reference. */
  function Emitted(scan: Scanner, env: Env, glob: Env, anchors: set<string>, line: nat, ref: string,
                   own: Option<string>, certain: bool, skip: string -> bool): seq<Candidate> {
    if IsLiteral(ref) then []
    else if !certain then [Candidate(line, ref, true)]
    else if StartsWith(ref, "*") then if ref[1..] in anchors then [] else [Candidate(line, ref, true)]
    else
      var out := Expand(scan, env, glob, ref, Start(own));
      if out.None? then [Candidate(line, ref, true)]
      else if Suppressed(out.value) then []
      else Reported(line, out.value.values, skip)
  }

  lemma {:induction false} ReportedIff(line: nat, values: seq<string>, skip: string -> bool, c: Candidate)
    ensures c in Reported(line, values, skip) <==>
      c.line == line && !c.unresolved && c.ref in values && !skip(c.ref)
  {
    if values != [] {
      var front, last := values[..|values| - 1], values[|values| - 1];
      ReportedIff(line, front, skip, c);
      assert values == front + [last];
    }
  }

  /** What is reported of a reference: itself, unresolved, when it is an operand that cannot be read, an alias of
      another file or a reference that is refused; else, unless it is wholly covered, each value not skipped. */
  lemma EmittedIff(scan: Scanner, env: Env, glob: Env, anchors: set<string>, line: nat, ref: string,
                   own: Option<string>, certain: bool, skip: string -> bool, c: Candidate)
    ensures var out := Expand(scan, env, glob, ref, Frame(if own.Some? then {own.value} else {}, 0, false));
      c in Emitted(scan, env, glob, anchors, line, ref, own, certain, skip) <==>
        && c.line == line && ref != "" && ref != "true" && ref != "false" && ref != "null" && ref != "~"
        && (if c.unresolved
            then c.ref == ref && (!certain || (ref[0] == '*' && ref[1..] !in anchors) || (ref[0] != '*' && out.None?))
            else certain && ref[0] != '*' && out.Some? && !(out.value.covered && out.value.count > 0)
                 && c.ref in out.value.values && !skip(c.ref))
  {
    var out := Expand(scan, env, glob, ref, Start(own));
    if out.Some? {
      ReportedIff(line, out.value.values, skip, c);
    }
    assert ref != "" ==> (StartsWith(ref, "*") <==> ref[0] == '*');
  }

  lemma {:induction false} QuotesOff(opening: string, s: string, closing: string)
    requires (forall c | c in opening + closing :: IsQuote(c)) && s != "" && !IsQuote(s[0]) && !IsQuote(s[|s| - 1])
    ensures Unquoted(opening + s + closing) == s
    decreases |opening| + |closing|
  {
    var all := opening + s + closing;
    if opening != "" {
      assert all[0] == opening[0] && opening[0] in opening + closing && all[1..] == opening[1..] + s + closing;
      assert forall c | c in opening[1..] + closing :: c in opening + closing;
      QuotesOff(opening[1..], s, closing);
    } else if closing != "" {
      var front := closing[..|closing| - 1];
      assert all[|all| - 1] == closing[|closing| - 1] && closing[|closing| - 1] in opening + closing;
      assert all[..|all| - 1] == opening + s + front && all[0] == s[0];
      assert forall c | c in opening + front :: c in opening + closing;
      QuotesOff(opening, s, front);
    } else {
      assert all == s;
    }
  }

  /** Quotes around a reference and a `docker://` before it are not part of it. */
  lemma CleanedIs(opening: string, ref: string, closing: string)
    requires forall c | c in opening + closing :: c == '"' || c == '\''
    requires ref != "" && !IsQuote(ref[0]) && !IsQuote(ref[|ref| - 1]) && !IsSpace(ref[0]) && !IsSpace(ref[|ref| - 1])
    requires !StartsWith(ref, "docker://")
    ensures Cleaned(opening + ref + closing) == ref && Cleaned(opening + ("docker://" + ref) + closing) == ref
  {
    var scheme := "docker://" + ref;
    OuterOf(opening, ref, closing);
    OuterOf(opening, scheme, closing);
    QuotesOff(opening, ref, closing);
    assert scheme[0] == 'd' && scheme[|scheme| - 1] == ref[|ref| - 1];
    QuotesOff(opening, scheme, closing);
    AfterHead("docker://", ref);
  }

  lemma OuterOf(opening: string, s: string, closing: string)
    requires forall c | c in opening + closing :: c == '"' || c == '\''
    requires s != "" && !IsSpace(s[0]) && !IsSpace(s[|s| - 1])
    ensures Strip(opening + s + closing) == opening + s + closing
  {
    var all := opening + s + closing;
    assert all[0] == if opening != "" then opening[0] else s[0];
    assert all[|all| - 1] == if closing != "" then closing[|closing| - 1] else s[|s| - 1];
    assert opening != "" ==> opening[0] in opening + closing;
    assert closing != "" ==> closing[|closing| - 1] in opening + closing;
    StripNone(all);
  }

  lemma NothingReportedIff(line: nat, values: seq<string>, skip: string -> bool)
    ensures Reported(line, values, skip) == [] <==> forall v | v in values :: skip(v)
  {
    forall c ensures c in Reported(line, values, skip) <==>
      c.line == line && !c.unresolved && c.ref in values && !skip(c.ref)
    {
      ReportedIff(line, values, skip, c);
    }
    if Reported(line, values, skip) != [] {
      assert Reported(line, values, skip)[0] in Reported(line, values, skip);
    }
    forall v | v in values && !skip(v) ensures Candidate(line, v, false) in Reported(line, values, skip) {
    }
  }

  /** A reference goes unreported exactly when it is a literal, an alias of this file, covered by definitions
      reported at their own lines, or expands to nothing but values to skip. */
  lemma DroppedIff(scan: Scanner, env: Env, glob: Env, anchors: set<string>, line: nat, ref: string,
                   own: Option<string>, certain: bool, skip: string -> bool)
    ensures var out := Expand(scan, env, glob, ref, Start(own));
      Emitted(scan, env, glob, anchors, line, ref, own, certain, skip) == [] <==>
        || IsLiteral(ref)
        || (certain && StartsWith(ref, "*") && ref[1..] in anchors)
        || (certain && !StartsWith(ref, "*") && out.Some?
            && ((scan(ref).Variable? && EveryPathFlagged(scan, env, glob, ref, Start(own)))
                || (forall v | v in out.value.values :: skip(v))))
  {
    var out := Expand(scan, env, glob, ref, Start(own));
    if out.Some? {
      NothingReportedIff(line, out.value.values, skip);
      CountsSubstitutions(scan, env, glob, ref, Start(own));
      CoveredIff(scan, env, glob, ref, Start(own));
    }
  }

  class FileScan {
    var found: seq<Candidate>

    /** The loop that reports what is left after `skip`. */
    method Report(line: nat, values: seq<string>, skip: string -> bool)
      modifies this
      ensures found == old(found) + Reported(line, values, skip)
    {
      for i := 0 to |values|
        invariant found == old(found) + Reported(line, values[..i], skip)
      {
        assert values[..i + 1][..i] == values[..i];
        if !skip(values[i]) {
          found := found + [Candidate(line, values[i], false)];
        }
      }
      assert values[..|values|] == values;
    }

    /** `emit` for a reference read off a line; `own` is the key whose definition that line is. */
    method Emit(scan: Scanner, env: Env, glob: Env, anchors: set<string>, line: nat, raw: string,
                own: Option<string>, certain: bool, skip: string -> bool)
      modifies this
      ensures found == old(found) + Emitted(scan, env, glob, anchors, line, Cleaned(raw), own, certain, skip)
    {
      var ref := Cleaned(raw);
      if IsLiteral(ref) {
        return;
      }
      if !certain {
        found := found + [Candidate(line, ref, true)];
        return;
      }
      if StartsWith(ref, "*") {
        if ref[1..] !in anchors {
          found := found + [Candidate(line, ref, true)];
        }
        return;
      }
      var out := ExpandRef(scan, env, glob, ref, Start(own));
      if out.None? {
        found := found + [Candidate(line, ref, true)];
      } else if !(out.value.count > 0 && out.value.covered) {
        Report(line, out.value.values, skip);
      }
    }
  }

  /** A candidate is dropped as covered only when something was substituted and every definition
      substituted on every followed path is reported at its own line. */
  lemma SuppressedOnlyWhenReported(scan: Scanner, env: Env, glob: Env, ref: string, own: Option<string>)
    requires Expand(scan, env, glob, ref, Start(own)).Some?
    requires Suppressed(Expand(scan, env, glob, ref, Start(own)).value)
    ensures scan(ref).Variable? && EveryPathFlagged(scan, env, glob, ref, Start(own))
  {
    CountsSubstitutions(scan, env, glob, ref, Start(own));
    CoveredIff(scan, env, glob, ref, Start(own));
  }
}
