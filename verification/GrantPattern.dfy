/** One tenant's database name as a GRANT target: db/provision/provision_tenant_db.py and db/provision/naming.py. */
module GrantPattern {
  import opened Strings

  const ACCOUNT_NAME_LIMIT := 32
  const PREFIX_LENGTH := 6

  predicate Lower(c: char) { 'a' <= c <= 'z' }
  predicate LowerOrDigit(c: char) { Lower(c) || '0' <= c <= '9' }

  /** `validate_tenant_name`. */
  predicate ValidTenant(name: string) {
    && 0 < |name| <= ACCOUNT_NAME_LIMIT - PREFIX_LENGTH
    && Lower(name[0]) && LowerOrDigit(name[|name| - 1])
    && forall i | 0 <= i < |name| :: LowerOrDigit(name[i]) || name[i] == '-'
  }

  /** A tenant's name: at most 26 small letters, digits and hyphens, the first a letter, the last no hyphen. */
  lemma ValidTenantIff(name: string)
    ensures ValidTenant(name) <==>
      && Spelled(name, SMALL, DIGITS, "-", "") && |name| <= 26
      && name[0] in SMALL && name[|name| - 1] != '-'
  {
    forall c ensures LowerOrDigit(c) || c == '-' <==> c in SMALL || c in DIGITS || c in "-" || c in "" {
      RangesAre(c);
    }
    SpelledIff(name, SMALL, DIGITS, "-", "", c => LowerOrDigit(c) || c == '-');
    if name != "" {
      RangesAre(name[0]);
    }
    assert forall i | 0 <= i < |name| :: name[i] in name;
  }

  function SqlIdentifier(name: string): string { Replace(name, "-", "_") }

  function DatabaseName(name: string): string { "ghost_" + SqlIdentifier(name) }

  function Grant(database: string): string {
    Replace(Replace(Replace(database, "\\", "\\\\"), "_", "\\_"), "%", "\\%")
  }

  /** MySQL's match of a database-level grant against a database name: `_` is any character,
      `%` any run, and a backslash makes the next character literal. */
  predicate Matches(pattern: string, name: string)
    decreases |pattern| + |name|
  {
    if pattern == "" then name == ""
    else if pattern[0] == '%' then Matches(pattern[1..], name) || (name != "" && Matches(pattern, name[1..]))
    else if name == "" then false
    else if pattern[0] == '_' then Matches(pattern[1..], name[1..])
    else if pattern[0] == '\\' && |pattern| > 1 then name[0] == pattern[1] && Matches(pattern[2..], name[1..])
    else name[0] == pattern[0] && Matches(pattern[1..], name[1..])
  }

  predicate Special(c: char) { c == '\\' || c == '_' || c == '%' }

  function EscapedChar(c: char): string { if Special(c) then ['\\', c] else [c] }

  function Escaped(s: string): string { if s == "" then "" else EscapedChar(s[0]) + Escaped(s[1..]) }

  lemma MapOne(c: char, d: char, sub: string)
    ensures MapChar([c], d, sub) == if c == d then sub else [c]
  {
    assert [c][1..] == "";
    assert sub + "" == sub;
  }

  lemma MapTwo(c: char, e: char, d: char, sub: string)
    ensures MapChar([c, e], d, sub) == (if c == d then sub else [c]) + (if e == d then sub else [e])
  {
    assert [c, e][1..] == [e];
    MapOne(e, d, sub);
  }

  function ThreePasses(s: string): string {
    MapChar(MapChar(MapChar(s, '\\', "\\\\"), '_', "\\_"), '%', "\\%")
  }

  lemma EachOne(c: char)
    ensures ThreePasses([c]) == EscapedChar(c)
  {
    MapOne(c, '\\', "\\\\");
    MapTwo('\\', '\\', '_', "\\_");
    MapTwo('\\', '\\', '%', "\\%");
    MapOne(c, '_', "\\_");
    MapTwo('\\', '_', '%', "\\%");
    MapOne(c, '%', "\\%");
  }

  lemma PassesConcat(a: string, b: string)
    ensures ThreePasses(a + b) == ThreePasses(a) + ThreePasses(b)
  {
    MapCharAppend(a, b, '\\', "\\\\");
    var a1, b1 := MapChar(a, '\\', "\\\\"), MapChar(b, '\\', "\\\\");
    MapCharAppend(a1, b1, '_', "\\_");
    MapCharAppend(MapChar(a1, '_', "\\_"), MapChar(b1, '_', "\\_"), '%', "\\%");
  }

  lemma {:induction false} PassesEscape(s: string)
    ensures ThreePasses(s) == Escaped(s)
  {
    if s != "" {
      assert s == [s[0]] + s[1..];
      PassesConcat([s[0]], s[1..]);
      EachOne(s[0]);
      PassesEscape(s[1..]);
    }
  }

  /** The three chained replacements escape every character once. */
  lemma GrantEscapesEachChar(database: string)
    ensures Grant(database) == Escaped(database)
  {
    var first := Replace(database, "\\", "\\\\");
    ReplaceCharIsMap(database, '\\', "\\\\");
    ReplaceCharIsMap(first, '_', "\\_");
    ReplaceCharIsMap(Replace(first, "_", "\\_"), '%', "\\%");
    PassesEscape(database);
  }

  lemma {:induction false} EscapedMatchesOnly(database: string, name: string)
    ensures Matches(Escaped(database), name) <==> name == database
    decreases |database|
  {
    if database != "" {
      var c, rest := database[0], Escaped(database[1..]);
      var pattern := EscapedChar(c) + rest;
      assert pattern[if Special(c) then 2 else 1..] == rest;
      if name != "" {
        EscapedMatchesOnly(database[1..], name[1..]);
        assert name == [name[0]] + name[1..] && database == [c] + database[1..];
      }
    }
  }

  /** A grant on a database reaches that database and no other, whatever characters its name has. */
  lemma GrantMatchesOnlyItself(database: string, name: string)
    ensures Matches(Grant(database), name) <==> name == database
  {
    GrantEscapesEachChar(database);
    EscapedMatchesOnly(database, name);
  }

  lemma {:induction false} HyphensMapBack(name: string)
    requires '_' !in name
    ensures MapChar(MapChar(name, '-', "_"), '_', "-") == name && |MapChar(name, '-', "_")| == |name|
  {
    if name != "" {
      var c, rest := name[0], name[1..];
      assert name == [c] + rest;
      HyphensMapBack(rest);
      MapCharCons(if c == '-' then '_' else c, MapChar(rest, '-', "_"), '_', "-");
    }
  }

  lemma DatabaseNameFits(name: string)
    requires ValidTenant(name)
    ensures |DatabaseName(name)| == PREFIX_LENGTH + |name| <= ACCOUNT_NAME_LIMIT
    ensures MapChar(DatabaseName(name)[PREFIX_LENGTH..], '_', "-") == name
  {
    ReplaceCharIsMap(name, '-', "_");
    HyphensMapBack(name);
    assert DatabaseName(name)[PREFIX_LENGTH..] == SqlIdentifier(name);
  }

  /** No tenant's grant covers another tenant's database; every account name fits. */
  lemma TenantsApart(a: string, b: string)
    requires ValidTenant(a) && ValidTenant(b)
    ensures Matches(Grant(DatabaseName(a)), DatabaseName(b)) <==> a == b
  {
    GrantMatchesOnlyItself(DatabaseName(a), DatabaseName(b));
    DatabaseNameFits(a);
    DatabaseNameFits(b);
  }

  predicate Literal(s: string) { forall c | c in s :: !Special(c) }

  lemma {:induction false} LiteralPrefix(head: string, pattern: string, name: string)
    requires Literal(head)
    ensures Matches(head + pattern, head + name) <==> Matches(pattern, name)
  {
    if head == "" {
      assert head + pattern == pattern && head + name == name;
    } else {
      assert head == [head[0]] + head[1..];
      assert head[0] in head && !Special(head[0]);
      assert (head + pattern)[1..] == head[1..] + pattern && (head + name)[1..] == head[1..] + name;
      LiteralPrefix(head[1..], pattern, name);
    }
  }

  /** Unescaped, a name with an underscore reaches every name that differs only there. */
  lemma UnescapedReachesOthers(head: string, tail: string, c: char)
    requires Literal(head) && Literal(tail)
    ensures Matches(head + ("_" + tail), head + ([c] + tail))
  {
    LiteralPrefix(head, "_" + tail, [c] + tail);
    assert ("_" + tail)[1..] == tail && ([c] + tail)[1..] == tail;
    LiteralPrefix(tail, "", "");
    assert tail + "" == tail;
  }
}
