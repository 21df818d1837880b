/** The apply-time check of a bucket policy: db/provision/configure_backup_bucket.py. */
module BucketPolicy {
  import opened Options
  import opened Strings

  /** A policy document as JSON gives it. */
  datatype Json = Text(text: string) | List(items: seq<Json>) | Object(fields: map<string, Json>) | Scalar

  datatype Effect = Allow | Deny | NoEffect

  /** A statement as the check reads it. */
  datatype Statement = Statement(
    effect: Effect, notAction: bool, resources: seq<string>, actions: seq<string>,
    principals: Option<seq<string>>, notPrincipals: Option<seq<string>>)

  function Texts(items: seq<Json>): seq<string> {
    if items == [] then []
    else Texts(items[..|items| - 1]) + if items[|items| - 1].Text? then [items[|items| - 1].text] else []
  }

  /** `_string_list`: one or many. */
  function StringList(value: Option<Json>): seq<string> {
    match value
    case Some(Text(s)) => [s]
    case Some(List(items)) => Texts(items)
    case _ => []
  }

  function Lookup(fields: map<string, Json>, key: string): Option<Json> {
    if key in fields then Some(fields[key]) else None
  }

  /** `_principals`: nothing when the field is absent, which is not the same as naming nobody. */
  function Principals(statement: map<string, Json>, field: string): Option<seq<string>> {
    match Lookup(statement, field)
    case None => None
    case Some(Text(s)) => Some([s])
    case Some(Object(fields)) => Some(StringList(Lookup(fields, "AWS")))
    case Some(_) => Some([])
  }

  function ReadStatement(s: map<string, Json>): Statement {
    var effect := Lookup(s, "Effect");
    Statement(
      if effect == Some(Text("Allow")) then Allow else if effect == Some(Text("Deny")) then Deny else NoEffect,
      "NotAction" in s, StringList(Lookup(s, "Resource")), StringList(Lookup(s, "Action")),
      Principals(s, "Principal"), Principals(s, "NotPrincipal"))
  }

  function ReadPolicy(document: seq<map<string, Json>>): seq<Statement> {
    seq(|document|, i requires 0 <= i < |document| => ReadStatement(document[i]))
  }

  /** A bare string and a list of it are read alike, wherever a policy takes one or many. */
  lemma OneOrMany(s: string)
    ensures StringList(Some(Text(s))) == StringList(Some(List([Text(s)]))) == [s]
  {
    assert [Text(s)][..0] == [];
    assert Texts([Text(s)]) == Texts([Text(s)][..0]) + [s];
  }

  /** A list of names as a policy document writes it: one name may stand bare. */
  function Written(names: seq<string>, bare: bool): Json {
    if bare && |names| == 1 then Text(names[0])
    else List(seq(|names|, i requires 0 <= i < |names| => Text(names[i])))
  }

  lemma {:induction false} WrittenReads(names: seq<string>, bare: bool)
    ensures StringList(Some(Written(names, bare))) == names
    decreases |names|, bare
  {
    if names != [] {
      if bare && |names| == 1 {
        assert names == [names[0]];
      } else {
        var n := |names| - 1;
        WrittenReads(names[..n], false);
        assert Written(names, false).items[..n] == Written(names[..n], false).items;
        assert names == names[..n] + [names[n]];
      }
    }
  }

  /** How a document writes a Principal or NotPrincipal field, `plain` for the form without the AWS member. */
  function WrittenPrincipals(names: seq<string>, bare: bool, plain: bool): Json {
    if plain && |names| == 1 then Text(names[0]) else Object(map["AWS" := Written(names, bare)])
  }

  function With(fields: map<string, Json>, key: string, value: Option<Json>): (r: map<string, Json>)
    ensures Lookup(r, key) == if value.Some? then value else Lookup(fields, key)
    ensures forall other | other != key :: Lookup(r, other) == Lookup(fields, other)
  {
    if value.Some? then fields[key := value.value] else fields
  }

  function PrincipalsField(names: Option<seq<string>>, bare: bool, plain: bool): Option<Json> {
    if names.Some? then Some(WrittenPrincipals(names.value, bare, plain)) else None
  }

  function EffectField(effect: Effect): Option<Json> {
    match effect
    case Allow => Some(Text("Allow"))
    case Deny => Some(Text("Deny"))
    case NoEffect => None
  }

  /** The fields of a statement in a document. */
  function WrittenStatement(s: Statement, bare: bool, plain: bool): map<string, Json> {
    var scope := With(With(map[], "Effect", EffectField(s.effect)),
                      "NotAction", if s.notAction then Some(Scalar) else None);
    var reach := With(With(scope, "Resource", Some(Written(s.resources, bare))),
                      "Action", Some(Written(s.actions, bare)));
    With(With(reach, "Principal", PrincipalsField(s.principals, bare, plain)),
         "NotPrincipal", PrincipalsField(s.notPrincipals, bare, plain))
  }

  lemma FieldsApart()
    ensures "Effect" != "NotAction" && "Effect" != "Resource" && "Effect" != "Action" && "Effect" != "Principal"
    ensures "Effect" != "NotPrincipal" && "NotAction" != "Resource" && "NotAction" != "Action"
    ensures "NotAction" != "Principal" && "NotAction" != "NotPrincipal" && "Resource" != "Action"
    ensures "Resource" != "Principal" && "Resource" != "NotPrincipal" && "Action" != "Principal"
    ensures "Action" != "NotPrincipal" && "Principal" != "NotPrincipal"
  {
    assert "Effect"[0] != "Action"[0] && "NotAction"[0] != "Principal"[0];
  }

  lemma WrittenFields(s: Statement, bare: bool, plain: bool, fields: map<string, Json>)
    requires fields == WrittenStatement(s, bare, plain)
    ensures Lookup(fields, "Effect") == EffectField(s.effect) && (Lookup(fields, "NotAction").Some? <==> s.notAction)
    ensures Lookup(fields, "Resource") == Some(Written(s.resources, bare))
    ensures Lookup(fields, "Action") == Some(Written(s.actions, bare))
    ensures Lookup(fields, "Principal") == PrincipalsField(s.principals, bare, plain)
    ensures Lookup(fields, "NotPrincipal") == PrincipalsField(s.notPrincipals, bare, plain)
  {
    FieldsApart();
  }

  /** Whichever way a statement is written, the check reads that statement. */
  lemma StatementRoundTrip(s: Statement, bare: bool, plain: bool)
    ensures ReadStatement(WrittenStatement(s, bare, plain)) == s
  {
    var fields := WrittenStatement(s, bare, plain);
    WrittenFields(s, bare, plain, fields);
    WrittenReads(s.resources, bare);
    WrittenReads(s.actions, bare);
    PrincipalsRead(fields, "Principal", s.principals, bare, plain);
    PrincipalsRead(fields, "NotPrincipal", s.notPrincipals, bare, plain);
    EffectsApart();
  }

  lemma EffectsApart()
    ensures "Allow" != "Deny"
  {
    assert |"Allow"| != |"Deny"|;
  }

  lemma PrincipalsRead(fields: map<string, Json>, key: string, names: Option<seq<string>>, bare: bool, plain: bool)
    requires Lookup(fields, key) == PrincipalsField(names, bare, plain)
    ensures Principals(fields, key) == names
  {
    if names.Some? {
      WrittenReads(names.value, bare);
      assert |names.value| == 1 ==> names.value == [names.value[0]];
    }
  }

  /** A document that writes a policy's statements in order, each in its own way, reads as that policy. */
  lemma DocumentReads(document: seq<map<string, Json>>, policy: seq<Statement>, bare: seq<bool>, plain: seq<bool>)
    requires |document| == |policy| == |bare| == |plain|
    requires forall i | 0 <= i < |policy| :: document[i] == WrittenStatement(policy[i], bare[i], plain[i])
    ensures ReadPolicy(document) == policy
  {
    forall i | 0 <= i < |policy| ensures ReadStatement(document[i]) == policy[i] {
      StatementRoundTrip(policy[i], bare[i], plain[i]);
    }
  }

  /** What a policy must fence: one bucket, whose operator must never be locked out. */
  datatype Fence = Fence(arn: string, operator: string, bucketActions: seq<string>, objectActions: seq<string>)

  const CRITICAL_BUCKET_ACTIONS := [
    "s3:GetBucketPolicy", "s3:PutBucketPolicy", "s3:DeleteBucketPolicy", "s3:PutBucketAcl",
    "s3:PutLifecycleConfiguration", "s3:PutBucketVersioning", "s3:DeleteBucket"]

  const CRITICAL_OBJECT_ACTIONS := ["s3:GetObject", "s3:PutObject", "s3:DeleteObject"]

  function FenceFor(bucket: string, operator: string): Fence {
    Fence("arn:aws:s3:::" + bucket, operator, CRITICAL_BUCKET_ACTIONS, CRITICAL_OBJECT_ACTIONS)
  }

  /** The two kinds of resource: the bucket itself and its objects. */
  datatype Class = Bucket | Objects

  function Critical(f: Fence, k: Class): seq<string> { if k.Bucket? then f.bucketActions else f.objectActions }

  predicate IsObject(f: Fence, resource: string) { StartsWith(resource, f.arn + "/") }

  /** The statement reaches that class of resource. */
  predicate On(f: Fence, s: Statement, k: Class) {
    if k.Bucket? then f.arn in s.resources else exists r | r in s.resources :: IsObject(f, r)
  }

  /** `_action_covers`. */
  predicate Covers(pattern: string, action: string) {
    pattern == action || (EndsWith(pattern, "*") && StartsWith(action, pattern[..|pattern| - 1]))
  }

  predicate AnyCovers(patterns: set<string>, action: string) { exists p | p in patterns :: Covers(p, action) }

  /** A Deny's own reach: everyone it names, or everyone it does not exempt. */
  predicate AppliesTo(s: Statement, who: string) {
    if s.principals.Some? then who in s.principals.value || "*" in s.principals.value
    else s.notPrincipals.Some? && who !in s.notPrincipals.value
  }

  predicate Grants(f: Fence, s: Statement, who: string, k: Class) {
    s.effect.Allow? && s.principals.Some? && who in s.principals.value && On(f, s, k)
  }

  predicate Denies(f: Fence, s: Statement, who: string, k: Class) {
    s.effect.Deny? && !s.notAction && On(f, s, k) && AppliesTo(s, who)
  }

  /** The Action patterns some Allow grants a principal on one class. */
  function Allowed(f: Fence, policy: seq<Statement>, who: string, k: Class): set<string> {
    set s, a | s in policy && Grants(f, s, who, k) && a in s.actions :: a
  }

  /** The Action patterns some Deny withholds from a principal on one class. */
  function DeniedTo(f: Fence, policy: seq<Statement>, who: string, k: Class): set<string> {
    set s, a | s in policy && Denies(f, s, who, k) && a in s.actions :: a
  }

  function ExplainedOn(f: Fence, policy: seq<Statement>, s: Statement, who: string, k: Class): set<string> {
    if On(f, s, k) then Allowed(f, policy, who, k) + DeniedTo(f, policy, who, k) else {}
  }

  /** An exemption from a Deny is accounted for by what the rest of the policy says of that principal. */
  predicate Accounted(f: Fence, policy: seq<Statement>, s: Statement, who: string) {
    var explained := ExplainedOn(f, policy, s, who, Bucket) + ExplainedOn(f, policy, s, who, Objects);
    && (On(f, s, Bucket) ==> forall a | a in f.bucketActions :: AnyCovers(explained, a))
    && (On(f, s, Objects) ==> forall a | a in f.objectActions :: AnyCovers(explained, a))
  }

  predicate GoodResources(f: Fence, s: Statement) {
    !s.notAction && s.resources != [] && forall r | r in s.resources :: r == f.arn || IsObject(f, r)
  }

  predicate GoodAllow(s: Statement) {
    s.notPrincipals.None? && (s.principals.Some? ==> "*" !in s.principals.value)
  }

  predicate GoodExemptions(f: Fence, policy: seq<Statement>, s: Statement) {
    s.notPrincipals.Some? ==>
      forall who | who in s.notPrincipals.value :: who == f.operator || Accounted(f, policy, s, who)
  }

  /** A Deny on the bucket resource that cannot be read as reaching the operator. */
  predicate SparesOperator(f: Fence, s: Statement) {
    if s.notPrincipals.Some? then f.operator in s.notPrincipals.value
    else s.principals.Some? && "*" !in s.principals.value && f.operator !in s.principals.value
  }

  predicate GoodDeny(f: Fence, policy: seq<Statement>, s: Statement) {
    GoodExemptions(f, policy, s) && (On(f, s, Bucket) ==> SparesOperator(f, s))
  }

  predicate GoodStatement(f: Fence, policy: seq<Statement>, s: Statement) {
    GoodResources(f, s) &&
    match s.effect
    case Allow => GoodAllow(s)
    case Deny => GoodDeny(f, policy, s)
    case NoEffect => false
  }

  /** Some Deny on that class withholds the action from those it reaches. */
  predicate Withheld(f: Fence, policy: seq<Statement>, k: Class, action: string) {
    exists s | s in policy :: s.effect.Deny? && On(f, s, k) && AnyCovers(Patterns(s), action)
  }

  function Patterns(s: Statement): set<string> { set a | a in s.actions }

  predicate DeniesOn(f: Fence, policy: seq<Statement>, k: Class) {
    exists s | s in policy :: s.effect.Deny? && On(f, s, k)
  }

  predicate FencesClass(f: Fence, policy: seq<Statement>, k: Class) {
    DeniesOn(f, policy, k) && forall a | a in Critical(f, k) :: Withheld(f, policy, k, a)
  }

  /** What the check accepts, whatever order it looks in. */
  predicate Accepted(f: Fence, policy: seq<Statement>) {
    && (forall s | s in policy :: GoodStatement(f, policy, s))
    && FencesClass(f, policy, Bucket) && FencesClass(f, policy, Objects)
  }

  // ---- what acceptance means -------------------------------------------------

  /** Exactly one of the two ways of naming principals. */
  predicate NamesOneWay(s: Statement) { s.principals.Some? <==> s.notPrincipals.None? }

  predicate NamesInPrincipal(s: Statement, who: string) {
    s.principals.Some? && (who in s.principals.value || "*" in s.principals.value)
  }

  /** In an accepted policy a Deny on the bucket reaches the operator exactly when it names them, or
      everyone, in a Principal it carries beside a NotPrincipal. */
  lemma OperatorLockedOutIff(f: Fence, policy: seq<Statement>, s: Statement)
    requires Accepted(f, policy) && s in policy && s.effect.Deny? && On(f, s, Bucket)
    ensures AppliesTo(s, f.operator) <==> NamesInPrincipal(s, f.operator)
    ensures NamesInPrincipal(s, f.operator) ==> s.notPrincipals.Some?
  {
    assert GoodStatement(f, policy, s);
  }

  /** So with one way of naming per statement, no accepted Deny on the bucket reaches the operator. */
  lemma NoLockout(f: Fence, policy: seq<Statement>, s: Statement)
    requires Accepted(f, policy) && s in policy && s.effect.Deny? && On(f, s, Bucket) && NamesOneWay(s)
    ensures !AppliesTo(s, f.operator)
  {
    OperatorLockedOutIff(f, policy, s);
  }

  /** As the check counts: an Allow or a Deny of the policy that names the principal covers the action and
      reaches some resource of that class. */
  predicate SpelledOn(f: Fence, policy: seq<Statement>, who: string, k: Class, action: string) {
    exists t | t in policy ::
      AnyCovers(Patterns(t), action) && (Grants(f, t, who, k) || Denies(f, t, who, k))
  }

  /** On one of the classes that statement `s` covers. */
  predicate Spelled(f: Fence, policy: seq<Statement>, s: Statement, who: string, action: string) {
    exists k: Class :: On(f, s, k) && SpelledOn(f, policy, who, k, action)
  }

  lemma SpelledOnIff(f: Fence, policy: seq<Statement>, who: string, k: Class, action: string)
    ensures SpelledOn(f, policy, who, k, action)
      <==> AnyCovers(Allowed(f, policy, who, k) + DeniedTo(f, policy, who, k), action)
  {
    if SpelledOn(f, policy, who, k, action) {
      var t :| t in policy && AnyCovers(Patterns(t), action) && (Grants(f, t, who, k) || Denies(f, t, who, k));
      var p :| p in Patterns(t) && Covers(p, action);
      assert p in Allowed(f, policy, who, k) + DeniedTo(f, policy, who, k);
    }
    if p :| p in Allowed(f, policy, who, k) && Covers(p, action) {
      var t :| t in policy && Grants(f, t, who, k) && p in t.actions;
      assert p in Patterns(t);
    }
    if p :| p in DeniedTo(f, policy, who, k) && Covers(p, action) {
      var t :| t in policy && Denies(f, t, who, k) && p in t.actions;
      assert p in Patterns(t);
    }
  }

  lemma CoversUnion(a: set<string>, b: set<string>, action: string)
    ensures AnyCovers(a + b, action) <==> AnyCovers(a, action) || AnyCovers(b, action)
  {
    if p :| p in a + b && Covers(p, action) {
      assert p in a || p in b;
    }
    if p :| p in a && Covers(p, action) {
      assert p in a + b;
    }
    if p :| p in b && Covers(p, action) {
      assert p in a + b;
    }
  }

  lemma SpelledIff(f: Fence, policy: seq<Statement>, s: Statement, who: string, action: string)
    ensures Spelled(f, policy, s, who, action)
      <==> AnyCovers(ExplainedOn(f, policy, s, who, Bucket) + ExplainedOn(f, policy, s, who, Objects), action)
  {
    CoversUnion(ExplainedOn(f, policy, s, who, Bucket), ExplainedOn(f, policy, s, who, Objects), action);
    SpelledOnIff(f, policy, who, Bucket, action);
    SpelledOnIff(f, policy, who, Objects, action);
    if Spelled(f, policy, s, who, action) {
      var k: Class :| On(f, s, k) && SpelledOn(f, policy, who, k, action);
      assert k == Bucket || k == Objects;
    }
  }

  /** The exemptions of a Deny pass exactly when every principal it exempts, other than the operator, has
      each critical action of each class the Deny covers spelled out on some class it covers. */
  lemma ExemptionsSpelledIff(f: Fence, policy: seq<Statement>, s: Statement)
    requires s.notPrincipals.Some?
    ensures GoodExemptions(f, policy, s) <==>
      forall who, k, action
        | who in s.notPrincipals.value && who != f.operator && On(f, s, k) && action in Critical(f, k)
        :: Spelled(f, policy, s, who, action)
  {
    forall who ensures Accounted(f, policy, s, who)
      <==> forall k, action | On(f, s, k) && action in Critical(f, k) :: Spelled(f, policy, s, who, action)
    {
      AccountedIff(f, policy, s, who);
    }
  }

  lemma AccountedIff(f: Fence, policy: seq<Statement>, s: Statement, who: string)
    ensures Accounted(f, policy, s, who)
      <==> forall k, action | On(f, s, k) && action in Critical(f, k) :: Spelled(f, policy, s, who, action)
  {
    forall action { SpelledIff(f, policy, s, who, action); }
    if forall k, action | On(f, s, k) && action in Critical(f, k) :: Spelled(f, policy, s, who, action) {
      assert On(f, s, Bucket) ==> forall a | a in Critical(f, Bucket) :: Spelled(f, policy, s, who, a);
      assert On(f, s, Objects) ==> forall a | a in Critical(f, Objects) :: Spelled(f, policy, s, who, a);
    }
  }

  predicate Exempts(s: Statement, who: string) { s.notPrincipals.Some? && who in s.notPrincipals.value }

  /** Every accepted policy that holds the Deny has, for each critical action, a statement the check counts on
      the very class the action is for. */
  ghost predicate OnOwnClass(f: Fence, s: Statement, who: string) {
    forall policy, k, action | Accepted(f, policy) && s in policy && On(f, s, k) && action in Critical(f, k)
      :: SpelledOn(f, policy, who, k, action)
  }

  /** That is so, for a principal the Deny spares, in every accepted policy that holds the Deny exactly when
      the Deny does not cover both classes: where it does, an Allow on the bucket alone accounts for the
      objects too. */
  lemma OwnClassIff(f: Fence, policy: seq<Statement>, s: Statement, who: string)
    requires f.operator != "*" && f.objectActions != []
    requires Accepted(f, policy) && s in policy && s.effect.Deny?
    requires Exempts(s, who) && !AppliesTo(s, who) && who != f.operator
    ensures OnOwnClass(f, s, who) <==> !(On(f, s, Bucket) && On(f, s, Objects))
  {
    if On(f, s, Bucket) && On(f, s, Objects) {
      BothClasses(f, policy, s, who);
    } else {
      forall p, k, action | Accepted(f, p) && s in p && On(f, s, k) && action in Critical(f, k)
        ensures SpelledOn(f, p, who, k, action)
      {
        assert GoodStatement(f, p, s);
        ExemptionsSpelledIff(f, p, s);
        assert Spelled(f, p, s, who, action);
      }
    }
  }

  /** Everyone named but the wildcard. */
  function Named(names: seq<string>): (r: seq<string>)
    ensures forall n :: n in r <==> n in names && n != "*"
  {
    if names == [] then [] else (if names[0] == "*" then [] else [names[0]]) + Named(names[1..])
  }

  /** An accepted policy in which whoever `s` exempts is let through to the bucket, and nothing is said of
      the objects. */
  function BucketOnly(f: Fence, s: Statement): seq<Statement>
    requires s.notPrincipals.Some?
  {
    var named := Named(s.notPrincipals.value);
    [s, s.(actions := ["*"]),
     Statement(Deny, false, [f.arn], ["*"], None, Some(named)),
     Statement(Allow, false, [f.arn], ["*"], Some(named), None)]
  }

  lemma BucketOnlyAccepted(f: Fence, policy: seq<Statement>, s: Statement)
    requires f.operator != "*"
    requires Accepted(f, policy) && s in policy && s.effect.Deny? && s.notPrincipals.Some?
    requires On(f, s, Bucket) && On(f, s, Objects)
    ensures Accepted(f, BucketOnly(f, s))
  {
    var all, named := BucketOnly(f, s), Named(s.notPrincipals.value);
    var wide, d, a := all[1], all[2], all[3];
    assert GoodStatement(f, policy, s) && wide in all && d in all && a in all;
    BucketIsNoObject(f);
    assert wide.actions[0] == "*" && d.actions[0] == "*" && a.actions[0] == "*" && d.resources[0] == f.arn;
    assert a.resources[0] == f.arn;
    StarWithholds(f, all, wide, Bucket);
    StarWithholds(f, all, wide, Objects);
    forall t, who | t in all && On(f, t, Bucket) && who in s.notPrincipals.value ensures Accounted(f, all, t, who) {
      assert if who == "*" then Denies(f, d, who, Bucket) else Grants(f, a, who, Bucket);
      StarExplains(f, all, t, if who == "*" then d else a, who);
    }
  }

  lemma StarExplains(f: Fence, policy: seq<Statement>, s: Statement, t: Statement, who: string)
    requires t in policy && "*" in t.actions && On(f, s, Bucket)
    requires (Grants(f, t, who, Bucket) || Denies(f, t, who, Bucket))
    ensures Accounted(f, policy, s, who)
  {
    assert "*" in ExplainedOn(f, policy, s, who, Bucket);
    forall action
      ensures AnyCovers(ExplainedOn(f, policy, s, who, Bucket) + ExplainedOn(f, policy, s, who, Objects), action)
    {
      StarCovers(action);
    }
  }

  lemma BothClasses(f: Fence, policy: seq<Statement>, s: Statement, who: string)
    requires f.operator != "*" && f.objectActions != []
    requires Accepted(f, policy) && s in policy && s.effect.Deny?
    requires Exempts(s, who) && !AppliesTo(s, who) && On(f, s, Bucket) && On(f, s, Objects)
    ensures !OnOwnClass(f, s, who)
  {
    var all, action := BucketOnly(f, s), f.objectActions[0];
    BucketOnlyAccepted(f, policy, s);
    BucketIsNoObject(f);
    assert s in all && action in Critical(f, Objects);
    forall t | t in all ensures !Grants(f, t, who, Objects) && !Denies(f, t, who, Objects) {
    }
    assert !SpelledOn(f, all, who, Objects, action);
  }

  // ---- what the engine does with a request -----------------------------------

  /** `matches`: a pattern is the value itself, or ends in a star after a front part of it. */
  predicate Matches(patterns: seq<string>, value: string) { exists p | p in patterns :: Covers(p, value) }

  datatype Request = Request(action: string, resource: string)

  predicate Concerns(s: Statement, q: Request) {
    Matches(s.resources, q.resource) && !s.notAction && Matches(s.actions, q.action)
  }

  /** Whom the engine takes the statement to name: a NotPrincipal goes before a Principal. */
  predicate Names(s: Statement, who: string) {
    if s.notPrincipals.Some? then !Matches(s.notPrincipals.value, who)
    else s.principals.Some? && Matches(s.principals.value, who)
  }

  predicate Applies(s: Statement, who: string, q: Request) { Concerns(s, q) && Names(s, who) }

  predicate Nameless(s: Statement) { s.principals.None? && s.notPrincipals.None? }

  datatype Verdict = Denied | Granted | Raised

  /** A key of the project, to which everything is open by default. */
  predicate IsKey(who: string) { StartsWith(who, "arn:aws:iam:::user/") }

  /** The decision from some statement on, given whether one before it granted the request. */
  function Decision(policy: seq<Statement>, who: string, q: Request, granted: bool): Verdict {
    if policy == [] then if granted || IsKey(who) then Granted else Denied
    else
      var s := policy[0];
      if !Concerns(s, q) then Decision(policy[1..], who, q, granted)
      else if Nameless(s) then Raised
      else if !Names(s, who) then Decision(policy[1..], who, q, granted)
      else if s.effect.Deny? then Denied
      else Decision(policy[1..], who, q, true)
  }

  /** `decide`. */
  method Decide(policy: seq<Statement>, who: string, q: Request) returns (v: Verdict)
    ensures v == Decision(policy, who, q, false)
  {
    var granted := false;
    var i := 0;
    while i < |policy|
      invariant 0 <= i <= |policy|
      invariant Decision(policy, who, q, false) == Decision(policy[i..], who, q, granted)
    {
      var s := policy[i];
      assert policy[i..][1..] == policy[i + 1..];
      if Concerns(s, q) {
        if Nameless(s) {
          return Raised;
        }
        if Names(s, who) {
          if s.effect.Deny? {
            return Denied;
          }
          granted := true;
        }
      }
      i := i + 1;
    }
    return if granted || IsKey(who) then Granted else Denied;
  }

  /** Some Deny of the policy speaks of the request. */
  predicate Refused(policy: seq<Statement>, who: string, q: Request) {
    exists s | s in policy :: s.effect.Deny? && Applies(s, who, q)
  }

  /** No statement of the policy speaks of the request: only the project's default decides it. */
  predicate Silent(policy: seq<Statement>, who: string, q: Request) {
    forall s | s in policy :: !Applies(s, who, q)
  }

  /** A statement that names nobody in either way and that nothing decided before. */
  predicate RaisesAt(policy: seq<Statement>, who: string, q: Request, i: nat) {
    && i < |policy| && policy[i].principals == None && policy[i].notPrincipals == None && Concerns(policy[i], q)
    && forall j | 0 <= j < i :: !(policy[j].effect.Deny? && Applies(policy[j], who, q))
  }

  /** Any Deny wins, whatever the order; where nothing speaks, a key gets everything. */
  lemma {:induction false} DecisionIff(policy: seq<Statement>, who: string, q: Request, granted: bool)
    ensures var v := Decision(policy, who, q, granted);
      && (v.Raised? <==> exists i: nat :: RaisesAt(policy, who, q, i))
      && (!v.Raised? ==> (v.Denied? <==>
            Refused(policy, who, q) || (Silent(policy, who, q) && !granted && !("arn:aws:iam:::user/" <= who))))
  {
    if policy != [] {
      var rest := policy[1..];
      OneMore(policy, who, q);
      DecisionIff(rest, who, q, granted);
      DecisionIff(rest, who, q, true);
      RaisesLater(policy, who, q);
    }
  }

  lemma RaisesLater(policy: seq<Statement>, who: string, q: Request)
    requires policy != []
    ensures (exists i: nat :: RaisesAt(policy, who, q, i)) <==>
      || RaisesAt(policy, who, q, 0)
      || (!(policy[0].effect.Deny? && Applies(policy[0], who, q)) && exists i: nat :: RaisesAt(policy[1..], who, q, i))
  {
    if i: nat :| RaisesAt(policy, who, q, i) && i > 0 {
      assert policy[1..][i - 1] == policy[i] && forall j | 0 <= j < i - 1 :: policy[1..][j] == policy[j + 1];
      assert RaisesAt(policy[1..], who, q, i - 1);
    }
    if i: nat :| RaisesAt(policy[1..], who, q, i) && !(policy[0].effect.Deny? && Applies(policy[0], who, q)) {
      assert forall j | 0 < j <= i :: policy[j] == policy[1..][j - 1];
      assert RaisesAt(policy, who, q, i + 1);
    }
  }

  /** A statement with a NotAction decides nothing, wherever it stands. */
  lemma {:induction false} NotActionIgnored(front: seq<Statement>, s: Statement, rest: seq<Statement>, who: string,
                                            q: Request, granted: bool)
    requires s.notAction
    ensures Decision(front + [s] + rest, who, q, granted) == Decision(front + rest, who, q, granted)
  {
    if front == [] {
      assert [] + [s] + rest == [s] + rest && [] + rest == rest && ([s] + rest)[1..] == rest;
    } else {
      assert (front + [s] + rest)[1..] == front[1..] + [s] + rest && (front + rest)[1..] == front[1..] + rest;
      NotActionIgnored(front[1..], s, rest, who, q, granted);
      NotActionIgnored(front[1..], s, rest, who, q, true);
    }
  }

  /** A pattern stands for itself, and one that ends in a star for whatever begins with the text before it. */
  lemma CoversIff(pattern: string, value: string)
    ensures Covers(pattern, value) <==> pattern == value || exists head :: pattern == head + "*" && head <= value
  {
    if EndsWith(pattern, "*") {
      assert pattern == pattern[..|pattern| - 1] + "*";
    }
    forall head | pattern == head + "*" ensures EndsWith(pattern, "*") && pattern[..|pattern| - 1] == head {
    }
  }

  lemma OneMore(policy: seq<Statement>, who: string, q: Request)
    requires policy != []
    ensures Refused(policy, who, q) <==>
      (policy[0].effect.Deny? && Applies(policy[0], who, q)) || Refused(policy[1..], who, q)
    ensures Silent(policy, who, q) <==> !Applies(policy[0], who, q) && Silent(policy[1..], who, q)
    ensures forall s :: s in policy <==> s == policy[0] || s in policy[1..]
  {
    assert policy == [policy[0]] + policy[1..];
    assert forall s :: s in policy <==> s == policy[0] || s in policy[1..];
  }

  /** The statement names everyone no pattern singles out. */
  predicate NamesEveryone(s: Statement) {
    if s.notPrincipals.Some? then "*" !in s.notPrincipals.value
    else s.principals.Some? && "*" in s.principals.value
  }

  /** Some Deny that names everyone withholds the request. */
  predicate Universal(policy: seq<Statement>, q: Request) {
    exists s | s in policy :: s.effect.Deny? && Concerns(s, q) && NamesEveryone(s)
  }

  predicate OnlyByStar(names: Option<seq<string>>, who: string) {
    names.Some? ==> forall p | p in names.value && Covers(p, who) :: p == "*"
  }

  /** No statement mentions the principal but by a bare star. */
  predicate Unmentioned(policy: seq<Statement>, who: string) {
    forall s | s in policy :: OnlyByStar(s.principals, who) && OnlyByStar(s.notPrincipals, who)
  }

  lemma StrangerNamed(s: Statement, who: string)
    requires OnlyByStar(s.principals, who) && OnlyByStar(s.notPrincipals, who)
    ensures Names(s, who) <==> NamesEveryone(s)
  {
    StarCovers(who);
  }

  /** A principal the policy does not mention is refused a request on one resource exactly when a Deny that
      names everyone reaches that very resource; in an accepted policy nothing at all is said otherwise. */
  lemma UnmentionedRefusedIff(f: Fence, policy: seq<Statement>, who: string, q: Request)
    requires Unmentioned(policy, who)
    ensures Refused(policy, who, q) <==> Universal(policy, q)
    ensures Accepted(f, policy) ==> (Silent(policy, who, q) <==> !Universal(policy, q))
  {
    forall s | s in policy ensures Names(s, who) <==> NamesEveryone(s) {
      StrangerNamed(s, who);
    }
    if Accepted(f, policy) {
      forall s | s in policy ensures s.effect.Deny? || !NamesEveryone(s) {
        assert GoodStatement(f, policy, s);
      }
    }
  }

  /** Every Deny that names everyone and withholds the request spares the principal. */
  predicate SparedByAll(policy: seq<Statement>, who: string, q: Request) {
    forall s | s in policy && s.effect.Deny? && Concerns(s, q) && NamesEveryone(s) :: !Names(s, who)
  }

  /** Some statement that does not name everyone speaks of the request. */
  predicate SaidOf(policy: seq<Statement>, who: string, q: Request) {
    exists s | s in policy :: Applies(s, who, q) && !NamesEveryone(s)
  }

  ghost predicate NobodySilent(f: Fence, policy: seq<Statement>, q: Request) {
    forall who | who != f.operator :: !Silent(policy, who, q)
  }

  lemma SpokenOfIff(f: Fence, policy: seq<Statement>, who: string, q: Request)
    requires Accepted(f, policy)
    ensures !Silent(policy, who, q) <==> !SparedByAll(policy, who, q) || SaidOf(policy, who, q)
  {
    forall s | s in policy ensures s.effect.Deny? || !NamesEveryone(s) {
      assert GoodStatement(f, policy, s);
    }
  }

  /** Names that are no patterns, but for a Principal's bare star. */
  predicate PlainNames(s: Statement) {
    && (s.principals.Some? ==> forall p | p in s.principals.value :: p == "*" || !EndsWith(p, "*"))
    && (s.notPrincipals.Some? ==> forall p | p in s.notPrincipals.value :: !EndsWith(p, "*"))
  }

  function NamesOf(s: Statement): seq<string> {
    (if s.principals.Some? then s.principals.value else [])
    + (if s.notPrincipals.Some? then s.notPrincipals.value else [])
  }

  function AllNames(policy: seq<Statement>): seq<string> {
    if policy == [] then [] else NamesOf(policy[0]) + AllNames(policy[1..])
  }

  function Longest(names: seq<string>): (n: nat)
    ensures forall name | name in names :: |name| <= n
  {
    if names == [] then 0
    else
      assert names == [names[0]] + names[1..];
      var rest := Longest(names[1..]);
      if |names[0]| > rest then |names[0]| else rest
  }

  lemma {:induction false} NamesCollected(policy: seq<Statement>, s: Statement, name: string)
    requires s in policy && name in NamesOf(s)
    ensures name in AllNames(policy)
  {
    if s != policy[0] {
      NamesCollected(policy[1..], s, name);
    }
  }

  lemma LongerIsNotCovered(name: string, who: string)
    requires |name| < |who| && (name == "*" || !EndsWith(name, "*"))
    ensures Covers(name, who) ==> name == "*"
  {
  }

  /** Where names are plain there is always a principal the policy does not mention. */
  lemma Stranger(f: Fence, policy: seq<Statement>) returns (who: string)
    requires forall s | s in policy :: PlainNames(s)
    ensures who != f.operator && Unmentioned(policy, who)
  {
    who := seq(Longest([f.operator] + AllNames(policy)) + 1, _ => 'x');
    assert f.operator in [f.operator] + AllNames(policy);
    forall s, name | s in policy && name in NamesOf(s) ensures Covers(name, who) ==> name == "*" {
      NamesCollected(policy, s, name);
      assert name in [f.operator] + AllNames(policy);
      LongerIsNotCovered(name, who);
    }
    forall s | s in policy ensures OnlyByStar(s.principals, who) && OnlyByStar(s.notPrincipals, who) {
      assert forall p :: p in NamesOf(s) <==>
        (s.principals.Some? && p in s.principals.value) || (s.notPrincipals.Some? && p in s.notPrincipals.value);
    }
  }

  /** In an accepted policy, where names are plain, nobody but the operator makes a request silently exactly when
      some Deny that names everyone reaches the very resource, and each of the names in the policy that all of
      those spare has it said of it there. */
  lemma NobodySilentIff(f: Fence, policy: seq<Statement>, q: Request)
    requires Accepted(f, policy) && forall s | s in policy :: PlainNames(s)
    ensures NobodySilent(f, policy, q) <==>
      && Universal(policy, q)
      && forall who | who in AllNames(policy) && who != f.operator && SparedByAll(policy, who, q) ::
           SaidOf(policy, who, q)
  {
    forall who ensures !Silent(policy, who, q) <==> !SparedByAll(policy, who, q) || SaidOf(policy, who, q) {
      SpokenOfIff(f, policy, who, q);
    }
    var stranger := Stranger(f, policy);
    UnmentionedRefusedIff(f, policy, stranger, q);
    if Universal(policy, q) {
      forall who | who !in AllNames(policy) ensures !Silent(policy, who, q) {
        UnnamedIsRefused(policy, who, q);
      }
    }
  }

  /** A Deny that names everyone spares only those it names. */
  lemma UnnamedIsRefused(policy: seq<Statement>, who: string, q: Request)
    requires Universal(policy, q) && who !in AllNames(policy) && forall s | s in policy :: PlainNames(s)
    ensures Refused(policy, who, q)
  {
    var s :| s in policy && s.effect.Deny? && Concerns(s, q) && NamesEveryone(s);
    if s.notPrincipals.Some? {
      forall p | p in s.notPrincipals.value ensures !Covers(p, who) {
        assert p in NamesOf(s) && PlainNames(s);
        NamesCollected(policy, s, p);
      }
    } else {
      StarCovers(who);
    }
    assert Names(s, who);
  }

  lemma StarCovers(action: string)
    ensures Covers("*", action)
  {
    assert "*"[..0] == "";
  }

  lemma StarMatches(patterns: seq<string>, value: string)
    requires "*" in patterns
    ensures Matches(patterns, value)
  {
    StarCovers(value);
  }

  // ---- the check's classes and the engine's resources ------------------------

  /** A bucket's name ends in no star. */
  predicate Literal(f: Fence) { !EndsWith(f.arn, "*") }

  lemma ObjectPattern(f: Fence, p: string, resource: string)
    requires Literal(f) && (p == f.arn || IsObject(f, p))
    ensures Covers(p, f.arn) <==> p == f.arn
    ensures IsObject(f, resource) && Covers(p, resource) ==> IsObject(f, p)
  {
    if IsObject(f, p) && EndsWith(p, "*") {
      assert p[..|p| - 1] <= f.arn ==> |p| - 1 <= |f.arn|;
      assert p[|f.arn|] == '/';
    }
    assert |f.arn + "/"| == |f.arn| + 1;
  }

  /** The check's classes are the coarser: a statement is on the bucket exactly when it reaches the bucket, and
      on the objects exactly when it reaches some object. */
  lemma OnIff(f: Fence, s: Statement)
    requires Literal(f) && GoodResources(f, s)
    ensures On(f, s, Bucket) <==> Matches(s.resources, f.arn)
    ensures On(f, s, Objects) <==> exists r :: IsObject(f, r) && Matches(s.resources, r)
  {
    forall p, r | p in s.resources
      ensures Covers(p, f.arn) <==> p == f.arn
      ensures IsObject(f, r) && Covers(p, r) ==> IsObject(f, p)
    {
      ObjectPattern(f, p, r);
    }
    if r :| r in s.resources && IsObject(f, r) {
      assert Covers(r, r) && Matches(s.resources, r);
    }
  }

  /** Some Deny withholds the action on that resource from whomever it names. */
  predicate DeniesAt(policy: seq<Statement>, action: string, resource: string) {
    exists s | s in policy :: s.effect.Deny? && Concerns(s, Request(action, resource))
  }

  ghost predicate DeniesSomeObject(f: Fence, policy: seq<Statement>, action: string) {
    exists resource :: IsObject(f, resource) && DeniesAt(policy, action, resource)
  }

  lemma ConcernsIff(s: Statement, action: string, resource: string)
    requires !s.notAction
    ensures Concerns(s, Request(action, resource)) <==> Matches(s.resources, resource) && AnyCovers(Patterns(s), action)
  {
    if Matches(s.actions, action) {
      var p :| p in s.actions && Covers(p, action);
      assert p in Patterns(s);
    }
  }

  lemma WithheldAtIff(f: Fence, policy: seq<Statement>, action: string)
    requires Literal(f) && forall s | s in policy :: GoodResources(f, s)
    ensures Withheld(f, policy, Bucket, action) <==> DeniesAt(policy, action, f.arn)
    ensures Withheld(f, policy, Objects, action) <==> DeniesSomeObject(f, policy, action)
  {
    forall s | s in policy
      ensures On(f, s, Bucket) <==> Matches(s.resources, f.arn)
      ensures On(f, s, Objects) <==> exists r :: IsObject(f, r) && Matches(s.resources, r)
    {
      OnIff(f, s);
    }
    forall s, r | s in policy
      ensures Concerns(s, Request(action, r)) <==> Matches(s.resources, r) && AnyCovers(Patterns(s), action)
    {
      ConcernsIff(s, action, r);
    }
    if Withheld(f, policy, Objects, action) {
      var s :| s in policy && s.effect.Deny? && On(f, s, Objects) && AnyCovers(Patterns(s), action);
      var r :| IsObject(f, r) && Matches(s.resources, r);
      assert Concerns(s, Request(action, r)) && DeniesAt(policy, action, r);
    }
    if DeniesSomeObject(f, policy, action) {
      var r :| IsObject(f, r) && DeniesAt(policy, action, r);
      var s :| s in policy && s.effect.Deny? && Concerns(s, Request(action, r));
      assert On(f, s, Objects);
    }
  }

  /** The rules for single statements. */
  predicate EachGood(f: Fence, policy: seq<Statement>) { forall s | s in policy :: GoodStatement(f, policy, s) }

  /* The check in plain terms: what it asks of each statement, and of the policy. */

  predicate ReachesObjects(arn: string, s: Statement) { exists r | r in s.resources :: arn + "/" <= r }

  /** The statement says something of that principal: an Allow by name, a Deny by name, to all, or to all but some. */
  predicate SpeaksOf(t: Statement, who: string) {
    match t.effect
    case Allow => t.principals.Some? && who in t.principals.value
    case Deny =>
      !t.notAction
      && (match t.principals
          case Some(named) => who in named || "*" in named
          case None => t.notPrincipals.Some? && who !in t.notPrincipals.value)
    case NoEffect => false
  }

  /** Another statement of the policy, on the bucket or on some object as `s` is, speaks of that principal and
      covers the action. */
  predicate AccountedBy(arn: string, s: Statement, t: Statement, who: string, action: string) {
    && SpeaksOf(t, who) && (exists p | p in t.actions :: Covers(p, action))
    && ((arn in s.resources && arn in t.resources) || (ReachesObjects(arn, s) && ReachesObjects(arn, t)))
  }

  predicate GuardedAction(arn: string, s: Statement, action: string) {
    || (arn in s.resources && action in CRITICAL_BUCKET_ACTIONS)
    || (ReachesObjects(arn, s) && action in CRITICAL_OBJECT_ACTIONS)
  }

  /** What each statement must be. */
  ghost predicate Passes(arn: string, operator: string, policy: seq<Statement>, s: Statement) {
    && !s.notAction && s.resources != [] && (forall r | r in s.resources :: r == arn || arn + "/" <= r)
    && match s.effect
       case Allow => s.notPrincipals.None? && !(s.principals.Some? && "*" in s.principals.value)
       case Deny =>
         && (arn in s.resources ==>
               match s.notPrincipals
               case Some(spared) => operator in spared
               case None => s.principals.Some? && operator !in s.principals.value && "*" !in s.principals.value)
         && (s.notPrincipals.Some? ==>
               forall who, action |
                 who in s.notPrincipals.value && who != operator && GuardedAction(arn, s, action)
                 :: exists t | t in policy :: AccountedBy(arn, s, t, who, action))
       case NoEffect => false
  }

  lemma SpelledBy(f: Fence, policy: seq<Statement>, s: Statement, who: string, action: string)
    ensures Spelled(f, policy, s, who, action) <==> exists t | t in policy :: AccountedBy(f.arn, s, t, who, action)
  {
    forall t: Statement ensures (exists p | p in t.actions :: Covers(p, action)) <==> AnyCovers(Patterns(t), action) {
      if p :| p in t.actions && Covers(p, action) {
        assert p in Patterns(t);
      }
    }
    forall t: Statement, k: Class
      ensures Grants(f, t, who, k) || Denies(f, t, who, k) <==> SpeaksOf(t, who) && On(f, t, k)
    {
      ReachIff(f, t);
    }
    forall t: Statement { ReachIff(f, t); }
    if t :| t in policy && AccountedBy(f.arn, s, t, who, action) {
      var k := if f.arn in s.resources && f.arn in t.resources then Bucket else Objects;
      assert On(f, s, k) && SpelledOn(f, policy, who, k, action);
    }
    if Spelled(f, policy, s, who, action) {
      var k: Class :| On(f, s, k) && SpelledOn(f, policy, who, k, action);
      var t :| t in policy && AnyCovers(Patterns(t), action) && (Grants(f, t, who, k) || Denies(f, t, who, k));
      assert AccountedBy(f.arn, s, t, who, action);
    }
  }

  lemma ReachIff(f: Fence, s: Statement)
    ensures On(f, s, Bucket) <==> f.arn in s.resources
    ensures On(f, s, Objects) <==> ReachesObjects(f.arn, s)
  {
    if r :| r in s.resources && f.arn + "/" <= r {
      assert IsObject(f, r);
    }
    if r :| r in s.resources && IsObject(f, r) {
      assert f.arn + "/" <= r;
    }
  }

  lemma PassesIff(bucket: string, operator: string, policy: seq<Statement>, s: Statement)
    ensures GoodStatement(FenceFor(bucket, operator), policy, s)
      <==> Passes("arn:aws:s3:::" + bucket, operator, policy, s)
  {
    var f := FenceFor(bucket, operator);
    ReachIff(f, s);
    ReachesIff(f, s);
    if s.notPrincipals.Some? {
      ExemptionsPassIff(f, policy, s);
    }
  }

  lemma ReachesIff(f: Fence, s: Statement)
    ensures GoodResources(f, s)
      <==> !s.notAction && s.resources != [] && forall r | r in s.resources :: r == f.arn || f.arn + "/" <= r
  {
    forall r ensures IsObject(f, r) <==> f.arn + "/" <= r {
    }
  }

  lemma ExemptionsPassIff(f: Fence, policy: seq<Statement>, s: Statement)
    requires s.notPrincipals.Some?
    requires f.bucketActions == CRITICAL_BUCKET_ACTIONS && f.objectActions == CRITICAL_OBJECT_ACTIONS
    ensures GoodExemptions(f, policy, s) <==>
      forall who, action | who in s.notPrincipals.value && who != f.operator && GuardedAction(f.arn, s, action)
        :: exists t | t in policy :: AccountedBy(f.arn, s, t, who, action)
  {
    ExemptionsSpelledIff(f, policy, s);
    forall action { GuardedIff(f, s, action); }
    if GoodExemptions(f, policy, s) {
      forall who, action | who in s.notPrincipals.value && who != f.operator && GuardedAction(f.arn, s, action)
        ensures exists t | t in policy :: AccountedBy(f.arn, s, t, who, action)
      {
        var k :| On(f, s, k) && action in Critical(f, k);
        SpelledBy(f, policy, s, who, action);
      }
    } else {
      var who, k, action :| who in s.notPrincipals.value && who != f.operator && On(f, s, k)
        && action in Critical(f, k) && !Spelled(f, policy, s, who, action);
      SpelledBy(f, policy, s, who, action);
      assert GuardedAction(f.arn, s, action);
    }
  }

  /** The check accepts a policy exactly when each statement passes, and the engine finds some Deny for each of
      the seven actions that could undo the fence on the bucket, and for each way to use an object some Deny on
      some object. */
  lemma AcceptedIff(bucket: string, operator: string, policy: seq<Statement>)
    requires bucket != "" && bucket[|bucket| - 1] != '*'
    ensures var f, arn := FenceFor(bucket, operator), "arn:aws:s3:::" + bucket;
      Accepted(f, policy) <==>
        && (forall s | s in policy :: Passes(arn, operator, policy, s))
        && DeniesAt(policy, "s3:GetBucketPolicy", arn)
        && DeniesAt(policy, "s3:PutBucketPolicy", arn)
        && DeniesAt(policy, "s3:DeleteBucketPolicy", arn)
        && DeniesAt(policy, "s3:PutBucketAcl", arn)
        && DeniesAt(policy, "s3:PutLifecycleConfiguration", arn)
        && DeniesAt(policy, "s3:PutBucketVersioning", arn)
        && DeniesAt(policy, "s3:DeleteBucket", arn)
        && DeniesSomeObject(f, policy, "s3:GetObject")
        && DeniesSomeObject(f, policy, "s3:PutObject")
        && DeniesSomeObject(f, policy, "s3:DeleteObject")
  {
    var f := FenceFor(bucket, operator);
    EachPassesIff(bucket, operator, policy);
    if EachGood(f, policy) {
      LiteralFence("arn:aws:s3:::", bucket);
      FencesIff(f, policy);
      EachOfSeven(policy, f.arn, CRITICAL_BUCKET_ACTIONS);
      EachOfThree(f, policy, CRITICAL_OBJECT_ACTIONS);
    }
  }

  lemma EachPassesIff(bucket: string, operator: string, policy: seq<Statement>)
    ensures EachGood(FenceFor(bucket, operator), policy)
      <==> forall s | s in policy :: Passes("arn:aws:s3:::" + bucket, operator, policy, s)
  {
    forall s { PassesIff(bucket, operator, policy, s); }
  }

  lemma GuardedIff(f: Fence, s: Statement, action: string)
    requires f.bucketActions == CRITICAL_BUCKET_ACTIONS && f.objectActions == CRITICAL_OBJECT_ACTIONS
    ensures GuardedAction(f.arn, s, action) <==> exists k :: On(f, s, k) && action in Critical(f, k)
  {
    ReachIff(f, s);
    if k :| On(f, s, k) && action in Critical(f, k) {
      assert k == Bucket || k == Objects;
    }
    if GuardedAction(f.arn, s, action) {
      var k := if f.arn in s.resources && action in CRITICAL_BUCKET_ACTIONS then Bucket else Objects;
      assert On(f, s, k) && action in Critical(f, k);
    }
  }

  lemma LiteralFence(head: string, bucket: string)
    requires bucket != "" && bucket[|bucket| - 1] != '*'
    ensures !EndsWith(head + bucket, "*")
  {
    LastOf(head + bucket);
  }

  lemma EachOfSeven(policy: seq<Statement>, arn: string, all: seq<string>)
    requires |all| == 7
    ensures (forall a | a in all :: DeniesAt(policy, a, arn)) <==>
      && DeniesAt(policy, all[0], arn) && DeniesAt(policy, all[1], arn) && DeniesAt(policy, all[2], arn)
      && DeniesAt(policy, all[3], arn) && DeniesAt(policy, all[4], arn) && DeniesAt(policy, all[5], arn)
      && DeniesAt(policy, all[6], arn)
  {
    assert all[0] in all && all[1] in all && all[2] in all && all[3] in all;
    assert all[4] in all && all[5] in all && all[6] in all;
  }

  lemma EachOfThree(f: Fence, policy: seq<Statement>, all: seq<string>)
    requires |all| == 3
    ensures (forall a | a in all :: DeniesSomeObject(f, policy, a)) <==>
      DeniesSomeObject(f, policy, all[0]) && DeniesSomeObject(f, policy, all[1]) && DeniesSomeObject(f, policy, all[2])
  {
    assert all[0] in all && all[1] in all && all[2] in all;
  }

  lemma FencesIff(f: Fence, policy: seq<Statement>)
    requires Literal(f) && EachGood(f, policy) && f.bucketActions != [] && f.objectActions != []
    ensures Accepted(f, policy) <==>
      && (forall a | a in f.bucketActions :: DeniesAt(policy, a, f.arn))
      && (forall a | a in f.objectActions :: DeniesSomeObject(f, policy, a))
  {
    forall s | s in policy ensures GoodResources(f, s) {
      assert GoodStatement(f, policy, s);
    }
    FencesClassIff(f, policy, Bucket);
    FencesClassIff(f, policy, Objects);
    forall a { WithheldAtIff(f, policy, a); }
  }

  lemma FencesClassIff(f: Fence, policy: seq<Statement>, k: Class)
    requires Critical(f, k) != []
    ensures FencesClass(f, policy, k) <==> forall a | a in Critical(f, k) :: Withheld(f, policy, k, a)
  {
    var a := Critical(f, k)[0];
    if Withheld(f, policy, k, a) {
      var s :| s in policy && s.effect.Deny? && On(f, s, k) && AnyCovers(Patterns(s), a);
      assert DeniesOn(f, policy, k);
    }
  }

  /** An accepted policy refuses the operator a request on the bucket exactly when a Deny that withholds it
      names them in a Principal by a pattern: the check compares names, the engine matches them. */
  lemma OperatorRefusedIff(f: Fence, policy: seq<Statement>, action: string)
    requires Literal(f) && Accepted(f, policy)
    ensures Refused(policy, f.operator, Request(action, f.arn)) <==>
      exists s, p
        | s in policy && s.effect.Deny? && s.notPrincipals.None? && s.principals.Some? && p in s.principals.value
        :: Concerns(s, Request(action, f.arn)) && p != f.operator && p != "*" && Covers(p, f.operator)
  {
    var q := Request(action, f.arn);
    if s :| s in policy && s.effect.Deny? && Applies(s, f.operator, q) {
      assert GoodStatement(f, policy, s);
      OnIff(f, s);
      assert Covers(f.operator, f.operator) && SparesOperator(f, s);
      var p :| p in s.principals.value && Covers(p, f.operator);
    }
  }

  /** The check and the engine read the statement alike at one object: one way of naming, no patterns among the
      names, and if it reaches any object it reaches this one. */
  predicate Straight(f: Fence, s: Statement, resource: string) {
    NamesOneWay(s) && PlainNames(s) && (On(f, s, Objects) ==> Matches(s.resources, resource))
  }

  /** In every accepted policy of such statements that holds the Deny, each critical object action is spelled
      out for the principal at the object. */
  ghost predicate SaidAt(f: Fence, s: Statement, who: string, resource: string) {
    forall policy, action
      | Accepted(f, policy) && s in policy && (forall t | t in policy :: Straight(f, t, resource))
        && action in f.objectActions
      :: !Silent(policy, who, Request(action, resource))
  }

  /** That is so exactly when the Deny does not cover the bucket. */
  lemma SaidAtIff(f: Fence, policy: seq<Statement>, s: Statement, who: string, resource: string)
    requires Literal(f) && f.objectActions != [] && IsObject(f, resource)
    requires Accepted(f, policy) && s in policy && s.effect.Deny? && Straight(f, s, resource)
    requires Exempts(s, who) && who != f.operator && Matches(s.resources, resource)
    ensures SaidAt(f, s, who, resource) <==> !On(f, s, Bucket)
  {
    assert GoodStatement(f, policy, s);
    OnIff(f, s);
    if On(f, s, Bucket) {
      BucketOnlyUnsaid(f, policy, s, who, resource);
    } else {
      forall p, action
        | Accepted(f, p) && s in p && (forall t | t in p :: Straight(f, t, resource)) && action in f.objectActions
        ensures !Silent(p, who, Request(action, resource))
      {
        ExemptedOnObjects(f, p, s, who, action);
        StraightIsHeard(f, p, who, action, resource);
      }
    }
  }

  lemma BucketOnlyUnsaid(f: Fence, policy: seq<Statement>, s: Statement, who: string, resource: string)
    requires Literal(f) && f.objectActions != [] && IsObject(f, resource)
    requires Accepted(f, policy) && s in policy && s.effect.Deny? && Straight(f, s, resource) && Exempts(s, who)
    requires On(f, s, Bucket) && On(f, s, Objects)
    ensures !SaidAt(f, s, who, resource)
  {
    assert GoodStatement(f, policy, s) && f.operator in s.notPrincipals.value && EndsWith("*", "*");
    BucketOnlyAccepted(f, policy, s);
    BucketOnlyIsSilent(f, s, who, resource);
    assert f.objectActions[0] in f.objectActions && s in BucketOnly(f, s);
  }

  lemma ExemptedOnObjects(f: Fence, policy: seq<Statement>, s: Statement, who: string, action: string)
    requires Accepted(f, policy) && s in policy && s.effect.Deny? && Exempts(s, who) && who != f.operator
    requires On(f, s, Objects) && !On(f, s, Bucket) && action in f.objectActions
    ensures SpelledOn(f, policy, who, Objects, action)
  {
    assert GoodStatement(f, policy, s);
    ExemptionsSpelledIff(f, policy, s);
    assert action in Critical(f, Objects) && Spelled(f, policy, s, who, action);
  }

  lemma StraightIsHeard(f: Fence, policy: seq<Statement>, who: string, action: string, resource: string)
    requires Accepted(f, policy) && forall t | t in policy :: Straight(f, t, resource)
    requires SpelledOn(f, policy, who, Objects, action)
    ensures !Silent(policy, who, Request(action, resource))
  {
    var t :| t in policy && AnyCovers(Patterns(t), action)
      && (Grants(f, t, who, Objects) || Denies(f, t, who, Objects));
    assert GoodStatement(f, policy, t) && Straight(f, t, resource);
    var p :| p in Patterns(t) && Covers(p, action);
    assert p in t.actions && Concerns(t, Request(action, resource));
    StarCovers(who);
    assert Covers(who, who);
  }

  lemma BucketOnlyIsSilent(f: Fence, s: Statement, who: string, resource: string)
    requires Literal(f) && IsObject(f, resource) && Straight(f, s, resource) && Exempts(s, who)
    ensures forall action :: Silent(BucketOnly(f, s), who, Request(action, resource))
    ensures forall t | t in BucketOnly(f, s) :: Straight(f, t, resource)
  {
    BucketIsNoObject(f);
    ObjectPattern(f, f.arn, resource);
    assert Covers(who, who) && !Names(s, who) && !Names(s.(actions := ["*"]), who);
    assert !Matches([f.arn], resource);
  }

  /** An accepted policy with the same Deny, where nothing but one other object is said of anyone. */
  function Elsewhere(f: Fence, s: Statement, resource: string): seq<Statement> {
    [s, Statement(Deny, false, [resource + "x"], ["*"], Some(["*"]), None), DenyBucket(f)]
  }

  function DenyBucket(f: Fence): Statement { Statement(Deny, false, [f.arn], ["*"], None, Some([f.operator])) }

  /** Where statements may reach only part of the objects, acceptance never ensures it: for every accepted Deny
      and every object it reaches there is an accepted policy with that Deny in which whoever it exempts reaches
      that object silently. */
  lemma AcceptedButSilent(f: Fence, policy: seq<Statement>, s: Statement, who: string, resource: string)
    requires Literal(f) && IsObject(f, resource)
    requires Accepted(f, policy) && s in policy && s.effect.Deny?
    requires s.notPrincipals.Some? && Matches(s.notPrincipals.value, who) && Matches(s.resources, resource)
    ensures Accepted(f, Elsewhere(f, s, resource)) && s in Elsewhere(f, s, resource)
    ensures forall action :: Silent(Elsewhere(f, s, resource), who, Request(action, resource))
  {
    var all := Elsewhere(f, s, resource);
    var t, b := all[1], all[2];
    assert GoodStatement(f, policy, s) && t in all && b in all && t.resources[0] == resource + "x";
    OnIff(f, s);
    DenyBucketIs(f, all, resource);
    assert IsObject(f, resource + "x") && t.actions[0] == "*" && "*" in t.principals.value;
    StarWithholds(f, all, t, Objects);
    StarExplainsAll(f, all, s, t);
    assert GoodDeny(f, all, s) && GoodDeny(f, all, t);
    assert !Covers(resource + "x", resource);
  }

  lemma DenyBucketIs(f: Fence, policy: seq<Statement>, resource: string)
    requires Literal(f) && IsObject(f, resource) && DenyBucket(f) in policy
    ensures GoodStatement(f, policy, DenyBucket(f)) && FencesClass(f, policy, Bucket)
    ensures !Matches(DenyBucket(f).resources, resource)
  {
    var b := DenyBucket(f);
    BucketIsNoObject(f);
    ObjectPattern(f, f.arn, resource);
    assert b.resources[0] == f.arn && b.actions[0] == "*" && b.notPrincipals.value[0] == f.operator;
    StarWithholds(f, policy, b, Bucket);
  }

  lemma StarExplainsAll(f: Fence, policy: seq<Statement>, s: Statement, t: Statement)
    requires t in policy && "*" in t.actions && On(f, s, Objects) && On(f, t, Objects)
    requires t.effect.Deny? && !t.notAction && t.principals.Some? && "*" in t.principals.value
    ensures GoodExemptions(f, policy, s)
  {
    forall who ensures Accounted(f, policy, s, who) {
      assert Denies(f, t, who, Objects) && "*" in ExplainedOn(f, policy, s, who, Objects);
      forall action
        ensures AnyCovers(ExplainedOn(f, policy, s, who, Bucket) + ExplainedOn(f, policy, s, who, Objects), action)
      {
        StarCovers(action);
      }
    }
  }

  function DenyPart(f: Fence, part: string): Statement {
    Statement(Deny, false, [f.arn, f.arn + "/" + part + "*"], ["*"], None, Some([f.operator]))
  }

  /** A Deny on the bucket and on one part of its objects is accepted alone, and leaves every other object open
      to everyone, silently. */
  lemma PartialDenyLeavesObjects(f: Fence, part: string, key: string, who: string, action: string)
    requires Literal(f) && !StartsWith(key, part)
    ensures Accepted(f, [DenyPart(f, part)]) && Silent([DenyPart(f, part)], who, Request(action, f.arn + "/" + key))
  {
    var s, resource := DenyPart(f, part), f.arn + "/" + key;
    var p := f.arn + "/" + part + "*";
    assert s.resources[0] == f.arn && s.resources[1] == p;
    assert s.actions[0] == "*" && s.notPrincipals.value[0] == f.operator;
    assert IsObject(f, p) && IsObject(f, resource) && [s][0] == s;
    StarWithholds(f, [s], s, Bucket);
    StarWithholds(f, [s], s, Objects);
    ObjectPattern(f, f.arn, resource);
    BucketIsNoObject(f);
    OutsidePart(f.arn + "/", part, key);
  }

  lemma OutsidePart(head: string, part: string, key: string)
    requires !StartsWith(key, part)
    ensures !Covers(head + part + "*", head + key)
  {
    TailPrefix(head, part, key);
    TailPrefix(head, part + "*", key);
    assert head + part + "*" == head + (part + "*");
    assert (head + part + "*")[..|head + part|] == head + part;
    assert part <= part + "*";
  }

  lemma TailPrefix(head: string, a: string, b: string)
    ensures head + a <= head + b ==> a <= b
    ensures head + a == head + b ==> a == b
  {
    assert (head + b)[|head|..] == b && (head + a)[|head|..] == a;
    if head + a <= head + b {
      assert (head + b)[..|head| + |a|][|head|..] == a;
    }
  }

  function OneObject(f: Fence, who: string, one: string): seq<Statement> {
    [DenyBucket(f),
     Statement(Deny, false, [f.arn + "/*"], ["*"], None, Some([f.operator, who])),
     Statement(Allow, false, [f.arn + "/" + one], ["*"], Some([who]), None)]
  }

  /** A principal exempted on all the objects is accounted for by an Allow on one of them, and reaches the
      others silently, although each Deny keeps to one class. */
  lemma OneObjectAccountsForAll(f: Fence, who: string, one: string, key: string, action: string)
    requires Literal(f) && who != "*" && !EndsWith(one, "*") && key != one
    ensures Accepted(f, OneObject(f, who, one))
    ensures Silent(OneObject(f, who, one), who, Request(action, f.arn + "/" + key))
  {
    var all, resource := OneObject(f, who, one), f.arn + "/" + key;
    OneObjectAccepted(f, who, one);
    var d, a := all[1], all[2];
    assert IsObject(f, resource);
    DenyBucketIs(f, all, resource);
    BucketIsNoObject(f);
    assert d.notPrincipals.value[1] == who && a.resources[0] == f.arn + "/" + one;
    OneIsNotAnother(f.arn + "/", one, key);
    assert Covers(who, who) && !Names(d, who);
  }

  lemma OneObjectAccepted(f: Fence, who: string, one: string)
    requires Literal(f) && who != "*"
    ensures Accepted(f, OneObject(f, who, one))
  {
    var all := OneObject(f, who, one);
    var b, d, a := all[0], all[1], all[2];
    assert b in all && d in all && a in all;
    DenyBucketIs(f, all, f.arn + "/");
    BucketIsNoObject(f);
    assert f.arn + "/*" == (f.arn + "/") + "*";
    assert IsObject(f, d.resources[0]) && IsObject(f, a.resources[0]) && d.actions[0] == "*";
    assert d.notPrincipals.value[0] == f.operator && d.notPrincipals.value[1] == who;
    assert a.actions[0] == "*" && a.principals.value[0] == who;
    StarWithholds(f, all, d, Objects);
    assert Grants(f, a, who, Objects) && "*" in ExplainedOn(f, all, d, who, Objects);
    forall c ensures AnyCovers(ExplainedOn(f, all, d, who, Bucket) + ExplainedOn(f, all, d, who, Objects), c) {
      StarCovers(c);
    }
    assert GoodExemptions(f, all, d) && !On(f, d, Bucket);
  }

  lemma OneIsNotAnother(head: string, one: string, key: string)
    requires head != "" && head[|head| - 1] != '*' && !EndsWith(one, "*") && key != one
    ensures !Covers(head + one, head + key)
  {
    TailPrefix(head, one, key);
    LastOf(head + one);
    LastOf(one);
    LastOf(head);
    assert if one == "" then head + one == head else (head + one)[|head + one| - 1] == one[|one| - 1];
  }

  lemma LastOf(s: string)
    ensures EndsWith(s, "*") <==> s != "" && s[|s| - 1] == '*'
  {
  }

  /** Everything on the bucket and its objects. */
  function Whole(f: Fence): seq<string> { [f.arn, f.arn + "/*"] }

  lemma WholeReaches(f: Fence, s: Statement)
    requires s.resources == Whole(f) && !s.notAction
    ensures On(f, s, Bucket) && On(f, s, Objects) && GoodResources(f, s)
  {
    assert f.arn + "/*" == (f.arn + "/") + "*";
    assert IsObject(f, f.arn + "/*");
    assert s.resources[0] == f.arn && s.resources[1] == f.arn + "/*";
  }

  function DenyNaming(f: Fence, who: string): Statement {
    Statement(Deny, false, Whole(f), ["*"], Some([who]), None)
  }

  lemma StarWithholds(f: Fence, policy: seq<Statement>, s: Statement, k: Class)
    requires s in policy && s.effect.Deny? && On(f, s, k) && "*" in s.actions
    ensures FencesClass(f, policy, k)
  {
    forall a | a in Critical(f, k) ensures Withheld(f, policy, k, a) {
      StarCovers(a);
      assert "*" in Patterns(s);
    }
  }

  /** So the fence can be a fence in name only: a Deny that names one principal is accepted, and says
      nothing of anyone else. */
  lemma NamingDenyLeavesOthers(f: Fence, named: string, who: string, q: Request)
    requires named != "*" && named != f.operator && !Covers(named, who)
    ensures Accepted(f, [DenyNaming(f, named)]) && Silent([DenyNaming(f, named)], who, q)
  {
    var s := DenyNaming(f, named);
    WholeReaches(f, s);
    assert s.actions[0] == "*" && [s][0] == s;
    StarWithholds(f, [s], s, Bucket);
    StarWithholds(f, [s], s, Objects);
  }

  /** And a pattern among the names it denies can take in the operator: the policy is accepted, and locks them out. */
  lemma PatternLocksOperatorOut(f: Fence, pattern: string, action: string)
    requires pattern != "*" && pattern != f.operator && Covers(pattern, f.operator)
    ensures Accepted(f, [DenyNaming(f, pattern)])
    ensures Refused([DenyNaming(f, pattern)], f.operator, Request(action, f.arn))
  {
    var s := DenyNaming(f, pattern);
    WholeReaches(f, s);
    assert s.actions[0] == "*" && s.principals.value[0] == pattern && s.resources[0] == f.arn && [s][0] == s;
    StarWithholds(f, [s], s, Bucket);
    StarWithholds(f, [s], s, Objects);
    StarMatches(s.actions, action);
    assert Covers(f.arn, f.arn);
  }

  function DenyExempting(f: Fence, who: string): Statement {
    Statement(Deny, false, Whole(f), ["*"], None, Some([f.operator, who]))
  }

  function AllowOnBucket(f: Fence, who: string): Statement {
    Statement(Allow, false, [f.arn], ["*"], Some([who]), None)
  }

  lemma BucketIsNoObject(f: Fence)
    ensures !IsObject(f, f.arn)
  {
    assert |f.arn + "/"| > |f.arn|;
  }

  /** The smallest such policy: one Deny on both classes, and an Allow on the bucket alone for the
      principal it exempts. No statement gives or refuses that principal any object. */
  lemma BucketAllowAccountsForObjects(f: Fence, who: string)
    requires who != "*"
    ensures var policy := [DenyExempting(f, who), AllowOnBucket(f, who)];
      && Accepted(f, policy) && (forall s | s in policy :: !Grants(f, s, who, Objects) && !Denies(f, s, who, Objects))
      && (Literal(f) ==>
            forall action, resource | IsObject(f, resource) :: Silent(policy, who, Request(action, resource)))
  {
    var d, a := DenyExempting(f, who), AllowOnBucket(f, who);
    var policy := [d, a];
    WholeReaches(f, d);
    BucketIsNoObject(f);
    assert d in policy && a in policy && d.actions[0] == "*" && a.actions[0] == "*";
    assert a.resources[0] == f.arn && a.principals.value[0] == who;
    StarWithholds(f, policy, d, Bucket);
    StarWithholds(f, policy, d, Objects);
    assert Grants(f, a, who, Bucket) && "*" in Allowed(f, policy, who, Bucket);
    forall action
      ensures AnyCovers(ExplainedOn(f, policy, d, who, Bucket) + ExplainedOn(f, policy, d, who, Objects), action)
    {
      StarCovers(action);
      assert "*" in ExplainedOn(f, policy, d, who, Bucket);
    }
    assert d.notPrincipals.value[0] == f.operator && d.notPrincipals.value[1] == who;
    assert GoodExemptions(f, policy, d);
    if Literal(f) {
      forall action, resource | IsObject(f, resource) ensures Silent(policy, who, Request(action, resource)) {
        ObjectPattern(f, f.arn, resource);
        assert Covers(who, who) && !Names(d, who) && !Matches([f.arn], resource);
      }
    }
  }

  /** The order of the statements never matters. */
  lemma OrderIsIrrelevant(f: Fence, a: seq<Statement>, b: seq<Statement>)
    requires multiset(a) == multiset(b)
    ensures Accepted(f, a) <==> Accepted(f, b)
  {
    assert forall s :: s in a <==> s in multiset(a);
    assert forall s :: s in b <==> s in multiset(b);
    SameMembersAgree(f, a, b);
    SameMembersAgree(f, b, a);
  }

  lemma SameMembersAgree(f: Fence, a: seq<Statement>, b: seq<Statement>)
    requires forall s :: s in a <==> s in b
    ensures Accepted(f, a) ==> Accepted(f, b)
  {
    forall who, k: Class
      ensures Allowed(f, a, who, k) == Allowed(f, b, who, k) && DeniedTo(f, a, who, k) == DeniedTo(f, b, who, k)
    {
    }
    forall s, who ensures Accounted(f, a, s, who) == Accounted(f, b, s, who) {
      assert forall k: Class :: ExplainedOn(f, a, s, who, k) == ExplainedOn(f, b, s, who, k);
    }
    forall s ensures GoodStatement(f, a, s) == GoodStatement(f, b, s) {
      assert GoodExemptions(f, a, s) == GoodExemptions(f, b, s);
    }
    forall k: Class ensures FencesClass(f, a, k) ==> FencesClass(f, b, k) {
      assert forall action :: Withheld(f, a, k, action) == Withheld(f, b, k, action);
    }
  }

  // ---- the check itself --------------------------------------------------------

  function At(m: map<string, set<string>>, who: string): set<string> { if who in m then m[who] else {} }

  lemma AllowedStep(f: Fence, policy: seq<Statement>, i: nat, who: string, k: Class)
    requires i < |policy|
    ensures Allowed(f, policy[..i + 1], who, k)
      == Allowed(f, policy[..i], who, k) + (if Grants(f, policy[i], who, k) then Patterns(policy[i]) else {})
    ensures DeniedTo(f, policy[..i + 1], who, k)
      == DeniedTo(f, policy[..i], who, k) + (if Denies(f, policy[i], who, k) then Patterns(policy[i]) else {})
  {
    assert policy[..i + 1] == policy[..i] + [policy[i]];
  }

  /** `setdefault(arn, set()).update(actions)` for every principal of one Allow. */
  method GrantEach(m: map<string, set<string>>, principals: seq<string>, actions: set<string>)
    returns (r: map<string, set<string>>)
    ensures forall who :: At(r, who) == At(m, who) + if who in principals then actions else {}
  {
    r := m;
    for j := 0 to |principals|
      invariant forall who :: At(r, who) == At(m, who) + if who in principals[..j] then actions else {}
    {
      assert principals[..j + 1] == principals[..j] + [principals[j]];
      r := r[principals[j] := At(r, principals[j]) + actions];
    }
    assert principals[..|principals|] == principals;
  }

  /** The first pass: what every Allow grants, on one class. */
  method CollectAllows(f: Fence, policy: seq<Statement>, k: Class) returns (m: map<string, set<string>>)
    ensures forall who :: At(m, who) == Allowed(f, policy, who, k)
  {
    m := map[];
    for i := 0 to |policy|
      invariant forall who :: At(m, who) == Allowed(f, policy[..i], who, k)
    {
      var s := policy[i];
      forall who { AllowedStep(f, policy, i, who, k); }
      if s.effect.Allow? && s.principals.Some? && On(f, s, k) {
        m := GrantEach(m, s.principals.value, Patterns(s));
      }
    }
    assert policy[..|policy|] == policy;
  }

  /** `_denied_to`. */
  method CollectDenied(f: Fence, policy: seq<Statement>, who: string, k: Class) returns (withheld: set<string>)
    ensures withheld == DeniedTo(f, policy, who, k)
  {
    withheld := {};
    for i := 0 to |policy|
      invariant withheld == DeniedTo(f, policy[..i], who, k)
    {
      AllowedStep(f, policy, i, who, k);
      if policy[i].effect.Deny? && !policy[i].notAction && On(f, policy[i], k) && AppliesTo(policy[i], who) {
        withheld := withheld + Patterns(policy[i]);
      }
    }
    assert policy[..|policy|] == policy;
  }

  /** The loop over a Deny's exemptions. */
  method CheckExemptions(f: Fence, policy: seq<Statement>, s: Statement,
                         onBucket: map<string, set<string>>, onObjects: map<string, set<string>>) returns (ok: bool)
    requires forall who :: At(onBucket, who) == Allowed(f, policy, who, Bucket)
    requires forall who :: At(onObjects, who) == Allowed(f, policy, who, Objects)
    requires s.notPrincipals.Some?
    ensures ok <==> GoodExemptions(f, policy, s)
  {
    var exempt := s.notPrincipals.value;
    for j := 0 to |exempt|
      invariant forall i | 0 <= i < j :: exempt[i] == f.operator || Accounted(f, policy, s, exempt[i])
    {
      var who := exempt[j];
      if who != f.operator {
        var granted := {};
        if On(f, s, Bucket) {
          var denied := CollectDenied(f, policy, who, Bucket);
          granted := granted + At(onBucket, who) + denied;
        }
        if On(f, s, Objects) {
          var denied := CollectDenied(f, policy, who, Objects);
          granted := granted + At(onObjects, who) + denied;
        }
        assert granted == ExplainedOn(f, policy, s, who, Bucket) + ExplainedOn(f, policy, s, who, Objects);
        if (On(f, s, Bucket) && exists a | a in f.bucketActions :: !AnyCovers(granted, a))
          || (On(f, s, Objects) && exists a | a in f.objectActions :: !AnyCovers(granted, a))
        {
          assert !Accounted(f, policy, s, who) && who in exempt;
          return false;
        }
      }
    }
    return true;
  }

  /** `_withheld`: the critical actions a Deny's patterns cover. */
  function Covered(patterns: set<string>, actions: seq<string>): set<string> {
    set a | a in actions && AnyCovers(patterns, a)
  }

  /** The critical actions withheld on one class by the statements seen so far. */
  function WithheldSet(f: Fence, policy: seq<Statement>, k: Class): set<string> {
    set a | a in Critical(f, k) && Withheld(f, policy, k, a)
  }

  lemma WithheldStep(f: Fence, policy: seq<Statement>, i: nat, k: Class)
    requires i < |policy|
    ensures var s := policy[i];
      && WithheldSet(f, policy[..i + 1], k)
           == WithheldSet(f, policy[..i], k)
              + (if s.effect.Deny? && On(f, s, k) then Covered(Patterns(s), Critical(f, k)) else {})
      && (DeniesOn(f, policy[..i + 1], k) <==> DeniesOn(f, policy[..i], k) || (s.effect.Deny? && On(f, s, k)))
  {
    var s, front, all := policy[i], policy[..i], policy[..i + 1];
    assert all == front + [s];
    forall a ensures Withheld(f, all, k, a)
      <==> Withheld(f, front, k, a) || (s.effect.Deny? && On(f, s, k) && AnyCovers(Patterns(s), a))
    {
      if Withheld(f, front, k, a) {
        var t :| t in front && t.effect.Deny? && On(f, t, k) && AnyCovers(Patterns(t), a);
        assert t in all;
      }
      assert s in all;
    }
    assert s in all;
    if DeniesOn(f, front, k) {
      var t :| t in front && t.effect.Deny? && On(f, t, k);
      assert t in all;
    }
  }

  /** `assert_policy_fences_this_bucket`: true when it raises nothing. */
  method CheckPolicy(f: Fence, policy: seq<Statement>) returns (ok: bool)
    ensures ok <==> Accepted(f, policy)
  {
    var onBucket := CollectAllows(f, policy, Bucket);
    var onObjects := CollectAllows(f, policy, Objects);
    var deniesBucket, deniesObjects := false, false;
    var bucketWithheld, objectsWithheld: set<string> := {}, {};
    for i := 0 to |policy|
      invariant forall j | 0 <= j < i :: GoodStatement(f, policy, policy[j])
      invariant deniesBucket <==> DeniesOn(f, policy[..i], Bucket)
      invariant deniesObjects <==> DeniesOn(f, policy[..i], Objects)
      invariant bucketWithheld == WithheldSet(f, policy[..i], Bucket)
      invariant objectsWithheld == WithheldSet(f, policy[..i], Objects)
    {
      var s := policy[i];
      assert s in policy;
      WithheldStep(f, policy, i, Bucket);
      WithheldStep(f, policy, i, Objects);
      if !GoodResources(f, s) || s.effect.NoEffect? {
        return false;
      }
      if s.effect.Allow? {
        if !GoodAllow(s) {
          return false;
        }
      } else {
        if s.notPrincipals.Some? {
          var good := CheckExemptions(f, policy, s, onBucket, onObjects);
          if !good {
            return false;
          }
        }
        if On(f, s, Bucket) {
          deniesBucket := true;
          bucketWithheld := bucketWithheld + Covered(Patterns(s), f.bucketActions);
          if !SparesOperator(f, s) {
            return false;
          }
        }
        if On(f, s, Objects) {
          deniesObjects := true;
          objectsWithheld := objectsWithheld + Covered(Patterns(s), f.objectActions);
        }
      }
    }
    assert policy[..|policy|] == policy;
    assert forall s | s in policy :: GoodStatement(f, policy, s);
    ok := deniesBucket && deniesObjects
      && (forall a | a in f.bucketActions :: a in bucketWithheld)
      && (forall a | a in f.objectActions :: a in objectsWithheld);
  }

  /** The check on the document itself, for one bucket and its operator. */
  method CheckDocument(document: seq<map<string, Json>>, bucket: string, operator: string) returns (ok: bool)
    ensures ok <==> Accepted(FenceFor(bucket, operator), ReadPolicy(document))
  {
    ok := CheckPolicy(FenceFor(bucket, operator), ReadPolicy(document));
  }
}
