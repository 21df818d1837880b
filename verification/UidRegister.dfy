/** The uid register two programs share, each run stopped by a crash anywhere:
    demo-host/provision/demo_uid_claims.py and app/provision/provision_tenant_volume.py. */
module UidRegister {
  import opened BinlogNames
  import opened Options
  import opened Strings
  import opened UidClaims

  /** The register directory, name to content, and the Docker volumes. */
  type Files = map<string, string>
  datatype World = World(files: Files, volumes: set<string>)

  const UID_MIN := 30000
  const UID_MAX := 30999

  predicate InRange(uid: int) { UID_MIN <= uid <= UID_MAX }

  /** A register entry as both readers take it: a claim whose slug is the file's own name. */
  function Reads(name: string, text: string): Option<int> { UidUnder(name, Parse(text)) }

  function UidUnder(name: string, c: Option<Claim>): Option<int> {
    if c.Some? && c.value.slug == name then Some(c.value.uid) else None
  }

  type Reader = (string, string) -> Option<int>

  predicate AllRead(files: Files, read: Reader) { forall n | n in files :: read(n, files[n]).Some? }

  function ReadAll(files: Files, read: Reader): map<string, int> {
    map n | n in files && read(n, files[n]).Some? :: read(n, files[n]).value
  }

  predicate Legible(files: Files) { AllRead(files, Reads) }

  /** The claims that can be read. */
  function Claims(files: Files): map<string, int> { ReadAll(files, Reads) }

  /** The register loop, over the names in any order. */
  method Collect(files: Files, names: seq<string>, read: Reader) returns (r: Option<map<string, int>>)
    requires forall n :: n in names <==> n in files
    ensures r == if AllRead(files, read) then Some(ReadAll(files, read)) else None
  {
    var claims: map<string, int> := map[];
    for i := 0 to |names|
      invariant forall j | 0 <= j < i :: read(names[j], files[names[j]]).Some?
      invariant forall n :: n in claims <==> n in names[..i]
      invariant forall n | n in claims :: read(n, files[n]) == Some(claims[n])
    {
      assert names[i] in names;
      var uid := read(names[i], files[names[i]]);
      if uid.None? {
        return None;
      }
      claims := claims[names[i] := uid.value];
    }
    assert names[..|names|] == names;
    assert claims == ReadAll(files, read);
    return Some(claims);
  }

  /** `read_register`: all the claims, or nothing if one cannot be read. */
  method ReadRegister(files: Files, names: seq<string>) returns (r: Option<map<string, int>>)
    requires forall n :: n in names <==> n in files
    ensures r == if Legible(files) then Some(Claims(files)) else None
  {
    r := Collect(files, names, Reads);
  }

  // ---- the demo host's claims ----------------------------------------------

  function TempName(slug: string): string { slug + ".tmp" }

  /** The slot table: distinct slugs at distinct uids. */
  predicate SlotTable(wanted: seq<Claim>) {
    && (forall c | c in wanted :: SlugWord(c.slug))
    && (forall i, j | 0 <= i < j < |wanted| :: wanted[i].slug != wanted[j].slug && wanted[i].uid != wanted[j].uid)
  }

  /** How far a run has got: it goes on with `left` effects before its crash, or it is down. */
  datatype Progress = Running(files: Files, left: nat) | Crashed(files: Files)

  function ClearStale(files: Files, wanted: seq<Claim>, left: nat): Progress
    decreases |wanted|
  {
    if wanted == [] then Running(files, left)
    else
      var tmp := TempName(wanted[0].slug);
      if tmp !in files then ClearStale(files, wanted[1..], left)
      else if left == 0 then Crashed(files)
      else ClearStale(files - {tmp}, wanted[1..], left - 1)
  }

  /** What a write stopped part of the way leaves. */
  function CutAt(text: string, cut: nat): string { if cut < |text| then text[..cut] else text }

  /** Create the temporary file, write it, rename it over the claim, one claim after another. A
      crash while writing leaves some part of the text. */
  function WriteClaims(files: Files, todo: seq<Claim>, left: nat, cut: nat): Progress
    decreases |todo|
  {
    if todo == [] then Running(files, left)
    else
      var tmp, text := TempName(todo[0].slug), Render(todo[0]);
      if left == 0 then Crashed(files)
      else if left == 1 then Crashed(files[tmp := CutAt(text, cut)])
      else if left == 2 then Crashed(files[tmp := text])
      else WriteClaims((files - {tmp})[todo[0].slug := text], todo[1..], left - 3, cut)
  }

  /** The demo run's refusals, one wanted claim at a time. A register the two programs wrote holds no
      uid of the range twice, so a wanted uid has at most one holder. */
  predicate Conflicts(c: Claim, claims: map<string, int>, taken: set<int>) {
    || (c.slug in claims && claims[c.slug] != c.uid)
    || (exists other | other in claims :: other != c.slug && claims[other] == c.uid)
    || (c.slug !in claims && c.uid in taken)
  }

  predicate AnyConflict(wanted: seq<Claim>, claims: map<string, int>, taken: set<int>) {
    exists c | c in wanted :: Conflicts(c, claims, taken)
  }

  predicate OutOfRange(wanted: seq<Claim>) { exists c | c in wanted :: !InRange(c.uid) }

  predicate DemoRefuses(files: Files, wanted: seq<Claim>, taken: set<int>) {
    !Legible(files) || AnyConflict(wanted, Claims(files), taken)
  }

  function Unclaimed(files: Files, wanted: seq<Claim>): seq<Claim> {
    if wanted == [] then []
    else (if wanted[0].slug in files then [] else [wanted[0]]) + Unclaimed(files, wanted[1..])
  }

  /** `record_demo_claims`, crashing after `left` effects. */
  function DemoRun(files: Files, wanted: seq<Claim>, taken: set<int>, left: nat, cut: nat): Progress {
    if OutOfRange(wanted) then Running(files, left)
    else
      var cleared := ClearStale(files, wanted, left);
      if cleared.Crashed? || DemoRefuses(cleared.files, wanted, taken) then cleared
      else WriteClaims(cleared.files, Unclaimed(cleared.files, wanted), cleared.left, cut)
  }

  const UID_BASE := 30001
  const ROUTER := Claim("demo-router", 30008)

  /** The demo host's own slot table. */
  function DemoSlots(): seq<Claim> { seq(7, i requires 0 <= i < 7 => SlotClaim(i)) + [ROUTER] }

  function SlotClaim(slot: nat): Claim { Claim("demo-" + ToDecimal(slot), UID_BASE + slot) }

  lemma SlotSlug(slot: nat, digits: string)
    requires digits == ToDecimal(slot)
    ensures SlugWord(SlotClaim(slot).slug) && SlotClaim(slot).slug[5..] == digits && SlotClaim(slot).slug != ROUTER.slug
  {
    var slug := SlotClaim(slot).slug;
    assert slug == "demo-" + digits && slug[5..] == digits;
    assert ROUTER.slug[5] == 'r';
  }

  /** It claims each uid once, all of them in the tenants' range. */
  lemma DemoSlotsAreATable()
    ensures SlotTable(DemoSlots()) && forall c | c in DemoSlots() :: InRange(c.uid)
  {
    forall i: nat, j: nat ensures SlugWord(SlotClaim(i).slug) && SlotClaim(i).slug != ROUTER.slug
      && (SlotClaim(i).slug == SlotClaim(j).slug ==> i == j)
    {
      SlotSlug(i, ToDecimal(i));
      SlotSlug(j, ToDecimal(j));
      DecimalRoundTrip(i);
      DecimalRoundTrip(j);
    }
    assert SlugWord("demo-router");
  }

  // ---- a tenant's volumes and claim ----------------------------------------

  function ContentVolume(slug: string): string { "ghost-" + slug + "-content" }

  predicate IsContentVolume(name: string) { StartsWith(name, "ghost-") && EndsWith(name, "-content") }

  function SlugOfVolume(name: string): string { if |name| >= 14 then name[6..|name| - 8] else "" }

  /** `validate_slug`. */
  predicate ValidSlug(slug: string, reserved: set<string>) {
    && 0 < |slug| <= 26 && 'a' <= slug[0] <= 'z' && slug[|slug| - 1] != '-' && SlugWord(slug) && slug !in reserved
  }

  /** A content volume whose uid the register cannot tell. */
  predicate Orphaned(w: World) {
    exists v | v in w.volumes :: IsContentVolume(v) && SlugOfVolume(v) !in Claims(w.files)
  }

  /** Some claim or some volume's uid cannot be told. */
  predicate Blocked(w: World) { !Legible(w.files) || Orphaned(w) }

  /** `assert_uid_available`: the uid is another tenant's, or the tenant holds another uid. */
  predicate Unavailable(c: Claim, claims: map<string, int>) {
    || (exists other | other in claims :: other != c.slug && claims[other] == c.uid)
    || (c.slug in claims && claims[c.slug] != c.uid)
  }

  predicate TenantRefuses(w: World, c: Claim, reserved: set<string>) {
    !ValidSlug(c.slug, reserved) || !InRange(c.uid) || Blocked(w) || Unavailable(c, Claims(w.files))
  }

  function VolumesOf(slug: string): seq<string> {
    [ContentVolume(slug), "ghost-" + slug + "-adapters", "ghost-" + slug + "-metrics"]
  }

  function CreateVolumes(volumes: set<string>, names: seq<string>, left: nat): (set<string>, int)
    decreases |names|
  {
    if names == [] then (volumes, left)
    else if names[0] in volumes then CreateVolumes(volumes, names[1..], left)
    else if left == 0 then (volumes, -1)
    else CreateVolumes(volumes + {names[0]}, names[1..], left - 1)
  }

  /** `provision_tenant_volumes` up to its claim, crashing after `left` effects: the claim is opened
      truncated and then written, so a crash in between leaves its text cut anywhere. */
  function TenantRun(w: World, c: Claim, reserved: set<string>, left: nat, cut: nat): World {
    if TenantRefuses(w, c, reserved) then w
    else
      var (volumes, after) := CreateVolumes(w.volumes, VolumesOf(c.slug), left);
      if after <= 0 then World(w.files, volumes)
      else World(w.files[c.slug := if after == 1 then CutAt(Render(c), cut) else Render(c)], volumes)
  }

  // ---- what is read of a torn claim ------------------------------------------

  function Tens(k: nat): nat { if k == 0 then 1 else 10 * Tens(k - 1) }

  lemma {:induction false} DecimalBelow(digits: string)
    requires AllDigits(digits)
    ensures FromDecimal(digits) < Tens(|digits|)
  {
    if digits != "" {
      DecimalBelow(digits[..|digits| - 1]);
    }
  }

  lemma {:induction false} DecimalWidth(n: nat, k: nat)
    requires n < Tens(k + 1) && (k > 0 ==> Tens(k) <= n)
    ensures |ToDecimal(n)| == k + 1
  {
    if k > 0 {
      assert Tens(k) == 10 * Tens(k - 1);
      DecimalWidth(n / 10, k - 1);
    }
  }

  /** Every uid of the range has five digits, and no four digits make one. */
  lemma FiveDigits(c: Claim, cut: nat)
    requires InRange(c.uid)
    ensures |Digits(c)| == 5 && Sign(c.uid) == ""
    ensures cut < 5 ==> FromDecimal(Digits(c)[..cut]) < UID_MIN
    ensures FromDecimal(Digits(c)) == c.uid
  {
    TensOf();
    DecimalWidth(c.uid, 4);
    DecimalRoundTrip(c.uid);
    if cut < 5 {
      DecimalBelow(Digits(c)[..cut]);
      TensGrow(cut, 4);
    }
  }

  lemma TensOf()
    ensures Tens(4) == 10000 && Tens(5) == 100000
  {
    assert Tens(2) == 100;
  }

  lemma {:induction false} TensGrow(j: nat, k: nat)
    requires j <= k
    ensures Tens(j) <= Tens(k)
    decreases k
  {
    if j < k {
      TensGrow(j, k - 1);
    }
  }

  lemma ClaimReads(c: Claim)
    requires SlugWord(c.slug)
    ensures Reads(c.slug, Render(c)) == Some(c.uid)
    ensures Reads(TempName(c.slug), Render(c)) == None
    ensures TempName(c.slug) != c.slug
  {
    ClaimRoundTrip(c);
    assert |TempName(c.slug)| == |c.slug| + 4;
  }

  /** The cut leaves some of the uid's digits but not all of them. */
  predicate InsideDigits(c: Claim, cut: nat) { UidAt(c) < cut < UidEnd(c) }

  /** A reader's answer for one claim of the range, cut short. */
  predicate CutAnswer(c: Claim, cut: nat, uid: Option<int>) {
    if cut <= UidAt(c) then uid == None
    else if InsideDigits(c, cut) then uid.Some? && !InRange(uid.value)
    else uid == Some(c.uid)
  }

  lemma CutReads(c: Claim, cut: nat)
    requires SlugWord(c.slug) && cut < |Render(c)|
    ensures Reads(TempName(c.slug), Render(c)[..cut]) == None
    ensures InRange(c.uid) ==> CutAnswer(c, cut, Reads(c.slug, Render(c)[..cut]))
  {
    TornClaimIff(c, cut);
    RenderSplits(c);
    TornAnswers(c, cut, Parse(Render(c)[..cut]));
  }

  lemma TornAnswers(c: Claim, cut: nat, parsed: Option<Claim>)
    requires cut <= UidEnd(c)
    requires parsed == if cut <= UidAt(c) then None
                       else Some(Claim(c.slug, WithSign(c.uid < 0, FromDecimal(Digits(c)[..cut - UidAt(c)]))))
    ensures UidUnder(TempName(c.slug), parsed) == None
    ensures InRange(c.uid) ==> CutAnswer(c, cut, UidUnder(c.slug, parsed))
  {
    assert |TempName(c.slug)| == |c.slug| + 4;
    if InRange(c.uid) && cut > UidAt(c) {
      FiveDigits(c, cut - UidAt(c));
      assert Digits(c)[..5] == Digits(c);
    }
  }

  predicate Injective(h: map<string, int>) { forall a, b | a in h && b in h && h[a] == h[b] :: a == b }

  predicate Extends(h: map<string, int>, more: map<string, int>) { forall n | n in h :: n in more && more[n] == h[n] }

  predicate Agrees(uid: Option<int>, held: int) { uid == None || uid == Some(held) }

  /** `h` holds every claim of the range ever made: distinct, each still on file, and what can be read
      there agrees with it. A claim torn when it was new may read as a number outside the range. */
  predicate Records(h: map<string, int>, files: Files, read: Reader) {
    && Injective(h)
    && (forall n | n in h :: n in files && SlugWord(n) && InRange(h[n]) && Agrees(read(n, files[n]), h[n]))
    && (forall n | n in files && read(n, files[n]).Some? && InRange(read(n, files[n]).value) :: n in h)
  }

  lemma LegibleIsAll(h: map<string, int>, files: Files, read: Reader)
    requires Records(h, files, read) && AllRead(files, read)
    ensures forall n | n in h :: n in files && ReadAll(files, read)[n] == h[n]
    ensures forall n | n in files && InRange(ReadAll(files, read)[n]) :: n in h
  {
  }

  /** A text that cannot be read, or one under a new name whose number is outside the range. */
  lemma FileUnread(h: map<string, int>, files: Files, read: Reader, name: string, text: string)
    requires Records(h, files, read)
    requires var uid := read(name, text); uid.None? || (name !in h && !InRange(uid.value))
    ensures Records(h, files[name := text], read)
  {
  }

  lemma FileGone(h: map<string, int>, files: Files, read: Reader, name: string)
    requires Records(h, files, read) && !SlugWord(name)
    ensures Records(h, files - {name}, read)
  {
  }

  lemma FileClaimed(h: map<string, int>, files: Files, read: Reader, name: string, text: string, uid: int)
    requires Records(h, files, read) && read(name, text) == Some(uid) && SlugWord(name) && InRange(uid)
    requires name in h ==> h[name] == uid
    requires forall other | other in h && h[other] == uid :: other == name
    ensures Records(h[name := uid], files[name := text], read) && Extends(h, h[name := uid])
  {
  }

  lemma TempIsNoSlug(slug: string)
    ensures !SlugWord(TempName(slug))
  {
    assert TempName(slug)[|slug|] == '.';
    assert '.' in TempName(slug);
  }

  /** What the registers' readers make of a claim, whole or cut short, under either of its names. */
  ghost predicate Honest(read: Reader) {
    forall c: Claim | SlugWord(c.slug) ::
      && read(c.slug, Render(c)) == Some(c.uid) && read(TempName(c.slug), Render(c)) == None
      && HonestCuts(c, read)
  }

  predicate HonestCuts(c: Claim, read: Reader) {
    forall cut | 0 <= cut < |Render(c)| ::
      && read(TempName(c.slug), Render(c)[..cut]) == None
      && (InRange(c.uid) ==> CutAnswer(c, cut, read(c.slug, Render(c)[..cut])))
  }

  lemma ReadsIsHonest()
    ensures Honest(Reads)
  {
    forall c: Claim | SlugWord(c.slug)
      ensures Reads(c.slug, Render(c)) == Some(c.uid) && Reads(TempName(c.slug), Render(c)) == None
      ensures HonestCuts(c, Reads)
    {
      ClaimReads(c);
      forall cut | 0 <= cut < |Render(c)|
        ensures Reads(TempName(c.slug), Render(c)[..cut]) == None
        ensures InRange(c.uid) ==> CutAnswer(c, cut, Reads(c.slug, Render(c)[..cut]))
      {
        CutReads(c, cut);
      }
    }
  }

  lemma {:induction false} ClearKeeps(h: map<string, int>, files: Files, wanted: seq<Claim>, left: nat, read: Reader)
    requires Records(h, files, read)
    ensures Records(h, ClearStale(files, wanted, left).files, read)
    decreases |wanted|
  {
    if wanted != [] {
      var tmp := TempName(wanted[0].slug);
      if tmp !in files {
        ClearKeeps(h, files, wanted[1..], left, read);
      } else if left > 0 {
        TempIsNoSlug(wanted[0].slug);
        FileGone(h, files, read, tmp);
        ClearKeeps(h, files - {tmp}, wanted[1..], left - 1, read);
      }
    }
  }

  predicate Free(c: Claim, h: map<string, int>) { c.slug !in h && forall other | other in h :: h[other] != c.uid }

  predicate AllFree(todo: seq<Claim>, h: map<string, int>) {
    SlotTable(todo) && forall c | c in todo :: Free(c, h) && InRange(c.uid)
  }

  lemma RestFree(todo: seq<Claim>, h: map<string, int>)
    requires AllFree(todo, h) && todo != []
    ensures SlugWord(todo[0].slug) && Free(todo[0], h) && InRange(todo[0].uid)
    ensures AllFree(todo[1..], h[todo[0].slug := todo[0].uid])
  {
    var c, rest := todo[0], todo[1..];
    assert todo == [c] + rest;
    forall i | 0 <= i < |rest|
      ensures rest[i] == todo[i + 1] && Free(rest[i], h[c.slug := c.uid]) && SlugWord(rest[i].slug)
      ensures InRange(rest[i].uid)
    {
      assert rest[i] in todo;
    }
    assert c in todo;
  }

  lemma OneWritten(h: map<string, int>, files: Files, c: Claim, read: Reader)
    requires Honest(read) && Records(h, files, read) && SlugWord(c.slug) && Free(c, h) && InRange(c.uid)
    ensures Records(h[c.slug := c.uid], (files - {TempName(c.slug)})[c.slug := Render(c)], read)
    ensures Extends(h, h[c.slug := c.uid])
  {
    TempIsNoSlug(c.slug);
    FileGone(h, files, read, TempName(c.slug));
    FileClaimed(h, files - {TempName(c.slug)}, read, c.slug, Render(c), c.uid);
  }

  lemma OneHalfWritten(h: map<string, int>, files: Files, c: Claim, cut: nat, read: Reader)
    requires Honest(read) && Records(h, files, read) && SlugWord(c.slug)
    ensures Records(h, files[TempName(c.slug) := CutAt(Render(c), cut)], read)
  {
    assert HonestCuts(c, read);
    FileUnread(h, files, read, TempName(c.slug), CutAt(Render(c), cut));
  }

  lemma {:induction false} WriteKeeps(h: map<string, int>, files: Files, todo: seq<Claim>, left: nat, cut: nat,
                                      read: Reader)
    returns (more: map<string, int>)
    requires Honest(read) && Records(h, files, read) && AllFree(todo, h)
    ensures Extends(h, more) && Records(more, WriteClaims(files, todo, left, cut).files, read)
    decreases |todo|
  {
    more := h;
    if todo != [] && left > 0 {
      var c := todo[0];
      RestFree(todo, h);
      if left == 1 {
        OneHalfWritten(h, files, c, cut, read);
      } else if left == 2 {
        OneHalfWritten(h, files, c, |Render(c)|, read);
      } else {
        OneWritten(h, files, c, read);
        var next := (files - {TempName(c.slug)})[c.slug := Render(c)];
        more := WriteKeeps(h[c.slug := c.uid], next, todo[1..], left - 3, cut, read);
      }
    }
  }

  lemma {:induction false} UnclaimedMembers(files: Files, wanted: seq<Claim>, c: Claim)
    ensures c in Unclaimed(files, wanted) <==> c in wanted && c.slug !in files
    decreases |wanted|
  {
    if wanted != [] {
      assert wanted == [wanted[0]] + wanted[1..];
      UnclaimedMembers(files, wanted[1..], c);
    }
  }

  lemma {:induction false} UnclaimedTable(files: Files, wanted: seq<Claim>)
    requires SlotTable(wanted)
    ensures SlotTable(Unclaimed(files, wanted))
    decreases |wanted|
  {
    if wanted != [] {
      var later := Unclaimed(files, wanted[1..]);
      RestOfTable(wanted);
      UnclaimedTable(files, wanted[1..]);
      forall d | d in later ensures d.slug != wanted[0].slug && d.uid != wanted[0].uid {
        UnclaimedMembers(files, wanted[1..], d);
      }
      TableCons(wanted[0], later);
      assert [] + later == later;
    }
  }

  lemma UnclaimedIs(files: Files, wanted: seq<Claim>)
    requires SlotTable(wanted)
    ensures SlotTable(Unclaimed(files, wanted))
    ensures forall c :: c in Unclaimed(files, wanted) <==> c in wanted && c.slug !in files
  {
    UnclaimedTable(files, wanted);
    forall c ensures c in Unclaimed(files, wanted) <==> c in wanted && c.slug !in files {
      UnclaimedMembers(files, wanted, c);
    }
  }

  lemma RestOfTable(wanted: seq<Claim>)
    requires SlotTable(wanted) && wanted != []
    ensures SlugWord(wanted[0].slug) && SlotTable(wanted[1..])
    ensures forall d | d in wanted[1..] :: d.slug != wanted[0].slug && d.uid != wanted[0].uid
  {
    var c, rest := wanted[0], wanted[1..];
    assert wanted == [c] + rest;
    assert forall i | 0 <= i < |rest| :: rest[i] == wanted[i + 1];
    assert c in wanted;
    forall d | d in rest ensures d.slug != c.slug && d.uid != c.uid && SlugWord(d.slug) {
      var i :| 0 <= i < |rest| && rest[i] == d;
      assert wanted[0].slug != wanted[i + 1].slug && d in wanted;
    }
  }

  lemma TableCons(c: Claim, rest: seq<Claim>)
    requires SlugWord(c.slug) && SlotTable(rest)
    requires forall d | d in rest :: d.slug != c.slug && d.uid != c.uid
    ensures SlotTable([c] + rest)
  {
    var all := [c] + rest;
    forall i, j | 0 <= i < j < |all| ensures all[i].slug != all[j].slug && all[i].uid != all[j].uid {
      assert all[j] == rest[j - 1] && rest[j - 1] in rest;
      assert i > 0 ==> all[i] == rest[i - 1];
    }
  }

  lemma UnrefusedIsFree(h: map<string, int>, files: Files, wanted: seq<Claim>, taken: set<int>)
    requires Records(h, files, Reads) && SlotTable(wanted) && !OutOfRange(wanted) && !DemoRefuses(files, wanted, taken)
    ensures AllFree(Unclaimed(files, wanted), h)
  {
    LegibleIsAll(h, files, Reads);
    UnclaimedIs(files, wanted);
    forall c | c in Unclaimed(files, wanted) ensures Free(c, h) && InRange(c.uid) {
      assert !Conflicts(c, Claims(files), taken);
    }
  }

  lemma DemoWritesKeep(h: map<string, int>, files: Files, wanted: seq<Claim>, taken: set<int>, left: nat, cut: nat)
    returns (more: map<string, int>)
    requires Records(h, files, Reads) && SlotTable(wanted) && !OutOfRange(wanted) && !DemoRefuses(files, wanted, taken)
    ensures Extends(h, more) && Records(more, WriteClaims(files, Unclaimed(files, wanted), left, cut).files, Reads)
  {
    UnrefusedIsFree(h, files, wanted, taken);
    ReadsIsHonest();
    more := WriteKeeps(h, files, Unclaimed(files, wanted), left, cut, Reads);
  }

  /** A demo run, wherever it crashes, adds to the record and changes nothing in it. */
  lemma DemoKeeps(h: map<string, int>, files: Files, wanted: seq<Claim>, taken: set<int>, left: nat, cut: nat)
    returns (more: map<string, int>)
    requires Records(h, files, Reads) && SlotTable(wanted)
    ensures Extends(h, more) && Records(more, DemoRun(files, wanted, taken, left, cut).files, Reads)
  {
    more := h;
    if !OutOfRange(wanted) {
      var cleared := ClearStale(files, wanted, left);
      ClearKeeps(h, files, wanted, left, Reads);
      if cleared.Running? && !DemoRefuses(cleared.files, wanted, taken) {
        more := DemoWritesKeep(h, cleared.files, wanted, taken, cleared.left, cut);
      }
    }
  }

  /** The run crashes while writing the claim, with some of the uid's digits written but not all. */
  predicate TornInDigits(w: World, c: Claim, left: nat, cut: nat) {
    CreateVolumes(w.volumes, VolumesOf(c.slug), left).1 == 1 && InsideDigits(c, cut)
  }

  /** The claim so torn is one already on file: the run was a re-run. */
  predicate LosesDigits(w: World, c: Claim, reserved: set<string>, left: nat, cut: nat) {
    !TenantRefuses(w, c, reserved) && c.slug in w.files && TornInDigits(w, c, left, cut)
  }

  lemma ClaimWritten(h: map<string, int>, files: Files, c: Claim, cut: nat, read: Reader)
    returns (more: map<string, int>)
    requires Honest(read) && Records(h, files, read) && SlugWord(c.slug) && InRange(c.uid)
    requires c.slug in h ==> h[c.slug] == c.uid && !InsideDigits(c, cut)
    requires forall other | other in h && h[other] == c.uid :: other == c.slug
    ensures Extends(h, more) && Records(more, files[c.slug := CutAt(Render(c), cut)], read)
  {
    var text := CutAt(Render(c), cut);
    assert HonestCuts(c, read);
    RenderSplits(c);
    if cut <= UidAt(c) || InsideDigits(c, cut) {
      more := h;
      FileUnread(h, files, read, c.slug, text);
    } else {
      more := h[c.slug := c.uid];
      FileClaimed(h, files, read, c.slug, text, c.uid);
    }
  }

  lemma UnrefusedTenant(h: map<string, int>, w: World, c: Claim, reserved: set<string>)
    requires Records(h, w.files, Reads) && !TenantRefuses(w, c, reserved)
    ensures c.slug in h ==> h[c.slug] == c.uid
    ensures c.slug in h <==> c.slug in w.files
    ensures forall other | other in h && h[other] == c.uid :: other == c.slug
  {
    LegibleIsAll(h, w.files, Reads);
  }

  /** So does a tenant run, unless it loses digits. */
  lemma TenantKeeps(h: map<string, int>, w: World, c: Claim, reserved: set<string>, left: nat, cut: nat)
    returns (more: map<string, int>)
    requires Records(h, w.files, Reads) && !LosesDigits(w, c, reserved, left, cut)
    ensures Extends(h, more) && Records(more, TenantRun(w, c, reserved, left, cut).files, Reads)
  {
    more := h;
    if !TenantRefuses(w, c, reserved) {
      var after := CreateVolumes(w.volumes, VolumesOf(c.slug), left).1;
      UnrefusedTenant(h, w, c, reserved);
      ReadsIsHonest();
      if after > 0 {
        more := ClaimWritten(h, w.files, c, if after == 1 then cut else |Render(c)|, Reads);
      }
    }
  }

  /** And a run that loses digits keeps no record: the tenant's own claim reads as another number. */
  lemma LostDigitsBreak(h: map<string, int>, w: World, c: Claim, reserved: set<string>, left: nat, cut: nat,
                        more: map<string, int>)
    requires Records(h, w.files, Reads) && LosesDigits(w, c, reserved, left, cut) && Extends(h, more)
    ensures !Records(more, TenantRun(w, c, reserved, left, cut).files, Reads)
  {
    UnrefusedTenant(h, w, c, reserved);
    TornAnswer(w, c, reserved, left, cut);
  }

  lemma TornAnswer(w: World, c: Claim, reserved: set<string>, left: nat, cut: nat)
    requires !TenantRefuses(w, c, reserved) && CreateVolumes(w.volumes, VolumesOf(c.slug), left).1 == 1
    ensures var files := TenantRun(w, c, reserved, left, cut).files;
      && files.Keys == w.files.Keys + {c.slug} && files == w.files[c.slug := files[c.slug]]
      && CutAnswer(c, cut, Reads(c.slug, files[c.slug]))
  {
    RenderSplits(c);
    if cut < |Render(c)| {
      CutReads(c, cut);
    } else {
      ClaimReads(c);
    }
  }

  // ---- any sequence of runs --------------------------------------------------

  datatype Run =
    | Demo(wanted: seq<Claim>, taken: set<int>, left: nat, cut: nat)
    | Tenant(claim: Claim, reserved: set<string>, left: nat, cut: nat)

  predicate WellFormed(r: Run) {
    match r
    case Demo(wanted, _, _, _) => SlotTable(wanted)
    case Tenant(_, _, _, _) => true
  }

  /** The one crash the record does not survive: a re-run that tears its claim inside the digits. */
  predicate Tears(w: World, r: Run) {
    r.Tenant? && LosesDigits(w, r.claim, r.reserved, r.left, r.cut)
  }

  function Exec(w: World, r: Run): World {
    match r
    case Demo(wanted, taken, left, cut) => World(DemoRun(w.files, wanted, taken, left, cut).files, w.volumes)
    case Tenant(claim, reserved, left, cut) => TenantRun(w, claim, reserved, left, cut)
  }

  predicate IsHistory(worlds: seq<World>, runs: seq<Run>) {
    && |worlds| == |runs| + 1 && worlds[0].files == map[]
    && forall i | 0 <= i < |runs| :: WellFormed(runs[i]) && worlds[i + 1] == Exec(worlds[i], runs[i])
  }

  predicate NeverTears(worlds: seq<World>, runs: seq<Run>)
    requires |worlds| == |runs| + 1
  {
    forall i | 0 <= i < |runs| :: !Tears(worlds[i], runs[i])
  }

  lemma RunKeeps(h: map<string, int>, w: World, r: Run) returns (more: map<string, int>)
    requires Records(h, w.files, Reads) && WellFormed(r) && !Tears(w, r)
    ensures Extends(h, more) && Records(more, Exec(w, r).files, Reads)
  {
    match r
    case Demo(wanted, taken, left, cut) => more := DemoKeeps(h, w.files, wanted, taken, left, cut);
    case Tenant(claim, reserved, left, cut) => more := TenantKeeps(h, w, claim, reserved, left, cut);
  }

  /** A run, wherever it crashes, keeps the record exactly when it is not that one. */
  lemma RecordKeptIff(h: map<string, int>, w: World, r: Run)
    requires Records(h, w.files, Reads) && WellFormed(r)
    ensures CanGrow(h, Exec(w, r), Good()) <==> !Tears(w, r)
  {
    if Tears(w, r) {
      forall more | Extends(h, more) ensures !Good()(more, Exec(w, r)) {
        LostDigitsBreak(h, w, r.claim, r.reserved, r.left, r.cut, more);
      }
    } else {
      var more := RunKeeps(h, w, r);
      assert Good()(more, Exec(w, r));
    }
  }

  type Book = map<string, int>
  type Keeping = (Book, World) -> bool

  function Good(): Keeping { (h: Book, w: World) => Records(h, w.files, Reads) }

  ghost predicate CanGrow(h: Book, w: World, good: Keeping) { exists more :: Extends(h, more) && good(more, w) }

  ghost predicate AlwaysGrows(worlds: seq<World>, good: Keeping) {
    forall k, h | 0 < k < |worlds| && good(h, worlds[k - 1]) :: CanGrow(h, worlds[k], good)
  }

  lemma {:induction false} BookGrows(worlds: seq<World>, good: Keeping, i: nat, j: nat, h: Book) returns (more: Book)
    requires AlwaysGrows(worlds, good) && i <= j < |worlds| && good(h, worlds[i])
    ensures Extends(h, more) && good(more, worlds[j])
    decreases j
  {
    more := h;
    if i < j {
      var before := BookGrows(worlds, good, i, j - 1, h);
      assert CanGrow(before, worlds[j], good);
      more :| Extends(before, more) && good(more, worlds[j]);
    }
  }

  lemma HistoriesGrow(worlds: seq<World>, runs: seq<Run>)
    requires IsHistory(worlds, runs) && NeverTears(worlds, runs)
    ensures AlwaysGrows(worlds, Good()) && Good()(map[], worlds[0])
  {
    forall k, h | 0 < k < |worlds| && Good()(h, worlds[k - 1]) ensures CanGrow(h, worlds[k], Good()) {
      var more := RunKeeps(h, worlds[k - 1], runs[k - 1]);
      assert worlds[k - 1 + 1] == worlds[k] && Good()(more, worlds[k]);
    }
  }

  lemma ReadIsBooked(h: Book, w: World, a: string)
    requires Good()(h, w)
    ensures a in Claims(w.files) && InRange(Claims(w.files)[a]) ==> a in h
    ensures a in Claims(w.files) && a in h ==> h[a] == Claims(w.files)[a]
    ensures a in h ==> a in w.files
    ensures forall b | a in h && b in h :: h[a] == h[b] ==> a == b
  {
  }

  /** A claim of the range, as a register reads. */
  predicate Claimed(w: World, slug: string, uid: int) {
    slug in Claims(w.files) && Claims(w.files)[slug] == uid && InRange(uid)
  }

  /** Over any runs of the two programs, crashing wherever they may as long as no re-run tears its claim
      inside the digits: a uid of the range read at one time and one read at any later time are the same
      uid exactly when they are the same slug's. So no uid is ever reused, no recorded uid ever changes,
      and no two slugs ever share one. */
  lemma UidsNeverReused(worlds: seq<World>, runs: seq<Run>, i: nat, j: nat, a: string, b: string, u: int, v: int)
    requires IsHistory(worlds, runs) && NeverTears(worlds, runs) && i <= j < |worlds|
    requires Claimed(worlds[i], a, u) && Claimed(worlds[j], b, v)
    ensures a == b <==> u == v
  {
    HistoriesGrow(worlds, runs);
    var h := BookGrows(worlds, Good(), 0, i, map[]);
    var more := BookGrows(worlds, Good(), i, j, h);
    ReadIsBooked(h, worlds[i], a);
    ReadIsBooked(more, worlds[j], a);
    ReadIsBooked(more, worlds[j], b);
  }

  /** A recorded claim stays on file, though a crash may leave it unreadable for a while: it never reads
      as another number. */
  lemma ClaimsStayOnFile(worlds: seq<World>, runs: seq<Run>, i: nat, j: nat, a: string, u: int)
    requires IsHistory(worlds, runs) && NeverTears(worlds, runs) && i <= j < |worlds| && Claimed(worlds[i], a, u)
    ensures a in worlds[j].files && Agrees(Reads(a, worlds[j].files[a]), u)
  {
    HistoriesGrow(worlds, runs);
    var h := BookGrows(worlds, Good(), 0, i, map[]);
    var more := BookGrows(worlds, Good(), i, j, h);
    ReadIsBooked(h, worlds[i], a);
    ReadIsBooked(more, worlds[j], a);
  }

  // ---- a tenant run that crashed ---------------------------------------------

  lemma VolumeNamesSlug(slug: string)
    ensures IsContentVolume(ContentVolume(slug)) && SlugOfVolume(ContentVolume(slug)) == slug
  {
    var v := ContentVolume(slug);
    assert v[|v| - 8..] == "-content" && v[6..|v| - 8] == slug;
  }

  lemma {:induction false} VolumesGrow(volumes: set<string>, names: seq<string>, left: nat)
    ensures volumes <= CreateVolumes(volumes, names, left).0
    ensures names != [] ==>
      CreateVolumes(volumes, names, left).0 == volumes || names[0] in CreateVolumes(volumes, names, left).0
    decreases |names|
  {
    if names != [] {
      if names[0] in volumes {
        VolumesGrow(volumes, names[1..], left);
      } else if left > 0 {
        VolumesGrow(volumes + {names[0]}, names[1..], left - 1);
      }
    }
  }

  lemma OrphanBlocks(w: World, slug: string)
    requires ContentVolume(slug) in w.volumes && slug !in w.files
    ensures Orphaned(w)
  {
    VolumeNamesSlug(slug);
  }

  lemma TornBlocks(files: Files, name: string)
    requires name in files && Reads(name, files[name]).None?
    ensures !Legible(files)
  {
  }

  lemma {:induction false} VolumesMade(volumes: set<string>, names: seq<string>, left: nat)
    ensures var (made, after) := CreateVolumes(volumes, names, left);
      && volumes <= made && (forall v | v in made :: v in volumes || v in names)
      && (after >= 0 ==> forall v | v in names :: v in made)
      && ((forall v | v in names :: v in volumes) ==> made == volumes && after == left)
      && (left >= |names| ==> after >= left - |names|)
      && (left == 0 ==> made == volumes && after <= 0)
    decreases |names|
  {
    if names != [] {
      assert names == [names[0]] + names[1..];
      if names[0] in volumes {
        VolumesMade(volumes, names[1..], left);
      } else if left > 0 {
        VolumesMade(volumes + {names[0]}, names[1..], left - 1);
      }
    }
  }

  /** Only a tenant's first volume tells of a claim. */
  lemma OneContentVolume(slug: string, v: string)
    requires v in VolumesOf(slug)
    ensures IsContentVolume(v) <==> v == ContentVolume(slug)
  {
    VolumeNamesSlug(slug);
    var adapters, metrics := "ghost-" + slug + "-adapters", "ghost-" + slug + "-metrics";
    assert adapters[|adapters| - 1] == 's' && metrics[|metrics| - 1] == 's';
    assert EndsWith(v, "-content") ==> v[|v| - 1] == v[|v| - 8..][7] == "-content"[7] == 't';
  }

  /** A run that got past its volumes leaves none without a claim beside it. */
  lemma NoOrphanMade(w: World, slug: string, files: Files, left: nat)
    requires !Orphaned(w) && slug in Claims(files) && forall n | n in Claims(w.files) :: n in Claims(files)
    ensures !Orphaned(World(files, CreateVolumes(w.volumes, VolumesOf(slug), left).0))
  {
    var made := CreateVolumes(w.volumes, VolumesOf(slug), left).0;
    VolumesMade(w.volumes, VolumesOf(slug), left);
    forall v | v in made && IsContentVolume(v) ensures SlugOfVolume(v) in Claims(files) {
      if v !in w.volumes {
        OneContentVolume(slug, v);
        VolumeNamesSlug(slug);
      }
    }
  }

  /** A run torn inside the digits leaves a register that reads, and that no longer tells its uid. */
  lemma TornReads(w: World, c: Claim, reserved: set<string>, left: nat, cut: nat) returns (other: int)
    requires !TenantRefuses(w, c, reserved) && TornInDigits(w, c, left, cut)
    ensures !InRange(other) && Claims(w.files).Keys == w.files.Keys
    ensures var after := TenantRun(w, c, reserved, left, cut);
      !Blocked(after) && Claims(after.files) == Claims(w.files)[c.slug := other]
  {
    var files := TenantRun(w, c, reserved, left, cut).files;
    TornAnswer(w, c, reserved, left, cut);
    other := Reads(c.slug, files[c.slug]).value;
    ClaimAdded(w.files, c.slug, files[c.slug], other, Reads);
    NoOrphanMade(w, c.slug, files, left);
  }

  /** Nothing was done, or the uid was recorded, or every later tenant run is refused. */
  predicate Settled(w: World, c: Claim, after: World) {
    after == w || Claims(after.files) == Claims(w.files)[c.slug := c.uid] || Blocked(after)
  }

  /** A new tenant's run either did nothing, or recorded its uid, or blocks every later tenant run:
      exactly unless it was torn inside the digits. */
  lemma CrashedTenantBlocks(w: World, c: Claim, reserved: set<string>, left: nat, cut: nat)
    requires !TenantRefuses(w, c, reserved) && c.slug !in w.files
    ensures Settled(w, c, TenantRun(w, c, reserved, left, cut)) <==> !TornInDigits(w, c, left, cut)
  {
    if TornInDigits(w, c, left, cut) {
      var other := TornReads(w, c, reserved, left, cut);
      Unsettled(w, c, other, TenantRun(w, c, reserved, left, cut));
    } else if CreateVolumes(w.volumes, VolumesOf(c.slug), left).1 <= 0 {
      StoppedAtVolumes(w, c, reserved, left, cut);
    } else {
      ClaimedOrUnreadable(w, c, reserved, left, cut);
    }
  }

  lemma Unsettled(w: World, c: Claim, other: int, after: World)
    requires c.slug !in w.files && Claims(after.files) == Claims(w.files)[c.slug := other] && other != c.uid
    requires !Blocked(after)
    ensures !Settled(w, c, after)
  {
    assert Claims(after.files)[c.slug] == other && c.slug !in Claims(w.files);
    assert Claims(w.files)[c.slug := c.uid][c.slug] == c.uid;
  }

  /** A run that crashed at its volumes. */
  lemma StoppedAtVolumes(w: World, c: Claim, reserved: set<string>, left: nat, cut: nat)
    requires !TenantRefuses(w, c, reserved) && CreateVolumes(w.volumes, VolumesOf(c.slug), left).1 <= 0
    ensures var after := TenantRun(w, c, reserved, left, cut);
      && after.files == w.files
      && (c.slug in w.files || (if left == 0 then after == w else Blocked(after)))
  {
    VolumesMade(w.volumes, VolumesOf(c.slug), left);
    if c.slug !in w.files && left > 0 {
      FirstVolume(w, c, left);
      OrphanBlocks(TenantRun(w, c, reserved, left, cut), c.slug);
    }
  }

  /** One that got to its claim and did not tear it inside the digits. */
  lemma ClaimedOrUnreadable(w: World, c: Claim, reserved: set<string>, left: nat, cut: nat)
    requires !TenantRefuses(w, c, reserved) && !TornInDigits(w, c, left, cut)
    requires CreateVolumes(w.volumes, VolumesOf(c.slug), left).1 > 0
    ensures var after := TenantRun(w, c, reserved, left, cut);
      !Legible(after.files) || Claims(after.files) == Claims(w.files)[c.slug := c.uid]
  {
    var files := TenantRun(w, c, reserved, left, cut).files;
    if CreateVolumes(w.volumes, VolumesOf(c.slug), left).1 == 1 {
      TornAnswer(w, c, reserved, left, cut);
    } else {
      ClaimReads(c);
    }
    if Reads(c.slug, files[c.slug]) == None {
      TornBlocks(files, c.slug);
    } else {
      ClaimAdded(w.files, c.slug, files[c.slug], c.uid, Reads);
    }
  }

  /** A new tenant's first effect is its content volume. */
  lemma FirstVolume(w: World, c: Claim, left: nat)
    requires !Orphaned(w) && c.slug !in w.files && left > 0
    ensures ContentVolume(c.slug) in CreateVolumes(w.volumes, VolumesOf(c.slug), left).0
  {
    if ContentVolume(c.slug) in w.volumes {
      OrphanBlocks(w, c.slug);
    } else {
      VolumesGrow(w.volumes + {ContentVolume(c.slug)}, VolumesOf(c.slug)[1..], left - 1);
    }
  }

  /** Whatever became of a run that was not refused, another tenant is handed the same uid next exactly
      when the run was torn inside the digits, or was a new tenant's and did nothing at all. */
  lemma NextTenantTakesUidIff(w: World, c: Claim, reserved: set<string>, left: nat, cut: nat,
                              d: Claim, names: set<string>)
    requires !TenantRefuses(w, c, reserved)
    requires ValidSlug(d.slug, names) && d.slug !in w.files && d.slug != c.slug && d.uid == c.uid
    ensures !TenantRefuses(TenantRun(w, c, reserved, left, cut), d, names)
      <==> TornInDigits(w, c, left, cut) || (c.slug !in w.files && left == 0)
  {
    if TornInDigits(w, c, left, cut) {
      TornNext(w, c, reserved, left, cut, d, names);
    } else {
      UntornNext(w, c, reserved, left, cut, d, names);
    }
  }

  lemma TornNext(w: World, c: Claim, reserved: set<string>, left: nat, cut: nat, d: Claim, names: set<string>)
    requires !TenantRefuses(w, c, reserved) && TornInDigits(w, c, left, cut)
    requires ValidSlug(d.slug, names) && d.slug !in w.files && d.slug != c.slug && d.uid == c.uid
    ensures !TenantRefuses(TenantRun(w, c, reserved, left, cut), d, names)
  {
    var other := TornReads(w, c, reserved, left, cut);
    UidGone(c, d, Claims(w.files), other);
    NotRefused(TenantRun(w, c, reserved, left, cut), d, names);
  }

  lemma NotRefused(w: World, d: Claim, names: set<string>)
    requires !Blocked(w) && !Unavailable(d, Claims(w.files)) && ValidSlug(d.slug, names) && InRange(d.uid)
    ensures !TenantRefuses(w, d, names)
  {
  }

  lemma UntornNext(w: World, c: Claim, reserved: set<string>, left: nat, cut: nat, d: Claim, names: set<string>)
    requires !TenantRefuses(w, c, reserved) && !TornInDigits(w, c, left, cut)
    requires ValidSlug(d.slug, names) && d.slug !in w.files && d.slug != c.slug && d.uid == c.uid
    ensures !TenantRefuses(TenantRun(w, c, reserved, left, cut), d, names) <==> c.slug !in w.files && left == 0
  {
    var after := TenantRun(w, c, reserved, left, cut);
    VolumesMade(w.volumes, VolumesOf(c.slug), left);
    if CreateVolumes(w.volumes, VolumesOf(c.slug), left).1 <= 0 {
      StoppedAtVolumes(w, c, reserved, left, cut);
      StoppedNext(w, c, reserved, after, d, names);
    } else {
      ClaimedOrUnreadable(w, c, reserved, left, cut);
      StillClaimed(w, c, after, d, names);
    }
  }

  lemma StoppedNext(w: World, c: Claim, reserved: set<string>, after: World, d: Claim, names: set<string>)
    requires !TenantRefuses(w, c, reserved) && after.files == w.files
    requires ValidSlug(d.slug, names) && d.slug !in w.files && d.slug != c.slug && d.uid == c.uid
    ensures c.slug in w.files ==> TenantRefuses(after, d, names)
    ensures c.slug !in w.files && after == w ==> !TenantRefuses(after, d, names)
  {
    if c.slug in w.files && Legible(w.files) {
      assert c.slug in Claims(after.files) && Claims(after.files)[c.slug] == c.uid;
    }
  }

  lemma StillClaimed(w: World, c: Claim, after: World, d: Claim, names: set<string>)
    requires !Legible(after.files) || Claims(after.files) == Claims(w.files)[c.slug := c.uid]
    requires d.slug != c.slug && d.uid == c.uid
    ensures TenantRefuses(after, d, names)
  {
    assert Legible(after.files) ==> c.slug in Claims(after.files) && Claims(after.files)[c.slug] == c.uid;
  }

  lemma UidGone(c: Claim, d: Claim, claims: map<string, int>, other: int)
    requires !Unavailable(c, claims) && other != c.uid
    requires d.slug !in claims && d.slug != c.slug && d.uid == c.uid
    ensures !Unavailable(d, claims[c.slug := other])
  {
  }

  // ---- a history in which a uid is reused ------------------------------------

  function Whole(c: Claim): Run { Tenant(c, {}, 5, 0) }

  /** Two tenants at one uid: the first provisioned, re-run and torn, then the second provisioned. */
  function TornRuns(c: Claim, d: Claim, cut: nat): seq<Run> { [Whole(c), Tenant(c, {}, 1, cut), Whole(d)] }

  function WorldsOf(w: World, runs: seq<Run>): (worlds: seq<World>)
    ensures |worlds| == |runs| + 1 && worlds[0] == w
    ensures forall i | 0 <= i < |runs| :: worlds[i + 1] == Exec(worlds[i], runs[i])
    decreases |runs|
  {
    if runs == [] then [w]
    else
      var later := WorldsOf(Exec(w, runs[0]), runs[1..]);
      assert forall i | 0 < i < |runs| :: runs[i] == runs[1..][i - 1];
      [w] + later
  }

  lemma WholeRunClaims(w: World, c: Claim)
    requires !TenantRefuses(w, c, {})
    ensures var after := Exec(w, Whole(c));
      && after.files == w.files[c.slug := Render(c)] && Claims(after.files) == Claims(w.files)[c.slug := c.uid]
      && !Blocked(after) && forall v | v in VolumesOf(c.slug) :: v in after.volumes
  {
    WholeRunIs(w, c);
    ClaimReads(c);
    ClaimAdded(w.files, c.slug, Render(c), c.uid, Reads);
    NoOrphanMade(w, c.slug, w.files[c.slug := Render(c)], 5);
  }

  lemma WholeRunIs(w: World, c: Claim)
    requires !TenantRefuses(w, c, {})
    ensures var made := CreateVolumes(w.volumes, VolumesOf(c.slug), 5).0;
      && Exec(w, Whole(c)) == World(w.files[c.slug := Render(c)], made)
      && forall v | v in VolumesOf(c.slug) :: v in made
  {
    VolumesMade(w.volumes, VolumesOf(c.slug), 5);
  }

  lemma ClaimAdded(files: Files, name: string, text: string, uid: int, read: Reader)
    requires AllRead(files, read) && read(name, text) == Some(uid)
    ensures AllRead(files[name := text], read)
    ensures ReadAll(files[name := text], read) == ReadAll(files, read)[name := uid]
  {
  }

  lemma FirstRunOpen(c: Claim)
    requires ValidSlug(c.slug, {}) && InRange(c.uid)
    ensures !TenantRefuses(World(map[], {}), c, {})
  {
  }

  lemma TornRerunOpens(w: World, c: Claim, d: Claim, cut: nat)
    requires !Blocked(w) && Claims(w.files) == map[c.slug := c.uid] && w.files.Keys == {c.slug}
    requires forall v | v in VolumesOf(c.slug) :: v in w.volumes
    requires ValidSlug(c.slug, {}) && ValidSlug(d.slug, {}) && c.slug != d.slug && c.uid == d.uid
    requires InRange(c.uid) && InsideDigits(c, cut)
    ensures !TenantRefuses(Exec(w, Tenant(c, {}, 1, cut)), d, {})
  {
    VolumesMade(w.volumes, VolumesOf(c.slug), 1);
    NextTenantTakesUidIff(w, c, {}, 1, cut, d, {});
  }

  /** One torn re-run, and a recorded uid is handed to a second tenant. */
  lemma TornRerunReusesUid(c: Claim, d: Claim, cut: nat)
    requires ValidSlug(c.slug, {}) && ValidSlug(d.slug, {}) && c.slug != d.slug && c.uid == d.uid
    requires InRange(c.uid) && InsideDigits(c, cut)
    ensures var worlds := WorldsOf(World(map[], {}), TornRuns(c, d, cut));
      && IsHistory(worlds, TornRuns(c, d, cut))
      && Claimed(worlds[1], c.slug, c.uid) && Claimed(worlds[3], d.slug, c.uid)
  {
    var runs := TornRuns(c, d, cut);
    var worlds := WorldsOf(World(map[], {}), runs);
    HistoryOf(World(map[], {}), runs);
    ThreeSteps(worlds, Whole(c), Tenant(c, {}, 1, cut), Whole(d));
    TornSteps(c, d, cut, worlds[1], worlds[2]);
  }

  lemma HistoryOf(w: World, runs: seq<Run>)
    requires w.files == map[] && forall r | r in runs :: WellFormed(r)
    ensures IsHistory(WorldsOf(w, runs), runs)
  {
  }

  lemma ThreeSteps(worlds: seq<World>, a: Run, b: Run, c: Run)
    requires |worlds| == 4 && forall i | 0 <= i < 3 :: worlds[i + 1] == Exec(worlds[i], [a, b, c][i])
    ensures worlds[1] == Exec(worlds[0], a) && worlds[2] == Exec(worlds[1], b) && worlds[3] == Exec(worlds[2], c)
  {
    assert worlds[1] == worlds[0 + 1] && worlds[2] == worlds[1 + 1] && worlds[3] == worlds[2 + 1];
  }

  lemma TornSteps(c: Claim, d: Claim, cut: nat, first: World, second: World)
    requires ValidSlug(c.slug, {}) && ValidSlug(d.slug, {}) && c.slug != d.slug && c.uid == d.uid
    requires InRange(c.uid) && InsideDigits(c, cut)
    requires first == Exec(World(map[], {}), Whole(c)) && second == Exec(first, Tenant(c, {}, 1, cut))
    ensures Claimed(first, c.slug, c.uid) && Claimed(Exec(second, Whole(d)), d.slug, c.uid)
  {
    FirstRunOpen(c);
    WholeRunClaims(World(map[], {}), c);
    TornRerunOpens(first, c, d, cut);
    WholeRunClaims(second, d);
  }

  // ---- a demo run that crashed -----------------------------------------------

  function Temps(wanted: seq<Claim>): set<string> { set c | c in wanted :: TempName(c.slug) }

  lemma TempsCons(wanted: seq<Claim>)
    requires wanted != []
    ensures Temps(wanted) == {TempName(wanted[0].slug)} + Temps(wanted[1..])
  {
    assert wanted == [wanted[0]] + wanted[1..];
  }

  /** The wanted claim of a slug. */
  function TextFor(wanted: seq<Claim>, slug: string): string {
    if wanted == [] then "" else if wanted[0].slug == slug then Render(wanted[0]) else TextFor(wanted[1..], slug)
  }

  function Slugs(wanted: seq<Claim>): set<string> { set c | c in wanted :: c.slug }

  lemma {:induction false} TextForIs(wanted: seq<Claim>, c: Claim)
    requires SlotTable(wanted) && c in wanted
    ensures TextFor(wanted, c.slug) == Render(c)
    decreases |wanted|
  {
    RestOfTable(wanted);
    assert wanted == [wanted[0]] + wanted[1..];
    if c != wanted[0] {
      TextForIs(wanted[1..], c);
    }
  }

  /** The register an uninterrupted run leaves. */
  function DemoDone(files: Files, wanted: seq<Claim>, taken: set<int>): Files {
    if OutOfRange(wanted) then files
    else
      var cleared := files - Temps(wanted);
      if DemoRefuses(cleared, wanted, taken) then cleared else Filled(cleared, wanted)
  }

  function Filled(files: Files, wanted: seq<Claim>): Files {
    map n | n in files.Keys + Slugs(wanted) :: if n in files then files[n] else TextFor(wanted, n)
  }

  /** Part of the way from `start` to all the wanted claims, give or take temporary files. */
  predicate Between(start: Files, files: Files, wanted: seq<Claim>) {
    && (forall n | n in start :: n in files && files[n] == start[n])
    && (forall n | n in files ::
         n in start || n in Temps(wanted) || (n in Slugs(wanted) && files[n] == TextFor(wanted, n)))
  }

  lemma {:induction false} ClearStaleIs(files: Files, wanted: seq<Claim>, left: nat)
    ensures var p := ClearStale(files, wanted, left);
      && p.files - Temps(wanted) == files - Temps(wanted)
      && (p.Running? ==> p.files == files - Temps(wanted) && p.left <= left)
      && (left >= |wanted| ==> p.Running? && p.left >= left - |wanted|)
    decreases |wanted|
  {
    if wanted != [] {
      var tmp := TempName(wanted[0].slug);
      TempsCons(wanted);
      if tmp !in files {
        ClearStaleIs(files, wanted[1..], left);
      } else if left > 0 {
        ClearStaleIs(files - {tmp}, wanted[1..], left - 1);
      }
      ClearStepIs(files, tmp, Temps(wanted[1..]));
    }
  }

  lemma ClearStepIs(files: Files, tmp: string, rest: set<string>)
    ensures (files - {tmp}) - rest == files - ({tmp} + rest)
    ensures tmp !in files ==> files - rest == files - ({tmp} + rest)
    ensures forall p: Files | p - rest == files - rest :: p - ({tmp} + rest) == files - ({tmp} + rest)
    ensures forall p: Files | p - rest == (files - {tmp}) - rest :: p - ({tmp} + rest) == files - ({tmp} + rest)
  {
    forall p: Files | p - rest == files - rest ensures p - ({tmp} + rest) == files - ({tmp} + rest) {
      assert (p - rest) - {tmp} == p - ({tmp} + rest) && (files - rest) - {tmp} == files - ({tmp} + rest);
    }
    forall p: Files | p - rest == (files - {tmp}) - rest ensures p - ({tmp} + rest) == files - ({tmp} + rest) {
      assert (p - rest) - {tmp} == p - ({tmp} + rest) && ((files - {tmp}) - rest) - {tmp} == files - ({tmp} + rest);
    }
  }

  predicate Apart(files: Files, names: set<string>) { forall n | n in names :: n !in files }

  lemma NotATemp(slug: string, wanted: seq<Claim>)
    requires SlugWord(slug)
    ensures slug !in Temps(wanted)
  {
    forall c | c in wanted ensures TempName(c.slug) != slug {
      TempIsNoSlug(c.slug);
    }
  }

  predicate Todo(todo: seq<Claim>, start: Files, wanted: seq<Claim>) {
    forall c | c in todo :: c in wanted && c.slug !in start
  }

  lemma BetweenStep(start: Files, files: Files, wanted: seq<Claim>, c: Claim, text: string)
    requires SlotTable(wanted) && Apart(start, Temps(wanted)) && Between(start, files, wanted)
    requires c in wanted && c.slug !in start
    ensures Between(start, files[TempName(c.slug) := text], wanted)
    ensures Between(start, (files - {TempName(c.slug)})[c.slug := Render(c)], wanted)
    ensures c.slug !in Temps(wanted) && TempName(c.slug) in Temps(wanted)
  {
    NotATemp(c.slug, wanted);
    TextForIs(wanted, c);
    assert TempName(c.slug) in Temps(wanted);
    assert c.slug in Slugs(wanted);
  }

  lemma {:induction false} WriteBetween(start: Files, files: Files, wanted: seq<Claim>, todo: seq<Claim>, left: nat,
                                        cut: nat)
    requires SlotTable(wanted) && Apart(start, Temps(wanted)) && Between(start, files, wanted)
    requires Todo(todo, start, wanted)
    ensures Between(start, WriteClaims(files, todo, left, cut).files, wanted)
    decreases |todo|
  {
    if todo != [] && left > 0 {
      var c := todo[0];
      assert todo == [c] + todo[1..];
      var text := if left == 1 then CutAt(Render(c), cut) else Render(c);
      BetweenStep(start, files, wanted, c, text);
      if left > 2 {
        WriteBetween(start, (files - {TempName(c.slug)})[c.slug := Render(c)], wanted, todo[1..], left - 3, cut);
      }
    }
  }

  lemma {:induction false} WriteCompletes(files: Files, wanted: seq<Claim>, todo: seq<Claim>, left: nat, cut: nat)
    requires SlotTable(wanted) && (forall c | c in todo :: c in wanted) && Apart(files, Temps(wanted))
    requires left >= 3 * |todo|
    ensures var p := WriteClaims(files, todo, left, cut);
      && p.Running? && Apart(p.files, Temps(wanted))
      && (forall n | n in files :: n in p.files) && (forall c | c in todo :: c.slug in p.files)
    decreases |todo|
  {
    if todo != [] {
      var c := todo[0];
      var next := (files - {TempName(c.slug)})[c.slug := Render(c)];
      assert todo == [c] + todo[1..];
      NotATemp(c.slug, wanted);
      assert TempName(c.slug) in Temps(wanted);
      WriteCompletes(next, wanted, todo[1..], left - 3, cut);
      assert c.slug in next;
    }
  }

  /** What a partly written register reads as: what it held before, and the wanted claims it has so far. */
  lemma BetweenReads(start: Files, files: Files, wanted: seq<Claim>, read: Reader)
    requires Honest(read) && SlotTable(wanted) && AllRead(start, read)
    requires Between(start, files, wanted) && Apart(files, Temps(wanted))
    ensures AllRead(files, read)
    ensures forall n | n in files :: if n in start then ReadAll(files, read)[n] == ReadAll(start, read)[n]
                                     else exists c :: c in wanted && c.slug == n && ReadAll(files, read)[n] == c.uid
  {
    forall n | n in files ensures read(n, files[n]).Some?
      && (if n in start then read(n, files[n]) == read(n, start[n])
          else exists c :: c in wanted && c.slug == n && read(n, files[n]) == Some(c.uid))
    {
      if n !in start {
        var c :| c in wanted && c.slug == n;
        TextForIs(wanted, c);
        assert read(c.slug, Render(c)) == Some(c.uid);
      }
    }
  }

  lemma StillUnrefused(start: Files, files: Files, wanted: seq<Claim>, taken: set<int>)
    requires SlotTable(wanted) && !DemoRefuses(start, wanted, taken)
    requires Between(start, files, wanted) && Apart(files, Temps(wanted))
    ensures !DemoRefuses(files, wanted, taken)
  {
    ReadsIsHonest();
    BetweenReads(start, files, wanted, Reads);
    NoNewConflict(Claims(start), Claims(files), wanted, taken);
  }

  lemma NoNewConflict(before: map<string, int>, after: map<string, int>, wanted: seq<Claim>, taken: set<int>)
    requires SlotTable(wanted) && forall c | c in wanted :: !Conflicts(c, before, taken)
    requires forall n | n in before :: n in after
    requires forall n | n in after :: if n in before then after[n] == before[n]
                                      else exists c :: c in wanted && c.slug == n && after[n] == c.uid
    ensures forall c | c in wanted :: !Conflicts(c, after, taken)
  {
    forall c | c in wanted ensures !Conflicts(c, after, taken) {
      assert !Conflicts(c, before, taken);
      forall n | n in after && n !in before ensures n == c.slug <==> after[n] == c.uid {
        var d :| d in wanted && d.slug == n && after[n] == d.uid;
        TableInjective(wanted, c, d);
      }
    }
  }

  lemma TableInjective(wanted: seq<Claim>, c: Claim, d: Claim)
    requires SlotTable(wanted) && c in wanted && d in wanted
    ensures c.slug == d.slug <==> c.uid == d.uid
  {
    var i :| 0 <= i < |wanted| && wanted[i] == c;
    var j :| 0 <= j < |wanted| && wanted[j] == d;
  }

  lemma SameFilled(start: Files, files: Files, wanted: seq<Claim>)
    requires Between(start, files, wanted) && Apart(files, Temps(wanted))
    ensures Filled(files, wanted) == Filled(start, wanted)
  {
  }

  lemma WithoutTemps(start: Files, files: Files, wanted: seq<Claim>)
    requires Between(start, files, wanted) && Apart(start, Temps(wanted))
    ensures Between(start, files - Temps(wanted), wanted) && Apart(files - Temps(wanted), Temps(wanted))
  {
  }

  lemma PartlyDone(start: Files, after: Files, wanted: seq<Claim>, taken: set<int>)
    requires SlotTable(wanted) && Apart(start, Temps(wanted)) && Between(start, after, wanted)
    requires !DemoRefuses(start, wanted, taken)
    ensures !DemoRefuses(after - Temps(wanted), wanted, taken)
    ensures Filled(after - Temps(wanted), wanted) == Filled(start, wanted)
  {
    WithoutTemps(start, after, wanted);
    StillUnrefused(start, after - Temps(wanted), wanted, taken);
    SameFilled(start, after - Temps(wanted), wanted);
  }

  lemma WritingIsBetween(start: Files, wanted: seq<Claim>, left: nat, cut: nat)
    requires SlotTable(wanted) && Apart(start, Temps(wanted))
    ensures Between(start, WriteClaims(start, Unclaimed(start, wanted), left, cut).files, wanted)
  {
    UnclaimedIs(start, wanted);
    WriteBetween(start, start, wanted, Unclaimed(start, wanted), left, cut);
  }

  /** Running the demo program again after its own crash, however far it had got and whatever it left
      behind, reaches the register an uninterrupted run would have left. */
  lemma DemoRerunConverges(files: Files, wanted: seq<Claim>, taken: set<int>, left: nat, cut: nat)
    requires SlotTable(wanted)
    ensures DemoDone(DemoRun(files, wanted, taken, left, cut).files, wanted, taken) == DemoDone(files, wanted, taken)
  {
    var start := files - Temps(wanted);
    var cleared := ClearStale(files, wanted, left);
    ClearStaleIs(files, wanted, left);
    if cleared.Running? && !DemoRefuses(start, wanted, taken) {
      WritingIsBetween(start, wanted, cleared.left, cut);
      PartlyDone(start, WriteClaims(start, Unclaimed(start, wanted), cleared.left, cut).files, wanted, taken);
    }
  }

  /** An uninterrupted run leaves exactly that register. */
  lemma DemoCompletes(files: Files, wanted: seq<Claim>, taken: set<int>, left: nat, cut: nat)
    requires SlotTable(wanted) && left >= 4 * |wanted|
    ensures DemoRun(files, wanted, taken, left, cut).Running?
    ensures DemoRun(files, wanted, taken, left, cut).files == DemoDone(files, wanted, taken)
  {
    var start := files - Temps(wanted);
    ClearStaleIs(files, wanted, left);
    var cleared := ClearStale(files, wanted, left);
    if !OutOfRange(wanted) && !DemoRefuses(start, wanted, taken) {
      var todo := Unclaimed(start, wanted);
      UnclaimedIs(start, wanted);
      FewerUnclaimed(start, wanted);
      WriteBetween(start, start, wanted, todo, cleared.left, cut);
      WriteCompletes(start, wanted, todo, cleared.left, cut);
      AllWritten(start, WriteClaims(start, todo, cleared.left, cut).files, wanted);
    }
  }

  lemma AllWritten(start: Files, files: Files, wanted: seq<Claim>)
    requires Between(start, files, wanted) && Apart(files, Temps(wanted)) && forall c | c in wanted :: c.slug in files
    ensures files == Filled(start, wanted)
  {
    var filled := Filled(start, wanted);
    forall n ensures n in files <==> n in filled {
    }
  }

  lemma {:induction false} FewerUnclaimed(files: Files, wanted: seq<Claim>)
    ensures |Unclaimed(files, wanted)| <= |wanted|
    decreases |wanted|
  {
    if wanted != [] {
      FewerUnclaimed(files, wanted[1..]);
    }
  }

  // ---- when each program goes ahead -------------------------------------------

  /** A tenant's slug: up to 26 lower-case letters, digits and hyphens, a letter first, no hyphen last, and not
      the name of a stack that is no tenant's. */
  predicate SlugText(slug: string, reserved: set<string>) {
    && 1 <= |slug| <= 26 && 'a' <= slug[0] <= 'z' && slug[|slug| - 1] != '-' && slug !in reserved
    && forall i | 0 <= i < |slug| :: 'a' <= slug[i] <= 'z' || '0' <= slug[i] <= '9' || slug[i] == '-'
  }

  /** The register entry of that name is that slug's claim on that uid. */
  predicate ClaimFile(files: Files, slug: string, uid: int) {
    slug in files && Parse(files[slug]) == Some(Claim(slug, uid))
  }

  lemma ClaimFileIff(files: Files, slug: string, uid: int)
    ensures ClaimFile(files, slug, uid) <==> slug in Claims(files) && Claims(files)[slug] == uid
  {
  }

  /** A tenant run that goes ahead makes the volumes that are missing in this order, then writes the claim;
      left to its end it has made all three, and the claim stands in full. */
  lemma TenantCompletes(w: World, c: Claim, reserved: set<string>, left: nat, cut: nat)
    requires !TenantRefuses(w, c, reserved)
    ensures var after := TenantRun(w, c, reserved, left, cut);
      var content, adapters, metrics :=
        "ghost-" + c.slug + "-content", "ghost-" + c.slug + "-adapters", "ghost-" + c.slug + "-metrics";
      && w.volumes <= after.volumes <= w.volumes + {content, adapters, metrics}
      && (adapters in after.volumes - w.volumes ==> content in after.volumes)
      && (metrics in after.volumes - w.volumes ==> adapters in after.volumes)
      && (after.files != w.files ==> {content, adapters, metrics} <= after.volumes)
      && (left >= 5 ==> after == World(w.files[c.slug := Render(c)], w.volumes + {content, adapters, metrics}))
  {
    VolumesApart("ghost-" + c.slug);
    ThreeMade(w.volumes, "ghost-" + c.slug + "-content", "ghost-" + c.slug + "-adapters",
              "ghost-" + c.slug + "-metrics", left);
  }

  lemma VolumesApart(head: string)
    ensures head + "-content" != head + "-adapters" && head + "-content" != head + "-metrics"
    ensures head + "-adapters" != head + "-metrics"
  {
    assert (head + "-content")[|head| + 1] == 'c' && (head + "-metrics")[|head| + 1] == 'm';
  }

  lemma ThreeMade(volumes: set<string>, a: string, b: string, c: string, left: nat)
    requires a != b && a != c && b != c
    ensures var (made, after) := CreateVolumes(volumes, [a, b, c], left);
      && volumes <= made <= volumes + {a, b, c}
      && (b in made - volumes ==> a in made) && (c in made - volumes ==> b in made)
      && (after >= 0 ==> made == volumes + {a, b, c}) && (left >= 3 ==> after >= left - 3)
  {
    CreateNext(volumes, a, [b, c], left);
    if a in volumes {
      TwoMade(volumes, b, c, left);
    } else if left > 0 {
      TwoMade(volumes + {a}, b, c, left - 1);
    }
  }

  lemma TwoMade(volumes: set<string>, b: string, c: string, left: nat)
    requires b != c
    ensures var (made, after) := CreateVolumes(volumes, [b, c], left);
      && volumes <= made <= volumes + {b, c} && (c in made - volumes ==> b in made)
      && (after >= 0 ==> made == volumes + {b, c}) && (left >= 2 ==> after >= left - 2)
  {
    CreateNext(volumes, b, [c], left);
    if b in volumes {
      CreateNext(volumes, c, [], left);
    } else if left > 0 {
      CreateNext(volumes + {b}, c, [], left - 1);
    }
  }

  lemma CreateNext(volumes: set<string>, name: string, rest: seq<string>, left: nat)
    ensures CreateVolumes(volumes, [name] + rest, left)
      == if name in volumes then CreateVolumes(volumes, rest, left)
         else if left == 0 then (volumes, -1) else CreateVolumes(volumes + {name}, rest, left - 1)
    ensures [name] + [] == [name] && forall x :: [name] + [x] == [name, x]
    ensures forall x, y :: [name] + [x, y] == [name, x, y]
  {
    assert ([name] + rest)[1..] == rest;
  }

  /** A tenant run goes ahead exactly when the slug and the uid are a tenant's, every entry of the register is
      some slug's claim, every content volume's slug has one, the uid is nobody else's, and the tenant holds no
      other. A volume named by the two ends of such a name alone, overlapping, counts as one with no slug. */
  lemma TenantGoesIff(w: World, c: Claim, reserved: set<string>)
    ensures !TenantRefuses(w, c, reserved) <==>
      && SlugText(c.slug, reserved) && 30000 <= c.uid <= 30999
      && (forall n | n in w.files :: exists uid :: ClaimFile(w.files, n, uid))
      && (forall slug | ContentVolume(slug) in w.volumes :: slug in w.files)
      && ("ghost-content" in w.volumes ==> "" in w.files)
      && (forall n, uid | ClaimFile(w.files, n, uid) :: n == c.slug <==> uid == c.uid)
  {
    SlugTextIff(c.slug, reserved);
    forall n, uid { ClaimFileIff(w.files, n, uid); }
    LegibleIff(w.files);
    if Legible(w.files) {
      OrphanedIff(w);
      AvailableIff(w.files, c);
    }
  }

  lemma SlugTextIff(slug: string, reserved: set<string>)
    ensures ValidSlug(slug, reserved) <==> SlugText(slug, reserved)
  {
    assert forall i | 0 <= i < |slug| :: slug[i] in slug;
  }

  lemma LegibleIff(files: Files)
    ensures Legible(files) <==> forall n | n in files :: exists uid :: ClaimFile(files, n, uid)
  {
    if Legible(files) {
      forall n | n in files ensures exists uid :: ClaimFile(files, n, uid) {
        ClaimFileIff(files, n, Claims(files)[n]);
      }
    }
    forall n, uid | ClaimFile(files, n, uid) ensures Reads(n, files[n]) == Some(uid) {
    }
  }

  lemma OrphanedIff(w: World)
    requires Legible(w.files)
    ensures Orphaned(w) <==>
      (exists slug :: ContentVolume(slug) in w.volumes && slug !in w.files)
      || ("ghost-content" in w.volumes && "" !in w.files)
  {
    forall slug ensures IsContentVolume(ContentVolume(slug)) && SlugOfVolume(ContentVolume(slug)) == slug {
      VolumeNamesSlug(slug);
    }
    NoSlug("ghost-content");
    if v :| v in w.volumes && IsContentVolume(v) && SlugOfVolume(v) !in Claims(w.files) {
      VolumeIsNamed(v);
    }
  }

  lemma NoSlug(v: string)
    requires v == "ghost-content"
    ensures IsContentVolume(v) && SlugOfVolume(v) == ""
  {
    assert v[..6] == "ghost-" && v[|v| - 8..] == "-content";
  }

  lemma VolumeIsNamed(v: string)
    requires IsContentVolume(v)
    ensures |v| >= 14 ==> v == ContentVolume(SlugOfVolume(v))
    ensures |v| < 14 ==> v == "ghost-content"
  {
    if |v| >= 14 {
      assert v == v[..6] + v[6..|v| - 8] + v[|v| - 8..];
    } else {
      Overlap(v, "ghost-", "-content");
    }
  }

  /** The two ends of a content volume's name can overlap in their hyphen alone. */
  lemma Overlap(v: string, head: string, tail: string)
    requires head == "ghost-" && tail == "-content" && StartsWith(v, head) && EndsWith(v, tail) && |v| < 14
    ensures v == "ghost-content"
  {
    var at := |v| - 8;
    assert forall i | 0 <= i < 6 :: v[i] == head[i];
    assert forall i | 0 <= i < 8 :: v[at + i] == tail[i];
    assert v[at] == '-' && forall i | 0 <= i < 5 :: v[i] != '-';
    assert at == 5;
    assert v == v[..5] + v[5..] && v[..5] == "ghost" && v[5..] == tail;
  }

  lemma AvailableIff(files: Files, c: Claim)
    requires Legible(files)
    ensures !Unavailable(c, Claims(files)) <==>
      forall n, uid | ClaimFile(files, n, uid) :: n == c.slug <==> uid == c.uid
  {
    forall n, uid { ClaimFileIff(files, n, uid); }
    if forall n, uid | ClaimFile(files, n, uid) :: n == c.slug <==> uid == c.uid {
      forall n | n in Claims(files) ensures n == c.slug <==> Claims(files)[n] == c.uid {
        assert ClaimFile(files, n, Claims(files)[n]);
      }
    }
  }

  /** Where nothing stands against it -- every entry a claim, each wanted uid in range, its own if already
      claimed, else nobody's and no account's -- an uninterrupted demo run ends with every wanted claim on file. */
  lemma DemoSucceeds(files: Files, wanted: seq<Claim>, taken: set<int>, left: nat, cut: nat, c: Claim)
    requires SlotTable(wanted) && left >= 4 * |wanted| && c in wanted
    requires var start := files - Temps(wanted);
      && (forall n | n in start :: exists uid :: ClaimFile(start, n, uid))
      && (forall d | d in wanted ::
            && 30000 <= d.uid <= 30999 && (d.slug !in start ==> d.uid !in taken)
            && forall n, uid | ClaimFile(start, n, uid) :: n == d.slug <==> uid == d.uid)
    ensures ClaimFile(DemoRun(files, wanted, taken, left, cut).files, c.slug, c.uid)
  {
    var start := files - Temps(wanted);
    LegibleIff(start);
    forall n, uid { ClaimFileIff(start, n, uid); }
    forall d | d in wanted ensures !Conflicts(d, Claims(start), taken) {
      AvailableIff(start, d);
      assert !Unavailable(d, Claims(start));
    }
    DemoCompletes(files, wanted, taken, left, cut);
    var filled := Filled(start, wanted);
    assert DemoRun(files, wanted, taken, left, cut).files == filled && c.slug in Slugs(wanted);
    if c.slug in start {
      assert ClaimFile(start, c.slug, Claims(start)[c.slug]);
    } else {
      TextForIs(wanted, c);
      ClaimRoundTrip(c);
    }
  }

  // ---- accounts the host already has -------------------------------------------

  /** A run that would otherwise go through is refused exactly when a claim it would newly make has the uid of
      an account the host already has; a claim already on file is not looked at again. */
  lemma AccountRefusesIff(files: Files, wanted: seq<Claim>, taken: set<int>)
    requires !DemoRefuses(files, wanted, {})
    ensures DemoRefuses(files, wanted, taken) <==> exists c | c in wanted :: c.slug !in files && c.uid in taken
  {
    assert forall n :: n in Claims(files) <==> n in files;
    forall c | c in wanted ensures Conflicts(c, Claims(files), taken) <==> c.slug !in files && c.uid in taken {
      assert !Conflicts(c, Claims(files), {});
    }
  }

  /** So no claim the demo program makes has the uid of such an account, wherever the run stops. */
  lemma NoAccountClaimed(files: Files, wanted: seq<Claim>, taken: set<int>, left: nat, cut: nat, c: Claim)
    requires SlotTable(wanted) && c in wanted && c.slug !in files
    requires c.slug in DemoRun(files, wanted, taken, left, cut).files
    ensures c.uid !in taken
  {
    var cleared := ClearStale(files, wanted, left);
    ClearStaleIs(files, wanted, left);
    NotATemp(c.slug, wanted);
    assert c.slug !in cleared.files - Temps(wanted) && c.slug !in cleared.files;
    assert !OutOfRange(wanted) && cleared.Running? && !DemoRefuses(cleared.files, wanted, taken);
    assert !Conflicts(c, Claims(cleared.files), taken);
  }

  // ---- the two programs --------------------------------------------------------

  class Host {
    var files: Files
    var volumes: set<string>

    /** The names `os.listdir` gives, in some order. */
    method ListDir() returns (names: seq<string>)
      ensures forall n :: n in names <==> n in files
    {
      names := [];
      var rest := files.Keys;
      while rest != {}
        invariant rest <= files.Keys && forall n :: n in names <==> n in files.Keys - rest
        decreases rest
      {
        var n :| n in rest;
        names, rest := names + [n], rest - {n};
      }
    }

    /** The unlinking loop: true if the run got past it. */
    method ClearTemps(wanted: seq<Claim>, budget: nat) returns (alive: bool, left: nat)
      modifies this`files
      ensures ClearStale(old(files), wanted, budget) == if alive then Running(files, left) else Crashed(files)
    {
      left := budget;
      var i := 0;
      while i < |wanted|
        invariant 0 <= i <= |wanted|
        invariant ClearStale(old(files), wanted, budget) == ClearStale(files, wanted[i..], left)
      {
        var tmp := TempName(wanted[i].slug);
        assert wanted[i..][1..] == wanted[i + 1..];
        if tmp in files {
          if left == 0 {
            return false, left;
          }
          files := files - {tmp};
          left := left - 1;
        }
        i := i + 1;
      }
      return true, left;
    }

    /** The writing loop: each claim is created under its temporary name, written, and renamed. */
    method WriteNew(todo: seq<Claim>, budget: nat, cut: nat) returns (alive: bool)
      modifies this`files
      ensures files == WriteClaims(old(files), todo, budget, cut).files
      ensures alive <==> WriteClaims(old(files), todo, budget, cut).Running?
    {
      var left := budget;
      var i := 0;
      while i < |todo|
        invariant 0 <= i <= |todo|
        invariant WriteClaims(old(files), todo, budget, cut) == WriteClaims(files, todo[i..], left, cut)
      {
        var tmp, text := TempName(todo[i].slug), Render(todo[i]);
        assert todo[i..][1..] == todo[i + 1..];
        if left == 0 {
          return false;
        }
        if left == 1 {
          files := files[tmp := CutAt(text, cut)];
          return false;
        }
        if left == 2 {
          files := files[tmp := text];
          return false;
        }
        files := (files - {tmp})[todo[i].slug := text];
        left := left - 3;
        i := i + 1;
      }
      return true;
    }

    /** The conflict loops: the claims still to be written, or nothing if one is refused. */
    method CheckAll(wanted: seq<Claim>, claims: map<string, int>, taken: set<int>) returns (todo: Option<seq<Claim>>)
      ensures todo == if AnyConflict(wanted, claims, taken) then None else Some(Unclaimed(files, wanted))
    {
      var unclaimed := [];
      for i := 0 to |wanted|
        invariant forall j | 0 <= j < i :: !Conflicts(wanted[j], claims, taken)
        invariant unclaimed + Unclaimed(files, wanted[i..]) == Unclaimed(files, wanted)
      {
        if Conflicts(wanted[i], claims, taken) {
          assert wanted[i] in wanted;
          return None;
        }
        assert wanted[i..][1..] == wanted[i + 1..];
        if wanted[i].slug !in files {
          unclaimed := unclaimed + [wanted[i]];
        }
      }
      assert wanted[|wanted|..] == [] && unclaimed + [] == unclaimed;
      assert forall c | c in wanted :: !Conflicts(c, claims, taken);
      return Some(unclaimed);
    }

    method AllInRange(wanted: seq<Claim>) returns (ok: bool)
      ensures ok <==> !OutOfRange(wanted)
    {
      for i := 0 to |wanted|
        invariant forall j | 0 <= j < i :: InRange(wanted[j].uid)
      {
        if !InRange(wanted[i].uid) {
          assert wanted[i] in wanted;
          return false;
        }
      }
      return true;
    }

    /** `record_demo_claims`, crashing after `budget` effects if it has that many. */
    method RecordDemoClaims(wanted: seq<Claim>, taken: set<int>, budget: nat, cut: nat)
      modifies this`files
      ensures files == DemoRun(old(files), wanted, taken, budget, cut).files
    {
      var ok := AllInRange(wanted);
      if !ok {
        return;
      }
      var alive, left := ClearTemps(wanted, budget);
      if !alive {
        return;
      }
      var names := ListDir();
      var claims := ReadRegister(files, names);
      if claims.None? {
        return;
      }
      var todo := CheckAll(wanted, claims.value, taken);
      if todo.Some? {
        alive := WriteNew(todo.value, left, cut);
      }
    }

    /** `provision_tenant_volumes` up to its claim, crashing after `budget` effects. */
    method ProvisionTenant(c: Claim, reserved: set<string>, budget: nat, cut: nat)
      modifies this
      ensures World(files, volumes) == TenantRun(World(old(files), old(volumes)), c, reserved, budget, cut)
    {
      if TenantRefuses(World(files, volumes), c, reserved) {
        return;
      }
      var names, left: int := VolumesOf(c.slug), budget;
      var i := 0;
      while i < |names|
        invariant 0 <= i <= |names| && left >= 0 && files == old(files)
        invariant CreateVolumes(old(volumes), names, budget) == CreateVolumes(volumes, names[i..], left)
      {
        assert names[i..][1..] == names[i + 1..];
        if names[i] !in volumes {
          if left == 0 {
            return;
          }
          volumes := volumes + {names[i]};
          left := left - 1;
        }
        i := i + 1;
      }
      if left == 0 {
        return;
      }
      files := files[c.slug := if left == 1 then CutAt(Render(c), cut) else Render(c)];
    }
  }
}
