/**
 The rollback unit and the replacements an operator configuration gives rise to, and
 the part of layout validation that makes backup a function of the swap target.
 */
module CutoverLayout {
  import opened Wrappers
  import opened Text
  import opened Sorting
  import C = CutoverJournal

  type Path = C.Path
  type Ident = C.Ident

  datatype Pair = Pair(name: string, live: Path, staged: Path)

  datatype Seat = Seat(root: Path, managed: seq<string>)

  datatype Launcher = Launcher(liveProfile: Path, stagedProfile: Path, liveScript: Path, stagedScript: Path)

  datatype Layout = Layout(
    launcher: Launcher, jwksLive: Path, jwksStaged: Path,
    credentials: seq<Pair>, doors: seq<Pair>, configFiles: seq<Pair>, seats: seq<Seat>,
    extra: seq<(Ident, Path)>, stagedSeatRoot: Path)

  const SWAP_LAUNCHER := "swap-launcher"
  const SWAP_JWKS := "swap-jwks"
  const SWAP_CREDENTIALS := "swap-credentials"
  const SWAP_CONFIGS := "swap-configs"
  const SWAP_SEATS := "swap-seats"

  const PLAN: seq<C.Step> := [SWAP_LAUNCHER, SWAP_JWKS, SWAP_CREDENTIALS, SWAP_CONFIGS, SWAP_SEATS]

  function Digit(n: nat): char
    requires n < 10
  {
    "0123456789"[n]
  }

  function Decimal(n: nat): string {
    if n < 10 then [Digit(n)] else Decimal(n / 10) + [Digit(n % 10)]
  }

  /** A seat's index, zero-padded to two digits. */
  function TwoDigits(n: nat): string {
    if n < 10 then "0" + Decimal(n) else Decimal(n)
  }

  // ----- The rollback unit -----

  function PairUnit(prefix: string, suffix: string, ps: seq<Pair>): seq<(Ident, Path)> {
    if ps == [] then [] else [(prefix + ps[0].name + suffix, ps[0].live)] + PairUnit(prefix, suffix, ps[1..])
  }

  function SeatUnit(index: nat, seat: Seat, managed: seq<string>): seq<(Ident, Path)> {
    if managed == [] then []
    else
      [("seats/" + TwoDigits(index) + "/" + managed[0], seat.root + "/" + managed[0])]
      + SeatUnit(index, seat, managed[1..])
  }

  function SeatsUnit(index: nat, seats: seq<Seat>): seq<(Ident, Path)>
    decreases seats
  {
    if seats == [] then [] else SeatUnit(index, seats[0], seats[0].managed) + SeatsUnit(index + 1, seats[1..])
  }

  function FixedUnit(l: Layout): seq<(Ident, Path)> {
    [("launcher/profile.env", l.launcher.liveProfile), ("launcher/launch-central.sh", l.launcher.liveScript),
     ("jwks/jwks.json", l.jwksLive)]
  }

  function RollbackUnit(l: Layout): seq<(Ident, Path)> {
    FixedUnit(l)
    + PairUnit("credentials/", ".jwt", l.credentials)
    + PairUnit("doors/", ".door", l.doors)
    + PairUnit("configs/", "", l.configFiles)
    + SeatsUnit(0, l.seats)
    + l.extra
  }

  // ----- The replacements -----

  function PairSwaps(step: C.Step, prefix: string, suffix: string, ps: seq<Pair>): seq<C.Swap> {
    if ps == [] then []
    else
      [C.Swap(step, prefix + ps[0].name + suffix, ps[0].live, ps[0].staged)]
      + PairSwaps(step, prefix, suffix, ps[1..])
  }

  function SeatSwaps(root: Path, index: nat, seat: Seat, managed: seq<string>): seq<C.Swap> {
    if managed == [] then []
    else
      [C.Swap(SWAP_SEATS, "seats/" + TwoDigits(index) + "/" + managed[0], seat.root + "/" + managed[0],
              root + "/" + TwoDigits(index) + "/" + managed[0])]
      + SeatSwaps(root, index, seat, managed[1..])
  }

  function SeatsSwaps(root: Path, index: nat, seats: seq<Seat>): seq<C.Swap>
    decreases seats
  {
    if seats == [] then []
    else SeatSwaps(root, index, seats[0], seats[0].managed) + SeatsSwaps(root, index + 1, seats[1..])
  }

  function FixedSwaps(l: Layout): seq<C.Swap> {
    [C.Swap(SWAP_LAUNCHER, "launcher/profile.env", l.launcher.liveProfile, l.launcher.stagedProfile),
     C.Swap(SWAP_LAUNCHER, "launcher/launch-central.sh", l.launcher.liveScript, l.launcher.stagedScript),
     C.Swap(SWAP_JWKS, "jwks/jwks.json", l.jwksLive, l.jwksStaged)]
  }

  function Swaps(l: Layout): seq<C.Swap> {
    FixedSwaps(l)
    + PairSwaps(SWAP_CREDENTIALS, "credentials/", ".jwt", l.credentials)
    + PairSwaps(SWAP_CREDENTIALS, "doors/", ".door", l.doors)
    + PairSwaps(SWAP_CONFIGS, "configs/", "", l.configFiles)
    + SeatsSwaps(l.stagedSeatRoot, 0, l.seats)
  }

  /** Identifier and live path of each swap. */
  function Members(swaps: seq<C.Swap>): (r: seq<(Ident, Path)>)
    ensures |r| == |swaps|
    ensures forall i :: 0 <= i < |r| ==> r[i] == (swaps[i].id, swaps[i].live)
  {
    if swaps == [] then [] else [(swaps[0].id, swaps[0].live)] + Members(swaps[1..])
  }

  lemma {:induction false} MembersConcat(a: seq<C.Swap>, b: seq<C.Swap>)
    ensures Members(a + b) == Members(a) + Members(b)
  {
    var l, r := Members(a + b), Members(a) + Members(b);
    assert forall i :: 0 <= i < |l| ==> l[i] == r[i];
  }

  lemma {:induction false} PairMembers(step: C.Step, prefix: string, suffix: string, ps: seq<Pair>)
    ensures Members(PairSwaps(step, prefix, suffix, ps)) == PairUnit(prefix, suffix, ps)
    ensures forall sw :: sw in PairSwaps(step, prefix, suffix, ps) ==> sw.step == step
  {
    if ps != [] {
      PairMembers(step, prefix, suffix, ps[1..]);
      MembersConcat([C.Swap(step, prefix + ps[0].name + suffix, ps[0].live, ps[0].staged)],
        PairSwaps(step, prefix, suffix, ps[1..]));
    }
  }

  lemma {:induction false} SeatMembers(root: Path, index: nat, seat: Seat, managed: seq<string>)
    ensures Members(SeatSwaps(root, index, seat, managed)) == SeatUnit(index, seat, managed)
    ensures forall sw :: sw in SeatSwaps(root, index, seat, managed) ==> sw.step == SWAP_SEATS
  {
    if managed != [] { SeatMembers(root, index, seat, managed[1..]); }
  }

  lemma {:induction false} SeatsMembers(root: Path, index: nat, seats: seq<Seat>)
    ensures Members(SeatsSwaps(root, index, seats)) == SeatsUnit(index, seats)
    ensures forall sw :: sw in SeatsSwaps(root, index, seats) ==> sw.step == SWAP_SEATS
    decreases seats
  {
    if seats != [] {
      SeatMembers(root, index, seats[0], seats[0].managed);
      SeatsMembers(root, index + 1, seats[1..]);
      MembersConcat(SeatSwaps(root, index, seats[0], seats[0].managed), SeatsSwaps(root, index + 1, seats[1..]));
    }
  }

  lemma PlanSteps()
    ensures SWAP_LAUNCHER in PLAN && SWAP_JWKS in PLAN && SWAP_CREDENTIALS in PLAN && SWAP_CONFIGS in PLAN
      && SWAP_SEATS in PLAN
    ensures Distinct(PLAN)
  {
    assert PLAN[0] == SWAP_LAUNCHER && PLAN[1] == SWAP_JWKS && PLAN[2] == SWAP_CREDENTIALS
      && PLAN[3] == SWAP_CONFIGS && PLAN[4] == SWAP_SEATS;
    assert |PLAN[0]| == 13 && |PLAN[1]| == 9 && |PLAN[2]| == 16 && |PLAN[3]| == 12 && |PLAN[4]| == 10;
  }

  lemma FixedMembers(l: Layout)
    ensures Members(FixedSwaps(l)) == FixedUnit(l)
    ensures forall sw :: sw in FixedSwaps(l) ==> sw.step == SWAP_LAUNCHER || sw.step == SWAP_JWKS
  {
  }

  /**
   Every swap target is backed up, under the swap's own identifier and in the same order; only the extra paths are
   not swapped.
   */
  lemma UnitIsSwapsAndExtra(l: Layout)
    ensures RollbackUnit(l) == Members(Swaps(l)) + l.extra
    ensures forall sw :: sw in Swaps(l) ==> sw.step in PLAN
  {
    hide FixedUnit, FixedSwaps, PairUnit, PairSwaps, SeatsUnit, SeatsSwaps, Members, PLAN;
    var a := FixedSwaps(l);
    FixedMembers(l);
    PlanSteps();
    var b := PairSwaps(SWAP_CREDENTIALS, "credentials/", ".jwt", l.credentials);
    var c := PairSwaps(SWAP_CREDENTIALS, "doors/", ".door", l.doors);
    var d := PairSwaps(SWAP_CONFIGS, "configs/", "", l.configFiles);
    var e := SeatsSwaps(l.stagedSeatRoot, 0, l.seats);
    PairMembers(SWAP_CREDENTIALS, "credentials/", ".jwt", l.credentials);
    PairMembers(SWAP_CREDENTIALS, "doors/", ".door", l.doors);
    PairMembers(SWAP_CONFIGS, "configs/", "", l.configFiles);
    SeatsMembers(l.stagedSeatRoot, 0, l.seats);
    MembersConcat(a, b);
    MembersConcat(a + b, c);
    MembersConcat(a + b + c, d);
    MembersConcat(a + b + c + d, e);
    forall sw | sw in Swaps(l) ensures sw.step in PLAN {
      assert sw in a || sw in b || sw in c || sw in d || sw in e;
    }
  }

  // ----- Identifier collisions -----

  /** Empty and `.` parts vanish when a path is read. */
  function RealParts(parts: seq<string>): seq<string> {
    if parts == [] then []
    else (if parts[0] == "" || parts[0] == "." then [] else [parts[0]]) + RealParts(parts[1..])
  }

  /** One safe relative identifier in canonical form, or nothing. */
  function Normalize(raw: Ident): Option<Ident> {
    var text := Strip(IsSpace, raw);
    if text == "" || '\\' in text || text[0] == '/' then None
    else
      var parts := RealParts(Split(text, '/'));
      if ".." in parts then None
      else if parts == [] then Some(".") else Some(Join(parts, '/'))
  }

  ghost predicate CollisionFree(ids: seq<Ident>) {
    && Distinct(ids)
    && forall a, b :: a in ids && b in ids ==> !PartsPrefix(a, b, '/')
  }

  ghost predicate ClearAfter(s: seq<Ident>, i: nat, n: nat)
    requires i < |s| && n <= |s|
  {
    forall q :: i < q < n ==> s[i] != s[q] && !StartsWith(s[q], s[i] + "/")
  }

  lemma TextPrefix(a: Ident, b: Ident)
    ensures StartsWith(b, a + "/") <==> PartsPrefix(a, b, '/')
    ensures StartsWith(b, a + "/") ==> Leq(a, b) && a != b
  {
    assert a + "/" == a + ['/'];
    PrefixOfParts(a, b, '/');
    if StartsWith(b, a + "/") {
      assert b[..|a|] == (a + "/")[..|a|];
      PrefixLeq(a, b);
    }
  }

  /** In sorted order a path prefix always comes first, so looking ahead is enough. */
  lemma LookAheadIsEnough(s: seq<Ident>)
    requires Ascending(Leq, s)
    ensures CollisionFree(s) <==> forall p :: 0 <= p < |s| ==> ClearAfter(s, p, |s|)
  {
    hide Leq, StartsWith, PartsPrefix;
    if CollisionFree(s) {
      forall p | 0 <= p < |s| ensures ClearAfter(s, p, |s|) {
        forall q | p < q < |s| ensures s[p] != s[q] && !StartsWith(s[q], s[p] + "/") {
          TextPrefix(s[p], s[q]);
        }
      }
    }
    if forall p :: 0 <= p < |s| ==> ClearAfter(s, p, |s|) {
      forall i, j | 0 <= i < j < |s| ensures s[i] != s[j] { assert ClearAfter(s, i, |s|); }
      forall a, b | a in s && b in s ensures !PartsPrefix(a, b, '/') {
        var i :| 0 <= i < |s| && s[i] == a;
        var j :| 0 <= j < |s| && s[j] == b;
        TextPrefix(a, b);
        assert ClearAfter(s, i, |s|);
        if j < i && Leq(a, b) { LeqAntisymmetric(a, b); }
      }
    }
  }

  method ScanAfter(s: seq<Ident>, i: nat) returns (problems: nat)
    requires i < |s|
    ensures problems == 0 <==> ClearAfter(s, i, |s|)
  {
    problems := 0;
    for j := i + 1 to |s|
      invariant problems == 0 <==> ClearAfter(s, i, j)
    {
      if s[i] == s[j] || StartsWith(s[j], s[i] + "/") { problems := problems + 1; }
    }
  }

  /** The nested scan over the sorted identifiers finds a collision exactly when there is one. */
  method HasNoCollision(ids: seq<Ident>) returns (ok: bool)
    ensures ok <==> CollisionFree(ids)
  {
    hide Sort, CollisionFree, ClearAfter;
    var sorted := Sort(Leq, ids);
    SortedCollisions(ids);
    var problems := 0;
    for i := 0 to |sorted|
      invariant problems >= 0
      invariant problems == 0 <==> forall p :: 0 <= p < i ==> ClearAfter(sorted, p, |sorted|)
    {
      var found := ScanAfter(sorted, i);
      problems := problems + found;
    }
    ok := problems == 0;
  }

  lemma SortedCollisions(ids: seq<Ident>)
    ensures var s := Sort(Leq, ids);
      CollisionFree(ids) <==> forall p :: 0 <= p < |s| ==> ClearAfter(s, p, |s|)
  {
    hide Sort, Leq, PartsPrefix;
    var s := Sort(Leq, ids);
    LeqIsTotalOrder();
    SortAscending(Leq, ids);
    SortMembers(Leq, ids);
    SortDistinct(Leq, ids);
    LookAheadIsEnough(s);
  }

  function Normalized(unit: seq<(Ident, Path)>): (ids: seq<Ident>)
    requires forall i :: 0 <= i < |unit| ==> Normalize(unit[i].0).Some?
    ensures |ids| == |unit|
    ensures forall i :: 0 <= i < |ids| ==> ids[i] == Normalize(unit[i].0).value
  {
    if unit == [] then [] else [Normalize(unit[0].0).value] + Normalized(unit[1..])
  }

  predicate AllNormalize(unit: seq<(Ident, Path)>) {
    forall i :: 0 <= i < |unit| ==> Normalize(unit[i].0).Some?
  }

  ghost predicate Accepted(l: Layout) {
    && (forall i, j :: 0 <= i < j < |Swaps(l)| ==> Swaps(l)[i].live != Swaps(l)[j].live)
    && AllNormalize(RollbackUnit(l))
    && CollisionFree(Normalized(RollbackUnit(l)))
  }

  method LiveTargetsUnique(swaps: seq<C.Swap>) returns (ok: bool)
    ensures ok <==> forall p, q :: 0 <= p < q < |swaps| ==> swaps[p].live != swaps[q].live
  {
    var targets: set<Path> := {};
    ok := true;
    for i := 0 to |swaps|
      invariant forall p :: p in targets <==> exists k :: 0 <= k < i && swaps[k].live == p
      invariant ok <==> forall p, q :: 0 <= p < q < i ==> swaps[p].live != swaps[q].live
    {
      if swaps[i].live in targets { ok := false; }
      targets := targets + {swaps[i].live};
    }
  }

  method SafeIdentifiers(unit: seq<(Ident, Path)>) returns (unsafe: nat, ids: seq<Ident>)
    ensures unsafe == 0 <==> AllNormalize(unit)
    ensures unsafe == 0 ==> ids == Normalized(unit)
  {
    hide Normalize;
    unsafe, ids := 0, [];
    for i := 0 to |unit|
      invariant unsafe == 0 <==> AllNormalize(unit[..i])
      invariant unsafe == 0 ==> |ids| == i && forall k :: 0 <= k < i ==> ids[k] == Normalize(unit[k].0).value
    {
      assert unit[..i + 1] == unit[..i] + [unit[i]];
      var id := Normalize(unit[i].0);
      if id.None? { unsafe := unsafe + 1; } else { ids := ids + [id.value]; }
    }
    assert unit[..|unit|] == unit;
  }

  /** The uniqueness and collision checks of layout validation. */
  method ValidateLayout(l: Layout) returns (ok: bool)
    ensures ok <==> Accepted(l)
  {
    hide Swaps, RollbackUnit, CollisionFree;
    var unique := LiveTargetsUnique(Swaps(l));
    var unsafe, ids := SafeIdentifiers(RollbackUnit(l));
    var free := HasNoCollision(ids);
    ok := unique && unsafe == 0 && free;
  }

  function ConfigOf(l: Layout): C.Config {
    C.Config(PLAN, Swaps(l), seq(|RollbackUnit(l)|, i requires 0 <= i < |RollbackUnit(l)| => RollbackUnit(l)[i].0))
  }

  /** What cutover needs of its configuration is exactly what an accepted layout provides. */
  lemma AcceptedIsWellFormed(l: Layout)
    requires Accepted(l)
    ensures C.WellFormed(ConfigOf(l))
  {
    hide Swaps, RollbackUnit, PLAN, Members;
    var swaps, unit := Swaps(l), RollbackUnit(l);
    UnitIsSwapsAndExtra(l);
    PlanSteps();
    var ids := Normalized(unit);
    forall k | 0 <= k < |swaps| ensures k < |unit| && unit[k].0 == swaps[k].id && swaps[k].id != "" {
      assert Members(swaps)[k] == (swaps[k].id, swaps[k].live);
    }
    forall i, j | 0 <= i < j < |swaps| ensures swaps[i].id != swaps[j].id {
      assert ids[i] != ids[j];
    }
  }

  // ----- Where backup members lie -----

  /** Where the member of a normalized identifier lies below the backup root; `.` is the root itself. */
  function Place(id: Ident): seq<string> {
    RealParts(Split(id, '/'))
  }

  /** One place is the other, or lies above it. */
  predicate Meet(a: seq<string>, b: seq<string>) {
    a <= b || b <= a
  }

  predicate Real(part: string) {
    part != "" && part != "."
  }

  lemma {:induction false} RealPartsAre(parts: seq<string>)
    ensures forall p :: p in RealParts(parts) <==> p in parts && Real(p)
    ensures (forall p :: p in parts ==> Real(p)) ==> RealParts(parts) == parts
  {
    if parts != [] {
      RealPartsAre(parts[1..]);
      assert parts[0] in parts && [parts[0]] + parts[1..] == parts;
    }
  }

  /** A normalized identifier is its member's place written with slashes, the root's apart. */
  lemma NormalizedPlace(raw: Ident)
    requires Normalize(raw).Some?
    ensures var id := Normalize(raw).value;
      && (id == "." <==> Place(id) == [])
      && (id != "." ==> Place(id) == Split(id, '/'))
  {
    var parts := RealParts(Split(Strip(IsSpace, raw), '/'));
    RealPartsAre(Split(Strip(IsSpace, raw), '/'));
    SplitParts(Strip(IsSpace, raw), '/');
    SplitWhole(".", '/');
    if parts != [] {
      SplitJoin(parts, '/');
      RealPartsAre(parts);
      assert parts[0] in parts;
    }
  }

  /** Two members meet exactly when the textual scan finds a collision, or one of them is the backup root. */
  lemma MeetingMembers(a: Ident, b: Ident)
    requires Normalize(a).Some? && Normalize(b).Some?
    ensures var x, y := Normalize(a).value, Normalize(b).value;
      Meet(Place(x), Place(y)) <==>
        x == "." || y == "." || x == y || PartsPrefix(x, y, '/') || PartsPrefix(y, x, '/')
  {
    hide Normalize, Place, Split, Join;
    var x, y := Normalize(a).value, Normalize(b).value;
    NormalizedPlace(a);
    NormalizedPlace(b);
    JoinSplit(x, '/');
    JoinSplit(y, '/');
    var p, q := Split(x, '/'), Split(y, '/');
    assert p <= q <==> p == q || p < q;
    assert q <= p <==> p == q || q < p;
  }

  /** Every swap's identifier begins with a letter. */
  predicate Lettered(id: Ident) {
    id != "" && 'a' <= id[0] <= 'z'
  }

  lemma {:induction false} PairsLettered(step: C.Step, prefix: string, suffix: string, ps: seq<Pair>)
    requires Lettered(prefix)
    ensures forall sw :: sw in PairSwaps(step, prefix, suffix, ps) ==> Lettered(sw.id)
  {
    if ps != [] { PairsLettered(step, prefix, suffix, ps[1..]); }
  }

  lemma {:induction false} SeatLettered(root: Path, index: nat, seat: Seat, managed: seq<string>)
    ensures forall sw :: sw in SeatSwaps(root, index, seat, managed) ==> Lettered(sw.id)
  {
    if managed != [] { SeatLettered(root, index, seat, managed[1..]); }
  }

  lemma {:induction false} SeatsLettered(root: Path, index: nat, seats: seq<Seat>)
    ensures forall sw :: sw in SeatsSwaps(root, index, seats) ==> Lettered(sw.id)
    decreases seats
  {
    if seats != [] {
      SeatLettered(root, index, seats[0], seats[0].managed);
      SeatsLettered(root, index + 1, seats[1..]);
    }
  }

  lemma SwapsLettered(l: Layout)
    ensures forall sw :: sw in Swaps(l) ==> Lettered(sw.id)
  {
    hide PairSwaps, SeatsSwaps;
    PairsLettered(SWAP_CREDENTIALS, "credentials/", ".jwt", l.credentials);
    PairsLettered(SWAP_CREDENTIALS, "doors/", ".door", l.doors);
    PairsLettered(SWAP_CONFIGS, "configs/", "", l.configFiles);
    SeatsLettered(l.stagedSeatRoot, 0, l.seats);
    forall sw | sw in Swaps(l) ensures Lettered(sw.id) {
    }
  }

  lemma LetteredIsBelow(raw: Ident)
    requires Lettered(raw) && Normalize(raw).Some?
    ensures Normalize(raw).value != "."
  {
    StripRightKeepsHead(IsSpace, raw);
    var text := Strip(IsSpace, raw);
    assert StripLeft(IsSpace, raw) == raw && text[0] == raw[0];
    var parts := Split(text, '/');
    assert parts[0] != "" && parts[0][0] == text[0];
    RealPartsAre(parts);
    var kept := RealParts(parts);
    assert kept[0] == parts[0];
    assert Join(kept, '/')[0] == kept[0][0];
  }

  /**
   Each swap target has one backup member. Another one lies on, above or below it exactly when its identifier is
   that of the backup root, which the textual scan accepts.
   */
  lemma BackupIsAFunction(l: Layout, k: nat, m: nat)
    requires Accepted(l) && k < |Swaps(l)| && m < |RollbackUnit(l)| && m != k
    ensures k < |RollbackUnit(l)| && RollbackUnit(l)[k] == (Swaps(l)[k].id, Swaps(l)[k].live)
    ensures var own, other := Normalize(RollbackUnit(l)[k].0).value, Normalize(RollbackUnit(l)[m].0).value;
      && own != "."
      && (Meet(Place(own), Place(other)) <==> other == ".")
  {
    hide Swaps, RollbackUnit, Normalize, Members, Place, PartsPrefix;
    UnitIsSwapsAndExtra(l);
    var ids := Normalized(RollbackUnit(l));
    assert Members(Swaps(l))[k] == (Swaps(l)[k].id, Swaps(l)[k].live);
    assert ids[k] in ids && ids[m] in ids && ids[k] != ids[m];
    SwapsLettered(l);
    LetteredIsBelow(RollbackUnit(l)[k].0);
    MeetingMembers(RollbackUnit(l)[k].0, RollbackUnit(l)[m].0);
  }
}
