/**
 Copying the rollback unit. Members are copied in the unit's order, each to its place below the backup root,
 a directory with everything below it; what a later member writes replaces what an earlier one wrote.
 */
module CutoverBackup {
  import opened Wrappers
  import opened Text
  import opened CutoverLayout
  import opened CutoverActivation
  import C = CutoverJournal

  type Spot = seq<string>

  /** The files below the backup root; a spot above one of them is a directory. */
  type Tree = map<Spot, C.File>

  /** What a live path is: a regular file, or a directory with the regular files below it. */
  datatype Live = Regular(file: C.File) | Directory(files: seq<(Spot, C.File)>)

  /** A file cannot be written over a directory, nor below a file. */
  ghost predicate Blocked(tree: Tree, at: Spot) {
    at == [] || exists p :: p in tree && (p < at || at < p)
  }

  ghost function Written(tree: Tree, at: Spot, file: C.File): Option<Tree> {
    if Blocked(tree, at) then None else Some(tree[at := file])
  }

  /** The tree after the first `n` files of a directory have been written below `root`. */
  ghost function Spread(tree: Tree, root: Spot, files: seq<(Spot, C.File)>, n: nat): Option<Tree>
    requires n <= |files|
  {
    if n == 0 then Some(tree)
    else
      match Spread(tree, root, files, n - 1)
      case None => None
      case Some(before) => Written(before, root + files[n - 1].0, files[n - 1].1)
  }

  function SpotOf(raw: Ident): Spot {
    if Normalize(raw).Some? then Place(Normalize(raw).value) else []
  }

  ghost function CopiedMember(tree: Tree, member: (Ident, Path), live: map<Path, Live>): Option<Tree> {
    if member.1 !in live then None
    else
      match live[member.1]
      case Regular(file) => Written(tree, SpotOf(member.0), file)
      case Directory(files) => Spread(tree, SpotOf(member.0), files, |files|)
  }

  /** The tree after the first `n` members, when nothing stands in their way. */
  ghost function Copied(tree: Tree, unit: seq<(Ident, Path)>, live: map<Path, Live>, n: nat): Option<Tree>
    requires n <= |unit|
  {
    if n == 0 then Some(tree)
    else
      match Copied(tree, unit, live, n - 1)
      case None => None
      case Some(before) => CopiedMember(before, unit[n - 1], live)
  }

  class BackupRoot {
    var files: Tree

    constructor ()
      ensures files == map[]
    {
      files := map[];
    }

    method Write(at: Spot, file: C.File) returns (ok: bool)
      modifies this
      ensures ok <==> Written(old(files), at, file).Some?
      ensures ok ==> Written(old(files), at, file) == Some(files)
      ensures !ok ==> files == old(files)
    {
      if at == [] || exists p :: p in files && (p < at || at < p) { return false; }
      files := files[at := file];
      ok := true;
    }

    /** Copies the unit member by member, or stops at one that is missing or in another's way. */
    method CopyRollbackUnit(l: Layout, live: map<Path, Live>) returns (ok: bool)
      requires Accepted(l)
      modifies this
      ensures ok <==> Copied(old(files), RollbackUnit(l), live, |RollbackUnit(l)|).Some?
      ensures ok ==> Copied(old(files), RollbackUnit(l), live, |RollbackUnit(l)|) == Some(files)
    {
      hide RollbackUnit, Accepted, Written, SpotOf;
      var unit := RollbackUnit(l);
      for i := 0 to |unit|
        invariant Copied(old(files), unit, live, i) == Some(files)
      {
        var (identifier, path) := unit[i];
        if path !in live {
          NoMore(old(files), unit, live, i + 1, |unit|);
          return false;
        }
        match live[path] {
          case Regular(file) => ok := Write(SpotOf(identifier), file);
          case Directory(listing) => ok := CopyTree(SpotOf(identifier), listing);
        }
        if !ok {
          NoMore(old(files), unit, live, i + 1, |unit|);
          return;
        }
      }
      ok := true;
    }

    method CopyTree(root: Spot, listing: seq<(Spot, C.File)>) returns (ok: bool)
      modifies this
      ensures ok <==> Spread(old(files), root, listing, |listing|).Some?
      ensures ok ==> Spread(old(files), root, listing, |listing|) == Some(files)
    {
      hide Written;
      for i := 0 to |listing|
        invariant Spread(old(files), root, listing, i) == Some(files)
      {
        ok := Write(root + listing[i].0, listing[i].1);
        if !ok {
          NoFurther(old(files), root, listing, i + 1, |listing|);
          return;
        }
      }
      ok := true;
    }
  }

  lemma {:induction false} NoFurther(tree: Tree, root: Spot, files: seq<(Spot, C.File)>, k: nat, n: nat)
    requires k <= n <= |files| && Spread(tree, root, files, k).None?
    ensures Spread(tree, root, files, n).None?
    decreases n
  {
    if k < n { NoFurther(tree, root, files, k, n - 1); }
  }

  lemma {:induction false} NoMore(tree: Tree, unit: seq<(Ident, Path)>, live: map<Path, Live>, k: nat, n: nat)
    requires k <= n <= |unit| && Copied(tree, unit, live, k).None?
    ensures Copied(tree, unit, live, n).None?
    decreases n
  {
    hide CopiedMember;
    if k < n { NoMore(tree, unit, live, k, n - 1); }
  }

  // ----- What the copy holds for a swap target -----

  function At(tree: Tree, at: Spot): Option<C.File> {
    if at in tree then Some(tree[at]) else None
  }

  /** The file a directory copied below `root` has for `at`, if any. */
  function Given(root: Spot, files: seq<(Spot, C.File)>, at: Spot, n: nat): Option<C.File>
    requires n <= |files|
  {
    if n == 0 then None
    else if root + files[n - 1].0 == at then Some(files[n - 1].1)
    else Given(root, files, at, n - 1)
  }

  lemma {:induction false} SpreadAt(tree: Tree, root: Spot, files: seq<(Spot, C.File)>, n: nat, at: Spot)
    requires n <= |files| && Spread(tree, root, files, n).Some?
    ensures var given := Given(root, files, at, n);
      At(Spread(tree, root, files, n).value, at) == if given.Some? then given else At(tree, at)
  {
    if n > 0 { SpreadAt(tree, root, files, n - 1, at); }
  }

  lemma {:induction false} GivenBelow(root: Spot, files: seq<(Spot, C.File)>, at: Spot, n: nat)
    requires n <= |files| && Given(root, files, at, n).Some?
    ensures root <= at
  {
    if root + files[n - 1].0 != at { GivenBelow(root, files, at, n - 1); }
  }

  /** A member that lies apart from `at` does not touch it. */
  lemma MemberApart(tree: Tree, member: (Ident, Path), live: map<Path, Live>, at: Spot)
    requires CopiedMember(tree, member, live).Some? && !Meet(at, SpotOf(member.0))
    ensures At(CopiedMember(tree, member, live).value, at) == At(tree, at)
  {
    match live[member.1]
    case Regular(_) =>
    case Directory(files) =>
      SpreadAt(tree, SpotOf(member.0), files, |files|, at);
      if Given(SpotOf(member.0), files, at, |files|).Some? {
        GivenBelow(SpotOf(member.0), files, at, |files|);
      }
  }

  /** The member at the backup root itself can only be a directory. */
  lemma RootMember(tree: Tree, member: (Ident, Path), live: map<Path, Live>, at: Spot)
    requires CopiedMember(tree, member, live).Some? && SpotOf(member.0) == []
    ensures member.1 in live && live[member.1].Directory?
    ensures var given := Given([], live[member.1].files, at, |live[member.1].files|);
      At(CopiedMember(tree, member, live).value, at) == if given.Some? then given else At(tree, at)
  {
    if live[member.1].Directory? { SpreadAt(tree, [], live[member.1].files, |live[member.1].files|, at); }
  }

  /** What the root member among the first `n`, if there is one, has for `at`. */
  function FromRoot(unit: seq<(Ident, Path)>, live: map<Path, Live>, at: Spot, n: nat): Option<C.File>
    requires n <= |unit|
  {
    if n == 0 then None
    else
      var (id, path) := unit[n - 1];
      if SpotOf(id) == [] && path in live && live[path].Directory? then
        Given([], live[path].files, at, |live[path].files|)
      else FromRoot(unit, live, at, n - 1)
  }

  lemma UnitSpots(l: Layout, k: nat, m: nat)
    requires Accepted(l) && k < |Swaps(l)| && m < |RollbackUnit(l)|
    ensures k < |RollbackUnit(l)| && RollbackUnit(l)[k] == (Swaps(l)[k].id, Swaps(l)[k].live)
    ensures SpotOf(Swaps(l)[k].id) != []
    ensures m != k ==>
      (Meet(SpotOf(Swaps(l)[k].id), SpotOf(RollbackUnit(l)[m].0)) <==> SpotOf(RollbackUnit(l)[m].0) == [])
    ensures m <= k ==> SpotOf(RollbackUnit(l)[m].0) != []
  {
    hide Swaps, RollbackUnit, Normalize, Place, CollisionFree, Members;
    UnitIsSwapsAndExtra(l);
    assert Members(Swaps(l))[k] == (Swaps(l)[k].id, Swaps(l)[k].live);
    NormalizedPlace(RollbackUnit(l)[k].0);
    NormalizedPlace(RollbackUnit(l)[m].0);
    SwapsLettered(l);
    LetteredIsBelow(RollbackUnit(l)[k].0);
    if m != k { BackupIsAFunction(l, k, m); }
    if m <= k {
      assert Members(Swaps(l))[m] == (Swaps(l)[m].id, Swaps(l)[m].live);
      LetteredIsBelow(RollbackUnit(l)[m].0);
    }
  }

  /** No two members are at the backup root. */
  lemma OneRoot(l: Layout, m: nat, n: nat)
    requires Accepted(l) && m < n < |RollbackUnit(l)|
    ensures SpotOf(RollbackUnit(l)[m].0) != [] || SpotOf(RollbackUnit(l)[n].0) != []
  {
    hide RollbackUnit, Normalize, Place;
    var unit := RollbackUnit(l);
    NormalizedPlace(unit[m].0);
    NormalizedPlace(unit[n].0);
    assert Normalized(unit)[m] != Normalized(unit)[n];
  }

  /**
   From its own turn on a swap target's member holds the live file, until the root member's turn, which puts there
   what its directory has for that place.
   */
  lemma {:induction false} CopiedAt(l: Layout, live: map<Path, Live>, tree: Tree, k: nat, n: nat)
    requires Accepted(l) && k < |Swaps(l)| && k < n <= |RollbackUnit(l)|
    requires Copied(tree, RollbackUnit(l), live, n).Some?
    requires Swaps(l)[k].live in live && live[Swaps(l)[k].live].Regular?
    ensures var spot, from := SpotOf(Swaps(l)[k].id), FromRoot(RollbackUnit(l), live, SpotOf(Swaps(l)[k].id), n);
      At(Copied(tree, RollbackUnit(l), live, n).value, spot)
        == if from.Some? then from else Some(live[Swaps(l)[k].live].file)
    decreases n
  {
    hide Swaps, RollbackUnit, Accepted, CopiedMember, SpotOf;
    var unit, spot := RollbackUnit(l), SpotOf(Swaps(l)[k].id);
    UnitSpots(l, k, n - 1);
    var before := Copied(tree, unit, live, n - 1).value;
    if n - 1 == k {
      NoRootYet(l, live, k, n);
      OwnMember(before, unit[k], live);
    } else {
      CopiedAt(l, live, tree, k, n - 1);
      if SpotOf(unit[n - 1].0) == [] {
        RootMember(before, unit[n - 1], live, spot);
        RootOnce(l, live, spot, n - 1, n - 1);
      } else {
        MemberApart(before, unit[n - 1], live, spot);
      }
    }
  }

  lemma OwnMember(tree: Tree, member: (Ident, Path), live: map<Path, Live>)
    requires CopiedMember(tree, member, live).Some? && live[member.1].Regular?
    ensures At(CopiedMember(tree, member, live).value, SpotOf(member.0)) == Some(live[member.1].file)
  {
  }

  lemma {:induction false} NoRootYet(l: Layout, live: map<Path, Live>, k: nat, n: nat)
    requires Accepted(l) && k < |Swaps(l)| && n <= k + 1 && n <= |RollbackUnit(l)|
    ensures FromRoot(RollbackUnit(l), live, SpotOf(Swaps(l)[k].id), n).None?
  {
    hide Swaps, RollbackUnit, Accepted, SpotOf;
    if n > 0 {
      UnitSpots(l, k, n - 1);
      NoRootYet(l, live, k, n - 1);
    }
  }

  lemma {:induction false} RootOnce(l: Layout, live: map<Path, Live>, at: Spot, m: nat, n: nat)
    requires Accepted(l) && n <= m < |RollbackUnit(l)| && SpotOf(RollbackUnit(l)[m].0) == []
    ensures FromRoot(RollbackUnit(l), live, at, n).None?
  {
    hide RollbackUnit, Accepted, SpotOf;
    if n > 0 {
      OneRoot(l, n - 1, m);
      RootOnce(l, live, at, m, n - 1);
    }
  }

  // ----- Whether the copy is current -----

  /** The live files activation and rollback work on. */
  function LiveFiles(live: map<Path, Live>): C.Files {
    map p | p in live && live[p].Regular? :: live[p].file
  }

  /** The backup as activation and rollback read it, by identifier. */
  function BackupFiles(l: Layout, tree: Tree): C.Files {
    var ids := set sw | sw in Swaps(l) :: sw.id;
    map id | id in ids && SpotOf(id) in tree :: tree[SpotOf(id)]
  }

  /** The member at the backup root, if there is one, brings other bytes for the place of swap target `k`. */
  predicate Spoils(l: Layout, live: map<Path, Live>, k: nat)
    requires k < |Swaps(l)| && Swaps(l)[k].live in live && live[Swaps(l)[k].live].Regular?
  {
    var from := FromRoot(RollbackUnit(l), live, SpotOf(Swaps(l)[k].id), |RollbackUnit(l)|);
    from.Some? && from.value.bytes != live[Swaps(l)[k].live].file.bytes
  }

  /**
   A finished copy of an accepted layout, into any backup root, equals every swap target exactly when no member at the
   backup root itself brings other bytes for one of them.
   */
  lemma CopyIsCurrent(l: Layout, live: map<Path, Live>, tree: Tree)
    requires Accepted(l) && Copied(tree, RollbackUnit(l), live, |RollbackUnit(l)|).Some?
    requires forall k :: 0 <= k < |Swaps(l)| ==> Swaps(l)[k].live in live && live[Swaps(l)[k].live].Regular?
    ensures var backup := BackupFiles(l, Copied(tree, RollbackUnit(l), live, |RollbackUnit(l)|).value);
      AllRestored(ConfigOf(l), LiveFiles(live), backup) <==> forall k :: 0 <= k < |Swaps(l)| ==> !Spoils(l, live, k)
  {
    hide Swaps, RollbackUnit, Accepted, SpotOf, FromRoot, PLAN, Copied;
    var copy := Copied(tree, RollbackUnit(l), live, |RollbackUnit(l)|).value;
    var backup, swaps := BackupFiles(l, copy), Swaps(l);
    forall k | 0 <= k < |swaps|
      ensures C.Restored1(LiveFiles(live), backup, swaps[k]) <==> !Spoils(l, live, k)
    {
      SwapIsMember(l, k);
      CopiedAt(l, live, tree, k, |RollbackUnit(l)|);
      assert swaps[k] in swaps;
    }
    assert ConfigOf(l).swaps == swaps;
    if AllRestored(ConfigOf(l), LiveFiles(live), backup) {
      forall k | 0 <= k < |swaps| ensures !Spoils(l, live, k) {
        assert swaps[k] in swaps;
      }
    }
  }

  lemma SwapIsMember(l: Layout, k: nat)
    requires Accepted(l) && k < |Swaps(l)|
    ensures k < |RollbackUnit(l)|
  {
    UnitIsSwapsAndExtra(l);
  }

  // ----- A member at the backup root -----

  /** The same layout with one more extra path, to be backed up as `.`. */
  function WithRoot(l: Layout, path: Path): Layout {
    l.(extra := l.extra + [(".", path)])
  }

  lemma RootUnit(l: Layout, path: Path)
    ensures Swaps(WithRoot(l, path)) == Swaps(l)
    ensures RollbackUnit(WithRoot(l, path)) == RollbackUnit(l) + [(".", path)]
  {
    hide Members;
    UnitIsSwapsAndExtra(l);
    UnitIsSwapsAndExtra(WithRoot(l, path));
    assert Swaps(WithRoot(l, path)) == Swaps(l);
    assert Members(Swaps(l)) + (l.extra + [(".", path)]) == (Members(Swaps(l)) + l.extra) + [(".", path)];
  }

  lemma DotIsSafe()
    ensures Normalize(".") == Some(".") && SpotOf(".") == []
  {
    SplitWhole(".", '/');
    StripRightKeepsHead(IsSpace, ".");
    assert Strip(IsSpace, ".") == ".";
    assert RealParts(["."]) == [];
  }

  /** The textual scan accepts one member at the backup root on top of whatever it accepts. */
  lemma RootAccepted(l: Layout, path: Path)
    ensures Accepted(WithRoot(l, path)) <==>
      Accepted(l) && forall m :: 0 <= m < |RollbackUnit(l)| ==> Normalize(RollbackUnit(l)[m].0) != Some(".")
  {
    hide Swaps, RollbackUnit, Normalize, CollisionFree;
    RootUnit(l, path);
    DotIsSafe();
    var unit := RollbackUnit(l);
    var more := unit + [(".", path)];
    assert forall i :: 0 <= i < |unit| ==> more[i] == unit[i];
    assert AllNormalize(more) <==> AllNormalize(unit) by {
      assert more[|unit|] == (".", path);
    }
    if AllNormalize(unit) {
      var ids := Normalized(unit);
      assert Normalized(more) == ids + ["."];
      RootCollides(unit);
      assert "." in ids <==> exists m :: 0 <= m < |unit| && ids[m] == ".";
    }
  }

  lemma RootCollides(unit: seq<(Ident, Path)>)
    requires AllNormalize(unit)
    ensures CollisionFree(Normalized(unit) + ["."]) <==> CollisionFree(Normalized(unit)) && "." !in Normalized(unit)
  {
    hide Normalize;
    var ids := Normalized(unit);
    var more := ids + ["."];
    SplitWhole(".", '/');
    forall x | x in ids ensures !PartsPrefix(x, ".", '/') && !PartsPrefix(".", x, '/') {
      var i :| 0 <= i < |ids| && ids[i] == x;
      RootIsNoPrefix(unit[i].0);
    }
    forall i | 0 <= i < |ids| ensures ids[i] in more && more[i] == ids[i] { }
    assert more[|ids|] == ".";
    if CollisionFree(ids) && "." !in ids {
      forall i, j | 0 <= i < j < |more| ensures more[i] != more[j] { }
    }
    if CollisionFree(more) {
      forall i, j | 0 <= i < j < |ids| ensures ids[i] != ids[j] {
        assert more[i] != more[j];
      }
      forall i | 0 <= i < |ids| ensures ids[i] != "." { assert more[i] != more[|ids|]; }
    }
  }

  lemma RootIsNoPrefix(raw: Ident)
    requires Normalize(raw).Some?
    ensures var id := Normalize(raw).value; !PartsPrefix(id, ".", '/') && !PartsPrefix(".", id, '/')
  {
    hide Normalize;
    NormalizedPlace(raw);
    SplitWhole(".", '/');
    var parts := Split(Normalize(raw).value, '/');
    RealPartsAre(parts);
    assert parts[0] in parts;
  }

  /** No file lies below another. */
  ghost predicate PrefixFree(tree: Tree) {
    [] !in tree && forall p, q :: p in tree && q in tree ==> !(p < q)
  }

  lemma {:induction false} SpreadFree(tree: Tree, root: Spot, files: seq<(Spot, C.File)>, n: nat)
    requires n <= |files| && PrefixFree(tree) && Spread(tree, root, files, n).Some?
    ensures PrefixFree(Spread(tree, root, files, n).value)
  {
    if n > 0 { SpreadFree(tree, root, files, n - 1); }
  }

  lemma {:induction false} CopiedFree(tree: Tree, unit: seq<(Ident, Path)>, live: map<Path, Live>, n: nat)
    requires n <= |unit| && PrefixFree(tree) && Copied(tree, unit, live, n).Some?
    ensures PrefixFree(Copied(tree, unit, live, n).value)
  {
    hide SpotOf, Spread;
    if n > 0 {
      CopiedFree(tree, unit, live, n - 1);
      match live[unit[n - 1].1]
      case Regular(_) =>
      case Directory(files) =>
        SpreadFree(Copied(tree, unit, live, n - 1).value, SpotOf(unit[n - 1].0), files, |files|);
    }
  }

  /** One more member and one more live path change nothing about copying the members before. */
  lemma {:induction false} CopiedSame(tree: Tree, unit: seq<(Ident, Path)>, live: map<Path, Live>, n: nat,
                                      member: (Ident, Path), path: Path, dir: Live)
    requires n <= |unit| && path !in live && Copied(tree, unit, live, n).Some?
    ensures Copied(tree, unit + [member], live[path := dir], n) == Copied(tree, unit, live, n)
  {
    hide SpotOf, Spread, Written;
    if n > 0 { CopiedSame(tree, unit, live, n - 1, member, path, dir); }
  }

  /**
   Whatever accepted layout has been copied: with an extra member `.` whose directory holds other bytes at the place of
   some swap target it is still accepted, still copied, and the copy has lost that target.
   */
  lemma RootSpoils(l: Layout, live: map<Path, Live>, tree: Tree, k: nat, path: Path, file: C.File)
    requires Accepted(l) && forall m :: 0 <= m < |RollbackUnit(l)| ==> Normalize(RollbackUnit(l)[m].0) != Some(".")
    requires PrefixFree(tree) && Copied(tree, RollbackUnit(l), live, |RollbackUnit(l)|).Some? && path !in live
    requires k < |Swaps(l)| && Swaps(l)[k].live in live && live[Swaps(l)[k].live].Regular?
    requires file.bytes != live[Swaps(l)[k].live].file.bytes
    ensures var l', live' := WithRoot(l, path), live[path := Directory([(SpotOf(Swaps(l)[k].id), file)])];
      && Accepted(l') && Copied(tree, RollbackUnit(l'), live', |RollbackUnit(l')|).Some?
      && k < |Swaps(l')| && Swaps(l')[k] == Swaps(l)[k] && Spoils(l', live', k)
  {
    hide Swaps, RollbackUnit, Normalize, Accepted, CollisionFree, SpotOf, WithRoot;
    var unit, spot := RollbackUnit(l), SpotOf(Swaps(l)[k].id);
    var dir := Directory([(spot, file)]);
    RootAccepted(l, path);
    RootUnit(l, path);
    DotIsSafe();
    CopiedSame(tree, unit, live, |unit|, (".", path), path, dir);
    CopiedFree(tree, unit, live, |unit|);
    SwapIsMember(l, k);
    UnitSpots(l, k, k);
    CopiedAt(l, live, tree, k, |unit|);
    var copy := Copied(tree, unit, live, |unit|).value;
    assert [] + spot == spot;
    assert Spread(copy, [], dir.files, 1) == Written(copy, spot, file);
    assert Given([], dir.files, spot, 1) == Some(file);
  }

  // ----- The smallest such layout -----

  const SMALL := Layout(Launcher("/p", "/sp", "/s", "/ss"), "/j", "/sj", [], [], [], [], [], "/seats")

  /** An identifier of two plain parts is normalized as it stands. */
  lemma TwoParts(head: string, tail: string)
    requires Lettered(head) && Lettered(tail) && '/' !in head && '/' !in tail && '\\' !in head && '\\' !in tail
    requires !IsSpace(tail[|tail| - 1])
    ensures Normalize(head + "/" + tail) == Some(head + "/" + tail)
    ensures SpotOf(head + "/" + tail) == Split(head + "/" + tail, '/') == [head, tail]
  {
    var id := head + "/" + tail;
    assert id[0] == head[0] && id[|id| - 1] == tail[|tail| - 1];
    assert Strip(IsSpace, id) == id;
    SplitWhole(head, '/');
    SplitWhole(tail, '/');
    SplitConcat(head, tail, '/');
    assert id == head + ['/'] + tail;
    var parts := [head, tail];
    RealPartsAre(parts);
    assert Split(id, '/') == [head] + [tail] == parts;
    assert head != ".." && tail != "..";
    assert parts[1..] == [tail];
    assert Join(parts, '/') == head + ['/'] + tail;
  }

  const PROFILE := "launcher" + "/" + "profile.env"
  const SCRIPT := "launcher" + "/" + "launch-central.sh"
  const JWKS := "jwks" + "/" + "jwks.json"

  lemma SmallUnit()
    ensures Swaps(SMALL) == FixedSwaps(SMALL)
    ensures RollbackUnit(SMALL) == FixedUnit(SMALL) == [(PROFILE, "/p"), (SCRIPT, "/s"), (JWKS, "/j")]
  {
    assert PROFILE == "launcher/profile.env";
    assert SCRIPT == "launcher/launch-central.sh";
    assert JWKS == "jwks/jwks.json";
  }

  lemma SmallSpots()
    ensures Normalize(PROFILE) == Some(PROFILE) && SpotOf(PROFILE) == Split(PROFILE, '/') == ["launcher", "profile.env"]
    ensures Normalize(SCRIPT) == Some(SCRIPT)
      && SpotOf(SCRIPT) == Split(SCRIPT, '/') == ["launcher", "launch-central.sh"]
    ensures Normalize(JWKS) == Some(JWKS) && SpotOf(JWKS) == Split(JWKS, '/') == ["jwks", "jwks.json"]
  {
    hide Normalize, SpotOf, Split;
    TwoParts("launcher", "profile.env");
    TwoParts("launcher", "launch-central.sh");
    TwoParts("jwks", "jwks.json");
  }

  lemma SmallAccepted()
    ensures Accepted(SMALL)
    ensures forall m :: 0 <= m < |RollbackUnit(SMALL)| ==> Normalize(RollbackUnit(SMALL)[m].0) != Some(".")
  {
    hide Normalize, SpotOf, Split, Swaps, RollbackUnit;
    SmallUnit();
    SmallSpots();
    var unit := [(PROFILE, "/p"), (SCRIPT, "/s"), (JWKS, "/j")];
    assert |PROFILE| == 20 && |SCRIPT| == 26 && |JWKS| == 14;
    assert Normalized(unit) == [PROFILE, SCRIPT, JWKS];
  }

  function SmallLive(): map<Path, Live> {
    var one := Regular(C.File([0], 0x1FF));
    map["/p" := one, "/s" := one, "/j" := one]
  }

  lemma SmallCopied()
    ensures Copied(map[], RollbackUnit(SMALL), SmallLive(), |RollbackUnit(SMALL)|).Some?
    ensures |Swaps(SMALL)| == 3 && Swaps(SMALL)[2].live == "/j" && SpotOf(Swaps(SMALL)[2].id) == ["jwks", "jwks.json"]
    ensures forall k :: 0 <= k < 3 ==> Swaps(SMALL)[k].live in SmallLive()
  {
    hide Normalize, SpotOf, Split, Swaps, RollbackUnit;
    SmallUnit();
    SmallSpots();
    var unit, live, one := RollbackUnit(SMALL), SmallLive(), C.File([0], 0x1FF);
    var t1: Tree := map[["launcher", "profile.env"] := one];
    var t2 := t1[["launcher", "launch-central.sh"] := one];
    assert Copied(map[], unit, live, 1) == Some(t1);
    assert Copied(map[], unit, live, 2) == Some(t2);
    assert Copied(map[], unit, live, 3).Some?;
  }

  /**
   The operator's three fixed files and one extra directory backed up as `.`, which has a `jwks/jwks.json` of its own:
   accepted and copied, and the copy differs from the live key set at once.
   */
  lemma SmallestRootMember()
    ensures var l := WithRoot(SMALL, "/d");
      var live := SmallLive()["/d" := Directory([(["jwks", "jwks.json"], C.File([1], 0x1FF))])];
      var copy := Copied(map[], RollbackUnit(l), live, |RollbackUnit(l)|);
      Accepted(l) && copy.Some? && !AllRestored(ConfigOf(l), LiveFiles(live), BackupFiles(l, copy.value))
  {
    hide Normalize, SpotOf, Split, Swaps, RollbackUnit, Accepted, Spoils, Copied, ConfigOf, LiveFiles, BackupFiles,
         WithRoot;
    SmallCopied();
    SmallAccepted();
    RootUnit(SMALL, "/d");
    RootSpoils(SMALL, SmallLive(), map[], 2, "/d", C.File([1], 0x1FF));
    CopyIsCurrent(WithRoot(SMALL, "/d"),
                  SmallLive()["/d" := Directory([(["jwks", "jwks.json"], C.File([1], 0x1FF))])], map[]);
  }
}
