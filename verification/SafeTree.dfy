/**
 Reading and copying a directory tree under the same bounds. The tree does not change
 while it is read, so the identity checks of the traversal always hold.
 */
module SafeTree {
  import Text

  type Bytes = seq<bv8>
  type Path = seq<string>

  const MAX_FILE_BYTES := 64 * 1024 * 1024
  const MAX_TREE_BYTES := 256 * 1024 * 1024
  const MAX_TREE_ENTRIES := 100000

  datatype Node =
    | File(mode: nat, mtime: nat, nlink: nat, payload: Bytes)
    | Dir(mode: nat, mtime: nat, entries: Forest)
    | Symlink(mode: nat, mtime: nat, target: Bytes)
    | Special

  /** The entries of a directory in order of their names. */
  datatype Forest = Nil | Cons(name: string, node: Node, rest: Forest)

  datatype Kind = KFile | KDir | KLink

  /** A listed entry; `path` is its path below the root, part by part. */
  datatype Entry = Entry(path: Path, kind: Kind, mode: nat, mtime: nat, payload: Bytes)

  predicate ValidName(name: string) {
    name != "" && name != "." && name != ".." && '/' !in name
  }

  function Names(f: Forest): set<string> {
    match f
    case Nil => {}
    case Cons(name, _, rest) => {name} + Names(rest)
  }

  /** Names strictly ascending, in every directory: what listing and sorting a directory yields. */
  predicate Ordered(f: Forest) {
    match f
    case Nil => true
    case Cons(name, node, rest) =>
      && (forall n :: n in Names(rest) ==> Text.Leq(name, n) && name != n)
      && (node.Dir? ==> Ordered(node.entries)) && Ordered(rest)
  }

  // ----- What a traversal may meet -----

  predicate Admissible(f: Forest, rejectLinks: bool) {
    match f
    case Nil => true
    case Cons(_, node, rest) => AdmissibleNode(node, rejectLinks) && Admissible(rest, rejectLinks)
  }

  predicate AdmissibleNode(node: Node, rejectLinks: bool) {
    match node
    case File(_, _, nlink, payload) => |payload| <= MAX_FILE_BYTES && (rejectLinks ==> nlink == 1)
    case Dir(_, _, entries) => Admissible(entries, rejectLinks)
    case Symlink(_, _, _) => !rejectLinks
    case Special => false
  }

  predicate ValidNames(f: Forest) {
    match f
    case Nil => true
    case Cons(name, node, rest) => ValidName(name) && (node.Dir? ==> ValidNames(node.entries)) && ValidNames(rest)
  }

  function Count(f: Forest): nat {
    match f
    case Nil => 0
    case Cons(_, node, rest) => 1 + (if node.Dir? then Count(node.entries) else 0) + Count(rest)
  }

  function Size(f: Forest): nat {
    match f
    case Nil => 0
    case Cons(_, node, rest) => SizeNode(node) + Size(rest)
  }

  function SizeNode(node: Node): nat {
    match node
    case File(_, _, _, payload) => |payload|
    case Dir(_, _, entries) => Size(entries)
    case _ => 0
  }

  /** Every entry below a directory, each before what lies in it. */
  function Listing(f: Forest, prefix: Path): seq<Entry>
    decreases f
  {
    match f
    case Nil => []
    case Cons(name, node, rest) => ListingNode(node, prefix + [name]) + Listing(rest, prefix)
  }

  function ListingNode(node: Node, path: Path): seq<Entry>
    decreases node
  {
    match node
    case File(mode, mtime, _, payload) => [Entry(path, KFile, mode, mtime, payload)]
    case Dir(mode, mtime, entries) => [Entry(path, KDir, mode, mtime, [])] + Listing(entries, path)
    case Symlink(mode, mtime, target) => [Entry(path, KLink, mode, mtime, target)]
    case Special => []
  }

  predicate WithinBounds(f: Forest, entries: nat, bytes: nat) {
    entries + Count(f) <= MAX_TREE_ENTRIES && bytes + Size(f) <= MAX_TREE_BYTES
  }

  lemma {:induction false} ListingLength(f: Forest, prefix: Path, rejectLinks: bool)
    requires Admissible(f, rejectLinks)
    ensures |Listing(f, prefix)| == Count(f)
    decreases f
  {
    match f
    case Nil =>
    case Cons(name, node, rest) =>
      if node.Dir? { ListingLength(node.entries, prefix + [name], rejectLinks); }
      ListingLength(rest, prefix, rejectLinks);
  }

  ghost predicate Below(prefix: Path, names: set<string>, e: Entry) {
    |e.path| > |prefix| && e.path[..|prefix|] == prefix && e.path[|prefix|] in names
  }

  lemma {:induction false} ListingBelow(f: Forest, prefix: Path)
    ensures forall i :: 0 <= i < |Listing(f, prefix)| ==> Below(prefix, Names(f), Listing(f, prefix)[i])
    decreases f
  {
    match f
    case Nil =>
    case Cons(name, node, rest) =>
      ListingBelow(rest, prefix);
      NodeBelow(node, prefix, name);
      var own: seq<Entry> := ListingNode(node, prefix + [name]);
      var others: seq<Entry> := Listing(rest, prefix);
      forall i | 0 <= i < |own + others| ensures Below(prefix, Names(f), (own + others)[i]) {
        if i < |own| {
          assert Below(prefix, {name}, own[i]);
        } else {
          assert Below(prefix, Names(rest), others[i - |own|]);
        }
      }
  }

  lemma {:induction false} NodeBelow(node: Node, prefix: Path, name: string)
    ensures forall i :: 0 <= i < |ListingNode(node, prefix + [name])| ==>
      Below(prefix, {name}, ListingNode(node, prefix + [name])[i])
    decreases node
  {
    var path := prefix + [name];
    assert path[..|prefix|] == prefix && path[|prefix|] == name;
    if node.Dir? {
      ListingBelow(node.entries, path);
      var own := ListingNode(node, path);
      forall i | 0 <= i < |own| ensures Below(prefix, {name}, own[i]) {
        if i > 0 {
          assert own[i] == Listing(node.entries, path)[i - 1];
          assert own[i].path[..|prefix|] == own[i].path[..|path|][..|prefix|];
          assert own[i].path[|prefix|] == own[i].path[..|path|][|prefix|];
        }
      }
    }
  }

  /** No path is listed twice. */
  lemma {:induction false} ListingDistinct(f: Forest, prefix: Path)
    requires Ordered(f)
    ensures forall i, j :: 0 <= i < j < |Listing(f, prefix)| ==>
      Listing(f, prefix)[i].path != Listing(f, prefix)[j].path
    decreases f
  {
    match f
    case Nil =>
    case Cons(name, node, rest) =>
      var own: seq<Entry> := ListingNode(node, prefix + [name]);
      var others: seq<Entry> := Listing(rest, prefix);
      var all: seq<Entry> := own + others;
      ListingDistinct(rest, prefix);
      ListingBelow(rest, prefix);
      NodeBelow(node, prefix, name);
      NodeDistinct(node, prefix + [name]);
      forall i: nat, j: nat | i < j < |all| ensures all[i].path != all[j].path {
        if i < |own| && |own| <= j {
          assert all[i] == own[i] && all[j] == others[j - |own|];
          assert Below(prefix, {name}, own[i]) && Below(prefix, Names(rest), others[j - |own|]);
          assert own[i].path[|prefix|] != others[j - |own|].path[|prefix|];
        } else if j < |own| {
          assert all[i] == own[i] && all[j] == own[j];
          assert own[i].path != own[j].path;
        } else {
          assert all[i] == others[i - |own|] && all[j] == others[j - |own|];
          var k, l := i - |own|, j - |own|;
          assert 0 <= k < l < |Listing(rest, prefix)|;
        }
      }
  }

  lemma {:induction false} NodeDistinct(node: Node, path: Path)
    requires node.Dir? ==> Ordered(node.entries)
    ensures forall i, j :: 0 <= i < j < |ListingNode(node, path)| ==>
      ListingNode(node, path)[i].path != ListingNode(node, path)[j].path
    decreases node
  {
    if node.Dir? {
      ListingDistinct(node.entries, path);
      ListingBelow(node.entries, path);
      var own := ListingNode(node, path);
      forall i, j | 0 <= i < j < |own| ensures own[i].path != own[j].path {
        assert own[j] == Listing(node.entries, path)[j - 1];
        if i > 0 { assert own[i] == Listing(node.entries, path)[i - 1]; }
      }
    }
  }

  lemma Unfold(name: string, node: Node, rest: Forest, rejectLinks: bool)
    ensures var f := Cons(name, node, rest);
      && Size(f) == SizeNode(node) + Size(rest)
      && (Admissible(f, rejectLinks) <==> AdmissibleNode(node, rejectLinks) && Admissible(rest, rejectLinks))
      && (node.Dir? ==>
        && SizeNode(node) == Size(node.entries)
        && (AdmissibleNode(node, rejectLinks) <==> Admissible(node.entries, rejectLinks)))
  {
  }

  // ----- The walk -----

  class Walker {
    const rejectLinks: bool
    var entries: seq<Entry>
    var totalBytes: nat

    constructor (rejectLinks: bool)
      ensures this.rejectLinks == rejectLinks && entries == [] && totalBytes == 0
    {
      this.rejectLinks, entries, totalBytes := rejectLinks, [], 0;
    }

    predicate InBounds()
      reads this
    {
      |entries| <= MAX_TREE_ENTRIES && totalBytes <= MAX_TREE_BYTES
    }

    /** Lists a directory below `prefix`, or stops at the first thing it refuses. */
    method Walk(f: Forest, prefix: Path) returns (ok: bool)
      requires InBounds()
      modifies this
      ensures ok <==> Admissible(f, rejectLinks) && ValidNames(f) && old(WithinBounds(f, |entries|, totalBytes))
      ensures ok ==>
        InBounds() && entries == old(entries) + Listing(f, prefix) && totalBytes == old(totalBytes) + Size(f)
      decreases f
    {
      match f
      case Nil => ok := true;
      case Cons(name, node, rest) =>
        if !ValidName(name) { return false; }
        if |entries| >= MAX_TREE_ENTRIES { return false; }
        var path := prefix + [name];
        ghost var before := entries;
        ListingWithin(node, path, rejectLinks);
        Unfold(name, node, rest, rejectLinks);
        match node {
          case Symlink(mode, mtime, target) =>
            if rejectLinks { return false; }
            entries := entries + [Entry(path, KLink, mode, mtime, target)];
          case Dir(mode, mtime, children) =>
            entries := entries + [Entry(path, KDir, mode, mtime, [])];
            var inner := Walk(children, path);
            if !inner { return false; }
          case File(mode, mtime, nlink, payload) =>
            if rejectLinks && nlink != 1 { return false; }
            if |payload| > MAX_FILE_BYTES { return false; }
            totalBytes := totalBytes + |payload|;
            if totalBytes > MAX_TREE_BYTES { return false; }
            entries := entries + [Entry(path, KFile, mode, mtime, payload)];
          case Special => return false;
        }
        assert entries == before + ListingNode(node, path);
        ok := Walk(rest, prefix);
    }
  }

  lemma ListingWithin(node: Node, path: Path, rejectLinks: bool)
    ensures node.Dir? && Admissible(node.entries, rejectLinks) ==> |Listing(node.entries, path)| == Count(node.entries)
  {
    if node.Dir? && Admissible(node.entries, rejectLinks) { ListingLength(node.entries, path, rejectLinks); }
  }

  // ----- The copy -----

  /** Adds an entry to a directory kept in order of names. */
  function Insert(f: Forest, name: string, node: Node): Forest {
    match f
    case Nil => Cons(name, node, Nil)
    case Cons(n, x, rest) => if Text.Leq(name, n) then Cons(name, node, f) else Cons(n, x, Insert(rest, name, node))
  }

  function Concat(f: Forest, g: Forest): Forest {
    match f
    case Nil => g
    case Cons(name, node, rest) => Cons(name, node, Concat(rest, g))
  }

  /** Creating entries in ascending order of names always adds at the end. */
  lemma {:induction false} InsertAtEnd(done: Forest, name: string, node: Node, rest: Forest)
    requires forall n :: n in Names(done) ==> Text.Leq(n, name) && n != name
    ensures Concat(Insert(done, name, node), rest) == Concat(done, Cons(name, node, rest))
    ensures Names(Insert(done, name, node)) == Names(done) + {name}
  {
    match done
    case Nil =>
    case Cons(n, x, more) =>
      if Text.Leq(name, n) { Text.LeqAntisymmetric(n, name); }
      InsertAtEnd(more, name, node, rest);
  }

  class Copier {
    /** What the process umask makes of a requested mode, and the time a fresh entry gets. */
    const masked: nat -> nat
    const clock: nat
    var copiedEntries: nat
    var copiedBytes: nat

    constructor (masked: nat -> nat, clock: nat)
      ensures copiedEntries == 0 && copiedBytes == 0
    {
      this.masked, this.clock, copiedEntries, copiedBytes := masked, clock, 0, 0;
    }

    predicate InBounds()
      reads this
    {
      copiedEntries <= MAX_TREE_ENTRIES && copiedBytes <= MAX_TREE_BYTES
    }

    /**
     Copies a directory's entries into the empty directory it returns. No entry ever exists
     already, and modes and times set at the end undo what creation did to them.
     */
    method CopyDirectory(source: Forest) returns (ok: bool, copy: Forest)
      requires InBounds() && Ordered(source)
      modifies this
      ensures ok <==> Admissible(source, true) && old(WithinBounds(source, copiedEntries, copiedBytes))
      ensures ok ==> InBounds() && copy == source
      ensures ok ==>
        copiedEntries == old(copiedEntries) + Count(source) && copiedBytes == old(copiedBytes) + Size(source)
      decreases source, 1
    {
      ok, copy := CopyRest(source, Nil);
    }

    /** Copies the entries that are left into a directory that already holds those done. */
    method CopyRest(left: Forest, done: Forest) returns (ok: bool, copy: Forest)
      requires InBounds() && Ordered(left)
      requires forall n, m :: n in Names(done) && m in Names(left) ==> Text.Leq(n, m) && n != m
      modifies this
      ensures ok <==> Admissible(left, true) && old(WithinBounds(left, copiedEntries, copiedBytes))
      ensures ok ==> InBounds() && copy == Concat(done, left)
      ensures ok ==> copiedEntries == old(copiedEntries) + Count(left) && copiedBytes == old(copiedBytes) + Size(left)
      decreases left, 0
    {
      copy := done;
      match left
      case Nil =>
        ConcatNil(done);
        ok := true;
      case Cons(name, node, rest) =>
        Unfold(name, node, rest, true);
        assert name in Names(left);
        copiedEntries := copiedEntries + 1;
        if copiedEntries > MAX_TREE_ENTRIES { return false, copy; }
        if name in Names(done) { assert false; }
        var made: Node;
        match node {
          case Symlink(_, _, _) => return false, copy;
          case Dir(mode, mtime, children) =>
            made := Dir(masked(mode), clock, Nil);
            var inner, entries := CopyDirectory(children);
            if !inner { return false, copy; }
            made := Dir(made.mode, clock, entries);
            made := Dir(mode, mtime, made.entries);
          case File(mode, mtime, nlink, payload) =>
            if nlink != 1 { return false, copy; }
            if |payload| > MAX_FILE_BYTES { return false, copy; }
            copiedBytes := copiedBytes + |payload|;
            if copiedBytes > MAX_TREE_BYTES { return false, copy; }
            made := File(masked(mode), clock, 1, payload);
            made := File(mode, mtime, made.nlink, made.payload);
          case Special => return false, copy;
        }
        assert Names(left) == {name} + Names(rest);
        InsertAtEnd(done, name, made, rest);
        assert Names(Insert(done, name, made)) == Names(done) + {name};
        ok, copy := CopyRest(rest, Insert(done, name, made));
    }
  }

  lemma {:induction false} ConcatNil(f: Forest)
    ensures Concat(f, Nil) == f
  {
    match f
    case Nil =>
    case Cons(_, _, rest) => ConcatNil(rest);
  }

  /**
   The copy succeeds exactly when a link-rejecting walk does, except for names no directory
   can contain; and walking the copy lists what walking the source lists.
   */
  method CopyAndWalk(source: Forest, masked: nat -> nat, clock: nat)
    returns (walked: bool, copied: bool, ghost listing: seq<Entry>, ghost copyListing: seq<Entry>)
    requires Ordered(source)
    ensures walked <==> copied && ValidNames(source)
    ensures walked ==> listing == copyListing == Listing(source, [])
  {
    var walker := new Walker(true);
    walked := walker.Walk(source, []);
    listing := walker.entries;
    var copier := new Copier(masked, clock);
    var copy;
    copied, copy := copier.CopyDirectory(source);
    copyListing := [];
    if copied {
      var again := new Walker(true);
      var ok := again.Walk(copy, []);
      copyListing := again.entries;
    }
  }
}
