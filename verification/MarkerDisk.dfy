/**
 A directory whose operations become durable only when it is fsynced, and files whose
 bytes become durable only when they are. A power loss keeps some prefix of the
 directory operations since the last fsync and may tear every file not fsynced.
 */
module MarkerDisk {

  type Bytes = seq<bv8>
  type Ino = nat

  /** Files of a board directory. `Domain` stands for every file that is none of the others. */
  datatype Name = Fence | Marker | Temp(pid: nat, nonce: nat) | Domain(path: string)

  datatype Inode = Inode(bytes: Bytes, synced: bool, mode: int)

  type Dir = map<Name, Ino>

  datatype Op = Link(name: Name, ino: Ino) | Unlink(name: Name) | Rename(source: Name, target: Name)

  datatype Disk = Disk(durable: Dir, pending: seq<Op>, inodes: map<Ino, Inode>, next: Ino) {
    /** What a running process sees. */
    function View(): Dir { ApplyAll(durable, pending) }
  }

  function Apply(dir: Dir, op: Op): Dir {
    match op
    case Link(name, ino) => dir[name := ino]
    case Unlink(name) => dir - {name}
    case Rename(source, target) => if source in dir then (dir - {source})[target := dir[source]] else dir
  }

  function ApplyAll(dir: Dir, ops: seq<Op>): Dir {
    if ops == [] then dir else Apply(ApplyAll(dir, ops[..|ops| - 1]), ops[|ops| - 1])
  }

  function Submit(d: Disk, op: Op): (r: Disk)
    ensures r.View() == Apply(d.View(), op)
  {
    assert (d.pending + [op])[..|d.pending|] == d.pending;
    d.(pending := d.pending + [op])
  }

  /** Creates an empty file under a new name. */
  function Create(d: Disk, name: Name, mode: int): Disk {
    Submit(d.(inodes := d.inodes[d.next := Inode([], false, mode)], next := d.next + 1), Link(name, d.next))
  }

  function WriteFile(d: Disk, ino: Ino, bytes: Bytes): Disk
    requires ino in d.inodes
  {
    d.(inodes := d.inodes[ino := d.inodes[ino].(bytes := bytes, synced := false)])
  }

  function SyncFile(d: Disk, ino: Ino): Disk
    requires ino in d.inodes
  {
    d.(inodes := d.inodes[ino := d.inodes[ino].(synced := true)])
  }

  function SyncDir(d: Disk): (r: Disk)
    ensures r.View() == d.View() == r.durable
  {
    d.(durable := d.View(), pending := [])
  }

  /** Keeps the first `kept` pending operations; `torn` is what an unsynced file turns into. */
  function PowerLoss(d: Disk, kept: nat, torn: Ino -> Bytes): (r: Disk)
    requires kept <= |d.pending|
    ensures r.View() == ApplyAll(d.durable, d.pending[..kept])
  {
    Disk(ApplyAll(d.durable, d.pending[..kept]), [],
         map i | i in d.inodes :: if d.inodes[i].synced then d.inodes[i] else Inode(torn(i), true, d.inodes[i].mode),
         d.next)
  }

  // ----- What must hold of the directory in every crash state -----

  datatype Promotion = Promotion(source: map<Name, Bytes>, payload: Bytes)

  const MARKER_MODE := 0x180 // 0o600

  ghost predicate Referenced(d: Disk, dir: Dir) {
    forall n :: n in dir ==> dir[n] in d.inodes && dir[n] < d.next
  }

  predicate HoldsBytes(d: Disk, ino: Ino, bytes: Bytes) {
    ino in d.inodes && d.inodes[ino].synced && d.inodes[ino].bytes == bytes
  }

  /** Fenced by one file or the other, each whole; domain files as in the source. */
  ghost predicate Good(d: Disk, p: Promotion, dir: Dir) {
    && (Fence in dir || Marker in dir)
    && (Marker in dir ==> HoldsBytes(d, dir[Marker], p.payload) && d.inodes[dir[Marker]].mode == MARKER_MODE)
    && (Fence in dir ==> Fence in p.source && HoldsBytes(d, dir[Fence], p.source[Fence]))
    && (forall path :: Domain(path) in dir <==> Domain(path) in p.source)
    && (forall path :: Domain(path) in dir ==> HoldsBytes(d, dir[Domain(path)], p.source[Domain(path)]))
  }

  ghost predicate Safe(d: Disk, p: Promotion) {
    forall k :: 0 <= k <= |d.pending| ==>
      Referenced(d, ApplyAll(d.durable, d.pending[..k])) && Good(d, p, ApplyAll(d.durable, d.pending[..k]))
  }

  lemma SafeView(d: Disk, p: Promotion)
    requires Safe(d, p)
    ensures Good(d, p, d.View()) && Referenced(d, d.View())
  {
    assert d.pending[..|d.pending|] == d.pending;
  }

  /** A directory operation keeps every crash state good when its own outcome is. */
  lemma SubmitSafe(d: Disk, p: Promotion, op: Op)
    requires Safe(d, p)
    requires Good(d, p, Apply(d.View(), op)) && Referenced(d, Apply(d.View(), op))
    ensures Safe(Submit(d, op), p)
  {
    hide Good, Referenced, Apply, ApplyAll;
    var r := Submit(d, op);
    forall k | 0 <= k <= |r.pending|
      ensures Referenced(r, ApplyAll(r.durable, r.pending[..k])) && Good(r, p, ApplyAll(r.durable, r.pending[..k]))
    {
      var dir := ApplyAll(d.durable, r.pending[..k]);
      if k <= |d.pending| {
        assert r.pending[..k] == d.pending[..k];
      } else {
        assert r.pending[..k] == r.pending;
      }
      SameInodes(d, r, p, dir);
    }
  }

  lemma SameInodes(d: Disk, r: Disk, p: Promotion, dir: Dir)
    requires r.inodes == d.inodes && r.next == d.next
    ensures Good(r, p, dir) == Good(d, p, dir) && Referenced(r, dir) == Referenced(d, dir)
  {
  }

  /** No name but a temporary one leads to `ino`, in any crash state. */
  ghost predicate Private(d: Disk, ino: Ino) {
    forall k :: 0 <= k <= |d.pending| ==> PrivateIn(ApplyAll(d.durable, d.pending[..k]), ino)
  }

  ghost predicate PrivateIn(dir: Dir, ino: Ino) {
    forall n :: n in dir && dir[n] == ino ==> n.Temp?
  }

  /** Changing a private file keeps every crash state good. */
  lemma ChangePrivate(d: Disk, p: Promotion, ino: Ino, f: Inode)
    requires Safe(d, p) && Private(d, ino) && ino < d.next
    ensures Safe(d.(inodes := d.inodes[ino := f]), p) && Private(d.(inodes := d.inodes[ino := f]), ino)
  {
    var r := d.(inodes := d.inodes[ino := f]);
    forall k | 0 <= k <= |r.pending|
      ensures Referenced(r, ApplyAll(r.durable, r.pending[..k])) && Good(r, p, ApplyAll(r.durable, r.pending[..k]))
    {
      var dir := ApplyAll(d.durable, d.pending[..k]);
      assert Good(d, p, dir) && Referenced(d, dir);
      assert PrivateIn(dir, ino);
    }
  }

  lemma GrowSafe(d: Disk, p: Promotion, f: Inode)
    requires Safe(d, p)
    ensures var r := d.(inodes := d.inodes[d.next := f], next := d.next + 1);
      Safe(r, p) && Private(r, d.next) && forall n :: n in d.View() ==> d.View()[n] != d.next
  {
    var r := d.(inodes := d.inodes[d.next := f], next := d.next + 1);
    forall k | 0 <= k <= |d.pending|
      ensures var dir := ApplyAll(d.durable, d.pending[..k]);
        Referenced(r, dir) && Good(r, p, dir) && PrivateIn(dir, d.next)
    {
      var dir := ApplyAll(d.durable, d.pending[..k]);
      assert Referenced(d, dir) && Good(d, p, dir);
    }
    SafeView(d, p);
  }

  lemma LinkPrivate(d: Disk, temp: Name, ino: Ino)
    requires Private(d, ino) && temp.Temp?
    ensures Private(Submit(d, Link(temp, ino)), ino)
  {
    var r := Submit(d, Link(temp, ino));
    forall k | 0 <= k <= |r.pending| ensures PrivateIn(ApplyAll(r.durable, r.pending[..k]), ino) {
      assert d.pending[..|d.pending|] == d.pending && PrivateIn(d.View(), ino);
      if k <= |d.pending| {
        assert r.pending[..k] == d.pending[..k];
      } else {
        assert r.pending[..k] == r.pending;
      }
    }
  }

  /** Creating a temporary file changes no crash state's fence, marker or domain. */
  lemma CreateSafe(d: Disk, p: Promotion, pid: nat, nonce: nat)
    requires Safe(d, p) && Temp(pid, nonce) !in d.View()
    ensures var r := Create(d, Temp(pid, nonce), MARKER_MODE);
      && Safe(r, p) && Private(r, d.next) && d.next in r.inodes && d.next < r.next
      && r.inodes[d.next].mode == MARKER_MODE
      && r.View() == d.View()[Temp(pid, nonce) := d.next]
  {
    var f := Inode([], false, MARKER_MODE);
    var grown := d.(inodes := d.inodes[d.next := f], next := d.next + 1);
    GrowSafe(d, p, f);
    SafeView(grown, p);
    SubmitSafe(grown, p, Link(Temp(pid, nonce), d.next));
    LinkPrivate(grown, Temp(pid, nonce), d.next);
  }

  /** Publishing a whole private file as the marker. */
  lemma PublishSafe(d: Disk, p: Promotion, temp: Name)
    requires Safe(d, p) && temp.Temp? && temp in d.View()
    requires HoldsBytes(d, d.View()[temp], p.payload) && d.inodes[d.View()[temp]].mode == MARKER_MODE
    ensures Safe(Submit(d, Rename(temp, Marker)), p)
    ensures Submit(d, Rename(temp, Marker)).View() == (d.View() - {temp})[Marker := d.View()[temp]]
  {
    SafeView(d, p);
    SubmitSafe(d, p, Rename(temp, Marker));
  }

  lemma UnlinkSafe(d: Disk, p: Promotion, name: Name)
    requires Safe(d, p) && (name.Temp? || (name == Fence && Marker in d.View()))
    ensures Safe(Submit(d, Unlink(name)), p)
    ensures Submit(d, Unlink(name)).View() == d.View() - {name}
  {
    SafeView(d, p);
    SubmitSafe(d, p, Unlink(name));
  }

  lemma SyncDirSafe(d: Disk, p: Promotion)
    requires Safe(d, p)
    ensures Safe(SyncDir(d), p)
  {
    SafeView(d, p);
    var r := SyncDir(d);
    forall k | 0 <= k <= |r.pending|
      ensures Referenced(r, ApplyAll(r.durable, r.pending[..k])) && Good(r, p, ApplyAll(r.durable, r.pending[..k]))
    {
      assert r.pending[..k] == [];
    }
  }

  /** Losing any suffix of the pending operations, and the bytes of any unsynced file, is survivable. */
  lemma PowerLossSafe(d: Disk, p: Promotion, kept: nat, torn: Ino -> Bytes)
    requires Safe(d, p) && kept <= |d.pending|
    ensures Safe(PowerLoss(d, kept, torn), p)
  {
    var r := PowerLoss(d, kept, torn);
    assert Referenced(d, r.durable) && Good(d, p, r.durable);
    forall k | 0 <= k <= |r.pending|
      ensures Referenced(r, ApplyAll(r.durable, r.pending[..k])) && Good(r, p, ApplyAll(r.durable, r.pending[..k]))
    {
      assert r.pending[..k] == [];
    }
  }

  // ----- What a run of the hand-over ever submits -----

  /** Operations on temporary files, the publishing rename, and the lifting of the fence. */
  predicate TameOp(op: Op) {
    match op
    case Link(name, _) => name.Temp?
    case Unlink(name) => name.Temp? || name == Fence
    case Rename(source, target) => source.Temp? && target == Marker
  }

  /** Nothing pending takes the marker away or puts the fence back. */
  ghost predicate Tame(d: Disk) {
    forall i :: 0 <= i < |d.pending| ==> TameOp(d.pending[i])
  }

  /** The directory a power loss leaves when it keeps `k` of the pending operations. */
  ghost function LeftBy(d: Disk, k: nat): Dir
    requires k <= |d.pending|
  {
    ApplyAll(d.durable, d.pending[..k])
  }

  lemma {:induction false} TamePrefix(d: Disk, k: nat)
    requires Tame(d) && k <= |d.pending|
    ensures Marker in d.durable ==> Marker in LeftBy(d, k)
    ensures Fence !in d.durable ==> Fence !in LeftBy(d, k)
  {
    if k > 0 {
      TamePrefix(d, k - 1);
      assert d.pending[..k][..k - 1] == d.pending[..k - 1];
      assert TameOp(d.pending[k - 1]);
    }
  }

  /** The marker is there after every power loss. */
  ghost predicate MarkerLasts(d: Disk) {
    forall k :: 0 <= k <= |d.pending| ==> Marker in LeftBy(d, k)
  }

  /** After every power loss the marker is there and the fence is not. */
  ghost predicate HandoverLasts(d: Disk) {
    forall k :: 0 <= k <= |d.pending| ==> Marker in LeftBy(d, k) && Fence !in LeftBy(d, k)
  }

  lemma LastsWhenDurable(d: Disk, p: Promotion)
    requires Tame(d)
    ensures MarkerLasts(d) <==> Marker in d.durable
    ensures Safe(d, p) ==> (HandoverLasts(d) <==> Fence !in d.durable)
  {
    assert d.pending[..0] == [] && LeftBy(d, 0) == d.durable;
    if Safe(d, p) { assert Good(d, p, LeftBy(d, 0)); }
    forall k | 0 <= k <= |d.pending|
      ensures Marker in d.durable ==> Marker in LeftBy(d, k)
      ensures Fence !in d.durable ==> Fence !in LeftBy(d, k)
    {
      TamePrefix(d, k);
    }
  }

  /** The temporary name an operation can bring about, if any. */
  function MadeTemp(op: Op): set<Name> {
    match op
    case Link(name, _) => if name.Temp? then {name} else {}
    case Unlink(_) => {}
    case Rename(_, target) => if target.Temp? then {target} else {}
  }

  function MadeTemps(ops: seq<Op>): set<Name> {
    if ops == [] then {} else MadeTemps(ops[..|ops| - 1]) + MadeTemp(ops[|ops| - 1])
  }

  function TempsIn(dir: Dir): set<Name> {
    set n | n in dir && n.Temp?
  }

  /** Temporary names any crash state can hold. */
  function TempNames(d: Disk): set<Name> {
    TempsIn(d.durable) + MadeTemps(d.pending)
  }

  lemma {:induction false} TempsListed(d: Disk, k: nat)
    requires k <= |d.pending|
    ensures TempsIn(LeftBy(d, k)) <= TempsIn(d.durable) + MadeTemps(d.pending[..k]) <= TempNames(d)
  {
    if k == 0 {
      assert d.pending[..0] == [];
    } else {
      TempsListed(d, k - 1);
      assert d.pending[..k][..k - 1] == d.pending[..k - 1];
    }
    MadeTempsGrow(d.pending, k);
  }

  lemma {:induction false} MadeTempsGrow(ops: seq<Op>, k: nat)
    requires k <= |ops|
    ensures MadeTemps(ops[..k]) <= MadeTemps(ops)
    decreases |ops| - k
  {
    if k == |ops| {
      assert ops[..k] == ops;
    } else {
      MadeTempsGrow(ops, k + 1);
      assert ops[..k + 1][..k] == ops[..k];
    }
  }

  lemma SubmitTemps(d: Disk, op: Op)
    ensures TempNames(Submit(d, op)) == TempNames(d) + MadeTemp(op)
    ensures Tame(d) && TameOp(op) ==> Tame(Submit(d, op))
    ensures Submit(d, op).durable == d.durable
  {
    hide TempsIn, MadeTemp, TameOp, ApplyAll;
    assert Submit(d, op).pending[..|d.pending|] == d.pending;
  }

  lemma SyncDirTemps(d: Disk)
    ensures TempNames(SyncDir(d)) <= TempNames(d) && Tame(SyncDir(d))
  {
    assert d.pending[..|d.pending|] == d.pending;
    TempsListed(d, |d.pending|);
  }

  lemma PowerLossTemps(d: Disk, kept: nat, torn: Ino -> Bytes)
    requires kept <= |d.pending|
    ensures TempNames(PowerLoss(d, kept, torn)) <= TempNames(d) && Tame(PowerLoss(d, kept, torn))
  {
    TempsListed(d, kept);
  }
}
