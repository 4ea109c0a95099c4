/**
 The hand-over of a frozen board from its temporary write fence to its durable redirect marker.

 Every directory or file operation takes one unit of `budget`; an attempt that runs out
 stops where it is, and a process kill is exactly that.
 */
module MarkerHandover {
  import opened Wrappers
  import opened MarkerDisk
  import Sorting

  datatype Outcome = Created | Existing | Refused | Stopped

  datatype Event = Attempt(pid: nat, nonce: nat, writeFails: bool, budget: nat) | Loss(kept: nat, torn: Ino -> Bytes)

  /** Contents by name; the tree hashes are injective functions of it. */
  function Contents(d: Disk): map<Name, Bytes> {
    map n | n in d.View() && d.View()[n] in d.inodes :: d.inodes[d.View()[n]].bytes
  }

  /** Everything but the marker: the fence counts as provenance of an imported snapshot. */
  function SourceHash(m: map<Name, Bytes>): map<Name, Bytes> {
    map n | n in m && n != Marker :: m[n]
  }

  /** Domain bytes only. */
  function TransitionHash(m: map<Name, Bytes>): map<Name, Bytes> {
    map n | n in m && n.Domain? :: m[n]
  }

  function Temps(d: Disk): set<Name> {
    set n | n in d.View() && n.Temp?
  }

  /** A snapshot promotion accepts: frozen, not yet promoted, without leftovers. */
  predicate Clean(source: map<Name, Bytes>) {
    Fence in source && forall n :: n in source ==> n == Fence || n.Domain?
  }

  lemma Unlisted(d: Disk, temp: Name)
    requires temp.Temp? && Temps(d) == {}
    ensures temp !in d.View()
  {
    assert temp in d.View() ==> temp in Temps(d);
  }

  lemma SafeTransition(d: Disk, p: Promotion)
    requires Safe(d, p)
    ensures TransitionHash(Contents(d)) == TransitionHash(p.source)
  {
    SafeView(d, p);
    var a, b := TransitionHash(Contents(d)), TransitionHash(p.source);
    forall n | n in a ensures n in b && a[n] == b[n] { assert Domain(n.path) in d.View(); }
    forall n | n in b ensures n in a { assert Domain(n.path) in d.View(); }
  }

  lemma SafeSource(d: Disk, p: Promotion)
    requires Safe(d, p) && Clean(p.source) && Marker !in d.View() && Temps(d) == {}
    ensures SourceHash(Contents(d)) == SourceHash(p.source)
  {
    SafeView(d, p);
    var a, b := SourceHash(Contents(d)), SourceHash(p.source);
    forall n | n in a ensures n in b && a[n] == b[n] {
      if n.Domain? { assert Domain(n.path) in d.View(); }
      assert n.Temp? ==> n in Temps(d);
    }
    forall n | n in b ensures n in a { if n.Domain? { assert Domain(n.path) in d.View(); } }
  }

  // ----- One attempt, operation by operation -----

  /** What a stretch of an attempt keeps, wherever it stops; `made` are the temporary names it may have made. */
  ghost predicate Follows(d: Disk, r: Disk, p: Promotion, made: set<Name>) {
    && (Safe(d, p) ==> Safe(r, p))
    && (Tame(d) ==> Tame(r))
    && TempNames(r) <= TempNames(d) + made
  }

  lemma FollowsOn(d: Disk, m: Disk, r: Disk, p: Promotion, made: set<Name>, more: set<Name>)
    requires Follows(d, m, p, made) && Follows(m, r, p, more)
    ensures Follows(d, r, p, made + more)
  {
    hide Safe, Tame, TempNames;
  }

  lemma UnlinkFollows(d: Disk, p: Promotion, name: Name)
    requires name.Temp? || (name == Fence && Marker in d.View())
    ensures Follows(d, Submit(d, Unlink(name)), p, {})
  {
    hide Safe, Tame, TempNames;
    if Safe(d, p) { UnlinkSafe(d, p, name); }
    SubmitTemps(d, Unlink(name));
  }

  lemma SyncDirFollows(d: Disk, p: Promotion)
    ensures Follows(d, SyncDir(d), p, {})
  {
    hide Safe, Tame, TempNames;
    if Safe(d, p) { SyncDirSafe(d, p); }
    SyncDirTemps(d);
  }

  /** The directory after the first `n` operations of installing the marker. */
  function Installed(d: Disk, temp: Name, payload: Bytes, n: nat): Disk {
    if n == 0 then d
    else
      var created := Create(d, temp, MARKER_MODE);
      if n == 1 then created
      else
        var written := WriteFile(created, d.next, payload);
        if n == 2 then written
        else
          var synced := SyncFile(written, d.next);
          if n == 3 then synced
          else
            var renamed := Submit(synced, Rename(temp, Marker));
            if n == 4 then renamed else SyncDir(renamed)
  }

  lemma CreatedFollows(d: Disk, p: Promotion, pid: nat, nonce: nat)
    requires Temp(pid, nonce) !in d.View()
    ensures var r := Create(d, Temp(pid, nonce), MARKER_MODE);
      Follows(d, r, p, {Temp(pid, nonce)}) && (Safe(d, p) ==> Private(r, d.next) && d.next < r.next)
  {
    hide Safe, Private, Tame, TempNames;
    var temp := Temp(pid, nonce);
    var grown := d.(inodes := d.inodes[d.next := Inode([], false, MARKER_MODE)], next := d.next + 1);
    if Safe(d, p) { CreateSafe(d, p, pid, nonce); }
    SameNames(d, grown);
    SubmitTemps(grown, Link(temp, d.next));
  }

  lemma SameNames(d: Disk, r: Disk)
    requires r.durable == d.durable && r.pending == d.pending
    ensures Tame(r) == Tame(d) && TempNames(r) == TempNames(d) && r.View() == d.View()
  {
  }

  /** Wherever installing the marker stops, the directory is safe if it was. */
  lemma InstalledFollows(d: Disk, p: Promotion, pid: nat, nonce: nat, n: nat)
    requires Temp(pid, nonce) !in d.View()
    ensures Follows(d, Installed(d, Temp(pid, nonce), p.payload, n), p, {Temp(pid, nonce)})
  {
    hide Safe, Private, Tame, TempNames, ApplyAll;
    var temp := Temp(pid, nonce);
    SameNames(d, d);
    if n > 0 {
      CreatedFollows(d, p, pid, nonce);
      var created := Create(d, temp, MARKER_MODE);
      var ino := d.next;
      if n > 1 {
        var written := WriteFile(created, ino, p.payload);
        if Safe(d, p) { ChangePrivate(created, p, ino, written.inodes[ino]); }
        SameNames(created, written);
        if n > 2 {
          var synced := SyncFile(written, ino);
          if Safe(d, p) { ChangePrivate(written, p, ino, synced.inodes[ino]); }
          SameNames(written, synced);
          if n > 3 {
            assert synced.View() == created.View() == d.View()[temp := ino];
            if Safe(d, p) { PublishSafe(synced, p, temp); }
            SubmitTemps(synced, Rename(temp, Marker));
            if n > 4 {
              SyncDirFollows(Submit(synced, Rename(temp, Marker)), p);
            }
          }
        }
      }
    }
  }

  lemma InstalledView(d: Disk, temp: Name, payload: Bytes)
    requires temp.Temp? && temp !in d.View()
    ensures Installed(d, temp, payload, 4).View() == d.View()[Marker := d.next]
    ensures Installed(d, temp, payload, 4).durable == d.durable
    ensures Installed(d, temp, payload, 5).View() == d.View()[Marker := d.next]
    ensures Installed(d, temp, payload, 5).pending == []
    ensures Installed(d, temp, payload, 5).inodes == Installed(d, temp, payload, 4).inodes
    ensures d.next in Installed(d, temp, payload, 4).inodes
      && Installed(d, temp, payload, 4).inodes[d.next] == Inode(payload, true, MARKER_MODE)
  {
    hide ApplyAll;
    var created := Create(d, temp, MARKER_MODE);
    SameNames(d, d.(inodes := d.inodes[d.next := Inode([], false, MARKER_MODE)], next := d.next + 1));
    assert created.View() == d.View()[temp := d.next];
    var synced := Installed(d, temp, payload, 3);
    SameNames(created, synced);
    TakesOver(d.View(), temp, d.next);
  }

  lemma TakesOver(dir: Dir, temp: Name, ino: Ino)
    requires temp.Temp? && temp !in dir
    ensures (dir[temp := ino] - {temp})[Marker := ino] == dir[Marker := ino]
  {
  }

  lemma AttemptedIs(d: Disk, temp: Name, payload: Bytes, n: nat)
    ensures Marker in d.View() ==> Attempted(d, temp, payload, n) == Lifted(d, n)
    ensures Marker !in d.View() && n < 5 ==> Attempted(d, temp, payload, n) == Installed(d, temp, payload, n)
    ensures Marker !in d.View() && n >= 5 ==>
      Attempted(d, temp, payload, n) == Lifted(Installed(d, temp, payload, 5), n - 5)
  {
    hide Lifted, Installed;
  }

  /** The directory after the first `n` operations of lifting the fence. */
  function Lifted(d: Disk, n: nat): Disk {
    if Fence !in d.View() || n == 0 then d
    else
      var unlinked := Submit(d, Unlink(Fence));
      if n == 1 then unlinked else SyncDir(unlinked)
  }

  /** The directory after the first `n` operations of an attempt that finds no leftovers. */
  function Attempted(d: Disk, temp: Name, payload: Bytes, n: nat): Disk {
    if Marker in d.View() then Lifted(d, n)
    else if n < 5 then Installed(d, temp, payload, n)
    else Lifted(Installed(d, temp, payload, 5), n - 5)
  }

  /** The operations a whole attempt takes. */
  function Needed(d: Disk): nat {
    (if Temps(d) == {} then 0 else |Temps(d)| + 1) + (if Marker in d.View() then 0 else 5)
    + if Fence in d.View() then 2 else 0
  }

  class BoardDirectory {
    var disk: Disk

    constructor (disk: Disk)
      ensures this.disk == disk
    {
      this.disk := disk;
    }

    /** Removes leftovers of earlier attempts; the directory is fsynced only when there were any. */
    method CleanupTemps(budget: nat, ghost p: Promotion) returns (done: bool, left: nat)
      modifies this
      ensures Follows(old(disk), disk, p, {})
      ensures forall n: Name :: !n.Temp? ==> (n in disk.View() <==> n in old(disk.View()))
      ensures disk.inodes == old(disk.inodes)
      ensures done ==> Temps(disk) == {}
      ensures old(Temps(disk)) == {} ==> done && disk == old(disk) && left == budget
      ensures old(Temps(disk)) != {} ==> (done <==> budget > old(|Temps(disk)|))
      ensures done && old(Temps(disk)) != {} ==> disk.pending == [] && left + old(|Temps(disk)|) + 1 == budget
    {
      hide Follows, ApplyAll;
      left := budget;
      var removed := false;
      var todo := Temps(disk);
      ghost var all := todo;
      NothingFollows(disk, p);
      while todo != {}
        invariant todo <= all && all == old(Temps(disk)) && todo == Temps(disk)
        invariant left + |all| - |todo| == budget
        invariant removed <==> todo < all
        invariant !removed ==> disk == old(disk)
        invariant Follows(old(disk), disk, p, {})
        invariant forall n: Name :: !n.Temp? ==> (n in disk.View() <==> n in old(disk.View()))
        invariant disk.inodes == old(disk.inodes)
      {
        var name :| name in todo;
        if left == 0 { return false, 0; }
        UnlinkFollows(disk, p, name);
        FollowsOn(old(disk), disk, Submit(disk, Unlink(name)), p, {}, {});
        disk := Submit(disk, Unlink(name));
        assert Temps(disk) == todo - {name};
        todo := todo - {name};
        left := left - 1;
        removed := true;
      }
      if removed {
        if left == 0 { return false, 0; }
        SyncDirFollows(disk, p);
        FollowsOn(old(disk), disk, SyncDir(disk), p, {}, {});
        disk := SyncDir(disk);
        left := left - 1;
      }
      done := true;
    }

    /**
     Writes the payload to a fresh temporary file, makes it durable, and renames it over the marker. If writing
     fails, the temporary file is removed as far as the budget goes.
     */
    method InstallMarker(payload: Bytes, pid: nat, nonce: nat, writeFails: bool, budget: nat, ghost p: Promotion)
      returns (done: bool, left: nat)
      requires Temps(disk) == {} && p.payload == payload
      modifies this
      ensures Follows(old(disk), disk, p, {Temp(pid, nonce)})
      ensures done <==> !writeFails && budget >= 5
      ensures done ==> left + 5 == budget
      ensures !writeFails ==> disk == Installed(old(disk), Temp(pid, nonce), payload, if budget < 5 then budget else 5)
    {
      hide Follows, ApplyAll;
      var temp := Temp(pid, nonce);
      left := budget;
      ghost var d0 := disk;
      Unlisted(disk, temp);
      InstalledFollows(d0, p, pid, nonce, if budget < 5 then budget else 5);
      InstalledFollows(d0, p, pid, nonce, 1);
      InstalledFollows(d0, p, pid, nonce, 0);
      if left < 1 { return false, 0; }
      var ino := disk.next;
      disk := Create(disk, temp, MARKER_MODE);
      if left < 2 || writeFails {
        left := DropTemp(temp, left - 1, p, d0);
        return false, left;
      }
      disk := WriteFile(disk, ino, payload);
      if left < 3 { return false, 0; }
      disk := SyncFile(disk, ino);
      if left < 4 { return false, 0; }
      disk := Submit(disk, Rename(temp, Marker));
      if left < 5 { return false, 0; }
      disk := SyncDir(disk);
      done, left := true, left - 5;
    }

    /** What an attempt does on its way out when it could not finish its temporary file. */
    method DropTemp(temp: Name, budget: nat, ghost p: Promotion, ghost start: Disk) returns (left: nat)
      requires temp.Temp? && Follows(start, disk, p, {temp})
      modifies this
      ensures Follows(start, disk, p, {temp})
      ensures budget == 0 ==> disk == old(disk)
      ensures budget > 0 ==> temp !in disk.View()
      ensures budget > 1 ==> disk.pending == []
    {
      hide Follows, ApplyAll;
      left := budget;
      if left == 0 { return; }
      UnlinkFollows(disk, p, temp);
      FollowsOn(start, disk, Submit(disk, Unlink(temp)), p, {temp}, {});
      assert {temp} + {} == {temp};
      disk := Submit(disk, Unlink(temp));
      left := left - 1;
      if left == 0 { return; }
      SyncDirFollows(disk, p);
      FollowsOn(start, disk, SyncDir(disk), p, {temp}, {});
      disk := SyncDir(disk);
      left := left - 1;
    }

    /** Removes the fence once the marker is in place. */
    method LiftFence(budget: nat, ghost p: Promotion) returns (done: bool)
      requires Marker in disk.View()
      modifies this
      ensures Follows(old(disk), disk, p, {})
      ensures disk == Lifted(old(disk), budget)
      ensures done <==> Fence !in old(disk.View()) || budget >= 2
      ensures done ==> Fence !in disk.View() && Marker in disk.View() && Temps(disk) == old(Temps(disk))
      ensures done ==> if Fence in old(disk.View()) then disk.pending == [] else disk == old(disk)
    {
      hide Follows, ApplyAll;
      NothingFollows(disk, p);
      if Fence in disk.View() {
        if budget < 1 { return false; }
        UnlinkFollows(disk, p, Fence);
        disk := Submit(disk, Unlink(Fence));
        if budget < 2 { return false; }
        SyncDirFollows(disk, p);
        FollowsOn(old(disk), disk, SyncDir(disk), p, {}, {});
        FollowsMore(old(disk), SyncDir(disk), p, {} + {}, {});
        disk := SyncDir(disk);
        assert disk.View() == old(disk.View()) - {Fence};
        assert Temps(disk) == old(Temps(disk));
      }
      done := true;
    }

    /** Nothing is left for an attempt to do. */
    predicate Handed()
      reads this
    {
      Marker in disk.View() && Fence !in disk.View() && Temps(disk) == {}
    }

    /**
     One attempt at the hand-over, stopped after `budget` operations. From a safe directory it
     leaves a safe one wherever it stops, never refuses, and stops short exactly when the budget does not reach. When
     it finishes the marker is in place and the fence and all leftovers are gone. What it then
     reports lasts exactly when there was something left to do, which ends in an fsync, or it was durable already.
     */
    method ArmPromotedMarker(source: map<Name, Bytes>, digest: map<Name, Bytes>, payload: Bytes,
                             pid: nat, nonce: nat, writeFails: bool, budget: nat)
      returns (r: Outcome)
      modifies this
      ensures Follows(old(disk), disk, Promotion(source, payload), {Temp(pid, nonce)})
      ensures Safe(old(disk), Promotion(source, payload)) && Clean(source) && digest == SourceHash(source)
        && !writeFails
        ==> r != Refused
      ensures r == Created || r == Existing ==> Handed()
      ensures r == Existing <==> r != Refused && r != Stopped && Marker in old(disk.View())
      ensures r == Created || r == Existing ==> disk.pending == if old(Handed()) then old(disk.pending) else []
      ensures r != Refused ==> (r == Stopped <==> budget < old(Needed(disk)))
      ensures r != Refused && old(Temps(disk)) == {} ==> disk == Attempted(old(disk), Temp(pid, nonce), payload, budget)
      ensures (r == Created || r == Existing) && Tame(old(disk)) ==>
        (MarkerLasts(disk) <==> Marker in old(disk).durable || !old(Handed()))
      ensures (r == Created || r == Existing) && Tame(old(disk)) && Safe(old(disk), Promotion(source, payload)) ==>
        (HandoverLasts(disk) <==> Fence !in old(disk).durable || !old(Handed()))
    {
      hide Follows, ApplyAll, Safe, Tame, MarkerLasts, HandoverLasts, Installed, Lifted, Attempted, TransitionHash,
           SourceHash, Contents;
      AttemptedIs(disk, Temp(pid, nonce), payload, budget);
      ghost var p := Promotion(source, payload);
      ghost var d0 := disk;
      ghost var safe := Safe(disk, p);
      ghost var made := {Temp(pid, nonce)};
      NothingFollows(disk, p);
      FollowsMore(d0, disk, p, {}, made);
      if SourceHash(source) != digest { return Refused; }
      if safe { SafeMarker(disk, p); SafeTransition(disk, p); }
      var left := budget;
      var done: bool;
      if Marker in disk.View() {
        var ino := disk.View()[Marker];
        if ino !in disk.inodes || disk.inodes[ino].bytes != payload || disk.inodes[ino].mode != MARKER_MODE {
          return Refused;
        }
        if TransitionHash(Contents(disk)) != TransitionHash(source) { return Refused; }
        done, left := CleanupTemps(left, p);
        FollowsMore(d0, disk, p, {}, made);
        if !done { return Stopped; }
        r := Existing;
      } else {
        if Fence !in disk.View() { return Refused; }
        if TransitionHash(Contents(disk)) != TransitionHash(source) { return Refused; }
        done, left := CleanupTemps(left, p);
        FollowsMore(d0, disk, p, {}, made);
        if !done { return Stopped; }
        if safe && Clean(source) { FollowsSafe(d0, disk, p, {}); SafeSource(disk, p); }
        if SourceHash(Contents(disk)) != digest { return Refused; }
        ghost var cleaned := disk;
        Unlisted(disk, Temp(pid, nonce));
        InstalledView(disk, Temp(pid, nonce), payload);
        done, left := InstallMarker(payload, pid, nonce, writeFails, left, p);
        FollowsOn(d0, cleaned, disk, p, {}, made);
        assert {} + made == made;
        if !done { return if writeFails then Refused else Stopped; }
        r := Created;
        assert Temps(disk) == Temps(cleaned);
      }
      ghost var before := disk;
      done := LiftFence(left, p);
      FollowsOn(d0, before, disk, p, made, {});
      assert made + {} == made;
      if !done { return Stopped; }
      WhatLasts(d0, disk, p, made);
    }

    /**
     A crash loses any suffix of the unsynced directory operations and may tear unsynced files. What was safe stays
     safe, and nothing that lasts is lost.
     */
    method LosePower(kept: nat, torn: Ino -> Bytes)
      requires kept <= |disk.pending|
      modifies this
      ensures disk == PowerLoss(old(disk), kept, torn)
      ensures forall p :: Safe(old(disk), p) ==> Safe(disk, p)
      ensures Tame(disk) && TempNames(disk) <= TempNames(old(disk))
      ensures MarkerLasts(old(disk)) ==> MarkerLasts(disk) && Marker in disk.View()
      ensures HandoverLasts(old(disk)) ==> HandoverLasts(disk) && Marker in disk.View() && Fence !in disk.View()
    {
      hide Safe, TempNames;
      forall p | Safe(disk, p) ensures Safe(PowerLoss(disk, kept, torn), p) { PowerLossSafe(disk, p, kept, torn); }
      PowerLossTemps(disk, kept, torn);
      PowerLossLasts(disk, kept, torn);
      disk := PowerLoss(disk, kept, torn);
    }

    /**
     Any schedule of interrupted attempts, failing writes among them, and power losses keeps the board
     fenced, by the fence or by a whole marker, with its domain bytes unchanged; no attempt in it
     refuses unless its write fails; and one further attempt completes the hand-over, given eight
     operations and one more for each temporary file the schedule can have left.
     */
    method RunSchedule(events: seq<Event>, source: map<Name, Bytes>, payload: Bytes, pid: nat, nonce: nat, budget: nat)
      returns (r: Outcome, outcomes: seq<Option<Outcome>>)
      requires Safe(disk, Promotion(source, payload)) && Clean(source)
      modifies this
      ensures Safe(disk, Promotion(source, payload)) && (old(Tame(disk)) ==> Tame(disk))
      ensures r == Created || r == Existing || r == Stopped
      ensures r == Created || r == Existing ==> Handed()
      ensures budget >= old(|TempNames(disk)|) + |events| + 8 ==> r != Stopped
      ensures |outcomes| == |events|
      ensures forall i :: 0 <= i < |events| ==> (outcomes[i].Some? <==> events[i].Attempt?)
      ensures forall i :: 0 <= i < |events| && outcomes[i] == Some(Refused) ==> events[i].writeFails
    {
      hide Follows, Safe, Tame, TempNames, HandoverLasts, MarkerLasts, Attempted, Needed;
      ghost var p := Promotion(source, payload);
      ghost var names := TempNames(disk);
      outcomes := [];
      for i := 0 to |events|
        invariant Safe(disk, p) && (old(Tame(disk)) ==> Tame(disk))
        invariant TempNames(disk) <= names && |names| <= old(|TempNames(disk)|) + i
        invariant |outcomes| == i
        invariant forall k :: 0 <= k < i ==> (outcomes[k].Some? <==> events[k].Attempt?)
        invariant forall k :: 0 <= k < i && outcomes[k] == Some(Refused) ==> events[k].writeFails
      {
        ghost var before := disk;
        match events[i]
        case Attempt(pid, nonce, writeFails, budget) =>
          var outcome := ArmPromotedMarker(source, SourceHash(source), payload, pid, nonce, writeFails, budget);
          outcomes := outcomes + [Some(outcome)];
          FollowsNames(before, disk, p, {Temp(pid, nonce)});
          names := names + {Temp(pid, nonce)};
        case Loss(kept, torn) =>
          outcomes := outcomes + [None];
          if kept <= |disk.pending| {
            LosePower(kept, torn);
          }
      }
      NeededBounded(disk);
      Sorting.SubsetCount(TempNames(disk), names);
      ghost var before := disk;
      r := ArmPromotedMarker(source, SourceHash(source), payload, pid, nonce, false, budget);
      FollowsNames(before, disk, p, {Temp(pid, nonce)});
    }
  }

  lemma NothingFollows(d: Disk, p: Promotion)
    ensures Follows(d, d, p, {})
  {
    hide Safe, Tame, TempNames;
  }

  lemma FollowsMore(d: Disk, r: Disk, p: Promotion, made: set<Name>, more: set<Name>)
    requires Follows(d, r, p, made) && made <= more
    ensures Follows(d, r, p, more)
  {
    hide Safe, Tame, TempNames;
  }

  lemma FollowsSafe(d: Disk, r: Disk, p: Promotion, made: set<Name>)
    requires Follows(d, r, p, made) && Safe(d, p)
    ensures Safe(r, p)
  {
    hide Safe, Tame, TempNames;
  }

  lemma FollowsNames(d: Disk, r: Disk, p: Promotion, made: set<Name>)
    requires Follows(d, r, p, made)
    ensures TempNames(r) <= TempNames(d) + made && (Safe(d, p) ==> Safe(r, p)) && (Tame(d) ==> Tame(r))
  {
    hide Safe, Tame, TempNames;
  }

  lemma SafeMarker(d: Disk, p: Promotion)
    requires Safe(d, p)
    ensures Fence in d.View() || Marker in d.View()
    ensures Marker in d.View() ==>
      && d.View()[Marker] in d.inodes
      && d.inodes[d.View()[Marker]].bytes == p.payload && d.inodes[d.View()[Marker]].mode == MARKER_MODE
  {
    hide Safe;
    SafeView(d, p);
  }

  lemma NeededBounded(d: Disk)
    ensures Needed(d) <= |TempNames(d)| + 8
  {
    assert LeftBy(d, |d.pending|) == d.View() by { assert d.pending[..|d.pending|] == d.pending; }
    TempsListed(d, |d.pending|);
    assert Temps(d) == TempsIn(d.View());
    hide TempNames;
    Sorting.SubsetCount(Temps(d), TempNames(d));
  }

  /** What an attempt reports lasts if it did something, because that ends in an fsync, or if it lasted before. */
  lemma WhatLasts(d: Disk, r: Disk, p: Promotion, made: set<Name>)
    requires Follows(d, r, p, made)
    requires Marker in r.View() && Fence !in r.View()
    requires r == d || r.pending == []
    ensures Tame(d) && r != d ==> MarkerLasts(r)
    ensures Tame(d) ==> (r == d ==> (MarkerLasts(r) <==> Marker in d.durable))
    ensures Tame(d) && Safe(d, p) && r != d ==> HandoverLasts(r)
    ensures Tame(d) && Safe(d, p) ==> (r == d ==> (HandoverLasts(r) <==> Fence !in d.durable))
  {
    hide Safe, TempNames, MarkerLasts, HandoverLasts, Tame;
    if Tame(d) { LastsWhenDurable(r, p); }
    if r.pending == [] { assert r.View() == r.durable; }
  }

  lemma PowerLossLasts(d: Disk, kept: nat, torn: Ino -> Bytes)
    requires kept <= |d.pending|
    ensures MarkerLasts(d) ==> MarkerLasts(PowerLoss(d, kept, torn)) && Marker in PowerLoss(d, kept, torn).View()
    ensures HandoverLasts(d) ==>
      var r := PowerLoss(d, kept, torn);
      HandoverLasts(r) && Marker in r.View() && Fence !in r.View()
  {
    var r := PowerLoss(d, kept, torn);
    assert r.durable == LeftBy(d, kept) == r.View();
    forall k | 0 <= k <= |r.pending| ensures LeftBy(r, k) == r.durable {
      assert r.pending[..k] == [];
    }
  }

  // ----- Where the hand-over starts, and what its end does not promise -----

  /** A frozen board: its files are durable and equal to the imported snapshot. */
  ghost predicate Frozen(d: Disk, p: Promotion) {
    && d.pending == [] && Referenced(d, d.durable)
    && d.durable.Keys == p.source.Keys && Clean(p.source)
    && forall n :: n in d.durable ==> HoldsBytes(d, d.durable[n], p.source[n])
  }

  /** Such a board is safe, and has nothing an attempt could have left. */
  lemma FrozenIsSafe(d: Disk, p: Promotion)
    requires Frozen(d, p)
    ensures Safe(d, p) && Tame(d) && TempNames(d) == {}
  {
    forall k | 0 <= k <= |d.pending|
      ensures Referenced(d, ApplyAll(d.durable, d.pending[..k])) && Good(d, p, ApplyAll(d.durable, d.pending[..k]))
    {
      assert d.pending[..k] == [];
    }
  }

  /**
   On every frozen board: an attempt killed between the rename and its fsync, a second one killed between unlinking the
   fence and its fsync, and a third that finds everything done and reports the marker as existing
   without an fsync of its own. A power loss then takes the marker away and brings the fence back.
   */
  method ReportedMarkerVanishes(board: BoardDirectory, source: map<Name, Bytes>, payload: Bytes)
    returns (first: Outcome, second: Outcome, report: Outcome)
    requires Frozen(board.disk, Promotion(source, payload))
    modifies board
    ensures first == Stopped && second == Stopped && report == Existing
    ensures Marker !in board.disk.View() && Fence in board.disk.View()
    ensures Safe(board.disk, Promotion(source, payload))
  {
    hide Safe, Follows, MarkerLasts, HandoverLasts, ApplyAll, TempNames, Tame, Installed;
    ghost var p := Promotion(source, payload);
    ghost var d0 := board.disk;
    FrozenIsSafe(d0, p);
    FrozenView(d0, p);
    InstalledView(d0, Temp(1, 1), payload);
    first := board.ArmPromotedMarker(source, SourceHash(source), payload, 1, 1, false, 4);
    FollowsSafe(d0, board.disk, p, {Temp(1, 1)});
    ghost var d1 := board.disk;
    assert Temps(d1) == {};
    second := board.ArmPromotedMarker(source, SourceHash(source), payload, 2, 2, false, 1);
    FollowsSafe(d1, board.disk, p, {Temp(2, 2)});
    ghost var d2 := board.disk;
    assert Temps(d2) == {};
    report := board.ArmPromotedMarker(source, SourceHash(source), payload, 3, 3, false, 0);
    FollowsSafe(d2, board.disk, p, {Temp(3, 3)});
    assert board.disk.durable == d0.durable;
    assert board.disk.pending[..0] == [] && ApplyAll(d0.durable, []) == d0.durable by { NothingApplied(d0.durable); }
    board.LosePower(0, i => []);
  }

  lemma NothingApplied(dir: Dir)
    ensures ApplyAll(dir, []) == dir
  {
  }

  lemma FrozenView(d: Disk, p: Promotion)
    requires Frozen(d, p)
    ensures d.View() == d.durable && Temps(d) == {} && Marker !in d.View() && Fence in d.View()
  {
    forall n | n in d.View() ensures !n.Temp? {
      assert n in p.source;
    }
  }

  /** The smallest such board: nothing but its fence. */
  method SmallestBoardVanishes() returns (board: BoardDirectory, report: Outcome)
    ensures fresh(board) && report == Existing && Marker !in board.disk.View()
  {
    board := new BoardDirectory(Disk(map[Fence := 0], [], map[0 := Inode([7], true, MARKER_MODE)], 1));
    var first, second;
    first, second, report := ReportedMarkerVanishes(board, map[Fence := [7]], [9]);
  }
}
