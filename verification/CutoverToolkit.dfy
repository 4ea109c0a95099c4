/**
 The toolkit's two writing commands over the live files and the activation journal.

 Every journal append and every file write takes one unit of `budget`; a command that
 runs out of budget stops on the spot, so its contract holds of every state a crash
 can leave behind.
 */
module CutoverToolkit {
  import opened Wrappers
  import opened CutoverJournal
  import opened CutoverInvariants
  import opened CutoverActivation
  import V = CutoverValidator

  datatype Outcome = Completed | Refused | Stopped

  datatype Artifact = Artifact(identifier: Ident, rel: Path, sha: Sha, mode: int)

  predicate ArtifactIntact(backup: Files, a: Artifact) {
    a.rel in backup && Sha256(backup[a.rel].bytes) == a.sha && backup[a.rel].mode == a.mode
  }

  /** The backup still is what its manifest says, and covers the whole rollback unit. */
  predicate BackupIntact(cfg: Config, manifest: Option<seq<Artifact>>, backup: Files) {
    && manifest.Some? && manifest.value != []
    && (forall a :: a in manifest.value ==> ArtifactIntact(backup, a))
    && (forall id :: id in cfg.unit ==> exists a :: a in manifest.value && a.identifier == id)
  }

  ghost predicate InTable(steps: seq<Step>, t: Table) {
    forall s :: s in steps ==> s in t && t[s] != []
  }

  /** Journal writes plus file writes needed to restore the given steps. */
  ghost function RestoreWrites(steps: seq<Step>, t: Table): nat
    requires InTable(steps, t)
  {
    if steps == [] then 0
    else RestoreWrites(steps[..|steps| - 1], t) + 2 * |t[steps[|steps| - 1]][0].targets| + 1
  }

  lemma {:induction false} RestoreWritesPrefix(steps: seq<Step>, t: Table, i: nat)
    requires InTable(steps, t) && i <= |steps|
    ensures InTable(steps[..i], t) && RestoreWrites(steps[..i], t) <= RestoreWrites(steps, t)
  {
    if i < |steps| {
      RestoreWritesPrefix(steps[..|steps| - 1], t, i);
      assert steps[..|steps| - 1][..i] == steps[..i];
    } else {
      assert steps[..i] == steps;
    }
  }

  /** The later journal is the earlier one with entries appended. */
  predicate Appended(earlier: seq<Entry>, later: seq<Entry>) {
    earlier <= later
  }

  lemma AppendedTo(earlier: seq<Entry>, rest: seq<Entry>)
    ensures Appended(earlier, earlier + rest)
  {
  }

  lemma AppendedTwice(a: seq<Entry>, b: seq<Entry>, c: seq<Entry>)
    requires Appended(a, b) && Appended(b, c)
    ensures Appended(a, c)
  {
  }

  lemma {:induction false} SwapsForStepFewer(swaps: seq<Swap>, step: Step)
    ensures |SwapsForStep(swaps, step)| <= |swaps|
  {
    if swaps != [] { SwapsForStepFewer(swaps[1..], step); }
  }

  lemma {:induction false} UndoFewer(order: seq<Step>, t: Table)
    requires forall s :: s in order ==> s in t && t[s] != []
    ensures |Undo(order, t)| <= |order|
  {
    if order != [] { UndoFewer(order[..|order| - 1], t); }
  }

  lemma {:induction false} FewTargetsFewWrites(steps: seq<Step>, t: Table, n: nat)
    requires InTable(steps, t) && forall s :: s in steps ==> |t[s][0].targets| <= n
    ensures RestoreWrites(steps, t) <= |steps| * (2 * n + 1)
  {
    if steps != [] {
      FewTargetsFewWrites(steps[..|steps| - 1], t, n);
      assert |steps| * (2 * n + 1) == (|steps| - 1) * (2 * n + 1) + (2 * n + 1);
    }
  }

  /** What restoring everything the configuration allows for can take at most. */
  function WritesEnough(cfg: Config): nat {
    |cfg.plan| * (2 * |cfg.swaps| + 1)
  }

  lemma FewTargets(cfg: Config, es: seq<Entry>, backup: Files, s: Step)
    requires EntriesMatch(cfg, es, backup) && s in Group(es)
    ensures |Group(es)[s][0].targets| <= |cfg.swaps|
  {
    hide TargetMatches, Group;
    GroupStep(es, s, 0);
    SwapsForStepFewer(cfg.swaps, s);
  }

  lemma FewSteps(cfg: Config, es: seq<Entry>)
    requires Ordered(cfg, es)
    ensures |StepsNeedingRollback(es)| <= |cfg.plan|
  {
    hide Group, Moves, ExpectedMoves, Progressing, Advancing;
    UndoFewer(Present(es), Group(es));
  }

  lemma Product(a: nat, b: nat, c: nat)
    requires a <= b
    ensures a * c <= b * c
  {
  }

  lemma WritesBounded(cfg: Config, es: seq<Entry>, live: Files, backup: Files)
    requires Acceptable(cfg, es, live, backup) && InTable(StepsNeedingRollback(es), Group(es))
    ensures RestoreWrites(StepsNeedingRollback(es), Group(es)) <= WritesEnough(cfg)
  {
    hide RestoreWrites, QuietEqualsBackup, ModesOk, EntriesMatch, Ordered, StepsNeedingRollback, Group;
    var steps, n := StepsNeedingRollback(es), |cfg.swaps|;
    forall s | s in steps ensures |Group(es)[s][0].targets| <= n {
      FewTargets(cfg, es, backup, s);
    }
    FewTargetsFewWrites(steps, Group(es), n);
    FewSteps(cfg, es);
    Product(|steps|, |cfg.plan|, 2 * n + 1);
  }

  /** Fewer steps to undo never need more writes. */
  lemma {:induction false} SuffixWrites(steps: seq<Step>, t: Table, t': Table, m: nat)
    requires InTable(steps, t) && m <= |steps|
    requires forall s :: s in steps ==> s in t' && t'[s] != [] && t'[s][0] == t[s][0]
    ensures InTable(steps[m..], t') && RestoreWrites(steps[m..], t') <= RestoreWrites(steps, t)
  {
    if m == |steps| {
      assert steps[m..] == [];
    } else {
      var front := steps[..|steps| - 1];
      SuffixWrites(front, t, t', m);
      assert steps[m..][..|steps| - m - 1] == front[m..];
    }
  }

  lemma JournalSuffixWrites(es: seq<Entry>, rest: seq<Entry>, m: nat)
    requires m <= |StepsNeedingRollback(es)|
    requires StepsNeedingRollback(es + rest) == StepsNeedingRollback(es)[m..]
    ensures InTable(StepsNeedingRollback(es), Group(es)) && InTable(StepsNeedingRollback(es + rest), Group(es + rest))
    ensures RestoreWrites(StepsNeedingRollback(es + rest), Group(es + rest))
      <= RestoreWrites(StepsNeedingRollback(es), Group(es))
  {
    hide Group, Present, RestoreWrites;
    var steps := StepsNeedingRollback(es);
    forall s | s in steps
      ensures s in Group(es + rest) && Group(es + rest)[s] != [] && Group(es + rest)[s][0] == Group(es)[s][0]
    {
      BaselineStays(es, rest, s);
    }
    SuffixWrites(steps, Group(es), Group(es + rest), m);
  }

  /** What rolling back the given steps journals. */
  ghost function RolledBackEntries(steps: seq<Step>, t: Table): seq<Entry>
    requires InTable(steps, t)
  {
    if steps == [] then []
    else
      var s := steps[|steps| - 1];
      RolledBackEntries(steps[..|steps| - 1], t) + [Entry(s, RolledBack, t[s][0].targets)]
  }

  lemma NextRestored(steps: seq<Step>, t: Table, i: nat)
    requires InTable(steps, t) && i < |steps|
    ensures InTable(steps[..i], t) && InTable(steps[..i + 1], t)
    ensures RestoreWrites(steps[..i + 1], t) == RestoreWrites(steps[..i], t) + 2 * |t[steps[i]][0].targets| + 1
    ensures RolledBackEntries(steps[..i + 1], t)
      == RolledBackEntries(steps[..i], t) + [Entry(steps[i], RolledBack, t[steps[i]][0].targets)]
  {
    assert steps[..i + 1][..i] == steps[..i];
  }

  lemma ActiveIsSwapPath(cfg: Config, es: seq<Entry>, p: Path)
    ensures ActivePath(cfg, es, p) ==> SwapPath(cfg, p)
  {
    if ActivePath(cfg, es, p) {
      var sw :| ActiveSwap(cfg, es, sw) && sw.live == p;
    }
  }

  predicate InterruptedJournal(es: seq<Entry>) {
    exists s :: s in Present(es) && Last(Group(es)[s]) == Started
  }

  // ----- Matching targets to swaps -----

  lemma TargetOf(cfg: Config, backup: Files, step: Step, ts: seq<Target>, sw: Swap) returns (i: nat)
    requires WellFormed(cfg) && TargetsMatch(SwapsForStep(cfg.swaps, step), backup, ts)
    requires sw in cfg.swaps && sw.step == step
    ensures i < |ts| && ts[i].id == Some(sw.id) && ts[i].live == Some(sw.live) && sw.id in backup
  {
    var swaps := SwapsForStep(cfg.swaps, step);
    V.StepIdsUnique(cfg.swaps, step);
    assert sw in swaps;
    var k :| 0 <= k < |swaps| && swaps[k] == sw;
    i :| 0 <= i < |ts| && ts[i].id == Some(swaps[k].id);
    assert TargetMatches(swaps, backup, ts[i]);
    LookupSelf(swaps, k);
  }

  lemma SwapOf(cfg: Config, backup: Files, step: Step, ts: seq<Target>, i: nat) returns (sw: Swap)
    requires WellFormed(cfg) && TargetsMatch(SwapsForStep(cfg.swaps, step), backup, ts) && i < |ts|
    ensures sw in cfg.swaps && sw.step == step && sw.id in backup
    ensures ts[i].id == Some(sw.id) && ts[i].live == Some(sw.live)
    ensures ts[i].preSha == Some(Sha256(backup[sw.id].bytes))
  {
    var swaps := SwapsForStep(cfg.swaps, step);
    assert TargetMatches(swaps, backup, ts[i]);
    sw := Lookup(swaps, ts[i].id.value).value;
    assert sw in swaps;
  }

  /** Two targets of one step never share a live path. */
  lemma LivesDistinct(cfg: Config, backup: Files, step: Step, ts: seq<Target>, i: nat, j: nat)
    requires WellFormed(cfg) && TargetsMatch(SwapsForStep(cfg.swaps, step), backup, ts)
    requires i < |ts| && j < |ts| && i != j
    ensures ts[i].live != ts[j].live
  {
    var a := SwapOf(cfg, backup, step, ts, i);
    var b := SwapOf(cfg, backup, step, ts, j);
    assert ts[i].id != ts[j].id;
    if a.live == b.live { SwapUnique(cfg, a, b); }
  }

  class Toolkit {
    const cfg: Config
    const staged: Files
    const backup: Files
    const manifest: Option<seq<Artifact>>
    var live: Files
    var journal: seq<Entry>

    constructor (cfg: Config, staged: Files, backup: Files, manifest: Option<seq<Artifact>>, live: Files)
      ensures this.cfg == cfg && this.staged == staged && this.backup == backup && this.manifest == manifest
      ensures this.live == live && journal == []
    {
      this.cfg, this.staged, this.backup, this.manifest := cfg, staged, backup, manifest;
      this.live := live;
      journal := [];
    }

    // ----- Backup gate -----

    method VerifyBackupIntegrity() returns (ok: bool)
      ensures ok <==> BackupIntact(cfg, manifest, backup)
    {
      if manifest.None? || manifest.value == [] { return false; }
      var m := manifest.value;
      var seen: set<Ident> := {};
      var drift := 0;
      for i := 0 to |m|
        invariant drift >= 0 && (drift == 0 <==> forall a :: a in m[..i] ==> ArtifactIntact(backup, a))
        invariant forall id :: id in seen <==> exists a :: a in m[..i] && a.identifier == id
      {
        assert m[..i + 1] == m[..i] + [m[i]];
        seen := seen + {m[i].identifier};
        if !ArtifactIntact(backup, m[i]) { drift := drift + 1; }
      }
      assert m[..|m|] == m;
      ok := drift == 0 && forall id :: id in cfg.unit ==> id in seen;
    }

    /** Over an intact backup, current means exactly that every swap target equals its backup member. */
    method BackupIsCurrent() returns (ok: bool)
      ensures BackupIntact(cfg, manifest, backup) ==> (ok <==> AllRestored(cfg, live, backup))
    {
      if manifest.None? { return false; }
      var m := manifest.value;
      var recorded: map<Path, Sha> := map[];
      for i := 0 to |m|
        invariant forall p :: p in recorded ==> exists a :: a in m && a.rel == p && a.sha == recorded[p]
      {
        recorded := recorded[m[i].rel := m[i].sha];
      }
      var stale := 0;
      for i := 0 to |cfg.swaps|
        invariant stale >= 0
        invariant BackupIntact(cfg, manifest, backup) ==>
          (stale == 0 <==> forall k :: 0 <= k < i ==> Restored1(live, backup, cfg.swaps[k]))
      {
        var sw := cfg.swaps[i];
        if sw.id !in backup {
          stale := stale + 1;
        } else {
          var expected := if sw.id in recorded then recorded[sw.id] else Sha256(backup[sw.id].bytes);
          if BackupIntact(cfg, manifest, backup) && sw.id in recorded {
            var a :| a in m && a.rel == sw.id && a.sha == recorded[sw.id];
            assert ArtifactIntact(backup, a);
          }
          if sw.live !in live {
            stale := stale + 1;
          } else if Sha256(live[sw.live].bytes) != expected {
            stale := stale + 1;
          }
        }
      }
      ok := stale == 0;
    }

    // ----- Activation -----

    method PlanTargets(swaps: seq<Swap>) returns (targets: Option<seq<Target>>)
      ensures targets.Some? <==> AllStaged(staged, swaps)
      ensures targets.Some? ==> targets.value == PlannedTargets(staged, live, swaps)
    {
      var ts: seq<Target> := [];
      for i := 0 to |swaps|
        invariant AllStaged(staged, swaps[..i]) && ts == PlannedTargets(staged, live, swaps[..i])
      {
        if swaps[i].staged !in staged { return None; }
        assert swaps[..i + 1][..i] == swaps[..i];
        ts := ts + [PlannedTarget(staged, live, swaps[i])];
      }
      assert swaps[..|swaps|] == swaps;
      targets := Some(ts);
    }

    /** Writes a started step's files in order, until done or out of budget. */
    method WriteTargets(swaps: seq<Swap>, budget: nat) returns (written: nat, left: nat)
      requires AllStaged(staged, swaps)
      modifies this`live
      ensures written <= |swaps| && live == Replaced(staged, old(live), swaps[..written])
      ensures written < |swaps| ==> left == 0
      ensures written + left == budget
    {
      written, left := 0, budget;
      while written < |swaps|
        invariant written <= |swaps| && written + left == budget
        invariant live == Replaced(staged, old(live), swaps[..written])
      {
        if left == 0 { return; }
        var sw := swaps[written];
        assert swaps[..written + 1][..written] == swaps[..written];
        live := live[sw.live := Payload(staged, sw)];
        if Sha256(live[sw.live].bytes) != Sha256(staged[sw.staged].bytes) { assert false; }
        written, left := written + 1, left - 1;
      }
    }

    /** How many durable writes an activation stopped at `pt` has made. */
    ghost function Writes(pt: Point): nat
      requires Reached(cfg, staged, pt)
    {
      StepWrites(pt.k) + if pt.begun then 1 + pt.j else 0
    }

    ghost function StepWrites(k: nat): nat
      requires k <= |cfg.plan|
    {
      if k == 0 then 0 else StepWrites(k - 1) + |SwapsForStep(cfg.swaps, cfg.plan[k - 1])| + 2
    }

    /** What can make activation refuse, whatever the budget. */
    ghost predicate ActivationBlocked(confirmed: bool, otherGates: bool, rehearseFailAt: Option<Step>)
      reads this
    {
      || !confirmed || !otherGates || rehearseFailAt.Some?
      || !BackupIntact(cfg, manifest, backup) || !AllRestored(cfg, live, backup)
      || InterruptedJournal(journal)
      || exists sw :: sw in cfg.swaps && sw.staged !in staged
    }

    /**
     Activation, stopped after `budget` writes. Where it got to determines journal and live
     files completely. Over an empty journal rollback accepts the result exactly when the staged
     modes are in range; over any other journal it never accepts what an activation that got started leaves.
     */
    method RunActivate(confirmed: bool, otherGates: bool, rehearseFailAt: Option<Step>, budget: nat)
      returns (r: Outcome, ghost pt: Point)
      requires WellFormed(cfg)
      modifies this
      ensures Reached(cfg, staged, pt)
      ensures journal == old(journal) + JournalAt(cfg, staged, old(live), pt)
      ensures live == LiveAt(cfg, staged, old(live), pt)
      ensures r.Completed? ==> pt == Point(|cfg.plan|, false, 0)
      ensures r.Stopped? ==> Writes(pt) == budget
      ensures r.Refused? ==> old(ActivationBlocked(confirmed, otherGates, rehearseFailAt))
      ensures pt != Point(0, false, 0) ==> BackupIntact(cfg, manifest, backup) && old(AllRestored(cfg, live, backup))
      ensures old(journal) == [] && old(AllRestored(cfg, live, backup)) ==>
        && Coherent(cfg, journal, live, backup)
        && (Acceptable(cfg, journal, live, backup) <==> StagedModesOk(cfg, staged, pt.k + if pt.begun then 1 else 0))
      ensures old(journal) != [] && pt != Point(0, false, 0) ==> !Coherent(cfg, journal, live, backup)
    {
      r, pt := ActivateSteps(confirmed, otherGates, rehearseFailAt, budget);
      if old(journal) == [] && old(AllRestored(cfg, live, backup)) {
        StoppedActivationAcceptable(cfg, staged, old(live), backup, pt);
        assert journal == JournalAt(cfg, staged, old(live), pt);
      }
      if old(journal) != [] && pt != Point(0, false, 0) {
        StackedActivationRefused(cfg, staged, old(journal), old(live), pt, [], live, backup);
        assert journal + [] == journal;
      }
    }

    /** One step: plan its targets, journal it, write its files, journal it done. */
    method ActivateStep(k: nat, rehearse: bool, budget: nat, ghost es0: seq<Entry>, ghost live0: Files)
      returns (r: Outcome, ghost pt: Point, left: nat)
      requires k < |cfg.plan| && StagedUpTo(cfg, staged, k)
      requires journal == es0 + EntriesAfter(cfg, staged, live0, k) && live == LiveAfter(cfg, staged, live0, k)
      modifies this
      ensures Reached(cfg, staged, pt) && (pt.begun || pt.j == 0)
      ensures journal == es0 + JournalAt(cfg, staged, live0, pt)
      ensures live == LiveAt(cfg, staged, live0, pt)
      ensures r.Completed? ==> pt == Point(k + 1, false, 0) && Writes(pt) + left == StepWrites(k) + budget
      ensures r.Stopped? ==> Writes(pt) == StepWrites(k) + budget
      ensures r.Refused? ==> rehearse || exists sw :: sw in cfg.swaps && sw.staged !in staged
    {
      hide Group, Present, SwapsForStep, PlannedTargets, Replaced;
      left := budget;
      pt := Point(k, false, 0);
      var step := cfg.plan[k];
      var swaps := SwapsForStep(cfg.swaps, step);
      assert EntriesAfter(cfg, staged, live0, k) + [] == EntriesAfter(cfg, staged, live0, k);
      var targets := PlanTargets(swaps);
      if targets.None? {
        var n :| 0 <= n < |swaps| && swaps[n].staged !in staged;
        assert swaps[n] in swaps;
        return Refused, pt, left;
      }
      if left == 0 { return Stopped, pt, left; }
      pt := Point(k, true, 0);
      journal := journal + [Entry(step, Started, targets.value)];
      left := left - 1;
      assert journal == es0 + JournalAt(cfg, staged, live0, pt);
      assert swaps[..0] == [];
      ReplacedNothing(staged, live);
      if rehearse { return Refused, pt, left; }
      var written, rest := WriteTargets(swaps, left);
      pt := Point(k, true, written);
      left := rest;
      if written < |swaps| || rest == 0 { return Stopped, pt, left; }
      assert swaps[..written] == swaps;
      journal := journal + [Entry(step, Done, targets.value)];
      left := rest - 1;
      pt := Point(k + 1, false, 0);
      assert EntriesAfter(cfg, staged, live0, k + 1) + [] == EntriesAfter(cfg, staged, live0, k + 1);
      assert journal == es0 + EntriesAfter(cfg, staged, live0, k + 1);
      r := Completed;
    }

    lemma NothingReached()
      ensures Reached(cfg, staged, Point(0, false, 0))
      ensures JournalAt(cfg, staged, live, Point(0, false, 0)) == []
        && LiveAt(cfg, staged, live, Point(0, false, 0)) == live
    {
    }

    method ActivateSteps(confirmed: bool, otherGates: bool, rehearseFailAt: Option<Step>, budget: nat)
      returns (r: Outcome, ghost pt: Point)
      modifies this
      ensures Reached(cfg, staged, pt)
      ensures journal == old(journal) + JournalAt(cfg, staged, old(live), pt)
      ensures live == LiveAt(cfg, staged, old(live), pt)
      ensures r.Completed? ==> pt == Point(|cfg.plan|, false, 0)
      ensures r.Stopped? ==> Writes(pt) == budget
      ensures r.Refused? ==> old(ActivationBlocked(confirmed, otherGates, rehearseFailAt))
      ensures pt.k + (if pt.begun then 1 else 0) > 0 ==>
        BackupIntact(cfg, manifest, backup) && old(AllRestored(cfg, live, backup))
      ensures pt.begun || pt.j == 0
    {
      hide Group, Present, SwapsForStep, BackupIntact, AllRestored, EntriesAfter, LiveAfter, InterruptedJournal;
      pt := Point(0, false, 0);
      NothingReached();
      assert journal + [] == journal;
      var intact := VerifyBackupIntegrity();
      var current := BackupIsCurrent();
      if !confirmed || !otherGates || !intact || !current || InterruptedJournal(journal) {
        return Refused, pt;
      }
      if rehearseFailAt.Some? && rehearseFailAt.value !in cfg.plan { return Refused, pt; }
      var left := budget;
      var k := 0;
      r := Completed;
      while k < |cfg.plan|
        invariant k <= |cfg.plan| && pt == Point(k, false, 0) && Reached(cfg, staged, pt)
        invariant journal == old(journal) + JournalAt(cfg, staged, old(live), pt)
        invariant live == LiveAt(cfg, staged, old(live), pt)
        invariant Writes(pt) + left == budget
        invariant r == Completed
      {
        assert EntriesAfter(cfg, staged, old(live), k) + [] == EntriesAfter(cfg, staged, old(live), k);
        r, pt, left := ActivateStep(k, rehearseFailAt == Some(cfg.plan[k]), left, old(journal), old(live));
        if r != Completed { return; }
        k := k + 1;
      }
    }

    // ----- Rollback -----

    ghost predicate StepRestored(step: Step)
      reads this
    {
      forall sw :: sw in cfg.swaps && sw.step == step ==>
        sw.id in backup && sw.live in live && live[sw.live] == backup[sw.id]
    }

    /** One write to a live path of an active step. */
    method WriteLive(p: Path, f: File, ghost goal: Files)
      requires WellFormed(cfg) && Acceptable(cfg, journal, live, backup) && ActivePath(cfg, journal, p)
      requires FullyBacked(cfg, backup) && Settles(cfg, journal, live, backup, goal)
      modifies this`live
      ensures live == old(live)[p := f]
      ensures Acceptable(cfg, journal, live, backup) && Settles(cfg, journal, live, backup, goal)
    {
      hide Group, StepsNeedingRollback, Ordered, EntriesMatch, ModesOk, QuietEqualsBackup, Settles, FullyBacked;
      WriteActive(cfg, journal, live, backup, p, f);
      SettledWrite(cfg, journal, live, backup, p, f, goal);
      live := live[p := f];
    }

    /** Restores one step's files in reverse target order: replace the bytes, then the mode. */
    method RestoreTargets(step: Step, ts: seq<Target>, budget: nat, ghost goal: Files)
      returns (done: bool, left: nat)
      requires WellFormed(cfg) && Acceptable(cfg, journal, live, backup)
      requires step in StepsNeedingRollback(journal) && TargetsMatch(SwapsForStep(cfg.swaps, step), backup, ts)
      requires FullyBacked(cfg, backup) && Settles(cfg, journal, live, backup, goal)
      modifies this`live
      ensures Acceptable(cfg, journal, live, backup) && Settles(cfg, journal, live, backup, goal)
      ensures done ==> StepRestored(step) && left + 2 * |ts| == budget
      ensures !done ==> budget < 2 * |ts|
    {
      left := budget;
      var j := |ts|;
      hide Group, StepsNeedingRollback, Acceptable, Settles, FullyBacked, WellFormed, TargetsMatch, SwapsForStep;
      while j > 0
        invariant 0 <= j <= |ts| && left + 2 * (|ts| - j) == budget
        invariant Acceptable(cfg, journal, live, backup) && Settles(cfg, journal, live, backup, goal)
        invariant forall i :: j <= i < |ts| ==>
          && ts[i].id.Some? && ts[i].id.value in backup
          && ts[i].live.Some? && ts[i].live.value in live
          && live[ts[i].live.value] == backup[ts[i].id.value]
      {
        ghost var sw := SwapOf(cfg, backup, step, ts, j - 1);
        var t := ts[j - 1];
        var source := backup[t.id.value];
        var destination := t.live.value;
        assert ActiveSwap(cfg, journal, sw);
        forall i | j <= i < |ts| ensures ts[i].live.value != destination {
          LivesDistinct(cfg, backup, step, ts, i, j - 1);
        }
        if left == 0 { return false, 0; }
        WriteLive(destination, File(source.bytes, PRIVATE_FILE_MODE), goal);
        if Some(Sha256(live[destination].bytes)) != t.preSha { assert false; }
        if left == 1 { return false, 0; }
        WriteLive(destination, File(source.bytes, source.mode), goal);
        left := left - 2;
        j := j - 1;
      }
      forall sw | sw in cfg.swaps && sw.step == step
        ensures sw.id in backup && sw.live in live && live[sw.live] == backup[sw.id]
      {
        var i := TargetOf(cfg, backup, step, ts, sw);
      }
      done := true;
    }

    lemma RetireRestored(es: seq<Entry>, goal: Files)
      requires WellFormed(cfg) && Acceptable(cfg, es, live, backup)
      requires FullyBacked(cfg, backup) && Settles(cfg, es, live, backup, goal)
      requires StepsNeedingRollback(es) != [] && StepRestored(StepsNeedingRollback(es)[0])
      ensures var step := StepsNeedingRollback(es)[0];
        step in Group(es)
        && var es' := es + [Entry(step, RolledBack, Group(es)[step][0].targets)];
        && Acceptable(cfg, es', live, backup) && Settles(cfg, es', live, backup, goal)
        && StepsNeedingRollback(es') == StepsNeedingRollback(es)[1..]
    {
      hide Group, StepsNeedingRollback, Settles, ModesOk, Coherent;
      var step := StepsNeedingRollback(es)[0];
      UndoAppendRolledBack(es);
      AppendRolledBack(cfg, es, live, backup);
      var es' := es + [Entry(step, RolledBack, Group(es)[step][0].targets)];
      RetiredModes(es, step);
      SettledRetire(cfg, es, es', live, backup, goal);
    }

    lemma RetiredModes(es: seq<Entry>, step: Step)
      requires ModesOk(es) && step in Group(es)
      ensures ModesOk(es + [Entry(step, RolledBack, Group(es)[step][0].targets)])
    {
      GroupStep(es, step, 0);
      var first: Entry := Group(es)[step][0];
      var e := Entry(step, RolledBack, first.targets);
      forall x, i | x in es + [e] && 0 <= i < |x.targets| ensures ModeOk(x.targets[i]) {
        if x !in es { assert x == e && first in es; }
      }
    }

    /** Restores the step that is first in undo order and journals it as rolled back. */
    method RestoreStep(step: Step, ts: seq<Target>, budget: nat, ghost goal: Files) returns (done: bool, left: nat)
      requires WellFormed(cfg) && Acceptable(cfg, journal, live, backup)
      requires StepsNeedingRollback(journal) != [] && step == StepsNeedingRollback(journal)[0]
      requires step in Group(journal) && ts == Group(journal)[step][0].targets
      requires FullyBacked(cfg, backup) && Settles(cfg, journal, live, backup, goal)
      modifies this
      ensures Acceptable(cfg, journal, live, backup) && Settles(cfg, journal, live, backup, goal)
      ensures done ==>
        && left + 2 * |ts| + 1 == budget
        && journal == old(journal) + [Entry(step, RolledBack, ts)]
        && StepsNeedingRollback(journal) == StepsNeedingRollback(old(journal))[1..]
      ensures !done ==> journal == old(journal) && budget < 2 * |ts| + 1
    {
      hide Group, StepsNeedingRollback, Settles, Ordered, QuietEqualsBackup, FullyBacked, SwapsForStep, TargetsMatch,
           WellFormed, ModesOk;
      BaselineMatches(cfg, journal, backup, step);
      done, left := RestoreTargets(step, ts, budget, goal);
      if !done { return; }
      if left == 0 { return false, 0; }
      RetireRestored(journal, goal);
      journal := journal + [Entry(step, RolledBack, ts)];
      left := left - 1;
    }

    /** Undoes the steps in order until done or out of budget; `m` steps end up journaled as rolled back. */
    method RestoreSteps(steps: seq<Step>, recorded: map<Step, seq<Target>>, budget: nat, ghost goal: Files)
      returns (done: bool, ghost m: nat)
      requires WellFormed(cfg) && Acceptable(cfg, journal, live, backup)
      requires steps == StepsNeedingRollback(journal) && InTable(steps, Group(journal))
      requires forall s :: s in steps ==> s in recorded && recorded[s] == Group(journal)[s][0].targets
      requires FullyBacked(cfg, backup) && Settles(cfg, journal, live, backup, goal)
      modifies this
      ensures Acceptable(cfg, journal, live, backup) && Settles(cfg, journal, live, backup, goal)
      ensures m <= |steps| && StepsNeedingRollback(journal) == steps[m..]
      ensures InTable(steps[..m], Group(old(journal)))
      ensures journal == old(journal) + RolledBackEntries(steps[..m], Group(old(journal)))
      ensures done ==> m == |steps|
      ensures !done ==> budget < RestoreWrites(steps, Group(old(journal)))
    {
      hide *;
      ghost var t0: Table := Group(journal);
      ghost var es0 := journal;
      ghost var undone: seq<Entry> := [];
      var left: nat := budget;
      var i := 0;
      m := 0;
      done := true;
      assert steps[0..] == steps && steps[..0] == [];
      NothingRestored(t0);
      while i < |steps|
        invariant i <= |steps| && InTable(steps[..i], t0) && m == i && done
        invariant Acceptable(cfg, journal, live, backup) && Settles(cfg, journal, live, backup, goal)
        invariant StepsNeedingRollback(journal) == steps[i..]
        invariant undone == RolledBackEntries(steps[..i], t0) && journal == es0 + undone
        invariant left + RestoreWrites(steps[..i], t0) == budget
      {
        var step := steps[i];
        NextRestored(steps, t0, i);
        RestoreWritesPrefix(steps, t0, i + 1);
        TableHas(steps, t0, step);
        BaselineStays(es0, undone, step);
        assert steps[i..][0] == step && steps[i..][1..] == steps[i + 1..];
        var ts := recorded[step];
        done, left := RestoreStep(step, ts, left, goal);
        if !done { return; }
        assert es0 + undone + [Entry(step, RolledBack, ts)] == es0 + (undone + [Entry(step, RolledBack, ts)]);
        undone := undone + [Entry(step, RolledBack, ts)];
        i := i + 1;
        m := i;
      }
      assert steps[..|steps|] == steps;
    }

    lemma NothingRestored(t: Table)
      ensures InTable([], t) && RestoreWrites([], t) == 0 && RolledBackEntries([], t) == []
    {
    }

    lemma TableHas(steps: seq<Step>, t: Table, step: Step)
      requires InTable(steps, t) && step in steps
      ensures step in t && t[step] != []
    {
    }

    /** Rollback only goes ahead on an intact, coherent backup and an acceptable journal. */
    ghost predicate RollbackAllowed(confirmed: bool, backupCoherent: bool)
      reads this
    {
      confirmed && backupCoherent && BackupIntact(cfg, manifest, backup) && Acceptable(cfg, journal, live, backup)
    }

    /**
     Rollback, stopped after `budget` writes. A refused journal is left alone. An accepted one
     stays acceptable, its active steps only ever leave in undo order, and every `goal` the
     journal was heading for it still heads for; a run that is not stopped arrives there.
     */
    method RunRollback(confirmed: bool, backupCoherent: bool, restoredCoherent: bool, budget: nat, ghost goal: Files)
      returns (r: Outcome, ghost m: nat)
      requires WellFormed(cfg)
      requires FullyBacked(cfg, backup) ==> Settles(cfg, journal, live, backup, goal)
      modifies this
      ensures !old(RollbackAllowed(confirmed, backupCoherent)) ==>
        r.Refused? && journal == old(journal) && live == old(live)
      ensures old(RollbackAllowed(confirmed, backupCoherent)) ==>
        && Acceptable(cfg, journal, live, backup)
        && FullyBacked(cfg, backup) && Settles(cfg, journal, live, backup, goal)
        && m <= |StepsNeedingRollback(old(journal))|
        && StepsNeedingRollback(journal) == StepsNeedingRollback(old(journal))[m..]
        && InTable(StepsNeedingRollback(old(journal))[..m], Group(old(journal)))
        && journal == old(journal) + RolledBackEntries(StepsNeedingRollback(old(journal))[..m], Group(old(journal)))
      ensures old(RollbackAllowed(confirmed, backupCoherent)) && !r.Stopped? ==>
        && StepsNeedingRollback(journal) == [] && live == goal
        && AllRestored(cfg, live, backup)
      ensures r.Stopped? ==>
        && InTable(StepsNeedingRollback(old(journal)), Group(old(journal)))
        && budget < RestoreWrites(StepsNeedingRollback(old(journal)), Group(old(journal)))
      ensures old(RollbackAllowed(confirmed, backupCoherent)) && !r.Stopped? ==>
        (r.Completed? <==> restoredCoherent || StepsNeedingRollback(old(journal)) == [])
    {
      m := 0;
      if !confirmed { return Refused, m; }
      var intact := VerifyBackupIntegrity();
      if !intact || !backupCoherent { return Refused, m; }
      var steps := V.StepsToUndo(journal);
      var recorded := V.ValidateRollbackJournal(cfg, journal, steps, live, backup);
      if recorded.Err? { return Refused, m; }
      hide Group, Settles, Ordered, QuietEqualsBackup, FullyBacked, EntriesMatch, ModesOk, BackupIntact,
           StepsNeedingRollback;
      AllBacked(cfg, journal, live, backup);
      Recorded(journal);
      var done: bool;
      done, m := RestoreSteps(steps, recorded.value, budget, goal);
      if !done { return Stopped, m; }
      RestEqualsBackup(cfg, journal, live, backup);
      RestIsGoal(cfg, journal, live, backup, goal);
      r := if restoredCoherent || steps == [] then Completed else Refused;
    }

    lemma Recorded(es: seq<Entry>)
      ensures InTable(StepsNeedingRollback(es), Group(es))
    {
      forall s | s in StepsNeedingRollback(es) ensures s in Group(es) && Group(es)[s] != [] {
        assert s in Present(es);
      }
    }

    // ----- Whole runs -----

    /** One more rollback of a journal rollback accepts. */
    method RollBackOnce(budget: nat, ghost goal: Files) returns (r: Outcome, ghost m: nat)
      requires WellFormed(cfg) && RollbackAllowed(true, true)
      requires FullyBacked(cfg, backup) && Settles(cfg, journal, live, backup, goal)
      requires InTable(StepsNeedingRollback(journal), Group(journal))
      modifies this
      ensures RollbackAllowed(true, true) && FullyBacked(cfg, backup) && Settles(cfg, journal, live, backup, goal)
      ensures Appended(old(journal), journal) && m <= |StepsNeedingRollback(old(journal))|
      ensures StepsNeedingRollback(journal) == StepsNeedingRollback(old(journal))[m..]
      ensures InTable(StepsNeedingRollback(journal), Group(journal))
      ensures RestoreWrites(StepsNeedingRollback(journal), Group(journal))
        <= old(RestoreWrites(StepsNeedingRollback(journal), Group(journal)))
      ensures r.Completed? ==> StepsNeedingRollback(journal) == [] && live == goal && AllRestored(cfg, live, backup)
      ensures !r.Completed? ==> budget < old(RestoreWrites(StepsNeedingRollback(journal), Group(journal)))
      ensures StepsNeedingRollback(old(journal)) == [] ==> journal == old(journal) && live == old(live)
    {
      hide *;
      ghost var es := journal;
      Allowed();
      RestedIsGoal(goal);
      r, m := RunRollback(true, true, true, budget, goal);
      Allowed();
      ghost var rest := RolledBackEntries(StepsNeedingRollback(es)[..m], Group(es));
      JournalSuffixWrites(es, rest, m);
      AppendedTo(es, rest);
      if StepsNeedingRollback(es) == [] {
        NothingAppended(es, m);
        RestedIsGoal(goal);
      }
    }

    lemma NothingAppended(es: seq<Entry>, m: nat)
      requires StepsNeedingRollback(es) == [] && m == 0
      ensures InTable(StepsNeedingRollback(es)[..m], Group(es))
      ensures es + RolledBackEntries(StepsNeedingRollback(es)[..m], Group(es)) == es
    {
      hide StepsNeedingRollback, Group;
      assert StepsNeedingRollback(es)[..m] == [];
    }

    /**
     Rollback rerun with the given budgets, however often it is stopped: the journal is only appended to, the steps
     still to undo are a suffix of the first ones, the goal never moves, and a last run with budget enough
     for the whole journal arrives there. With nothing to undo no run changes anything.
     */
    method RollBackRepeatedly(budgets: seq<nat>, ghost goal: Files) returns (r: Outcome, ghost at: nat)
      requires WellFormed(cfg) && RollbackAllowed(true, true)
      requires FullyBacked(cfg, backup) ==> Settles(cfg, journal, live, backup, goal)
      modifies this
      ensures RollbackAllowed(true, true)
      ensures FullyBacked(cfg, backup) && Settles(cfg, journal, live, backup, goal)
      ensures Appended(old(journal), journal) && at <= |StepsNeedingRollback(old(journal))|
      ensures StepsNeedingRollback(journal) == StepsNeedingRollback(old(journal))[at..]
      ensures r.Completed? ==> StepsNeedingRollback(journal) == [] && live == goal && AllRestored(cfg, live, backup)
      ensures InTable(StepsNeedingRollback(old(journal)), Group(old(journal)))
      ensures budgets != [] && !r.Completed? ==>
        budgets[|budgets| - 1] < RestoreWrites(StepsNeedingRollback(old(journal)), Group(old(journal)))
      ensures StepsNeedingRollback(old(journal)) == [] ==> journal == old(journal) && live == old(live)
    {
      hide *;
      r, at := Stopped, 0;
      ghost var steps, es0, live0 := StepsNeedingRollback(journal), journal, live;
      Recorded(journal);
      Allowed();
      AcceptableBacked(journal);
      ghost var bound := RestoreWrites(steps, Group(es0));
      AppendedTo(es0, []);
      assert steps[0..] == steps && es0 + [] == es0;
      for i := 0 to |budgets|
        invariant RollbackAllowed(true, true) && FullyBacked(cfg, backup) && Settles(cfg, journal, live, backup, goal)
        invariant Appended(es0, journal) && at <= |steps| && StepsNeedingRollback(journal) == steps[at..]
        invariant InTable(StepsNeedingRollback(journal), Group(journal))
        invariant RestoreWrites(StepsNeedingRollback(journal), Group(journal)) <= bound
        invariant r.Completed? ==> StepsNeedingRollback(journal) == [] && live == goal && AllRestored(cfg, live, backup)
        invariant i > 0 ==> r.Completed? || budgets[i - 1] < bound
        invariant steps == [] ==> journal == es0 && live == live0
      {
        ghost var es := journal;
        ghost var m: nat;
        r, m := RollBackOnce(budgets[i], goal);
        AppendedTwice(es0, es, journal);
        Dropped(steps, at, m);
        at := at + m;
      }
    }

    lemma Dropped(steps: seq<Step>, at: nat, m: nat)
      requires at <= |steps| && m <= |steps[at..]|
      ensures at + m <= |steps| && steps[at..][m..] == steps[at + m..]
    {
    }

    /**
     Activation over a journal that records nothing but undone steps: it is not refused, and once it has journaled
     its first step no continuation of the journal is ever acceptable again, whatever the live files.
     */
    method ActivateAgain(budget: nat) returns (first: Outcome, undone: Outcome, again: Outcome)
      requires WellFormed(cfg) && journal == [] && cfg.plan != [] && budget > 0
      requires BackupIntact(cfg, manifest, backup) && AllRestored(cfg, live, backup)
      requires forall sw :: sw in cfg.swaps ==> sw.staged in staged && StagedModeOk(staged, sw)
      modifies this
      ensures !first.Refused? && undone.Completed? && !again.Refused?
      ensures forall rest, files :: !Acceptable(cfg, journal + rest, files, backup)
    {
      hide Group, Present, FullyBacked, Coherent, BackupIntact, AllRestored, WellFormed, ModesOk, InterruptedJournal,
           SwapsForStep, LiveAt, JournalAt, StagedModeOk, StepsNeedingRollback, RestoreWrites, WritesEnough, Writes,
           Reached;
      ghost var pt: Point;
      NotInterrupted([]);
      first, pt := RunActivate(true, true, None, budget);
      WritesStart(pt);
      StagedIsReached(pt);
      ModesInRange(pt.k + if pt.begun then 1 else 0);
      AcceptableBacked(journal);
      FirstJournaled(cfg, staged, old(live), pt);
      Recorded(journal);
      WritesBounded(cfg, journal, live, backup);
      GoalSettles(cfg, journal, live, backup);
      ghost var at: nat;
      undone, at := RollBackRepeatedly([WritesEnough(cfg)], Goal(journal, live, backup, cfg.swaps));
      NotInterrupted(journal);
      ghost var es, live1 := journal, live;
      again, pt := RunActivate(true, true, None, 1);
      WritesStart(pt);
      forall rest, files ensures !Acceptable(cfg, journal + rest, files, backup) {
        StackedActivationRefused(cfg, staged, es, live1, pt, rest, files, backup);
      }
    }

    lemma NotInterrupted(es: seq<Entry>)
      ensures StepsNeedingRollback([]) == []
      ensures StepsNeedingRollback(es) == [] ==> !InterruptedJournal(es)
    {
      if InterruptedJournal(es) {
        var s :| s in Present(es) && Last(Group(es)[s]) == Started;
        assert s in StepsNeedingRollback(es);
      }
    }

    lemma WritesStart(pt: Point)
      requires Reached(cfg, staged, pt)
      ensures Writes(pt) > 0 ==> pt.k + (if pt.begun then 1 else 0) > 0
    {
    }

    lemma StagedIsReached(pt: Point)
      requires Reached(cfg, staged, pt)
      ensures StagedUpTo(cfg, staged, pt.k + if pt.begun then 1 else 0)
    {
    }

    lemma Allowed()
      ensures RollbackAllowed(true, true) <==>
        BackupIntact(cfg, manifest, backup) && Acceptable(cfg, journal, live, backup)
    {
    }

    lemma AcceptableBacked(es: seq<Entry>)
      requires WellFormed(cfg) && Acceptable(cfg, es, live, backup)
      ensures FullyBacked(cfg, backup)
    {
      AllBacked(cfg, es, live, backup);
    }

    lemma RestedIsGoal(goal: Files)
      requires FullyBacked(cfg, backup) && Settles(cfg, journal, live, backup, goal)
      ensures StepsNeedingRollback(journal) == [] ==> live == goal
    {
      if StepsNeedingRollback(journal) == [] { RestIsGoal(cfg, journal, live, backup, goal); }
    }

    /**
     From a fresh backup and an empty journal: activate, stopping anywhere, then roll back,
     stopping any number of times. Once a rollback completes, every swap target is byte-equal
     to its backup and no other file has changed; one with budget enough does complete.
     */
    method ActivateThenRollBack(budget: nat, budgets: seq<nat>) returns (r: Outcome)
      requires WellFormed(cfg) && journal == []
      requires BackupIntact(cfg, manifest, backup) && AllRestored(cfg, live, backup)
      requires forall sw :: sw in cfg.swaps && sw.staged in staged ==> StagedModeOk(staged, sw)
      modifies this
      ensures budgets != [] && budgets[|budgets| - 1] >= WritesEnough(cfg) ==> r.Completed?
      ensures r.Completed? ==> AllRestored(cfg, live, backup)
      ensures r.Completed? ==> forall p :: !SwapPath(cfg, p) ==>
        (p in live <==> p in old(live)) && (p in live ==> live[p] == old(live)[p])
    {
      hide Group, Present, StepsNeedingRollback, FullyBacked, Coherent, BackupIntact, AllRestored, WellFormed, ModesOk,
           SwapsForStep, LiveAt, JournalAt;
      ghost var live0 := live;
      var a, pt := RunActivate(true, true, None, budget);
      ModesInRange(pt.k + if pt.begun then 1 else 0);
      AcceptableBacked(journal);
      ghost var goal := Goal(journal, live, backup, cfg.swaps);
      GoalSettles(cfg, journal, live, backup);
      OutsideGoal(live0, pt, goal);
      Recorded(journal);
      WritesBounded(cfg, journal, live, backup);
      ghost var at: nat;
      r, at := RollBackRepeatedly(budgets, goal);
    }

    lemma ModesInRange(k: nat)
      requires StagedUpTo(cfg, staged, k)
      requires forall sw :: sw in cfg.swaps && sw.staged in staged ==> StagedModeOk(staged, sw)
      ensures StagedModesOk(cfg, staged, k)
    {
      forall i, n | 0 <= i < k && 0 <= n < |SwapsForStep(cfg.swaps, cfg.plan[i])|
        ensures StagedModeOk(staged, SwapsForStep(cfg.swaps, cfg.plan[i])[n])
      {
        assert SwapsForStep(cfg.swaps, cfg.plan[i])[n] in SwapsForStep(cfg.swaps, cfg.plan[i]);
      }
    }

    lemma OutsideGoal(live0: Files, pt: Point, goal: Files)
      requires Reached(cfg, staged, pt) && live == LiveAt(cfg, staged, live0, pt)
      requires FullyBacked(cfg, backup) && Settles(cfg, journal, live, backup, goal)
      ensures forall p :: !SwapPath(cfg, p) ==> (p in goal <==> p in live0) && (p in goal ==> goal[p] == live0[p])
    {
      forall p | !SwapPath(cfg, p) ensures (p in goal <==> p in live0) && (p in goal ==> goal[p] == live0[p]) {
        OutsideUntouchedAt(cfg, staged, live0, pt, p);
        ActiveIsSwapPath(cfg, journal, p);
        assert SettledAt(cfg, journal, live, backup, p) == if p in goal then Some(goal[p]) else None;
      }
    }
  }
}
