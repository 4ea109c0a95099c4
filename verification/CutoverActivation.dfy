/** Every state an activation can be stopped in, as a function of how far it got. */
module CutoverActivation {
  import opened Wrappers
  import opened CutoverJournal
  import opened CutoverInvariants
  import V = CutoverValidator

  const PRIVATE_FILE_MODE := 0x180 // 0o600

  /** What activation writes for one swap: the staged bytes, a zero mode replaced by the private one. */
  function Payload(staged: Files, sw: Swap): File
    requires sw.staged in staged
  {
    var f := staged[sw.staged];
    File(f.bytes, if f.mode != 0 then f.mode else PRIVATE_FILE_MODE)
  }

  function PlannedTarget(staged: Files, live: Files, sw: Swap): Target
    requires sw.staged in staged
  {
    Target(Some(sw.id), Some(sw.live), Some(sw.staged), Some(sw.id),
           if sw.live in live then Some(Sha256(live[sw.live].bytes)) else None,
           Some(Sha256(staged[sw.staged].bytes)), Some(staged[sw.staged].mode))
  }

  predicate AllStaged(staged: Files, swaps: seq<Swap>) {
    forall i :: 0 <= i < |swaps| ==> swaps[i].staged in staged
  }

  function PlannedTargets(staged: Files, live: Files, swaps: seq<Swap>): (ts: seq<Target>)
    requires AllStaged(staged, swaps)
    ensures |ts| == |swaps|
    ensures forall i :: 0 <= i < |ts| ==> ts[i] == PlannedTarget(staged, live, swaps[i])
  {
    if swaps == [] then []
    else PlannedTargets(staged, live, swaps[..|swaps| - 1]) + [PlannedTarget(staged, live, swaps[|swaps| - 1])]
  }

  /** The live files after the given swaps were written one after another. */
  function Replaced(staged: Files, live: Files, swaps: seq<Swap>): Files
    requires AllStaged(staged, swaps)
  {
    if swaps == [] then live
    else
      var sw := swaps[|swaps| - 1];
      Replaced(staged, live, swaps[..|swaps| - 1])[sw.live := Payload(staged, sw)]
  }

  ghost predicate StagedUpTo(cfg: Config, staged: Files, k: nat) {
    k <= |cfg.plan| && forall i :: 0 <= i < k ==> AllStaged(staged, SwapsForStep(cfg.swaps, cfg.plan[i]))
  }

  /** The live files after the first `k` steps. */
  ghost function LiveAfter(cfg: Config, staged: Files, live: Files, k: nat): Files
    requires StagedUpTo(cfg, staged, k)
  {
    if k == 0 then live
    else Replaced(staged, LiveAfter(cfg, staged, live, k - 1), SwapsForStep(cfg.swaps, cfg.plan[k - 1]))
  }

  ghost function StepTargets(cfg: Config, staged: Files, live: Files, k: nat): seq<Target>
    requires StagedUpTo(cfg, staged, k + 1)
  {
    PlannedTargets(staged, LiveAfter(cfg, staged, live, k), SwapsForStep(cfg.swaps, cfg.plan[k]))
  }

  /** The entries the first `k` steps journal. */
  ghost function EntriesAfter(cfg: Config, staged: Files, live: Files, k: nat): seq<Entry>
    requires StagedUpTo(cfg, staged, k)
  {
    if k == 0 then []
    else
      var ts := StepTargets(cfg, staged, live, k - 1);
      EntriesAfter(cfg, staged, live, k - 1)
      + [Entry(cfg.plan[k - 1], Started, ts)] + [Entry(cfg.plan[k - 1], Done, ts)]
  }

  /** `k` finished steps, and when `begun` also a started one with `j` of its files written. */
  datatype Point = Point(k: nat, begun: bool, j: nat)

  ghost predicate Reached(cfg: Config, staged: Files, pt: Point) {
    && StagedUpTo(cfg, staged, pt.k + if pt.begun then 1 else 0)
    && (pt.begun ==> pt.j <= |SwapsForStep(cfg.swaps, cfg.plan[pt.k])|)
  }

  ghost function JournalAt(cfg: Config, staged: Files, live: Files, pt: Point): seq<Entry>
    requires Reached(cfg, staged, pt)
  {
    EntriesAfter(cfg, staged, live, pt.k)
    + if pt.begun then [Entry(cfg.plan[pt.k], Started, StepTargets(cfg, staged, live, pt.k))] else []
  }

  ghost function LiveAt(cfg: Config, staged: Files, live: Files, pt: Point): Files
    requires Reached(cfg, staged, pt)
  {
    if pt.begun then
      Replaced(staged, LiveAfter(cfg, staged, live, pt.k), SwapsForStep(cfg.swaps, cfg.plan[pt.k])[..pt.j])
    else LiveAfter(cfg, staged, live, pt.k)
  }

  lemma {:induction false} ReplacedElsewhere(staged: Files, live: Files, swaps: seq<Swap>, p: Path)
    requires AllStaged(staged, swaps) && forall sw :: sw in swaps ==> sw.live != p
    ensures var r := Replaced(staged, live, swaps);
      (p in r <==> p in live) && (p in live ==> r[p] == live[p])
  {
    if swaps != [] {
      assert swaps[|swaps| - 1] in swaps;
      ReplacedElsewhere(staged, live, swaps[..|swaps| - 1], p);
    }
  }

  /** Finished steps leave the targets of later steps alone. */
  lemma {:induction false} LaterUntouched(cfg: Config, staged: Files, live: Files, k: nat, sw: Swap)
    requires WellFormed(cfg) && StagedUpTo(cfg, staged, k) && sw in cfg.swaps && sw.step !in cfg.plan[..k]
    ensures var r := LiveAfter(cfg, staged, live, k);
      (sw.live in r <==> sw.live in live) && (sw.live in live ==> r[sw.live] == live[sw.live])
  {
    if k > 0 {
      assert cfg.plan[..k] == cfg.plan[..k - 1] + [cfg.plan[k - 1]];
      LaterUntouched(cfg, staged, live, k - 1, sw);
      var swaps := SwapsForStep(cfg.swaps, cfg.plan[k - 1]);
      forall a | a in swaps ensures a.live != sw.live {
        if a.live == sw.live { SwapUnique(cfg, a, sw); }
      }
      ReplacedElsewhere(staged, LiveAfter(cfg, staged, live, k - 1), swaps, sw.live);
    }
  }

  lemma LookupSelf(swaps: seq<Swap>, i: nat)
    requires V.UniqueIds(swaps) && i < |swaps|
    ensures Lookup(swaps, swaps[i].id) == Some(swaps[i])
  {
    var r := Lookup(swaps, swaps[i].id);
    assert swaps[i] in swaps;
    var j :| 0 <= j < |swaps| && swaps[j] == r.value;
  }

  /** Targets recorded while the live files still equal backup match the configuration. */
  lemma PlannedMatch(staged: Files, live: Files, backup: Files, swaps: seq<Swap>)
    requires AllStaged(staged, swaps) && V.UniqueIds(swaps)
    requires forall sw :: sw in swaps ==> Restored1(live, backup, sw)
    ensures TargetsMatch(swaps, backup, PlannedTargets(staged, live, swaps))
  {
    var ts := PlannedTargets(staged, live, swaps);
    forall i | 0 <= i < |ts| ensures TargetMatches(swaps, backup, ts[i]) {
      LookupSelf(swaps, i);
      assert Restored1(live, backup, swaps[i]);
    }
    forall k | 0 <= k < |swaps| ensures exists i :: 0 <= i < |ts| && ts[i].id == Some(swaps[k].id) {
      assert ts[k].id == Some(swaps[k].id);
    }
  }

  lemma LastStarted(es: seq<Entry>, step: Step)
    requires step in Group(es) && Last(Group(es)[step]) == Started
    ensures step in StepsNeedingRollback(es)
  {
    assert step in Present(es);
  }

  /** Writing any number of a started step's files keeps the journal coherent. */
  lemma {:induction false} ReplacedCoherent(cfg: Config, staged: Files, es: seq<Entry>, live: Files, backup: Files,
                                            swaps: seq<Swap>, step: Step)
    requires WellFormed(cfg) && QuietEqualsBackup(cfg, Group(es), live, backup)
    requires step in StepsNeedingRollback(es)
    requires AllStaged(staged, swaps) && forall sw :: sw in swaps ==> sw in cfg.swaps && sw.step == step
    ensures QuietEqualsBackup(cfg, Group(es), Replaced(staged, live, swaps), backup)
  {
    if swaps != [] {
      var front, sw := swaps[..|swaps| - 1], swaps[|swaps| - 1];
      ReplacedCoherent(cfg, staged, es, live, backup, front, step);
      assert ActiveSwap(cfg, es, sw);
      WriteActive(cfg, es, Replaced(staged, live, front), backup, sw.live, Payload(staged, sw));
    }
  }

  ghost predicate AllRestored(cfg: Config, live: Files, backup: Files) {
    forall sw :: sw in cfg.swaps ==> Restored1(live, backup, sw)
  }

  ghost predicate Finished(cfg: Config, es: seq<Entry>, k: nat) {
    && k <= |cfg.plan| && Present(es) == cfg.plan[..k]
    && forall s :: s in Present(es) ==> Done in States(Group(es)[s])
  }

  /** The targets the next step records match, because nothing has touched them yet. */
  lemma NextTargetsMatch(cfg: Config, staged: Files, live: Files, backup: Files, k: nat)
    requires WellFormed(cfg) && AllRestored(cfg, live, backup) && StagedUpTo(cfg, staged, k + 1)
    ensures TargetsMatch(SwapsForStep(cfg.swaps, cfg.plan[k]), backup, StepTargets(cfg, staged, live, k))
  {
    var swaps := SwapsForStep(cfg.swaps, cfg.plan[k]);
    V.StepIdsUnique(cfg.swaps, cfg.plan[k]);
    forall sw | sw in swaps ensures Restored1(LiveAfter(cfg, staged, live, k), backup, sw) {
      assert sw.step !in cfg.plan[..k];
      LaterUntouched(cfg, staged, live, k, sw);
      assert Restored1(live, backup, sw);
    }
    PlannedMatch(staged, LiveAfter(cfg, staged, live, k), backup, swaps);
  }

  lemma OpenStep(cfg: Config, es: seq<Entry>, live: Files, backup: Files, k: nat, ts: seq<Target>)
    requires WellFormed(cfg) && k < |cfg.plan| && Finished(cfg, es, k) && Coherent(cfg, es, live, backup)
    requires TargetsMatch(SwapsForStep(cfg.swaps, cfg.plan[k]), backup, ts)
    ensures var es' := es + [Entry(cfg.plan[k], Started, ts)];
      && Coherent(cfg, es', live, backup) && cfg.plan[k] in StepsNeedingRollback(es')
      && Present(es') == cfg.plan[..k + 1] && cfg.plan[k] !in Present(es)
      && Group(es') == Group(es)[cfg.plan[k] := [Entry(cfg.plan[k], Started, ts)]]
  {
    hide Group, Present, Coherent, StepsNeedingRollback, TargetsMatch, SwapsForStep;
    AppendStarted(cfg, es, live, backup, ts);
    NextStepAbsent(cfg, es);
    LastStarted(es + [Entry(cfg.plan[k], Started, ts)], cfg.plan[k]);
    assert cfg.plan[..k + 1] == cfg.plan[..k] + [cfg.plan[k]];
  }

  lemma CloseStep(cfg: Config, es: seq<Entry>, live: Files, backup: Files, k: nat, ts: seq<Target>)
    requires WellFormed(cfg) && k < |cfg.plan| && Finished(cfg, es, k)
    requires var es' := es + [Entry(cfg.plan[k], Started, ts)];
      && Coherent(cfg, es', live, backup)
      && Present(es') == cfg.plan[..k + 1] && cfg.plan[k] !in Present(es)
      && Group(es') == Group(es)[cfg.plan[k] := [Entry(cfg.plan[k], Started, ts)]]
    ensures var es'' := es + [Entry(cfg.plan[k], Started, ts)] + [Entry(cfg.plan[k], Done, ts)];
      Coherent(cfg, es'', live, backup) && Finished(cfg, es'', k + 1)
  {
    var step := cfg.plan[k];
    var es' := es + [Entry(step, Started, ts)];
    assert States(Group(es')[step]) == [Started];
    AppendDone(cfg, es', live, backup, step);
    var es'' := es' + [Entry(step, Done, ts)];
    assert States(Group(es'')[step])[1] == Done;
    forall s | s in Present(es'') ensures Done in States(Group(es'')[s]) {
      if s != step { assert s in Present(es); }
    }
  }

  lemma NothingStarted(cfg: Config, live: Files, backup: Files)
    requires AllRestored(cfg, live, backup)
    ensures Coherent(cfg, [], live, backup) && Finished(cfg, [], 0)
  {
  }

  /** From an empty journal over live files equal to backup, every finished step leaves a coherent journal. */
  lemma {:induction false} StepsCoherent(cfg: Config, staged: Files, live: Files, backup: Files, k: nat)
    requires WellFormed(cfg) && AllRestored(cfg, live, backup) && StagedUpTo(cfg, staged, k)
    ensures Coherent(cfg, EntriesAfter(cfg, staged, live, k), LiveAfter(cfg, staged, live, k), backup)
    ensures Finished(cfg, EntriesAfter(cfg, staged, live, k), k)
  {
    hide Group, Present, TargetsMatch, SwapsForStep, Coherent, Finished, PlannedTargets, Replaced;
    if k == 0 {
      NothingStarted(cfg, live, backup);
    } else {
      StepsCoherent(cfg, staged, live, backup, k - 1);
      var swaps := SwapsForStep(cfg.swaps, cfg.plan[k - 1]);
      StartedCoherent(cfg, staged, live, backup, k - 1, |swaps|);
      assert swaps[..|swaps|] == swaps;
      CloseStep(cfg, EntriesAfter(cfg, staged, live, k - 1), LiveAfter(cfg, staged, live, k), backup, k - 1,
                StepTargets(cfg, staged, live, k - 1));
    }
  }

  /** So does a started step, however many of its files were written. */
  lemma StartedCoherent(cfg: Config, staged: Files, live: Files, backup: Files, k: nat, j: nat)
    requires WellFormed(cfg) && AllRestored(cfg, live, backup) && Reached(cfg, staged, Point(k, true, j))
    requires Coherent(cfg, EntriesAfter(cfg, staged, live, k), LiveAfter(cfg, staged, live, k), backup)
    requires Finished(cfg, EntriesAfter(cfg, staged, live, k), k)
    ensures var es' := JournalAt(cfg, staged, live, Point(k, true, j));
      && Coherent(cfg, es', LiveAt(cfg, staged, live, Point(k, true, j)), backup)
      && Present(es') == cfg.plan[..k + 1] && cfg.plan[k] !in Present(EntriesAfter(cfg, staged, live, k))
      && Group(es') == Group(EntriesAfter(cfg, staged, live, k))[cfg.plan[k] :=
           [Entry(cfg.plan[k], Started, StepTargets(cfg, staged, live, k))]]
  {
    hide Group, Present, TargetsMatch, SwapsForStep, EntriesMatch, Ordered, QuietEqualsBackup, LiveAfter, EntriesAfter,
         PlannedTargets, Replaced, StepsNeedingRollback;
    var es, at := EntriesAfter(cfg, staged, live, k), LiveAfter(cfg, staged, live, k);
    var ts := StepTargets(cfg, staged, live, k);
    var swaps := SwapsForStep(cfg.swaps, cfg.plan[k]);
    NextTargetsMatch(cfg, staged, live, backup, k);
    OpenStep(cfg, es, at, backup, k, ts);
    forall sw | sw in swaps[..j] ensures sw in cfg.swaps && sw.step == cfg.plan[k] { assert sw in swaps; }
    ReplacedCoherent(cfg, staged, es + [Entry(cfg.plan[k], Started, ts)], at, backup, swaps[..j], cfg.plan[k]);
  }

  // ----- The modes an activation records -----

  predicate StagedModeOk(staged: Files, sw: Swap)
    requires sw.staged in staged
  {
    0 < staged[sw.staged].mode <= MAX_MODE
  }

  ghost predicate StagedModesOk(cfg: Config, staged: Files, k: nat)
    requires StagedUpTo(cfg, staged, k)
  {
    forall i, n :: 0 <= i < k && 0 <= n < |SwapsForStep(cfg.swaps, cfg.plan[i])|
      ==> StagedModeOk(staged, SwapsForStep(cfg.swaps, cfg.plan[i])[n])
  }

  lemma EntryModes(staged: Files, live: Files, swaps: seq<Swap>, e: Entry)
    requires AllStaged(staged, swaps) && e.targets == PlannedTargets(staged, live, swaps)
    ensures ModesOk([e]) <==> forall n :: 0 <= n < |swaps| ==> StagedModeOk(staged, swaps[n])
  {
    var ts := e.targets;
    assert forall n :: 0 <= n < |swaps| ==> (ModeOk(ts[n]) <==> StagedModeOk(staged, swaps[n]));
    if ModesOk([e]) {
      forall n | 0 <= n < |swaps| ensures StagedModeOk(staged, swaps[n]) { assert e in [e] && ModeOk(ts[n]); }
    }
  }

  lemma ModesAppend(es: seq<Entry>, e: Entry)
    ensures ModesOk(es + [e]) <==> ModesOk(es) && ModesOk([e])
  {
    assert e in [e];
    assert forall x :: x in es + [e] <==> x in es || x == e;
    if ModesOk(es + [e]) {
      forall x, i | x in es && 0 <= i < |x.targets| ensures ModeOk(x.targets[i]) { assert x in es + [e]; }
      forall i | 0 <= i < |e.targets| ensures ModeOk(e.targets[i]) { assert e in es + [e]; }
    }
  }

  lemma {:induction false} EntriesModes(cfg: Config, staged: Files, live: Files, k: nat)
    requires StagedUpTo(cfg, staged, k)
    ensures ModesOk(EntriesAfter(cfg, staged, live, k)) <==> StagedModesOk(cfg, staged, k)
  {
    if k > 0 {
      hide LiveAfter, PlannedTargets, SwapsForStep, ModesOk, StagedModesOk;
      EntriesModes(cfg, staged, live, k - 1);
      OpenedModes(cfg, staged, live, k - 1);
      var at := LiveAfter(cfg, staged, live, k - 1);
      var swaps := SwapsForStep(cfg.swaps, cfg.plan[k - 1]);
      var done := Entry(cfg.plan[k - 1], Done, StepTargets(cfg, staged, live, k - 1));
      var started := Entry(cfg.plan[k - 1], Started, StepTargets(cfg, staged, live, k - 1));
      EntryModes(staged, at, swaps, done);
      ModesAppend(EntriesAfter(cfg, staged, live, k - 1) + [started], done);
    }
  }

  lemma OpenedModes(cfg: Config, staged: Files, live: Files, k: nat)
    requires StagedUpTo(cfg, staged, k + 1)
    requires ModesOk(EntriesAfter(cfg, staged, live, k)) <==> StagedModesOk(cfg, staged, k)
    ensures ModesOk(EntriesAfter(cfg, staged, live, k)
      + [Entry(cfg.plan[k], Started, StepTargets(cfg, staged, live, k))])
      <==> StagedModesOk(cfg, staged, k + 1)
  {
    hide LiveAfter, EntriesAfter, PlannedTargets, SwapsForStep;
    var swaps := SwapsForStep(cfg.swaps, cfg.plan[k]);
    var e := Entry(cfg.plan[k], Started, StepTargets(cfg, staged, live, k));
    EntryModes(staged, LiveAfter(cfg, staged, live, k), swaps, e);
    ModesAppend(EntriesAfter(cfg, staged, live, k), e);
    assert StagedModesOk(cfg, staged, k + 1) <==>
      StagedModesOk(cfg, staged, k) && forall n :: 0 <= n < |swaps| ==> StagedModeOk(staged, swaps[n]);
  }

  /**
   Wherever an activation from an empty journal is stopped, rollback accepts what it
   left behind exactly when every staged file of the steps it started has a mode in 1..0o777.
   */
  lemma StoppedActivationAcceptable(cfg: Config, staged: Files, live: Files, backup: Files, pt: Point)
    requires WellFormed(cfg) && AllRestored(cfg, live, backup) && Reached(cfg, staged, pt)
    ensures Coherent(cfg, JournalAt(cfg, staged, live, pt), LiveAt(cfg, staged, live, pt), backup)
    ensures Acceptable(cfg, JournalAt(cfg, staged, live, pt), LiveAt(cfg, staged, live, pt), backup)
      <==> StagedModesOk(cfg, staged, pt.k + if pt.begun then 1 else 0)
  {
    hide Group, Present, TargetsMatch, SwapsForStep, Coherent, PlannedTargets, Replaced, ModesOk, StagedModesOk,
         LiveAfter, EntriesAfter;
    StepsCoherent(cfg, staged, live, backup, pt.k);
    EntriesModes(cfg, staged, live, pt.k);
    if pt.begun {
      StartedCoherent(cfg, staged, live, backup, pt.k, pt.j);
      OpenedModes(cfg, staged, live, pt.k);
    } else {
      assert EntriesAfter(cfg, staged, live, pt.k) + [] == EntriesAfter(cfg, staged, live, pt.k);
    }
  }

  lemma ReplacedNothing(staged: Files, live: Files)
    ensures Replaced(staged, live, []) == live
  {
  }

  lemma {:induction false} FirstEntry(cfg: Config, staged: Files, live: Files, k: nat)
    requires StagedUpTo(cfg, staged, k) && k > 0
    ensures EntriesAfter(cfg, staged, live, k) != []
    ensures EntriesAfter(cfg, staged, live, k)[0] == Entry(cfg.plan[0], Started, StepTargets(cfg, staged, live, 0))
  {
    if k > 1 { FirstEntry(cfg, staged, live, k - 1); }
  }

  /** What activation journals first is the first step of the plan, started. */
  lemma FirstJournaled(cfg: Config, staged: Files, live: Files, pt: Point)
    requires Reached(cfg, staged, pt) && pt.k + (if pt.begun then 1 else 0) > 0
    ensures JournalAt(cfg, staged, live, pt) != []
    ensures JournalAt(cfg, staged, live, pt)[0] == Entry(cfg.plan[0], Started, StepTargets(cfg, staged, live, 0))
  {
    hide LiveAfter, SwapsForStep, Replaced, PlannedTargets, EntriesAfter;
    if pt.k > 0 {
      FirstEntry(cfg, staged, live, pt.k);
    } else {
      NoEntries(cfg, staged, live);
    }
  }

  /** An activation on top of a journal that is not empty leaves one rollback refuses, and so does all that follows. */
  lemma StackedActivationRefused(cfg: Config, staged: Files, es: seq<Entry>, live: Files, pt: Point,
                                 rest: seq<Entry>, files: Files, backup: Files)
    requires Reached(cfg, staged, pt) && pt.k + (if pt.begun then 1 else 0) > 0
    requires es != []
    ensures !Coherent(cfg, es + JournalAt(cfg, staged, live, pt) + rest, files, backup)
  {
    hide Coherent, StepTargets, JournalAt;
    var js := JournalAt(cfg, staged, live, pt);
    FirstJournaled(cfg, staged, live, pt);
    assert es + js + rest == es + [js[0]] + (js[1..] + rest);
    SecondActivationRefused(cfg, es, js[0].targets, js[1..] + rest, files, backup);
  }

  lemma NoEntries(cfg: Config, staged: Files, live: Files)
    ensures EntriesAfter(cfg, staged, live, 0) == []
  {
  }

  ghost predicate SwapPath(cfg: Config, p: Path) {
    exists sw :: sw in cfg.swaps && sw.live == p
  }

  /** Activation writes configured live paths only. */
  lemma {:induction false} OutsideUntouched(cfg: Config, staged: Files, live: Files, k: nat, p: Path)
    requires StagedUpTo(cfg, staged, k) && !SwapPath(cfg, p)
    ensures var r := LiveAfter(cfg, staged, live, k);
      (p in r <==> p in live) && (p in live ==> r[p] == live[p])
  {
    if k > 0 {
      OutsideUntouched(cfg, staged, live, k - 1, p);
      var swaps := SwapsForStep(cfg.swaps, cfg.plan[k - 1]);
      forall a | a in swaps ensures a.live != p { assert a in cfg.swaps; }
      ReplacedElsewhere(staged, LiveAfter(cfg, staged, live, k - 1), swaps, p);
    }
  }

  lemma OutsideUntouchedAt(cfg: Config, staged: Files, live: Files, pt: Point, p: Path)
    requires Reached(cfg, staged, pt) && !SwapPath(cfg, p)
    ensures var r := LiveAt(cfg, staged, live, pt);
      (p in r <==> p in live) && (p in live ==> r[p] == live[p])
  {
    OutsideUntouched(cfg, staged, live, pt.k, p);
    if pt.begun {
      var swaps := SwapsForStep(cfg.swaps, cfg.plan[pt.k])[..pt.j];
      forall a | a in swaps ensures a.live != p { assert a in SwapsForStep(cfg.swaps, cfg.plan[pt.k]); }
      ReplacedElsewhere(staged, LiveAfter(cfg, staged, live, pt.k), swaps, p);
    }
  }
}
