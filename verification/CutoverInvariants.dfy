/**
 What each durable write of activation and rollback keeps. `Coherent` is the
 invariant of both; `Settled` is the live state every rollback heads for, and no
 rollback write changes it.
 */
module CutoverInvariants {
  import opened Wrappers
  import opened CutoverJournal

  // ----- Appending journal entries -----

  lemma EntriesMatchAppend(cfg: Config, es: seq<Entry>, backup: Files, e: Entry)
    requires EntriesMatch(cfg, es, backup)
    requires e.step in cfg.plan && e.state.Allowed()
    requires TargetsMatch(SwapsForStep(cfg.swaps, e.step), backup, e.targets)
    ensures EntriesMatch(cfg, es + [e], backup)
  {
    forall x | x in es + [e]
      ensures x.step in cfg.plan && x.state.Allowed()
              && TargetsMatch(SwapsForStep(cfg.swaps, x.step), backup, x.targets)
    {
      assert x in es || x == e;
    }
  }

  /** The targets a step first recorded match the configuration. */
  lemma BaselineMatches(cfg: Config, es: seq<Entry>, backup: Files, step: Step)
    requires EntriesMatch(cfg, es, backup) && step in Group(es)
    ensures step in cfg.plan
    ensures TargetsMatch(SwapsForStep(cfg.swaps, step), backup, Group(es)[step][0].targets)
  {
    GroupStep(es, step, 0);
  }

  lemma FreshStep(order: seq<Step>, t: Table, step: Step, e: Entry)
    requires Progressing(order, t) && step !in order && e.state == Started
    requires forall s :: s in order ==> Done in States(t[s])
    ensures Progressing(order + [step], t[step := [e]]) && Advancing(order + [step], t[step := [e]])
    ensures ExpectedMoves(order + [step], t[step := [e]]) == ExpectedMoves(order, t) + [(step, Started)]
  {
    var order' := order + [step];
    var t' := t[step := [e]];
    assert States([e]) == [Started];
    assert order'[..|order|] == order;
    assert [e][..0] == [];
    assert StepMoves(step, [e]) == [(step, Started)];
    ExpectedMovesFrame(order, t, t');
    forall k | 0 <= k < |order'| - 1 ensures order'[k] in t' && Done in States(t'[order'[k]]) {
      assert order'[k] in order;
    }
  }

  lemma OrderedStarted(cfg: Config, es: seq<Entry>, ts: seq<Target>)
    requires Ordered(cfg, es) && |Present(es)| < |cfg.plan|
    requires forall s :: s in Present(es) ==> Done in States(Group(es)[s])
    requires cfg.plan[|Present(es)|] !in Present(es)
    ensures Ordered(cfg, es + [Entry(cfg.plan[|Present(es)|], Started, ts)])
  {
    hide Group, Present, Moves, ExpectedMoves;
    var step := cfg.plan[|Present(es)|];
    var e := Entry(step, Started, ts);
    Append(es, e);
    PlanPrefix(cfg.plan, Present(es), step);
    FreshStep(Present(es), Group(es), step, e);
    assert Entries(Group(es), step) + [e] == [e];
  }

  lemma NextStepAbsent(cfg: Config, es: seq<Entry>)
    requires WellFormed(cfg) && Present(es) <= cfg.plan && |Present(es)| < |cfg.plan|
    ensures cfg.plan[|Present(es)|] !in Present(es)
  {
  }

  /** Journaling the next step of the plan as started, before any of its files is touched. */
  lemma AppendStarted(cfg: Config, es: seq<Entry>, live: Files, backup: Files, ts: seq<Target>)
    requires WellFormed(cfg) && Coherent(cfg, es, live, backup)
    requires |Present(es)| < |cfg.plan|
    requires forall s :: s in Present(es) ==> Done in States(Group(es)[s])
    requires TargetsMatch(SwapsForStep(cfg.swaps, cfg.plan[|Present(es)|]), backup, ts)
    ensures var step := cfg.plan[|Present(es)|];
      var es' := es + [Entry(step, Started, ts)];
      && Coherent(cfg, es', live, backup)
      && Present(es') == Present(es) + [step]
      && Group(es') == Group(es)[step := [Entry(step, Started, ts)]]
  {
    var e := Entry(cfg.plan[|Present(es)|], Started, ts);
    NextStepAbsent(cfg, es);
    OrderedStarted(cfg, es, ts);
    EntriesMatchAppend(cfg, es, backup, e);
    Append(es, e);
  }

  lemma DoneStep(order: seq<Step>, t: Table, e: Entry)
    requires order != [] && order[|order| - 1] == e.step && e.step !in order[..|order| - 1]
    requires Progressing(order, t) && Advancing(order, t) && States(t[e.step]) == [Started]
    requires e.state == Done && e.targets == t[e.step][0].targets
    ensures var t' := t[e.step := t[e.step] + [e]];
      && Progressing(order, t') && Advancing(order, t')
      && States(t'[e.step]) == [Started, Done]
      && ExpectedMoves(order, t') == ExpectedMoves(order, t) + [(e.step, Done)]
  {
    var t' := t[e.step := t[e.step] + [e]];
    var front := order[..|order| - 1];
    StatesAppend(t[e.step], e);
    assert States(t'[e.step]) == [Started, Done];
    ExpectedMovesFrame(front, t, t');
    forall k | 0 <= k < |order| - 1 ensures order[k] in t' && Done in States(t'[order[k]]) {
      assert order[k] in front;
    }
  }

  lemma OrderedDone(cfg: Config, es: seq<Entry>, step: Step)
    requires Ordered(cfg, es) && Present(es) != [] && Present(es)[|Present(es)| - 1] == step
    requires States(Group(es)[step]) == [Started]
    ensures var es' := es + [Entry(step, Done, Group(es)[step][0].targets)];
      Ordered(cfg, es') && States(Group(es')[step]) == [Started, Done]
  {
    var e := Entry(step, Done, Group(es)[step][0].targets);
    Append(es, e);
    DoneStep(Present(es), Group(es), e);
  }

  /** Journaling the step last started as done. */
  lemma AppendDone(cfg: Config, es: seq<Entry>, live: Files, backup: Files, step: Step)
    requires WellFormed(cfg) && Coherent(cfg, es, live, backup)
    requires Present(es) != [] && Present(es)[|Present(es)| - 1] == step
    requires States(Group(es)[step]) == [Started]
    ensures var e := Entry(step, Done, Group(es)[step][0].targets);
      var es' := es + [e];
      && Coherent(cfg, es', live, backup)
      && Present(es') == Present(es)
      && Group(es') == Group(es)[step := Group(es)[step] + [e]]
      && States(Group(es')[step]) == [Started, Done]
  {
    hide Group, Present, Ordered, EntriesMatch, TargetsMatch, SwapsForStep, Moves;
    var t: Table := Group(es);
    var e := Entry(step, Done, t[step][0].targets);
    BaselineMatches(cfg, es, backup, step);
    OrderedDone(cfg, es, step);
    EntriesMatchAppend(cfg, es, backup, e);
    Append(es, e);
    assert Last(t[step]) == States(t[step])[0];
  }

  lemma RetireProgression(xs: seq<Entry>, e: Entry)
    requires xs != [] && Progression(States(xs)) && Last(xs).Active() && e.state == RolledBack
    ensures Progression(States(xs + [e]))
    ensures Done in States(xs) ==> Done in States(xs + [e])
    ensures StepMoves(e.step, xs + [e]) == StepMoves(e.step, xs)
  {
    StatesAppend(xs, e);
    assert States(xs)[|xs| - 1] == Last(xs);
    if Done in States(xs) { assert (States(xs) + [RolledBack])[1] == Done; }
  }

  lemma RetireStep(order: seq<Step>, t: Table, e: Entry)
    requires e.step in order && Progressing(order, t) && Advancing(order, t)
    requires t[e.step] != [] && Last(t[e.step]).Active()
    requires e.state == RolledBack && e.targets == t[e.step][0].targets
    ensures var t' := t[e.step := t[e.step] + [e]];
      && Progressing(order, t') && Advancing(order, t')
      && ExpectedMoves(order, t') == ExpectedMoves(order, t)
  {
    hide ExpectedMoves, States, Progression, StepMoves;
    var t' := t[e.step := t[e.step] + [e]];
    RetireProgression(t[e.step], e);
    ExpectedMovesFrame(order, t, t');
  }

  lemma OrderedRolledBack(cfg: Config, es: seq<Entry>, step: Step)
    requires Ordered(cfg, es) && step in Present(es) && Last(Group(es)[step]).Active()
    ensures Ordered(cfg, es + [Entry(step, RolledBack, Group(es)[step][0].targets)])
  {
    var e := Entry(step, RolledBack, Group(es)[step][0].targets);
    Append(es, e);
    RetireStep(Present(es), Group(es), e);
  }

  lemma QuietRetire(cfg: Config, t: Table, t': Table, step: Step, live: Files, backup: Files)
    requires forall s :: s in t ==> t[s] != []
    requires forall s :: s in t' ==> t'[s] != []
    requires t.Keys == t'.Keys && forall s :: s in t && s != step ==> t'[s] == t[s]
    requires QuietEqualsBackup(cfg, t, live, backup)
    requires forall sw :: sw in cfg.swaps && sw.step == step ==> Restored1(live, backup, sw)
    ensures QuietEqualsBackup(cfg, t', live, backup)
  {
  }

  lemma UndoAppendRolledBack(es: seq<Entry>)
    requires StepsNeedingRollback(es) != []
    ensures var step := StepsNeedingRollback(es)[0];
      step in Group(es)
      && StepsNeedingRollback(es + [Entry(step, RolledBack, Group(es)[step][0].targets)])
        == StepsNeedingRollback(es)[1..]
  {
    hide Group, Present, Moves, Undo;
    var step := StepsNeedingRollback(es)[0];
    assert step in StepsNeedingRollback(es);
    var e := Entry(step, RolledBack, Group(es)[step][0].targets);
    Append(es, e);
    UndoRetire(Present(es), Group(es), Group(es + [e]), step);
  }

  lemma QuietAppendRolledBack(cfg: Config, es: seq<Entry>, e: Entry, live: Files, backup: Files)
    requires QuietEqualsBackup(cfg, Group(es), live, backup) && e.step in Group(es)
    requires forall sw :: sw in cfg.swaps && sw.step == e.step ==> Restored1(live, backup, sw)
    ensures QuietEqualsBackup(cfg, Group(es + [e]), live, backup)
  {
    Append(es, e);
    QuietRetire(cfg, Group(es), Group(es + [e]), e.step, live, backup);
  }

  /** Journaling the first step of the undo order as rolled back, once its files are restored. */
  lemma AppendRolledBack(cfg: Config, es: seq<Entry>, live: Files, backup: Files)
    requires Coherent(cfg, es, live, backup) && StepsNeedingRollback(es) != []
    requires forall sw :: sw in cfg.swaps && sw.step == StepsNeedingRollback(es)[0] ==> Restored1(live, backup, sw)
    ensures var step := StepsNeedingRollback(es)[0];
      step in Group(es)
      && var es' := es + [Entry(step, RolledBack, Group(es)[step][0].targets)];
      Coherent(cfg, es', live, backup) && StepsNeedingRollback(es') == StepsNeedingRollback(es)[1..]
  {
    var step := StepsNeedingRollback(es)[0];
    UndoAppendRolledBack(es);
    assert step in StepsNeedingRollback(es);
    var e := Entry(step, RolledBack, Group(es)[step][0].targets);
    BaselineMatches(cfg, es, backup, step);
    OrderedRolledBack(cfg, es, step);
    EntriesMatchAppend(cfg, es, backup, e);
    QuietAppendRolledBack(cfg, es, e, live, backup);
  }

  predicate Restarted(xs: seq<Entry>) {
    exists k :: 1 <= k < |xs| && xs[k].state == Started
  }

  lemma RestartedIsNoProgression(xs: seq<Entry>)
    requires Restarted(xs)
    ensures !Progression(States(xs))
  {
    var k :| 1 <= k < |xs| && xs[k].state == Started;
    assert States(xs)[k] == Started;
  }

  /** Once a step is started a second time, no later entry repairs the journal. */
  lemma RestartedAppend(es: seq<Entry>, e: Entry, step: Step)
    requires step in Group(es) && Restarted(Group(es)[step])
    ensures step in Group(es + [e]) && Restarted(Group(es + [e])[step])
  {
    Append(es, e);
    hide Group;
    var xs: seq<Entry> := Group(es)[step];
    var ys: seq<Entry> := Group(es + [e])[step];
    var k :| 1 <= k < |xs| && xs[k].state == Started;
    assert ys[k].state == Started;
  }

  lemma {:induction false} RestartedStays(es: seq<Entry>, rest: seq<Entry>, step: Step)
    requires step in Group(es) && Restarted(Group(es)[step])
    ensures step in Group(es + rest) && Restarted(Group(es + rest)[step])
    decreases |rest|
  {
    hide Group, Restarted;
    if rest == [] {
      assert es + rest == es;
    } else {
      var n := |rest| - 1;
      RestartedStays(es, rest[..n], step);
      assert es + rest == (es + rest[..n]) + [rest[n]];
      RestartedAppend(es + rest[..n], rest[n], step);
    }
  }

  /** Steps present in a journal stay present, and in the same order, as it grows. */
  lemma {:induction false} PresentGrows(es: seq<Entry>, rest: seq<Entry>)
    ensures Present(es) <= Present(es + rest)
    decreases |rest|
  {
    if rest == [] {
      assert es + rest == es;
    } else {
      var n := |rest| - 1;
      PresentGrows(es, rest[..n]);
      assert es + rest == (es + rest[..n]) + [rest[n]];
      Append(es + rest[..n], rest[n]);
    }
  }

  /** Starting the first step on top of any journal that is not empty makes it unacceptable for good. */
  lemma SecondActivationRefused(cfg: Config, es: seq<Entry>, ts: seq<Target>, rest: seq<Entry>, live: Files,
                                backup: Files)
    requires cfg.plan != [] && es != []
    ensures !Coherent(cfg, es + [Entry(cfg.plan[0], Started, ts)] + rest, live, backup)
  {
    hide Progressing, Advancing, Moves, ExpectedMoves, QuietEqualsBackup, EntriesMatch;
    var step := cfg.plan[0];
    var e := Entry(step, Started, ts);
    var all := es + [e] + rest;
    if Ordered(cfg, all) {
      assert all == es + ([e] + rest);
      PresentGrows(es, [e] + rest);
      FirstStepOpened(cfg, es);
      Append(es, e);
      var xs: seq<Entry> := Group(es)[step];
      assert (xs + [e])[|xs|].state == Started;
      RestartedStays(es + [e], rest, step);
      RestartedIsUnordered(cfg, all, step);
    }
  }

  lemma FirstStepOpened(cfg: Config, es: seq<Entry>)
    requires Present(es) <= cfg.plan && es != []
    ensures cfg.plan != [] && cfg.plan[0] in Group(es)
  {
    GroupMembers(es, es[0]);
    assert es[0].step in Present(es);
    assert Present(es)[0] in Group(es);
  }

  lemma RestartedIsUnordered(cfg: Config, es: seq<Entry>, step: Step)
    requires step in Group(es) && Restarted(Group(es)[step])
    ensures !Ordered(cfg, es)
  {
    RestartedIsNoProgression(Group(es)[step]);
    assert step in Present(es);
  }

  /** A step's first entry never changes as the journal grows. */
  lemma {:induction false} BaselineStays(es: seq<Entry>, rest: seq<Entry>, step: Step)
    requires step in Group(es)
    ensures step in Group(es + rest) && Group(es + rest)[step][0] == Group(es)[step][0]
    decreases |rest|
  {
    if rest == [] {
      assert es + rest == es;
    } else {
      var n := |rest| - 1;
      BaselineStays(es, rest[..n], step);
      assert es + rest == (es + rest[..n]) + [rest[n]];
      Append(es + rest[..n], rest[n]);
    }
  }

  // ----- Writing live files -----

  /** Live paths identify swaps. */
  lemma SwapUnique(cfg: Config, a: Swap, b: Swap)
    requires WellFormed(cfg) && a in cfg.swaps && b in cfg.swaps && a.live == b.live
    ensures a == b
  {
    var i :| 0 <= i < |cfg.swaps| && cfg.swaps[i] == a;
    var j :| 0 <= j < |cfg.swaps| && cfg.swaps[j] == b;
  }

  predicate ActiveSwap(cfg: Config, es: seq<Entry>, sw: Swap) {
    sw in cfg.swaps && sw.step in StepsNeedingRollback(es)
  }

  ghost predicate ActivePath(cfg: Config, es: seq<Entry>, p: Path) {
    exists sw :: ActiveSwap(cfg, es, sw) && sw.live == p
  }

  /** Any write to a path of an active step keeps the journal acceptable. */
  lemma WriteActive(cfg: Config, es: seq<Entry>, live: Files, backup: Files, p: Path, f: File)
    requires WellFormed(cfg) && QuietEqualsBackup(cfg, Group(es), live, backup) && ActivePath(cfg, es, p)
    ensures QuietEqualsBackup(cfg, Group(es), live[p := f], backup)
  {
    var a :| ActiveSwap(cfg, es, a) && a.live == p;
    var t: Table := Group(es);
    assert a.step in t && Last(t[a.step]).Active();
    forall sw | sw in cfg.swaps && sw.step in cfg.plan && (sw.step in t ==> Last(t[sw.step]).RolledBack?)
      ensures Restored1(live[p := f], backup, sw)
    {
      assert Restored1(live, backup, sw);
      if sw.live == p { SwapUnique(cfg, sw, a); }
    }
  }

  lemma MatchedTargetsBacked(swaps: seq<Swap>, backup: Files, ts: seq<Target>, sw: Swap)
    requires TargetsMatch(swaps, backup, ts) && sw in swaps
    ensures sw.id in backup
  {
    var k :| 0 <= k < |swaps| && swaps[k] == sw;
    var i :| 0 <= i < |ts| && ts[i].id == Some(swaps[k].id);
    assert TargetMatches(swaps, backup, ts[i]);
  }

  /** An accepted journal proves that every swap has a backup member. */
  lemma Backed(cfg: Config, es: seq<Entry>, live: Files, backup: Files, sw: Swap)
    requires EntriesMatch(cfg, es, backup) && QuietEqualsBackup(cfg, Group(es), live, backup)
    requires sw in cfg.swaps && sw.step in cfg.plan
    ensures sw.id in backup
  {
    if sw.step in Group(es) {
      BaselineMatches(cfg, es, backup, sw.step);
      MatchedTargetsBacked(SwapsForStep(cfg.swaps, sw.step), backup, Group(es)[sw.step][0].targets, sw);
    } else {
      assert Restored1(live, backup, sw);
    }
  }

  ghost predicate FullyBacked(cfg: Config, backup: Files) {
    forall sw :: sw in cfg.swaps ==> sw.id in backup
  }

  lemma AllBacked(cfg: Config, es: seq<Entry>, live: Files, backup: Files)
    requires EntriesMatch(cfg, es, backup) && QuietEqualsBackup(cfg, Group(es), live, backup)
    requires WellFormed(cfg)
    ensures FullyBacked(cfg, backup)
  {
    forall sw | sw in cfg.swaps ensures sw.id in backup { Backed(cfg, es, live, backup, sw); }
  }

  ghost function SwapAt(cfg: Config, p: Path): (sw: Swap)
    requires exists sw :: sw in cfg.swaps && sw.live == p
    ensures sw in cfg.swaps && sw.live == p
  {
    var sw :| sw in cfg.swaps && sw.live == p; sw
  }

  /** What a completed rollback leaves at one path: an active target comes from backup, the rest stays. */
  ghost function SettledAt(cfg: Config, es: seq<Entry>, live: Files, backup: Files, p: Path): Option<File>
    requires FullyBacked(cfg, backup)
  {
    if ActivePath(cfg, es, p) then Some(backup[SwapAt(cfg, p).id])
    else if p in live then Some(live[p]) else None
  }

  /** The live state every rollback of this journal heads for is `goal`. */
  ghost predicate Settles(cfg: Config, es: seq<Entry>, live: Files, backup: Files, goal: Files)
    requires FullyBacked(cfg, backup)
  {
    forall p :: SettledAt(cfg, es, live, backup, p) == if p in goal then Some(goal[p]) else None
  }

  /** The goal, built by restoring the active swaps of a list one after another. */
  function Goal(es: seq<Entry>, live: Files, backup: Files, swaps: seq<Swap>): Files
    requires forall sw :: sw in swaps ==> sw.id in backup
  {
    if swaps == [] then live
    else
      var rest := Goal(es, live, backup, swaps[1..]);
      if swaps[0].step in StepsNeedingRollback(es) then rest[swaps[0].live := backup[swaps[0].id]] else rest
  }

  lemma {:induction false} GoalAt(es: seq<Entry>, live: Files, backup: Files, swaps: seq<Swap>, p: Path)
    requires forall sw :: sw in swaps ==> sw.id in backup
    requires forall i, j :: 0 <= i < j < |swaps| ==> swaps[i].live != swaps[j].live
    ensures var goal := Goal(es, live, backup, swaps);
      && (forall sw :: sw in swaps && sw.live == p && sw.step in StepsNeedingRollback(es)
                       ==> p in goal && goal[p] == backup[sw.id])
      && ((forall sw :: sw in swaps && sw.live == p ==> sw.step !in StepsNeedingRollback(es))
          ==> (p in goal <==> p in live) && (p in live ==> goal[p] == live[p]))
  {
    hide StepsNeedingRollback;
    if swaps != [] {
      GoalAt(es, live, backup, swaps[1..], p);
    }
  }

  /** Every journal whose swaps are all backed up has a goal. */
  lemma GoalSettles(cfg: Config, es: seq<Entry>, live: Files, backup: Files)
    requires WellFormed(cfg) && FullyBacked(cfg, backup)
    ensures Settles(cfg, es, live, backup, Goal(es, live, backup, cfg.swaps))
  {
    forall p ensures var goal := Goal(es, live, backup, cfg.swaps);
      SettledAt(cfg, es, live, backup, p) == if p in goal then Some(goal[p]) else None
    {
      GoalAt(es, live, backup, cfg.swaps, p);
      if ActivePath(cfg, es, p) {
        var a :| ActiveSwap(cfg, es, a) && a.live == p;
        SwapUnique(cfg, a, SwapAt(cfg, p));
      } else {
        forall sw | sw in cfg.swaps && sw.live == p ensures sw.step !in StepsNeedingRollback(es) {
          assert !ActiveSwap(cfg, es, sw);
        }
      }
    }
  }

  /** Writing an active target, with any bytes, does not change where rollback is heading. */
  lemma SettledWrite(cfg: Config, es: seq<Entry>, live: Files, backup: Files, p: Path, f: File, goal: Files)
    requires FullyBacked(cfg, backup) && ActivePath(cfg, es, p)
    requires Settles(cfg, es, live, backup, goal)
    ensures Settles(cfg, es, live[p := f], backup, goal)
  {
    forall q
      ensures SettledAt(cfg, es, live[p := f], backup, q) == SettledAt(cfg, es, live, backup, q)
    {
    }
  }

  /** Retiring a step whose files already equal backup does not change it either. */
  lemma SettledRetire(cfg: Config, es: seq<Entry>, es': seq<Entry>, live: Files, backup: Files, goal: Files)
    requires WellFormed(cfg) && FullyBacked(cfg, backup) && Settles(cfg, es, live, backup, goal)
    requires StepsNeedingRollback(es) != [] && StepsNeedingRollback(es') == StepsNeedingRollback(es)[1..]
    requires forall sw :: sw in cfg.swaps && sw.step == StepsNeedingRollback(es)[0]
                          ==> sw.live in live && live[sw.live] == backup[sw.id]
    ensures Settles(cfg, es', live, backup, goal)
  {
    forall p ensures SettledAt(cfg, es', live, backup, p) == SettledAt(cfg, es, live, backup, p) {
      RetireAt(cfg, es, es', live, backup, p);
    }
  }

  lemma RetireAt(cfg: Config, es: seq<Entry>, es': seq<Entry>, live: Files, backup: Files, p: Path)
    requires WellFormed(cfg) && FullyBacked(cfg, backup)
    requires StepsNeedingRollback(es) != [] && StepsNeedingRollback(es') == StepsNeedingRollback(es)[1..]
    requires forall sw :: sw in cfg.swaps && sw.step == StepsNeedingRollback(es)[0]
                          ==> sw.live in live && live[sw.live] == backup[sw.id]
    ensures SettledAt(cfg, es', live, backup, p) == SettledAt(cfg, es, live, backup, p)
  {
    hide StepsNeedingRollback;
    var steps := StepsNeedingRollback(es);
    if ActivePath(cfg, es', p) {
      var a :| ActiveSwap(cfg, es', a) && a.live == p;
      assert ActiveSwap(cfg, es, a);
    } else if ActivePath(cfg, es, p) {
      var a :| ActiveSwap(cfg, es, a) && a.live == p;
      SwapUnique(cfg, a, SwapAt(cfg, p));
      assert steps == [steps[0]] + steps[1..];
      assert !ActiveSwap(cfg, es', a);
    }
  }

  /** With nothing left to undo, every swap target is byte-equal to its backup. */
  lemma RestEqualsBackup(cfg: Config, es: seq<Entry>, live: Files, backup: Files)
    requires WellFormed(cfg) && EntriesMatch(cfg, es, backup) && QuietEqualsBackup(cfg, Group(es), live, backup)
    requires StepsNeedingRollback(es) == []
    ensures forall sw :: sw in cfg.swaps ==> Restored1(live, backup, sw)
  {
    forall sw | sw in cfg.swaps ensures Restored1(live, backup, sw) {
      var t: Table := Group(es);
      if sw.step in t {
        GroupStep(es, sw.step, |t[sw.step]| - 1);
        assert sw.step in Present(es);
      }
    }
  }

  /** With nothing left to undo, the live files are where rollback was heading. */
  lemma RestIsGoal(cfg: Config, es: seq<Entry>, live: Files, backup: Files, goal: Files)
    requires StepsNeedingRollback(es) == [] && FullyBacked(cfg, backup)
    requires Settles(cfg, es, live, backup, goal)
    ensures goal == live
  {
    forall p ensures (if p in live then Some(live[p]) else None) == if p in goal then Some(goal[p]) else None {
      assert !ActivePath(cfg, es, p);
      assert SettledAt(cfg, es, live, backup, p) == if p in live then Some(live[p]) else None;
    }
  }
}
