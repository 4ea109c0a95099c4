/** The validator that stands between a journal and the first restoring write. */
module CutoverValidator {
  import opened Wrappers
  import opened CutoverJournal

  predicate Known(cfg: Config, e: Entry) {
    e.step in cfg.plan && e.state.Allowed()
  }

  ghost predicate TerminalOf(terminal: map<Step, State>, t: Table) {
    terminal.Keys == t.Keys && forall s :: s in t ==> t[s] != [] && terminal[s] == Last(t[s])
  }

  lemma TerminalAppend(terminal: map<Step, State>, t: Table, e: Entry)
    requires TerminalOf(terminal, t)
    ensures TerminalOf(terminal[e.step := e.state], t[e.step := Entries(t, e.step) + [e]])
  {
  }

  lemma NoTerminals()
    ensures Present([]) == [] && TerminalOf(map[], Group([]))
  {
  }

  method TerminalStates(es: seq<Entry>) returns (order: seq<Step>, terminal: map<Step, State>)
    ensures order == Present(es)
    ensures TerminalOf(terminal, Group(es))
  {
    hide *;
    order, terminal := [], map[];
    NoTerminals();
    var i := 0;
    while i < |es|
      invariant i <= |es|
      invariant order == Present(es[..i])
      invariant TerminalOf(terminal, Group(es[..i]))
    {
      Append(es[..i], es[i]);
      TerminalAppend(terminal, Group(es[..i]), es[i]);
      assert es[..i + 1] == es[..i] + [es[i]];
      if es[i].step !in order { order := order + [es[i].step]; }
      terminal := terminal[es[i].step := es[i].state];
      i := i + 1;
    }
    assert es[..|es|] == es;
  }

  /** The active steps of `order`, reversed. */
  function ReverseActive(order: seq<Step>, terminal: map<Step, State>): seq<Step>
    requires forall s :: s in order ==> s in terminal
  {
    if order == [] then []
    else
      var s := order[|order| - 1];
      (if terminal[s].Active() then [s] else []) + ReverseActive(order[..|order| - 1], terminal)
  }

  lemma {:induction false} ReverseActiveIsUndo(order: seq<Step>, terminal: map<Step, State>, t: Table)
    requires TerminalOf(terminal, t) && forall s :: s in order ==> s in t
    ensures ReverseActive(order, terminal) == Undo(order, t)
  {
    if order != [] { ReverseActiveIsUndo(order[..|order| - 1], terminal, t); }
  }

  /** The steps to undo, most recent first. */
  method StepsToUndo(es: seq<Entry>) returns (steps: seq<Step>)
    ensures steps == StepsNeedingRollback(es)
  {
    var order, terminal := TerminalStates(es);
    ReverseActiveIsUndo(order, terminal, Group(es));
    steps := ReverseActive(order, terminal);
  }

  ghost predicate AllKnown(cfg: Config, es: seq<Entry>) {
    forall e :: e in es ==> Known(cfg, e)
  }

  /** The entries the validator does not skip. */
  function KnownEntries(cfg: Config, es: seq<Entry>): (r: seq<Entry>)
    ensures |r| <= |es|
  {
    if es == [] then []
    else KnownEntries(cfg, es[..|es| - 1]) + if Known(cfg, es[|es| - 1]) then [es[|es| - 1]] else []
  }

  lemma {:induction false} NothingSkipped(cfg: Config, es: seq<Entry>)
    ensures |KnownEntries(cfg, es)| == |es| <==> AllKnown(cfg, es)
    ensures AllKnown(cfg, es) ==> KnownEntries(cfg, es) == es
  {
    if es != [] {
      var front, e := es[..|es| - 1], es[|es| - 1];
      assert es == front + [e];
      NothingSkipped(cfg, front);
      assert AllKnown(cfg, es) <==> AllKnown(cfg, front) && Known(cfg, e);
    }
  }

  lemma KnownNext(cfg: Config, es: seq<Entry>, i: nat)
    requires i < |es|
    ensures var k := KnownEntries(cfg, es[..i]);
      KnownEntries(cfg, es[..i + 1]) == if Known(cfg, es[i]) then k + [es[i]] else k
  {
    assert es[..i + 1][..i] == es[..i];
  }

  method Collect(cfg: Config, es: seq<Entry>) returns (problems: nat, order: seq<Step>, t: Table)
    ensures problems == 0 <==> AllKnown(cfg, es)
    ensures problems == 0 ==> order == Present(es) && t == Group(es)
    ensures order == Present(KnownEntries(cfg, es)) && t == Group(KnownEntries(cfg, es))
  {
    problems, order, t := 0, [], map[];
    var i := 0;
    ghost var kept: seq<Entry> := [];
    assert Present(kept) == order && Group(kept) == t;
    hide Known, Group, Present;
    while i < |es|
      invariant i <= |es|
      invariant kept == KnownEntries(cfg, es[..i]) && problems == i - |kept|
      invariant order == Present(kept) && t == Group(kept)
    {
      var e := es[i];
      KnownNext(cfg, es, i);
      if !Known(cfg, e) {
        problems := problems + 1;
      } else {
        Append(kept, e);
        if e.step !in t { order := order + [e.step]; }
        t := t[e.step := Entries(t, e.step) + [e]];
        kept := kept + [e];
      }
      i := i + 1;
    }
    assert es[..|es|] == es;
    NothingSkipped(cfg, es);
  }

  method CheckProgressions(order: seq<Step>, t: Table) returns (problems: nat)
    requires forall s :: s in order ==> s in t
    ensures problems == 0 <==> Progressing(order, t)
  {
    problems := 0;
    for i := 0 to |order|
      invariant problems == 0 <==> Progressing(order[..i], t)
    {
      var xs := t[order[i]];
      assert order[..i + 1] == order[..i] + [order[i]];
      if !Progression(States(xs)) { problems := problems + 1; }
      if !Uniform(xs) { problems := problems + 1; }
    }
    assert order[..|order|] == order;
  }

  /** The started and done states a step went through. */
  function Activation(xs: seq<Entry>): seq<State> {
    if xs == [] then []
    else Activation(xs[..|xs| - 1]) + if xs[|xs| - 1].state.Active() then [xs[|xs| - 1].state] else []
  }

  predicate Advanced(xs: seq<Entry>) {
    var a := Activation(xs); a != [] && a[|a| - 1] == Done
  }

  lemma AdvancedIsDone(xs: seq<Entry>)
    requires Progression(States(xs))
    ensures Advanced(xs) <==> Done in States(xs)
  {
    assert forall i :: 0 <= i < |xs| ==> States(xs)[i] == xs[i].state;
    assert |xs| == |States(xs)| <= 3;
    ActivationPrefixes(xs);
  }

  lemma ActivationPrefixes(xs: seq<Entry>)
    requires 0 < |xs| <= 3
    ensures Activation(xs) == ActivationAt(xs, 0) + ActivationAt(xs, 1) + ActivationAt(xs, 2)
  {
    assert xs[..|xs| - 1][..0] == [];
    if |xs| == 3 {
      assert xs[..2][..1] == xs[..1];
      assert xs[..1][..0] == [];
    }
  }

  function ActivationAt(xs: seq<Entry>, i: nat): seq<State> {
    if i < |xs| && xs[i].state.Active() then [xs[i].state] else []
  }

  method CheckAdvance(order: seq<Step>, t: Table) returns (problems: nat)
    requires forall s :: s in order ==> s in t
    ensures Progressing(order, t) ==> (problems == 0 <==> Advancing(order, t))
  {
    problems := 0;
    var n := if |order| == 0 then 0 else |order| - 1;
    for k := 0 to n
      invariant problems == 0 <==> forall i :: 0 <= i < k ==> Advanced(t[order[i]])
    {
      if !Advanced(t[order[k]]) { problems := problems + 1; }
    }
    if Progressing(order, t) {
      forall i | 0 <= i < n ensures Advanced(t[order[i]]) <==> Done in States(t[order[i]]) {
        AdvancedIsDone(t[order[i]]);
      }
    }
  }

  method CheckQuiet(cfg: Config, t: Table, live: Files, backup: Files) returns (problems: nat)
    requires forall s :: s in t ==> t[s] != []
    ensures problems == 0 <==> QuietEqualsBackup(cfg, t, live, backup)
  {
    problems := 0;
    for i := 0 to |cfg.plan|
      invariant problems == 0 <==> forall sw ::
                  (sw in cfg.swaps && sw.step in cfg.plan[..i] && (sw.step in t ==> Last(t[sw.step]).RolledBack?))
                  ==> Restored1(live, backup, sw)
    {
      var step := cfg.plan[i];
      assert cfg.plan[..i + 1] == cfg.plan[..i] + [step];
      if step !in t || Last(t[step]).RolledBack? {
        var swaps := SwapsForStep(cfg.swaps, step);
        var bad := 0;
        for j := 0 to |swaps|
          invariant bad >= 0 && (bad == 0 <==> forall k :: 0 <= k < j ==> Restored1(live, backup, swaps[k]))
        {
          if !Restored1(live, backup, swaps[j]) { bad := bad + 1; }
        }
        problems := problems + bad;
        assert forall sw :: sw in swaps <==> sw in cfg.swaps && sw.step == step;
      }
    }
    assert cfg.plan[..|cfg.plan|] == cfg.plan;
  }

  // ----- Target metadata -----

  /** The usable identifiers of a target list; the rest are malformed. */
  function ValidIds(ts: seq<Target>): (ids: seq<Ident>)
    ensures |ids| <= |ts|
    ensures |ids| == |ts| <==> forall i :: 0 <= i < |ts| ==> ts[i].id.Some? && ts[i].id.value != ""
    ensures |ids| == |ts| ==> forall i :: 0 <= i < |ts| ==> ids[i] == ts[i].id.value
  {
    if ts == [] then []
    else
      var front, last := ValidIds(ts[..|ts| - 1]), ts[|ts| - 1];
      front + if last.id.Some? && last.id.value != "" then [last.id.value] else []
  }

  predicate Duplicated(ids: seq<Ident>) {
    exists i, j :: 0 <= i < j < |ids| && ids[i] == ids[j]
  }

  predicate UniqueIds(swaps: seq<Swap>) {
    && (forall i, j :: 0 <= i < j < |swaps| ==> swaps[i].id != swaps[j].id)
    && (forall sw :: sw in swaps ==> sw.id != "")
  }

  method CheckTarget(swaps: seq<Swap>, backup: Files, t: Target) returns (problems: nat)
    requires t.id.Some? && Lookup(swaps, t.id.value).Some?
    ensures problems == 0 <==> TargetMatches(swaps, backup, t) && ModeOk(t)
  {
    problems := 0;
    var id := t.id.value;
    var sw := Lookup(swaps, id).value;
    if t.live != Some(sw.live) { problems := problems + 1; }
    if t.staged != Some(sw.staged) { problems := problems + 1; }
    if t.backupRef != Some(id) { problems := problems + 1; }
    if t.preSha.None? {
      problems := problems + 1;
    } else if id !in backup || Sha256(backup[id].bytes) != t.preSha.value {
      problems := problems + 1;
    }
    if t.stagedSha.None? { problems := problems + 1; }
    if t.mode.None? || !(0 < t.mode.value <= MAX_MODE) { problems := problems + 1; }
  }

  method CheckEntryTargets(swaps: seq<Swap>, backup: Files, ts: seq<Target>) returns (problems: nat)
    requires UniqueIds(swaps)
    ensures problems == 0 <==>
      TargetsMatch(swaps, backup, ts) && forall i :: 0 <= i < |ts| ==> ModeOk(ts[i])
  {
    hide ValidIds, Lookup, TargetMatches, TargetsMatch, ModeOk;
    problems := 0;
    var ids := ValidIds(ts);
    if Duplicated(ids) { problems := problems + 1; }
    if exists sw :: sw in swaps && sw.id !in ids { problems := problems + 1; }
    if exists id :: id in ids && Lookup(swaps, id).None? { problems := problems + 1; }
    if |ids| != |ts| { problems := problems + 1; }
    if |ts| != |swaps| { problems := problems + 1; }
    ghost var shape := problems == 0;
    assert shape <==> ShapeOk(swaps, ts);
    forall k | shape && 0 <= k < |ts| ensures ts[k].id.Some? && Lookup(swaps, ts[k].id.value).Some? {
      assert ids[k] in ids;
    }
    for i := 0 to |ts|
      invariant shape ==>
        (problems == 0 <==> forall k :: 0 <= k < i ==> TargetMatches(swaps, backup, ts[k]) && ModeOk(ts[k]))
      invariant !shape ==> problems > 0
    {
      if ts[i].id.Some? && Lookup(swaps, ts[i].id.value).Some? {
        var p := CheckTarget(swaps, backup, ts[i]);
        problems := problems + p;
      }
    }
    ShapeIsMatch(swaps, backup, ts);
  }

  /** The identifier bookkeeping of one entry: no duplicate, missing, extra or malformed identifier. */
  ghost predicate ShapeOk(swaps: seq<Swap>, ts: seq<Target>) {
    var ids := ValidIds(ts);
    && !Duplicated(ids)
    && (forall sw :: sw in swaps ==> sw.id in ids)
    && (forall id :: id in ids ==> Lookup(swaps, id).Some?)
    && |ids| == |ts| == |swaps|
  }

  lemma ShapeIsMatch(swaps: seq<Swap>, backup: Files, ts: seq<Target>)
    requires UniqueIds(swaps)
    ensures TargetsMatch(swaps, backup, ts) <==>
      ShapeOk(swaps, ts) && forall i :: 0 <= i < |ts| ==> TargetMatches(swaps, backup, ts[i])
  {
    var ids := ValidIds(ts);
    if TargetsMatch(swaps, backup, ts) {
      forall i | 0 <= i < |ts| ensures ts[i].id.Some? && ts[i].id.value != "" {
        assert TargetMatches(swaps, backup, ts[i]);
      }
      forall sw | sw in swaps ensures sw.id in ids {
        var k :| 0 <= k < |swaps| && swaps[k] == sw;
        var i :| 0 <= i < |ts| && ts[i].id == Some(swaps[k].id);
        assert ids[i] == sw.id;
      }
      forall id | id in ids ensures Lookup(swaps, id).Some? {
        var i :| 0 <= i < |ids| && ids[i] == id;
        assert TargetMatches(swaps, backup, ts[i]);
      }
    }
    if ShapeOk(swaps, ts) {
      forall k | 0 <= k < |swaps| ensures exists i :: 0 <= i < |ts| && ts[i].id == Some(swaps[k].id) {
        assert swaps[k].id in ids;
        var i :| 0 <= i < |ids| && ids[i] == swaps[k].id;
        assert ts[i].id == Some(swaps[k].id);
      }
      forall i, j | 0 <= i < j < |ts| ensures ts[i].id != ts[j].id {
        assert ids[i] != ids[j];
      }
    }
  }

  lemma {:induction false} StepIdsUnique(swaps: seq<Swap>, step: Step)
    requires UniqueIds(swaps)
    ensures UniqueIds(SwapsForStep(swaps, step))
  {
    if swaps != [] {
      var tail := swaps[1..];
      assert forall sw :: sw in tail ==> sw in swaps;
      StepIdsUnique(tail, step);
      var r := SwapsForStep(tail, step);
      forall j | 0 <= j < |r| ensures r[j].id != swaps[0].id {
        assert r[j] in r;
        var k :| 0 <= k < |tail| && tail[k] == r[j];
        assert swaps[k + 1] == r[j];
      }
    }
  }

  predicate EntryOk(cfg: Config, backup: Files, e: Entry) {
    && TargetsMatch(SwapsForStep(cfg.swaps, e.step), backup, e.targets)
    && forall i :: 0 <= i < |e.targets| ==> ModeOk(e.targets[i])
  }

  method CheckTargets(cfg: Config, es: seq<Entry>, backup: Files) returns (problems: nat)
    requires WellFormed(cfg)
    ensures problems == 0 <==> forall e :: e in es && Known(cfg, e) ==> EntryOk(cfg, backup, e)
  {
    problems := 0;
    assert UniqueIds(cfg.swaps);
    for i := 0 to |es|
      invariant problems == 0 <==> forall e :: e in es[..i] && Known(cfg, e) ==> EntryOk(cfg, backup, e)
    {
      var e := es[i];
      assert es[..i + 1] == es[..i] + [e];
      if Known(cfg, e) {
        StepIdsUnique(cfg.swaps, e.step);
        var p := CheckEntryTargets(SwapsForStep(cfg.swaps, e.step), backup, e.targets);
        problems := problems + p;
      }
    }
    assert es[..|es|] == es;
  }

  method FirstTargets(steps: seq<Step>, t: Table) returns (recorded: map<Step, seq<Target>>)
    requires forall s :: s in t ==> t[s] != []
    ensures forall s :: s in recorded <==> s in steps && s in t
    ensures forall s :: s in recorded ==> recorded[s] == t[s][0].targets
  {
    recorded := map[];
    for i := 0 to |steps|
      invariant forall s :: s in recorded <==> s in steps[..i] && s in t
      invariant forall s :: s in recorded ==> recorded[s] == t[s][0].targets
    {
      if steps[i] in t { recorded := recorded[steps[i] := t[steps[i]][0].targets]; }
    }
  }

  /** Complete, canonical rollback metadata, or the number of problems found. */
  method ValidateRollbackJournal(cfg: Config, es: seq<Entry>, steps: seq<Step>, live: Files, backup: Files)
    returns (r: Result<map<Step, seq<Target>>, nat>)
    requires WellFormed(cfg)
    ensures r.Ok? <==> Acceptable(cfg, es, live, backup) && steps == StepsNeedingRollback(es)
    ensures r.Ok? ==> forall s :: s in r.value <==> s in steps
    ensures r.Ok? ==> forall s :: s in steps ==> s in Group(es) && r.value[s] == Group(es)[s][0].targets
    ensures r.Err? ==> r.error > 0
  {
    hide Group, Present, Moves, ExpectedMoves, Undo, Known, EntryOk, EntriesMatch, ModesOk, QuietEqualsBackup,
         Progressing, Advancing;
    var problems, order, t := Collect(cfg, es);
    ghost var known := problems == 0;
    if !(order <= cfg.plan) { problems := problems + 1; }
    var p1 := CheckProgressions(order, t);
    if Moves(es) != ExpectedMoves(order, t) { problems := problems + 1; }
    var p2 := CheckAdvance(order, t);
    if steps != Undo(order, t) { problems := problems + 1; }
    var p3 := CheckQuiet(cfg, t, live, backup);
    if exists s :: s in steps && s !in cfg.plan { problems := problems + 1; }
    var p4 := CheckTargets(cfg, es, backup);
    var recorded := FirstTargets(steps, t);
    if exists s :: s in steps && s !in recorded { problems := problems + 1; }
    problems := problems + p1 + p2 + p3 + p4;
    EntriesSplit(cfg, es, backup);
    if known && Present(es) <= cfg.plan {
      forall s | s in StepsNeedingRollback(es) ensures s in cfg.plan {
        assert s in Present(es);
      }
    }
    r := if problems == 0 then Ok(recorded) else Err(problems);
  }

  lemma EntriesSplit(cfg: Config, es: seq<Entry>, backup: Files)
    ensures EntriesMatch(cfg, es, backup) && ModesOk(es) <==>
      AllKnown(cfg, es) && (forall e :: e in es && Known(cfg, e) ==> EntryOk(cfg, backup, e))
  {
  }
}
