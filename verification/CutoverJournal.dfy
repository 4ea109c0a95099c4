/**
 The activation journal of the cutover toolkit, and what a journal must look
 like before rollback is allowed to write anything.

 File contents are opaque byte strings and SHA-256 is an injective constructor.
 Paths are canonical names, so two paths are the same file exactly when they are
 equal. A path is a regular file exactly when it is a key of the file map.
 */
module CutoverJournal {
  import opened Wrappers

  type Path = string
  type Ident = string
  type Step = string
  type Bytes = seq<bv8>

  datatype Sha = Sha256(of: Bytes)

  datatype File = File(bytes: Bytes, mode: int)

  type Files = map<Path, File>

  /** One atomic replacement of a live file by a staged one. */
  datatype Swap = Swap(step: Step, id: Ident, live: Path, staged: Path)

  /** The ordered activation steps, the ordered replacements of all steps, and the rollback unit. */
  datatype Config = Config(plan: seq<Step>, swaps: seq<Swap>, unit: seq<Ident>)

  datatype State = Started | Done | RolledBack | Unknown(name: string) {
    predicate Active() { Started? || Done? }
    predicate Allowed() { !Unknown? }
  }

  /** A journaled target; `None` stands for a missing or ill-typed field. */
  datatype Target = Target(
    id: Option<Ident>, live: Option<Path>, staged: Option<Path>, backupRef: Option<Ident>,
    preSha: Option<Sha>, stagedSha: Option<Sha>, mode: Option<int>)

  datatype Entry = Entry(step: Step, state: State, targets: seq<Target>)

  const MAX_MODE := 0x1FF // 0o777

  function SwapsForStep(swaps: seq<Swap>, step: Step): (r: seq<Swap>)
    ensures forall sw :: sw in r <==> sw in swaps && sw.step == step
  {
    if swaps == [] then []
    else
      var rest := SwapsForStep(swaps[1..], step);
      if swaps[0].step == step then [swaps[0]] + rest else rest
  }

  /** What an accepted layout guarantees; proved of real configurations in `CutoverLayout`. */
  ghost predicate WellFormed(cfg: Config) {
    && (forall i, j :: 0 <= i < j < |cfg.plan| ==> cfg.plan[i] != cfg.plan[j])
    && (forall sw :: sw in cfg.swaps ==> sw.step in cfg.plan && sw.id != "")
    && (forall i, j :: 0 <= i < j < |cfg.swaps| ==>
        cfg.swaps[i].live != cfg.swaps[j].live && cfg.swaps[i].id != cfg.swaps[j].id)
  }

  // ----- The journal read as one table of entries per step -----

  type Table = map<Step, seq<Entry>>

  function Entries(t: Table, step: Step): seq<Entry> {
    if step in t then t[step] else []
  }

  function Group(es: seq<Entry>): (t: Table)
    ensures forall s :: s in t ==> t[s] != []
  {
    if es == [] then map[]
    else
      var t, e := Group(es[..|es| - 1]), es[|es| - 1];
      t[e.step := Entries(t, e.step) + [e]]
  }

  /** The table holds exactly the journal's entries. */
  lemma {:induction false} GroupMembers(es: seq<Entry>, e: Entry)
    ensures e in es <==> e.step in Group(es) && e in Group(es)[e.step]
  {
    if es != [] {
      var front, last := es[..|es| - 1], es[|es| - 1];
      assert es == front + [last];
      GroupMembers(front, e);
      assert e in es <==> e in front || e == last;
    }
  }

  lemma {:induction false} GroupStep(es: seq<Entry>, s: Step, k: nat)
    requires s in Group(es) && k < |Group(es)[s]|
    ensures Group(es)[s][k].step == s && Group(es)[s][k] in es
  {
    var front, last := es[..|es| - 1], es[|es| - 1];
    assert es == front + [last];
    if s in Group(front) && k < |Group(front)[s]| { GroupStep(front, s, k); }
  }

  /** Steps in the order of their first entry. */
  function Present(es: seq<Entry>): (order: seq<Step>)
    ensures forall s :: s in order <==> s in Group(es)
    ensures forall i, j :: 0 <= i < j < |order| ==> order[i] != order[j]
  {
    if es == [] then []
    else
      var order, e := Present(es[..|es| - 1]), es[|es| - 1];
      if e.step in order then order else order + [e.step]
  }

  function States(xs: seq<Entry>): seq<State> {
    seq(|xs|, i requires 0 <= i < |xs| => xs[i].state)
  }

  function Last(xs: seq<Entry>): State
    requires xs != []
  {
    xs[|xs| - 1].state
  }

  /** Steps whose replacements must be undone, most recent first. */
  function Undo(order: seq<Step>, t: Table): (r: seq<Step>)
    requires forall s :: s in order ==> s in t && t[s] != []
    ensures forall s :: s in r <==> s in order && Last(t[s]).Active()
  {
    if order == [] then []
    else
      var s := order[|order| - 1];
      (if Last(t[s]).Active() then [s] else []) + Undo(order[..|order| - 1], t)
  }

  function StepsNeedingRollback(es: seq<Entry>): seq<Step> {
    Undo(Present(es), Group(es))
  }

  /** The activation half of the journal: its started and done entries in order. */
  function Moves(es: seq<Entry>): seq<(Step, State)> {
    if es == [] then []
    else
      var e := es[|es| - 1];
      Moves(es[..|es| - 1]) + if e.state.Active() then [(e.step, e.state)] else []
  }

  /** The activation half one step contributes when steps do not interleave. */
  function StepMoves(step: Step, xs: seq<Entry>): seq<(Step, State)> {
    if xs == [] then []
    else
      var e := xs[|xs| - 1];
      StepMoves(step, xs[..|xs| - 1]) + if e.state.Active() then [(step, e.state)] else []
  }

  function ExpectedMoves(order: seq<Step>, t: Table): seq<(Step, State)> {
    if order == [] then []
    else
      var s := order[|order| - 1];
      ExpectedMoves(order[..|order| - 1], t) + StepMoves(s, Entries(t, s))
  }

  // ----- What rollback demands of a journal -----

  predicate Progression(p: seq<State>) {
    || p == [Started]
    || p == [Started, Done]
    || p == [Started, RolledBack]
    || p == [Started, Done, RolledBack]
  }

  predicate Uniform(xs: seq<Entry>) {
    forall i :: 0 <= i < |xs| ==> xs[i].targets == xs[0].targets
  }

  /** The swap a target names within its own step. */
  function Lookup(swaps: seq<Swap>, id: Ident): (r: Option<Swap>)
    ensures r.Some? ==> r.value in swaps && r.value.id == id
    ensures r.None? ==> forall sw :: sw in swaps ==> sw.id != id
  {
    if swaps == [] then None
    else if Lookup(swaps[1..], id).Some? then Lookup(swaps[1..], id)
    else if swaps[0].id == id then Some(swaps[0]) else None
  }

  /** All of a target except its mode agrees with the configuration and the backup. */
  predicate TargetMatches(swaps: seq<Swap>, backup: Files, t: Target) {
    && t.id.Some?
    && var id := t.id.value;
    && Lookup(swaps, id).Some?
    && var sw := Lookup(swaps, id).value;
    && t.live == Some(sw.live)
    && t.staged == Some(sw.staged)
    && t.backupRef == Some(id)
    && id in backup
    && t.preSha == Some(Sha256(backup[id].bytes))
    && t.stagedSha.Some?
  }

  predicate ModeOk(t: Target) {
    t.mode.Some? && 0 < t.mode.value <= MAX_MODE
  }

  predicate TargetsMatch(swaps: seq<Swap>, backup: Files, ts: seq<Target>) {
    && |ts| == |swaps|
    && (forall i :: 0 <= i < |ts| ==> TargetMatches(swaps, backup, ts[i]))
    && (forall i, j :: 0 <= i < j < |ts| ==> ts[i].id != ts[j].id)
    && (forall k :: 0 <= k < |swaps| ==> exists i :: 0 <= i < |ts| && ts[i].id == Some(swaps[k].id))
  }

  predicate Restored1(live: Files, backup: Files, sw: Swap) {
    sw.id in backup && sw.live in live && live[sw.live].bytes == backup[sw.id].bytes
  }

  /** Steps that are absent or already rolled back must be byte-equal to backup. */
  predicate QuietEqualsBackup(cfg: Config, t: Table, live: Files, backup: Files)
    requires forall s :: s in t ==> t[s] != []
  {
    forall sw :: sw in cfg.swaps && sw.step in cfg.plan
                 && (sw.step in t ==> Last(t[sw.step]).RolledBack?)
                 ==> Restored1(live, backup, sw)
  }

  predicate Progressing(order: seq<Step>, t: Table) {
    forall s :: s in order ==> s in t && Progression(States(t[s])) && Uniform(t[s])
  }

  /** No step is advanced past before it is done. */
  predicate Advancing(order: seq<Step>, t: Table) {
    forall k :: 0 <= k < |order| - 1 ==> order[k] in t && Done in States(t[order[k]])
  }

  predicate Ordered(cfg: Config, es: seq<Entry>) {
    && Present(es) <= cfg.plan
    && Progressing(Present(es), Group(es))
    && Moves(es) == ExpectedMoves(Present(es), Group(es))
    && Advancing(Present(es), Group(es))
  }

  predicate EntriesMatch(cfg: Config, es: seq<Entry>, backup: Files) {
    forall e :: e in es ==>
      e.step in cfg.plan && e.state.Allowed()
      && TargetsMatch(SwapsForStep(cfg.swaps, e.step), backup, e.targets)
  }

  predicate ModesOk(es: seq<Entry>) {
    forall e, i :: e in es && 0 <= i < |e.targets| ==> ModeOk(e.targets[i])
  }

  /** Everything the validator demands except the recorded file modes. */
  predicate Coherent(cfg: Config, es: seq<Entry>, live: Files, backup: Files) {
    Ordered(cfg, es) && QuietEqualsBackup(cfg, Group(es), live, backup) && EntriesMatch(cfg, es, backup)
  }

  predicate Acceptable(cfg: Config, es: seq<Entry>, live: Files, backup: Files) {
    Coherent(cfg, es, live, backup) && ModesOk(es)
  }

  // ----- Appending one entry -----

  lemma Append(es: seq<Entry>, e: Entry)
    ensures (es + [e])[..|es|] == es && (es + [e])[|es|] == e
    ensures Group(es + [e]) == Group(es)[e.step := Entries(Group(es), e.step) + [e]]
    ensures Present(es + [e]) == if e.step in Present(es) then Present(es) else Present(es) + [e.step]
    ensures Moves(es + [e]) == Moves(es) + if e.state.Active() then [(e.step, e.state)] else []
  {
    assert (es + [e])[..|es|] == es;
  }

  lemma StatesAppend(xs: seq<Entry>, e: Entry)
    ensures States(xs + [e]) == States(xs) + [e.state]
    ensures StepMoves(e.step, xs + [e]) == StepMoves(e.step, xs) + if e.state.Active() then [(e.step, e.state)] else []
  {
    assert (xs + [e])[..|xs|] == xs;
  }

  /** A step's contribution depends only on that step's own entries. */
  lemma {:induction false} ExpectedMovesFrame(order: seq<Step>, t: Table, t': Table)
    requires forall s :: s in order ==> StepMoves(s, Entries(t, s)) == StepMoves(s, Entries(t', s))
    ensures ExpectedMoves(order, t) == ExpectedMoves(order, t')
  {
    if order != [] { ExpectedMovesFrame(order[..|order| - 1], t, t'); }
  }

  /** A step's place in the undo order depends only on its own last state. */
  lemma {:induction false} UndoFrame(order: seq<Step>, t: Table, t': Table)
    requires forall s :: s in order ==> s in t && t[s] != [] && s in t' && t'[s] != []
    requires forall s :: s in order ==> Last(t[s]).Active() == Last(t'[s]).Active()
    ensures Undo(order, t) == Undo(order, t')
  {
    if order != [] { UndoFrame(order[..|order| - 1], t, t'); }
  }

  /** Retiring the first step of the undo order removes it and nothing else. */
  lemma {:induction false} UndoRetire(order: seq<Step>, t: Table, t': Table, step: Step)
    requires forall s :: s in order ==> s in t && t[s] != [] && s in t' && t'[s] != []
    requires forall i, j :: 0 <= i < j < |order| ==> order[i] != order[j]
    requires Undo(order, t) != [] && Undo(order, t)[0] == step
    requires !Last(t'[step]).Active()
    requires forall s :: s in order && s != step ==> t'[s] == t[s]
    ensures Undo(order, t') == Undo(order, t)[1..]
  {
    var s := order[|order| - 1];
    if s == step {
      UndoFrame(order[..|order| - 1], t, t');
    } else {
      assert step in Undo(order, t);
      UndoRetire(order[..|order| - 1], t, t', step);
    }
  }

  lemma {:induction false} PlanPrefix(plan: seq<Step>, order: seq<Step>, step: Step)
    requires order <= plan && |order| < |plan| && step == plan[|order|]
    ensures order + [step] <= plan
  {
    assert plan[..|order| + 1] == plan[..|order|] + [step];
  }
}
