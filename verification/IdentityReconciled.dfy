/**
 Identity binding among reconciliation runs, which take agent records and tickets off the board and put them back:
 an agent unbound, under its source name or under what redaction made of it, a ticket without identities.
 */
module IdentityReconciled {
  import opened Wrappers
  import opened IdentityBinding

  datatype Step =
    | Bind(decisions: Decisions)
    | RestoreAgent(recordId: RecordId, name: string)
    | DropAgent(recordId: RecordId)
    | RestoreTicket(replaced: Option<nat>, ticket: Ticket)
    | DropTicket(at: nat)

  function WithoutAgent(agents: seq<Agent>, recordId: RecordId): seq<Agent> {
    if agents == [] then []
    else
      var last := agents[|agents| - 1];
      WithoutAgent(agents[..|agents| - 1], recordId) + if last.recordId == recordId then [] else [last]
  }

  function WithoutTicket(tickets: seq<Ticket>, at: nat): seq<Ticket> {
    if at < |tickets| then tickets[..at] + tickets[at + 1..] else tickets
  }

  function Unidentified(t: Ticket): Ticket {
    map f | f in t :: t[f].(identity := None)
  }

  function Next(s: State, step: Step, env: Env): State {
    match step
    case Bind(d) => After(s, d, env)
    case RestoreAgent(r, name) => s.(agents := WithoutAgent(s.agents, r) + [Agent(r, name, Unbound, None, None)])
    case DropAgent(r) => s.(agents := WithoutAgent(s.agents, r))
    case RestoreTicket(replaced, t) =>
      s.(tickets := (if replaced.Some? then WithoutTicket(s.tickets, replaced.value) else s.tickets)
        + [Unidentified(t)])
    case DropTicket(at) => s.(tickets := WithoutTicket(s.tickets, at))
  }

  function Steps(s: State, steps: seq<Step>, env: Env): State {
    if steps == [] then s else Next(Steps(s, steps[..|steps| - 1], env), steps[|steps| - 1], env)
  }

  // ----- What survives -----

  /** An operator bound record `r` under this name, and this is the identity of the principal it was bound to. */
  predicate GrantedTo(applied: map<RecordId, Applied>, env: Env, r: RecordId, name: string, identity: Identity) {
    && r in applied && applied[r].name == name && applied[r].status.Bound?
    && identity == env.identityOf(applied[r].decision, name)
  }

  ghost predicate Granted(applied: map<RecordId, Applied>, env: Env, name: string, identity: Identity) {
    exists r :: r in applied && GrantedTo(applied, env, r, name, identity)
  }

  predicate AgentSound(a: Agent, applied: map<RecordId, Applied>, env: Env) {
    a.status.Bound? ==> a.identity.Some? && GrantedTo(applied, env, a.recordId, a.name, a.identity.value)
  }

  ghost predicate SlotSound(s: State, env: Env, slot: Slot) {
    slot.identity.Some? ==>
      && slot.display.Some? && Granted(s.applied, env, slot.display.value, slot.identity.value)
      && env.hash(slot.display.value) !in s.ambiguous
  }

  ghost predicate AgentsSound(s: State, env: Env) {
    IdsDistinct(s.agents) && forall a :: a in s.agents ==> AgentSound(a, s.applied, env)
  }

  ghost predicate TicketsSound(s: State, env: Env) {
    forall t: Ticket, f :: t in s.tickets && f in t ==> SlotSound(s, env, t[f])
  }

  lemma {:induction false} WithoutAgentIs(agents: seq<Agent>, recordId: RecordId)
    requires IdsDistinct(agents)
    ensures var rest := WithoutAgent(agents, recordId);
      && IdsDistinct(rest)
      && (forall a :: a in rest <==> a in agents && a.recordId != recordId)
  {
    if agents != [] {
      var n := |agents| - 1;
      WithoutAgentIs(agents[..n], recordId);
      assert agents == agents[..n] + [agents[n]];
      var front := WithoutAgent(agents[..n], recordId);
      forall a | a in front ensures a.recordId != agents[n].recordId {
        var i :| 0 <= i < n && agents[..n][i] == a;
        assert agents[i] == a;
      }
    }
  }

  lemma GrantedGrows(applied: map<RecordId, Applied>, later: map<RecordId, Applied>, env: Env, name: string,
                     x: Identity)
    requires Granted(applied, env, name, x)
    requires forall r :: r in applied ==> r in later && later[r] == applied[r]
    ensures Granted(later, env, name, x)
  {
    var r :| r in applied && GrantedTo(applied, env, r, name, x);
    assert r in later && GrantedTo(later, env, r, name, x);
  }

  /** What one binding run adds to the decisions on file, and that it takes none away. */
  lemma BindApplied(s: State, d: Decisions, env: Env)
    requires IdsDistinct(s.agents)
    ensures var later := After(s, d, env).applied;
      forall r :: r in s.applied ==> r in later && later[r] == s.applied[r]
  {
    AdvanceApplied(s, d, env, |s.agents|);
  }

  lemma BindAgents(s: State, d: Decisions, env: Env)
    requires AgentsSound(s, env)
    ensures AgentsSound(After(s, d, env), env)
    ensures NamesOf(After(s, d, env).agents) == NamesOf(s.agents)
  {
    hide Decision, Advance, TicketsAfter, Unique;
    BindApplied(s, d, env);
    var after := After(s, d, env);
    if !Refused(s, d, env) && d.digest !in s.files {
      AdvanceApplied(s, d, env, |s.agents|);
      forall i | 0 <= i < |s.agents| ensures AgentSound(AgentAfter(s, d, env, s.agents[i]), after.applied, env) {
        var a := s.agents[i];
        assert AgentSound(a, s.applied, env);
        if Decides(s, d, env, a) { SettledSound(s, d, env, a, after.applied); }
      }
      assert NamesOf(after.agents) == NamesOf(s.agents);
    }
  }

  lemma SettledSound(s: State, d: Decisions, env: Env, a: Agent, applied: map<RecordId, Applied>)
    requires Decides(s, d, env, a) && a.recordId in applied
    requires applied[a.recordId] == Applied(a.name, Decision(s, d, env, a).value, AgentAfter(s, d, env, a).status)
    ensures AgentSound(AgentAfter(s, d, env, a), applied, env)
  {
  }

  lemma BindSlot(s: State, d: Decisions, env: Env, slot: Slot)
    requires AgentsSound(s, env) && SlotSound(s, env, slot) && !Refused(s, d, env) && d.digest !in s.files
    ensures SlotSound(After(s, d, env), env, SlotAfter(slot, Unique(s, env, AgentsAfter(s, d, env))))
  {
    hide Refused, Decision, Decides, Unique, Advance, TicketsAfter, AgentAfter;
    var after := After(s, d, env);
    BindApplied(s, d, env);
    BindAgents(s, d, env);
    if slot.identity.Some? { GrantedGrows(s.applied, after.applied, env, slot.display.value, slot.identity.value); }
    var unique := Unique(s, env, after.agents);
    if slot.display.Some? && slot.display.value in unique {
      var name := slot.display.value;
      UniqueExact(s, env, after.agents, name, unique[name]);
      var i :| 0 <= i < |after.agents| && after.agents[i].name == name && after.agents[i].status.Bound?
        && after.agents[i].identity == Some(unique[name]);
      assert after.agents[i] in after.agents && AgentSound(after.agents[i], after.applied, env);
      assert GrantedTo(after.applied, env, after.agents[i].recordId, name, unique[name]);
      assert NamesOf(s.agents)[i] == NamesOf(after.agents)[i] == name;
    }
  }

  lemma BindTickets(s: State, d: Decisions, env: Env)
    requires AgentsSound(s, env) && TicketsSound(s, env)
    ensures TicketsSound(After(s, d, env), env)
  {
    hide Refused, AgentsAfter, Unique, Advance, SlotSound, SlotAfter, AgentsSound;
    var after := After(s, d, env);
    if !Refused(s, d, env) && d.digest !in s.files {
      forall t: Ticket, f | t in after.tickets && f in t ensures SlotSound(after, env, t[f]) {
        var i :| 0 <= i < |after.tickets| && after.tickets[i] == t;
        assert s.tickets[i] in s.tickets && f in s.tickets[i];
        BindSlot(s, d, env, s.tickets[i][f]);
      }
    }
  }

  lemma NextSound(s: State, step: Step, env: Env)
    requires AgentsSound(s, env) && TicketsSound(s, env)
    ensures AgentsSound(Next(s, step, env), env) && TicketsSound(Next(s, step, env), env)
  {
    hide After, SlotSound, AgentSound;
    match step
    case Bind(d) =>
      BindAgents(s, d, env);
      BindTickets(s, d, env);
    case RestoreAgent(r, name) =>
      WithoutAgentIs(s.agents, r);
      AgentsOnly(s, Next(s, step, env), env);
      UnboundSound(r, name, s.applied, env);
    case DropAgent(r) =>
      WithoutAgentIs(s.agents, r);
      AgentsOnly(s, Next(s, step, env), env);
    case RestoreTicket(_, t) => TicketsOnly(s, Next(s, step, env), env, Unidentified(t));
    case DropTicket(at) => TicketsOnly(s, Next(s, step, env), env, map[]);
  }

  lemma UnboundSound(r: RecordId, name: string, applied: map<RecordId, Applied>, env: Env)
    ensures AgentSound(Agent(r, name, Unbound, None, None), applied, env)
  {
  }

  lemma AgentsOnly(s: State, after: State, env: Env)
    requires TicketsSound(s, env) && after == s.(agents := after.agents)
    ensures TicketsSound(after, env)
  {
    forall t: Ticket, f | t in after.tickets && f in t ensures SlotSound(after, env, t[f]) {
      assert SlotSound(s, env, t[f]);
    }
  }

  lemma TicketsOnly(s: State, after: State, env: Env, added: Ticket)
    requires TicketsSound(s, env) && after == s.(tickets := after.tickets)
    requires forall t :: t in after.tickets ==> t in s.tickets || t == added
    requires forall f :: f in added ==> added[f].identity.None?
    ensures TicketsSound(after, env)
  {
    forall t: Ticket, f | t in after.tickets && f in t ensures SlotSound(after, env, t[f]) {
      if t in s.tickets { assert SlotSound(s, env, t[f]); }
    }
  }

  lemma {:induction false} StepsSound(s: State, steps: seq<Step>, env: Env)
    requires AgentsSound(s, env) && TicketsSound(s, env)
    ensures var after := Steps(s, steps, env);
      AgentsSound(after, env) && TicketsSound(after, env) && after.ambiguous == s.ambiguous
  {
    hide AgentsSound, TicketsSound, After;
    if steps != [] {
      var n := |steps| - 1;
      StepsSound(s, steps[..n], env);
      NextSound(Steps(s, steps[..n], env), steps[n], env);
      AfterAmbiguous(Steps(s, steps[..n], env), steps[n], env);
    }
  }

  lemma AfterAmbiguous(s: State, step: Step, env: Env)
    ensures Next(s, step, env).ambiguous == s.ambiguous
  {
    hide Refused, AgentsAfter, Advance, TicketsAfter, Unique;
  }

  lemma ImportedIsSound(source: seq<Source>, quarantined: set<RecordId>, tickets: seq<Ticket>, env: Env)
    requires forall i, j :: 0 <= i < j < |source| ==> source[i].recordId != source[j].recordId
    requires NoIdentities(tickets)
    ensures AgentsSound(Imported(source, quarantined, tickets, env), env)
    ensures TicketsSound(Imported(source, quarantined, tickets, env), env)
  {
    KeptSound(source, quarantined);
  }

  // ----- Names that stay source names -----

  /** Reconciliation put no agent back under a name the source does not have: nothing was redacted in it. */
  predicate OwnNames(steps: seq<Step>, names: seq<string>) {
    forall i :: 0 <= i < |steps| && steps[i].RestoreAgent? ==> steps[i].name in names
  }

  predicate NamesFrom(s: State, names: seq<string>) {
    && (forall a :: a in s.agents ==> a.name in names)
    && (forall r :: r in s.applied ==> s.applied[r].name in names)
  }

  lemma NextNames(s: State, step: Step, env: Env, names: seq<string>)
    requires IdsDistinct(s.agents) && NamesFrom(s, names) && (step.RestoreAgent? ==> step.name in names)
    ensures NamesFrom(Next(s, step, env), names)
  {
    hide Refused, Decision, Advance, TicketsAfter, Unique, Settled;
    match step
    case Bind(d) =>
      AdvanceApplied(s, d, env, |s.agents|);
      AgentNames(s, d, env, names);
    case RestoreAgent(r, _) => WithoutAgentIs(s.agents, r);
    case DropAgent(r) => WithoutAgentIs(s.agents, r);
    case _ =>
  }

  lemma AgentNames(s: State, d: Decisions, env: Env, names: seq<string>)
    requires NamesFrom(s, names)
    ensures forall a :: a in AgentsAfter(s, d, env) ==> a.name in names
  {
    hide Decides, Decision;
    forall i | 0 <= i < |s.agents| ensures AgentAfter(s, d, env, s.agents[i]).name in names {
      assert s.agents[i] in s.agents;
    }
  }

  lemma {:induction false} StepsNames(s: State, steps: seq<Step>, env: Env, names: seq<string>)
    requires AgentsSound(s, env) && TicketsSound(s, env) && NamesFrom(s, names) && OwnNames(steps, names)
    ensures NamesFrom(Steps(s, steps, env), names)
  {
    hide TicketsSound, NamesFrom, Next;
    if steps != [] {
      var n := |steps| - 1;
      assert forall i :: 0 <= i < n ==> steps[..n][i] == steps[i];
      StepsNames(s, steps[..n], env, names);
      StepsSound(s, steps[..n], env);
      NextNames(Steps(s, steps[..n], env), steps[n], env, names);
    }
  }

  lemma ImportedNames(source: seq<Source>, quarantined: set<RecordId>, tickets: seq<Ticket>, env: Env)
    requires forall i, j :: 0 <= i < j < |source| ==> source[i].recordId != source[j].recordId
    ensures NamesFrom(Imported(source, quarantined, tickets, env), SourceNames(source))
  {
    var agents, names := Kept(source, quarantined), SourceNames(source);
    KeptSound(source, quarantined);
    forall a | a in agents ensures a.name in names {
      var i :| 0 <= i < |source| && source[i] == Source(a.recordId, a.name);
      assert names[i] == a.name;
    }
  }

  lemma CountOfMember(names: seq<string>, name: string)
    requires name in names
    ensures Count(names, name) >= 1
  {
    var i :| 0 <= i < |names| && names[i] == name;
    CountPositive(names, i);
  }

  lemma SharedIsAmbiguous(source: seq<Source>, env: Env, name: string)
    requires Count(SourceNames(source), name) > 1
    ensures env.hash(name) in AmbiguousHashes(source, env)
  {
    var names := SourceNames(source);
    CountInside(names, name);
    var i :| 0 <= i < |names| && names[i] == name;
    assert source[i] in source && source[i].name == name;
  }

  lemma {:induction false} CountInside(names: seq<string>, name: string)
    requires Count(names, name) > 0
    ensures name in names
  {
    var n := |names| - 1;
    if names[n] != name { CountInside(names[..n], name); }
  }

  /**
   However binding runs and reconciliation runs alternate on an imported board: an identity on a ticket is that of a
   principal some record of its display name was bound to, and the source gave this name to no second record. It
   gave it to one, unless the name is what redaction made of a restored record's.
   */
  lemma NoSharedNameIsGranted(source: seq<Source>, quarantined: set<RecordId>, tickets: seq<Ticket>,
                              steps: seq<Step>, env: Env, i: nat, f: Field)
    requires forall i, j :: 0 <= i < j < |source| ==> source[i].recordId != source[j].recordId
    requires NoIdentities(tickets)
    requires var s := Steps(Imported(source, quarantined, tickets, env), steps, env);
      i < |s.tickets| && f in s.tickets[i] && s.tickets[i][f].identity.Some?
    ensures var s := Steps(Imported(source, quarantined, tickets, env), steps, env);
      var slot, names := s.tickets[i][f], SourceNames(source);
      && slot.display.Some? && Granted(s.applied, env, slot.display.value, slot.identity.value)
      && Count(names, slot.display.value) == (if slot.display.value in names then 1 else 0)
      && (OwnNames(steps, names) ==> slot.display.value in names)
  {
    hide Steps, Kept, AgentsSound, NamesFrom, OwnNames, Count;
    var start := Imported(source, quarantined, tickets, env);
    ImportedIsSound(source, quarantined, tickets, env);
    StepsSound(start, steps, env);
    var s, names := Steps(start, steps, env), SourceNames(source);
    var slot := s.tickets[i][f];
    assert s.tickets[i] in s.tickets && SlotSound(s, env, slot);
    if Count(names, slot.display.value) > 1 { SharedIsAmbiguous(source, env, slot.display.value); }
    if slot.display.value in names { CountOfMember(names, slot.display.value); }
    if Count(names, slot.display.value) > 0 { CountInside(names, slot.display.value); }
    if OwnNames(steps, names) {
      ImportedNames(source, quarantined, tickets, env);
      StepsNames(start, steps, env, names);
      GrantedName(s, env, slot.display.value, slot.identity.value, names);
    }
  }

  lemma GrantedName(s: State, env: Env, name: string, x: Identity, names: seq<string>)
    requires Granted(s.applied, env, name, x) && NamesFrom(s, names)
    ensures name in names
  {
  }

  // ----- Which names a run resolves -----

  /** Decisions on file are what a decisions file may hold. */
  predicate FileOk(s: State) {
    forall r :: r in s.applied ==> s.applied[r].decision == RETIRE || CentralId(s.applied[r].decision)
  }

  /** What every state reached from a completed import keeps. */
  ghost predicate Ready(s: State, env: Env) {
    s.complete && AgentsSound(s, env) && FileOk(s)
  }

  lemma NextReady(s: State, step: Step, env: Env)
    requires Ready(s, env) && TicketsSound(s, env)
    ensures Ready(Next(s, step, env), env)
  {
    hide AgentsSound, TicketsSound, AgentsAfter, TicketsAfter, Unique, Decision;
    NextSound(s, step, env);
    if step.Bind? {
      SoundDistinct(s, env);
      AdvanceApplied(s, step.decisions, env, |s.agents|);
      forall i | 0 <= i < |s.agents| && Decision(s, step.decisions, env, s.agents[i]).Some?
        && DecisionsOk(step.decisions.bindings)
        ensures var decision := Decision(s, step.decisions, env, s.agents[i]).value;
          decision == RETIRE || CentralId(decision)
      {
        DecisionValid(s, step.decisions, env, s.agents[i]);
      }
    }
  }

  lemma SoundDistinct(s: State, env: Env)
    requires AgentsSound(s, env)
    ensures IdsDistinct(s.agents)
  {
  }

  lemma DecisionValid(s: State, d: Decisions, env: Env, a: Agent)
    requires DecisionsOk(d.bindings) && Decision(s, d, env, a).Some?
    ensures var decision := Decision(s, d, env, a).value; decision == RETIRE || CentralId(decision)
  {
  }

  /** A state that an import and any steps after it lead to. */
  lemma {:induction false} StepsReady(s: State, steps: seq<Step>, env: Env)
    requires Ready(s, env) && TicketsSound(s, env)
    ensures Ready(Steps(s, steps, env), env) && TicketsSound(Steps(s, steps, env), env)
  {
    hide Ready, TicketsSound, Next, AgentsSound;
    if steps != [] {
      var n := |steps| - 1;
      StepsReady(s, steps[..n], env);
      NextReady(Steps(s, steps[..n], env), steps[n], env);
      ReadySound(Steps(s, steps[..n], env), env);
      NextSound(Steps(s, steps[..n], env), steps[n], env);
    }
  }

  lemma ReadySound(s: State, env: Env)
    requires Ready(s, env)
    ensures AgentsSound(s, env)
  {
  }

  /** Nobody shares the name, nor did in the source, and its record is bound or still to be decided. */
  predicate Resolvable(s: State, env: Env, name: string) {
    && !Duplicate(s, env, name)
    && exists a :: a in s.agents && a.name == name && (a.status.Bound? || a.recordId !in s.applied)
  }

  /** A run that goes through and resolves tickets by the name. */
  predicate Resolves(s: State, d: Decisions, env: Env, name: string) {
    !Refused(s, d, env) && d.digest !in s.files && name in Unique(s, env, AgentsAfter(s, d, env))
  }

  function FileKeys(s: State): set<string> {
    set r | r in s.applied :: "record:" + r
  }

  /** The file that repeats every decision on file, and binds record `r` if it has none. */
  function Repeating(s: State, r: RecordId, digest: Digest): Decisions {
    var filed := map key | key in FileKeys(s) && key[7..] in s.applied :: s.applied[key[7..]].decision;
    Decisions(if r in s.applied then filed else filed["record:" + r := "p"], digest)
  }

  lemma RepeatingDecides(s: State, r: RecordId, digest: Digest, env: Env, a: Agent)
    ensures var d := Repeating(s, r, digest);
      && (a.recordId in s.applied ==> Decision(s, d, env, a) == Some(s.applied[a.recordId].decision))
      && (a.recordId == r && r !in s.applied ==> Decision(s, d, env, a) == Some("p"))
  {
    hide Duplicate;
    var key := "record:" + a.recordId;
    assert key[7..] == a.recordId;
    if a.recordId in s.applied { assert key in FileKeys(s); }
    assert ("record:" + r)[7..] == r;
  }

  lemma RepeatingGoes(s: State, r: RecordId, digest: Digest, env: Env)
    requires s.complete && FileOk(s)
    ensures !Refused(s, Repeating(s, r, digest), env)
  {
    hide Decision;
    var d := Repeating(s, r, digest);
    assert CentralId("p");
    forall a | a in s.agents ensures !Conflicts(s, d, env, a) {
      RepeatingDecides(s, r, digest, env, a);
    }
  }

  /** Some file makes a run resolve the name exactly when it is resolvable. */
  lemma ResolvableExact(s: State, env: Env, name: string, digest: Digest)
    requires Ready(s, env) && digest !in s.files
    ensures (exists d :: Resolves(s, d, env, name)) <==> Resolvable(s, env, name)
    ensures Resolvable(s, env, name) ==> exists d :: Resolves(s, d, env, name) && d.digest == digest
  {
    hide Refused, Unique, Duplicate, Advance, TicketsAfter, Decision, Repeating, FileOk, AgentAfter;
    forall d | Resolves(s, d, env, name) ensures Resolvable(s, env, name) {
      ResolvedIsResolvable(s, d, env, name);
    }
    if Resolvable(s, env, name) {
      var a :| a in s.agents && a.name == name && (a.status.Bound? || a.recordId !in s.applied);
      RepeatingGoes(s, a.recordId, digest, env);
      var d := Repeating(s, a.recordId, digest);
      assert d.digest == digest by { RepeatingDigest(s, a.recordId, digest); }
      RepeatingBinds(s, env, a, digest);
      assert Resolves(s, d, env, name);
    }
  }

  lemma RepeatingDigest(s: State, r: RecordId, digest: Digest)
    ensures Repeating(s, r, digest).digest == digest
  {
  }

  lemma ResolvedIsResolvable(s: State, d: Decisions, env: Env, name: string)
    requires Resolves(s, d, env, name)
    ensures Resolvable(s, env, name)
  {
    hide Refused, Unique, Duplicate, Advance, TicketsAfter, Decision;
    var agents := AgentsAfter(s, d, env);
    assert NamesOf(agents) == NamesOf(s.agents);
    UniqueExact(s, env, agents, name, Unique(s, env, agents)[name]);
    var i :| 0 <= i < |agents| && agents[i].name == name && agents[i].status.Bound?
      && agents[i].identity == Some(Unique(s, env, agents)[name]);
    assert s.agents[i] in s.agents;
  }

  lemma RepeatingBinds(s: State, env: Env, a: Agent, digest: Digest)
    requires AgentsSound(s, env) && a in s.agents && (a.status.Bound? || a.recordId !in s.applied)
    requires !Duplicate(s, env, a.name)
    ensures a.name in Unique(s, env, AgentsAfter(s, Repeating(s, a.recordId, digest), env))
  {
    hide Unique, Duplicate, Repeating, Decision;
    var d := Repeating(s, a.recordId, digest);
    var agents := AgentsAfter(s, d, env);
    var i :| 0 <= i < |s.agents| && s.agents[i] == a;
    assert AgentSound(a, s.applied, env);
    RepeatingDecides(s, a.recordId, digest, env, a);
    assert NamesOf(agents) == NamesOf(s.agents);
    assert agents[i] == AgentAfter(s, d, env, a) && agents[i].status.Bound? && agents[i].identity.Some?;
    UniqueExact(s, env, agents, a.name, agents[i].identity.value);
  }

  /** A run gives the slot an identity it had none. */
  predicate Gains(s: State, d: Decisions, env: Env, i: nat, f: Field)
    requires i < |s.tickets| && f in s.tickets[i]
  {
    var after := After(s, d, env);
    i < |after.tickets| && f in after.tickets[i] && after.tickets[i][f].identity.Some? && s.tickets[i][f].identity.None?
  }

  lemma GainsIs(s: State, d: Decisions, env: Env, i: nat, f: Field)
    requires i < |s.tickets| && f in s.tickets[i]
    ensures var slot := s.tickets[i][f];
      Gains(s, d, env, i, f) <==> slot.identity.None? && slot.display.Some? && Resolves(s, d, env, slot.display.value)
  {
    hide Refused, Unique, AgentsAfter, Advance;
  }

  /**
   Some binding run gives a ticket without an identity one under its display name, whatever this name, exactly when a
   record of this name is on the board that is bound or not yet decided, and nobody shares the name or did in the
   source.
   */
  lemma GainsExact(s: State, env: Env, i: nat, f: Field, digest: Digest)
    requires Ready(s, env) && digest !in s.files && i < |s.tickets| && f in s.tickets[i]
    ensures var slot := s.tickets[i][f];
      (exists d :: Gains(s, d, env, i, f)) <==>
        slot.identity.None? && slot.display.Some? && Resolvable(s, env, slot.display.value)
  {
    hide Ready, Gains, Resolvable, Resolves;
    var slot := s.tickets[i][f];
    if slot.display.Some? { ResolvableExact(s, env, slot.display.value, digest); }
    forall d ensures Gains(s, d, env, i, f) <==>
      slot.identity.None? && slot.display.Some? && Resolves(s, d, env, slot.display.value)
    {
      GainsIs(s, d, env, i, f);
    }
  }

  /** So it is on every board an import and any runs of either kind lead to. */
  lemma ReachedGains(source: seq<Source>, quarantined: set<RecordId>, tickets: seq<Ticket>, steps: seq<Step>, env: Env,
                     i: nat, f: Field, digest: Digest)
    requires forall i, j :: 0 <= i < j < |source| ==> source[i].recordId != source[j].recordId
    requires NoIdentities(tickets)
    requires var s := Steps(Imported(source, quarantined, tickets, env), steps, env);
      digest !in s.files && i < |s.tickets| && f in s.tickets[i]
    ensures var s := Steps(Imported(source, quarantined, tickets, env), steps, env);
      var slot := s.tickets[i][f];
      (exists d :: Gains(s, d, env, i, f)) <==>
        slot.identity.None? && slot.display.Some? && Resolvable(s, env, slot.display.value)
  {
    hide Steps, Kept, Gains, Resolvable, TicketsSound, AgentsSound;
    ImportedIsSound(source, quarantined, tickets, env);
    StepsReady(Imported(source, quarantined, tickets, env), steps, env);
    GainsExact(Steps(Imported(source, quarantined, tickets, env), steps, env), env, i, f, digest);
  }

  /** Once a name is shared no run changes what tickets carry for it. */
  lemma SharedStays(s: State, d: Decisions, env: Env, i: nat, f: Field)
    requires i < |s.tickets| && f in s.tickets[i]
    requires s.tickets[i][f].display.Some? && Duplicate(s, env, s.tickets[i][f].display.value)
    ensures var after := After(s, d, env);
      |after.tickets| == |s.tickets| && f in after.tickets[i] && after.tickets[i][f] == s.tickets[i][f]
  {
    hide Refused, AgentsAfter, Advance, Duplicate, BoundByName;
  }

  // ----- Two records redaction makes one name of -----

  const T: Ticket := map[CreatedBy := Slot(Some("x"), None)]

  /** The board after the first record is restored and bound under the redacted name. */
  function FirstBound(env: Env): State {
    var x := env.identityOf("p", "x");
    State(true, [Agent("1", "x", Bound, Some("p"), Some(x))], {}, map[x := Member(x, "x", "p", "1")],
          [map[CreatedBy := Slot(Some("x"), Some(x))]], map["1" := Applied("x", "p", Bound)], ["file"], ["1"])
  }

  /**
   The source has two records, `ann` and `bob`, and a ticket whose display is redacted to the text both names are. The
   first record is restored and bound before the second is restored: the ticket keeps the first one's identity, whoever
   it named, also when the second is bound.
   */
  lemma SharedRedaction(env: Env, later: Decisions)
    ensures var s := Steps(Imported([Source("1", "ann"), Source("2", "bob")], {"1", "2"}, [], env),
                           [RestoreAgent("1", "x"), RestoreTicket(None, T),
                            Bind(Decisions(map["record:1" := "p"], "file")), RestoreAgent("2", "x"), Bind(later)], env);
      && s.tickets == [map[CreatedBy := Slot(Some("x"), Some(env.identityOf("p", "x")))]]
      && NamesOf(s.agents) == ["x", "x"]
      && "x" !in SourceNames([Source("1", "ann"), Source("2", "bob")])
  {
    var source := [Source("1", "ann"), Source("2", "bob")];
    var s0 := Imported(source, {"1", "2"}, [], env);
    var d := Decisions(map["record:1" := "p"], "file");
    TwoAreUnambiguous(env);
    var one, two, three, four := RestoreAgent("1", "x"), RestoreTicket(None, T), Bind(d), RestoreAgent("2", "x");
    var s1 := Next(s0, one, env);
    NothingKept();
    assert s0.agents == [];
    assert s1.agents == [Agent("1", "x", Unbound, None, None)];
    assert Unidentified(T) == T;
    var s2 := Next(s1, two, env);
    assert s2 == State(true, [Agent("1", "x", Unbound, None, None)], {}, map[], [T], map[], [], []);
    FirstIsBound(s2, d, env);
    SecondStays(env, later);
    StepsFive(s0, one, two, three, four, Bind(later), env);
  }

  lemma NothingKept()
    ensures Kept([Source("1", "ann"), Source("2", "bob")], {"1", "2"}) == []
  {
    var source := [Source("1", "ann"), Source("2", "bob")];
    assert source[..1] == [Source("1", "ann")] && source[..1][..0] == [];
    assert Kept(source[..1], {"1", "2"}) == [];
  }

  lemma TwoAreUnambiguous(env: Env)
    ensures AmbiguousHashes([Source("1", "ann"), Source("2", "bob")], env) == {}
  {
    var names := SourceNames([Source("1", "ann"), Source("2", "bob")]);
    assert names == ["ann", "bob"] && names[..1] == ["ann"] && names[..1][..0] == [];
    assert Count(names, "ann") == 1 && Count(names, "bob") == 1;
  }

  lemma FirstIsBound(s: State, d: Decisions, env: Env)
    requires s == State(true, [Agent("1", "x", Unbound, None, None)], {}, map[], [T], map[], [], [])
    requires d == Decisions(map["record:1" := "p"], "file")
    ensures After(s, d, env) == FirstBound(env)
  {
    var x := env.identityOf("p", "x");
    assert "record:" + "1" == "record:1";
    assert CentralId("p");
    assert Decision(s, d, env, s.agents[0]) == Some("p");
    var agents := AgentsAfter(s, d, env);
    assert agents == [Agent("1", "x", Bound, Some("p"), Some(x))];
    assert NamesOf(s.agents) == ["x"] && ["x"][..0] == [];
    assert !Duplicate(s, env, "x");
    assert agents[0].name == "x" && agents[0].status.Bound? && agents[0].identity == Some(x);
    assert Owns(agents, "x", x);
    assert Advance(s, d, env, 0) == Progress(map[], map[], []);
    assert Advance(s, d, env, 1)
      == Progress(map[x := Member(x, "x", "p", "1")], map["1" := Applied("x", "p", Bound)], ["1"]);
    hide Owns, Duplicate, Decision, Advance;
    UniqueExact(s, env, agents, "x", x);
    assert TicketAfter(T, Unique(s, env, agents)) == map[CreatedBy := Slot(Some("x"), Some(x))];
    assert TicketsAfter(s.tickets, Unique(s, env, agents)) == FirstBound(env).tickets;
  }

  lemma SecondStays(env: Env, later: Decisions)
    ensures var s := Next(FirstBound(env), RestoreAgent("2", "x"), env);
      && After(s, later, env).tickets == FirstBound(env).tickets
      && NamesOf(After(s, later, env).agents) == ["x", "x"]
  {
    var first := FirstBound(env);
    var s := Next(first, RestoreAgent("2", "x"), env);
    assert first.agents[..0] == [] && "1" != "2";
    assert WithoutAgent(first.agents, "2") == first.agents;
    assert s.agents == first.agents + [Agent("2", "x", Unbound, None, None)];
    assert NamesOf(s.agents) == ["x", "x"] && ["x", "x"][..1] == ["x"] && ["x"][..0] == [];
    assert Duplicate(s, env, "x");
    hide Refused, Advance, Duplicate, After, Unique, Decision;
    SharedStays(s, later, env, 0, CreatedBy);
    KeysKept(s, later, env);
    assert After(s, later, env).tickets[0] == first.tickets[0];
  }

  lemma KeysKept(s: State, d: Decisions, env: Env)
    ensures var after := After(s, d, env);
      && NamesOf(after.agents) == NamesOf(s.agents) && |after.tickets| == |s.tickets|
      && forall i :: 0 <= i < |s.tickets| ==> after.tickets[i].Keys == s.tickets[i].Keys
  {
    hide Refused, Advance, Decision, Unique;
  }

  lemma StepsFive(s: State, a: Step, b: Step, c: Step, d: Step, e: Step, env: Env)
    ensures Steps(s, [a, b, c, d, e], env) == Next(Next(Next(Next(Next(s, a, env), b, env), c, env), d, env), e, env)
  {
    hide Next;
    StepsLast(s, [], a, env);
    StepsLast(s, [a], b, env);
    StepsLast(s, [a, b], c, env);
    StepsLast(s, [a, b, c], d, env);
    StepsLast(s, [a, b, c, d], e, env);
    assert [] + [a] == [a] && [a] + [b] == [a, b] && [a, b] + [c] == [a, b, c];
    assert [a, b, c] + [d] == [a, b, c, d] && [a, b, c, d] + [e] == [a, b, c, d, e];
  }

  lemma StepsLast(s: State, steps: seq<Step>, step: Step, env: Env)
    ensures Steps(s, steps + [step], env) == Next(Steps(s, steps, env), step, env)
  {
    assert (steps + [step])[..|steps|] == steps;
  }

  // ----- The record behind an identity -----

  /** Record `r` is on the board and bound to this identity under this name. */
  predicate Holds(s: State, r: RecordId, name: string, x: Identity) {
    exists a :: a in s.agents && a.recordId == r && a.name == name && a.status.Bound? && a.identity == Some(x)
  }

  predicate Released(s: State, r: RecordId) {
    r in s.applied && forall a :: a in s.agents && a.recordId == r ==> !a.status.Bound?
  }

  /** Reconciliation takes the record off the board, and may put it back unbound. */
  predicate Touches(step: Step, r: RecordId) {
    (step.RestoreAgent? || step.DropAgent?) && step.recordId == r
  }

  lemma ReleasedStays(s: State, step: Step, env: Env, r: RecordId)
    requires AgentsSound(s, env) && Released(s, r)
    ensures Released(Next(s, step, env), r)
  {
    hide Refused, Decision, Advance, TicketsAfter, Unique, AgentSound;
    match step
    case Bind(d) =>
      BindApplied(s, d, env);
      forall i | 0 <= i < |s.agents| && AgentAfter(s, d, env, s.agents[i]).recordId == r
        ensures AgentAfter(s, d, env, s.agents[i]) == s.agents[i] && s.agents[i] in s.agents
      {
      }
    case RestoreAgent(q, _) => WithoutAgentIs(s.agents, q);
    case DropAgent(q) => WithoutAgentIs(s.agents, q);
    case _ =>
  }

  lemma HoldsStays(s: State, step: Step, env: Env, r: RecordId, name: string, x: Identity)
    requires AgentsSound(s, env) && Holds(s, r, name, x)
    ensures if Touches(step, r) then Released(Next(s, step, env), r) else Holds(Next(s, step, env), r, name, x)
  {
    hide Refused, Decision, Advance, TicketsAfter, Unique;
    var a :| a in s.agents && a.recordId == r && a.name == name && a.status.Bound? && a.identity == Some(x);
    assert AgentSound(a, s.applied, env);
    match step
    case Bind(d) =>
      var i :| 0 <= i < |s.agents| && s.agents[i] == a;
      assert AgentAfter(s, d, env, a) == a;
      assert AgentsAfter(s, d, env)[i] == a;
      assert a in Next(s, step, env).agents;
    case RestoreAgent(q, _) => WithoutAgentIs(s.agents, q);
    case DropAgent(q) => WithoutAgentIs(s.agents, q);
    case _ => assert a in Next(s, step, env).agents;
  }

  /**
   A bound record stays bound exactly as long as reconciliation leaves it alone: put back, it is unbound, and no
   decisions file binds it again, for its decision is on file already.
   */
  lemma {:induction false} BoundUntilTouched(s: State, steps: seq<Step>, env: Env, r: RecordId, name: string,
                                             x: Identity)
    requires AgentsSound(s, env) && TicketsSound(s, env) && Holds(s, r, name, x)
    ensures var after := Steps(s, steps, env);
      if exists i :: 0 <= i < |steps| && Touches(steps[i], r) then Released(after, r) else Holds(after, r, name, x)
  {
    hide AgentsSound, TicketsSound, Next, Holds, Released, Touches;
    if steps != [] {
      var n := |steps| - 1;
      var before := Steps(s, steps[..n], env);
      assert forall i :: 0 <= i < n ==> steps[..n][i] == steps[i];
      BoundUntilTouched(s, steps[..n], env, r, name, x);
      StepsSound(s, steps[..n], env);
      if i :| 0 <= i < n && Touches(steps[i], r) {
        assert Touches(steps[..n][i], r);
        ReleasedStays(before, steps[n], env, r);
      } else {
        HoldsStays(before, steps[n], env, r, name, x);
      }
    }
  }
}
