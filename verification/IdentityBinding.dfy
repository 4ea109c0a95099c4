/**
 Binding legacy agent records to principals. An agent name that the source snapshot gave to two
 records is ambiguous for good, also when quarantine let only one of them through.
 */
module IdentityBinding {
  import opened Wrappers
  import opened Text

  type RecordId = string
  type Identity = string
  type Digest = string

  datatype Status = Unbound | Bound | Retired

  /** A legacy agent record; the source's shape check admits non-empty names only. */
  datatype Agent = Agent(recordId: RecordId, name: string, status: Status, principal: Option<string>,
                         identity: Option<Identity>)

  datatype Member = Member(identity: Identity, name: string, principal: string, recordId: RecordId)

  datatype Field = CreatedBy | ClaimedBy | AssignedTo | ReviewedBy | SubmittedBy | LastAbandonedBy

  const FIELDS := [CreatedBy, ClaimedBy, AssignedTo, ReviewedBy, SubmittedBy, LastAbandonedBy]

  /** The name a ticket shows for a role, if it is a string, and the identity recorded for it. */
  datatype Slot = Slot(display: Option<string>, identity: Option<Identity>)

  type Ticket = map<Field, Slot>

  datatype Applied = Applied(name: string, decision: string, status: Status)

  datatype State = State(
    complete: bool,
    agents: seq<Agent>,
    ambiguous: set<Digest>,
    members: map<Identity, Member>,
    tickets: seq<Ticket>,
    applied: map<RecordId, Applied>,
    files: seq<Digest>,
    events: seq<RecordId>)

  datatype Decisions = Decisions(bindings: map<string, string>, digest: Digest)

  datatype Outcome = Noop | Complete(newlyApplied: nat)

  datatype Error = BadDecision | NotComplete | Immutable(record: RecordId)

  /** Hashing, and the identity of a principal acting under a name. */
  datatype Env = Env(hash: string -> Digest, identityOf: (string, string) -> Identity)

  const RETIRE := "RETIRE"

  predicate CentralId(s: string) {
    1 <= |s| <= 80 && forall i :: 0 <= i < |s| ==>
      ('A' <= s[i] <= 'Z' || 'a' <= s[i] <= 'z' || '0' <= s[i] <= '9' || s[i] == '.' || s[i] == '_' || s[i] == '-')
  }

  predicate DecisionsOk(bindings: map<string, string>) {
    forall k :: k in bindings ==> bindings[k] == RETIRE || CentralId(bindings[k])
  }

  // ----- Names shared by records -----

  function Count(names: seq<string>, name: string): nat {
    if names == [] then 0 else Count(names[..|names| - 1], name) + if names[|names| - 1] == name then 1 else 0
  }

  function NamesOf(agents: seq<Agent>): seq<string> {
    seq(|agents|, i requires 0 <= i < |agents| => agents[i].name)
  }

  /** A name several imported records carry, or that was ambiguous in the source. */
  predicate Duplicate(s: State, env: Env, name: string) {
    Count(NamesOf(s.agents), name) > 1 || (name in NamesOf(s.agents) && env.hash(name) in s.ambiguous)
  }

  lemma {:induction false} CountPositive(names: seq<string>, i: nat)
    requires i < |names|
    ensures Count(names, names[i]) >= 1
  {
    var n := |names| - 1;
    if i < n { CountPositive(names[..n], i); }
  }

  // ----- One run -----

  function DecisionFor(bindings: map<string, string>, recordId: RecordId, name: string,
                       duplicate: bool): Option<string> {
    var key := "record:" + recordId;
    if key in bindings then Some(bindings[key])
    else if !duplicate && name in bindings then Some(bindings[name])
    else None
  }

  function Decision(s: State, d: Decisions, env: Env, a: Agent): Option<string> {
    DecisionFor(d.bindings, a.recordId, a.name, Duplicate(s, env, a.name))
  }

  predicate Conflicts(s: State, d: Decisions, env: Env, a: Agent) {
    a.recordId in s.applied && Decision(s, d, env, a).Some?
      && Decision(s, d, env, a).value != s.applied[a.recordId].decision
  }

  /** Whether this run decides the record for the first time. */
  predicate Decides(s: State, d: Decisions, env: Env, a: Agent) {
    a.recordId !in s.applied && Decision(s, d, env, a).Some?
  }

  function Settled(a: Agent, decision: string, env: Env): Agent {
    if decision == RETIRE then a.(status := Retired, principal := None, identity := None)
    else a.(status := Bound, principal := Some(decision), identity := Some(env.identityOf(decision, a.name)))
  }

  function AgentAfter(s: State, d: Decisions, env: Env, a: Agent): Agent {
    if Decides(s, d, env, a) then Settled(a, Decision(s, d, env, a).value, env) else a
  }

  function AgentsAfter(s: State, d: Decisions, env: Env): seq<Agent> {
    seq(|s.agents|, i requires 0 <= i < |s.agents| => AgentAfter(s, d, env, s.agents[i]))
  }

  /** Registry, applied decisions and event subjects after the first `n` records. */
  datatype Progress = Progress(members: map<Identity, Member>, applied: map<RecordId, Applied>, events: seq<RecordId>)

  function Advance(s: State, d: Decisions, env: Env, n: nat): Progress
    requires n <= |s.agents|
  {
    if n == 0 then Progress(s.members, s.applied, s.events)
    else
      var p := Advance(s, d, env, n - 1);
      var a := s.agents[n - 1];
      if !Decides(s, d, env, a) then p
      else
        var after := AgentAfter(s, d, env, a);
        var members := if after.status.Bound?
          then
            p.members[after.identity.value := Member(after.identity.value, a.name, after.principal.value, a.recordId)]
          else p.members;
        Progress(members,
          p.applied[a.recordId := Applied(a.name, Decision(s, d, env, a).value, after.status)],
          p.events + [a.recordId])
  }

  /** The identity a ticket may carry for a name: that of the one bound record with this name. */
  ghost predicate Owns(agents: seq<Agent>, name: string, identity: Identity) {
    exists i :: 0 <= i < |agents| && agents[i].name == name && agents[i].status.Bound?
      && agents[i].identity == Some(identity)
  }

  function SlotAfter(slot: Slot, unique: map<string, Identity>): Slot {
    if slot.display.Some? && slot.display.value in unique then
      slot.(identity := Some(unique[slot.display.value]))
    else slot
  }

  function TicketAfter(t: Ticket, unique: map<string, Identity>): Ticket {
    map f | f in t :: SlotAfter(t[f], unique)
  }

  function TicketsAfter(tickets: seq<Ticket>, unique: map<string, Identity>): seq<Ticket> {
    seq(|tickets|, i requires 0 <= i < |tickets| => TicketAfter(tickets[i], unique))
  }

  /** Bound records' identities under their names, in record order. */
  function BoundByName(agents: seq<Agent>): map<string, seq<Identity>> {
    if agents == [] then map[]
    else
      var byName := BoundByName(agents[..|agents| - 1]);
      var a := agents[|agents| - 1];
      if !a.status.Bound? || a.identity.None? then byName
      else byName[a.name := (if a.name in byName then byName[a.name] else []) + [a.identity.value]]
  }

  function Unique(s: State, env: Env, agents: seq<Agent>): map<string, Identity> {
    var byName := BoundByName(agents);
    map name | name in byName && |byName[name]| == 1 && !Duplicate(s, env, name) :: byName[name][0]
  }

  predicate Refused(s: State, d: Decisions, env: Env) {
    || !DecisionsOk(d.bindings)
    || !s.complete
    || (d.digest !in s.files && exists a :: a in s.agents && Conflicts(s, d, env, a))
  }

  function After(s: State, d: Decisions, env: Env): State {
    if Refused(s, d, env) || d.digest in s.files then s
    else
      var agents := AgentsAfter(s, d, env);
      var p := Advance(s, d, env, |s.agents|);
      s.(agents := agents, members := p.members, applied := p.applied, events := p.events,
         tickets := TicketsAfter(s.tickets, Unique(s, env, agents)), files := s.files + [d.digest])
  }

  function Runs(s: State, runs: seq<Decisions>, env: Env): State {
    if runs == [] then s else After(Runs(s, runs[..|runs| - 1], env), runs[|runs| - 1], env)
  }

  // ----- The import that comes before -----

  datatype Source = Source(recordId: RecordId, name: string)

  function SourceNames(source: seq<Source>): seq<string> {
    seq(|source|, i requires 0 <= i < |source| => source[i].name)
  }

  function Kept(source: seq<Source>, quarantined: set<RecordId>): seq<Agent> {
    if source == [] then []
    else
      var last := source[|source| - 1];
      Kept(source[..|source| - 1], quarantined)
        + if last.recordId in quarantined then [] else [Agent(last.recordId, last.name, Unbound, None, None)]
  }

  function AmbiguousHashes(source: seq<Source>, env: Env): set<Digest> {
    set x | x in source && Count(SourceNames(source), x.name) > 1 :: env.hash(x.name)
  }

  predicate NoIdentities(tickets: seq<Ticket>) {
    forall t: Ticket :: t in tickets ==> forall f :: f in t ==> t[f].identity.None?
  }

  function Imported(source: seq<Source>, quarantined: set<RecordId>, tickets: seq<Ticket>, env: Env): State {
    State(true, Kept(source, quarantined), AmbiguousHashes(source, env), map[], tickets, map[], [], [])
  }

  // ----- What every run keeps -----

  predicate IdsDistinct(agents: seq<Agent>) {
    forall i, j :: 0 <= i < j < |agents| ==> agents[i].recordId != agents[j].recordId
  }

  /** A record is settled exactly when a decision is on file for it, and then as that decision says. */
  predicate AgentOk(a: Agent, applied: map<RecordId, Applied>, env: Env) {
    if a.recordId !in applied then a.status.Unbound? && a.identity.None?
    else
      var entry := applied[a.recordId];
      && entry.name == a.name && entry.status == a.status
      && a == Settled(Agent(a.recordId, a.name, Unbound, None, None), entry.decision, env)
  }

  predicate AgentsOk(s: State, env: Env) {
    IdsDistinct(s.agents) && forall i :: 0 <= i < |s.agents| ==> AgentOk(s.agents[i], s.applied, env)
  }

  ghost predicate SlotOk(s: State, env: Env, slot: Slot) {
    slot.identity.Some? ==>
      && slot.display.Some? && Owns(s.agents, slot.display.value, slot.identity.value)
      && !Duplicate(s, env, slot.display.value)
  }

  ghost predicate TicketsOk(s: State, env: Env) {
    forall i, f :: 0 <= i < |s.tickets| && f in s.tickets[i] ==> SlotOk(s, env, s.tickets[i][f])
  }

  /** One event for every applied decision. */
  predicate EventsOk(s: State) {
    && (forall i, j :: 0 <= i < j < |s.events| ==> s.events[i] != s.events[j])
    && (forall r :: r in s.events ==> r in s.applied)
    && (forall r :: r in s.applied ==> r in s.events)
  }

  ghost predicate Valid(s: State, env: Env) {
    AgentsOk(s, env) && TicketsOk(s, env) && EventsOk(s)
  }

  lemma {:induction false} AdvanceApplied(s: State, d: Decisions, env: Env, n: nat)
    requires n <= |s.agents| && IdsDistinct(s.agents)
    ensures var p := Advance(s, d, env, n);
      && (forall r :: r in s.applied ==> r in p.applied && p.applied[r] == s.applied[r])
      && (forall r :: r in p.applied && r !in s.applied ==>
            exists i :: 0 <= i < n && s.agents[i].recordId == r && Decides(s, d, env, s.agents[i]))
      && (forall i :: 0 <= i < n && Decides(s, d, env, s.agents[i]) ==>
            var a := s.agents[i];
            a.recordId in p.applied
            && p.applied[a.recordId] == Applied(a.name, Decision(s, d, env, a).value, AgentAfter(s, d, env, a).status))
  {
    hide Decision, AgentAfter;
    if n > 0 { AdvanceApplied(s, d, env, n - 1); }
  }

  lemma {:induction false} AdvanceEvents(s: State, d: Decisions, env: Env, n: nat)
    requires n <= |s.agents| && IdsDistinct(s.agents) && EventsOk(s)
    ensures var p := Advance(s, d, env, n);
      && (forall i, j :: 0 <= i < j < |p.events| ==> p.events[i] != p.events[j])
      && (forall r :: r in p.events ==> r in p.applied)
      && (forall r :: r in p.applied ==> r in p.events)
      && s.events <= p.events
  {
    hide Decision, AgentAfter;
    if n > 0 {
      AdvanceEvents(s, d, env, n - 1);
      AdvanceApplied(s, d, env, n - 1);
    }
  }

  lemma AgentKept(s: State, d: Decisions, env: Env, i: nat)
    requires AgentsOk(s, env) && i < |s.agents|
    ensures AgentOk(AgentAfter(s, d, env, s.agents[i]), Advance(s, d, env, |s.agents|).applied, env)
  {
    hide Decision, Advance;
    AdvanceApplied(s, d, env, |s.agents|);
    var a := s.agents[i];
    var applied := Advance(s, d, env, |s.agents|).applied;
    assert AgentOk(a, s.applied, env);
    if !Decides(s, d, env, a) && a.recordId !in s.applied {
      forall j | 0 <= j < |s.agents| && s.agents[j].recordId == a.recordId ensures j == i {
      }
    }
  }

  lemma AgentsKept(s: State, d: Decisions, env: Env)
    requires AgentsOk(s, env)
    ensures AgentsOk(After(s, d, env), env)
    ensures NamesOf(After(s, d, env).agents) == NamesOf(s.agents)
  {
    hide Refused, Decision, Decides, TicketsAfter, Unique, Advance, AgentOk;
    var after := After(s, d, env);
    if after.agents == AgentsAfter(s, d, env) {
      forall i | 0 <= i < |s.agents|
        ensures AgentOk(AgentAfter(s, d, env, s.agents[i]), Advance(s, d, env, |s.agents|).applied, env)
      {
        AgentKept(s, d, env, i);
      }
    }
    assert NamesOf(after.agents) == NamesOf(s.agents);
  }

  lemma {:induction false} BoundByNameOwns(agents: seq<Agent>, name: string)
    ensures var byName := BoundByName(agents);
      && (name in byName ==>
        && byName[name] != [] && |byName[name]| <= Count(NamesOf(agents), name)
        && forall x :: x in byName[name] ==> Owns(agents, name, x))
      && (forall x :: Owns(agents, name, x) ==> name in byName && x in byName[name])
  {
    if agents != [] {
      var n := |agents| - 1;
      var front := agents[..n];
      BoundByNameOwns(front, name);
      assert NamesOf(agents)[..n] == NamesOf(front);
      var last := agents[n];
      forall x
        ensures Owns(agents, name, x)
          <==> Owns(front, name, x) || (last.name == name && last.status.Bound? && last.identity == Some(x))
      {
        if Owns(front, name, x) {
          var i :| 0 <= i < n && front[i].name == name && front[i].status.Bound? && front[i].identity == Some(x);
          assert agents[i] == front[i];
        }
        if Owns(agents, name, x) {
          var i :| 0 <= i < |agents| && agents[i].name == name && agents[i].status.Bound?
            && agents[i].identity == Some(x);
          if i < n { assert front[i] == agents[i]; }
        }
      }
    }
  }

  /** The names tickets are resolved by are those of a bound record whose name nobody shares. */
  lemma UniqueExact(s: State, env: Env, agents: seq<Agent>, name: string, x: Identity)
    requires NamesOf(agents) == NamesOf(s.agents)
    ensures name in Unique(s, env, agents) && Unique(s, env, agents)[name] == x <==>
      Owns(agents, name, x) && !Duplicate(s, env, name)
  {
    BoundByNameOwns(agents, name);
    var byName := BoundByName(agents);
    if name in byName && |byName[name]| == 1 { assert byName[name][0] in byName[name]; }
  }

  /** What a run that is not refused and not a repetition makes of one slot. */
  lemma SlotExact(s: State, d: Decisions, env: Env, i: nat, f: Field)
    requires AgentsOk(s, env) && !Refused(s, d, env) && d.digest !in s.files
    requires i < |s.tickets| && f in s.tickets[i]
    ensures var after, slot := After(s, d, env), s.tickets[i][f];
      && |after.tickets| == |s.tickets| && f in after.tickets[i] && after.tickets[i][f].display == slot.display
      && (forall x ::
            slot.display.Some? && Owns(after.agents, slot.display.value, x) && !Duplicate(s, env, slot.display.value)
            ==> after.tickets[i][f].identity == Some(x))
      && ((|| slot.display.None? || Duplicate(s, env, slot.display.value)
           || forall x :: !Owns(after.agents, slot.display.value, x))
            ==> after.tickets[i][f] == slot)
  {
    hide Refused, Decision, Decides, Unique, Advance, AgentAfter, Duplicate, Owns;
    AgentsKept(s, d, env);
    var slot := s.tickets[i][f];
    if slot.display.Some? {
      var name, agents := slot.display.value, AgentsAfter(s, d, env);
      forall x ensures name in Unique(s, env, agents) && Unique(s, env, agents)[name] == x <==>
        Owns(agents, name, x) && !Duplicate(s, env, name)
      {
        UniqueExact(s, env, agents, name, x);
      }
      if name in Unique(s, env, agents) { UniqueExact(s, env, agents, name, Unique(s, env, agents)[name]); }
    }
  }

  /** A bound record stays as it is, and nothing it owns is lost. */
  lemma OwnsKept(s: State, d: Decisions, env: Env, name: string, x: Identity)
    requires AgentsOk(s, env) && Owns(s.agents, name, x)
    ensures Owns(After(s, d, env).agents, name, x)
  {
    hide Refused, Decision, Unique, Advance, TicketsAfter;
    var i :| 0 <= i < |s.agents| && s.agents[i].name == name && s.agents[i].status.Bound?
      && s.agents[i].identity == Some(x);
    assert AgentOk(s.agents[i], s.applied, env);
    assert AgentAfter(s, d, env, s.agents[i]) == s.agents[i];
    assert After(s, d, env).agents[i] == s.agents[i];
  }

  lemma DuplicateKept(s: State, d: Decisions, env: Env, name: string)
    requires AgentsOk(s, env)
    ensures Duplicate(After(s, d, env), env, name) <==> Duplicate(s, env, name)
  {
    hide Refused, Decision, Decides, Unique, Advance, TicketsAfter, AgentsAfter;
    AgentsKept(s, d, env);
  }

  lemma TicketsKept(s: State, d: Decisions, env: Env)
    requires AgentsOk(s, env) && TicketsOk(s, env)
    ensures TicketsOk(After(s, d, env), env)
  {
    hide Refused, Decision, Decides, Unique, Advance, AgentAfter, Duplicate, Owns, AgentsOk;
    var after := After(s, d, env);
    if !Refused(s, d, env) && d.digest !in s.files {
      forall i, f | 0 <= i < |after.tickets| && f in after.tickets[i] ensures SlotOk(after, env, after.tickets[i][f]) {
        SlotExact(s, d, env, i, f);
        var slot := s.tickets[i][f];
        assert SlotOk(s, env, slot);
        if slot.display.Some? {
          DuplicateKept(s, d, env, slot.display.value);
          if slot.identity.Some? { OwnsKept(s, d, env, slot.display.value, slot.identity.value); }
        }
      }
    }
  }

  lemma EventsKept(s: State, d: Decisions, env: Env)
    requires AgentsOk(s, env) && EventsOk(s)
    ensures EventsOk(After(s, d, env))
  {
    hide Refused, Decision, Decides, Unique, Advance, AgentsAfter, TicketsAfter, AgentOk;
    AdvanceEvents(s, d, env, |s.agents|);
  }

  lemma RunKeeps(s: State, d: Decisions, env: Env)
    requires Valid(s, env)
    ensures Valid(After(s, d, env), env)
  {
    hide After, AgentsOk, TicketsOk, EventsOk;
    AgentsKept(s, d, env);
    TicketsKept(s, d, env);
    EventsKept(s, d, env);
  }

  lemma {:induction false} RunsKeep(s: State, runs: seq<Decisions>, env: Env)
    requires Valid(s, env)
    ensures Valid(Runs(s, runs, env), env)
  {
    hide After, Valid;
    if runs != [] {
      RunsKeep(s, runs[..|runs| - 1], env);
      RunKeeps(Runs(s, runs[..|runs| - 1], env), runs[|runs| - 1], env);
    }
  }

  // ----- Over all runs on an imported board -----

  lemma {:induction false} KeptSound(source: seq<Source>, quarantined: set<RecordId>)
    requires forall i, j :: 0 <= i < j < |source| ==> source[i].recordId != source[j].recordId
    ensures var agents := Kept(source, quarantined);
      && IdsDistinct(agents)
      && (forall a :: a in agents ==>
        && a.status.Unbound? && a.identity.None? && a.recordId !in quarantined
        && Source(a.recordId, a.name) in source)
  {
    if source != [] {
      var n := |source| - 1;
      KeptSound(source[..n], quarantined);
      var front := Kept(source[..n], quarantined);
      forall a | a in front ensures a.recordId != source[n].recordId {
        var i :| 0 <= i < n && source[..n][i] == Source(a.recordId, a.name);
        assert source[i].recordId != source[n].recordId;
      }
    }
  }

  lemma ImportedIsValid(source: seq<Source>, quarantined: set<RecordId>, tickets: seq<Ticket>, env: Env)
    requires forall i, j :: 0 <= i < j < |source| ==> source[i].recordId != source[j].recordId
    requires NoIdentities(tickets)
    ensures Valid(Imported(source, quarantined, tickets, env), env)
  {
    hide Kept, Duplicate;
    KeptSound(source, quarantined);
    var s := Imported(source, quarantined, tickets, env);
    forall i, f | 0 <= i < |s.tickets| && f in s.tickets[i] ensures s.tickets[i][f].identity.None? {
      assert s.tickets[i] in tickets;
    }
  }

  lemma {:induction false} RunsKeepNames(s: State, runs: seq<Decisions>, env: Env)
    requires Valid(s, env)
    ensures var after := Runs(s, runs, env);
      NamesOf(after.agents) == NamesOf(s.agents) && after.ambiguous == s.ambiguous
  {
    hide After, NamesOf, Valid;
    if runs != [] {
      var before := Runs(s, runs[..|runs| - 1], env);
      RunsKeepNames(s, runs[..|runs| - 1], env);
      RunsKeep(s, runs[..|runs| - 1], env);
      AfterKeepsNames(before, runs[|runs| - 1], env);
    }
  }

  lemma AfterKeepsNames(s: State, d: Decisions, env: Env)
    requires Valid(s, env)
    ensures NamesOf(After(s, d, env).agents) == NamesOf(s.agents) && After(s, d, env).ambiguous == s.ambiguous
  {
    AgentsKept(s, d, env);
    hide NamesOf, Valid, AgentsAfter, Advance, TicketsAfter, Refused;
  }

  lemma SourceOf(source: seq<Source>, quarantined: set<RecordId>, name: string) returns (x: Source)
    requires forall i, j :: 0 <= i < j < |source| ==> source[i].recordId != source[j].recordId
    requires name in NamesOf(Kept(source, quarantined))
    ensures x in source && x.name == name
  {
    var agents := Kept(source, quarantined);
    var i :| 0 <= i < |agents| && NamesOf(agents)[i] == name;
    KeptSound(source, quarantined);
    assert agents[i] in agents;
    x := Source(agents[i].recordId, agents[i].name);
  }

  /**
   Whatever quarantine dropped at import, and whatever runs of the binder follow: a ticket that carries an
   identity for a display name carries that of the one bound record with this name, and the source
   snapshot gave the name to that record alone.
   */
  lemma NoSharedNameIsBound(source: seq<Source>, quarantined: set<RecordId>, tickets: seq<Ticket>,
                            runs: seq<Decisions>, env: Env, i: nat, f: Field)
    requires forall i, j :: 0 <= i < j < |source| ==> source[i].recordId != source[j].recordId
    requires NoIdentities(tickets)
    requires var s := Runs(Imported(source, quarantined, tickets, env), runs, env);
      i < |s.tickets| && f in s.tickets[i] && s.tickets[i][f].identity.Some?
    ensures var s := Runs(Imported(source, quarantined, tickets, env), runs, env);
      var slot := s.tickets[i][f];
      && slot.display.Some? && Owns(s.agents, slot.display.value, slot.identity.value)
      && Count(SourceNames(source), slot.display.value) == 1
  {
    hide Runs, Kept;
    var start := Imported(source, quarantined, tickets, env);
    ImportedIsValid(source, quarantined, tickets, env);
    RunsKeep(start, runs, env);
    RunsKeepNames(start, runs, env);
    var s := Runs(start, runs, env);
    var slot := s.tickets[i][f];
    assert SlotOk(s, env, slot);
    var name := slot.display.value;
    var k :| 0 <= k < |s.agents| && s.agents[k].name == name;
    assert NamesOf(s.agents)[k] == name;
    var x := SourceOf(source, quarantined, name);
    assert env.hash(name) !in AmbiguousHashes(source, env);
    var j :| 0 <= j < |source| && source[j] == x;
    CountPositive(SourceNames(source), j);
  }

  /** An identity once given to a ticket is never replaced or withdrawn. */
  lemma IdentityStays(s: State, d: Decisions, env: Env, i: nat, f: Field)
    requires Valid(s, env) && i < |s.tickets| && f in s.tickets[i] && s.tickets[i][f].identity.Some?
    ensures var after := After(s, d, env);
      i < |after.tickets| && f in after.tickets[i] && after.tickets[i][f] == s.tickets[i][f]
  {
    hide AgentsOk, EventsOk, Duplicate, Owns, Refused, AgentsAfter, Advance, TicketsAfter;
    var slot := s.tickets[i][f];
    assert SlotOk(s, env, slot);
    if !Refused(s, d, env) && d.digest !in s.files {
      SlotExact(s, d, env, i, f);
      OwnsKept(s, d, env, slot.display.value, slot.identity.value);
    }
  }

  /** Decisions on file never change, over any number of runs. */
  lemma {:induction false} DecisionsStay(s: State, runs: seq<Decisions>, env: Env, r: RecordId)
    requires Valid(s, env) && r in s.applied
    ensures var after := Runs(s, runs, env);
      r in after.applied && after.applied[r] == s.applied[r]
  {
    hide Valid, Refused, AgentsAfter, Advance, TicketsAfter, Unique;
    if runs != [] {
      var before := Runs(s, runs[..|runs| - 1], env);
      DecisionsStay(s, runs[..|runs| - 1], env, r);
      RunsKeep(s, runs[..|runs| - 1], env);
      DistinctOf(before, env);
      AdvanceApplied(before, runs[|runs| - 1], env, |before.agents|);
    }
  }

  lemma DistinctOf(s: State, env: Env)
    requires Valid(s, env)
    ensures IdsDistinct(s.agents)
  {
  }

  /** A decisions file that went through once changes nothing when it comes again, whatever ran in between. */
  lemma {:induction false} RepeatIsNoop(s: State, d: Decisions, env: Env, runs: seq<Decisions>, again: Decisions)
    requires !Refused(s, d, env) && again.digest == d.digest
    ensures var later := Runs(After(s, d, env), runs, env);
      d.digest in later.files && After(later, again, env) == later
  {
    hide Refused, AgentsAfter, Advance, TicketsAfter, Unique;
    if runs != [] {
      RepeatIsNoop(s, d, env, runs[..|runs| - 1], again);
    }
  }

  // ----- The binder -----

  method TicketIdentityFields(ticket: Ticket, unique: map<string, Identity>) returns (r: Ticket)
    ensures r == TicketAfter(ticket, unique)
  {
    r := ticket;
    for i := 0 to |FIELDS|
      invariant r.Keys == ticket.Keys
      invariant forall f :: f in ticket ==> r[f] == if f in FIELDS[..i] then SlotAfter(ticket[f], unique) else ticket[f]
    {
      var field := FIELDS[i];
      assert field !in FIELDS[..i] && FIELDS[..i + 1] == FIELDS[..i] + [field];
      if field in r {
        var slot := r[field];
        if slot.display.Some? && slot.display.value in unique {
          r := r[field := slot.(identity := Some(unique[slot.display.value]))];
        }
      }
    }
    assert FIELDS[..|FIELDS|] == FIELDS;
    forall f | f in ticket ensures f in FIELDS {
      match f
      case CreatedBy => assert FIELDS[0] == f;
      case ClaimedBy => assert FIELDS[1] == f;
      case AssignedTo => assert FIELDS[2] == f;
      case ReviewedBy => assert FIELDS[3] == f;
      case SubmittedBy => assert FIELDS[4] == f;
      case LastAbandonedBy => assert FIELDS[5] == f;
    }
  }

  class Board {
    var complete: bool
    var agents: seq<Agent>
    var ambiguous: set<Digest>
    var members: map<Identity, Member>
    var tickets: seq<Ticket>
    var applied: map<RecordId, Applied>
    var files: seq<Digest>
    var events: seq<RecordId>

    ghost function View(): State
      reads this
    {
      State(complete, agents, ambiguous, members, tickets, applied, files, events)
    }

    /**
     One run, in one transaction: nothing is kept of a run that fails. A run that fails because a decision
     on file would change names the record.
     */
    method BindIdentities(d: Decisions, env: Env) returns (r: Result<Outcome, Error>)
      requires IdsDistinct(agents)
      modifies this
      ensures View() == After(old(View()), d, env)
      ensures r.Err? <==> Refused(old(View()), d, env)
      ensures r == Ok(Noop) <==> !r.Err? && d.digest in old(files)
      ensures r.Ok? && r.value.Complete? ==> r.value.newlyApplied == |events| - |old(events)|
      ensures r.Err? && r.error.Immutable? ==>
        exists a :: a in old(agents) && a.recordId == r.error.record && Conflicts(old(View()), d, env, a)
    {
      hide Conflicts, DecisionsOk, Unique, TicketsAfter, AgentsAfter, Advance;
      if !DecisionsOk(d.bindings) { return Err(BadDecision); }
      if !complete { return Err(NotComplete); }
      if d.digest in files { return Ok(Noop); }
      var s := State(complete, agents, ambiguous, members, tickets, applied, files, events);
      var settled, p, conflict := SettleRecords(s, d, env);
      if conflict.Some? { return Err(Immutable(conflict.value)); }
      var resolved := ResolveTickets(tickets, Unique(s, env, settled));
      var newlyApplied := |p.events| - |events|;
      agents, members, applied, events := settled, p.members, p.applied, p.events;
      tickets := resolved;
      files := files + [d.digest];
      return Ok(Complete(newlyApplied));
    }
  }

  /** Goes through the records, or stops at the first whose decision on file would change. */
  method SettleRecords(s: State, d: Decisions, env: Env)
    returns (settled: seq<Agent>, p: Progress, conflict: Option<RecordId>)
    requires IdsDistinct(s.agents) && DecisionsOk(d.bindings)
    ensures conflict.None? ==> settled == AgentsAfter(s, d, env) && p == Advance(s, d, env, |s.agents|)
    ensures |p.events| >= |s.events|
    ensures conflict.None? ==> forall a :: a in s.agents ==> !Conflicts(s, d, env, a)
    ensures conflict.Some? ==> exists a :: a in s.agents && a.recordId == conflict.value && Conflicts(s, d, env, a)
  {
    hide Decision, DecisionsOk;
    settled, p, conflict := s.agents, Progress(s.members, s.applied, s.events), None;
    for i := 0 to |s.agents|
      invariant |settled| == |s.agents|
      invariant forall k :: 0 <= k < |s.agents| ==>
        settled[k] == if k < i then AgentAfter(s, d, env, s.agents[k]) else s.agents[k]
      invariant p == Advance(s, d, env, i) && |p.events| >= |s.events|
      invariant forall k :: 0 <= k < i ==> !Conflicts(s, d, env, s.agents[k])
    {
      var item := s.agents[i];
      var decision := Decision(s, d, env, item);
      SeenLater(s, d, env, i);
      if item.recordId in p.applied {
        if decision.Some? && decision.value != p.applied[item.recordId].decision {
          assert Conflicts(s, d, env, item) && item in s.agents;
          conflict := Some(item.recordId);
          return;
        }
      } else if decision.Some? {
        DecisionNonEmpty(s, d, env, item);
        if Strip(IsSpace, decision.value) == "" { assert false; }
        var after := Settled(item, decision.value, env);
        settled := settled[i := after];
        if after.status.Bound? {
          var id := after.identity.value;
          p := p.(members := p.members[id := Member(id, item.name, decision.value, item.recordId)]);
        }
        p := Progress(p.members, p.applied[item.recordId := Applied(item.name, decision.value, after.status)],
                      p.events + [item.recordId]);
      }
    }
    assert settled == AgentsAfter(s, d, env);
  }

  method ResolveTickets(tickets: seq<Ticket>, unique: map<string, Identity>) returns (resolved: seq<Ticket>)
    ensures resolved == TicketsAfter(tickets, unique)
  {
    resolved := [];
    for i := 0 to |tickets|
      invariant |resolved| == i && forall k :: 0 <= k < i ==> resolved[k] == TicketAfter(tickets[k], unique)
    {
      var ticket := TicketIdentityFields(tickets[i], unique);
      resolved := resolved + [ticket];
    }
  }

  /** A record is on file at its turn exactly when it was on file before the run. */
  lemma SeenLater(s: State, d: Decisions, env: Env, i: nat)
    requires IdsDistinct(s.agents) && i < |s.agents|
    ensures var r, p := s.agents[i].recordId, Advance(s, d, env, i);
      (r in p.applied <==> r in s.applied) && (r in s.applied ==> p.applied[r] == s.applied[r])
  {
    AdvanceApplied(s, d, env, i);
  }

  lemma DecisionNonEmpty(s: State, d: Decisions, env: Env, a: Agent)
    requires DecisionsOk(d.bindings) && Decision(s, d, env, a).Some?
    ensures Strip(IsSpace, Decision(s, d, env, a).value) != ""
  {
    var decision := Decision(s, d, env, a).value;
    assert decision == RETIRE || CentralId(decision);
    assert !IsSpace(decision[0]);
    StripRightKeepsHead(IsSpace, decision);
  }
}
