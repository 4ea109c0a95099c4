/**
 The import as it runs: every store write and every commit takes one unit of `budget`,
 and running out is a crash, which loses the open transaction.
 */
module ImportRunner {
  import opened Wrappers
  import opened DocumentStore
  import opened NativeImport

  datatype Outcome = Complete | Refused | Failed | Stopped

  datatype PhaseOutcome = Committed | Skipped | Raised | Crashed

  /** What the completed import is checked for before the marker is armed. */
  predicate CompletedGeneration(rows: Docs, q: Request, at: string) {
    && ManifestOf(rows, q).Some? && BoardOf(rows, q).Some?
    && var m, b := ManifestOf(rows, q).value, BoardOf(rows, q).value;
    && m.complete && PHASES[LAST_PHASE] in m.phases
    && m.token.Some? && m.revision >= 1
    && b.token == m.token && b.revision == m.revision
    && b.provision == Provision(q.principal, q.agent, at) && m.provision == Provision(q.principal, q.agent, at)
    && var events := ImportEvents(JournalOf(rows, q).rows);
    && |events| == 1 && events[0].event.token == m.token && events[0].event.revision == m.revision
  }

  lemma FinalStageCompletes(rows: Docs, q: Request)
    requires Stage(rows, q, |PHASES| + 1)
    ensures CompletedGeneration(rows, q, q.provisionedAt)
  {
    assert PHASES[..|PHASES|] == PHASES;
    assert PHASES[LAST_PHASE] in PHASES;
  }

  lemma PhaseRecorded(i: nat, n: nat)
    requires i < |PHASES| && n <= |PHASES|
    ensures PHASES[i] in PHASES[..n] <==> i < n
  {
    assert |PHASES[0]| == 8 && |PHASES[1]| == 6 && |PHASES[2]| == 7 && |PHASES[3]| == 5 && |PHASES[4]| == 12;
    if i < n { assert PHASES[..n][i] == PHASES[i]; }
  }

  /** What a run can read off the store about how far the import got. */
  lemma StageFacts(rows: Docs, q: Request, n: nat)
    requires n <= |PHASES| + 1 && Stage(rows, q, n)
    ensures n == 0 ==> ManifestOf(rows, q).None? && BoardOf(rows, q).None?
    ensures n > 0 ==>
      && ManifestOf(rows, q).Some? && BoardOf(rows, q).Some?
      && var m := ManifestOf(rows, q).value;
      m.sourceHash == q.digest && m.provision == Provision(q.principal, q.agent, q.provisionedAt)
      && m.phases == PHASES[..n - 1]
  {
  }

  /** `rows` is what the first `n` transactions of an import leave of the fresh store `rows0`. */
  ghost predicate Reached(rows0: Docs, q: Request, n: nat, rows: Docs) {
    n <= |PHASES| + 1 && Fresh(rows0, q) && After(rows0, q, n) == Some(rows)
  }

  lemma Started(rows: Docs, q: Request)
    ensures Advance(rows, q, 0) == Some(Provisioned(rows, q))
    ensures Fresh(rows, q) ==> Reached(rows, q, 0, rows)
  {
  }

  /** The same, but for what others have done to the board's journal meanwhile. */
  ghost predicate Beside(rows0: Docs, q: Request, n: nat, rows: Docs) {
    n <= |PHASES| + 1 && Fresh(rows0, q) && After(rows0, q, n).Some? && SameBut(rows, After(rows0, q, n).value, q)
  }

  lemma ReachedIsBeside(rows0: Docs, q: Request, n: nat, rows: Docs)
    requires WellFormed(q) && Reached(rows0, q, n, rows)
    ensures Beside(rows0, q, n, rows)
  {
    AfterStage(rows0, q, n);
  }

  lemma BesideFacts(rows0: Docs, q: Request, n: nat, rows: Docs)
    requires WellFormed(q) && Beside(rows0, q, n, rows)
    ensures n <= |PHASES| + 1
    ensures n == 0 ==> ManifestOf(rows, q).None? && BoardOf(rows, q).None?
    ensures n > 0 ==>
      && ManifestOf(rows, q).Some? && BoardOf(rows, q).Some?
      && var m := ManifestOf(rows, q).value;
      m.sourceHash == q.digest && m.provision == Provision(q.principal, q.agent, q.provisionedAt)
      && m.phases == PHASES[..n - 1]
  {
    AfterStage(rows0, q, n);
    StageFacts(After(rows0, q, n).value, q, n);
    SameReads(rows, After(rows0, q, n).value, q);
  }

  /** The next transaction goes through exactly when the undisturbed import's does, and leaves the same. */
  lemma BesideStep(rows0: Docs, q: Request, n: nat, rows: Docs)
    requires WellFormed(q) && n <= |PHASES| && Beside(rows0, q, n, rows)
    ensures Advance(rows, q, n).Some? <==> After(rows0, q, n + 1).Some?
    ensures Advance(rows, q, n).Some? ==>
      var next := Advance(rows, q, n).value;
      Beside(rows0, q, n + 1, next) && JournalAfter(rows, next, q, n + 1)
  {
    AdvanceBeside(rows, After(rows0, q, n).value, q, n);
  }

  /** Reaching the last transaction has added the completion event to the journal, anything less nothing. */
  ghost predicate JournalAfter(before: Docs, after: Docs, q: Request, n: nat) {
    if n <= |PHASES| then JournalOf(after, q) == JournalOf(before, q)
    else
      && ManifestOf(after, q).Some? && ManifestOf(after, q).value.token.Some?
      && JournalOf(after, q) == Appended(JournalOf(before, q), ManifestOf(after, q).value.token.value)
  }

  lemma JournalStays(start: Docs, before: Docs, after: Docs, q: Request, n: nat, moved: bool)
    requires n <= |PHASES| && JournalAfter(before, after, q, n + 1)
    requires if moved then JournalAfter(start, before, q, n) else before == start
    ensures JournalAfter(start, after, q, n + 1)
  {
  }

  lemma ReachedStep(rows0: Docs, q: Request, n: nat, rows: Docs)
    requires n <= |PHASES| && Reached(rows0, q, n, rows) && Advance(rows, q, n).Some?
    ensures Reached(rows0, q, n + 1, Advance(rows, q, n).value)
  {
  }

  /** The journal shows one completion event and it is that of the completed import. */
  predicate OwnEventOnly(rows: Docs, q: Request)
    requires ManifestOf(rows, q).Some?
  {
    var events, m := ImportEvents(JournalOf(rows, q).rows), ManifestOf(rows, q).value;
    |events| == 1 && events[0].event.token == m.token && events[0].event.revision == m.revision
  }

  lemma BesideCompletes(rows0: Docs, q: Request, rows: Docs)
    requires WellFormed(q) && Beside(rows0, q, |PHASES| + 1, rows)
    ensures ManifestOf(rows, q).Some? && ManifestOf(rows, q).value.token.Some?
    ensures ManifestOf(rows, q).value.revision == GENERATION_REVISION
    ensures CompletedGeneration(rows, q, q.provisionedAt) <==> OwnEventOnly(rows, q)
    ensures Reached(rows0, q, |PHASES| + 1, rows) ==> OwnEventOnly(rows, q)
  {
    var r0 := After(rows0, q, |PHASES| + 1).value;
    AfterStage(rows0, q, |PHASES| + 1);
    FinalStageCompletes(r0, q);
    SameReads(rows, r0, q);
  }

  /** The board exists without a manifest, or its manifest is another import's. */
  predicate Foreign(rows: Docs, q: Request) {
    match ManifestOf(rows, q)
    case Some(m) => m.sourceHash != q.digest || m.provision.principal != q.principal || m.provision.agent != q.agent
    case None => BoardOf(rows, q).Some?
  }

  lemma ProvisionedManifest(rows: Docs, q: Request)
    requires WellFormed(q) && ManifestOf(rows, q).None?
    ensures q.manifestKey in rows ==> !rows[q.manifestKey].doc.ManifestDoc?
    ensures ManifestOf(Provisioned(rows, q), q).Some?
  {
  }

  class Importer {
    const store: Store<Doc>
    const q: Request

    constructor (store: Store<Doc>, q: Request)
      ensures this.store == store && this.q == q
    {
      this.store, this.q := store, q;
    }

    method Replace(key: Key, doc: Doc)
      requires store.working.Some?
      modifies store
      ensures store.working.Some? && store.committed == old(store.committed)
      ensures store.Current() == Put(old(store.Current()), key, doc)
    {
      var ok := store.ReadModifyWrite(key, _ => Some(doc));
    }

    /** The opening transaction: provision a fresh board, or check that this import may resume. */
    method Open(budget: nat) returns (r: PhaseOutcome, at: string, left: nat)
      requires WellFormed(q) && store.working.None?
      modifies store
      ensures store.working.None?
      ensures r.Committed? ==> store.committed == Provisioned(old(store.committed), q) && at == q.provisionedAt
      ensures !r.Committed? ==> store.committed == old(store.committed)
      ensures r.Skipped? ==>
        && ManifestOf(old(store.committed), q).Some?
        && at == ManifestOf(old(store.committed), q).value.provision.at
      ensures r.Raised? <==> Foreign(old(store.committed), q)
      ensures r.Committed? ==> ManifestOf(old(store.committed), q).None?
      ensures r.Crashed? ==> budget < 3 && ManifestOf(old(store.committed), q).None?
      ensures r.Committed? ==> left + 3 == budget
      ensures r.Skipped? ==> left == budget
    {
      left, at := budget, "";
      store.Begin();
      var manifest := ManifestOf(store.Current(), q);
      var board := BoardOf(store.Current(), q);
      if manifest.Some? {
        var m := manifest.value;
        if m.sourceHash != q.digest || m.provision.principal != q.principal || m.provision.agent != q.agent {
          store.Rollback();
          return Raised, at, left;
        }
        store.Commit();
        return Skipped, m.provision.at, left;
      }
      if board.Some? {
        store.Rollback();
        return Raised, at, left;
      }
      if left < 3 {
        if left > 0 { Replace(q.boardKey, BoardDoc(DefaultBoard(q, q.provisionedAt))); }
        store.Rollback();
        return Crashed, at, left;
      }
      Replace(q.boardKey, BoardDoc(DefaultBoard(q, q.provisionedAt)));
      Replace(q.manifestKey, ManifestDoc(NewManifest(q)));
      store.Commit();
      return Committed, q.provisionedAt, left - 3;
    }

    /** One phase's transaction, or nothing when the manifest already records it. */
    method RunPhase(i: nat, budget: nat) returns (r: PhaseOutcome, left: nat)
      requires WellFormed(q) && store.working.None? && i < |PHASES|
      requires ManifestOf(store.committed, q).Some?
      modifies store
      ensures store.working.None? && ManifestOf(store.committed, q).Some?
      ensures !r.Committed? ==> store.committed == old(store.committed)
      ensures r.Skipped? <==> PHASES[i] in ManifestOf(old(store.committed), q).value.phases
      ensures r.Committed? ==> Advance(old(store.committed), q, i + 1) == Some(store.committed)
      ensures r.Raised? ==> Advance(old(store.committed), q, i + 1).None?
      ensures r.Crashed? ==> budget < 4 && (i < LAST_PHASE ==> budget < 3)
      ensures r.Committed? ==> left + (if i == LAST_PHASE then 4 else 3) == budget
      ensures r.Skipped? ==> left == budget
    {
      left := budget;
      var phase := PHASES[i];
      store.Begin();
      var m := ManifestOf(store.Current(), q).value;
      if phase in m.phases {
        store.Commit();
        return Skipped, left;
      }
      var b := BoardOrDefault(store.Current(), q, m.provision.at);
      var done := m.(phases := m.phases + [phase]);
      if i != LAST_PHASE {
        var mapped := q.map1(phase, b.quarantine);
        if mapped.None? {
          store.Rollback();
          return Raised, left;
        }
        var (slot, quarantine) := mapped.value;
        b := b.(slots := b.slots[phase := slot], quarantine := quarantine);
        if left < 3 { CrashAfter(BoardDoc(b), left); return Crashed, left; }
        Replace(q.boardKey, BoardDoc(b));
        left := left - 3;
      } else {
        var minted := Mint(store.Current(), q.mint, 0);
        if minted.None? {
          store.Rollback();
          return Raised, left;
        }
        var token := minted.value;
        b := b.(token := Some(token), revision := GENERATION_REVISION);
        if left < 4 { CrashAfter(BoardDoc(b), left); return Crashed, left; }
        var j := JournalOf(store.Current(), q);
        Replace(q.boardKey, BoardDoc(b));
        Replace(q.journalKey, JournalDoc(Appended(j, token)));
        done := done.(complete := true, quarantined := |b.quarantine|, token := Some(token),
          revision := GENERATION_REVISION);
        left := left - 4;
      }
      Replace(q.manifestKey, ManifestDoc(done));
      store.Commit();
      r := Committed;
    }

    /** A crash part-way through a transaction's writes. */
    method CrashAfter(doc: Doc, writes: nat)
      requires store.working.Some?
      modifies store
      ensures store.working.None? && store.committed == old(store.committed)
    {
      if writes > 0 { Replace(q.boardKey, doc); }
      store.Rollback();
    }

    /**
     One run of the import, crashed after `budget` writes and commits. From the store the first
     `n0` transactions of an uninterrupted import leave, it ends in the one some `n >= n0` of
     them leave, and a run that completes ends where all of them do. The same holds but for the journal
     when others have written to that; a run over the whole import then changes nothing, and completes
     exactly when the journal shows the completion event and no other. A store that belongs to
     another import is refused and left alone.
     */
    method Promote(budget: nat, ghost rows0: Docs, ghost n0: nat)
      returns (r: Outcome, changes: nat, ghost n: nat)
      requires WellFormed(q) && store.working.None?
      modifies store
      ensures store.working.None?
      ensures Reached(rows0, q, n0, old(store.committed)) ==> Reached(rows0, q, n, store.committed) && r != Refused
      ensures Beside(rows0, q, n0, old(store.committed)) ==>
        && n0 <= n && Beside(rows0, q, n, store.committed)
        && (n == n0 ==> store.committed == old(store.committed))
        && (n > n0 ==> JournalAfter(old(store.committed), store.committed, q, n))
        && (r.Complete? ==> n == |PHASES| + 1 && changes == n - if n0 == 0 then 1 else n0)
        && (r.Failed? ==> n <= |PHASES| && After(rows0, q, n + 1).None?)
        && (r.Stopped? ==> n <= |PHASES|)
        && (r.Complete? || r.Refused? ==>
              n == |PHASES| + 1 && ManifestOf(store.committed, q).Some?
              && (r.Complete? <==> OwnEventOnly(store.committed, q)))
      ensures Foreign(old(store.committed), q) ==> r.Refused? && store.committed == old(store.committed)
      ensures r.Complete? ==> exists at :: CompletedGeneration(store.committed, q, at)
      ensures r.Stopped? ==> budget < 19
    {
      hide Stage, After, Advance, Fresh, CompletedGeneration, Provisioned, ManifestOf, BoardOf, JournalOf,
           ImportEvents, OwnEventOnly;
      hide Beside, Reached, JournalAfter, Appended;
      ghost var beside, reached := Beside(rows0, q, n0, store.committed), Reached(rows0, q, n0, store.committed);
      if reached { ReachedIsBeside(rows0, q, n0, store.committed); }
      if beside { BesideFacts(rows0, q, n0, store.committed); }
      Started(store.committed, q);
      n := n0;
      changes := 0;
      var entry, at, left := Open(budget);
      match entry {
        case Raised => return Refused, 0, n;
        case Crashed => return Stopped, 0, n;
        case Committed =>
          ProvisionedManifest(old(store.committed), q);
          if beside {
            BesideStep(rows0, q, n, old(store.committed));
            if reached { ReachedStep(rows0, q, n, old(store.committed)); }
            n := n + 1;
          }
        case Skipped =>
      }
      ghost var start := n;
      var i := 0;
      while i < |PHASES|
        invariant i <= |PHASES| && store.working.None? && ManifestOf(store.committed, q).Some?
        invariant beside ==> 1 <= start <= n <= |PHASES| + 1 && Beside(rows0, q, n, store.committed)
        invariant reached ==> Reached(rows0, q, n, store.committed)
        invariant beside && n == n0 ==> store.committed == old(store.committed)
        invariant beside && n > n0 ==> JournalAfter(old(store.committed), store.committed, q, n)
        invariant beside ==> n >= i + 1 && (n > start ==> n == i + 1) && changes == n - start
        invariant budget - left <= 3 + 3 * i + if i == |PHASES| then 1 else 0
      {
        if beside {
          BesideFacts(rows0, q, n, store.committed);
          PhaseRecorded(i, n - 1);
        }
        ghost var before := store.committed;
        var outcome, rest := RunPhase(i, left);
        left := rest;
        match outcome {
          case Raised =>
            if beside { BesideStep(rows0, q, n, before); }
            return Failed, changes, n;
          case Crashed => return Stopped, changes, n;
          case Committed =>
            if beside {
              BesideStep(rows0, q, n, before);
              if reached { ReachedStep(rows0, q, n, before); }
              JournalStays(old(store.committed), before, store.committed, q, n, n > n0);
              n := n + 1;
            }
            changes := changes + 1;
          case Skipped =>
        }
        i := i + 1;
      }
      if beside { BesideCompletes(rows0, q, store.committed); }
      if !CompletedGeneration(store.committed, q, at) { return Refused, changes, n; }
      r := Complete;
    }

    /**
     Any schedule of crashed runs followed by one that is not crashed ends in the very store an
     uninterrupted import of the same request would have left, versions included, or both
     are stuck at the same phase because the source makes it raise. Running again changes nothing.
     */
    method PromoteUntilDone(budgets: seq<nat>, ghost rows0: Docs) returns (r: Outcome, ghost n: nat)
      requires WellFormed(q) && store.working.None?
      requires Fresh(rows0, q) && store.committed == rows0
      modifies store
      ensures Reached(rows0, q, n, store.committed)
      ensures r.Complete? ==> n == |PHASES| + 1
      ensures r.Failed? ==> n <= |PHASES| && After(rows0, q, n + 1).None?
      ensures r.Complete? || r.Failed?
    {
      hide After, Beside, Fresh, CompletedGeneration, Foreign, JournalAfter, OwnEventOnly, ManifestOf;
      Started(rows0, q);
      n := 0;
      var changes: nat;
      for k := 0 to |budgets|
        invariant store.working.None? && Reached(rows0, q, n, store.committed)
      {
        ReachedIsBeside(rows0, q, n, store.committed);
        r, changes, n := Promote(budgets[k], rows0, n);
      }
      ReachedIsBeside(rows0, q, n, store.committed);
      r, changes, n := Promote(19, rows0, n);
    }
  }
}
