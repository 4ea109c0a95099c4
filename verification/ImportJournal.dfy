/**
 The import among other writers of the board's journal. Their events and compactions go to the document that
 holds the import's completion event, which every further run looks for.
 */
module ImportJournal {
  import opened Wrappers
  import opened DocumentStore
  import opened NativeImport
  import opened ImportRunner
  import J = EventJournal

  datatype Action = Run(budget: nat) | Write(memoryId: string) | Compact(retainLast: nat)

  /** One more event of somebody else's, which carries no generation token. */
  function Logged(j: Journal, memoryId: string): Journal {
    J.Extended(j, Event(memoryId, None, 0))
  }

  function Changed(j: Journal, action: Action): Journal {
    match action
    case Run(_) => j
    case Write(memoryId) => Logged(j, memoryId)
    case Compact(retainLast) => J.Compacted(j, retainLast)
  }

  /** What a writer makes of the stored document; a missing one counts as an empty journal. */
  function Rewritten(boardId: string, doc: Option<Doc>, action: Action): Option<Doc> {
    match doc
    case None => Some(JournalDoc(Changed(J.Fresh(boardId), action)))
    case Some(JournalDoc(j)) => Some(JournalDoc(Changed(j, action)))
    case Some(_) => None
  }

  ghost predicate Untokened(j: Journal) {
    forall e :: e in j.rows ==> e.event.token.None?
  }

  /** Of the retained events only number `at` carries a token, and it is the completion event. */
  ghost predicate Marked(j: Journal, at: nat, token: Token) {
    && 1 <= at < j.nextSeq
    && forall e :: e in j.rows ==>
      if e.seqNo == at then e.event == Event(IMPORT_COMPLETED, Some(token), GENERATION_REVISION)
      else e.event.token.None?
  }

  /** The journal after `n` transactions of the import, whose completion event, if it got that far, is number `at`. */
  ghost predicate Told(rows: Docs, q: Request, n: nat, at: nat) {
    var j := JournalOf(rows, q);
    && J.Consecutive(j)
    && if n <= |PHASES| then Untokened(j)
       else
         && ManifestOf(rows, q).Some? && ManifestOf(rows, q).value.token.Some?
         && Marked(j, at, ManifestOf(rows, q).value.token.value)
  }

  /** The completion event has not been compacted away, and no other retained event passes for one. */
  ghost predicate Kept(j: Journal, at: nat) {
    && j.compactedThrough < at
    && forall e :: e in j.rows && e.event.memoryId == IMPORT_COMPLETED ==> e.seqNo == at
  }

  lemma ChangedNumbered(j: Journal, action: Action)
    requires J.Consecutive(j)
    ensures J.Consecutive(Changed(j, action))
    ensures forall e :: e in Changed(j, action).rows ==> e in j.rows || (e.seqNo == j.nextSeq && e.event.token.None?)
  {
  }

  lemma ChangedTold(before: Docs, after: Docs, q: Request, n: nat, at: nat, action: Action)
    requires WellFormed(q) && Told(before, q, n, at) && SameBut(after, before, q)
    requires JournalOf(after, q) == Changed(JournalOf(before, q), action)
    ensures Told(after, q, n, at)
  {
    SameReads(after, before, q);
    ChangedNumbered(JournalOf(before, q), action);
  }

  /** The import's own step: nothing, or the completion event under the next number. */
  lemma ImportTold(before: Docs, after: Docs, q: Request, n0: nat, n: nat, at: nat)
    requires Told(before, q, n0, at) && n0 <= n
    requires if n == n0 then after == before else n0 <= |PHASES| && JournalAfter(before, after, q, n)
    ensures Told(after, q, n, if n0 <= |PHASES| < n then JournalOf(before, q).nextSeq else at)
  {
  }

  lemma {:induction false} ImportEventsIn(rows: seq<EventRow>)
    ensures forall e :: e in ImportEvents(rows) <==> e in rows && e.event.memoryId == IMPORT_COMPLETED
  {
    if rows != [] {
      var n := |rows| - 1;
      ImportEventsIn(rows[..n]);
      assert rows == rows[..n] + [rows[n]];
    }
  }

  lemma {:induction false} OneImportEvent(rows: seq<EventRow>, k: nat)
    requires k < |rows| && rows[k].event.memoryId == IMPORT_COMPLETED
    requires forall i :: 0 <= i < |rows| && i != k ==> rows[i].event.memoryId != IMPORT_COMPLETED
    ensures ImportEvents(rows) == [rows[k]]
  {
    var n := |rows| - 1;
    if k == n {
      NoImportEvents(rows[..n]);
    } else {
      OneImportEvent(rows[..n], k);
    }
  }

  /** The check a further run makes succeeds exactly while the completion event is kept. */
  lemma OwnEventIsKept(rows: Docs, q: Request, at: nat)
    requires Told(rows, q, |PHASES| + 1, at) && ManifestOf(rows, q).value.revision == GENERATION_REVISION
    ensures OwnEventOnly(rows, q) <==> Kept(JournalOf(rows, q), at)
  {
    var j := JournalOf(rows, q);
    var events := ImportEvents(j.rows);
    ImportEventsIn(j.rows);
    if OwnEventOnly(rows, q) {
      var e := events[0];
      assert events == [e] && e in events;
      forall o | o in j.rows && o.event.memoryId == IMPORT_COMPLETED ensures o.seqNo == at {
        assert o in events;
      }
    }
    if Kept(j, at) {
      var k := at - j.compactedThrough - 1;
      assert j.rows[k] in j.rows;
      forall i | 0 <= i < |j.rows| && i != k ensures j.rows[i].event.memoryId != IMPORT_COMPLETED {
        assert j.rows[i] in j.rows;
      }
      OneImportEvent(j.rows, k);
    }
  }

  lemma SameButSame(a: Docs, b: Docs, c: Docs, q: Request)
    requires SameBut(a, b, q) && SameBut(b, c, q)
    ensures SameBut(a, c, q)
  {
  }

  lemma BesideChanged(rows0: Docs, q: Request, n: nat, before: Docs, after: Docs)
    requires Beside(rows0, q, n, before) && SameBut(after, before, q)
    ensures Beside(rows0, q, n, after)
  {
    SameButSame(after, before, After(rows0, q, n).value, q);
  }

  lemma JournalTyped(rows0: Docs, q: Request, n: nat, rows: Docs)
    requires Beside(rows0, q, n, rows)
    ensures q.journalKey in rows ==> rows[q.journalKey].doc.JournalDoc?
  {
  }

  /** A transaction of another writer on the journal. */
  method Rewrite(store: Store<Doc>, q: Request, action: Action)
    requires store.working.None?
    requires q.journalKey in store.committed ==> store.committed[q.journalKey].doc.JournalDoc?
    modifies store
    ensures store.working.None? && SameBut(store.committed, old(store.committed), q)
    ensures JournalOf(store.committed, q) == Changed(JournalOf(old(store.committed), q), action)
  {
    var boardId := q.boardId;
    var ok := store.ReadModifyWrite(q.journalKey, doc => Rewritten(boardId, doc, action));
  }

  /**
   A run over a complete import, after whatever others did to the journal, changes nothing, and completes
   exactly while the completion event is kept. It is refused otherwise.
   */
  method PromoteAgain(importer: Importer, budget: nat, ghost rows0: Docs, ghost at: nat)
    returns (r: Outcome, changes: nat)
    requires WellFormed(importer.q) && importer.store.working.None?
    requires Beside(rows0, importer.q, |PHASES| + 1, importer.store.committed)
    requires Told(importer.store.committed, importer.q, |PHASES| + 1, at)
    modifies importer.store
    ensures importer.store.working.None? && importer.store.committed == old(importer.store.committed)
    ensures r.Complete? <==> Kept(JournalOf(importer.store.committed, importer.q), at)
    ensures r.Complete? ==> changes == 0
    ensures !r.Complete? ==> r.Refused?
  {
    BesideCompletes(rows0, importer.q, importer.store.committed);
    OwnEventIsKept(importer.store.committed, importer.q, at);
    ghost var n: nat;
    r, changes, n := importer.Promote(budget, rows0, |PHASES| + 1);
  }

  /** Compaction keeps the completion event exactly when it retains as many events as there are from it on. */
  lemma TrimmedKept(j: Journal, retainLast: nat, at: nat)
    requires J.Consecutive(j) && at < j.nextSeq && Kept(j, at)
    ensures Kept(J.Compacted(j, retainLast), at) <==> j.nextSeq - at <= retainLast
  {
  }

  /** So a complete import whose board has been compacted far enough can no longer be run again. */
  method PromoteAfterCompaction(importer: Importer, retainLast: nat, budget: nat, ghost rows0: Docs, ghost at: nat)
    returns (r: Outcome)
    requires WellFormed(importer.q) && importer.store.working.None?
    requires Beside(rows0, importer.q, |PHASES| + 1, importer.store.committed)
    requires Told(importer.store.committed, importer.q, |PHASES| + 1, at)
    requires Kept(JournalOf(importer.store.committed, importer.q), at)
    modifies importer.store
    ensures importer.store.working.None?
    ensures r.Refused? <==> retainLast < JournalOf(old(importer.store.committed), importer.q).nextSeq - at
    ensures !r.Refused? ==> r.Complete?
  {
    hide SameBut, JournalOf, ManifestOf, After;
    var store, q := importer.store, importer.q;
    ghost var before := store.committed;
    JournalTyped(rows0, q, |PHASES| + 1, before);
    TrimmedKept(JournalOf(before, q), retainLast, at);
    Rewrite(store, q, Compact(retainLast));
    ChangedTold(before, store.committed, q, |PHASES| + 1, at, Compact(retainLast));
    BesideChanged(rows0, q, |PHASES| + 1, before, store.committed);
    var changes: nat;
    r, changes := PromoteAgain(importer, budget, rows0, at);
  }

  /**
   Any interleaving of crashed runs with the events and compactions of others, followed by a run that is not
   crashed. Apart from the journal the store is the one an undisturbed import leaves. The last run fails only where
   that import would; when the import is complete, the run completes exactly if its event is kept.
   */
  method PromoteAmongWriters(importer: Importer, actions: seq<Action>, ghost rows0: Docs)
    returns (r: Outcome, ghost n: nat, ghost at: nat)
    requires WellFormed(importer.q) && importer.store.working.None?
    requires Fresh(rows0, importer.q) && importer.store.committed == rows0 && Told(rows0, importer.q, 0, 0)
    modifies importer.store
    ensures importer.store.working.None?
    ensures Beside(rows0, importer.q, n, importer.store.committed) && Told(importer.store.committed, importer.q, n, at)
    ensures r.Failed? <==> n <= |PHASES|
    ensures r.Failed? ==> After(rows0, importer.q, n + 1).None?
    ensures r.Complete? <==> n == |PHASES| + 1 && Kept(JournalOf(importer.store.committed, importer.q), at)
    ensures r.Failed? || r.Complete? || r.Refused?
  {
    hide *;
    var store, q := importer.store, importer.q;
    StartsBeside(rows0, q);
    n, at := 0, 0;
    for i := 0 to |actions|
      invariant store.working.None? && Beside(rows0, q, n, store.committed) && Told(store.committed, q, n, at)
    {
      match actions[i]
      case Run(budget) => r, n, at := RunTold(importer, budget, rows0, n, at);
      case action =>
        JournalTyped(rows0, q, n, store.committed);
        ghost var before := store.committed;
        Rewrite(store, q, action);
        ChangedTold(before, store.committed, q, n, at, action);
        BesideChanged(rows0, q, n, before, store.committed);
    }
    r, n, at := RunTold(importer, 19, rows0, n, at);
  }

  lemma StartsBeside(rows0: Docs, q: Request)
    requires WellFormed(q) && Fresh(rows0, q)
    ensures Beside(rows0, q, 0, rows0)
  {
    Started(rows0, q);
    ReachedIsBeside(rows0, q, 0, rows0);
  }

  /** One run, and the number its completion event got. */
  method RunTold(importer: Importer, budget: nat, ghost rows0: Docs, ghost n0: nat, ghost at0: nat)
    returns (r: Outcome, ghost n: nat, ghost at: nat)
    requires WellFormed(importer.q) && importer.store.working.None?
    requires Beside(rows0, importer.q, n0, importer.store.committed)
      && Told(importer.store.committed, importer.q, n0, at0)
    modifies importer.store
    ensures importer.store.working.None?
    ensures Beside(rows0, importer.q, n, importer.store.committed) && Told(importer.store.committed, importer.q, n, at)
    ensures r.Stopped? ==> budget < 19 && n <= |PHASES|
    ensures r.Failed? ==> n <= |PHASES| && After(rows0, importer.q, n + 1).None?
    ensures r.Complete? || r.Refused? ==> n == |PHASES| + 1
    ensures r.Complete? <==> n == |PHASES| + 1 && Kept(JournalOf(importer.store.committed, importer.q), at)
  {
    hide After, Beside, Told, Kept, Fresh, CompletedGeneration, Foreign, JournalAfter, OwnEventOnly;
    var changes: nat;
    ghost var before := importer.store.committed;
    r, changes, n := importer.Promote(budget, rows0, n0);
    BesideFacts(rows0, importer.q, n0, before);
    BesideFacts(rows0, importer.q, n, importer.store.committed);
    at := if n0 <= |PHASES| < n then JournalOf(before, importer.q).nextSeq else at0;
    ImportTold(before, importer.store.committed, importer.q, n0, n, at0);
    if n == |PHASES| + 1 {
      BesideCompletes(rows0, importer.q, importer.store.committed);
      OwnEventIsKept(importer.store.committed, importer.q, at);
    }
  }
}
