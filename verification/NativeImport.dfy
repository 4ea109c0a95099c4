/**
 The resumable one-way import: provisioning and five phases, each one transaction that
 also records itself in the manifest. A crash loses the open transaction and nothing else.
 */
module NativeImport {
  import opened Wrappers
  import opened DocumentStore
  import J = EventJournal

  type Token = string
  type Phase = string
  type Slot = seq<bv8>
  type Quarantine = seq<string>
  type Digest = seq<bv8>

  const PHASES: seq<Phase> := ["memories", "agents", "tickets", "state", "journal-seed"]
  const LAST_PHASE := 4
  const GENERATION_REVISION := 1
  const IMPORT_COMPLETED := "import_completed"
  const MINT_ATTEMPTS := 16

  /** The owner record provisioning writes; no phase touches it. */
  datatype Provision = Provision(principal: string, agent: string, at: string)

  datatype Board = Board(
    provision: Provision, slots: map<Phase, Slot>, quarantine: Quarantine,
    token: Option<Token>, revision: nat)

  datatype Manifest = Manifest(
    sourceHash: Digest, complete: bool, phases: seq<Phase>, provision: Provision,
    quarantined: nat, token: Option<Token>, revision: nat)

  /** What the import and its checks look at in a journal event. */
  datatype Event = Event(memoryId: string, token: Option<Token>, revision: nat)

  type EventRow = J.Row<Event>

  type Journal = J.Document<Event>

  datatype Doc = BoardDoc(board: Board) | ManifestDoc(manifest: Manifest) | JournalDoc(journal: Journal)

  type Docs = Rows<Doc>

  /**
   One import request. `map1` is a phase's effect on its own part of the board and on the
   quarantine, nothing when the source record makes it raise. `mint` and `provisionedAt` are
   the token and clock factories, the same for every run.
   */
  datatype Request = Request(
    boardId: string, boardKey: Key, manifestKey: Key, journalKey: Key,
    digest: Digest, principal: string, agent: string, provisionedAt: string,
    mint: nat -> Token, map1: (Phase, Quarantine) -> Option<(Slot, Quarantine)>)

  predicate WellFormed(q: Request) {
    q.boardKey != q.manifestKey && q.boardKey != q.journalKey && q.manifestKey != q.journalKey
  }

  function BoardOf(rows: Docs, q: Request): Option<Board> {
    if q.boardKey in rows && rows[q.boardKey].doc.BoardDoc? then Some(rows[q.boardKey].doc.board) else None
  }

  function ManifestOf(rows: Docs, q: Request): Option<Manifest> {
    if q.manifestKey in rows && rows[q.manifestKey].doc.ManifestDoc? then Some(rows[q.manifestKey].doc.manifest)
    else None
  }

  function JournalOf(rows: Docs, q: Request): Journal {
    if q.journalKey in rows && rows[q.journalKey].doc.JournalDoc? then rows[q.journalKey].doc.journal
    else J.Fresh(q.boardId)
  }

  // ----- The transactions -----

  function DefaultBoard(q: Request, at: string): Board {
    Board(Provision(q.principal, q.agent, at), map[], [], None, 0)
  }

  function BoardOrDefault(rows: Docs, q: Request, at: string): Board {
    if BoardOf(rows, q).Some? then BoardOf(rows, q).value else DefaultBoard(q, at)
  }

  function NewManifest(q: Request): Manifest {
    Manifest(q.digest, false, [], Provision(q.principal, q.agent, q.provisionedAt), 0, None, 0)
  }

  function Provisioned(rows: Docs, q: Request): Docs {
    Put(Put(rows, q.boardKey, BoardDoc(DefaultBoard(q, q.provisionedAt))), q.manifestKey, ManifestDoc(NewManifest(q)))
  }

  predicate TokenTaken(rows: Docs, token: Token) {
    exists k :: k in rows && rows[k].doc.BoardDoc? && rows[k].doc.board.token == Some(token)
  }

  /** The first freshly minted token no board uses, within the allowed attempts. */
  function Mint(rows: Docs, mint: nat -> Token, attempt: nat): Option<Token>
    decreases MINT_ATTEMPTS - attempt
  {
    if attempt >= MINT_ATTEMPTS then None
    else if !TokenTaken(rows, mint(attempt)) then Some(mint(attempt))
    else Mint(rows, mint, attempt + 1)
  }

  function Appended(j: Journal, token: Token): Journal {
    J.Extended(j, Event(IMPORT_COMPLETED, Some(token), GENERATION_REVISION))
  }

  /** A mapping phase: its slot, its quarantine entries, and its manifest entry. */
  function Mapped(rows: Docs, q: Request, phase: Phase, b: Board, m: Manifest): Option<Docs> {
    match q.map1(phase, b.quarantine)
    case None => None
    case Some((slot, quarantine)) =>
      var b' := b.(slots := b.slots[phase := slot], quarantine := quarantine);
      Some(Put(Put(rows, q.boardKey, BoardDoc(b')), q.manifestKey, ManifestDoc(m.(phases := m.phases + [phase]))))
  }

  /** The last phase: mint a generation, seed the journal, and complete the manifest. */
  function Seeded(rows: Docs, q: Request, phase: Phase, b: Board, m: Manifest): Option<Docs> {
    match Mint(rows, q.mint, 0)
    case None => None
    case Some(token) =>
      var b' := b.(token := Some(token), revision := GENERATION_REVISION);
      var m' := m.(phases := m.phases + [phase], complete := true, quarantined := |b.quarantine|,
                   token := Some(token), revision := GENERATION_REVISION);
      Some(Put(Put(Put(rows, q.boardKey, BoardDoc(b')),
                   q.journalKey, JournalDoc(Appended(JournalOf(rows, q), token))),
               q.manifestKey, ManifestDoc(m')))
  }

  /** Transaction `n` of an import: provisioning is 0, phase `i` is `i + 1`. */
  function Advance(rows: Docs, q: Request, n: nat): Option<Docs>
    requires n <= |PHASES|
  {
    if n == 0 then Some(Provisioned(rows, q))
    else
      match ManifestOf(rows, q)
      case None => None
      case Some(m) =>
        var b := BoardOrDefault(rows, q, m.provision.at);
        if n - 1 == LAST_PHASE then Seeded(rows, q, PHASES[n - 1], b, m) else Mapped(rows, q, PHASES[n - 1], b, m)
  }

  /** The store after the first `n` transactions, when all of them go through. */
  function After(rows: Docs, q: Request, n: nat): Option<Docs>
    requires n <= |PHASES| + 1
  {
    if n == 0 then Some(rows)
    else
      match After(rows, q, n - 1)
      case None => None
      case Some(before) => Advance(before, q, n - 1)
  }

  /** A store this board has never been imported into. */
  predicate Fresh(rows: Docs, q: Request) {
    && q.boardKey !in rows && q.manifestKey !in rows
    && (q.journalKey in rows ==> rows[q.journalKey].doc.JournalDoc?)
    && forall e :: e in JournalOf(rows, q).rows ==> e.event.memoryId != IMPORT_COMPLETED
  }

  function ImportEvents(rows: seq<EventRow>): seq<EventRow> {
    if rows == [] then []
    else
      var last := rows[|rows| - 1];
      ImportEvents(rows[..|rows| - 1]) + if last.event.memoryId == IMPORT_COMPLETED then [last] else []
  }

  lemma {:induction false} NoImportEvents(rows: seq<EventRow>)
    requires forall e :: e in rows ==> e.event.memoryId != IMPORT_COMPLETED
    ensures ImportEvents(rows) == []
  {
    if rows != [] { NoImportEvents(rows[..|rows| - 1]); }
  }

  /** What every reachable store says about the import. */
  ghost predicate Stage(rows: Docs, q: Request, n: nat)
    requires n <= |PHASES| + 1
  {
    if n == 0 then Fresh(rows, q)
    else
      && BoardOf(rows, q).Some? && ManifestOf(rows, q).Some?
      && var b, m := BoardOf(rows, q).value, ManifestOf(rows, q).value;
      && b.provision == m.provision == Provision(q.principal, q.agent, q.provisionedAt)
      && m.sourceHash == q.digest
      && m.phases == PHASES[..n - 1]
      && (m.complete <==> n == |PHASES| + 1)
      && (if m.complete then
            && m.token.Some? && b.token == m.token && b.revision == m.revision == GENERATION_REVISION
            && m.quarantined == |b.quarantine|
            && |ImportEvents(JournalOf(rows, q).rows)| == 1
            && var e := ImportEvents(JournalOf(rows, q).rows)[0].event;
            e.token == m.token && e.revision == m.revision
          else ImportEvents(JournalOf(rows, q).rows) == [])
      && (q.journalKey in rows ==> rows[q.journalKey].doc.JournalDoc?)
  }

  lemma PhaseTaken(n: nat)
    requires n < |PHASES|
    ensures PHASES[..n + 1] == PHASES[..n] + [PHASES[n]]
  {
  }

  lemma AdvanceStage(rows: Docs, q: Request, n: nat)
    requires WellFormed(q) && n <= |PHASES| && Stage(rows, q, n)
    requires Advance(rows, q, n).Some?
    ensures Stage(Advance(rows, q, n).value, q, n + 1)
  {
    var next := Advance(rows, q, n).value;
    if n == 0 {
      NoImportEvents(JournalOf(rows, q).rows);
    } else {
      PhaseTaken(n - 1);
      var j := JournalOf(rows, q);
      if n - 1 == LAST_PHASE {
        var token := Mint(rows, q.mint, 0).value;
        var j' := Appended(j, token);
        assert j'.rows[..|j'.rows| - 1] == j.rows;
        assert JournalOf(next, q) == j';
      } else {
        assert JournalOf(next, q) == j;
      }
    }
  }

  /** Every prefix of an import leaves the store in the stage of that prefix. */
  lemma {:induction false} AfterStage(rows: Docs, q: Request, n: nat)
    requires WellFormed(q) && Fresh(rows, q) && n <= |PHASES| + 1 && After(rows, q, n).Some?
    ensures Stage(After(rows, q, n).value, q, n)
  {
    if n > 0 {
      AfterStage(rows, q, n - 1);
      AdvanceStage(After(rows, q, n - 1).value, q, n - 1);
    }
  }

  // ----- The same import beside other traffic in the journal -----

  /** The stores agree on everything but the board's journal, which is a journal in both. */
  ghost predicate SameBut(rows: Docs, others: Docs, q: Request) {
    && (forall k :: k != q.journalKey ==> (k in rows <==> k in others))
    && (forall k :: k != q.journalKey && k in rows ==> rows[k] == others[k])
    && (q.journalKey in rows ==> rows[q.journalKey].doc.JournalDoc?)
    && (q.journalKey in others ==> others[q.journalKey].doc.JournalDoc?)
  }

  lemma SameReads(rows: Docs, others: Docs, q: Request)
    requires WellFormed(q) && SameBut(rows, others, q)
    ensures BoardOf(rows, q) == BoardOf(others, q) && ManifestOf(rows, q) == ManifestOf(others, q)
  {
  }

  lemma SameTokens(rows: Docs, others: Docs, q: Request, token: Token)
    requires SameBut(rows, others, q) && TokenTaken(rows, token)
    ensures TokenTaken(others, token)
  {
    var k :| k in rows && rows[k].doc.BoardDoc? && rows[k].doc.board.token == Some(token);
    assert k in others && others[k].doc.BoardDoc?;
  }

  lemma {:induction false} SameMint(rows: Docs, others: Docs, q: Request, attempt: nat)
    requires SameBut(rows, others, q)
    ensures Mint(rows, q.mint, attempt) == Mint(others, q.mint, attempt)
    decreases MINT_ATTEMPTS - attempt
  {
    if attempt < MINT_ATTEMPTS {
      if TokenTaken(rows, q.mint(attempt)) { SameTokens(rows, others, q, q.mint(attempt)); }
      if TokenTaken(others, q.mint(attempt)) { SameTokens(others, rows, q, q.mint(attempt)); }
      SameMint(rows, others, q, attempt + 1);
    }
  }

  lemma SamePut(rows: Docs, others: Docs, q: Request, key: Key, doc: Doc)
    requires SameBut(rows, others, q) && key != q.journalKey
    ensures SameBut(Put(rows, key, doc), Put(others, key, doc), q)
    ensures JournalOf(Put(rows, key, doc), q) == JournalOf(rows, q)
  {
  }

  lemma SamePutJournal(rows: Docs, others: Docs, q: Request, j: Journal, k: Journal)
    requires SameBut(rows, others, q)
    ensures SameBut(Put(rows, q.journalKey, JournalDoc(j)), Put(others, q.journalKey, JournalDoc(k)), q)
    ensures JournalOf(Put(rows, q.journalKey, JournalDoc(j)), q) == j
  {
  }

  /** A transaction reads the journal only to append to it, and only the last one does. */
  lemma AdvanceBeside(rows: Docs, others: Docs, q: Request, n: nat)
    requires WellFormed(q) && n <= |PHASES| && SameBut(rows, others, q)
    ensures Advance(rows, q, n).Some? <==> Advance(others, q, n).Some?
    ensures Advance(rows, q, n).Some? ==>
      var next := Advance(rows, q, n).value;
      && SameBut(next, Advance(others, q, n).value, q)
      && if n < |PHASES| then JournalOf(next, q) == JournalOf(rows, q)
         else
           && ManifestOf(next, q).Some? && ManifestOf(next, q).value.token.Some?
           && JournalOf(next, q) == Appended(JournalOf(rows, q), ManifestOf(next, q).value.token.value)
  {
    SameReads(rows, others, q);
    SameMint(rows, others, q, 0);
    hide SameBut, Mint;
    if n == 0 {
      SamePut(rows, others, q, q.boardKey, BoardDoc(DefaultBoard(q, q.provisionedAt)));
      var a, b := Put(rows, q.boardKey, BoardDoc(DefaultBoard(q, q.provisionedAt))),
                  Put(others, q.boardKey, BoardDoc(DefaultBoard(q, q.provisionedAt)));
      SamePut(a, b, q, q.manifestKey, ManifestDoc(NewManifest(q)));
    } else if ManifestOf(rows, q).Some? {
      var m := ManifestOf(rows, q).value;
      var board := BoardOrDefault(rows, q, m.provision.at);
      if n - 1 == LAST_PHASE {
        SeededBeside(rows, others, q, board, m);
      } else {
        MappedBeside(rows, others, q, PHASES[n - 1], board, m);
      }
    }
  }

  lemma MappedBeside(rows: Docs, others: Docs, q: Request, phase: Phase, b: Board, m: Manifest)
    requires WellFormed(q) && SameBut(rows, others, q)
    ensures Mapped(rows, q, phase, b, m).Some? <==> Mapped(others, q, phase, b, m).Some?
    ensures Mapped(rows, q, phase, b, m).Some? ==>
      var next := Mapped(rows, q, phase, b, m).value;
      SameBut(next, Mapped(others, q, phase, b, m).value, q) && JournalOf(next, q) == JournalOf(rows, q)
  {
    hide SameBut;
    match q.map1(phase, b.quarantine)
    case None =>
    case Some((slot, quarantine)) =>
      var b' := b.(slots := b.slots[phase := slot], quarantine := quarantine);
      SamePut(rows, others, q, q.boardKey, BoardDoc(b'));
      SamePut(Put(rows, q.boardKey, BoardDoc(b')), Put(others, q.boardKey, BoardDoc(b')), q,
              q.manifestKey, ManifestDoc(m.(phases := m.phases + [phase])));
  }

  lemma SeededBeside(rows: Docs, others: Docs, q: Request, b: Board, m: Manifest)
    requires WellFormed(q) && SameBut(rows, others, q)
    requires Mint(rows, q.mint, 0) == Mint(others, q.mint, 0)
    ensures Seeded(rows, q, PHASES[LAST_PHASE], b, m).Some? <==> Seeded(others, q, PHASES[LAST_PHASE], b, m).Some?
    ensures Seeded(rows, q, PHASES[LAST_PHASE], b, m).Some? ==>
      var next := Seeded(rows, q, PHASES[LAST_PHASE], b, m).value;
      && SameBut(next, Seeded(others, q, PHASES[LAST_PHASE], b, m).value, q)
      && ManifestOf(next, q).Some? && ManifestOf(next, q).value.token.Some?
      && JournalOf(next, q) == Appended(JournalOf(rows, q), ManifestOf(next, q).value.token.value)
  {
    hide SameBut, Mint;
    match Mint(rows, q.mint, 0)
    case None =>
    case Some(token) =>
      var b' := b.(token := Some(token), revision := GENERATION_REVISION);
      var m' := m.(phases := m.phases + [PHASES[LAST_PHASE]], complete := true, quarantined := |b.quarantine|,
                   token := Some(token), revision := GENERATION_REVISION);
      var j, k := Appended(JournalOf(rows, q), token), Appended(JournalOf(others, q), token);
      SamePut(rows, others, q, q.boardKey, BoardDoc(b'));
      var r1, o1 := Put(rows, q.boardKey, BoardDoc(b')), Put(others, q.boardKey, BoardDoc(b'));
      SamePutJournal(r1, o1, q, j, k);
      var r2, o2 := Put(r1, q.journalKey, JournalDoc(j)), Put(o1, q.journalKey, JournalDoc(k));
      SamePut(r2, o2, q, q.manifestKey, ManifestDoc(m'));
  }
}
