/** The per-board event journal: appending, compacting, and reading after a cursor. */
module EventJournal {
  import opened Wrappers
  import opened Text

  type BoardId = string

  const KINDS: set<string> := {"ticket_status_changed", "ticket_created", "memory_written"}
  const MAX_LIMIT := 1000

  /** A validated event; `semantic` stands for its optional fields. */
  datatype Event = Event(kind: string, actor: string, payloadRef: string, semantic: seq<bv8>)

  /** An event as submitted; a field may be missing. */
  datatype Draft = Draft(kind: Option<string>, actor: Option<string>, payloadRef: Option<string>, semantic: seq<bv8>)

  /** Rows and documents, whatever their events hold. */
  datatype Row<E> = Row(seqNo: nat, event: E)

  datatype Document<E> = Document(boardId: BoardId, nextSeq: nat, compactedThrough: nat, rows: seq<Row<E>>)

  datatype Page<E> = Page(events: seq<Row<E>>, nextCursor: nat, latestCursor: nat, hasMore: bool,
                          resyncRequired: bool, compactedThrough: nat, resetCursor: Option<nat>)

  datatype Compaction = Compaction(removed: nat, retained: nat, compactedThrough: nat, latestCursor: nat)

  datatype Error = BadText(name: string) | UnknownKind | Corrupt | BadCursor | BadLimit | CursorAhead | BadRetain

  function RequireText(name: string, value: Option<string>): Result<string, Error> {
    if value.None? || Strip(IsSpace, value.value) == "" then Err(BadText(name)) else Ok(Strip(IsSpace, value.value))
  }

  function Fresh<E>(boardId: BoardId): Document<E> {
    Document(boardId, 1, 0, [])
  }

  // ----- What a document means -----

  function Numbered<E>(history: seq<E>, from: nat): (rows: seq<Row<E>>)
    requires from <= |history|
    ensures |rows| == |history| - from
    ensures forall i :: 0 <= i < |rows| ==> rows[i] == Row(from + 1 + i, history[from + i])
  {
    seq(|history| - from, i requires 0 <= i < |history| - from => Row(from + 1 + i, history[from + i]))
  }

  /** The document is `history` with everything up to `compactedThrough` discarded. */
  predicate Holds<E(==)>(doc: Document<E>, history: seq<E>) {
    && doc.nextSeq == |history| + 1
    && doc.compactedThrough <= |history|
    && doc.rows == Numbered(history, doc.compactedThrough)
  }

  /** The rows are numbered without a gap, from the first one not discarded to the last one given out. */
  predicate Consecutive<E>(doc: Document<E>) {
    && doc.nextSeq == doc.compactedThrough + |doc.rows| + 1
    && forall i :: 0 <= i < |doc.rows| ==> doc.rows[i].seqNo == doc.compactedThrough + 1 + i
  }

  /** Such a document, and only such a one, is what some history has left. */
  lemma ConsecutiveHolds<E>(doc: Document<E>, discarded: seq<E>) returns (history: seq<E>)
    requires |discarded| == doc.compactedThrough
    ensures discarded <= history
    ensures Consecutive(doc) <==> Holds(doc, history)
    ensures !Consecutive(doc) ==> forall h :: !Holds(doc, h)
  {
    history := discarded + seq(|doc.rows|, i requires 0 <= i < |doc.rows| => doc.rows[i].event);
    forall h: seq<E> | Holds(doc, h) ensures Consecutive(doc) {
    }
    if Consecutive(doc) { assert doc.rows == Numbered(history, doc.compactedThrough); }
  }

  function RowsAfter<E>(rows: seq<Row<E>>, cursor: nat): seq<Row<E>> {
    if rows == [] then []
    else (if rows[0].seqNo > cursor then [rows[0]] else []) + RowsAfter(rows[1..], cursor)
  }

  lemma {:induction false} RowsAfterNumbered<E>(history: seq<E>, from: nat, cursor: nat)
    requires from <= cursor <= |history|
    ensures RowsAfter(Numbered(history, from), cursor) == Numbered(history, cursor)
    decreases |history| - from
  {
    var rows := Numbered(history, from);
    if from < |history| {
      assert rows[1..] == Numbered(history, from + 1);
      if from < cursor {
        RowsAfterNumbered(history, from + 1, cursor);
      } else {
        AllAfter(rows, cursor);
      }
    }
  }

  lemma {:induction false} AllAfter<E>(rows: seq<Row<E>>, cursor: nat)
    requires forall i :: 0 <= i < |rows| ==> rows[i].seqNo > cursor
    ensures RowsAfter(rows, cursor) == rows
  {
    if rows != [] { AllAfter(rows[1..], cursor); }
  }

  // ----- The three operations on a document -----

  function Extended<E>(doc: Document<E>, event: E): Document<E> {
    doc.(rows := doc.rows + [Row(doc.nextSeq, event)], nextSeq := doc.nextSeq + 1)
  }

  function Appended<E>(doc: Document<E>, event: E): Result<Document<E>, Error> {
    if doc.nextSeq <= doc.compactedThrough then Err(Corrupt)
    else if doc.rows != [] && doc.rows[|doc.rows| - 1].seqNo >= doc.nextSeq then Err(Corrupt)
    else Ok(Extended(doc, event))
  }

  function Compacted<E>(doc: Document<E>, retainLast: nat): Document<E> {
    if |doc.rows| <= retainLast then doc
    else
      var n := |doc.rows| - retainLast;
      doc.(compactedThrough := doc.rows[n - 1].seqNo, rows := doc.rows[n..])
  }

  function Take<T>(s: seq<T>, n: nat): seq<T> {
    if |s| <= n then s else s[..n]
  }

  function Read<E>(doc: Document<E>, cursor: nat, limit: nat): Result<Page<E>, Error>
    requires doc.nextSeq >= 1
  {
    var latest := doc.nextSeq - 1;
    if !(1 <= limit <= MAX_LIMIT) then Err(BadLimit)
    else if cursor > latest then Err(CursorAhead)
    else if cursor < doc.compactedThrough then
      Ok(Page([], cursor, latest, false, true, doc.compactedThrough, Some(latest)))
    else
      var events := Take(RowsAfter(doc.rows, cursor), limit);
      var next := if events == [] then cursor else events[|events| - 1].seqNo;
      Ok(Page(events, next, latest, next < latest, false, doc.compactedThrough, None))
  }

  lemma AppendHolds<E>(doc: Document<E>, history: seq<E>, event: E)
    requires Holds(doc, history)
    ensures Appended(doc, event).Ok? && Holds(Appended(doc, event).value, history + [event])
  {
    assert Numbered(history + [event], doc.compactedThrough)
      == Numbered(history, doc.compactedThrough) + [Row(|history| + 1, event)];
  }

  lemma CompactHolds<E>(doc: Document<E>, history: seq<E>, retainLast: nat)
    requires Holds(doc, history)
    ensures Holds(Compacted(doc, retainLast), history)
    ensures Compacted(doc, retainLast).compactedThrough >= doc.compactedThrough
    ensures |Compacted(doc, retainLast).rows| == if |doc.rows| <= retainLast then |doc.rows| else retainLast
  {
    if |doc.rows| > retainLast {
      var n := |doc.rows| - retainLast;
      assert doc.rows[n..] == Numbered(history, doc.compactedThrough + n);
    }
  }

  /** A page is the slice of history right after the cursor, unless some of it is gone. */
  lemma ReadSlices<E>(doc: Document<E>, history: seq<E>, cursor: nat, limit: nat)
    requires Holds(doc, history)
    ensures Read(doc, cursor, limit).Ok? <==> 1 <= limit <= MAX_LIMIT && cursor <= |history|
    ensures Read(doc, cursor, limit).Ok? ==>
      var p := Read(doc, cursor, limit).value;
      && p.latestCursor == |history|
      && (p.resyncRequired <==> cursor < doc.compactedThrough)
      && (p.resyncRequired ==> p.events == [] && p.nextCursor == cursor && p.resetCursor == Some(|history|))
      && (!p.resyncRequired ==>
            && cursor <= p.nextCursor == cursor + |p.events| <= |history|
            && p.events == Take(Numbered(history, cursor), limit)
            && (p.hasMore <==> p.nextCursor < |history|)
            && (p.nextCursor == cursor ==> cursor == |history|))
  {
    if Read(doc, cursor, limit).Ok? && cursor >= doc.compactedThrough {
      RowsAfterNumbered(history, doc.compactedThrough, cursor);
    }
  }

  // ----- A consumer among writers -----

  datatype Step = Write(event: Event) | Compact(retainLast: nat) | Poll(limit: nat)

  /** The journal, and a consumer that has followed `nextCursor` since `start` without being told to resync. */
  datatype World = World(doc: Document<Event>, cursor: nat, received: seq<Row<Event>>, resync: bool)

  function Next(w: World, step: Step): World
    requires w.doc.nextSeq >= 1
  {
    match step
    case Write(event) =>
      (match Appended(w.doc, event)
       case Ok(doc) => w.(doc := doc)
       case Err(_) => w)
    case Compact(retainLast) => w.(doc := Compacted(w.doc, retainLast))
    case Poll(limit) =>
      match Read(w.doc, w.cursor, limit)
      case Err(_) => w
      case Ok(p) =>
        if w.resync || p.resyncRequired then w.(resync := true)
        else w.(cursor := p.nextCursor, received := w.received + p.events)
  }

  function Grown(history: seq<Event>, step: Step): seq<Event> {
    if step.Write? then history + [step.event] else history
  }

  ghost predicate Following(w: World, history: seq<Event>, start: nat) {
    && Holds(w.doc, history)
    && start <= w.cursor <= |history|
    && w.received == Numbered(history, start)[..w.cursor - start]
    && (w.resync ==> w.cursor < w.doc.compactedThrough)
  }

  lemma PollFollowing(w: World, history: seq<Event>, start: nat, limit: nat)
    requires Following(w, history, start)
    ensures Following(Next(w, Poll(limit)), history, start)
    ensures 1 <= limit <= MAX_LIMIT ==> (Next(w, Poll(limit)).resync <==> w.cursor < w.doc.compactedThrough)
  {
    hide RowsAfter, Numbered, Read;
    ReadSlices(w.doc, history, w.cursor, limit);
    var page := Read(w.doc, w.cursor, limit);
    if page.Ok? && !w.resync && !page.value.resyncRequired {
      var all, rest, n := Numbered(history, start), Numbered(history, w.cursor), |page.value.events|;
      assert page.value.events == rest[..n];
      assert all[..w.cursor - start] + rest[..n] == all[..w.cursor - start + n];
    }
  }

  lemma NextFollowing(w: World, history: seq<Event>, start: nat, step: Step)
    requires Following(w, history, start)
    ensures Following(Next(w, step), Grown(history, step), start)
  {
    match step
    case Write(event) =>
      AppendHolds(w.doc, history, event);
      assert Numbered(history + [event], start)[..w.cursor - start] == Numbered(history, start)[..w.cursor - start];
    case Compact(retainLast) => CompactHolds(w.doc, history, retainLast);
    case Poll(limit) => PollFollowing(w, history, start, limit);
  }

  function RunAll(w: World, steps: seq<Step>): World
    requires w.doc.nextSeq >= 1
  {
    if steps == [] then w
    else
      var before := RunAll(w, steps[..|steps| - 1]);
      if before.doc.nextSeq >= 1 then Next(before, steps[|steps| - 1]) else before
  }

  function GrownAll(history: seq<Event>, steps: seq<Step>): seq<Event> {
    if steps == [] then history else Grown(GrownAll(history, steps[..|steps| - 1]), steps[|steps| - 1])
  }

  /**
   Over any interleaving of writes, compactions and polls the journal is exactly the retained
   tail of everything ever written, and what the consumer received is exactly the part of it
   between where it started and its cursor: nothing missing, nothing twice, nothing renumbered.
   It is told to resync exactly when an event after its cursor has been discarded.
   */
  lemma {:induction false} ConsumerSeesSlice(w: World, history: seq<Event>, start: nat, steps: seq<Step>)
    requires Following(w, history, start)
    ensures Following(RunAll(w, steps), GrownAll(history, steps), start)
  {
    if steps != [] {
      var front := steps[..|steps| - 1];
      ConsumerSeesSlice(w, history, start, front);
      NextFollowing(RunAll(w, front), GrownAll(history, front), start, steps[|steps| - 1]);
    }
  }

  // ----- The journal over the document store -----

  class Journal {
    var documents: map<BoardId, Document<Event>>
    ghost var histories: map<BoardId, seq<Event>>

    ghost predicate Valid()
      reads this
    {
      && documents.Keys == histories.Keys
      && forall b :: b in documents ==> documents[b].boardId == b && Holds(documents[b], histories[b])
    }

    function DocumentOf(b: BoardId): Document<Event>
      reads this
    {
      if b in documents then documents[b] else Fresh(b)
    }

    ghost function HistoryOf(b: BoardId): seq<Event>
      reads this
    {
      if b in histories then histories[b] else []
    }

    constructor ()
      ensures Valid() && documents == map[]
    {
      documents, histories := map[], map[];
    }

    /** Appends one event, numbered one past everything ever written to its board. */
    method Append(boardId: BoardId, draft: Draft) returns (r: Result<Row<Event>, Error>)
      requires Valid()
      modifies this
      ensures Valid()
      ensures r.Ok? <==>
        && Strip(IsSpace, boardId) != ""
        && RequireText("kind", draft.kind).Ok? && RequireText("kind", draft.kind).value in KINDS
        && RequireText("actor", draft.actor).Ok? && RequireText("payload_ref", draft.payloadRef).Ok?
      ensures r.Err? ==> documents == old(documents) && histories == old(histories)
      ensures r.Ok? ==>
        var b := Strip(IsSpace, boardId);
        && r.value.seqNo == |old(HistoryOf(b))| + 1
        && r.value.event == Event(RequireText("kind", draft.kind).value, RequireText("actor", draft.actor).value,
                                  RequireText("payload_ref", draft.payloadRef).value, draft.semantic)
        && histories == old(histories)[b := old(HistoryOf(b)) + [r.value.event]]
        && Appended(old(DocumentOf(b)), r.value.event).Ok?
        && documents == old(documents)[b := Appended(old(DocumentOf(b)), r.value.event).value]
    {
      var b := Strip(IsSpace, boardId);
      if b == "" { return Err(BadText("board_id")); }
      var kind := RequireText("kind", draft.kind);
      if kind.Err? { return Err(kind.error); }
      if kind.value !in KINDS { return Err(UnknownKind); }
      var actor := RequireText("actor", draft.actor);
      if actor.Err? { return Err(actor.error); }
      var payloadRef := RequireText("payload_ref", draft.payloadRef);
      if payloadRef.Err? { return Err(payloadRef.error); }
      var event := Event(kind.value, actor.value, payloadRef.value, draft.semantic);
      var doc := DocumentOf(b);
      if doc.boardId != b { assert false; }
      AppendHolds(doc, HistoryOf(b), event);
      var next := Appended(doc, event);
      histories := histories[b := HistoryOf(b) + [event]];
      documents := documents[b := next.value];
      r := Ok(Row(doc.nextSeq, event));
    }

    method ReadAfter(boardId: BoardId, cursor: int, limit: int) returns (r: Result<Page<Event>, Error>)
      requires Valid()
      ensures r.Ok? <==>
        Strip(IsSpace, boardId) != "" && 1 <= limit <= MAX_LIMIT && 0 <= cursor <= |HistoryOf(Strip(IsSpace, boardId))|
      ensures r.Ok? ==>
        var b := Strip(IsSpace, boardId);
        && (r.value.resyncRequired <==> cursor < DocumentOf(b).compactedThrough)
        && (!r.value.resyncRequired ==>
              && r.value.events == Take(Numbered(HistoryOf(b), cursor), limit)
              && r.value.nextCursor == cursor + |r.value.events|
              && (r.value.hasMore <==> r.value.nextCursor < |HistoryOf(b)|))
    {
      var b := Strip(IsSpace, boardId);
      if b == "" { return Err(BadText("board_id")); }
      if cursor < 0 { return Err(BadCursor); }
      if !(1 <= limit <= MAX_LIMIT) { return Err(BadLimit); }
      ReadSlices(DocumentOf(b), HistoryOf(b), cursor, limit);
      r := Read(DocumentOf(b), cursor, limit);
    }

    /** Discards all but the last rows; the history and the numbering stay. */
    method CompactBoard(boardId: BoardId, retainLast: int) returns (r: Result<Compaction, Error>)
      requires Valid()
      modifies this
      ensures Valid()
      ensures r.Ok? <==> Strip(IsSpace, boardId) != "" && retainLast >= 0
      ensures r.Err? ==> documents == old(documents) && histories == old(histories)
      ensures r.Ok? ==>
        var b := Strip(IsSpace, boardId);
        && HistoryOf(b) == old(HistoryOf(b))
        && documents == old(documents)[b := Compacted(old(DocumentOf(b)), retainLast)]
        && r.value.removed + r.value.retained == |old(DocumentOf(b)).rows|
        && r.value.retained == |DocumentOf(b).rows| <= (if r.value.removed > 0 then retainLast else r.value.retained)
        && r.value.compactedThrough == DocumentOf(b).compactedThrough
          == old(DocumentOf(b)).compactedThrough + r.value.removed
        && r.value.latestCursor == |HistoryOf(b)|
    {
      var b := Strip(IsSpace, boardId);
      if b == "" { return Err(BadText("board_id")); }
      if retainLast < 0 { return Err(BadRetain); }
      var doc := DocumentOf(b);
      CompactHolds(doc, HistoryOf(b), retainLast);
      var removeCount := if |doc.rows| > retainLast then |doc.rows| - retainLast else 0;
      var removed := doc.rows[..removeCount];
      var compacted := doc;
      if removed != [] {
        compacted := doc.(compactedThrough := removed[|removed| - 1].seqNo, rows := doc.rows[removeCount..]);
      }
      histories := histories[b := HistoryOf(b)];
      documents := documents[b := compacted];
      r := Ok(Compaction(|removed|, |compacted.rows|, compacted.compactedThrough, compacted.nextSeq - 1));
    }
  }
}
