/**
 Reading every ticket of a board through bounded pages, from a server that may answer
 each request with anything at all.
 */
module TicketAudit {
  import opened Wrappers
  import opened Sorting
  import Text

  type TicketId = string
  type Status = string

  const TICKET_STATUSES: seq<Status> := [
    "open", "claimed", "in_progress", "creating_report", "submitted", "reviewing",
    "in_review", "needs_human", "closed", "rejected", "canceled", "terminated"]
  const TICKET_BATCH_SIZE := 25
  const TICKET_PAGE_LIMIT := 500
  const TICKET_MAX_PAGES := 100

  /** A ticket as sent; `None` stands for a missing or ill-typed field. */
  datatype Row = Row(id: Option<TicketId>, status: Option<Status>, partial: bool, ambiguous: bool, omitted: bool,
                     historyOk: bool)

  /** `Absent` when the key is missing, `Null` when it is null, `Bad` when it is no string. */
  datatype Cursor = Absent | Null | Bad | Next(text: string)

  datatype Flag = NoFlag | NotBoolean | IsFlag(value: bool)

  /** `tickets` is `None` when it is no list; an element is `None` when it is no object. */
  datatype Response = Response(tickets: Option<seq<Option<Row>>>, count: Option<int>, total: Option<int>,
                               cursor: Cursor, hasMore: Flag)

  datatype Query = Query(status: Option<Status>, assignee: Option<string>, ids: seq<TicketId>, limit: nat,
                         cursor: Option<string>)

  datatype Exchange = Exchange(query: Query, response: Response)

  datatype Error = AuditError

  function Rows(ts: seq<Option<Row>>): seq<Row> {
    if ts == [] then [] else (if ts[0].Some? then [ts[0].value] else []) + Rows(ts[1..])
  }

  /** The rows of a well-formed page and the total it claims. */
  function TicketPage(r: Response): Result<(seq<Row>, nat), Error> {
    if r.tickets.None? then Err(AuditError)
    else
      var rows := Rows(r.tickets.value);
      if |rows| != |r.tickets.value| then Err(AuditError)
      else if r.count != Some(|rows|) || r.total.None? || r.total.value < |rows| then Err(AuditError)
      else Ok((rows, r.total.value))
  }

  predicate HasId(row: Row) {
    row.id.Some? && row.id.value != ""
  }

  ghost predicate Identified(rows: seq<Row>) {
    && (forall i :: 0 <= i < |rows| ==> HasId(rows[i]))
    && (forall i, j :: 0 <= i < j < |rows| ==> rows[i].id != rows[j].id)
  }

  function Ids(rows: seq<Row>): (ids: seq<TicketId>)
    requires forall i :: 0 <= i < |rows| ==> HasId(rows[i])
    ensures |ids| == |rows| && forall i :: 0 <= i < |ids| ==> rows[i].id == Some(ids[i])
  {
    if rows == [] then []
    else
      assert HasId(rows[0]);
      [rows[0].id.value] + Ids(rows[1..])
  }

  /** The row was in an answer to a question about that status, or to any question when none is asked for. */
  ghost predicate Reported(log: seq<Exchange>, status: Option<Status>, row: Row) {
    exists k :: 0 <= k < |log| && log[k].query.status == status && log[k].response.tickets.Some?
                && row in Rows(log[k].response.tickets.value)
  }

  lemma ReportedLater(log: seq<Exchange>, log': seq<Exchange>, status: Option<Status>, row: Row)
    requires Reported(log, status, row) && log <= log'
    ensures Reported(log', status, row)
  {
    var k :| 0 <= k < |log| && log[k].query.status == status && log[k].response.tickets.Some?
      && row in Rows(log[k].response.tickets.value);
    assert log'[k] == log[k];
  }

  ghost predicate AllReported(log: seq<Exchange>, status: Option<Status>, rows: seq<Row>) {
    forall i :: 0 <= i < |rows| ==> Reported(log, status, rows[i])
  }

  lemma AllReportedLater(log: seq<Exchange>, log': seq<Exchange>, status: Option<Status>, rows: seq<Row>)
    requires AllReported(log, status, rows) && log <= log'
    ensures AllReported(log', status, rows)
  {
    forall i | 0 <= i < |rows| ensures Reported(log', status, rows[i]) { ReportedLater(log, log', status, rows[i]); }
  }

  // ----- Batches -----

  function Chunks(ids: seq<TicketId>): (cs: seq<seq<TicketId>>)
    ensures forall c :: c in cs ==> 0 < |c| <= TICKET_BATCH_SIZE
  {
    if ids == [] then []
    else if |ids| <= TICKET_BATCH_SIZE then [ids]
    else [ids[..TICKET_BATCH_SIZE]] + Chunks(ids[TICKET_BATCH_SIZE..])
  }

  function Flat(cs: seq<seq<TicketId>>): seq<TicketId> {
    if cs == [] then [] else Flat(cs[..|cs| - 1]) + cs[|cs| - 1]
  }

  lemma {:induction false} FlatCons(c: seq<TicketId>, cs: seq<seq<TicketId>>)
    ensures Flat([c] + cs) == c + Flat(cs)
  {
    if cs == [] {
      assert ([c] + cs)[..0] == [];
    } else {
      FlatCons(c, cs[..|cs| - 1]);
      assert ([c] + cs)[..|cs|] == [c] + cs[..|cs| - 1];
    }
  }

  /** Batching loses and repeats nothing. */
  lemma {:induction false} ChunksFlat(ids: seq<TicketId>)
    ensures Flat(Chunks(ids)) == ids
  {
    if ids != [] {
      if |ids| <= TICKET_BATCH_SIZE {
        assert [ids][..0] == [];
      } else {
        ChunksFlat(ids[TICKET_BATCH_SIZE..]);
        FlatCons(ids[..TICKET_BATCH_SIZE], Chunks(ids[TICKET_BATCH_SIZE..]));
        assert ids == ids[..TICKET_BATCH_SIZE] + ids[TICKET_BATCH_SIZE..];
      }
    }
  }

  function Members(s: seq<TicketId>): set<TicketId> {
    set x | x in s
  }

  lemma MembersConcat(a: seq<TicketId>, b: seq<TicketId>)
    ensures Members(a + b) == Members(a) + Members(b)
  {
  }

  lemma {:induction false} DistinctSize(s: seq<TicketId>)
    requires Distinct(s)
    ensures |Members(s)| == |s|
  {
    if s != [] {
      var n := |s| - 1;
      DistinctSize(s[..n]);
      MembersConcat(s[..n], [s[n]]);
      assert s == s[..n] + [s[n]] && Members([s[n]]) == {s[n]};
    }
  }

  // ----- The audit -----

  /** A ticket as fetched in full, and the identity and status checks made on it. */
  function ApprovalInput(row: Row, detail: Option<Row>): Result<Row, Error>
    requires HasId(row)
  {
    if (row.partial || row.ambiguous) && (detail.None? || detail.value.id != row.id) then Err(AuditError)
    else
      var ticket := if row.partial || row.ambiguous then detail.value else row;
      if ticket.omitted || ticket.ambiguous || !ticket.historyOk then Err(AuditError) else Ok(ticket)
  }

  function IdSet(rows: seq<Row>): set<TicketId> {
    set i | 0 <= i < |rows| && rows[i].id.Some? :: rows[i].id.value
  }

  lemma IdSetAppend(rows: seq<Row>, row: Row)
    requires HasId(row)
    ensures IdSet(rows + [row]) == IdSet(rows) + {row.id.value}
    ensures Identified(rows) ==> (Identified(rows + [row]) <==> row.id.value !in IdSet(rows))
  {
    var all := rows + [row];
    assert all[|rows|] == row;
    forall id | id in IdSet(rows) ensures id in IdSet(all) {
      var i :| 0 <= i < |rows| && rows[i].id == Some(id);
      assert all[i] == rows[i];
    }
    if Identified(rows) && row.id.value in IdSet(rows) {
      var i :| 0 <= i < |rows| && rows[i].id == Some(row.id.value);
      assert all[i].id == all[|rows|].id;
    }
  }

  lemma NotIdentified(whole: seq<Row>, all: seq<Row>, row: Row)
    requires Identified(all) && |all| < |whole| && whole[..|all| + 1] == all + [row]
    requires !HasId(row) || row.id.value in IdSet(all)
    ensures !Identified(whole)
  {
    var n := |all|;
    assert whole[n] == whole[..n + 1][n] == row;
    if HasId(row) {
      var i :| 0 <= i < n && all[i].id == Some(row.id.value);
      assert whole[i] == whole[..n + 1][i] == all[i];
    }
  }

  /** Page `i` of the log claims `total` tickets. */
  ghost predicate Claims(log: seq<Exchange>, i: nat, total: nat)
    requires i < |log|
  {
    TicketPage(log[i].response).Ok? && TicketPage(log[i].response).value.1 == total
  }

  /** Every page from `from` on claims the same total. */
  ghost predicate ClaimsFrom(log: seq<Exchange>, from: nat, total: nat) {
    forall i :: from <= i < |log| ==> Claims(log, i, total)
  }

  /** The requests from `from` on each send a cursor, and no cursor twice. */
  ghost predicate CursorsDistinct(log: seq<Exchange>, from: nat) {
    && (forall i :: from <= i < |log| ==> log[i].query.cursor.Some?)
    && (forall i, j :: from <= i < j < |log| ==> log[i].query.cursor != log[j].query.cursor)
  }

  lemma CursorSent(log: seq<Exchange>, from: nat, cursors: set<string>, cursor: string)
    requires log != [] && from < |log| && CursorsIn(log[..|log| - 1], from, cursors)
    requires cursor !in cursors && log[|log| - 1].query.cursor == Some(cursor)
    ensures CursorsIn(log, from, cursors + {cursor})
  {
    var front := log[..|log| - 1];
    assert forall i :: from <= i < |front| ==> front[i] == log[i];
  }

  lemma NoCursorSent(log: seq<Exchange>, from: nat)
    requires from == |log|
    ensures CursorsIn(log, from, {})
  {
  }

  lemma CursorsApart(log: seq<Exchange>, from: nat, cursors: set<string>)
    requires CursorsIn(log, from, cursors)
    ensures CursorsDistinct(log, from)
  {
  }

  ghost predicate CursorsIn(log: seq<Exchange>, from: nat, cursors: set<string>) {
    && CursorsDistinct(log, from)
    && forall i :: from <= i < |log| ==> log[i].query.cursor.value in cursors
  }

  /** The server listed the ticket on a page of that status, and with that status. */
  ghost predicate ListedAs(log: seq<Exchange>, id: TicketId, status: Status) {
    exists row :: Reported(log, Some(status), row) && row.id == Some(id) && row.status == Some(status)
  }

  lemma ListedLater(log: seq<Exchange>, log': seq<Exchange>, id: TicketId, status: Status)
    requires ListedAs(log, id, status) && log <= log'
    ensures ListedAs(log', id, status)
  {
    var row :| Reported(log, Some(status), row) && row.id == Some(id) && row.status == Some(status);
    ReportedLater(log, log', Some(status), row);
  }

  ghost predicate AllListed(log: seq<Exchange>, expected: map<TicketId, Status>) {
    forall id :: id in expected ==> ListedAs(log, id, expected[id]) && expected[id] in TICKET_STATUSES
  }

  lemma ListOne(log: seq<Exchange>, expected: map<TicketId, Status>, row: Row, status: Status)
    requires AllListed(log, expected) && status in TICKET_STATUSES
    requires Reported(log, Some(status), row) && row.id.Some? && row.status == Some(status)
    ensures AllListed(log, expected[row.id.value := status])
  {
    assert ListedAs(log, row.id.value, status);
  }

  lemma OwnIds(log: seq<Exchange>, status: Status, rows: seq<Row>) returns (own: seq<TicketId>)
    requires Identified(rows) && AllReported(log, Some(status), rows)
    ensures own == Ids(rows) && |own| == |rows|
    ensures forall i :: 0 <= i < |rows| ==> rows[i].id == Some(own[i]) && Reported(log, Some(status), rows[i])
    ensures forall i :: 0 <= i < |rows| ==> own[i] !in own[..i]
  {
    own := Ids(rows);
    forall i | 0 <= i < |rows| ensures own[i] !in own[..i] {
      forall j | 0 <= j < i ensures own[j] != own[i] { assert rows[j].id != rows[i].id; }
    }
  }

  lemma AllListedLater(log: seq<Exchange>, log': seq<Exchange>, expected: map<TicketId, Status>)
    requires AllListed(log, expected) && log <= log'
    ensures AllListed(log', expected)
  {
    forall id | id in expected ensures ListedAs(log', id, expected[id]) { ListedLater(log, log', id, expected[id]); }
  }

  lemma IdSetSize(rows: seq<Row>)
    requires Identified(rows)
    ensures |IdSet(rows)| == |rows|
  {
    var ids := Ids(rows);
    assert Distinct(ids);
    DistinctSize(ids);
    forall id ensures id in IdSet(rows) <==> id in ids {
      if id in ids {
        var i :| 0 <= i < |ids| && ids[i] == id;
        assert rows[i].id == Some(id);
      }
      if id in IdSet(rows) {
        var i :| 0 <= i < |rows| && rows[i].id == Some(id);
        assert ids[i] == id;
      }
    }
    assert IdSet(rows) == Members(ids);
  }

  lemma {:induction false} FlatPrefix(cs: seq<seq<TicketId>>, k: nat)
    requires k < |cs|
    ensures Flat(cs[..k + 1]) == Flat(cs[..k]) + cs[k] && Flat(cs[..k + 1]) <= Flat(cs)
  {
    assert cs[..k + 1][..k] == cs[..k];
    if k + 1 < |cs| {
      FlatPrefix(cs[..|cs| - 1], k);
      assert cs[..|cs| - 1][..k + 1] == cs[..k + 1];
    } else {
      assert cs[..k + 1] == cs;
    }
  }

  // ----- Complete traversals -----

  function PageRows(page: Response): seq<Row> {
    if TicketPage(page).Ok? then TicketPage(page).value.0 else []
  }

  function AllRows(pages: seq<Response>): seq<Row> {
    if pages == [] then [] else AllRows(pages[..|pages| - 1]) + PageRows(pages[|pages| - 1])
  }

  function CursorsOf(pages: seq<Response>): set<string> {
    set p | p in pages && p.cursor.Next? :: p.cursor.text
  }

  function TotalOf(pages: seq<Response>): Option<nat> {
    if pages == [] || TicketPage(pages[0]).Err? then None else Some(TicketPage(pages[0]).value.1)
  }

  /** The page is well formed, agrees with the pages before it and repeats neither a ticket nor a cursor. */
  ghost predicate Fits(before: seq<Response>, page: Response) {
    && TicketPage(page).Ok? && (TotalOf(before).Some? ==> TicketPage(page).value.1 == TotalOf(before).value)
    && Identified(AllRows(before) + PageRows(page))
    && !page.cursor.Bad? && (page.cursor.Next? ==> page.cursor.text != "" && page.cursor.text !in CursorsOf(before))
    && (!page.hasMore.NoFlag? ==> page.hasMore == IsFlag(page.cursor.Next?))
  }

  /** Pages that fit and rightly announce more. */
  ghost predicate Continues(pages: seq<Response>) {
    pages == [] ||
      (var before, page := pages[..|pages| - 1], pages[|pages| - 1];
       && Continues(before) && Fits(before, page) && page.cursor.Next? && PageRows(page) != []
       && |AllRows(before) + PageRows(page)| < TicketPage(page).value.1)
  }

  /** Pages that fit, the last of which rightly announces no more. */
  ghost predicate Complete(pages: seq<Response>) {
    pages != [] &&
      (var before, page := pages[..|pages| - 1], pages[|pages| - 1];
       && Continues(before) && Fits(before, page) && !page.cursor.Next?
       && |AllRows(before) + PageRows(page)| == TicketPage(page).value.1)
  }

  ghost function Pages(log: seq<Exchange>, from: nat): seq<Response>
    requires from <= |log|
  {
    seq(|log| - from, i requires 0 <= i < |log| - from => log[from + i].response)
  }

  lemma NoPages(log: seq<Exchange>)
    ensures Pages(log, |log|) == [] && Continues([]) && AllRows([]) == [] && CursorsOf([]) == {} && TotalOf([]) == None
    ensures Identified([]) && IdSet([]) == {}
  {
  }

  /** A traversal that continues is not complete. */
  lemma CompleteStops(before: seq<Response>, page: Response)
    ensures !(Continues(before + [page]) && Complete(before + [page]))
  {
  }

  lemma PagesNow(log: seq<Exchange>, from: nat)
    requires from < |log|
    ensures Pages(log, from) == Pages(log[..|log| - 1], from) + [log[|log| - 1].response]
  {
  }

  lemma PageTaken(before: seq<Response>, page: Response)
    requires TicketPage(page).Ok?
    ensures AllRows(before + [page]) == AllRows(before) + TicketPage(page).value.0
    ensures before != [] ==> TotalOf(before + [page]) == TotalOf(before)
    ensures before == [] ==> TotalOf(before + [page]) == Some(TicketPage(page).value.1)
    ensures CursorsOf(before + [page]) == CursorsOf(before) + if page.cursor.Next? then {page.cursor.text} else {}
  {
    hide TicketPage;
    var pages := before + [page];
    assert pages[..|before|] == before && pages[|before|] == page;
    forall p ensures p in pages <==> p in before || p == page {
    }
  }

  lemma ContinuesFits(pages: seq<Response>)
    requires Continues(pages) && pages != []
    ensures TicketPage(pages[0]).Ok? && TotalOf(pages).Some?
  {
    if |pages| > 1 { ContinuesFits(pages[..|pages| - 1]); }
  }

  class Audit {
    /** The server: its answer to the n-th request, which may depend on anything. */
    const list: (nat, Query) -> Response
    const detail: (nat, TicketId) -> Option<Row>
    const assignees: nat -> Option<seq<string>>
    var calls: nat
    ghost var log: seq<Exchange>

    constructor (list: (nat, Query) -> Response, detail: (nat, TicketId) -> Option<Row>,
                 assignees: nat -> Option<seq<string>>)
      ensures this.list == list && this.detail == detail && this.assignees == assignees && calls == 0 && log == []
    {
      this.list, this.detail, this.assignees := list, detail, assignees;
      calls, log := 0, [];
    }

    method TicketList(q: Query) returns (r: Response)
      modifies this
      ensures log == old(log) + [Exchange(q, r)]
    {
      r := list(calls, q);
      calls := calls + 1;
      log := log + [Exchange(q, r)];
    }

    /** Adds one page's rows, refusing a missing identifier or a repeated one. */
    method AddRows(rows: seq<Row>, seen: set<TicketId>, current: seq<Row>)
      returns (r: Result<(seq<Row>, set<TicketId>), Error>)
      requires Identified(rows) && seen == IdSet(rows)
      ensures r.Ok? <==> Identified(rows + current)
      ensures r.Ok? ==> r.value.0 == rows + current && r.value.1 == IdSet(r.value.0)
    {
      var all, ids := rows, seen;
      for k := 0 to |current|
        invariant all == rows + current[..k] && Identified(all) && ids == IdSet(all)
      {
        var row := current[k];
        assert (rows + current)[..|rows| + k + 1] == all + [row];
        if HasId(row) { IdSetAppend(all, row); }
        if !HasId(row) || row.id.value in ids {
          NotIdentified(rows + current, all, row);
          return Err(AuditError);
        }
        assert rows + current[..k + 1] == all + [row];
        all, ids := all + [row], ids + {row.id.value};
      }
      assert current[..|current|] == current;
      r := Ok((all, ids));
    }

    /**
     Checks one page against the pages before it; `next` is the cursor to continue with. It is taken exactly
     when it continues the traversal or completes it.
     */
    method TakePage(page: Response, rows: seq<Row>, seen: set<TicketId>, cursors: set<string>, total: Option<nat>,
                    ghost before: seq<Response>)
      returns (r: Result<(seq<Row>, set<TicketId>, nat), Error>, next: Option<string>)
      requires Continues(before) && rows == AllRows(before) && cursors == CursorsOf(before) && total == TotalOf(before)
      requires Identified(rows) && seen == IdSet(rows)
      ensures r.Ok? <==> Continues(before + [page]) || Complete(before + [page])
      ensures r.Ok? && next.Some? <==> Continues(before + [page])
      ensures r.Ok? ==>
        && TicketPage(page).Ok? && TicketPage(page).value.1 == r.value.2 && (total.Some? ==> r.value.2 == total.value)
        && Identified(r.value.0) && r.value.0 == rows + TicketPage(page).value.0 && r.value.1 == IdSet(r.value.0)
        && (next.None? ==> |r.value.0| == r.value.2)
        && (next.Some? ==> page.cursor == Next(next.value) && next.value !in cursors)
    {
      hide TicketPage, Identified;
      assert (before + [page])[..|before|] == before;
      next := None;
      var parsed := TicketPage(page);
      if parsed.Err? { return Err(AuditError), None; }
      var (current, matching) := parsed.value;
      if total.Some? && matching != total.value { return Err(AuditError), None; }
      var added := AddRows(rows, seen, current);
      if added.Err? { return Err(AuditError), None; }
      var (all, ids) := added.value;
      var cursor := page.cursor;
      if cursor.Bad? || (cursor.Next? && (cursor.text == "" || cursor.text in cursors)) {
        return Err(AuditError), None;
      }
      if !page.hasMore.NoFlag? && page.hasMore != IsFlag(cursor.Next?) { return Err(AuditError), None; }
      if |all| > matching || (cursor.Next? && |all| >= matching) { return Err(AuditError), None; }
      if !cursor.Next? {
        if |all| != matching { return Err(AuditError), None; }
        return Ok((all, ids, matching)), None;
      }
      if current == [] { return Err(AuditError), None; }
      r, next := Ok((all, ids, matching)), Some(cursor.text);
    }

    /**
     Follows a server's pages. It makes at most the allowed number of requests and never sends a
     cursor twice; if it returns, it has exactly as many tickets as the server claimed on every
     page, each identified, none twice, all of them reported by the server. It returns exactly when the pages it
     got are complete, and gives up on pages that rightly continue only at the limit.
     */
    method CompleteTicketPages(q: Query, first: Option<Response>) returns (r: Result<seq<Row>, Error>)
      requires q.cursor.None?
      requires first.Some? ==> log != [] && log[|log| - 1] == Exchange(q, first.value)
      modifies this
      ensures old(log) <= log && |log| <= |old(log)| + TICKET_MAX_PAGES - if first.Some? then 1 else 0
      ensures CursorsDistinct(log, |old(log)| + if first.Some? then 0 else 1)
      ensures r.Ok? ==> Identified(r.value) && AllReported(log, q.status, r.value)
      ensures r.Ok? ==> ClaimsFrom(log, |old(log)| - (if first.Some? then 1 else 0), |r.value|)
      ensures var pages := Pages(log, |old(log)| - if first.Some? then 1 else 0);
        && (r.Ok? <==> Complete(pages)) && (r.Ok? ==> r.value == AllRows(pages))
        && (r.Err? && Continues(pages) ==> |pages| == TICKET_MAX_PAGES)
    {
      hide TicketPage, Reported, AllReported, Identified, Fits, Pages, AllRows, CursorsOf, TotalOf, Continues, Complete,
           CursorsIn, IdSet;
      var page: Response;
      if first.Some? { page := first.value; } else { page := TicketList(q); }
      ghost var from := |log|;
      var total: Option<nat> := None;
      var rows: seq<Row> := [];
      var seenIds: set<TicketId> := {};
      var seenCursors: set<string> := {};
      ghost var before: seq<Response> := [];
      NoPages(log[..from - 1]);
      NoCursorSent(log, from);
      NothingReported(log, q.status);
      var pageNumber := 1;
      while pageNumber <= TICKET_MAX_PAGES
        invariant 1 <= pageNumber <= TICKET_MAX_PAGES && old(log) <= log
        invariant |log| == from + pageNumber - 1 && from > 0
        invariant log[|log| - 1].response == page && log[|log| - 1].query.status == q.status
        invariant before == Pages(log[..|log| - 1], from - 1) && |before| == pageNumber - 1 && Continues(before)
        invariant rows == AllRows(before) && seenCursors == CursorsOf(before) && total == TotalOf(before)
        invariant Identified(rows) && AllReported(log, q.status, rows) && seenIds == IdSet(rows)
        invariant CursorsIn(log, from, seenCursors)
        invariant total.None? ==> |log| == from
        invariant total.Some? ==> ClaimsFrom(log[..|log| - 1], from - 1, total.value)
        decreases TICKET_MAX_PAGES - pageNumber
      {
        var taken, next := TakePage(page, rows, seenIds, seenCursors, total, before);
        CursorsApart(log, from, seenCursors);
        PagesNow(log, from - 1);
        CompleteStops(before, page);
        if taken.Err? { return Err(AuditError); }
        PageTaken(before, page);
        PageReported(log, q.status, rows, taken.value.0);
        ClaimsExtended(log, from - 1, taken.value.2);
        rows, seenIds, total := taken.value.0, taken.value.1, Some(taken.value.2);
        if next.None? { return Ok(rows); }
        if pageNumber == TICKET_MAX_PAGES { return Err(AuditError); }
        before := before + [page];
        assert seenCursors + {next.value} - {next.value} == seenCursors;
        seenCursors := seenCursors + {next.value};
        ghost var sofar := log;
        page := TicketList(q.(cursor := next));
        assert log[..|log| - 1] == sofar;
        CursorSent(log, from, seenCursors - {next.value}, next.value);
        AllReportedLater(sofar, log, q.status, rows);
        pageNumber := pageNumber + 1;
      }
      r := Err(AuditError);
    }

    /** Every ticket of one status: by pages, or from an old server split by assignee. */
    method CompleteStatusPage(status: Status) returns (r: Result<seq<Row>, Error>)
      modifies this
      ensures old(log) < log
      ensures r.Ok? ==> Identified(r.value) && AllReported(log, Some(status), r.value)
      ensures r.Ok? ==> Claims(log, |old(log)|, |r.value|)
    {
      hide TicketPage, Reported, Merged, AllReported, Identified, Sort;
      var q := Query(Some(status), None, [], TICKET_PAGE_LIMIT, None);
      var result := TicketList(q);
      var parsed := TicketPage(result);
      if parsed.Err? { return Err(AuditError); }
      var (rows, total) := parsed.value;
      if !result.cursor.Absent? || total == |rows| {
        r := CompleteTicketPages(q, Some(result));
        return;
      }
      var names := assignees(calls);
      calls := calls + 1;
      if names.None? { return Err(AuditError); }
      NothingReported(log, Some(status));
      PageReported(log, Some(status), [], rows);
      var ids: seq<TicketId>, byId: map<TicketId, Row> := [], map[];
      NothingMerged(log, status);
      var ok;
      ok, ids, byId := MergeRows(rows, ids, byId, status);
      if !ok { return Err(AuditError); }
      ok, ids, byId := MergeAssignees(q, names.value, ids, byId, status);
      if !ok || |byId| != total { return Err(AuditError); }
      SortedMerge(log, ids, byId, status);
      MergedSize(log, ids, byId, status);
      r := Ok(InOrder(Sort(Text.Leq, ids), byId));
    }

    method MergeAssignees(q: Query, names: seq<string>, ids0: seq<TicketId>, byId0: map<TicketId, Row>,
                          ghost status: Status)
      returns (ok: bool, ids: seq<TicketId>, byId: map<TicketId, Row>)
      requires q.status == Some(status) && Merged(log, ids0, byId0, status)
      modifies this
      ensures old(log) <= log && Merged(log, ids, byId, status)
    {
      hide TicketPage, Reported, Merged, AllReported;
      ok, ids, byId := true, ids0, byId0;
      for k := 0 to |names|
        invariant old(log) <= log && Merged(log, ids, byId, status)
      {
        ghost var before := log;
        var answer := TicketList(q.(assignee := Some(names[k])));
        MergedLater(before, log, ids, byId, status);
        var page := TicketPage(answer);
        if page.Err? || page.value.1 != |page.value.0| { return false, ids, byId; }
        NothingReported(log, Some(status));
        PageReported(log, Some(status), [], page.value.0);
        ok, ids, byId := MergeRows(page.value.0, ids, byId, status);
        if !ok { return; }
      }
    }

    method MergeRows(rows: seq<Row>, ids0: seq<TicketId>, byId0: map<TicketId, Row>, ghost status: Status)
      returns (ok: bool, ids: seq<TicketId>, byId: map<TicketId, Row>)
      requires AllReported(log, Some(status), rows) && Merged(log, ids0, byId0, status)
      ensures Merged(log, ids, byId, status)
    {
      hide Reported;
      ids, byId := ids0, byId0;
      for k := 0 to |rows|
        invariant Merged(log, ids, byId, status)
      {
        if !HasId(rows[k]) { return false, ids, byId; }
        var id := rows[k].id.value;
        if id !in byId { ids := ids + [id]; }
        byId := byId[id := rows[k]];
      }
      ok := true;
    }

    /** Records a status page; it goes through exactly when every ticket is new and still in that status. */
    method RecordStatus(status: Status, rows: seq<Row>, ids0: seq<TicketId>, expected0: map<TicketId, Status>)
      returns (ok: bool, ids: seq<TicketId>, expected: map<TicketId, Status>)
      requires status in TICKET_STATUSES && Identified(rows) && AllReported(log, Some(status), rows)
      requires Distinct(ids0) && (forall id :: id in ids0 <==> id in expected0) && AllListed(log, expected0)
      ensures Distinct(ids) && (forall id :: id in ids <==> id in expected) && AllListed(log, expected)
      ensures ok <==> forall k :: 0 <= k < |rows| ==> rows[k].status == Some(status) && rows[k].id.value !in expected0
      ensures ok ==> ids == ids0 + Ids(rows)
    {
      hide Reported, AllReported, Identified, AllListed, HasId, Ids;
      ids, expected := ids0, expected0;
      ghost var own := OwnIds(log, status, rows);
      for k := 0 to |rows|
        invariant Distinct(ids) && (forall id :: id in ids <==> id in expected) && AllListed(log, expected)
        invariant ids == ids0 + own[..k]
        invariant forall i :: 0 <= i < k ==> rows[i].status == Some(status) && own[i] !in expected0
      {
        var row := rows[k];
        var id := row.id.value;
        assert own[..k + 1] == own[..k] + [own[k]];
        assert id in expected <==> id in expected0 by {
          assert id in ids <==> id in ids0 || id in own[..k];
        }
        if id in expected || row.status != Some(status) { return false, ids, expected; }
        ListOne(log, expected, row, status);
        ids, expected := ids + [id], expected[id := status];
      }
      assert own[..|rows|] == own;
      ok := true;
    }

    /** Fetches one batch in full and checks every ticket's identity and status. */
    method FetchBatch(chunk: seq<TicketId>, tickets0: seq<Row>, expected: map<TicketId, Status>)
      returns (r: Result<seq<Row>, Error>)
      requires Identified(tickets0) && (forall id :: id in chunk ==> id in expected && id !in IdSet(tickets0))
      requires Checked(tickets0, expected)
      modifies this
      ensures old(log) <= log
      ensures r.Ok? ==> Identified(r.value) && Checked(r.value, expected)
      ensures r.Ok? ==> IdSet(r.value) == IdSet(tickets0) + Members(chunk)
    {
      hide TicketPage, Reported, Complete, Continues, AllRows, Pages, ClaimsFrom, CursorsDistinct, AllReported;
      var fetched := CompleteTicketPages(Query(None, None, chunk, |chunk|, None), None);
      if fetched.Err? { return Err(AuditError); }
      var rows := fetched.value;
      if IdSet(rows) != Members(chunk) { return Err(AuditError); }
      var tickets := tickets0;
      assert rows[..0] == [] && IdSet([]) == {};
      for k := 0 to |rows|
        invariant old(log) <= log
        invariant Identified(tickets) && Checked(tickets, expected)
        invariant IdSet(tickets) == IdSet(tickets0) + IdSet(rows[..k])
      {
        var row := rows[k];
        assert HasId(row);
        FreshId(rows, k);
        var full := detail(calls, row.id.value);
        calls := calls + 1;
        var ticket := ApprovalInput(row, full);
        if ticket.Err? || ticket.value.status != Some(expected[row.id.value]) { return Err(AuditError); }
        IdSetAppend(tickets, ticket.value);
        IdSetAppend(rows[..k], row);
        assert rows[..k + 1] == rows[..k] + [row];
        tickets := tickets + [ticket.value];
      }
      assert rows[..|rows|] == rows;
      r := Ok(tickets);
    }

    /**
     Reads every ticket of the board. Whatever the server answers, a result that comes back holds
     exactly as many tickets as the opening probe counted, each identified and none twice, and
     each in the very status the server had listed it under.
     */
    method FetchAllTickets() returns (r: Result<seq<Row>, Error>)
      modifies this
      ensures old(log) < log
      ensures r.Ok? ==> Identified(r.value) && log[|old(log)|].response.total == Some(|r.value|)
      ensures r.Ok? ==> forall k :: 0 <= k < |r.value| ==>
        && r.value[k].id.Some? && r.value[k].status.Some? && r.value[k].status.value in TICKET_STATUSES
        && ListedAs(log, r.value[k].id.value, r.value[k].status.value)
    {
      hide TicketPage, Reported, ListedAs, Sort, Flat, Chunks;
      NothingFlat();
      var probe := TicketList(Query(None, None, [], 1, None));
      if probe.total.None? || probe.total.value < 0 { return Err(AuditError); }
      ghost var opening := log;
      var ids: seq<TicketId>, expected: map<TicketId, Status> := [], map[];
      for k := 0 to |TICKET_STATUSES|
        invariant opening <= log
        invariant Distinct(ids) && (forall id :: id in ids <==> id in expected) && AllListed(log, expected)
      {
        ghost var before := log;
        var page := CompleteStatusPage(TICKET_STATUSES[k]);
        if page.Err? { return Err(AuditError); }
        AllListedLater(before, log, expected);
        var ok;
        ok, ids, expected := RecordStatus(TICKET_STATUSES[k], page.value, ids, expected);
        if !ok { return Err(AuditError); }
      }
      if |ids| != probe.total.value { return Err(AuditError); }
      var sorted := Sort(Text.Leq, ids);
      SortMembers(Text.Leq, ids);
      SortDistinct(Text.Leq, ids);
      ChunksFlat(sorted);
      var chunks := Chunks(sorted);
      var tickets: seq<Row> := [];
      assert chunks[..0] == [] && IdSet([]) == {};
      for k := 0 to |chunks|
        invariant opening <= log && AllListed(log, expected)
        invariant Identified(tickets) && Checked(tickets, expected)
        invariant IdSet(tickets) == Members(Flat(chunks[..k]))
      {
        ghost var before := log;
        NextChunk(chunks, k);
        var batch := FetchBatch(chunks[k], tickets, expected);
        if batch.Err? { return Err(AuditError); }
        AllListedLater(before, log, expected);
        tickets := batch.value;
      }
      assert chunks[..|chunks|] == chunks;
      IdSetSize(tickets);
      DistinctSize(sorted);
      r := Ok(tickets);
    }
  }

  lemma NothingFlat()
    ensures Flat([]) == []
  {
  }

  lemma NextChunk(chunks: seq<seq<TicketId>>, k: nat)
    requires k < |chunks| && Distinct(Flat(chunks))
    ensures forall id :: id in chunks[k] ==> id in Flat(chunks) && id !in Flat(chunks[..k])
    ensures Members(Flat(chunks[..k + 1])) == Members(Flat(chunks[..k])) + Members(chunks[k])
  {
    hide Flat;
    FlatPrefix(chunks, k);
    var before, chunk, all := Flat(chunks[..k]), chunks[k], Flat(chunks);
    var upto := before + chunk;
    MembersConcat(before, chunk);
    forall j | 0 <= j < |upto| ensures upto[j] == all[j] { }
    forall id | id in chunk ensures id in all && id !in before {
      var j :| 0 <= j < |chunk| && chunk[j] == id;
      assert all[|before| + j] == upto[|before| + j] == id;
      forall i | 0 <= i < |before| ensures before[i] != id { assert all[i] == before[i]; }
    }
  }

  /** The k-th identifier is not among the earlier ones. */
  lemma FreshId(rows: seq<Row>, k: nat)
    requires Identified(rows) && k < |rows|
    ensures HasId(rows[k]) && rows[k].id.value in IdSet(rows) && rows[k].id.value !in IdSet(rows[..k])
  {
    assert HasId(rows[k]);
    forall i | 0 <= i < k ensures rows[..k][i].id != rows[k].id {
      assert rows[i].id != rows[k].id;
    }
  }

  /** Every ticket has the status recorded for it. */
  ghost predicate Checked(tickets: seq<Row>, expected: map<TicketId, Status>) {
    forall i :: 0 <= i < |tickets| ==>
      tickets[i].id.Some? && tickets[i].id.value in expected && tickets[i].status == Some(expected[tickets[i].id.value])
  }

  // ----- The assignee split -----

  ghost predicate Merged(log: seq<Exchange>, ids: seq<TicketId>, byId: map<TicketId, Row>, status: Status) {
    && Distinct(ids) && (forall id :: id in ids <==> id in byId)
    && forall id :: id in byId ==> byId[id].id == Some(id) && id != "" && Reported(log, Some(status), byId[id])
  }

  lemma NothingMerged(log: seq<Exchange>, status: Status)
    ensures Merged(log, [], map[], status)
  {
  }

  lemma NothingReported(log: seq<Exchange>, status: Option<Status>)
    ensures AllReported(log, status, [])
  {
  }

  lemma MergedLater(log: seq<Exchange>, log': seq<Exchange>, ids: seq<TicketId>, byId: map<TicketId, Row>,
                    status: Status)
    requires Merged(log, ids, byId, status) && log <= log'
    ensures Merged(log', ids, byId, status)
  {
    forall id | id in byId ensures Reported(log', Some(status), byId[id]) {
      ReportedLater(log, log', Some(status), byId[id]);
    }
  }

  function InOrder(ids: seq<TicketId>, byId: map<TicketId, Row>): (rows: seq<Row>)
    requires forall id :: id in ids ==> id in byId
    ensures |rows| == |ids| && forall i :: 0 <= i < |ids| ==> ids[i] in byId && rows[i] == byId[ids[i]]
  {
    if ids == [] then [] else [byId[ids[0]]] + InOrder(ids[1..], byId)
  }

  lemma SortedMerge(log: seq<Exchange>, ids: seq<TicketId>, byId: map<TicketId, Row>, status: Status)
    requires Merged(log, ids, byId, status)
    ensures forall id :: id in Sort(Text.Leq, ids) ==> id in byId
    ensures var rows := InOrder(Sort(Text.Leq, ids), byId); Identified(rows) && AllReported(log, Some(status), rows)
  {
    hide Sort, Reported;
    SortMembers(Text.Leq, ids);
    SortDistinct(Text.Leq, ids);
    var sorted := Sort(Text.Leq, ids);
    var rows := InOrder(sorted, byId);
    forall i | 0 <= i < |rows|
      ensures rows[i].id == Some(sorted[i]) && HasId(rows[i]) && Reported(log, Some(status), rows[i])
    {
      assert sorted[i] in byId;
    }
  }

  lemma MergedSize(log: seq<Exchange>, ids: seq<TicketId>, byId: map<TicketId, Row>, status: Status)
    requires Merged(log, ids, byId, status)
    ensures |Sort(Text.Leq, ids)| == |byId|
  {
    hide Sort, Reported;
    DistinctSize(ids);
    assert Members(ids) == byId.Keys;
  }

  /** Rows taken over from the last page are reported by it. */
  lemma PageReported(log: seq<Exchange>, status: Option<Status>, rows: seq<Row>, all: seq<Row>)
    requires log != [] && log[|log| - 1].query.status == status && AllReported(log, status, rows)
    requires TicketPage(log[|log| - 1].response).Ok? && all == rows + TicketPage(log[|log| - 1].response).value.0
    ensures AllReported(log, status, all)
  {
    forall i | 0 <= i < |all| ensures Reported(log, status, all[i]) {
      if i < |rows| {
        assert all[i] == rows[i];
      } else {
        assert all[i] in Rows(log[|log| - 1].response.tickets.value);
      }
    }
  }

  lemma ClaimsExtended(log: seq<Exchange>, from: nat, total: nat)
    requires log != [] && from < |log| && Claims(log, |log| - 1, total)
    ensures ClaimsFrom(log[..|log| - 1], from, total) ==> ClaimsFrom(log, from, total)
  {
    var front := log[..|log| - 1];
    if ClaimsFrom(front, from, total) {
      forall i | from <= i < |log| ensures Claims(log, i, total) {
        if i < |front| { assert Claims(front, i, total) && front[i] == log[i]; }
      }
    }
  }
}
