/** Applying an operator's reviewed decisions to the records quarantine held back. */
module Reconciliation {
  import opened Wrappers
  import opened Text
  import Sorting

  type Key = string
  type Value = seq<bv8>
  type Digest = string

  datatype Action = AcceptAsIs | RedactSpan | Drop

  /** A top-level source record. */
  datatype Record = Record(kind: string, id: string)

  /** A worksheet row: one quarantined field of a record. `detail` stands for the field's name, identity and rules. */
  datatype Row = Row(key: Key, record: Record, detail: string)

  datatype Worksheet = Worksheet(sha: Option<Digest>, entries: seq<Row>)

  /** A decision row as read; the file need not supply any of it. */
  datatype DecisionRow = DecisionRow(key: Option<Key>, record: Option<Record>, detail: Option<string>,
                                     action: Option<string>)

  /** `rows` is missing when it is not a list, and a row is missing when it is not an object. */
  datatype Body =
    | Plain(rows: Option<seq<Option<DecisionRow>>>)
    | Entries(status: Option<string>, boardId: Option<string>, rows: Option<seq<Option<DecisionRow>>>,
              count: Option<int>, reviewedAt: Option<string>, policySha: Option<string>)

  datatype Decisions = Decisions(worksheetSha: Option<Digest>, body: Body)

  datatype Error =
    | WrongWorksheet | DuplicateWorksheetKey | BadHeader | BadRow
    | DuplicateDecision(key: Key) | IdentityMismatch(key: Key)
    | NotExactlyOnce | BadAction | NoBoard | MixedActions | Immutable(record: Record) | SourceMissing(record: Record)
    | Unmappable(record: Record)

  const SIGNED := "REVIEWED-SIGNED-READY"
  const POLICY := "POLICY-AUTO-DECIDED"

  function ActionOf(text: Option<string>): Option<Action> {
    if text == Some("accept-as-is") then Some(AcceptAsIs)
    else if text == Some("redact-span") then Some(RedactSpan)
    else if text == Some("drop") then Some(Drop)
    else None
  }

  // ----- Reading a decisions file -----

  predicate Hex64(s: string) {
    |s| == 64 && forall i :: 0 <= i < |s| ==> '0' <= s[i] <= '9' || 'a' <= s[i] <= 'f'
  }

  predicate HeaderOk(body: Body, boardId: string) {
    match body
    case Plain(rows) => rows.Some?
    case Entries(status, board, rows, count, reviewedAt, policySha) =>
      && (status == Some(SIGNED) || status == Some(POLICY))
      && board == Some(boardId) && rows.Some? && count == Some(|rows.value|)
      && (status == Some(SIGNED) ==> reviewedAt.Some? && Strip(IsSpace, reviewedAt.value) != "")
      && (status == Some(POLICY) ==> policySha.Some? && Hex64(policySha.value))
  }

  predicate KeysDistinct(entries: seq<Row>) {
    forall i, j :: 0 <= i < j < |entries| ==> entries[i].key != entries[j].key
  }

  predicate HasKey(row: Option<DecisionRow>) {
    row.Some? && row.value.key.Some? && row.value.key.value != ""
  }

  /** A signed row restates what the worksheet says of its key, if the worksheet has it. */
  predicate Restates(row: DecisionRow, w: Worksheet) {
    forall e :: e in w.entries && row.key == Some(e.key) ==>
      row.record == Some(e.record) && row.detail == Some(e.detail)
  }

  predicate RowsOk(rows: seq<Option<DecisionRow>>, w: Worksheet, signed: bool) {
    && (forall i :: 0 <= i < |rows| ==> HasKey(rows[i]) && (signed ==> Restates(rows[i].value, w)))
    && (forall i, j :: 0 <= i < j < |rows| ==> rows[i].value.key != rows[j].value.key)
  }

  function WorksheetKeys(w: Worksheet): set<Key> {
    set e | e in w.entries :: e.key
  }

  function RowKeys(rows: seq<Option<DecisionRow>>): set<Key> {
    set row | row in rows && HasKey(row) :: row.value.key.value
  }

  predicate Acceptable(d: Decisions, w: Worksheet, boardId: string) {
    && d.worksheetSha == w.sha && KeysDistinct(w.entries) && HeaderOk(d.body, boardId)
    && RowsOk(d.body.rows.value, w, d.body.Entries?)
    && RowKeys(d.body.rows.value) == WorksheetKeys(w)
    && forall row :: row in d.body.rows.value ==> ActionOf(row.value.action).Some?
  }

  function Decided(rows: seq<Option<DecisionRow>>, key: Key): Option<Action> {
    if rows == [] then None
    else if rows[0].Some? && rows[0].value.key == Some(key) then ActionOf(rows[0].value.action)
    else Decided(rows[1..], key)
  }

  /** The decision of every key of the worksheet. */
  function DecisionsOf(d: Decisions, w: Worksheet): map<Key, Action>
    requires d.body.rows.Some?
  {
    map k | k in WorksheetKeys(w) && Decided(d.body.rows.value, k).Some? :: Decided(d.body.rows.value, k).value
  }

  lemma {:induction false} DecidedAt(rows: seq<Option<DecisionRow>>, w: Worksheet, signed: bool, i: nat)
    requires RowsOk(rows, w, signed) && i < |rows|
    ensures Decided(rows, rows[i].value.key.value) == ActionOf(rows[i].value.action)
  {
    if i > 0 {
      assert rows[0].value.key != rows[i].value.key;
      DecidedAt(rows[1..], w, signed, i - 1);
    }
  }

  method ReadRows(rows: seq<Option<DecisionRow>>, w: Worksheet, signed: bool)
    returns (r: Result<map<Key, Option<string>>, Error>)
    ensures r.Ok? <==> RowsOk(rows, w, signed)
    ensures r.Ok? ==> r.value.Keys == RowKeys(rows)
    ensures r.Ok? ==> forall row :: row in rows ==>
      row.value.key.value in r.value && r.value[row.value.key.value] == row.value.action
  {
    var m: map<Key, Option<string>> := map[];
    for i := 0 to |rows|
      invariant forall k :: 0 <= k < i ==> HasKey(rows[k]) && (signed ==> Restates(rows[k].value, w))
      invariant forall j, k :: 0 <= j < k < i ==> rows[j].value.key != rows[k].value.key
      invariant forall k :: 0 <= k < i ==>
        rows[k].value.key.value in m && m[rows[k].value.key.value] == rows[k].value.action
      invariant forall key :: key in m ==> exists k :: 0 <= k < i && rows[k].value.key == Some(key)
    {
      if rows[i].None? { return Err(BadRow); }
      var item := rows[i].value;
      if item.key.None? || item.key.value == "" { return Err(BadRow); }
      var key := item.key.value;
      if key in m {
        var k :| 0 <= k < i && rows[k].value.key == Some(key);
        assert rows[k].value.key == rows[i].value.key;
        return Err(DuplicateDecision(key));
      }
      if signed && !Restates(item, w) { return Err(IdentityMismatch(key)); }
      m := m[key := item.action];
    }
    forall key ensures key in m <==> key in RowKeys(rows) {
      if key in m {
        var k :| 0 <= k < |rows| && rows[k].value.key == Some(key);
        assert rows[k] in rows;
      }
    }
    return Ok(m);
  }

  method DecisionMap(d: Decisions, w: Worksheet, boardId: string) returns (r: Result<map<Key, Action>, Error>)
    ensures r.Ok? <==> Acceptable(d, w, boardId)
    ensures r.Ok? ==> r.value == DecisionsOf(d, w) && r.value.Keys == WorksheetKeys(w)
  {
    hide RowsOk, KeysDistinct, RowKeys, WorksheetKeys;
    if d.worksheetSha != w.sha { return Err(WrongWorksheet); }
    if !KeysDistinct(w.entries) { return Err(DuplicateWorksheetKey); }
    if !HeaderOk(d.body, boardId) { return Err(BadHeader); }
    var rows := d.body.rows.value;
    var m := ReadRows(rows, w, d.body.Entries?);
    if m.Err? { return Err(m.error); }
    if m.value.Keys != WorksheetKeys(w) { return Err(NotExactlyOnce); }
    ActionsValid(rows, w, d.body.Entries?, m.value);
    if exists k :: k in m.value && ActionOf(m.value[k]).None? { return Err(BadAction); }
    DecidedAsRead(rows, w, d.body.Entries?, m.value);
    return Ok(map k | k in m.value :: ActionOf(m.value[k]).value);
  }

  lemma DecidedAsRead(rows: seq<Option<DecisionRow>>, w: Worksheet, signed: bool, m: map<Key, Option<string>>)
    requires RowsOk(rows, w, signed) && m.Keys == RowKeys(rows)
    requires forall row :: row in rows ==> row.value.key.value in m && m[row.value.key.value] == row.value.action
    ensures forall k :: k in m ==> Decided(rows, k) == ActionOf(m[k])
  {
    forall k | k in m ensures Decided(rows, k) == ActionOf(m[k]) {
      var row :| row in rows && HasKey(row) && row.value.key.value == k;
      var i :| 0 <= i < |rows| && rows[i] == row;
      DecidedAt(rows, w, signed, i);
    }
  }

  lemma ActionsValid(rows: seq<Option<DecisionRow>>, w: Worksheet, signed: bool, m: map<Key, Option<string>>)
    requires RowsOk(rows, w, signed) && m.Keys == RowKeys(rows)
    requires forall row :: row in rows ==> row.value.key.value in m && m[row.value.key.value] == row.value.action
    ensures (exists k :: k in m && ActionOf(m[k]).None?) <==>
      (exists row :: row in rows && ActionOf(row.value.action).None?)
    ensures forall row :: row in rows ==> HasKey(row)
  {
    forall k | k in m ensures exists row :: row in rows && row.value.key == Some(k) && m[k] == row.value.action {
      var row :| row in rows && HasKey(row) && row.value.key.value == k;
    }
  }

  /** An accepted file has exactly one row for every worksheet row, and no other. */
  lemma CoversExactlyOnce(d: Decisions, w: Worksheet, boardId: string)
    requires Acceptable(d, w, boardId)
    ensures |d.body.rows.value| == |w.entries|
    ensures forall e :: e in w.entries ==>
      exists i :: 0 <= i < |d.body.rows.value| && d.body.rows.value[i].value.key == Some(e.key)
  {
    var rows := d.body.rows.value;
    RowKeysCount(rows, w, d.body.Entries?);
    EntryKeysCount(w.entries, w.sha);
    forall e | e in w.entries ensures exists i :: 0 <= i < |rows| && rows[i].value.key == Some(e.key) {
      assert e.key in WorksheetKeys(w);
      var row :| row in rows && HasKey(row) && row.value.key.value == e.key;
      var i :| 0 <= i < |rows| && rows[i] == row;
    }
  }

  lemma {:induction false} RowKeysCount(rows: seq<Option<DecisionRow>>, w: Worksheet, signed: bool)
    requires RowsOk(rows, w, signed)
    ensures |RowKeys(rows)| == |rows|
  {
    if rows != [] {
      var n := |rows| - 1;
      RowKeysCount(rows[..n], w, signed);
      assert rows == rows[..n] + [rows[n]];
      assert RowKeys(rows) == RowKeys(rows[..n]) + {rows[n].value.key.value};
    }
  }

  lemma {:induction false} EntryKeysCount(entries: seq<Row>, sha: Option<Digest>)
    requires KeysDistinct(entries)
    ensures |WorksheetKeys(Worksheet(sha, entries))| == |entries|
  {
    if entries != [] {
      var n := |entries| - 1;
      EntryKeysCount(entries[..n], sha);
      assert entries == entries[..n] + [entries[n]];
      assert WorksheetKeys(Worksheet(sha, entries)) == WorksheetKeys(Worksheet(sha, entries[..n])) + {entries[n].key};
    }
  }

  // ----- What a decision does to the board -----

  datatype Memory = Memory(id: string, body: Value, keys: seq<Key>)

  datatype Held = Held(body: Value, keys: seq<Key>)

  datatype Content = Content(
    memories: seq<Memory>, agents: map<string, Held>, tickets: map<string, Held>,
    state: Value, artifacts: map<string, Value>)

  /**
   The parts of the importer this rests on. Each mapping gives nothing when the record's shape makes it
   raise; `archiveId` is the identifier an archive row maps to, which its record identifier need not be.
   */
  datatype Env = Env(
    raw: Record -> Option<Value>, redact: (string, Value) -> Option<Value>,
    memoryId: string -> string, mapMemory: (string, Value) -> Option<Value>,
    archiveId: Value -> string, mapArchive: Value -> Option<Value>,
    indexId: string -> string, mapTicket: (string, Value) -> Option<Value>,
    mapState: Value -> Option<Value>)

  function Without(memories: seq<Memory>, id: string): seq<Memory> {
    if memories == [] then []
    else
      var front, last := Without(memories[..|memories| - 1], id), memories[|memories| - 1];
      if last.id == id then front else front + [last]
  }

  /** The board without anything that stands for the record. */
  function Erased(c: Content, r: Record, env: Env): Content {
    if r.kind == "memory" then c.(memories := Without(c.memories, env.memoryId(r.id)))
    else if r.kind == "archive" then c.(memories := Without(c.memories, r.id))
    else if r.kind == "agent" then c.(agents := c.agents - {r.id})
    else if r.kind == "ticket" then
      c.(tickets := c.tickets - {r.id}, memories := Without(c.memories, env.indexId(r.id)))
    else if r.kind == "state" then c.(state := [])
    else c.(artifacts := c.artifacts - {r.id})
  }

  /** Puts the record's value where erasing made room for it. */
  function Placed(c: Content, r: Record, value: Value, keys: seq<Key>, env: Env): Option<Content> {
    if r.kind == "memory" then
      (match env.mapMemory(r.id, value)
       case Some(body) => Some(c.(memories := c.memories + [Memory(env.memoryId(r.id), body, keys)]))
       case None => None)
    else if r.kind == "archive" then
      (match env.mapArchive(value)
       case Some(body) => Some(c.(memories := c.memories + [Memory(env.archiveId(value), body, keys)]))
       case None => None)
    else if r.kind == "agent" then Some(c.(agents := c.agents[r.id := Held(value, keys)]))
    else if r.kind == "ticket" then
      (match env.mapTicket(r.id, value)
       case Some(body) =>
         Some(c.(tickets := c.tickets[r.id := Held(body, keys)],
                 memories := c.memories + [Memory(env.indexId(r.id), [], keys)]))
       case None => None)
    else if r.kind == "state" then
      (match env.mapState(value)
       case Some(body) => Some(c.(state := body))
       case None => None)
    else Some(c.(artifacts := c.artifacts[r.id := value]))
  }

  const KINDS: set<string> := {"memory", "archive", "agent", "ticket", "state", "ticket_artifact"}

  function ApplyRecord(c: Content, r: Record, value: Value, action: Action, keys: seq<Key>, env: Env): Option<Content> {
    if r.kind !in KINDS then None
    else if action == Drop then Some(Erased(c, r, env))
    else Placed(Erased(c, r, env), r, value, keys, env)
  }

  lemma {:induction false} WithoutMembers(memories: seq<Memory>, id: string)
    ensures forall m :: m in Without(memories, id) <==> m.id != id && m in memories
  {
    if memories != [] {
      var n := |memories| - 1;
      WithoutMembers(memories[..n], id);
      assert memories == memories[..n] + [memories[n]];
    }
  }

  lemma {:induction false} WithoutAbsent(memories: seq<Memory>, id: string)
    requires forall m :: m in memories ==> m.id != id
    ensures Without(memories, id) == memories
  {
    if memories != [] {
      var n := |memories| - 1;
      WithoutAbsent(memories[..n], id);
      assert memories == memories[..n] + [memories[n]];
    }
  }

  lemma WithoutTwice(memories: seq<Memory>, id: string)
    ensures Without(Without(memories, id), id) == Without(memories, id)
  {
    WithoutMembers(memories, id);
    WithoutAbsent(Without(memories, id), id);
  }

  lemma WithoutAdded(memories: seq<Memory>, m: Memory)
    ensures Without(Without(memories, m.id) + [m], m.id) == Without(memories, m.id)
  {
    var rest := Without(memories, m.id);
    assert (rest + [m])[..|rest|] == rest;
    WithoutTwice(memories, m.id);
  }

  /** An archive row whose mapped identifier is not its record identifier escapes erasure. */
  predicate Traceable(r: Record, value: Value, env: Env) {
    r.kind == "archive" ==> env.archiveId(value) == r.id
  }

  lemma RemoveAdded<V>(m: map<string, V>, k: string, v: V)
    ensures (m - {k})[k := v] - {k} == m - {k}
    ensures m - {k} - {k} == m - {k}
  {
  }

  lemma ErasePlaced(c: Content, r: Record, value: Value, keys: seq<Key>, env: Env)
    requires r.kind in KINDS && Traceable(r, value, env) && Placed(Erased(c, r, env), r, value, keys, env).Some?
    ensures Erased(Placed(Erased(c, r, env), r, value, keys, env).value, r, env) == Erased(c, r, env)
  {
    hide Without;
    if r.kind == "memory" {
      WithoutAdded(c.memories, Memory(env.memoryId(r.id), env.mapMemory(r.id, value).value, keys));
    } else if r.kind == "archive" {
      WithoutAdded(c.memories, Memory(r.id, env.mapArchive(value).value, keys));
    } else if r.kind == "agent" {
      RemoveAdded(c.agents, r.id, Held(value, keys));
    } else if r.kind == "ticket" {
      WithoutAdded(c.memories, Memory(env.indexId(r.id), [], keys));
      RemoveAdded(c.tickets, r.id, Held(env.mapTicket(r.id, value).value, keys));
    } else if r.kind != "state" {
      RemoveAdded(c.artifacts, r.id, value);
    }
  }

  lemma EraseTwice(c: Content, r: Record, env: Env)
    ensures Erased(Erased(c, r, env), r, env) == Erased(c, r, env)
  {
    hide Without;
    if r.kind == "memory" {
      WithoutTwice(c.memories, env.memoryId(r.id));
    } else if r.kind == "archive" {
      WithoutTwice(c.memories, r.id);
    } else if r.kind == "ticket" {
      WithoutTwice(c.memories, env.indexId(r.id));
    }
  }

  /** The memory such a row was put back as stays when its record is erased. */
  lemma StrayStays(c: Content, r: Record, value: Value, keys: seq<Key>, env: Env)
    requires !Traceable(r, value, env) && Placed(Erased(c, r, env), r, value, keys, env).Some?
    ensures var again := Erased(Placed(Erased(c, r, env), r, value, keys, env).value, r, env);
      |again.memories| == |Erased(c, r, env).memories| + 1
  {
    var rest, m := Without(c.memories, r.id), Memory(env.archiveId(value), env.mapArchive(value).value, keys);
    assert (rest + [m])[..|rest|] == rest;
    WithoutTwice(c.memories, r.id);
  }

  lemma PlacedGrows(c: Content, d: Content, r: Record, value: Value, keys: seq<Key>, env: Env)
    requires |c.memories| != |d.memories| && r.kind == "archive"
    ensures Placed(c, r, value, keys, env) == Placed(d, r, value, keys, env) ==> Placed(c, r, value, keys, env).None?
  {
    match env.mapArchive(value)
    case None =>
    case Some(body) =>
      assert |Placed(c, r, value, keys, env).value.memories| == |c.memories| + 1;
      assert |Placed(d, r, value, keys, env).value.memories| == |d.memories| + 1;
  }

  /**
   Deciding a record again leaves nothing of the earlier decision, and touches nothing but the record, exactly
   unless the earlier one put an archive row back under another identifier.
   */
  lemma LastDecisionWins(c: Content, r: Record, v: Value, a: Action, ks: seq<Key>, v': Value, a': Action, ks': seq<Key>,
                         env: Env)
    requires ApplyRecord(c, r, v, a, ks, env).Some?
    ensures var once := ApplyRecord(c, r, v, a, ks, env).value;
      && (Erased(once, r, env) == Erased(c, r, env) <==> a == Drop || Traceable(r, v, env))
      && (ApplyRecord(once, r, v', a', ks', env) == ApplyRecord(c, r, v', a', ks', env) <==>
            || a == Drop || Traceable(r, v, env)
            || ApplyRecord(c, r, v', a', ks', env).None?)
  {
    hide Erased;
    EraseTwice(c, r, env);
    var once := ApplyRecord(c, r, v, a, ks, env).value;
    if a != Drop {
      if Traceable(r, v, env) {
        ErasePlaced(c, r, v, ks, env);
      } else {
        StrayStays(c, r, v, ks, env);
        PlacedGrows(Erased(once, r, env), Erased(c, r, env), r, v', ks', env);
      }
    }
  }

  /**
   An archive row is identified by a hash of its own identifier or of its contents, and redaction can change either.
   Decided again, with the same action even, such a row is on the board twice.
   */
  lemma RedactedArchiveTwice(c: Content, r: Record, v: Value, ks: seq<Key>, env: Env)
    requires r.kind == "archive" && env.archiveId(v) != r.id && env.mapArchive(v).Some?
    ensures var once := ApplyRecord(c, r, v, RedactSpan, ks, env);
      && once.Some?
      && var twice := ApplyRecord(once.value, r, v, RedactSpan, ks, env);
      && twice.Some?
      && var m := Memory(env.archiveId(v), env.mapArchive(v).value, ks);
      twice.value.memories == Without(c.memories, r.id) + [m, m]
  {
    var rest, m := Without(c.memories, r.id), Memory(env.archiveId(v), env.mapArchive(v).value, ks);
    assert (rest + [m])[..|rest|] == rest;
    WithoutTwice(c.memories, r.id);
    assert rest + [m] + [m] == rest + [m, m];
  }

  // ----- One run -----

  datatype AuditRow = AuditRow(record: Record, keys: seq<Key>, action: Action, event: nat)

  datatype Run = Run(worksheetSha: Option<Digest>, digest: Digest, rows: seq<AuditRow>)

  datatype State = State(present: bool, content: Content, applied: map<Key, Action>, runs: seq<Run>, events: seq<Key>)

  datatype Progress = Progress(content: Content, applied: map<Key, Action>, events: seq<Key>, rows: seq<AuditRow>)

  predicate RecordLeq(a: Record, b: Record) {
    if a.kind != b.kind then Leq(a.kind, b.kind) else Leq(a.id, b.id)
  }

  function RecordOfEntries(entries: seq<Row>): seq<Record> {
    seq(|entries|, i requires 0 <= i < |entries| => entries[i].record)
  }

  function Records(w: Worksheet): seq<Record> {
    Sorting.SortedSet(RecordLeq, RecordOfEntries(w.entries))
  }

  function KeysOf(entries: seq<Row>, r: Record): seq<Key> {
    if entries == [] then []
    else
      var front, last := KeysOf(entries[..|entries| - 1], r), entries[|entries| - 1];
      if last.record == r then front + [last.key] else front
  }

  function KeysFor(w: Worksheet, r: Record): seq<Key> {
    Sorting.Sort(Leq, KeysOf(w.entries, r))
  }

  lemma {:induction false} KeysOfMembers(entries: seq<Row>, r: Record)
    ensures forall k :: k in KeysOf(entries, r) <==> exists e :: e in entries && e.record == r && e.key == k
    ensures KeysDistinct(entries) ==> Sorting.Distinct(KeysOf(entries, r))
  {
    if entries != [] {
      var n := |entries| - 1;
      KeysOfMembers(entries[..n], r);
      assert entries == entries[..n] + [entries[n]];
      if KeysDistinct(entries) {
        var front := KeysOf(entries[..n], r);
        assert KeysDistinct(entries[..n]) && Sorting.Distinct(front);
        forall k | k in front ensures k != entries[n].key {
          var e :| e in entries[..n] && e.record == r && e.key == k;
          var i :| 0 <= i < n && entries[..n][i] == e;
          assert entries[i].key != entries[n].key;
        }
        assert forall i :: 0 <= i < |front| ==> front[i] in front;
      }
    }
  }

  lemma KeysForMembers(w: Worksheet, r: Record)
    ensures forall k :: k in KeysFor(w, r) <==> exists e :: e in w.entries && e.record == r && e.key == k
    ensures KeysDistinct(w.entries) ==> Sorting.Distinct(KeysFor(w, r))
  {
    KeysOfMembers(w.entries, r);
    Sorting.SortMembers(Leq, KeysOf(w.entries, r));
    Sorting.SortDistinct(Leq, KeysOf(w.entries, r));
  }

  lemma RecordOfEntriesMembers(entries: seq<Row>, r: Record)
    ensures r in RecordOfEntries(entries) <==> exists e :: e in entries && e.record == r
  {
    var all := RecordOfEntries(entries);
    if r in all {
      var i :| 0 <= i < |all| && all[i] == r;
      assert entries[i] in entries;
    }
    if exists e :: e in entries && e.record == r {
      var e :| e in entries && e.record == r;
      var i :| 0 <= i < |entries| && entries[i] == e;
      assert all[i] == r;
    }
  }

  lemma RecordsMembers(w: Worksheet)
    ensures forall r :: r in Records(w) <==> exists e :: e in w.entries && e.record == r
    ensures Sorting.Distinct(Records(w))
  {
    hide RecordOfEntries, Sorting.SortedSet;
    Sorting.SortedSetMembers(RecordLeq, RecordOfEntries(w.entries));
    forall r ensures r in Records(w) <==> exists e :: e in w.entries && e.record == r {
      RecordOfEntriesMembers(w.entries, r);
    }
  }

  /** All fields of one record are decided alike. */
  predicate Consistent(w: Worksheet, m: map<Key, Action>) {
    forall e, f :: e in w.entries && f in w.entries && e.record == f.record && e.key in m && f.key in m ==>
      m[e.key] == m[f.key]
  }

  function RecordAction(w: Worksheet, m: map<Key, Action>, r: Record): Action {
    var keys := KeysFor(w, r);
    if keys != [] && keys[0] in m then m[keys[0]] else Drop
  }

  predicate Clashes(applied: map<Key, Action>, keys: seq<Key>, action: Action) {
    exists k :: k in keys && k in applied && applied[k] != action
  }

  function Marked(applied: map<Key, Action>, keys: seq<Key>, action: Action): map<Key, Action> {
    map k | k in applied.Keys + (set x | x in keys) :: if k in keys then action else applied[k]
  }

  function RawRecord(r: Record, env: Env): Option<Value> {
    if r.kind in KINDS then env.raw(r) else None
  }

  function DecidedValue(r: Record, raw: Value, action: Action, env: Env): Option<Value> {
    if action == RedactSpan then env.redact(r.kind, raw) else Some(raw)
  }

  function RecordContent(c: Content, r: Record, action: Action, keys: seq<Key>, env: Env): Option<Content> {
    match RawRecord(r, env)
    case None => None
    case Some(raw) =>
      match DecidedValue(r, raw, action, env)
      case None => None
      case Some(value) => ApplyRecord(c, r, value, action, keys, env)
  }

  function Step(p: Progress, w: Worksheet, m: map<Key, Action>, r: Record, env: Env): Option<Progress> {
    var keys, action := KeysFor(w, r), RecordAction(w, m, r);
    if Clashes(p.applied, keys, action) || keys == [] then None
    else
      match RecordContent(p.content, r, action, keys, env)
      case None => None
      case Some(content) =>
        Some(Progress(content, Marked(p.applied, keys, action), p.events + [keys[0]],
                      p.rows + [AuditRow(r, keys, action, |p.events|)]))
  }

  /** The first `n` records, in order; nothing if one of them cannot be decided. */
  function Steps(s: State, w: Worksheet, m: map<Key, Action>, env: Env, n: nat): Option<Progress>
    requires n <= |Records(w)|
  {
    if n == 0 then Some(Progress(s.content, s.applied, s.events, []))
    else
      match Steps(s, w, m, env, n - 1)
      case None => None
      case Some(p) => Step(p, w, m, Records(w)[n - 1], env)
  }

  datatype Input = Input(w: Worksheet, d: Decisions, digest: Digest, boardId: string)

  predicate Seen(s: State, digest: Digest) {
    exists run :: run in s.runs && run.digest == digest
  }

  predicate Refused(s: State, x: Input, env: Env) {
    || !Acceptable(x.d, x.w, x.boardId)
    || !s.present
    || (!Seen(s, x.digest) &&
        (!Consistent(x.w, DecisionsOf(x.d, x.w)) || Steps(s, x.w, DecisionsOf(x.d, x.w), env, |Records(x.w)|).None?))
  }

  function After(s: State, x: Input, env: Env): State {
    if Refused(s, x, env) || Seen(s, x.digest) then s
    else
      var p := Steps(s, x.w, DecisionsOf(x.d, x.w), env, |Records(x.w)|).value;
      State(true, p.content, p.applied, s.runs + [Run(x.w.sha, x.digest, p.rows)], p.events)
  }

  function Runs(s: State, inputs: seq<Input>, env: Env): State {
    if inputs == [] then s else After(Runs(s, inputs[..|inputs| - 1], env), inputs[|inputs| - 1], env)
  }

  // ----- What a run records -----

  lemma {:induction false} StepsRecord(s: State, w: Worksheet, m: map<Key, Action>, env: Env, n: nat)
    requires n <= |Records(w)| && Steps(s, w, m, env, n).Some?
    ensures var p := Steps(s, w, m, env, n).value;
      && |p.rows| == n && |p.events| == |s.events| + n && s.events <= p.events
      && (forall i :: 0 <= i < n ==>
            var r := Records(w)[i];
            && p.rows[i] == AuditRow(r, KeysFor(w, r), RecordAction(w, m, r), |s.events| + i)
            && KeysFor(w, r) != [] && p.events[|s.events| + i] == KeysFor(w, r)[0])
  {
    hide KeysFor, RecordAction, Records, Clashes, Marked, RecordContent;
    if n > 0 { StepsRecord(s, w, m, env, n - 1); }
  }

  /** No decision on file is ever changed, and a record's keys end up with its action. */
  lemma {:induction false} StepsApply(s: State, w: Worksheet, m: map<Key, Action>, env: Env, n: nat)
    requires n <= |Records(w)| && Steps(s, w, m, env, n).Some?
    ensures var applied := Steps(s, w, m, env, n).value.applied;
      && (forall k :: k in s.applied ==> k in applied && applied[k] == s.applied[k])
      && (forall i, k :: 0 <= i < n && k in KeysFor(w, Records(w)[i]) ==>
            k in applied && applied[k] == RecordAction(w, m, Records(w)[i]))
      && (forall k :: k in applied && k !in s.applied ==> exists i :: 0 <= i < n && k in KeysFor(w, Records(w)[i]))
  {
    hide KeysFor, RecordAction, Records, RecordContent;
    if n > 0 { StepsApply(s, w, m, env, n - 1); }
  }

  /** Every key of the worksheet belongs to exactly one audit row. */
  lemma KeyHasOneRecord(w: Worksheet, k: Key)
    requires KeysDistinct(w.entries) && k in WorksheetKeys(w)
    ensures exists i :: 0 <= i < |Records(w)| && k in KeysFor(w, Records(w)[i])
    ensures forall i, j :: 0 <= i < j < |Records(w)| && k in KeysFor(w, Records(w)[i]) ==>
      k !in KeysFor(w, Records(w)[j])
  {
    hide KeysFor, Records;
    var e :| e in w.entries && e.key == k;
    RecordsMembers(w);
    KeysForMembers(w, e.record);
    assert e.record in Records(w);
    var i :| 0 <= i < |Records(w)| && Records(w)[i] == e.record;
    forall j | 0 <= j < |Records(w)| && k in KeysFor(w, Records(w)[j]) ensures Records(w)[j] == e.record {
      KeysForMembers(w, Records(w)[j]);
      var f :| f in w.entries && f.record == Records(w)[j] && f.key == k;
      var x :| 0 <= x < |w.entries| && w.entries[x] == e;
      var y :| 0 <= y < |w.entries| && w.entries[y] == f;
      assert x == y;
    }
  }

  lemma RecordActionIs(w: Worksheet, m: map<Key, Action>, r: Record, k: Key)
    requires Consistent(w, m) && m.Keys == WorksheetKeys(w) && k in KeysFor(w, r)
    ensures k in m && RecordAction(w, m, r) == m[k]
  {
    hide KeysFor;
    KeysForMembers(w, r);
    var first := KeysFor(w, r)[0];
    assert first in KeysFor(w, r);
    var e :| e in w.entries && e.record == r && e.key == k;
    var f :| f in w.entries && f.record == r && f.key == first;
  }

  ghost predicate Completes(s: State, x: Input, env: Env) {
    !Refused(s, x, env) && !Seen(s, x.digest)
  }

  lemma MapKeys(d: Decisions, w: Worksheet, boardId: string)
    requires Acceptable(d, w, boardId)
    ensures DecisionsOf(d, w).Keys == WorksheetKeys(w)
  {
    var rows := d.body.rows.value;
    forall k | k in WorksheetKeys(w) ensures Decided(rows, k).Some? {
      assert k in RowKeys(rows);
      var row :| row in rows && HasKey(row) && row.value.key.value == k;
      var i :| 0 <= i < |rows| && rows[i] == row;
      DecidedAt(rows, w, d.body.Entries?, i);
    }
  }

  /**
   A completed run has one audit row and one journal event for each top-level record of the worksheet. A row's keys are
   all the record's keys, and each of them is put on file with the row's action, which is the one decided for it.
   */
  lemma RunCovers(s: State, x: Input, env: Env)
    requires Completes(s, x, env)
    ensures var after, records := After(s, x, env), Records(x.w);
      && |after.runs| == |s.runs| + 1 && |after.events| == |s.events| + |records| && s.events <= after.events
      && var rows := after.runs[|s.runs|].rows;
      && |rows| == |records|
      && (forall i :: 0 <= i < |records| ==>
        && rows[i].record == records[i] && rows[i].keys == KeysFor(x.w, records[i]) && rows[i].keys != []
        && rows[i].event == |s.events| + i && after.events[rows[i].event] == rows[i].keys[0])
  {
    hide Refused, Records, KeysFor, RecordAction, DecisionsOf;
    CompletesSteps(s, x, env);
    StepsRecord(s, x.w, DecisionsOf(x.d, x.w), env, |Records(x.w)|);
  }

  lemma CompletesSteps(s: State, x: Input, env: Env)
    requires Completes(s, x, env)
    ensures Acceptable(x.d, x.w, x.boardId) && Consistent(x.w, DecisionsOf(x.d, x.w))
    ensures Steps(s, x.w, DecisionsOf(x.d, x.w), env, |Records(x.w)|).Some?
    ensures var p := Steps(s, x.w, DecisionsOf(x.d, x.w), env, |Records(x.w)|).value;
      After(s, x, env) == State(true, p.content, p.applied, s.runs + [Run(x.w.sha, x.digest, p.rows)], p.events)
  {
    hide Acceptable, Consistent, Steps, Seen;
  }

  /** Every key of the worksheet is on file afterwards with the action decided for it, under one audit row. */
  lemma RunApplies(s: State, x: Input, env: Env, k: Key)
    requires Completes(s, x, env) && k in WorksheetKeys(x.w)
    ensures var after, m := After(s, x, env), DecisionsOf(x.d, x.w);
      && k in m && k in after.applied && after.applied[k] == m[k]
      && |after.runs| > |s.runs|
      && var rows := after.runs[|s.runs|].rows;
      && (exists i :: 0 <= i < |rows| && k in rows[i].keys && rows[i].action == m[k])
      && (forall i, j :: 0 <= i < j < |rows| && k in rows[i].keys ==> k !in rows[j].keys)
  {
    hide Refused, Records, KeysFor, RecordAction, DecisionsOf, WorksheetKeys, Steps, Consistent, Seen, After;
    CompletesSteps(s, x, env);
    var m := DecisionsOf(x.d, x.w);
    MapKeys(x.d, x.w, x.boardId);
    StepsRecord(s, x.w, m, env, |Records(x.w)|);
    StepsApply(s, x.w, m, env, |Records(x.w)|);
    KeyHasOneRecord(x.w, k);
    var i :| 0 <= i < |Records(x.w)| && k in KeysFor(x.w, Records(x.w)[i]);
    RecordActionIs(x.w, m, Records(x.w)[i], k);
  }

  /** Over any runs the map of applied keys only grows, and no key ever changes its action. */
  lemma {:induction false} ActionsStay(s: State, inputs: seq<Input>, env: Env, k: Key)
    requires k in s.applied
    ensures var after := Runs(s, inputs, env);
      k in after.applied && after.applied[k] == s.applied[k]
  {
    hide Refused, Steps, DecisionsOf, Records;
    if inputs != [] {
      var before, x := Runs(s, inputs[..|inputs| - 1], env), inputs[|inputs| - 1];
      ActionsStay(s, inputs[..|inputs| - 1], env, k);
      if Completes(before, x, env) {
        CompletesSteps(before, x, env);
        StepsApply(before, x.w, DecisionsOf(x.d, x.w), env, |Records(x.w)|);
      }
    }
  }

  /** A decisions file that went through changes nothing when it comes again, whatever ran in between. */
  lemma {:induction false} RepeatIsNoop(s: State, x: Input, env: Env, inputs: seq<Input>, again: Input)
    requires Completes(s, x, env) && again.digest == x.digest
    ensures var later := Runs(After(s, x, env), inputs, env);
      Seen(later, x.digest) && After(later, again, env) == later
  {
    hide Refused, Steps, DecisionsOf, Records;
    if inputs == [] {
      CompletesSteps(s, x, env);
      var runs := After(s, x, env).runs;
      assert runs[|s.runs|].digest == x.digest && runs[|s.runs|] in runs;
    } else {
      var before, y := Runs(After(s, x, env), inputs[..|inputs| - 1], env), inputs[|inputs| - 1];
      RepeatIsNoop(s, x, env, inputs[..|inputs| - 1], again);
      var run :| run in before.runs && run.digest == x.digest;
      if Completes(before, y, env) {
        CompletesSteps(before, y, env);
        assert run in After(before, y, env).runs;
      }
    }
  }

  class Board {
    var present: bool
    var content: Content
    var applied: map<Key, Action>
    var runs: seq<Run>
    var events: seq<Key>

    ghost function View(): State
      reads this
    {
      State(present, content, applied, runs, events)
    }

    /** One run, in one transaction: nothing is kept of a run that fails. */
    method ApplyDecisions(x: Input, env: Env) returns (r: Result<Option<nat>, Error>)
      modifies this
      ensures r.Err? <==> Refused(old(View()), x, env)
      ensures r == Ok(None) <==> !Refused(old(View()), x, env) && Seen(old(View()), x.digest)
      ensures View() == After(old(View()), x, env)
      ensures r.Ok? && r.value.Some? ==> r.value.value == |Records(x.w)|
    {
      hide Acceptable, DecisionsOf, Records, Consistent;
      var decisions := DecisionMap(x.d, x.w, x.boardId);
      if decisions.Err? { return Err(decisions.error); }
      if !present { return Err(NoBoard); }
      if exists run :: run in runs && run.digest == x.digest { return Ok(None); }
      var m := decisions.value;
      if !Consistent(x.w, m) { return Err(MixedActions); }
      ghost var s := View();
      var p := Progress(content, applied, events, []);
      var done := DecideRecords(s, p, x.w, m, env);
      if done.Err? { return Err(done.error); }
      p := done.value;
      content, applied, events := p.content, p.applied, p.events;
      runs := runs + [Run(x.w.sha, x.digest, p.rows)];
      return Ok(Some(|p.rows|));
    }
  }

  /** Decides the worksheet's records one after the other, or stops at the first that cannot be. */
  method DecideRecords(ghost s: State, start: Progress, w: Worksheet, m: map<Key, Action>, env: Env)
    returns (r: Result<Progress, Error>)
    requires m.Keys == WorksheetKeys(w)
    requires start == Progress(s.content, s.applied, s.events, [])
    ensures r.Ok? <==> Steps(s, w, m, env, |Records(w)|).Some?
    ensures r.Ok? ==> r.value == Steps(s, w, m, env, |Records(w)|).value && |r.value.rows| == |Records(w)|
  {
    hide Clashes, Marked, KeysFor, ApplyRecord, Records, RawRecord, DecidedValue, RecordAction, WorksheetKeys;
    var records := Records(w);
    var p := start;
    for i := 0 to |records|
      invariant Steps(s, w, m, env, i) == Some(p) && |p.rows| == i
    {
      var record := records[i];
      var keys := KeysFor(w, record);
      FirstKey(w, m, record);
      var action := m[keys[0]];
      if Clashes(p.applied, keys, action) {
        StepsStop(s, w, m, env, i + 1);
        return Err(Immutable(record));
      }
      var raw := RawRecord(record, env);
      if raw.None? {
        StepsStop(s, w, m, env, i + 1);
        return Err(SourceMissing(record));
      }
      var value := DecidedValue(record, raw.value, action, env);
      if value.None? {
        StepsStop(s, w, m, env, i + 1);
        return Err(Unmappable(record));
      }
      var content := ApplyRecord(p.content, record, value.value, action, keys, env);
      if content.None? {
        StepsStop(s, w, m, env, i + 1);
        return Err(Unmappable(record));
      }
      p := Progress(content.value, Marked(p.applied, keys, action), p.events + [keys[0]],
                    p.rows + [AuditRow(record, keys, action, |p.events|)]);
    }
    return Ok(p);
  }

  lemma FirstKey(w: Worksheet, m: map<Key, Action>, r: Record)
    requires m.Keys == WorksheetKeys(w) && r in Records(w)
    ensures KeysFor(w, r) != [] && KeysFor(w, r)[0] in m && RecordAction(w, m, r) == m[KeysFor(w, r)[0]]
  {
    hide KeysFor, Records;
    RecordsMembers(w);
    KeysForMembers(w, r);
    var e :| e in w.entries && e.record == r;
    assert e.key in KeysFor(w, r);
    assert KeysFor(w, r)[0] in KeysFor(w, r);
  }

  lemma {:induction false} StepsStop(s: State, w: Worksheet, m: map<Key, Action>, env: Env, n: nat)
    requires n <= |Records(w)| && Steps(s, w, m, env, n).None?
    ensures Steps(s, w, m, env, |Records(w)|).None?
    decreases |Records(w)| - n
  {
    hide Records, Step;
    if n < |Records(w)| { StepsStop(s, w, m, env, n + 1); }
  }
}
