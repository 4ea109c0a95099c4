/**
 The transactional document store. One connection holds the write lock for as long as a
 transaction is open, so committed rows only change when that transaction commits; a
 crash loses the open transaction.
 */
module DocumentStore {
  import opened Wrappers

  type Key = string

  datatype Row<D> = Row(doc: D, version: nat)

  type Rows<D> = map<Key, Row<D>>

  /** What happens inside a transaction block; a mutator that returns nothing raises. */
  datatype Stmt<!D> =
    | Modify(key: Key, mutate: Option<D> -> Option<D>)
    | Nested(body: seq<Stmt>)
    | Guarded(body: seq<Stmt>)
    | Raise

  function Lookup<D>(rows: Rows<D>, key: Key): Option<D> {
    if key in rows then Some(rows[key].doc) else None
  }

  function Version<D>(rows: Rows<D>, key: Key): nat {
    if key in rows then rows[key].version else 0
  }

  /** Stores a document: a new row gets version 1, a changed one the next version, an equal one is left alone. */
  function Put<D(==)>(rows: Rows<D>, key: Key, doc: D): Rows<D> {
    if key in rows && rows[key].doc == doc then rows
    else rows[key := Row(doc, Version(rows, key) + 1)]
  }

  // ----- What a block does to the rows it works on -----

  /** Rows after running a block, and whether it ran to its end. */
  function Exec<D(==)>(rows: Rows<D>, body: seq<Stmt<D>>): (Rows<D>, bool)
    decreases body
  {
    if body == [] then (rows, true)
    else
      var (after, ok) := Exec1(rows, body[0]);
      if ok then Exec(after, body[1..]) else (after, false)
  }

  function Exec1<D(==)>(rows: Rows<D>, stmt: Stmt<D>): (Rows<D>, bool)
    decreases stmt
  {
    match stmt
    case Modify(key, mutate) =>
      (match mutate(Lookup(rows, key))
       case Some(doc) => (Put(rows, key, doc), true)
       case None => (rows, false))
    case Nested(body) => Exec(rows, body)
    case Guarded(body) => (Exec(rows, body).0, true)
    case Raise => (rows, false)
  }

  /** The block with every nested transaction dissolved into the one around it. */
  function Flatten<D>(body: seq<Stmt<D>>): seq<Stmt<D>>
    decreases body
  {
    if body == [] then []
    else Flatten1(body[0]) + Flatten(body[1..])
  }

  function Flatten1<D>(stmt: Stmt<D>): seq<Stmt<D>>
    decreases stmt
  {
    match stmt
    case Nested(body) => Flatten(body)
    case Guarded(body) => [Guarded(Flatten(body))]
    case _ => [stmt]
  }

  lemma {:induction false} ExecConcat<D>(rows: Rows<D>, a: seq<Stmt<D>>, b: seq<Stmt<D>>)
    ensures Exec(rows, a + b) == if Exec(rows, a).1 then Exec(Exec(rows, a).0, b) else (Exec(rows, a).0, false)
    decreases |a|
  {
    if a == [] {
      assert a + b == b;
    } else {
      assert (a + b)[0] == a[0] && (a + b)[1..] == a[1..] + b;
      ExecConcat(Exec1(rows, a[0]).0, a[1..], b);
    }
  }

  /** Nesting makes no difference: inner transactions join the outer one. */
  lemma {:induction false} NestedJoins<D>(rows: Rows<D>, body: seq<Stmt<D>>)
    ensures Exec(rows, body) == Exec(rows, Flatten(body))
    decreases body
  {
    if body != [] {
      NestedJoins1(rows, body[0]);
      NestedJoins(Exec1(rows, body[0]).0, body[1..]);
      ExecConcat(rows, Flatten1(body[0]), Flatten(body[1..]));
    }
  }

  lemma {:induction false} NestedJoins1<D>(rows: Rows<D>, stmt: Stmt<D>)
    ensures Exec1(rows, stmt) == Exec(rows, Flatten1(stmt))
    decreases stmt
  {
    match stmt
    case Nested(body) => NestedJoins(rows, body);
    case Guarded(body) =>
      NestedJoins(rows, body);
      var flat := Guarded(Flatten(body));
      assert [flat][1..] == [];
      assert Exec(rows, [flat]) == Exec1(rows, flat);
    case _ =>
      assert [stmt][1..] == [];
      var (after, ok) := Exec1(rows, stmt);
      assert Exec(rows, [stmt]) == if ok then Exec(after, []) else (after, false);
  }

  // ----- Refinement of a plain map -----

  function Plain<D>(rows: Rows<D>): map<Key, D> {
    map k | k in rows :: rows[k].doc
  }

  /** The documents a block writes, in order. */
  function Writes<D(==)>(rows: Rows<D>, body: seq<Stmt<D>>): seq<(Key, D)>
    decreases body
  {
    if body == [] then []
    else
      var (after, ok) := Exec1(rows, body[0]);
      Writes1(rows, body[0]) + if ok then Writes(after, body[1..]) else []
  }

  function Writes1<D(==)>(rows: Rows<D>, stmt: Stmt<D>): seq<(Key, D)>
    decreases stmt
  {
    match stmt
    case Modify(key, mutate) =>
      (match mutate(Lookup(rows, key))
       case Some(doc) => [(key, doc)]
       case None => [])
    case Nested(body) => Writes(rows, body)
    case Guarded(body) => Writes(rows, body)
    case Raise => []
  }

  function PutAll<D(==)>(rows: Rows<D>, ws: seq<(Key, D)>): Rows<D>
    decreases |ws|
  {
    if ws == [] then rows else PutAll(Put(rows, ws[0].0, ws[0].1), ws[1..])
  }

  function PlainAll<D>(docs: map<Key, D>, ws: seq<(Key, D)>): map<Key, D>
    decreases |ws|
  {
    if ws == [] then docs else PlainAll(docs[ws[0].0 := ws[0].1], ws[1..])
  }

  /** How often a plain map's value at `key` is created or changed. */
  function Changes<D(==)>(docs: map<Key, D>, ws: seq<(Key, D)>, key: Key): nat
    decreases |ws|
  {
    if ws == [] then 0
    else
      (if ws[0].0 == key && !(key in docs && docs[key] == ws[0].1) then 1 else 0)
      + Changes(docs[ws[0].0 := ws[0].1], ws[1..], key)
  }

  lemma {:induction false} PutAllConcat<D>(rows: Rows<D>, a: seq<(Key, D)>, b: seq<(Key, D)>)
    ensures PutAll(rows, a + b) == PutAll(PutAll(rows, a), b)
    decreases |a|
  {
    if a == [] {
      assert a + b == b;
    } else {
      assert (a + b)[0] == a[0] && (a + b)[1..] == a[1..] + b;
      PutAllConcat(Put(rows, a[0].0, a[0].1), a[1..], b);
    }
  }

  /** A block's effect is that of its writes alone. */
  lemma {:induction false} ExecIsWrites<D>(rows: Rows<D>, body: seq<Stmt<D>>)
    ensures Exec(rows, body).0 == PutAll(rows, Writes(rows, body))
    decreases body
  {
    if body != [] {
      var (after, ok) := Exec1(rows, body[0]);
      ExecIsWrites1(rows, body[0]);
      if ok {
        ExecIsWrites(after, body[1..]);
        PutAllConcat(rows, Writes1(rows, body[0]), Writes(after, body[1..]));
      } else {
        assert Writes1(rows, body[0]) + [] == Writes1(rows, body[0]);
      }
    }
  }

  lemma {:induction false} ExecIsWrites1<D>(rows: Rows<D>, stmt: Stmt<D>)
    ensures Exec1(rows, stmt).0 == PutAll(rows, Writes1(rows, stmt))
    decreases stmt
  {
    match stmt
    case Modify(key, mutate) =>
      match mutate(Lookup(rows, key)) {
        case Some(doc) =>
          assert [(key, doc)][1..] == [];
          assert PutAll(rows, [(key, doc)]) == PutAll(Put(rows, key, doc), []);
        case None =>
      }
    case Nested(body) => ExecIsWrites(rows, body);
    case Guarded(body) => ExecIsWrites(rows, body);
    case Raise =>
  }

  /** The store is a plain map whose versions count exactly the writes that create or change a document. */
  lemma {:induction false} RefinesPlainMap<D>(rows: Rows<D>, ws: seq<(Key, D)>, key: Key)
    ensures Plain(PutAll(rows, ws)) == PlainAll(Plain(rows), ws)
    ensures Version(PutAll(rows, ws), key) == Version(rows, key) + Changes(Plain(rows), ws, key)
    decreases |ws|
  {
    if ws != [] {
      var next := Put(rows, ws[0].0, ws[0].1);
      assert Plain(next) == Plain(rows)[ws[0].0 := ws[0].1];
      RefinesPlainMap(next, ws[1..], key);
    }
  }

  /** The outermost transaction, committed or rolled back. */
  function Transacted<D(==)>(rows: Rows<D>, body: seq<Stmt<D>>): Rows<D> {
    if Exec(rows, body).1 then Exec(rows, body).0 else rows
  }

  /** All writes or none, nesting dissolved, versions counting changes. */
  lemma TransactionRefinesPlainMap<D>(rows: Rows<D>, body: seq<Stmt<D>>, key: Key)
    ensures Transacted(rows, body) == Transacted(rows, Flatten(body))
    ensures var ws := if Exec(rows, body).1 then Writes(rows, body) else [];
      && Plain(Transacted(rows, body)) == PlainAll(Plain(rows), ws)
      && Version(Transacted(rows, body), key) == Version(rows, key) + Changes(Plain(rows), ws, key)
  {
    NestedJoins(rows, body);
    ExecIsWrites(rows, body);
    RefinesPlainMap(rows, if Exec(rows, body).1 then Writes(rows, body) else [], key);
  }

  // ----- The store itself -----

  class Store<!D(==)> {
    var committed: Rows<D>
    var working: Option<Rows<D>>

    constructor ()
      ensures committed == map[] && working == None
    {
      committed, working := map[], None;
    }

    /** The rows reads and writes go to: the open transaction's, or the committed ones. */
    function Current(): Rows<D>
      reads this
    {
      if working.Some? then working.value else committed
    }

    method Begin()
      requires working.None?
      modifies this
      ensures working == Some(committed) && committed == old(committed)
    {
      working := Some(committed);
    }

    method Commit()
      requires working.Some?
      modifies this
      ensures working.None? && committed == old(working.value)
    {
      committed, working := working.value, None;
    }

    /** Rolling back and crashing come to the same thing. */
    method Rollback()
      modifies this
      ensures working.None? && committed == old(committed)
    {
      working := None;
    }

    method Load(key: Key) returns (doc: Option<D>)
      ensures doc == Lookup(Current(), key)
    {
      var rows := Current();
      doc := if key in rows then Some(rows[key].doc) else None;
    }

    /** One document's read-modify-write, in the open transaction or in one of its own. */
    method ReadModifyWrite(key: Key, mutate: Option<D> -> Option<D>) returns (ok: bool)
      modifies this
      ensures working.Some? <==> old(working.Some?)
      ensures working.Some? ==> committed == old(committed)
      ensures ok == Exec1(old(Current()), Modify(key, mutate)).1
      ensures Current() == Exec1(old(Current()), Modify(key, mutate)).0
    {
      var owned := working.None?;
      if owned { Begin(); }
      var rows := working.value;
      var version := Version(rows, key);
      var replacement := mutate(Lookup(rows, key));
      if replacement.None? {
        if owned { Rollback(); }
        return false;
      }
      if key in rows && replacement.value == rows[key].doc {
        if owned { Commit(); }
        return true;
      }
      if key !in rows {
        working := Some(rows[key := Row(replacement.value, version + 1)]);
      } else {
        if rows[key].version != version { assert false; }
        working := Some(rows[key := Row(replacement.value, version + 1)]);
      }
      if owned { Commit(); }
      ok := true;
    }

    /** A transaction block: outermost it commits or rolls back, nested it joins. */
    method Transaction(body: seq<Stmt<D>>) returns (ok: bool)
      modifies this
      ensures ok == Exec(old(Current()), body).1
      ensures working.Some? <==> old(working.Some?)
      ensures old(working.None?) ==> committed == Transacted(old(committed), body)
      ensures old(working.Some?) ==> committed == old(committed) && Current() == Exec(old(Current()), body).0
      decreases body, 1
    {
      if working.Some? {
        ok := RunBlock(body);
        return;
      }
      Begin();
      ok := RunBlock(body);
      if ok { Commit(); } else { Rollback(); }
    }

    method RunBlock(body: seq<Stmt<D>>) returns (ok: bool)
      requires working.Some?
      modifies this
      ensures working.Some? && committed == old(committed)
      ensures (Current(), ok) == Exec(old(Current()), body)
      decreases body, 0
    {
      var i := 0;
      ghost var rows0 := Current();
      while i < |body|
        invariant i <= |body| && working.Some? && committed == old(committed)
        invariant Exec(rows0, body) == Exec(Current(), body[i..])
      {
        assert body[i..][0] == body[i] && body[i..][1..] == body[i + 1..];
        match body[i] {
          case Modify(key, mutate) => ok := ReadModifyWrite(key, mutate);
          case Nested(inner) => ok := Transaction(inner);
          case Guarded(inner) =>
            var _ := RunBlock(inner);
            ok := true;
          case Raise => ok := false;
        }
        if !ok { return; }
        i := i + 1;
      }
      assert body[i..] == [];
      ok := true;
    }
  }
}
