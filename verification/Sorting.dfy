/** The builtin `sorted` of the modelled language: a stable ascending sort. */
module Sorting {

  ghost predicate TotalOrder<T(!new)>(le: (T, T) -> bool) {
    && (forall x, y :: le(x, y) || le(y, x))
    && (forall x, y, z :: le(x, y) && le(y, z) ==> le(x, z))
  }

  predicate Ascending<T>(le: (T, T) -> bool, s: seq<T>) {
    forall i, j :: 0 <= i < j < |s| ==> le(s[i], s[j])
  }

  function Insert<T>(le: (T, T) -> bool, x: T, s: seq<T>): (r: seq<T>)
    ensures multiset(r) == multiset(s) + multiset{x}
  {
    if s == [] then [x]
    else if le(x, s[0]) then [x] + s
    else
      assert s == [s[0]] + s[1..];
      [s[0]] + Insert(le, x, s[1..])
  }

  function Sort<T>(le: (T, T) -> bool, s: seq<T>): (r: seq<T>)
    ensures multiset(r) == multiset(s)
    ensures |r| == |s|
  {
    if s == [] then []
    else
      assert s == [s[0]] + s[1..];
      assert |multiset(s)| == |s|;
      var r := Insert(le, s[0], Sort(le, s[1..]));
      assert |multiset(r)| == |r|;
      r
  }

  lemma {:induction false} InsertAscending<T(!new)>(le: (T, T) -> bool, x: T, s: seq<T>)
    requires TotalOrder(le) && Ascending(le, s)
    ensures Ascending(le, Insert(le, x, s))
  {
    if s != [] && !le(x, s[0]) {
      InsertAscending(le, x, s[1..]);
      var r := Insert(le, x, s[1..]);
      forall k | 0 <= k < |r| ensures le(s[0], r[k]) {
        assert r[k] in multiset(r);
        assert multiset(s[1..]) + multiset{x} == multiset(r);
        if r[k] != x {
          assert r[k] in s[1..];
        }
      }
    }
  }

  lemma {:induction false} SortAscending<T(!new)>(le: (T, T) -> bool, s: seq<T>)
    requires TotalOrder(le)
    ensures Ascending(le, Sort(le, s))
  {
    if s != [] {
      SortAscending(le, s[1..]);
      InsertAscending(le, s[0], Sort(le, s[1..]));
    }
  }

  /** What is in order already is left as it stands. */
  lemma {:induction false} SortSorted<T>(le: (T, T) -> bool, s: seq<T>)
    requires Ascending(le, s)
    ensures Sort(le, s) == s
  {
    if s != [] { SortSorted(le, s[1..]); }
  }

  /** Sorting neither adds nor loses an element. */
  lemma SortMembers<T>(le: (T, T) -> bool, s: seq<T>)
    ensures forall x :: x in Sort(le, s) <==> x in s
  {
    forall x ensures x in Sort(le, s) <==> x in s {
      assert x in multiset(Sort(le, s)) <==> x in multiset(s);
    }
  }

  ghost predicate Distinct<T>(s: seq<T>) {
    forall i, j :: 0 <= i < j < |s| ==> s[i] != s[j]
  }

  lemma {:induction false} DistinctCounts<T>(s: seq<T>)
    ensures Distinct(s) <==> forall x :: x in s ==> multiset(s)[x] == 1
  {
    if s != [] {
      var n := |s| - 1;
      var front, last := s[..n], s[n];
      assert s == front + [last];
      DistinctCounts(front);
      assert Distinct(s) <==> Distinct(front) && last !in front;
      if Distinct(s) {
        forall x | x in s ensures multiset(s)[x] == 1 { assert x in front || x == last; }
      } else if !Distinct(front) {
        var x :| x in front && multiset(front)[x] != 1;
        assert x in multiset(front) && multiset(s)[x] > 1;
      } else {
        assert last in multiset(front) && multiset(s)[last] > 1;
      }
    }
  }

  lemma SortDistinct<T>(le: (T, T) -> bool, s: seq<T>)
    ensures Distinct(Sort(le, s)) <==> Distinct(s)
  {
    DistinctCounts(s);
    DistinctCounts(Sort(le, s));
    SortMembers(le, s);
  }

  // ----- `sorted(set(...))` -----

  function Unique<T(==)>(s: seq<T>): seq<T> {
    if s == [] then []
    else
      var front := Unique(s[..|s| - 1]);
      if s[|s| - 1] in front then front else front + [s[|s| - 1]]
  }

  function SortedSet<T(==)>(le: (T, T) -> bool, s: seq<T>): seq<T> {
    Sort(le, Unique(s))
  }

  lemma {:induction false} UniqueMembers<T>(s: seq<T>)
    ensures forall x :: x in Unique(s) <==> x in s
    ensures Distinct(Unique(s))
  {
    if s != [] {
      var n := |s| - 1;
      UniqueMembers(s[..n]);
      assert s == s[..n] + [s[n]];
    }
  }

  lemma SortedSetMembers<T>(le: (T, T) -> bool, s: seq<T>)
    ensures forall x :: x in SortedSet(le, s) <==> x in s
    ensures Distinct(SortedSet(le, s))
  {
    UniqueMembers(s);
    SortMembers(le, Unique(s));
    SortDistinct(le, Unique(s));
  }

  lemma {:induction false} SubsetCount<T>(a: set<T>, b: set<T>)
    requires a <= b
    ensures |a| <= |b|
  {
    if a != {} {
      var x :| x in a;
      SubsetCount(a - {x}, b - {x});
    }
  }
}
