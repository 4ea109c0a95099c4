/** The string operations the modelled code leans on. */
module Text {
  import Sorting

  predicate StartsWith(s: string, prefix: string) {
    |prefix| <= |s| && s[..|prefix|] == prefix
  }

  /** The characters the modelled `str.strip` removes. */
  predicate IsSpace(c: char) {
    || '\t' <= c <= '\r' || c == ' ' || '\U{1c}' <= c <= '\U{1f}' || c == '\U{85}' || c == '\U{a0}'
    || c == '\U{1680}' || '\U{2000}' <= c <= '\U{200a}' || c == '\U{2028}' || c == '\U{2029}'
    || c == '\U{202f}' || c == '\U{205f}' || c == '\U{3000}'
  }

  function StripLeft(drop: char -> bool, s: string): string {
    if s != "" && drop(s[0]) then StripLeft(drop, s[1..]) else s
  }

  function StripRight(drop: char -> bool, s: string): string {
    if s != "" && drop(s[|s| - 1]) then StripRight(drop, s[..|s| - 1]) else s
  }

  function Strip(drop: char -> bool, s: string): string {
    StripRight(drop, StripLeft(drop, s))
  }

  lemma {:induction false} StripRightKeepsHead(drop: char -> bool, s: string)
    requires s != "" && !drop(s[0])
    ensures StripRight(drop, s) != "" && StripRight(drop, s)[0] == s[0]
  {
    if drop(s[|s| - 1]) { StripRightKeepsHead(drop, s[..|s| - 1]); }
  }

  // ----- Splitting at a separator -----

  function Split(s: string, sep: char): (parts: seq<string>)
    ensures parts != []
  {
    if s == "" then [""]
    else if s[0] == sep then [""] + Split(s[1..], sep)
    else
      var rest := Split(s[1..], sep);
      [[s[0]] + rest[0]] + rest[1..]
  }

  function Join(parts: seq<string>, sep: char): string
    requires parts != []
  {
    if |parts| == 1 then parts[0] else parts[0] + [sep] + Join(parts[1..], sep)
  }

  lemma {:induction false} JoinSplit(s: string, sep: char)
    ensures Join(Split(s, sep), sep) == s
  {
    if s != "" {
      JoinSplit(s[1..], sep);
      var rest := Split(s[1..], sep);
      if s[0] == sep {
        assert ([""] + rest)[1..] == rest;
        assert "" + [sep] + s[1..] == s;
      } else {
        var parts := [[s[0]] + rest[0]] + rest[1..];
        assert parts[1..] == rest[1..];
        if |rest| == 1 {
          assert [s[0]] + s[1..] == s;
        } else {
          assert ([s[0]] + rest[0]) + [sep] + Join(rest[1..], sep) == [s[0]] + s[1..];
        }
      }
    }
  }

  /** A separator is where the parts of the two halves meet. */
  lemma {:induction false} SplitConcat(a: string, b: string, sep: char)
    ensures Split(a + [sep] + b, sep) == Split(a, sep) + Split(b, sep)
  {
    var whole := a + [sep] + b;
    if a == "" {
      assert whole[0] == sep && whole[1..] == b;
    } else {
      assert whole[0] == a[0] && whole[1..] == a[1..] + [sep] + b;
      SplitConcat(a[1..], b, sep);
      SplitStep(a, sep);
      SplitStep(whole, sep);
      AttachConcat(a[0], sep, Split(a[1..], sep), Split(b, sep));
    }
  }

  /** Puts one more character in front of split text. */
  function Attach(c: char, sep: char, parts: seq<string>): seq<string>
    requires parts != []
  {
    if c == sep then [""] + parts else [[c] + parts[0]] + parts[1..]
  }

  lemma SplitStep(s: string, sep: char)
    requires s != ""
    ensures Split(s, sep) == Attach(s[0], sep, Split(s[1..], sep))
  {
  }

  lemma AttachConcat(c: char, sep: char, p: seq<string>, q: seq<string>)
    requires p != []
    ensures Attach(c, sep, p + q) == Attach(c, sep, p) + q
  {
    assert (p + q)[1..] == p[1..] + q;
  }

  lemma {:induction false} JoinConcat(p: seq<string>, q: seq<string>, sep: char)
    requires p != [] && q != []
    ensures Join(p + q, sep) == Join(p, sep) + [sep] + Join(q, sep)
  {
    if |p| == 1 {
      assert (p + q)[1..] == q;
    } else {
      JoinConcat(p[1..], q, sep);
      assert (p + q)[1..] == p[1..] + q;
      assert p[0] + [sep] + (Join(p[1..], sep) + [sep] + Join(q, sep))
        == (p[0] + [sep] + Join(p[1..], sep)) + [sep] + Join(q, sep);
    }
  }

  lemma {:induction false} SplitParts(s: string, sep: char)
    ensures forall p :: p in Split(s, sep) ==> sep !in p
  {
    if s != "" {
      SplitParts(s[1..], sep);
      var rest := Split(s[1..], sep);
      assert rest[0] in rest;
      forall p | p in Split(s, sep) ensures sep !in p {
        assert p in rest || p == "" || p == [s[0]] + rest[0];
      }
    }
  }

  lemma {:induction false} SplitWhole(s: string, sep: char)
    requires sep !in s
    ensures Split(s, sep) == [s]
  {
    if s != "" {
      SplitWhole(s[1..], sep);
      assert [s[0]] + s[1..] == s;
    }
  }

  lemma {:induction false} SplitJoin(parts: seq<string>, sep: char)
    requires parts != [] && forall p :: p in parts ==> sep !in p
    ensures Split(Join(parts, sep), sep) == parts
  {
    SplitWhole(parts[0], sep);
    if |parts| > 1 {
      SplitJoin(parts[1..], sep);
      SplitConcat(parts[0], Join(parts[1..], sep), sep);
    }
  }

  ghost predicate PartsPrefix(a: string, b: string, sep: char) {
    Split(a, sep) < Split(b, sep)
  }

  /** Testing for the prefix `a + sep` on the text is testing for a proper prefix of parts. */
  lemma PrefixOfParts(a: string, b: string, sep: char)
    ensures StartsWith(b, a + [sep]) <==> PartsPrefix(a, b, sep)
  {
    var p, q := Split(a, sep), Split(b, sep);
    if StartsWith(b, a + [sep]) {
      var rest := b[|a| + 1..];
      assert b == a + [sep] + rest;
      SplitConcat(a, rest, sep);
      assert q == p + Split(rest, sep);
    }
    if p < q {
      var rest := q[|p|..];
      assert q == p + rest;
      JoinConcat(p, rest, sep);
      JoinSplit(a, sep);
      JoinSplit(b, sep);
      assert b == (a + [sep]) + Join(rest, sep);
    }
  }

  // ----- Lexicographic order -----

  predicate Leq(a: string, b: string) {
    a == "" || (b != "" && (a[0] < b[0] || (a[0] == b[0] && Leq(a[1..], b[1..]))))
  }

  lemma {:induction false} LeqTotal(a: string, b: string)
    ensures Leq(a, b) || Leq(b, a)
  {
    if a != "" && b != "" && a[0] == b[0] { LeqTotal(a[1..], b[1..]); }
  }

  lemma {:induction false} LeqTransitive(a: string, b: string, c: string)
    requires Leq(a, b) && Leq(b, c)
    ensures Leq(a, c)
  {
    if a != "" && a[0] == b[0] && b[0] == c[0] { LeqTransitive(a[1..], b[1..], c[1..]); }
  }

  lemma {:induction false} LeqAntisymmetric(a: string, b: string)
    requires Leq(a, b) && Leq(b, a)
    ensures a == b
  {
    if a != "" && b != "" {
      LeqAntisymmetric(a[1..], b[1..]);
      assert a == [a[0]] + a[1..] && b == [b[0]] + b[1..];
    }
  }

  lemma LeqIsTotalOrder()
    ensures Sorting.TotalOrder(Leq)
  {
    forall a, b ensures Leq(a, b) || Leq(b, a) { LeqTotal(a, b); }
    forall a, b, c | Leq(a, b) && Leq(b, c) ensures Leq(a, c) { LeqTransitive(a, b, c); }
  }

  lemma {:induction false} PrefixLeq(a: string, b: string)
    requires StartsWith(b, a)
    ensures Leq(a, b)
  {
    if a != "" {
      assert b[1..][..|a| - 1] == b[..|a|][1..];
      PrefixLeq(a[1..], b[1..]);
    }
  }
}
