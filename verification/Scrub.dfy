/** The write-time scrub gate: choosing which matched spans to redact, and splicing them out. */
module Scrub {
  import opened Wrappers
  import Sorting

  datatype Violation = Violation(rule: string, start: nat, end: nat, replacement: string)

  /** A rule with its matcher, which yields disjoint non-empty spans from left to right. */
  datatype Rule = Rule(name: string, replacement: string, find: string -> seq<(nat, nat)>)

  datatype Mode = Reject | Redact

  datatype Candidate = Candidate(start: nat, priority: nat, negLength: int, violation: Violation)

  predicate Before(a: Candidate, b: Candidate) {
    || a.start < b.start
    || (a.start == b.start && (a.priority < b.priority || (a.priority == b.priority && a.negLength <= b.negLength)))
  }

  predicate SpansOk(text: string, spans: seq<(nat, nat)>) {
    && (forall i :: 0 <= i < |spans| ==> spans[i].0 < spans[i].1 <= |text|)
    && (forall i, j :: 0 <= i < j < |spans| ==> spans[i].1 <= spans[j].0)
  }

  predicate RulesOk(text: string, rules: seq<Rule>) {
    forall i :: 0 <= i < |rules| ==> SpansOk(text, rules[i].find(text))
  }

  predicate InText(text: string, v: Violation) {
    v.start < v.end <= |text|
  }

  predicate Overlap(a: Violation, b: Violation) {
    a.start < b.end && b.start < a.end
  }

  predicate Disjoint(vs: seq<Violation>) {
    forall i, j :: 0 <= i < j < |vs| ==> vs[i].end <= vs[j].start
  }

  // ----- Candidates -----

  function RuleCandidates(priority: nat, rule: Rule, spans: seq<(nat, nat)>): seq<Candidate> {
    if spans == [] then []
    else
      var (start, end) := spans[|spans| - 1];
      RuleCandidates(priority, rule, spans[..|spans| - 1])
      + [Candidate(start, priority, start as int - end as int, Violation(rule.name, start, end, rule.replacement))]
  }

  function Candidates(text: string, rules: seq<Rule>): seq<Candidate> {
    if rules == [] then []
    else
      Candidates(text, rules[..|rules| - 1])
      + RuleCandidates(|rules| - 1, rules[|rules| - 1], rules[|rules| - 1].find(text))
  }

  ghost predicate CandidateOk(text: string, c: Candidate) {
    InText(text, c.violation) && c.start == c.violation.start && c.negLength == c.start as int - c.violation.end as int
  }

  lemma {:induction false} RuleCandidatesOk(text: string, priority: nat, rule: Rule, spans: seq<(nat, nat)>)
    requires SpansOk(text, spans)
    ensures |RuleCandidates(priority, rule, spans)| == |spans|
    ensures forall i :: 0 <= i < |spans| ==>
      var c := RuleCandidates(priority, rule, spans)[i];
      CandidateOk(text, c) && c.priority == priority && c.start == spans[i].0
  {
    if spans != [] { RuleCandidatesOk(text, priority, rule, spans[..|spans| - 1]); }
  }

  /** No two candidates tie on start and priority, so sorting never has to compare violations. */
  lemma {:induction false} CandidatesOk(text: string, rules: seq<Rule>)
    requires RulesOk(text, rules)
    ensures forall c :: c in Candidates(text, rules) ==> CandidateOk(text, c) && c.priority < |rules|
    ensures forall i, j :: 0 <= i < j < |Candidates(text, rules)| ==>
      var a, b := Candidates(text, rules)[i], Candidates(text, rules)[j];
      a.start != b.start || a.priority != b.priority
  {
    if rules != [] {
      var n := |rules| - 1;
      var front, own := Candidates(text, rules[..n]), RuleCandidates(n, rules[n], rules[n].find(text));
      CandidatesOk(text, rules[..n]);
      RuleCandidatesOk(text, n, rules[n], rules[n].find(text));
      var all := Candidates(text, rules);
      assert all == front + own;
      forall c | c in all ensures CandidateOk(text, c) && c.priority < |rules| { assert c in front || c in own; }
      forall i, j | 0 <= i < j < |all| ensures all[i].start != all[j].start || all[i].priority != all[j].priority {
        if j >= |front| {
          assert all[j] == own[j - |front|];
          if i < |front| { assert all[i] in front; } else { assert all[i] == own[i - |front|]; }
        }
      }
    }
  }

  method CollectCandidates(text: string, rules: seq<Rule>) returns (candidates: seq<Candidate>)
    ensures candidates == Candidates(text, rules)
  {
    candidates := [];
    for priority := 0 to |rules|
      invariant candidates == Candidates(text, rules[..priority])
    {
      var rule := rules[priority];
      var spans := rule.find(text);
      ghost var earlier := candidates;
      for k := 0 to |spans|
        invariant candidates == earlier + RuleCandidates(priority, rule, spans[..k])
      {
        var (start, end) := spans[k];
        assert spans[..k + 1][..k] == spans[..k];
        candidates := candidates
          + [Candidate(start, priority, start as int - end as int, Violation(rule.name, start, end, rule.replacement))];
      }
      assert spans[..|spans|] == spans;
      assert rules[..priority + 1][..priority] == rules[..priority];
    }
    assert rules[..|rules|] == rules;
  }

  // ----- Greedy selection -----

  /** Reference selection: take a candidate when it starts at or after the end of the last one taken. */
  function Greedy(cs: seq<Candidate>): seq<Violation> {
    if cs == [] then []
    else
      var taken, v := Greedy(cs[..|cs| - 1]), cs[|cs| - 1].violation;
      if taken == [] || taken[|taken| - 1].end <= v.start then taken + [v] else taken
  }

  ghost predicate Sorted(text: string, cs: seq<Candidate>) {
    && (forall c :: c in cs ==> CandidateOk(text, c))
    && forall i, j :: 0 <= i < j < |cs| ==> cs[i].start <= cs[j].start
  }

  lemma SortedPrefix(text: string, cs: seq<Candidate>, k: nat)
    requires Sorted(text, cs) && k <= |cs|
    ensures Sorted(text, cs[..k])
  {
    assert forall x :: x in cs[..k] ==> x in cs;
  }

  lemma LastCandidate(text: string, cs: seq<Candidate>)
    requires Sorted(text, cs) && cs != []
    ensures var c := cs[|cs| - 1];
      && InText(text, c.violation) && c.violation.start == c.start
      && (|cs| > 1 ==> cs[..|cs| - 1][|cs| - 2].start <= c.start)
  {
    assert CandidateOk(text, cs[|cs| - 1]);
  }

  ghost predicate Chosen(text: string, taken: seq<Violation>, upto: nat) {
    && Disjoint(taken) && (forall i :: 0 <= i < |taken| ==> InText(text, taken[i]))
    && (taken != [] ==> taken[|taken| - 1].start <= upto)
  }

  lemma ChooseNext(text: string, taken: seq<Violation>, upto: nat, v: Violation)
    requires Chosen(text, taken, upto) && InText(text, v) && upto <= v.start
    ensures taken == [] || taken[|taken| - 1].end <= v.start ==> Chosen(text, taken + [v], v.start)
    ensures Chosen(text, taken, v.start)
  {
    if taken == [] || taken[|taken| - 1].end <= v.start {
      forall i | 0 <= i < |taken| ensures taken[i].end <= v.start {
        assert InText(text, taken[|taken| - 1]);
      }
    }
  }

  lemma {:induction false} GreedyChosen(text: string, cs: seq<Candidate>)
    requires Sorted(text, cs)
    ensures Chosen(text, Greedy(cs), if cs == [] then 0 else cs[|cs| - 1].start)
    ensures cs != [] ==> Greedy(cs) != []
  {
    hide Sorted, Chosen, InText;
    if cs == [] {
      NothingChosen(text);
    } else {
      var front := cs[..|cs| - 1];
      LastCandidate(text, cs);
      SortedPrefix(text, cs, |cs| - 1);
      GreedyChosen(text, front);
      ChooseNext(text, Greedy(front), if front == [] then 0 else front[|front| - 1].start, cs[|cs| - 1].violation);
    }
  }

  lemma NothingChosen(text: string)
    ensures Chosen(text, [], 0)
  {
  }

  /** The selection is ascending and disjoint, and starts no later than the last candidate seen. */
  lemma GreedyDisjoint(text: string, cs: seq<Candidate>)
    requires Sorted(text, cs)
    ensures Disjoint(Greedy(cs))
    ensures forall i :: 0 <= i < |Greedy(cs)| ==> InText(text, Greedy(cs)[i])
    ensures cs != [] ==> Greedy(cs) != [] && Greedy(cs)[|Greedy(cs)| - 1].start <= cs[|cs| - 1].start
  {
    GreedyChosen(text, cs);
  }

  lemma {:induction false} GreedyMembers(cs: seq<Candidate>, v: Violation)
    requires v in Greedy(cs)
    ensures exists c :: c in cs && c.violation == v
  {
    var front, c := cs[..|cs| - 1], cs[|cs| - 1];
    if v in Greedy(front) {
      GreedyMembers(front, v);
      var x :| x in front && x.violation == v;
      assert x in cs;
    } else {
      assert v == c.violation && c in cs;
    }
  }

  /** Whatever was not taken overlaps something that was. */
  lemma {:induction false} GreedyCovers(text: string, cs: seq<Candidate>, k: nat)
    requires Sorted(text, cs) && k < |cs|
    ensures exists i ::
      && 0 <= i < |Greedy(cs)|
      && (Greedy(cs)[i] == cs[k].violation || Overlap(cs[k].violation, Greedy(cs)[i]))
  {
    var n := |cs| - 1;
    var taken, all := Greedy(cs[..n]), Greedy(cs);
    assert all[..|taken|] == taken;
    SortedPrefix(text, cs, n);
    if k < n {
      GreedyCovers(text, cs[..n], k);
      var i :| 0 <= i < |taken| && (taken[i] == cs[k].violation || Overlap(cs[k].violation, taken[i]));
      assert all[i] == taken[i];
    } else {
      GreedyDisjoint(text, cs[..n]);
      assert CandidateOk(text, cs[n]);
      assert all[|all| - 1] == cs[n].violation || Overlap(cs[n].violation, all[|all| - 1]);
    }
  }

  lemma GreedyIsSelection(text: string, cs: seq<Candidate>)
    requires Sorted(text, cs)
    ensures Selection(text, cs, Greedy(cs))
  {
    var vs := Greedy(cs);
    GreedyDisjoint(text, cs);
    forall v | v in vs ensures InText(text, v) && exists c :: c in cs && c.violation == v {
      GreedyMembers(cs, v);
    }
    forall c | c in cs ensures exists v :: v in vs && (v == c.violation || Overlap(c.violation, v)) {
      var k :| 0 <= k < |cs| && cs[k] == c;
      GreedyCovers(text, cs, k);
      var i :| 0 <= i < |vs| && (vs[i] == c.violation || Overlap(c.violation, vs[i]));
      assert vs[i] in vs;
    }
  }

  /** Testing a candidate against every accepted span is testing it against the last one's end. */
  lemma LastIsEnough(text: string, cs: seq<Candidate>, k: nat)
    requires Sorted(text, cs) && k < |cs|
    ensures var taken, v := Greedy(cs[..k]), cs[k].violation;
      (exists a :: a in taken && Overlap(v, a)) <==> taken != [] && taken[|taken| - 1].end > v.start
  {
    var taken, v := Greedy(cs[..k]), cs[k].violation;
    SortedPrefix(text, cs, k);
    GreedyDisjoint(text, cs[..k]);
    assert CandidateOk(text, cs[k]);
    if taken != [] {
      var n := |taken| - 1;
      assert taken[n] in taken && InText(text, taken[n]) && taken[n].start <= cs[k - 1].start <= v.start;
      forall i | 0 <= i < |taken| ensures taken[i].end <= taken[n].end {
        assert InText(text, taken[n]) && (i < n ==> taken[i].end <= taken[n].start);
      }
    }
  }

  predicate ByStart(a: Violation, b: Violation) {
    a.start <= b.start
  }

  lemma BeforeIsTotalOrder()
    ensures Sorting.TotalOrder(Before)
  {
  }

  lemma SortedCandidates(text: string, cs: seq<Candidate>)
    requires forall c :: c in cs ==> CandidateOk(text, c)
    ensures Sorted(text, Sorting.Sort(Before, cs))
  {
    BeforeIsTotalOrder();
    Sorting.SortAscending(Before, cs);
    Sorting.SortMembers(Before, cs);
    var s := Sorting.Sort(Before, cs);
    forall i, j | 0 <= i < j < |s| ensures s[i].start <= s[j].start { assert Before(s[i], s[j]); }
  }

  /** What a list of accepted violations must be. */
  ghost predicate Selection(text: string, cs: seq<Candidate>, vs: seq<Violation>) {
    && Disjoint(vs)
    && (forall v :: v in vs ==> InText(text, v) && exists c :: c in cs && c.violation == v)
    && (forall c :: c in cs ==> exists v :: v in vs && (v == c.violation || Overlap(c.violation, v)))
  }

  /** Accepts candidates in order of start and priority unless they overlap one already accepted. */
  method FindViolations(text: string, rules: seq<Rule>) returns (vs: seq<Violation>)
    requires RulesOk(text, rules)
    ensures Selection(text, Candidates(text, rules), vs)
    ensures vs == Greedy(Sorting.Sort(Before, Candidates(text, rules)))
  {
    hide Candidates, CandidateOk, Sorting.Sort, Before, Sorted, Selection, Overlap, Greedy;
    EmptyGreedy();
    var candidates := CollectCandidates(text, rules);
    CandidatesOk(text, rules);
    SortedCandidates(text, candidates);
    Sorting.SortMembers(Before, candidates);
    var ordered := Sorting.Sort(Before, candidates);
    var accepted: seq<Violation> := [];
    for k := 0 to |ordered|
      invariant accepted == Greedy(ordered[..k])
    {
      var candidate := ordered[k].violation;
      LastIsEnough(text, ordered, k);
      GreedyNext(ordered, k);
      if !(exists a :: a in accepted && Overlap(candidate, a)) { accepted := accepted + [candidate]; }
    }
    assert ordered[..|ordered|] == ordered;
    GreedyIsSelection(text, ordered);
    SelectionReordered(text, candidates, ordered, accepted);
    GreedyDisjoint(text, ordered);
    SortedSelection(text, accepted);
    vs := Sorting.Sort(ByStart, accepted);
  }

  lemma EmptyGreedy()
    ensures Greedy([]) == []
  {
  }

  lemma GreedyNext(cs: seq<Candidate>, k: nat)
    requires k < |cs|
    ensures var taken, v := Greedy(cs[..k]), cs[k].violation;
      Greedy(cs[..k + 1]) == if taken == [] || taken[|taken| - 1].end <= v.start then taken + [v] else taken
  {
    assert cs[..k + 1][..k] == cs[..k];
  }

  lemma SelectionReordered(text: string, cs: seq<Candidate>, cs': seq<Candidate>, vs: seq<Violation>)
    requires Selection(text, cs', vs) && forall c :: c in cs <==> c in cs'
    ensures Selection(text, cs, vs)
  {
  }

  /** Sorting an ascending selection once more leaves it alone. */
  lemma SortedSelection(text: string, vs: seq<Violation>)
    requires Disjoint(vs) && forall i :: 0 <= i < |vs| ==> InText(text, vs[i])
    ensures Sorting.Sort(ByStart, vs) == vs
  {
    forall i, j | 0 <= i < j < |vs| ensures vs[i].start < vs[j].start {
      assert InText(text, vs[i]) && vs[i].end <= vs[j].start;
    }
    Sorting.SortSorted(ByStart, vs);
  }

  // ----- Splicing -----

  function Concat(parts: seq<string>): string {
    if parts == [] then "" else Concat(parts[..|parts| - 1]) + parts[|parts| - 1]
  }

  predicate Covered(vs: seq<Violation>, i: nat) {
    exists k :: 0 <= k < |vs| && vs[k].start <= i < vs[k].end
  }

  /** The characters before `n` that no span covers, in order. */
  function Outside(text: string, vs: seq<Violation>, n: nat): string
    requires n <= |text|
  {
    if n == 0 then "" else Outside(text, vs, n - 1) + if Covered(vs, n - 1) then "" else [text[n - 1]]
  }

  /** Gaps and replacements taken alternately, starting with a gap. */
  function Interleave(gaps: seq<string>, vs: seq<Violation>): string
    requires |gaps| == |vs|
  {
    if gaps == [] then ""
    else Interleave(gaps[..|gaps| - 1], vs[..|vs| - 1]) + gaps[|gaps| - 1] + vs[|vs| - 1].replacement
  }

  function SpanTotal(vs: seq<Violation>): int {
    if vs == [] then 0 else SpanTotal(vs[..|vs| - 1]) + vs[|vs| - 1].end as int - vs[|vs| - 1].start as int
  }

  function ReplacementTotal(vs: seq<Violation>): nat {
    if vs == [] then 0 else ReplacementTotal(vs[..|vs| - 1]) + |vs[|vs| - 1].replacement|
  }

  /** Skipping a span adds nothing; a stretch no span covers is kept whole. */
  lemma {:induction false} OutsideStretch(text: string, vs: seq<Violation>, from: nat, upto: nat)
    requires from <= upto <= |text|
    ensures (forall i :: from <= i < upto ==> Covered(vs, i)) ==> Outside(text, vs, upto) == Outside(text, vs, from)
    ensures (forall i :: from <= i < upto ==> !Covered(vs, i)) ==>
      Outside(text, vs, upto) == Outside(text, vs, from) + text[from..upto]
    decreases upto
  {
    if from < upto {
      OutsideStretch(text, vs, from, upto - 1);
      assert text[from..upto] == text[from..upto - 1] + [text[upto - 1]];
    }
  }

  lemma SpanBounds(text: string, vs: seq<Violation>, k: nat)
    requires Disjoint(vs) && (forall v :: v in vs ==> InText(text, v)) && k < |vs|
    ensures (if k == 0 then 0 else vs[k - 1].end) <= vs[k].start < vs[k].end <= |text|
  {
    assert vs[k] in vs;
  }

  lemma GapUncovered(text: string, vs: seq<Violation>, k: nat, i: nat)
    requires Disjoint(vs) && (forall v :: v in vs ==> InText(text, v)) && k < |vs|
    requires (if k == 0 then 0 else vs[k - 1].end) <= i < vs[k].start
    ensures !Covered(vs, i)
  {
    forall m | 0 <= m < |vs| ensures !(vs[m].start <= i < vs[m].end) {
      if m < k - 1 { assert vs[m].end <= vs[k - 1].start; assert vs[k - 1] in vs; }
      if m > k { assert vs[k].end <= vs[m].start; assert vs[k] in vs; }
    }
  }

  /** The gap before span `k`: uncovered; the span itself: covered. */
  lemma GapThenSpan(text: string, vs: seq<Violation>, k: nat)
    requires Disjoint(vs) && (forall v :: v in vs ==> InText(text, v)) && k < |vs|
    ensures var from := if k == 0 then 0 else vs[k - 1].end;
      && from <= vs[k].start < vs[k].end <= |text|
      && Outside(text, vs, vs[k].end) == Outside(text, vs, from) + text[from..vs[k].start]
  {
    hide Disjoint, InText, Outside;
    var from := if k == 0 then 0 else vs[k - 1].end;
    SpanBounds(text, vs, k);
    forall i | from <= i < vs[k].start ensures !Covered(vs, i) {
      GapUncovered(text, vs, k, i);
    }
    OutsideStretch(text, vs, from, vs[k].start);
    OutsideStretch(text, vs, vs[k].start, vs[k].end);
  }

  lemma NothingAfterLast(text: string, vs: seq<Violation>, i: nat)
    requires Disjoint(vs) && forall v :: v in vs ==> InText(text, v)
    requires vs == [] || vs[|vs| - 1].end <= i
    ensures !Covered(vs, i)
  {
    forall m | 0 <= m < |vs| ensures !(vs[m].start <= i < vs[m].end) {
      assert vs[|vs| - 1] in vs;
      if m < |vs| - 1 { assert vs[m].end <= vs[|vs| - 1].start; }
    }
  }

  lemma TailUncovered(text: string, vs: seq<Violation>)
    requires Disjoint(vs) && forall v :: v in vs ==> InText(text, v)
    ensures var from := if vs == [] then 0 else vs[|vs| - 1].end;
      from <= |text| && Outside(text, vs, |text|) == Outside(text, vs, from) + text[from..]
  {
    hide Covered, Outside, Disjoint;
    var from := if vs == [] then 0 else vs[|vs| - 1].end;
    if vs != [] { assert vs[|vs| - 1] in vs; }
    forall i | from <= i < |text| ensures !Covered(vs, i) { NothingAfterLast(text, vs, i); }
    OutsideStretch(text, vs, from, |text|);
    assert text[from..|text|] == text[from..];
  }

  /**
   Replaces the spans. The output is the gaps between the spans with the replacements put in
   between; the gaps are exactly the uncovered characters in order; nothing else changes length.
   */
  method Splice(text: string, vs: seq<Violation>) returns (output: string, ghost gaps: seq<string>)
    requires Disjoint(vs) && forall v :: v in vs ==> InText(text, v)
    ensures |gaps| == |vs| + 1
    ensures output == Interleave(gaps[..|vs|], vs) + gaps[|vs|]
    ensures Concat(gaps) == Outside(text, vs, |text|)
    ensures |output| == |text| - SpanTotal(vs) + ReplacementTotal(vs)
  {
    hide Covered, Disjoint;
    var pieces: seq<string> := [];
    var cursor := 0;
    gaps := [];
    for k := 0 to |vs|
      invariant cursor == (if k == 0 then 0 else vs[k - 1].end) <= |text|
      invariant |gaps| == k && Concat(pieces) == Interleave(gaps, vs[..k])
      invariant Concat(gaps) == Outside(text, vs, cursor)
      invariant |Concat(pieces)| == cursor - SpanTotal(vs[..k]) + ReplacementTotal(vs[..k])
    {
      GapThenSpan(text, vs, k);
      var gap := text[cursor..vs[k].start];
      assert vs[..k + 1][..k] == vs[..k];
      assert (gaps + [gap])[..k] == gaps;
      var more := pieces + [gap];
      assert more[..|pieces|] == pieces;
      assert (more + [vs[k].replacement])[..|more|] == more;
      pieces := more + [vs[k].replacement];
      gaps := gaps + [gap];
      cursor := vs[k].end;
    }
    TailUncovered(text, vs);
    assert vs[..|vs|] == vs;
    assert (gaps + [text[cursor..]])[..|vs|] == gaps;
    assert (pieces + [text[cursor..]])[..|pieces|] == pieces;
    pieces := pieces + [text[cursor..]];
    gaps := gaps + [text[cursor..]];
    output := Concat(pieces);
  }

  /** The gate: rejects, passes unchanged, or redacts. */
  method ScrubText(text: string, rules: seq<Rule>, mode: Mode)
    returns (r: Result<(string, seq<Violation>), seq<Violation>>, ghost gaps: seq<string>)
    requires RulesOk(text, rules)
    ensures r.Err? <==> mode == Reject && Candidates(text, rules) != []
    ensures r.Ok? ==> Selection(text, Candidates(text, rules), r.value.1)
    ensures r.Ok? && Candidates(text, rules) == [] ==> r.value == (text, [])
    ensures r.Ok? ==>
      && |gaps| == |r.value.1| + 1
      && r.value.0 == Interleave(gaps[..|r.value.1|], r.value.1) + gaps[|r.value.1|]
      && Concat(gaps) == Outside(text, r.value.1, |text|)
  {
    var vs := FindViolations(text, rules);
    ghost var cs := Candidates(text, rules);
    if cs != [] { assert cs[0] in cs; }
    if vs != [] { assert vs[0] in vs; }
    gaps := [text];
    if vs != [] && mode == Reject { return Err(vs), gaps; }
    if vs == [] {
      TailUncovered(text, vs);
      assert Outside(text, vs, 0) == "";
      assert Concat([text][..0]) == "";
      return Ok((text, [])), gaps;
    }
    var output;
    output, gaps := Splice(text, vs);
    r := Ok((output, vs));
  }
}
