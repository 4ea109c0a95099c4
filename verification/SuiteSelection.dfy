/**
 Selecting the test suites a change can affect. Whatever cannot be narrowed down safely escalates
 to the full gate.
 */
module SuiteSelection {
  import opened Wrappers
  import opened Text
  import Sorting

  const MAX_AFFECTED_PATHS := 512
  const GENERATED_REFERENCE_OUTPUTS: set<string> :=
    {"docs/reference/cli.md", "docs/reference/environment.md", "docs/reference/mcp-tools.md"}

  datatype Suite = Suite(name: string, covers: seq<string>)

  datatype ChangeRecord = ChangeRecord(status: string, paths: seq<string>)

  datatype Error = MalformedRecord | BadStatus | NoPaths | TooManyPaths | InvalidPath(path: string)
    | MissingKey(path: string)

  /** Why a selection escalates; `Rule` stands for what the path rules say of one path. */
  datatype Reason =
    | HighRisk
    | MixedGenerated
    | Unmapped(path: string)
    | Rule(text: string)
    | CrossComponent(owners: set<string>)
    | NoNarrowRule

  datatype Selection = Selection(changes: seq<ChangeRecord>, selected: seq<string>, reasons: set<Reason>,
                                 skipped: set<string>)

  // ----- Change records -----

  predicate IsAscii(s: string) {
    forall i :: 0 <= i < |s| ==> s[i] < '\U{80}'
  }

  function PathCount(status: string): nat {
    if StartsWith(status, "R") || StartsWith(status, "C") then 2 else 1
  }

  /** The fields the version-control tool prints for these records. */
  function Fields(records: seq<ChangeRecord>): seq<string> {
    if records == [] then []
    else
      var last := records[|records| - 1];
      Fields(records[..|records| - 1]) + [last.status] + last.paths
  }

  predicate RecordOk(r: ChangeRecord) {
    IsAscii(r.status) && |r.paths| == PathCount(r.status)
  }

  predicate RecordsOk(records: seq<ChangeRecord>) {
    forall i :: 0 <= i < |records| ==> RecordOk(records[i])
  }

  ghost predicate Prints(records: seq<ChangeRecord>, fields: seq<string>) {
    RecordsOk(records) && Fields(records) == fields
  }

  lemma {:induction false} FieldsGrow(records: seq<ChangeRecord>, n: nat)
    requires n <= |records|
    ensures Fields(records[..n]) <= Fields(records)
    decreases |records| - n
  {
    if n == |records| {
      assert records[..n] == records;
    } else {
      FieldsGrow(records, n + 1);
      assert records[..n + 1][..n] == records[..n];
    }
  }

  lemma FieldAt(records: seq<ChangeRecord>, n: nat)
    requires n < |records|
    ensures var at := |Fields(records[..n])|;
      && at + 1 + |records[n].paths| <= |Fields(records)|
      && Fields(records)[..at] == Fields(records[..n])
      && Fields(records)[at] == records[n].status
      && Fields(records)[at + 1..at + 1 + |records[n].paths|] == records[n].paths
  {
    FieldsGrow(records, n + 1);
    assert records[..n + 1][..n] == records[..n];
  }

  /** Two lists of records that print alike up to some point agree up to there. */
  lemma {:induction false} FieldsPrefix(a: seq<ChangeRecord>, b: seq<ChangeRecord>)
    requires RecordsOk(a) && RecordsOk(b) && Fields(a) <= Fields(b)
    ensures a <= b
  {
    hide Fields;
    if a != [] {
      var n := |a| - 1;
      FieldAt(a, n);
      FieldsPrefix(a[..n], b);
      assert b[..|b|] == b && a[..n] == b[..n];
      if n == |b| {
        assert false;
      } else {
        FieldAt(b, n);
        assert a[n].paths == b[n].paths;
      }
    }
  }

  /** Reads the records back; succeeds exactly on what some list of well-formed records prints. */
  method ParseRecords(fields: seq<string>) returns (r: Result<seq<ChangeRecord>, Error>)
    ensures r.Ok? ==> Prints(r.value, fields)
    ensures r.Err? ==> forall records :: !Prints(records, fields)
  {
    var records: seq<ChangeRecord> := [];
    var index := 0;
    while index < |fields|
      invariant index <= |fields| && RecordsOk(records) && Fields(records) == fields[..index]
    {
      var status := fields[index];
      if !IsAscii(status) {
        NoRecords(records, fields, index);
        return Err(BadStatus);
      }
      ghost var start := index;
      index := index + 1;
      var pathCount := PathCount(status);
      if index + pathCount > |fields| {
        NoRecords(records, fields, start);
        return Err(MalformedRecord);
      }
      var paths := fields[index..index + pathCount];
      index := index + pathCount;
      var record := ChangeRecord(status, paths);
      assert (records + [record])[..|records|] == records;
      assert fields[..index] == fields[..start] + [status] + paths;
      records := records + [record];
    }
    assert fields[..index] == fields;
    return Ok(records);
  }

  lemma NoRecords(read: seq<ChangeRecord>, fields: seq<string>, at: nat)
    requires at < |fields| && RecordsOk(read) && Fields(read) == fields[..at]
    requires !IsAscii(fields[at]) || at + 1 + PathCount(fields[at]) > |fields|
    ensures forall records :: !Prints(records, fields)
  {
    forall records ensures !Prints(records, fields) {
      if Prints(records, fields) { RecordAt(read, records, at); }
    }
  }

  lemma RecordAt(read: seq<ChangeRecord>, records: seq<ChangeRecord>, at: nat)
    requires RecordsOk(read) && RecordsOk(records)
    requires at < |Fields(records)| && Fields(read) == Fields(records)[..at]
    ensures IsAscii(Fields(records)[at]) && at + 1 + PathCount(Fields(records)[at]) <= |Fields(records)|
  {
    FieldsPrefix(read, records);
    var n := |read|;
    assert n == |records| ==> read == records;
    if n == |records| {
      assert false;
    } else {
      assert records[..n] == read;
      FieldAt(records, n);
    }
  }

  // ----- Coverage -----

  predicate Slash(c: char) {
    c == '/'
  }

  function Trim(raw: string): string {
    Strip(Slash, Strip(IsSpace, raw))
  }

  predicate ValidPath(raw: string) {
    Trim(raw) != "" && !StartsWith(Trim(raw), "../")
  }

  predicate Within(path: string, prefix: string) {
    prefix != "" && (path == prefix || StartsWith(path, prefix + "/"))
  }

  predicate Covers(suite: Suite, path: string) {
    if path in GENERATED_REFERENCE_OUTPUTS then suite.name == "release-tools"
    else exists prefix :: prefix in suite.covers && Within(path, Strip(Slash, prefix))
  }

  function NamesOf(suites: seq<Suite>, wanted: Suite -> bool): seq<string> {
    if suites == [] then []
    else (if wanted(suites[0]) then [suites[0].name] else []) + NamesOf(suites[1..], wanted)
  }

  function Covering(path: string, suites: seq<Suite>): seq<string> {
    NamesOf(suites, s => Covers(s, path))
  }

  lemma {:induction false} NamesMember(suites: seq<Suite>, wanted: Suite -> bool, name: string)
    ensures name in NamesOf(suites, wanted) <==> exists s :: s in suites && wanted(s) && s.name == name
  {
    if suites != [] {
      NamesMember(suites[1..], wanted, name);
      assert suites == [suites[0]] + suites[1..];
    }
  }

  method CoveringSuites(paths: seq<string>, suites: seq<Suite>) returns (r: Result<map<string, seq<string>>, Error>)
    ensures r.Ok? <==> forall p :: p in paths ==> ValidPath(p)
    ensures r.Ok? ==>
      && (forall k :: k in r.value <==> exists p :: p in paths && Trim(p) == k)
      && (forall k :: k in r.value ==> r.value[k] == Covering(k, suites))
  {
    hide Trim, Covering;
    var result: map<string, seq<string>> := map[];
    for i := 0 to |paths|
      invariant forall p :: p in paths[..i] ==> ValidPath(p)
      invariant forall k :: k in result <==> exists p :: p in paths[..i] && Trim(p) == k
      invariant forall k :: k in result ==> result[k] == Covering(k, suites)
    {
      assert paths[..i + 1] == paths[..i] + [paths[i]];
      var path := Trim(paths[i]);
      if path == "" || StartsWith(path, "../") {
        assert !ValidPath(paths[i]);
        return Err(InvalidPath(paths[i]));
      }
      result := result[path := Covering(path, suites)];
    }
    assert paths[..|paths|] == paths;
    return Ok(result);
  }

  // ----- Trimmed paths -----

  lemma {:induction false} StripRightShrinks(drop: char -> bool, s: string)
    ensures |StripRight(drop, s)| <= |s| && (|StripRight(drop, s)| == |s| ==> StripRight(drop, s) == s)
  {
    if s != "" && drop(s[|s| - 1]) { StripRightShrinks(drop, s[..|s| - 1]); }
  }

  lemma {:induction false} StripLeftShrinks(drop: char -> bool, s: string)
    ensures |StripLeft(drop, s)| <= |s| && (|StripLeft(drop, s)| == |s| ==> StripLeft(drop, s) == s)
  {
    if s != "" && drop(s[0]) { StripLeftShrinks(drop, s[1..]); }
  }

  lemma TrimShrinks(raw: string)
    ensures |Trim(raw)| <= |raw| && (|Trim(raw)| == |raw| ==> Trim(raw) == raw)
  {
    hide StripLeft, StripRight;
    StripLeftShrinks(IsSpace, raw);
    StripRightShrinks(IsSpace, StripLeft(IsSpace, raw));
    var s := Strip(IsSpace, raw);
    StripLeftShrinks(Slash, s);
    StripRightShrinks(Slash, StripLeft(Slash, s));
  }

  function Longest(paths: seq<string>): (n: nat)
    ensures forall p :: p in paths ==> |p| <= n
  {
    if paths == [] then 0
    else
      var n := Longest(paths[1..]);
      assert paths == [paths[0]] + paths[1..];
      if |paths[0]| > n then |paths[0]| else n
  }

  /** If every path is what some path is trimmed to, every path is trimmed: the longest one cannot be otherwise. */
  lemma {:induction false} AllTrimmed(paths: seq<string>, p: string)
    requires forall q :: q in paths ==> exists x :: x in paths && Trim(x) == q
    requires p in paths
    ensures Trim(p) == p
    decreases Longest(paths) - |p|
  {
    hide Trim;
    var x :| x in paths && Trim(x) == p;
    TrimShrinks(x);
    if x != p {
      AllTrimmed(paths, x);
    }
  }

  // ----- Selection -----

  function Named(parts: seq<string>): seq<string> {
    if parts == [] then []
    else (if parts[0] == "" || parts[0] == "." then [] else [parts[0]]) + Named(parts[1..])
  }

  /** The components of a path. */
  function Parts(path: string): seq<string> {
    (if StartsWith(path, "/") then ["/"] else []) + Named(Split(path, '/'))
  }

  function ComponentOwner(path: string): Option<string> {
    var parts := Parts(path);
    if |parts| >= 2 && (parts[0] == "packages" || parts[0] == "tools") then Some(Join(parts[..2], '/')) else None
  }

  function Owners(paths: seq<string>): set<string> {
    set p | p in paths && ComponentOwner(p).Some? :: ComponentOwner(p).value
  }

  predicate Mixed(paths: seq<string>) {
    && (exists p :: p in paths && p in GENERATED_REFERENCE_OUTPUTS)
    && (exists p :: p in paths && p !in GENERATED_REFERENCE_OUTPUTS)
  }

  type Rules = string -> set<string>

  /** The reasons are these and no others. */
  ghost predicate ReasonsAre(reasons: set<Reason>, paths: seq<string>, highRisk: bool, suites: seq<Suite>,
                             rules: Rules) {
    forall reason :: reason in reasons <==> match reason
      case HighRisk => highRisk
      case MixedGenerated => Mixed(paths)
      case Unmapped(p) => p in paths && Covering(p, suites) == []
      case Rule(text) => exists p :: p in paths && text in rules(p)
      case CrossComponent(owners) => owners == Owners(paths) && |owners| > 1
      case NoNarrowRule => false
  }

  function Names(suites: seq<Suite>): seq<string> {
    seq(|suites|, i requires 0 <= i < |suites| => suites[i].name)
  }

  /** The names in `covered`, in the order of the manifest. */
  function Picked(suites: seq<Suite>, covered: set<string>): seq<string> {
    if suites == [] then []
    else (if suites[0].name in covered then [suites[0].name] else []) + Picked(suites[1..], covered)
  }

  function Covered(paths: seq<string>, suites: seq<Suite>): set<string> {
    set p, name | p in paths && name in Covering(p, suites) :: name
  }

  ghost predicate Selects(s: Selection, paths: seq<string>, highRisk: bool, suites: seq<Suite>, rules: Rules) {
    && ReasonsAre(s.reasons, paths, highRisk, suites, rules)
    && s.selected == (if s.reasons != {} then Names(suites) else Picked(suites, Covered(paths, suites)))
    && s.skipped == set x | x in suites && x.name !in s.selected :: x.name
  }

  function AllPaths(records: seq<ChangeRecord>): seq<string> {
    if records == [] then [] else AllPaths(records[..|records| - 1]) + records[|records| - 1].paths
  }

  function ChangedPaths(records: seq<ChangeRecord>): seq<string> {
    Sorting.SortedSet(Leq, AllPaths(records))
  }

  /** The reasons found so far: the first `n` paths have been looked at. */
  ghost predicate ReasonsSoFar(reasons: set<Reason>, paths: seq<string>, n: nat, highRisk: bool, suites: seq<Suite>,
                               rules: Rules)
    requires n <= |paths|
  {
    forall reason :: reason in reasons <==> match reason
      case HighRisk => highRisk
      case MixedGenerated => Mixed(paths)
      case Unmapped(p) => p in paths[..n] && Covering(p, suites) == []
      case Rule(text) => exists p :: p in paths[..n] && text in rules(p)
      case CrossComponent(owners) => false
      case NoNarrowRule => false
  }

  method PathReasons(paths: seq<string>, coverage: map<string, seq<string>>, highRisk: bool, suites: seq<Suite>,
                     rules: Rules)
    returns (r: Result<set<Reason>, Error>)
    requires forall k :: k in coverage ==> coverage[k] == Covering(k, suites)
    ensures r.Ok? <==> forall p :: p in paths ==> p in coverage
    ensures r.Err? ==> r.error.MissingKey? && r.error.path in paths && r.error.path !in coverage
    ensures r.Ok? ==> ReasonsSoFar(r.value, paths, |paths|, highRisk, suites, rules)
  {
    hide Covering;
    var reasons: set<Reason> := {};
    if highRisk { reasons := reasons + {HighRisk}; }
    if Mixed(paths) { reasons := reasons + {MixedGenerated}; }
    for i := 0 to |paths|
      invariant forall p :: p in paths[..i] ==> p in coverage
      invariant ReasonsSoFar(reasons, paths, i, highRisk, suites, rules)
    {
      var path := paths[i];
      assert paths[..i + 1] == paths[..i] + [path];
      if path !in coverage { return Err(MissingKey(path)); }
      if coverage[path] == [] { reasons := reasons + {Unmapped(path)}; }
      reasons := reasons + set text | text in rules(path) :: Rule(text);
    }
    assert paths[..|paths|] == paths;
    return Ok(reasons);
  }

  /**
   The changed paths a selection is made for: within the limit, valid, and already trimmed. A path that
   trimming would change is looked up under a key that is not there.
   */
  predicate Selectable(paths: seq<string>) {
    1 <= |paths| <= MAX_AFFECTED_PATHS && forall p :: p in paths ==> ValidPath(p) && Trim(p) == p
  }

  predicate ValidPaths(paths: seq<string>) {
    1 <= |paths| <= MAX_AFFECTED_PATHS && forall p :: p in paths ==> ValidPath(p)
  }

  lemma CrossAdded(reasons: set<Reason>, paths: seq<string>, highRisk: bool, suites: seq<Suite>, rules: Rules)
    requires ReasonsSoFar(reasons, paths, |paths|, highRisk, suites, rules)
    ensures var owners := Owners(paths);
      ReasonsAre(if |owners| > 1 then reasons + {CrossComponent(owners)} else reasons, paths, highRisk, suites, rules)
  {
    hide Covering, Owners;
    assert paths[..|paths|] == paths;
  }

  method SelectSuites(records: seq<ChangeRecord>, highRisk: bool, suites: seq<Suite>, rules: Rules)
    returns (r: Result<Selection, Error>)
    ensures r.Ok? <==> Selectable(ChangedPaths(records))
    ensures r.Err? && ValidPaths(ChangedPaths(records)) ==> r.error.MissingKey?
    ensures r.Ok? ==> r.value.changes == records
    ensures r.Ok? ==> Selects(r.value, ChangedPaths(records), highRisk, suites, rules)
  {
    hide ValidPath, Trim, Covering, ChangedPaths, Owners, ReasonsAre, ReasonsSoFar, Picked, Names, Covered;
    var paths := ChangedPaths(records);
    if paths == [] { return Err(NoPaths); }
    if |paths| > MAX_AFFECTED_PATHS { return Err(TooManyPaths); }
    var coverage := CoveringSuites(paths, suites);
    if coverage.Err? { return Err(coverage.error); }
    var narrow := PathReasons(paths, coverage.value, highRisk, suites, rules);
    KeysAreTrimmed(paths);
    if narrow.Err? { return Err(narrow.error); }
    var reasons := narrow.value;
    CrossAdded(reasons, paths, highRisk, suites, rules);
    var owners := Owners(paths);
    if |owners| > 1 { reasons := reasons + {CrossComponent(owners)}; }
    var selected := Names(suites);
    if reasons == {} {
      selected := Picked(suites, Covered(paths, suites));
      NothingUnmapped(reasons, paths, highRisk, suites, rules);
      if selected == [] { assert false; }
    }
    return Ok(Selection(records, selected, reasons, set x | x in suites && x.name !in selected :: x.name));
  }

  /** Selects suites for what the version-control tool printed, provided that it parses. */
  method SelectAffected(fields: seq<string>, highRisk: bool, suites: seq<Suite>, rules: Rules)
    returns (r: Result<Selection, Error>)
    ensures r.Ok? ==> Prints(r.value.changes, fields)
    ensures r.Ok? ==> Selects(r.value, ChangedPaths(r.value.changes), highRisk, suites, rules)
    ensures forall records :: Prints(records, fields) ==> (r.Ok? <==> Selectable(ChangedPaths(records)))
  {
    hide Selects, ChangedPaths, Selectable;
    var parsed := ParseRecords(fields);
    if parsed.Err? { return Err(parsed.error); }
    forall records | Prints(records, fields) ensures records == parsed.value {
      SameRecords(records, parsed.value);
    }
    r := SelectSuites(parsed.value, highRisk, suites, rules);
  }

  lemma SameRecords(a: seq<ChangeRecord>, b: seq<ChangeRecord>)
    requires RecordsOk(a) && RecordsOk(b) && Fields(a) == Fields(b)
    ensures a == b
  {
    FieldsPrefix(a, b);
    FieldsPrefix(b, a);
  }

  lemma KeysAreTrimmed(paths: seq<string>)
    ensures (forall p :: p in paths ==> exists x :: x in paths && Trim(x) == p) <==>
      (forall p :: p in paths ==> Trim(p) == p)
  {
    if forall p :: p in paths ==> exists x :: x in paths && Trim(x) == p {
      forall p | p in paths ensures Trim(p) == p { AllTrimmed(paths, p); }
    }
  }

  lemma {:induction false} PickedMembers(suites: seq<Suite>, covered: set<string>)
    ensures forall name :: name in Picked(suites, covered) <==> name in covered && name in Names(suites)
  {
    if suites != [] {
      PickedMembers(suites[1..], covered);
      assert Names(suites) == [suites[0].name] + Names(suites[1..]);
    }
  }

  lemma CoveringInNames(path: string, suites: seq<Suite>, name: string)
    requires name in Covering(path, suites)
    ensures name in Names(suites)
  {
    NamesMember(suites, s => Covers(s, path), name);
    var s :| s in suites && s.name == name;
    var i :| 0 <= i < |suites| && suites[i] == s;
    assert Names(suites)[i] == name;
  }

  /** With no reason to escalate, every path is covered, so something is selected. */
  lemma NothingUnmapped(reasons: set<Reason>, paths: seq<string>, highRisk: bool, suites: seq<Suite>, rules: Rules)
    requires reasons == {} && paths != [] && ReasonsAre(reasons, paths, highRisk, suites, rules)
    ensures Picked(suites, Covered(paths, suites)) != []
  {
    var p := paths[0];
    assert Unmapped(p) !in reasons;
    var name := Covering(p, suites)[0];
    CoveringInNames(p, suites, name);
    PickedMembers(suites, Covered(paths, suites));
    assert name in Covered(paths, suites);
  }

  // ----- What a selection guarantees -----

  /** Nothing is skipped that could matter: without escalation every suite covering a changed path is selected. */
  lemma FailClosed(s: Selection, paths: seq<string>, highRisk: bool, suites: seq<Suite>, rules: Rules)
    requires paths != [] && Selects(s, paths, highRisk, suites, rules)
    ensures s.selected != [] || suites == []
    ensures s.reasons != {} ==> s.selected == Names(suites) && s.skipped == {}
    ensures s.reasons == {} ==>
      && s.selected != []
      && (forall p :: p in paths ==>
            Covering(p, suites) != [] && forall name :: name in Covering(p, suites) ==> name in s.selected)
      && (forall name :: name in s.selected ==> exists p :: p in paths && name in Covering(p, suites))
  {
    hide Covering;
    if s.reasons == {} {
      NothingUnmapped(s.reasons, paths, highRisk, suites, rules);
      PickedMembers(suites, Covered(paths, suites));
      forall p | p in paths
        ensures Covering(p, suites) != [] && forall name :: name in Covering(p, suites) ==> name in s.selected
      {
        assert Unmapped(p) !in s.reasons;
        forall name | name in Covering(p, suites) ensures name in s.selected {
          CoveringInNames(p, suites, name);
        }
      }
    } else {
      forall x | x in suites ensures x.name in Names(suites) {
        var i :| 0 <= i < |suites| && suites[i] == x;
        assert Names(suites)[i] == x.name;
      }
    }
  }

  /** An escalation is never lost by changing more paths. */
  lemma EscalationGrows(a: Selection, ps: seq<string>, b: Selection, qs: seq<string>, hr: bool, hr': bool,
                        suites: seq<Suite>, rules: Rules)
    requires Selects(a, ps, hr, suites, rules) && Selects(b, qs, hr', suites, rules)
    requires (forall p :: p in ps ==> p in qs) && (hr ==> hr')
    requires a.reasons != {}
    ensures b.reasons != {}
  {
    hide Covering, ComponentOwner;
    var reason :| reason in a.reasons;
    match reason
    case HighRisk => assert HighRisk in b.reasons;
    case MixedGenerated => assert MixedGenerated in b.reasons;
    case Unmapped(p) => assert Unmapped(p) in b.reasons;
    case Rule(text) => assert Rule(text) in b.reasons;
    case CrossComponent(owners) =>
      Sorting.SubsetCount(Owners(ps), Owners(qs));
      assert CrossComponent(Owners(qs)) in b.reasons;
    case NoNarrowRule =>
  }

  /** Changing more paths never drops a selected suite, nor an escalation to the full gate. */
  lemma Monotone(a: Selection, ps: seq<string>, b: Selection, qs: seq<string>, hr: bool, hr': bool, suites: seq<Suite>,
                 rules: Rules)
    requires Selects(a, ps, hr, suites, rules) && Selects(b, qs, hr', suites, rules)
    requires (forall p :: p in ps ==> p in qs) && (hr ==> hr')
    ensures a.reasons != {} ==> b.reasons != {}
    ensures forall name :: name in a.selected ==> name in b.selected
  {
    hide Covering, ReasonsAre;
    if a.reasons != {} { EscalationGrows(a, ps, b, qs, hr, hr', suites, rules); }
    PickedMembers(suites, Covered(ps, suites));
    PickedMembers(suites, Covered(qs, suites));
  }

  lemma StripsToA()
    ensures Trim("a ") == "a" && Trim("a ") != "a "
  {
    assert "a "[..1] == "a" && "a "[1] == ' ' && "a "[0] == 'a';
    assert StripLeft(IsSpace, "a ") == "a " && StripRight(IsSpace, "a ") == StripRight(IsSpace, "a");
    assert StripRight(IsSpace, "a") == "a" && Strip(Slash, "a") == "a";
  }

  lemma OneChangedPath(path: string)
    ensures ChangedPaths([ChangeRecord("M", [path])]) == [path]
  {
    var records := [ChangeRecord("M", [path])];
    assert records[..0] == [] && AllPaths(records) == [path];
    var one := [path];
    assert one[..0] == [] && Sorting.Unique(one) == one;
    var sorted := Sorting.SortedSet(Leq, one);
    Sorting.SortedSetMembers(Leq, one);
    assert |sorted| == 1 && sorted[0] in sorted;
  }

  /** A path with a trailing space is valid, and yet no selection is made for it: the lookup of its coverage fails. */
  method SelectUntrimmed(suites: seq<Suite>, rules: Rules) returns (r: Result<Selection, Error>)
    ensures ValidPath("a ") && r.Err? && r.error.MissingKey?
  {
    hide Trim, ChangedPaths;
    StripsToA();
    OneChangedPath("a ");
    assert !StartsWith("a", "../") && ValidPaths(["a "]) && "a " in ["a "];
    r := SelectSuites([ChangeRecord("M", ["a "])], false, suites, rules);
  }
}
