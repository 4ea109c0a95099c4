/** The wheelhouse lock file and its parser. */
module LockFile {
  import opened Wrappers
  import opened Text
  import Sorting

  const PLATFORM := "# platform: "
  const HASH := "--hash=sha256:"

  datatype Entry = Entry(name: string, version: string, digest: string)

  datatype Section = Section(tag: string, entries: seq<Entry>)

  type Headers = map<string, string>

  /** Sections in the order in which the parser met them; tags are distinct. */
  datatype Lock = Lock(headers: Headers, sections: seq<Section>)

  predicate NameChar(c: char) {
    'A' <= c <= 'Z' || 'a' <= c <= 'z' || '0' <= c <= '9' || c == '_' || c == '.' || c == '-'
  }

  predicate VersionChar(c: char) {
    !IsSpace(c) && c != '\\'
  }

  predicate HexChar(c: char) {
    '0' <= c <= '9' || 'a' <= c <= 'f'
  }

  predicate IsBreak(c: char) {
    '\n' <= c <= '\r' || '\U{1c}' <= c <= '\U{1e}' || c == '\U{85}' || c == '\U{2028}' || c == '\U{2029}'
  }

  predicate All(p: char -> bool, s: string) {
    forall i :: 0 <= i < |s| ==> p(s[i])
  }

  predicate InLine(c: char) {
    !IsBreak(c)
  }

  predicate OneLine(s: string) {
    All(InLine, s)
  }

  // ----- Normalized names -----

  predicate Separator(c: char) {
    c == '-' || c == '_' || c == '.'
  }

  function Lower(c: char): char {
    if 'A' <= c <= 'Z' then (c as int + 32) as char else c
  }

  /** Runs of separators become one dash, letters become lower case. */
  function Normalize(name: string): string {
    if name == "" then ""
    else
      var rest := Normalize(name[1..]);
      if !Separator(name[0]) then [Lower(name[0])] + rest
      else if |name| > 1 && Separator(name[1]) then rest
      else "-" + rest
  }

  lemma {:induction false} NormalizeHead(name: string)
    requires name != ""
    ensures Normalize(name) != "" && (Separator(Normalize(name)[0]) <==> Separator(name[0]))
  {
    if Separator(name[0]) && |name| > 1 && Separator(name[1]) { NormalizeHead(name[1..]); }
  }

  lemma {:induction false} NormalizeIdempotent(name: string)
    ensures Normalize(Normalize(name)) == Normalize(name)
  {
    if name != "" {
      var rest := Normalize(name[1..]);
      NormalizeIdempotent(name[1..]);
      if |name| > 1 { NormalizeHead(name[1..]); }
      if !Separator(name[0]) {
        assert ([Lower(name[0])] + rest)[1..] == rest;
      } else if !(|name| > 1 && Separator(name[1])) {
        assert ("-" + rest)[1..] == rest;
      }
    }
  }

  lemma {:induction false} NormalizeChars(name: string)
    requires All(NameChar, name)
    ensures All(NameChar, Normalize(name))
    ensures name != "" ==> Normalize(name) != ""
  {
    if name != "" {
      NormalizeHead(name);
      assert forall i :: 0 <= i < |name[1..]| ==> name[1..][i] == name[i + 1];
      NormalizeChars(name[1..]);
    }
  }

  // ----- One entry line -----

  /** The length of the longest prefix of `s` in a character class. */
  function Span(p: char -> bool, s: string): (n: nat)
    ensures n <= |s| && All(p, s[..n]) && (n < |s| ==> !p(s[n]))
  {
    if s == "" || !p(s[0]) then 0
    else
      var n := Span(p, s[1..]);
      assert s[..n + 1] == [s[0]] + s[1..][..n];
      n + 1
  }

  lemma {:induction false} SpanIs(p: char -> bool, a: string, b: string)
    requires All(p, a) && (b != "" ==> !p(b[0]))
    ensures Span(p, a + b) == |a| && (a + b)[..|a|] == a && (a + b)[|a|..] == b
  {
    if a == "" {
      assert a + b == b;
    } else {
      assert forall i :: 0 <= i < |a| - 1 ==> a[1..][i] == a[i + 1];
      SpanIs(p, a[1..], b);
      assert (a + b)[1..] == a[1..] + b;
    }
  }

  function MatchVersion(name: string, s: string): Option<Entry> {
    var v := Span(VersionChar, s);
    var rest := s[v..];
    var k := Span(IsSpace, rest);
    var tail := rest[k..];
    if v == 0 || k == 0 || !StartsWith(tail, HASH) then None
    else
      var digest := tail[|HASH|..];
      if |digest| == 64 && All(HexChar, digest) then Some(Entry(name, s[..v], digest)) else None
  }

  /** A full match of `name==version --hash=sha256:digest`. */
  function MatchLine(line: string): Option<Entry> {
    var n := Span(NameChar, line);
    if n == 0 || !StartsWith(line[n..], "==") then None else MatchVersion(line[..n], line[n + 2..])
  }

  predicate VersionOk(e: Entry) {
    && e.version != "" && All(VersionChar, e.version)
    && |e.digest| == 64 && All(HexChar, e.digest)
  }

  /** What an entry's three fields look like, however they are spaced. */
  predicate WellFormed(e: Entry) {
    e.name != "" && All(NameChar, e.name) && VersionOk(e)
  }

  function Spaced(e: Entry, spaces: string): string {
    e.name + ("==" + (e.version + (spaces + (HASH + e.digest))))
  }

  function RenderEntry(e: Entry): string {
    Spaced(e, " ")
  }

  lemma VersionOnlySpaced(name: string, s: string) returns (spaces: string)
    requires MatchVersion(name, s).Some?
    ensures var e := MatchVersion(name, s).value;
      e.name == name && VersionOk(e) && spaces != "" && All(IsSpace, spaces)
      && s == e.version + (spaces + (HASH + e.digest))
  {
    hide All, IsSpace, VersionChar, HexChar;
    var v := Span(VersionChar, s);
    var k := Span(IsSpace, s[v..]);
    spaces := s[v..][..k];
    var tail := s[v..][k..];
    assert s == s[..v] + s[v..];
    assert s[v..] == spaces + tail;
    assert tail == HASH + tail[|HASH|..];
  }

  /** A line that matches is a well-formed entry written out with some spaces... */
  lemma MatchesOnlySpaced(line: string) returns (spaces: string)
    requires MatchLine(line).Some?
    ensures var e := MatchLine(line).value;
      WellFormed(e) && spaces != "" && All(IsSpace, spaces) && line == Spaced(e, spaces)
  {
    hide All, IsSpace, MatchVersion;
    var n := Span(NameChar, line);
    var s := line[n + 2..];
    spaces := VersionOnlySpaced(line[..n], s);
    assert line == line[..n] + ("==" + s) by { assert line[n..][..2] == "=="; }
  }

  lemma VersionMatches(e: Entry, spaces: string)
    requires VersionOk(e) && spaces != "" && All(IsSpace, spaces)
    ensures MatchVersion(e.name, e.version + (spaces + (HASH + e.digest))) == Some(e)
  {
    var tail := HASH + e.digest;
    var afterVersion := spaces + tail;
    assert afterVersion[0] == spaces[0];
    SpanIs(VersionChar, e.version, afterVersion);
    SpanIs(IsSpace, spaces, tail);
    assert tail[..|HASH|] == HASH && tail[|HASH|..] == e.digest;
  }

  /** ... and every such line matches, as that entry. */
  lemma SpacedMatches(e: Entry, spaces: string)
    requires WellFormed(e) && spaces != "" && All(IsSpace, spaces)
    ensures MatchLine(Spaced(e, spaces)) == Some(e)
  {
    hide VersionOk, MatchVersion, IsSpace;
    VersionMatches(e, spaces);
    var s := e.version + (spaces + (HASH + e.digest));
    SpanIs(NameChar, e.name, "==" + s);
    assert ("==" + s)[..2] == "==" && Spaced(e, spaces)[|e.name| + 2..] == s;
  }

  function ParsedLine(line: string): Option<Entry> {
    match MatchLine(line)
    case None => None
    case Some(e) => Some(Entry(Normalize(e.name), e.version, e.digest))
  }

  predicate EntriesParse(lines: seq<string>) {
    && lines != []
    && (forall k :: 0 <= k < |lines| ==> ParsedLine(lines[k]).Some?)
    && (forall j, k :: 0 <= j < k < |lines| ==> ParsedLine(lines[j]).value.name != ParsedLine(lines[k]).value.name)
  }

  function Parsed(lines: seq<string>): seq<Entry>
    requires forall k :: 0 <= k < |lines| ==> ParsedLine(lines[k]).Some?
  {
    seq(|lines|, k requires 0 <= k < |lines| => ParsedLine(lines[k]).value)
  }

  method ParseEntries(lines: seq<string>) returns (r: Option<seq<Entry>>)
    ensures r.Some? <==> EntriesParse(lines)
    ensures r.Some? ==> r.value == Parsed(lines)
  {
    hide MatchLine, Normalize;
    var entries: seq<Entry> := [];
    var names: set<string> := {};
    for i := 0 to |lines|
      invariant |entries| == i
      invariant forall k :: 0 <= k < i ==> ParsedLine(lines[k]) == Some(entries[k])
      invariant forall k :: 0 <= k < i ==> entries[k].name in names
      invariant forall n :: n in names ==> exists k :: 0 <= k < i && entries[k].name == n
      invariant forall j, k :: 0 <= j < k < i ==> entries[j].name != entries[k].name
    {
      var matched := MatchLine(lines[i]);
      if matched.None? {
        assert ParsedLine(lines[i]).None?;
        return None;
      }
      var normalized := Normalize(matched.value.name);
      if normalized in names {
        var k :| 0 <= k < i && entries[k].name == normalized;
        assert ParsedLine(lines[k]).value.name == ParsedLine(lines[i]).value.name;
        return None;
      }
      names := names + {normalized};
      entries := entries + [Entry(normalized, matched.value.version, matched.value.digest)];
    }
    if entries == [] { return None; }
    return Some(entries);
  }

  // ----- Lines and headers -----

  function SplitLines(text: string): seq<string> {
    if text == "" then []
    else
      var n := Span(InLine, text);
      if n == |text| then [text] else [text[..n]] + SplitLines(text[n + 1..])
  }

  function TextOf(lines: seq<string>): string
    requires lines != []
  {
    Join(lines, '\n') + "\n"
  }

  lemma SplitFirst(line: string, rest: string)
    requires OneLine(line)
    ensures SplitLines(line + ("\n" + rest)) == [line] + SplitLines(rest)
  {
    var text := line + ("\n" + rest);
    SpanIs(InLine, line, "\n" + rest);
    assert text[|line| + 1..] == rest;
  }

  lemma {:induction false} SplitLinesOfText(lines: seq<string>)
    requires lines != [] && forall i :: 0 <= i < |lines| ==> OneLine(lines[i])
    ensures SplitLines(TextOf(lines)) == lines
  {
    hide OneLine;
    var rest := if |lines| == 1 then "" else TextOf(lines[1..]);
    assert TextOf(lines) == lines[0] + ("\n" + rest);
    SplitFirst(lines[0], rest);
    if |lines| > 1 { SplitLinesOfText(lines[1..]); }
  }

  /** Where the first `: ` starts, or the length if there is none. */
  function ColonAt(s: string): (n: nat)
    ensures n <= |s|
  {
    if s == "" || StartsWith(s, ": ") then 0 else 1 + ColonAt(s[1..])
  }

  function HeaderOf(line: string): Option<(string, string)> {
    if !StartsWith(line, "# ") then None
    else
      var s := line[2..];
      var n := ColonAt(s);
      if n + 2 <= |s| then Some((s[..n], s[n + 2..])) else None
  }

  function HeadersOf(lines: seq<string>): Headers {
    if lines == [] then map[]
    else
      var headers := HeadersOf(lines[..|lines| - 1]);
      match HeaderOf(lines[|lines| - 1])
      case None => headers
      case Some((key, value)) => headers[key := value]
  }

  function Get(headers: Headers, key: string): Option<string> {
    if key in headers then Some(headers[key]) else None
  }

  method LockHeaders(lines: seq<string>) returns (headers: Headers)
    ensures headers == HeadersOf(lines)
  {
    headers := map[];
    for i := 0 to |lines|
      invariant headers == HeadersOf(lines[..i])
    {
      assert lines[..i + 1][..i] == lines[..i];
      match HeaderOf(lines[i]) {
        case None =>
        case Some((key, value)) => headers := headers[key := value];
      }
    }
    assert lines[..|lines|] == lines;
  }

  // ----- Sections -----

  datatype Block = Block(tag: string, lines: seq<string>)

  /** A lock cut at its platform lines; `stray` if an entry stands before the first of them. */
  datatype Cut = Cut(stray: bool, blocks: seq<Block>)

  predicate IsEntryLine(line: string) {
    line != "" && line[0] != '#'
  }

  function Step(cut: Cut, raw: string): Cut {
    var line := Strip(IsSpace, raw);
    if StartsWith(line, PLATFORM) then cut.(blocks := cut.blocks + [Block(line[|PLATFORM|..], [])])
    else if !IsEntryLine(line) then cut
    else if cut.blocks == [] then cut.(stray := true)
    else
      var last := cut.blocks[|cut.blocks| - 1];
      cut.(blocks := cut.blocks[..|cut.blocks| - 1] + [last.(lines := last.lines + [line])])
  }

  function CutLines(lines: seq<string>): Cut {
    if lines == [] then Cut(false, []) else Step(CutLines(lines[..|lines| - 1]), lines[|lines| - 1])
  }

  predicate BlocksParse(blocks: seq<Block>) {
    && (forall k :: 0 <= k < |blocks| ==> EntriesParse(blocks[k].lines))
    && (forall j, k :: 0 <= j < k < |blocks| ==> blocks[j].tag != blocks[k].tag)
  }

  predicate CutParses(cut: Cut) {
    !cut.stray && cut.blocks != [] && BlocksParse(cut.blocks)
  }

  function ParsedBlocks(blocks: seq<Block>): seq<Section>
    requires BlocksParse(blocks)
  {
    seq(|blocks|, k requires 0 <= k < |blocks| => Section(blocks[k].tag, Parsed(blocks[k].lines)))
  }

  function LegacyLines(lines: seq<string>): seq<string> {
    if lines == [] then []
    else
      var line := Strip(IsSpace, lines[0]);
      (if line != "" && !StartsWith(lines[0], "#") then [line] else []) + LegacyLines(lines[1..])
  }

  predicate IsLegacy(headers: Headers, allowLegacy: bool) {
    Get(headers, "schema") == Some("1") && allowLegacy
  }

  /** The locks the parser accepts. */
  predicate Accepted(lines: seq<string>, allowLegacy: bool) {
    var headers := HeadersOf(lines);
    if IsLegacy(headers, allowLegacy) then
      "platform" in headers && headers["platform"] != "" && EntriesParse(LegacyLines(lines))
    else
      Get(headers, "schema") == Some("2") && CutParses(CutLines(lines))
  }

  function SectionsOf(lines: seq<string>, allowLegacy: bool): seq<Section>
    requires Accepted(lines, allowLegacy)
  {
    var headers := HeadersOf(lines);
    if IsLegacy(headers, allowLegacy) then [Section(headers["platform"], Parsed(LegacyLines(lines)))]
    else ParsedBlocks(CutLines(lines).blocks)
  }

  predicate Grows(a: Cut, b: Cut) {
    && (a.stray ==> b.stray) && |a.blocks| <= |b.blocks|
    && forall k :: 0 <= k < |a.blocks| ==>
      a.blocks[k].tag == b.blocks[k].tag && (k < |a.blocks| - 1 ==> a.blocks[k] == b.blocks[k])
  }

  lemma StepGrows(cut: Cut, raw: string)
    ensures Grows(cut, Step(cut, raw))
  {
    hide Strip;
  }

  /** Reading on never takes back a stray entry or a block that is already closed. */
  lemma {:induction false} CutGrows(lines: seq<string>, i: nat)
    requires i <= |lines|
    ensures Grows(CutLines(lines[..i]), CutLines(lines))
    decreases |lines| - i
  {
    hide Step;
    if i == |lines| {
      assert lines[..i] == lines;
    } else {
      CutGrows(lines, i + 1);
      assert lines[..i + 1][..i] == lines[..i];
      StepGrows(CutLines(lines[..i]), lines[i]);
    }
  }

  predicate HasTag(sections: seq<Section>, tag: string) {
    exists k :: 0 <= k < |sections| && sections[k].tag == tag
  }

  /** Closes the section being read. */
  method CloseSection(sections: seq<Section>, tag: string, lines: seq<string>) returns (r: Option<seq<Section>>)
    ensures r.Some? <==> !HasTag(sections, tag) && EntriesParse(lines)
    ensures r.Some? ==> r.value == sections + [Section(tag, Parsed(lines))]
  {
    if HasTag(sections, tag) { return None; }
    var entries := ParseEntries(lines);
    if entries.None? { return None; }
    return Some(sections + [Section(tag, entries.value)]);
  }

  lemma CloseParses(blocks: seq<Block>, last: Block)
    requires BlocksParse(blocks)
    ensures BlocksParse(blocks + [last]) <==> !HasTag(ParsedBlocks(blocks), last.tag) && EntriesParse(last.lines)
    ensures BlocksParse(blocks + [last]) ==>
      ParsedBlocks(blocks + [last]) == ParsedBlocks(blocks) + [Section(last.tag, Parsed(last.lines))]
  {
    var more := blocks + [last];
    assert more[|blocks|] == last;
    var sections := ParsedBlocks(blocks);
    if HasTag(sections, last.tag) {
      var k :| 0 <= k < |sections| && sections[k].tag == last.tag;
      assert more[k].tag == more[|blocks|].tag;
    } else {
      forall k | 0 <= k < |blocks| ensures blocks[k].tag != last.tag {
        assert sections[k].tag == blocks[k].tag;
      }
    }
  }

  lemma PrefixParses(blocks: seq<Block>, more: seq<Block>)
    requires blocks <= more && BlocksParse(more)
    ensures BlocksParse(blocks)
  {
    forall k | 0 <= k < |blocks| ensures EntriesParse(blocks[k].lines) {
      assert blocks[k] == more[k];
    }
    forall j, k | 0 <= j < k < |blocks| ensures blocks[j].tag != blocks[k].tag {
      assert blocks[j] == more[j] && blocks[k] == more[k];
    }
  }

  lemma {:induction false} StripRightEnds(s: string)
    ensures var t := StripRight(IsSpace, s);
      t <= s && (t != "" ==> !IsSpace(t[|t| - 1]))
  {
    if s != "" && IsSpace(s[|s| - 1]) {
      StripRightEnds(s[..|s| - 1]);
    }
  }

  /** Stripping leaves no trailing space, so a platform line never has an empty tag. */
  lemma PlatformTagNonEmpty(raw: string)
    requires StartsWith(Strip(IsSpace, raw), PLATFORM)
    ensures Strip(IsSpace, raw)[|PLATFORM|..] != ""
  {
    StripRightEnds(StripLeft(IsSpace, raw));
    var line := Strip(IsSpace, raw);
    assert IsSpace(PLATFORM[|PLATFORM| - 1]) && !IsSpace(line[|line| - 1]);
    assert |line| == |PLATFORM| ==> line == PLATFORM;
  }

  lemma StrayRefuses(lines: seq<string>, i: nat)
    requires i <= |lines| && CutLines(lines[..i]).stray
    ensures !CutParses(CutLines(lines))
  {
    CutGrows(lines, i);
  }

  lemma ClosedRefuses(lines: seq<string>, i: nat, closed: seq<Block>)
    requires i <= |lines| && CutLines(lines[..i]).blocks != []
    requires closed == CutLines(lines[..i]).blocks[..|CutLines(lines[..i]).blocks| - 1] && !BlocksParse(closed)
    ensures !CutParses(CutLines(lines))
  {
    hide BlocksParse, Step;
    CutGrows(lines, i);
    if BlocksParse(CutLines(lines).blocks) { PrefixParses(closed, CutLines(lines).blocks); }
  }

  lemma CutNext(lines: seq<string>, i: nat)
    requires i < |lines|
    ensures CutLines(lines[..i + 1]) == Step(CutLines(lines[..i]), lines[i])
  {
    assert lines[..i + 1][..i] == lines[..i];
  }

  method ReadSections(lines: seq<string>) returns (r: Option<seq<Section>>)
    ensures r.Some? <==> CutParses(CutLines(lines))
    ensures r.Some? ==> r.value == ParsedBlocks(CutLines(lines).blocks)
  {
    hide CutLines, BlocksParse, Strip, EntriesParse, HasTag, ParsedBlocks;
    var sections: seq<Section> := [];
    var tag: Option<string> := None;
    var sectionLines: seq<string> := [];
    ghost var closed: seq<Block> := [];
    NothingRead(lines);
    for i := 0 to |lines|
      invariant CutLines(lines[..i])
        == Cut(false, closed + if tag.None? then [] else [Block(tag.value, sectionLines)])
      invariant tag.None? ==> closed == []
      invariant BlocksParse(closed) && sections == ParsedBlocks(closed)
    {
      CutNext(lines, i);
      var line := Strip(IsSpace, lines[i]);
      ghost var now := CutLines(lines[..i]).blocks;
      if StartsWith(line, PLATFORM) {
        if tag.Some? {
          CloseParses(closed, Block(tag.value, sectionLines));
          var more := CloseSection(sections, tag.value, sectionLines);
          if more.None? {
            assert (now + [Block(line[|PLATFORM|..], [])])[..|now|] == now;
            ClosedRefuses(lines, i + 1, now);
            return None;
          }
          sections := more.value;
          closed := now;
        }
        PlatformTagNonEmpty(lines[i]);
        tag := Some(line[|PLATFORM|..]);
        if tag.value == "" { assert false; }
        sectionLines := [];
      } else if IsEntryLine(line) {
        if tag.None? {
          StrayRefuses(lines, i + 1);
          return None;
        }
        assert now[..|now| - 1] == closed;
        sectionLines := sectionLines + [line];
      }
    }
    assert lines[..|lines|] == lines;
    if tag.Some? {
      CloseParses(closed, Block(tag.value, sectionLines));
      var more := CloseSection(sections, tag.value, sectionLines);
      if more.None? { return None; }
      sections := more.value;
      closed := CutLines(lines).blocks;
    }
    ParsedLength(closed);
    if sections == [] { return None; }
    return Some(sections);
  }

  lemma NothingRead(lines: seq<string>)
    ensures CutLines(lines[..0]) == Cut(false, []) && BlocksParse([]) && ParsedBlocks([]) == []
  {
  }

  lemma ParsedLength(blocks: seq<Block>)
    requires BlocksParse(blocks)
    ensures |ParsedBlocks(blocks)| == |blocks|
  {
  }

  method LockSections(lock: Option<string>, allowLegacy: bool) returns (r: Option<Lock>)
    ensures r.Some? <==> lock.Some? && Accepted(SplitLines(lock.value), allowLegacy)
    ensures r.Some? ==>
      var lines := SplitLines(lock.value);
      r.value == Lock(HeadersOf(lines), SectionsOf(lines, allowLegacy))
  {
    hide HeadersOf, CutLines, BlocksParse, EntriesParse, ParsedBlocks, Parsed;
    if lock.None? { return None; }
    var lines := SplitLines(lock.value);
    var headers := LockHeaders(lines);
    var schema := Get(headers, "schema");
    if schema == Some("1") && allowLegacy {
      var tag := Get(headers, "platform");
      if tag.None? || tag.value == "" { return None; }
      var entries := ParseEntries(LegacyLines(lines));
      if entries.None? { return None; }
      return Some(Lock(headers, [Section(tag.value, entries.value)]));
    }
    if schema != Some("2") { return None; }
    var sections := ReadSections(lines);
    if sections.None? { return None; }
    return Some(Lock(headers, sections.value));
  }
}
