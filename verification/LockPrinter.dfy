/** Printing a wheelhouse lock, which the parser undoes, and refreshing one platform's section. */
module LockPrinter {
  import opened Wrappers
  import opened Text
  import opened LockFile
  import Sorting

  // ----- Printing -----

  const TITLE := "# Pursers Home runtime" + (" wheelhouse lock." + (" Regenerate deliberately;" + " do not hand-edit."))

  predicate TagLeq(a: Section, b: Section) {
    Leq(a.tag, b.tag)
  }

  function EntryLines(entries: seq<Entry>): seq<string> {
    seq(|entries|, k requires 0 <= k < |entries| => RenderEntry(entries[k]))
  }

  function SectionLines(section: Section): seq<string> {
    ["", PLATFORM + section.tag] + EntryLines(section.entries)
  }

  function BodyLines(sections: seq<Section>): seq<string> {
    if sections == [] then [] else BodyLines(sections[..|sections| - 1]) + SectionLines(sections[|sections| - 1])
  }

  function HeadLines(python: string, requirements: string): seq<string> {
    [TITLE, "# schema: 2", "# python: " + python, "# source-requirements-sha256: " + requirements]
  }

  function LockLines(sections: seq<Section>, python: string, requirements: string): (lines: seq<string>)
    ensures lines != []
  {
    HeadLines(python, requirements) + BodyLines(Sorting.Sort(TagLeq, sections))
  }

  method RenderLock(sections: seq<Section>, python: string, requirements: string) returns (text: string)
    ensures text == TextOf(LockLines(sections, python, requirements))
  {
    var lines := HeadLines(python, requirements);
    var sorted := Sorting.Sort(TagLeq, sections);
    for i := 0 to |sorted|
      invariant lines == HeadLines(python, requirements) + BodyLines(sorted[..i])
    {
      assert sorted[..i + 1][..i] == sorted[..i];
      lines := lines + ["", PLATFORM + sorted[i].tag];
      lines := lines + EntryLines(sorted[i].entries);
    }
    assert sorted[..|sorted|] == sorted;
    text := Join(lines, '\n') + "\n";
  }

  // ----- The printer and the parser undo each other -----

  predicate TagOk(tag: string) {
    tag != "" && OneLine(tag) && !IsSpace(tag[|tag| - 1])
  }

  /** A package list the resolver or the parser can produce, except that names may still be unnormalized. */
  predicate EntriesOk(entries: seq<Entry>) {
    && entries != []
    && (forall k :: 0 <= k < |entries| ==> WellFormed(entries[k]))
    && (forall j, k :: 0 <= j < k < |entries| ==> Normalize(entries[j].name) != Normalize(entries[k].name))
  }

  predicate TagsDistinct(sections: seq<Section>) {
    forall j, k :: 0 <= j < k < |sections| ==> sections[j].tag != sections[k].tag
  }

  predicate SectionsOk(sections: seq<Section>) {
    && sections != [] && TagsDistinct(sections)
    && forall k :: 0 <= k < |sections| ==> TagOk(sections[k].tag) && EntriesOk(sections[k].entries)
  }

  function Normalized(entries: seq<Entry>): seq<Entry> {
    seq(|entries|, k requires 0 <= k < |entries| => entries[k].(name := Normalize(entries[k].name)))
  }

  function NormalizedSections(sections: seq<Section>): seq<Section> {
    seq(|sections|, k requires 0 <= k < |sections| => sections[k].(entries := Normalized(sections[k].entries)))
  }

  lemma EntriesRoundTrip(entries: seq<Entry>)
    requires EntriesOk(entries)
    ensures EntriesParse(EntryLines(entries)) && Parsed(EntryLines(entries)) == Normalized(entries)
  {
    hide MatchLine, Normalize, WellFormed, RenderEntry;
    forall k | 0 <= k < |entries|
      ensures ParsedLine(EntryLines(entries)[k]) == Some(entries[k].(name := Normalize(entries[k].name)))
    {
      RenderedMatches(entries[k]);
    }
  }

  lemma RenderedMatches(e: Entry)
    requires WellFormed(e)
    ensures MatchLine(RenderEntry(e)) == Some(e)
  {
    SpacedMatches(e, " ");
  }

  /** Text without outer spaces is what stripping leaves. */
  lemma StripKeeps(s: string)
    requires s != "" && !IsSpace(s[0]) && !IsSpace(s[|s| - 1])
    ensures Strip(IsSpace, s) == s
  {
  }

  lemma HeadLineKept(line: string)
    requires line != "" && line[0] == '#'
    ensures var s := Strip(IsSpace, line);
      s != "" && s <= line && s[0] == '#'
  {
    StripRightKeepsHead(IsSpace, line);
    StripRightEnds(line);
  }

  lemma NotPlatform(line: string, i: nat)
    requires i < |line| && i < |PLATFORM| && line[0] == '#' && line[i] != PLATFORM[i]
    ensures var s := Strip(IsSpace, line);
      s != "" && s[0] == '#' && !StartsWith(s, PLATFORM)
  {
    HeadLineKept(line);
    var s := Strip(IsSpace, line);
    assert |s| >= |PLATFORM| ==> s[i] == line[i] && s[..|PLATFORM|][i] == s[i];
  }

  lemma StepHead(cut: Cut, line: string, i: nat)
    requires i < |line| && i < |PLATFORM| && line[0] == '#' && line[i] != PLATFORM[i]
    ensures Step(cut, line) == cut
  {
    NotPlatform(line, i);
  }

  lemma StepBlank(cut: Cut)
    ensures Step(cut, "") == cut
  {
  }

  lemma CutSnoc(lines: seq<string>, line: string)
    ensures CutLines(lines + [line]) == Step(CutLines(lines), line)
  {
    assert (lines + [line])[..|lines|] == lines;
  }

  lemma StepPlatform(cut: Cut, tag: string)
    requires TagOk(tag)
    ensures Step(cut, PLATFORM + tag) == Cut(cut.stray, cut.blocks + [Block(tag, [])])
  {
    StripKeeps(PLATFORM + tag);
  }

  lemma EntryKept(e: Entry)
    requires WellFormed(e)
    ensures Strip(IsSpace, RenderEntry(e)) == RenderEntry(e)
    ensures IsEntryLine(RenderEntry(e)) && !StartsWith(RenderEntry(e), PLATFORM)
  {
    var line := RenderEntry(e);
    assert line[0] == e.name[0] && NameChar(e.name[0]);
    assert line[|line| - 1] == e.digest[63] && HexChar(e.digest[63]);
    StripKeeps(line);
  }

  lemma {:induction false} CutEntries(lines: seq<string>, before: seq<Block>, tag: string, entries: seq<Entry>)
    requires CutLines(lines) == Cut(false, before + [Block(tag, [])])
    requires forall k :: 0 <= k < |entries| ==> WellFormed(entries[k])
    ensures CutLines(lines + EntryLines(entries)) == Cut(false, before + [Block(tag, EntryLines(entries))])
  {
    hide WellFormed, Strip, RenderEntry, IsEntryLine;
    if entries == [] {
      assert lines + EntryLines(entries) == lines;
    } else {
      var n := |entries| - 1;
      CutEntries(lines, before, tag, entries[..n]);
      EntryKept(entries[n]);
      var all := lines + EntryLines(entries);
      assert all[..|all| - 1] == lines + EntryLines(entries[..n]);
      assert EntryLines(entries) == EntryLines(entries[..n]) + [RenderEntry(entries[n])];
      var blocks := before + [Block(tag, EntryLines(entries[..n]))];
      assert blocks[..|blocks| - 1] == before;
    }
  }

  function BlocksOf(sections: seq<Section>): seq<Block> {
    seq(|sections|, k requires 0 <= k < |sections| => Block(sections[k].tag, EntryLines(sections[k].entries)))
  }

  lemma CutSection(lines: seq<string>, before: seq<Block>, section: Section)
    requires CutLines(lines) == Cut(false, before)
    requires TagOk(section.tag) && EntriesOk(section.entries)
    ensures CutLines(lines + SectionLines(section))
      == Cut(false, before + [Block(section.tag, EntryLines(section.entries))])
  {
    hide TagOk, WellFormed, EntryLines, CutLines, Step;
    CutSnoc(lines, "");
    StepBlank(CutLines(lines));
    var headed := lines + [""] + [PLATFORM + section.tag];
    CutSnoc(lines + [""], PLATFORM + section.tag);
    StepPlatform(CutLines(lines), section.tag);
    CutEntries(headed, before, section.tag, section.entries);
    assert lines + SectionLines(section) == headed + EntryLines(section.entries);
  }

  lemma {:induction false} CutBody(head: seq<string>, sections: seq<Section>)
    requires CutLines(head) == Cut(false, [])
    requires forall k :: 0 <= k < |sections| ==> TagOk(sections[k].tag) && EntriesOk(sections[k].entries)
    ensures CutLines(head + BodyLines(sections)) == Cut(false, BlocksOf(sections))
  {
    hide TagOk, EntriesOk, EntryLines, CutLines, SectionLines;
    if sections == [] {
      assert head + BodyLines(sections) == head;
    } else {
      var n := |sections| - 1;
      CutBody(head, sections[..n]);
      CutSection(head + BodyLines(sections[..n]), BlocksOf(sections[..n]), sections[n]);
      assert head + BodyLines(sections) == head + BodyLines(sections[..n]) + SectionLines(sections[n]);
      assert BlocksOf(sections)
        == BlocksOf(sections[..n]) + [Block(sections[n].tag, EntryLines(sections[n].entries))];
    }
  }

  lemma CutHead(python: string, requirements: string)
    ensures CutLines(HeadLines(python, requirements)) == Cut(false, [])
  {
    hide Step;
    assert HeadLines(python, requirements)
      == [TITLE] + ["# schema: 2"] + ["# python: " + python] + ["# source-requirements-sha256: " + requirements];
    var none := CutLines([]);
    CutSnoc([], TITLE);
    assert |TITLE| > 2 && TITLE[0] == '#' && TITLE[2] == 'P';
    StepHead(none, TITLE, 2);
    assert [] + [TITLE] == [TITLE];
    CutSnoc([TITLE], "# schema: 2");
    StepHead(none, "# schema: 2", 2);
    CutSnoc([TITLE] + ["# schema: 2"], "# python: " + python);
    StepHead(none, "# python: " + python, 3);
    CutSnoc([TITLE] + ["# schema: 2"] + ["# python: " + python], "# source-requirements-sha256: " + requirements);
    StepHead(none, "# source-requirements-sha256: " + requirements, 2);
  }

  // ----- Headers of a printed lock -----

  lemma {:induction false} ColonAfter(key: string, value: string)
    requires ':' !in key
    ensures ColonAt(key + (": " + value)) == |key|
  {
    var s := key + (": " + value);
    if key == "" {
      assert s[..2] == ": ";
    } else {
      assert s[0] == key[0] && key[0] in key;
      assert s[1..] == key[1..] + (": " + value);
      ColonAfter(key[1..], value);
    }
  }

  lemma HeaderRead(key: string, value: string)
    requires ':' !in key
    ensures HeaderOf("# " + key + ": " + value) == Some((key, value))
  {
    ColonAfter(key, value);
    var line := "# " + key + ": " + value;
    var s := key + (": " + value);
    assert line == "# " + s && line[..2] == "# " && line[2..] == s;
    assert s[..|key|] == key && s[|key| + 2..] == value;
  }

  lemma HeadersSnoc(lines: seq<string>, line: string)
    ensures HeadersOf(lines + [line])
      == match HeaderOf(line) case None => HeadersOf(lines) case Some((k, v)) => HeadersOf(lines)[k := v]
  {
    assert (lines + [line])[..|lines|] == lines;
  }

  /** Lines that carry no header but `platform` change no other header. */
  lemma {:induction false} HeadersKept(lines: seq<string>, more: seq<string>, key: string)
    requires key != "platform"
    requires forall i :: 0 <= i < |more| ==> OnlyPlatform(more[i])
    ensures Get(HeadersOf(lines + more), key) == Get(HeadersOf(lines), key)
  {
    if more == [] {
      assert lines + more == lines;
    } else {
      var n := |more| - 1;
      HeadersKept(lines, more[..n], key);
      HeadersSnoc(lines + more[..n], more[n]);
      assert lines + more == lines + more[..n] + [more[n]];
    }
  }

  predicate OnlyPlatform(line: string) {
    HeaderOf(line).None? || HeaderOf(line).value.0 == "platform"
  }

  lemma SectionHeaders(section: Section)
    requires EntriesOk(section.entries)
    ensures forall i :: 0 <= i < |SectionLines(section)| ==> OnlyPlatform(SectionLines(section)[i])
  {
    hide WellFormed, RenderEntry, ColonAt;
    var lines := SectionLines(section);
    forall i | 0 <= i < |lines| ensures OnlyPlatform(lines[i]) {
      if i == 1 {
        HeaderRead("platform", section.tag);
        assert "# " + "platform" + ": " + section.tag == PLATFORM + section.tag;
      } else if i > 1 {
        EntryNoHeader(section.entries[i - 2]);
      }
    }
  }

  lemma EntryNoHeader(e: Entry)
    requires WellFormed(e)
    ensures OnlyPlatform(RenderEntry(e))
  {
    hide WellFormed, RenderEntry, Strip;
    EntryKept(e);
  }

  lemma {:induction false} BodyHeaders(sections: seq<Section>)
    requires forall k :: 0 <= k < |sections| ==> EntriesOk(sections[k].entries)
    ensures forall i :: 0 <= i < |BodyLines(sections)| ==> OnlyPlatform(BodyLines(sections)[i])
  {
    hide EntriesOk, SectionLines, OnlyPlatform;
    if sections != [] {
      BodyHeaders(sections[..|sections| - 1]);
      SectionHeaders(sections[|sections| - 1]);
    }
  }

  lemma HeaderAdded(lines: seq<string>, key: string, value: string)
    requires ':' !in key
    ensures HeadersOf(lines + ["# " + key + ": " + value]) == HeadersOf(lines)[key := value]
  {
    hide HeaderOf, HeadersOf;
    HeadersSnoc(lines, "# " + key + ": " + value);
    HeaderRead(key, value);
  }

  lemma HeadHeaders(python: string, requirements: string)
    ensures var h := HeadersOf(HeadLines(python, requirements));
      && Get(h, "schema") == Some("2") && Get(h, "python") == Some(python)
      && Get(h, "source-requirements-sha256") == Some(requirements)
  {
    hide HeaderOf, HeadersOf, HeadLines;
    var two := [TITLE] + ["# " + "schema" + ": " + "2"];
    var three := two + ["# " + "python" + ": " + python];
    HeaderAdded([TITLE], "schema", "2");
    HeaderAdded(two, "python", python);
    HeaderAdded(three, "source-requirements-sha256", requirements);
    HeadLinesAre(python, requirements);
  }

  lemma HeadLinesAre(python: string, requirements: string)
    ensures HeadLines(python, requirements)
      == [TITLE] + ["# " + "schema" + ": " + "2"] + ["# " + "python" + ": " + python]
        + ["# " + "source-requirements-sha256" + ": " + requirements]
  {
    assert "# " + "schema" + ": " + "2" == "# schema: 2";
    assert "# " + "python" + ": " + python == "# python: " + python;
    assert "# " + "source-requirements-sha256" + ": " + requirements == "# source-requirements-sha256: " + requirements;
  }

  // ----- Whole printed locks -----

  function Find(sections: seq<Section>, tag: string): Option<seq<Entry>> {
    if sections == [] then None
    else if sections[0].tag == tag then Some(sections[0].entries)
    else Find(sections[1..], tag)
  }

  lemma {:induction false} FindIs(sections: seq<Section>, tag: string, k: nat)
    requires k < |sections| && sections[k].tag == tag && TagsDistinct(sections)
    ensures Find(sections, tag) == Some(sections[k].entries)
  {
    if k > 0 { FindIs(sections[1..], tag, k - 1); }
  }

  lemma {:induction false} FindNone(sections: seq<Section>, tag: string)
    ensures Find(sections, tag).None? <==> !HasTag(sections, tag)
  {
    if sections != [] {
      FindNone(sections[1..], tag);
      if HasTag(sections[1..], tag) {
        var k :| 0 <= k < |sections[1..]| && sections[1..][k].tag == tag;
        assert sections[k + 1].tag == tag;
      }
      if sections[0].tag != tag && HasTag(sections, tag) {
        var k :| 0 <= k < |sections| && sections[k].tag == tag;
        assert sections[1..][k - 1].tag == tag;
      }
    }
  }

  lemma SortedTags(sections: seq<Section>)
    requires TagsDistinct(sections)
    ensures TagsDistinct(Sorting.Sort(TagLeq, sections))
  {
    var sorted := Sorting.Sort(TagLeq, sections);
    Sorting.SortMembers(TagLeq, sections);
    assert Sorting.Distinct(sections);
    Sorting.SortDistinct(TagLeq, sections);
    forall j, k | 0 <= j < k < |sorted| ensures sorted[j].tag != sorted[k].tag {
      assert sorted[j] in sorted && sorted[k] in sorted && sorted[j] != sorted[k];
    }
  }

  /** Sorting by tag changes no lookup. */
  lemma FindSorted(sections: seq<Section>, tag: string)
    requires TagsDistinct(sections)
    ensures Find(Sorting.Sort(TagLeq, sections), tag) == Find(sections, tag)
  {
    var sorted := Sorting.Sort(TagLeq, sections);
    SortedTags(sections);
    Sorting.SortMembers(TagLeq, sections);
    FindNone(sections, tag);
    FindNone(sorted, tag);
    if HasTag(sections, tag) {
      var k :| 0 <= k < |sections| && sections[k].tag == tag;
      FindIs(sections, tag, k);
      assert sections[k] in sorted;
      var j :| 0 <= j < |sorted| && sorted[j] == sections[k];
      FindIs(sorted, tag, j);
    } else {
      forall j | 0 <= j < |sorted| ensures sorted[j].tag != tag {
        assert sorted[j] in sorted;
      }
    }
  }

  lemma SortedOk(sections: seq<Section>)
    requires SectionsOk(sections)
    ensures SectionsOk(Sorting.Sort(TagLeq, sections))
  {
    hide TagOk, EntriesOk;
    SortedTags(sections);
    Sorting.SortMembers(TagLeq, sections);
    var sorted := Sorting.Sort(TagLeq, sections);
    forall k | 0 <= k < |sorted| ensures TagOk(sorted[k].tag) && EntriesOk(sorted[k].entries) {
      assert sorted[k] in sorted && sorted[k] in sections;
    }
  }

  lemma SpacelessIsOneLine(s: string)
    requires forall i :: 0 <= i < |s| ==> !IsSpace(s[i])
    ensures OneLine(s)
  {
  }

  lemma EntryOneLine(e: Entry)
    requires WellFormed(e)
    ensures OneLine(RenderEntry(e))
  {
    SpacelessIsOneLine(e.name);
    SpacelessIsOneLine(e.version);
    SpacelessIsOneLine(e.digest);
    OneLineConcat(HASH, e.digest);
    OneLineConcat(" ", HASH + e.digest);
    OneLineConcat(e.version, " " + (HASH + e.digest));
    OneLineConcat("==", e.version + (" " + (HASH + e.digest)));
    OneLineConcat(e.name, "==" + (e.version + (" " + (HASH + e.digest))));
  }

  lemma OneLineConcat(a: string, b: string)
    requires OneLine(a) && OneLine(b)
    ensures OneLine(a + b)
  {
  }

  lemma {:induction false} BodyOneLine(sections: seq<Section>)
    requires forall k :: 0 <= k < |sections| ==> TagOk(sections[k].tag) && EntriesOk(sections[k].entries)
    ensures forall i :: 0 <= i < |BodyLines(sections)| ==> OneLine(BodyLines(sections)[i])
  {
    hide WellFormed, RenderEntry, OneLine;
    if sections != [] {
      var last := sections[|sections| - 1];
      BodyOneLine(sections[..|sections| - 1]);
      PlatformOneLine(last.tag);
      forall k | 0 <= k < |last.entries| ensures OneLine(RenderEntry(last.entries[k])) {
        EntryOneLine(last.entries[k]);
      }
    }
  }

  lemma PlatformOneLine(tag: string)
    requires TagOk(tag)
    ensures OneLine(PLATFORM + tag) && OneLine("")
  {
    OneLineConcat(PLATFORM, tag);
  }

  lemma TitleOneLine()
    ensures OneLine(TITLE)
  {
    OneLineConcat(" Regenerate deliberately;", " do not hand-edit.");
    OneLineConcat(" wheelhouse lock.", " Regenerate deliberately;" + " do not hand-edit.");
    OneLineConcat("# Pursers Home runtime", " wheelhouse lock." + (" Regenerate deliberately;" + " do not hand-edit."));
  }

  lemma LabelsOneLine()
    ensures OneLine("# schema: 2") && OneLine("# python: ") && OneLine("# source-requirements-sha256: ")
  {
  }

  lemma HeadOneLine(python: string, requirements: string)
    requires OneLine(python) && OneLine(requirements)
    ensures forall i :: 0 <= i < |HeadLines(python, requirements)| ==> OneLine(HeadLines(python, requirements)[i])
  {
    hide OneLine;
    TitleOneLine();
    LabelsOneLine();
    OneLineConcat("# python: ", python);
    OneLineConcat("# source-requirements-sha256: ", requirements);
  }

  lemma BlocksRoundTrip(sections: seq<Section>)
    requires SectionsOk(sections)
    ensures BlocksParse(BlocksOf(sections)) && ParsedBlocks(BlocksOf(sections)) == NormalizedSections(sections)
  {
    hide ParsedLine, EntriesOk, TagOk, Parsed, Normalized, EntryLines;
    forall k | 0 <= k < |sections|
      ensures EntriesParse(EntryLines(sections[k].entries))
      ensures Parsed(EntryLines(sections[k].entries)) == Normalized(sections[k].entries)
    {
      EntriesRoundTrip(sections[k].entries);
    }
  }

  /** Parsing a printed lock gives back its headers and, in order of their tags, its sections. */
  lemma RoundTrip(sections: seq<Section>, python: string, requirements: string, allowLegacy: bool)
    requires SectionsOk(sections) && OneLine(python) && OneLine(requirements)
    ensures var lines := SplitLines(TextOf(LockLines(sections, python, requirements)));
      && Accepted(lines, allowLegacy)
      && SectionsOf(lines, allowLegacy) == NormalizedSections(Sorting.Sort(TagLeq, sections))
      && Get(HeadersOf(lines), "python") == Some(python)
      && Get(HeadersOf(lines), "source-requirements-sha256") == Some(requirements)
  {
    hide OneLine, CutLines, HeadersOf, BlocksParse, ParsedBlocks, EntriesOk, TagOk, BodyLines, HeadLines, OnlyPlatform;
    hide SplitLines, TextOf, NormalizedSections, EntriesParse, BlocksOf;
    var sorted := Sorting.Sort(TagLeq, sections);
    SortedOk(sections);
    var lines := LockLines(sections, python, requirements);
    var head, body := HeadLines(python, requirements), BodyLines(sorted);
    HeadOneLine(python, requirements);
    BodyOneLine(sorted);
    SplitLinesOfText(lines);
    CutHead(python, requirements);
    CutBody(head, sorted);
    BlocksRoundTrip(sorted);
    BodyHeaders(sorted);
    HeadHeaders(python, requirements);
    HeadersKept(head, body, "schema");
    HeadersKept(head, body, "python");
    HeadersKept(head, body, "source-requirements-sha256");
    BlocksNonEmpty(sorted);
  }

  function NormalizedSection(section: Section): Section {
    section.(entries := Normalized(section.entries))
  }

  lemma NormalizedCons(section: Section, sections: seq<Section>)
    ensures NormalizedSections([section] + sections) == [NormalizedSection(section)] + NormalizedSections(sections)
  {
    hide Normalized;
  }

  lemma {:induction false} InsertNormalized(section: Section, sections: seq<Section>)
    ensures Sorting.Insert(TagLeq, NormalizedSection(section), NormalizedSections(sections))
      == NormalizedSections(Sorting.Insert(TagLeq, section, sections))
  {
    hide Leq, Normalized, NormalizedSections;
    if sections == [] {
      NormalizedCons(section, []);
      NoSections();
      assert [section] + [] == [section];
      assert [NormalizedSection(section)] + [] == [NormalizedSection(section)];
    } else {
      assert sections == [sections[0]] + sections[1..];
      NormalizedCons(sections[0], sections[1..]);
      NormalizedCons(section, sections);
      NormalizedCons(sections[0], Sorting.Insert(TagLeq, section, sections[1..]));
      InsertNormalized(section, sections[1..]);
    }
  }

  lemma NoSections()
    ensures NormalizedSections([]) == []
  {
  }

  /** Normalizing names and sorting by tag do not get in each other's way. */
  lemma {:induction false} SortNormalized(sections: seq<Section>)
    ensures Sorting.Sort(TagLeq, NormalizedSections(sections)) == NormalizedSections(Sorting.Sort(TagLeq, sections))
  {
    hide TagLeq, Normalized, NormalizedSections, Sorting.Insert;
    NoSections();
    if sections != [] {
      SortNormalized(sections[1..]);
      assert sections == [sections[0]] + sections[1..];
      NormalizedCons(sections[0], sections[1..]);
      InsertNormalized(sections[0], Sorting.Sort(TagLeq, sections[1..]));
    }
  }

  lemma SortTwice(sections: seq<Section>)
    ensures Sorting.Sort(TagLeq, Sorting.Sort(TagLeq, sections)) == Sorting.Sort(TagLeq, sections)
  {
    forall a, b: Section ensures TagLeq(a, b) || TagLeq(b, a) { LeqTotal(a.tag, b.tag); }
    forall a, b, c: Section | TagLeq(a, b) && TagLeq(b, c) ensures TagLeq(a, c) { LeqTransitive(a.tag, b.tag, c.tag); }
    Sorting.SortAscending(TagLeq, sections);
    Sorting.SortSorted(TagLeq, Sorting.Sort(TagLeq, sections));
  }

  /** What is parsed from a printed lock prints like the sections with their names normalized. */
  lemma Reprinted(sections: seq<Section>, python: string, requirements: string)
    ensures LockLines(NormalizedSections(Sorting.Sort(TagLeq, sections)), python, requirements)
      == LockLines(NormalizedSections(sections), python, requirements)
  {
    hide NormalizedSections, TagLeq;
    SortNormalized(sections);
    SortNormalized(Sorting.Sort(TagLeq, sections));
    SortTwice(sections);
  }

  lemma EntryLinesSame(a: seq<Entry>, b: seq<Entry>)
    requires |a| == |b| && EntryLines(a) == EntryLines(b)
    requires forall k :: 0 <= k < |a| ==> WellFormed(a[k]) && WellFormed(b[k])
    ensures a == b
  {
    hide WellFormed, RenderEntry, MatchLine;
    forall k | 0 <= k < |a| ensures a[k] == b[k] {
      RenderedMatches(a[k]);
      RenderedMatches(b[k]);
      assert RenderEntry(a[k]) == EntryLines(a)[k] == EntryLines(b)[k] == RenderEntry(b[k]);
    }
  }

  lemma NormalizedOk(entries: seq<Entry>)
    requires EntriesOk(entries)
    ensures forall k :: 0 <= k < |entries| ==> WellFormed(entries[k]) && WellFormed(Normalized(entries)[k])
  {
    hide Normalize, WellFormed, MatchLine, RenderEntry;
    forall k | 0 <= k < |entries| ensures WellFormed(Normalized(entries)[k]) {
      RenderedMatches(entries[k]);
      assert ParsedLine(RenderEntry(entries[k])) == Some(Normalized(entries)[k]);
      ParsedEntryOk(RenderEntry(entries[k]));
    }
  }

  /** Sections print alike with and without their names normalized only if the names are normalized. */
  lemma {:induction false} BodyNormalized(sections: seq<Section>)
    requires forall k :: 0 <= k < |sections| ==> EntriesOk(sections[k].entries)
    requires BodyLines(NormalizedSections(sections)) == BodyLines(sections)
    ensures NormalizedSections(sections) == sections
  {
    hide EntriesOk, Normalized, EntryLines;
    if sections != [] {
      var n := |sections| - 1;
      var normal, entries := NormalizedSections(sections), sections[n].entries;
      assert normal[..n] == NormalizedSections(sections[..n]);
      LengthsKept(entries);
      var front, last := BodyLines(sections[..n]), SectionLines(sections[n]);
      var front', last' := BodyLines(normal[..n]), SectionLines(normal[n]);
      assert front + last == front' + last' && |last| == |last'|;
      assert |front| == |front'|;
      assert front == (front + last)[..|front|] && front' == (front' + last')[..|front|];
      assert last == (front + last)[|front|..] && last' == (front' + last')[|front|..];
      assert EntryLines(entries) == last[2..] && EntryLines(Normalized(entries)) == last'[2..];
      NormalizedOk(entries);
      EntryLinesSame(entries, Normalized(entries));
      BodyNormalized(sections[..n]);
    }
  }

  lemma LengthsKept(entries: seq<Entry>)
    ensures |Normalized(entries)| == |entries| && |EntryLines(Normalized(entries))| == |EntryLines(entries)|
  {
  }

  lemma EntriesNormalized(entries: seq<Entry>)
    requires EntriesOk(entries)
    ensures EntriesOk(Normalized(entries)) && Normalized(Normalized(entries)) == Normalized(entries)
  {
    hide Normalize, WellFormed;
    NormalizedOk(entries);
    forall k | 0 <= k < |entries| ensures Normalize(Normalize(entries[k].name)) == Normalize(entries[k].name) {
      NormalizeIdempotent(entries[k].name);
    }
  }

  lemma NormalizedAgain(sections: seq<Section>)
    requires SectionsOk(sections)
    ensures SectionsOk(NormalizedSections(sections))
    ensures forall xs :: xs == Sorting.Sort(TagLeq, sections) ==>
      NormalizedSections(NormalizedSections(xs)) == NormalizedSections(xs)
  {
    hide EntriesOk, Normalized, TagOk;
    SortedOk(sections);
    var sorted := Sorting.Sort(TagLeq, sections);
    forall k | 0 <= k < |sections| ensures EntriesOk(Normalized(sections[k].entries)) {
      EntriesNormalized(sections[k].entries);
    }
    forall k | 0 <= k < |sorted| ensures Normalized(Normalized(sorted[k].entries)) == Normalized(sorted[k].entries) {
      EntriesNormalized(sorted[k].entries);
    }
  }

  lemma PrintedOneLine(sections: seq<Section>, python: string, requirements: string)
    requires SectionsOk(sections) && OneLine(python) && OneLine(requirements)
    ensures var lines := LockLines(sections, python, requirements);
      SplitLines(TextOf(lines)) == lines
  {
    hide OneLine, SplitLines, TextOf, BodyLines, HeadLines, TagOk, EntriesOk, TagsDistinct;
    SortedOk(sections);
    HeadOneLine(python, requirements);
    BodyOneLine(Sorting.Sort(TagLeq, sections));
    SplitLinesOfText(LockLines(sections, python, requirements));
  }

  lemma SameText(sections: seq<Section>, python: string, requirements: string)
    requires SectionsOk(sections) && SectionsOk(NormalizedSections(sections)) && OneLine(python)
      && OneLine(requirements)
    requires TextOf(LockLines(NormalizedSections(sections), python, requirements))
      == TextOf(LockLines(sections, python, requirements))
    ensures NormalizedSections(sections) == sections
  {
    hide OneLine, SplitLines, TextOf, BodyLines, HeadLines, EntriesOk, TagOk, Normalized, NormalizedSections;
    PrintedOneLine(sections, python, requirements);
    PrintedOneLine(NormalizedSections(sections), python, requirements);
    SortNormalized(sections);
    SortedOk(sections);
    var sorted := Sorting.Sort(TagLeq, sections);
    var head := HeadLines(python, requirements);
    assert (head + BodyLines(sorted))[|head|..] == BodyLines(sorted);
    assert (head + BodyLines(NormalizedSections(sorted)))[|head|..] == BodyLines(NormalizedSections(sorted));
    BodyNormalized(sorted);
    SortedNormal(sections);
  }

  lemma SortedNormal(sections: seq<Section>)
    requires NormalizedSections(Sorting.Sort(TagLeq, sections)) == Sorting.Sort(TagLeq, sections)
    ensures NormalizedSections(sections) == sections
  {
    var sorted := Sorting.Sort(TagLeq, sections);
    Sorting.SortMembers(TagLeq, sections);
    forall k | 0 <= k < |sections| ensures Normalized(sections[k].entries) == sections[k].entries {
      assert sections[k] in sorted;
      var j :| 0 <= j < |sorted| && sorted[j] == sections[k];
      assert NormalizedSections(sorted)[j] == sorted[j];
    }
  }

  /**
   Printing what was parsed from a printed lock gives back its text, exactly if the names in it are normalized; from
   then on it always does.
   */
  lemma PrintParsed(sections: seq<Section>, python: string, requirements: string, allowLegacy: bool)
    requires SectionsOk(sections) && OneLine(python) && OneLine(requirements)
    ensures var text := TextOf(LockLines(sections, python, requirements));
      && Accepted(SplitLines(text), allowLegacy)
      && var parsed := SectionsOf(SplitLines(text), allowLegacy);
      var again := TextOf(LockLines(parsed, python, requirements));
      && (again == text <==> NormalizedSections(sections) == sections)
      && Accepted(SplitLines(again), allowLegacy) && SectionsOf(SplitLines(again), allowLegacy) == parsed
  {
    hide OneLine, SplitLines, TextOf, LockLines, SectionsOf, Accepted, HeadersOf, NormalizedSections, SectionsOk;
    RoundTrip(sections, python, requirements, allowLegacy);
    Reprinted(sections, python, requirements);
    NormalizedAgain(sections);
    RoundTrip(NormalizedSections(sections), python, requirements, allowLegacy);
    SortNormalized(sections);
    if TextOf(LockLines(NormalizedSections(sections), python, requirements))
      == TextOf(LockLines(sections, python, requirements))
    {
      SameText(sections, python, requirements);
    }
  }

  lemma BlocksNonEmpty(sections: seq<Section>)
    requires sections != []
    ensures BlocksOf(sections) != []
  {
  }

  // ----- What parsing can yield -----

  lemma ParsedEntryOk(line: string)
    requires ParsedLine(line).Some?
    ensures var e := ParsedLine(line).value;
      WellFormed(e) && Normalize(e.name) == e.name
  {
    hide MatchLine;
    var spaces := MatchesOnlySpaced(line);
    NormalizeChars(MatchLine(line).value.name);
    NormalizeIdempotent(MatchLine(line).value.name);
  }

  lemma ParsedEntriesOk(lines: seq<string>)
    requires EntriesParse(lines)
    ensures EntriesOk(Parsed(lines)) && Normalized(Parsed(lines)) == Parsed(lines)
  {
    hide ParsedLine, WellFormed, Normalize;
    forall k | 0 <= k < |lines|
      ensures WellFormed(ParsedLine(lines[k]).value)
      ensures Normalize(ParsedLine(lines[k]).value.name) == ParsedLine(lines[k]).value.name
    {
      ParsedEntryOk(lines[k]);
    }
  }

  lemma {:induction false} StripLeftIsSuffix(s: string)
    ensures exists n: nat :: n <= |s| && StripLeft(IsSpace, s) == s[n..]
  {
    if s != "" && IsSpace(s[0]) {
      StripLeftIsSuffix(s[1..]);
      var n: nat :| n <= |s[1..]| && StripLeft(IsSpace, s[1..]) == s[1..][n..];
      assert s[1..][n..] == s[n + 1..];
    } else {
      assert s[0..] == s;
    }
  }

  lemma OneLineSlice(s: string, i: nat, j: nat)
    requires i <= j <= |s| && OneLine(s)
    ensures OneLine(s[i..j])
  {
  }

  lemma StripOneLine(raw: string)
    requires OneLine(raw)
    ensures OneLine(Strip(IsSpace, raw))
  {
    hide OneLine, IsSpace, StripRight;
    StripLeftIsSuffix(raw);
    var n: nat :| n <= |raw| && StripLeft(IsSpace, raw) == raw[n..];
    assert raw[n..|raw|] == raw[n..];
    OneLineSlice(raw, n, |raw|);
    StripRightEnds(raw[n..]);
    var line := Strip(IsSpace, raw);
    assert raw[n..][0..|line|] == line;
    OneLineSlice(raw[n..], 0, |line|);
  }

  lemma PlatformTagOk(raw: string)
    requires OneLine(raw) && StartsWith(Strip(IsSpace, raw), PLATFORM)
    ensures TagOk(Strip(IsSpace, raw)[|PLATFORM|..])
  {
    hide OneLine, IsSpace;
    var line := Strip(IsSpace, raw);
    PlatformTagNonEmpty(raw);
    StripOneLine(raw);
    assert line[|PLATFORM|..|line|] == line[|PLATFORM|..];
    OneLineSlice(line, |PLATFORM|, |line|);
    StripRightEnds(StripLeft(IsSpace, raw));
  }

  lemma {:induction false} CutTagsOk(lines: seq<string>)
    requires forall i :: 0 <= i < |lines| ==> OneLine(lines[i])
    ensures forall b :: b in CutLines(lines).blocks ==> TagOk(b.tag)
  {
    hide OneLine, TagOk, Strip;
    if lines != [] {
      var n := |lines| - 1;
      CutTagsOk(lines[..n]);
      if StartsWith(Strip(IsSpace, lines[n]), PLATFORM) { PlatformTagOk(lines[n]); }
    }
  }

  lemma {:induction false} SplitLinesOneLine(text: string)
    ensures forall i :: 0 <= i < |SplitLines(text)| ==> OneLine(SplitLines(text)[i])
  {
    if text != "" {
      var n := Span(InLine, text);
      if n < |text| {
        SplitLinesOneLine(text[n + 1..]);
      } else {
        assert text[..n] == text;
      }
    }
  }

  lemma {:induction false} HeadersOneLine(lines: seq<string>)
    requires forall i :: 0 <= i < |lines| ==> OneLine(lines[i])
    ensures forall k :: k in HeadersOf(lines) ==> OneLine(HeadersOf(lines)[k])
  {
    if lines != [] {
      var n := |lines| - 1;
      HeadersOneLine(lines[..n]);
    }
  }

  /**
   A legacy lock's tag is taken from its header line as it stands, white space at its end included.
   No section of the lock it is rewritten to can carry such a tag.
   */
  predicate LegacyTagKept(text: string) {
    var tag := Get(HeadersOf(SplitLines(text)), "platform");
    IsLegacy(HeadersOf(SplitLines(text)), true) && tag.Some? && tag.value != "" ==> !IsSpace(tag.value[|tag.value| - 1])
  }

  /** An accepted lock holds sections that can be printed, all names normalized; the one exception is above. */
  lemma AcceptedIsOk(text: string, allowLegacy: bool)
    requires Accepted(SplitLines(text), allowLegacy)
    ensures var sections := SectionsOf(SplitLines(text), allowLegacy);
      && sections != [] && TagsDistinct(sections) && NormalizedSections(sections) == sections
      && (forall k :: 0 <= k < |sections| ==> EntriesOk(sections[k].entries))
      && (LegacyTagKept(text) || !allowLegacy ==> SectionsOk(sections))
  {
    hide EntriesOk, Normalized, ParsedLine, HeadersOf, OneLine, SplitLines, LegacyLines, IsSpace;
    var lines := SplitLines(text);
    SplitLinesOneLine(text);
    CutTagsOk(lines);
    HeadersOneLine(lines);
    if IsLegacy(HeadersOf(lines), allowLegacy) {
      ParsedEntriesOk(LegacyLines(lines));
    } else {
      var blocks := CutLines(lines).blocks;
      forall k | 0 <= k < |blocks|
        ensures EntriesOk(Parsed(blocks[k].lines)) && Normalized(Parsed(blocks[k].lines)) == Parsed(blocks[k].lines)
      {
        ParsedEntriesOk(blocks[k].lines);
      }
    }
  }

  // ----- Checking and refreshing a lock -----

  predicate Current(headers: Headers, python: string, requirements: string) {
    Get(headers, "source-requirements-sha256") == Some(requirements) && Get(headers, "python") == Some(python)
  }

  method ValidateLock(lock: Option<string>, python: string, requirements: string, tag: string)
    returns (r: Option<seq<Entry>>)
    ensures r.Some? <==>
      && lock.Some? && Accepted(SplitLines(lock.value), false)
      && Current(HeadersOf(SplitLines(lock.value)), python, requirements)
      && HasTag(SectionsOf(SplitLines(lock.value), false), tag)
    ensures r.Some? ==> r == Find(SectionsOf(SplitLines(lock.value), false), tag)
  {
    hide Accepted, SectionsOf, HeadersOf, SplitLines;
    var parsed := LockSections(lock, false);
    if parsed.None? || Get(parsed.value.headers, "source-requirements-sha256") != Some(requirements) { return None; }
    if Get(parsed.value.headers, "python") != Some(python) { return None; }
    FindNone(parsed.value.sections, tag);
    r := Find(parsed.value.sections, tag);
  }

  /** `sections[tag] = entries` on a dictionary that keeps the order of insertion. */
  function Put(sections: seq<Section>, tag: string, entries: seq<Entry>): seq<Section> {
    if sections == [] then [Section(tag, entries)]
    else if sections[0].tag == tag then [Section(tag, entries)] + sections[1..]
    else [sections[0]] + Put(sections[1..], tag, entries)
  }

  lemma {:induction false} FindPut(sections: seq<Section>, tag: string, entries: seq<Entry>, other: string)
    ensures Find(Put(sections, tag, entries), other) == if other == tag then Some(entries) else Find(sections, other)
  {
    if sections != [] { FindPut(sections[1..], tag, entries, other); }
  }

  lemma {:induction false} PutOk(sections: seq<Section>, tag: string, entries: seq<Entry>)
    requires TagsDistinct(sections)
    ensures TagsDistinct(Put(sections, tag, entries)) && Put(sections, tag, entries) != []
    ensures forall s :: s in Put(sections, tag, entries) ==> s == Section(tag, entries) || s in sections
  {
    if sections != [] && sections[0].tag != tag {
      var rest := sections[1..];
      PutOk(rest, tag, entries);
      FindNone(rest, sections[0].tag);
      FindPut(rest, tag, entries, sections[0].tag);
      FindNone(Put(rest, tag, entries), sections[0].tag);
    }
  }

  lemma {:induction false} FindNormalized(sections: seq<Section>, tag: string)
    ensures Find(NormalizedSections(sections), tag)
      == match Find(sections, tag) case None => None case Some(entries) => Some(Normalized(entries))
  {
    hide Normalized;
    if sections != [] {
      FindNormalized(sections[1..], tag);
      assert NormalizedSections(sections)[1..] == NormalizedSections(sections[1..]);
    }
  }

  /** What a refresh starts from: nothing, if the source requirements have changed. */
  function Kept(previous: Option<string>, requirements: string): seq<Section>
    requires previous.Some? ==> Accepted(SplitLines(previous.value), true)
  {
    if previous.Some? && Get(HeadersOf(SplitLines(previous.value)), "source-requirements-sha256") == Some(requirements)
    then SectionsOf(SplitLines(previous.value), true) else []
  }

  predicate PlatformOk(tag: string) {
    tag != "" && All(NameChar, tag)
  }

  predicate ResolvedOk(resolved: seq<Entry>) {
    EntriesOk(resolved) && Normalized(resolved) == resolved
  }

  function Refreshed(kept: seq<Section>, tag: string, resolved: seq<Entry>, python: string,
                     requirements: string): string {
    TextOf(LockLines(Put(kept, tag, resolved), python, requirements))
  }

  ghost predicate KeepsOthers(kept: seq<Section>, text: string, tag: string) {
    && Accepted(SplitLines(text), false)
    && forall other :: other != tag ==> Find(SectionsOf(SplitLines(text), false), other) == Find(kept, other)
  }

  lemma PlatformIsTag(tag: string)
    requires PlatformOk(tag)
    ensures TagOk(tag)
  {
    assert NameChar(tag[|tag| - 1]);
    SpacelessIsOneLine(tag);
  }

  /** A refresh over sections that can be printed replaces one section and keeps every other. */
  lemma RefreshKeeps(kept: seq<Section>, tag: string, resolved: seq<Entry>, python: string, requirements: string)
    requires kept == [] || SectionsOk(kept)
    requires NormalizedSections(kept) == kept
    requires PlatformOk(tag) && ResolvedOk(resolved) && OneLine(python) && OneLine(requirements)
    ensures var text := Refreshed(kept, tag, resolved, python, requirements);
      && KeepsOthers(kept, text, tag)
      && Find(SectionsOf(SplitLines(text), false), tag) == Some(resolved)
      && Current(HeadersOf(SplitLines(text)), python, requirements)
  {
    hide EntriesOk, TagOk, Normalized, NormalizedSections, OneLine, SplitLines, TextOf, LockLines, Accepted,
         SectionsOf, HeadersOf, PlatformOk, Find;
    var sections := Put(kept, tag, resolved);
    PutOk(kept, tag, resolved);
    PlatformIsTag(tag);
    forall k | 0 <= k < |sections| ensures TagOk(sections[k].tag) && EntriesOk(sections[k].entries) {
      assert sections[k] in sections;
    }
    RoundTrip(sections, python, requirements, false);
    var sorted := Sorting.Sort(TagLeq, sections);
    forall other
      ensures Find(NormalizedSections(sorted), other) == if other == tag then Some(resolved) else Find(kept, other)
    {
      FindNormalized(sorted, other);
      FindSorted(sections, other);
      FindPut(kept, tag, resolved, other);
      FindNormalized(kept, other);
    }
  }

  lemma AcceptedTagsOk(text: string, tag: string)
    requires Accepted(SplitLines(text), false) && Find(SectionsOf(SplitLines(text), false), tag).Some?
    ensures TagOk(tag)
  {
    hide SplitLines, Accepted, SectionsOf, TagOk;
    AcceptedIsOk(text, false);
    FindNone(SectionsOf(SplitLines(text), false), tag);
  }

  /**
   A refresh whose source requirements are unchanged keeps every other section exactly when the lock
   it reads is not a legacy one whose tag ends in white space.
   */
  lemma RefreshKeepsOthers(previous: string, tag: string, resolved: seq<Entry>, python: string, requirements: string)
    requires Accepted(SplitLines(previous), true)
      && Get(HeadersOf(SplitLines(previous)), "source-requirements-sha256") == Some(requirements)
    requires PlatformOk(tag) && ResolvedOk(resolved) && OneLine(python) && OneLine(requirements)
    ensures var kept := SectionsOf(SplitLines(previous), true);
      KeepsOthers(kept, Refreshed(kept, tag, resolved, python, requirements), tag) <==> LegacyTagKept(previous)
  {
    hide SplitLines, OneLine, ResolvedOk, PlatformOk, TextOf, LockLines, SectionsOk, HeadersOf, NormalizedSections,
         EntriesParse, LegacyTagKept, Accepted, SectionsOf, Refreshed, TagOk;
    var kept := SectionsOf(SplitLines(previous), true);
    AcceptedIsOk(previous, true);
    if LegacyTagKept(previous) {
      RefreshKeeps(kept, tag, resolved, python, requirements);
    } else {
      var text := Refreshed(kept, tag, resolved, python, requirements);
      LegacyTagSpaced(previous);
      PlatformIsTag(tag);
      var lost := kept[0].tag;
      assert Find(kept, lost).Some?;
      if KeepsOthers(kept, text, tag) { AcceptedTagsOk(text, lost); }
    }
  }

  lemma LegacyTagSpaced(previous: string)
    requires Accepted(SplitLines(previous), true) && !LegacyTagKept(previous)
    ensures var kept := SectionsOf(SplitLines(previous), true);
      kept != [] && !TagOk(kept[0].tag)
  {
    hide SplitLines, HeadersOf, EntriesParse, OneLine;
    AcceptedIsOk(previous, true);
  }

  /** Replaces the lock with one in which `tag` has the freshly resolved entries, then checks it. */
  method RefreshLock(previous: Option<string>, python: string, requirements: string, tag: string, resolved: seq<Entry>)
    returns (written: Option<string>, selected: Option<seq<Entry>>)
    ensures written.Some? <==> PlatformOk(tag) && (previous.Some? ==>
      && Accepted(SplitLines(previous.value), true)
      && Get(HeadersOf(SplitLines(previous.value)), "python") == Some(python))
    ensures written.Some? ==>
      written.value == Refreshed(Kept(previous, requirements), tag, resolved, python, requirements)
    ensures selected == Some(resolved) ==>
      written.Some? && ResolvedOk(resolved) && OneLine(python) && OneLine(requirements)
    ensures written.Some? && ResolvedOk(resolved) && OneLine(python) && OneLine(requirements)
      && (previous.Some? ==> LegacyTagKept(previous.value))
      ==> KeepsOthers(Kept(previous, requirements), written.value, tag) && selected == Some(resolved)
  {
    hide SplitLines, OneLine, ResolvedOk, PlatformOk, TextOf, LockLines, HeadersOf, Accepted, SectionsOf, SectionsOk,
         LegacyTagKept;
    written, selected := None, None;
    if !PlatformOk(tag) { return; }
    var sections: seq<Section> := [];
    if previous.Some? {
      var parsed := LockSections(previous, true);
      if parsed.None? { return; }
      if Get(parsed.value.headers, "python") != Some(python) { return; }
      sections := parsed.value.sections;
      AcceptedIsOk(previous.value, true);
      if Get(parsed.value.headers, "source-requirements-sha256") != Some(requirements) { sections := []; }
    }
    assert sections == Kept(previous, requirements);
    var text := RenderLock(Put(sections, tag, resolved), python, requirements);
    written := Some(text);
    selected := ValidateLock(written, python, requirements, tag);
    if ResolvedOk(resolved) && OneLine(python) && OneLine(requirements)
      && (previous.Some? ==> LegacyTagKept(previous.value))
    {
      RefreshKeeps(sections, tag, resolved, python, requirements);
      FindNone(SectionsOf(SplitLines(text), false), tag);
    }
    if selected == Some(resolved) { SelectedIsOk(text, tag, python, requirements); }
  }

  /** What validation passes was well formed to begin with. */
  lemma SelectedIsOk(text: string, tag: string, python: string, requirements: string)
    requires Accepted(SplitLines(text), false) && Current(HeadersOf(SplitLines(text)), python, requirements)
    requires Find(SectionsOf(SplitLines(text), false), tag).Some?
    ensures ResolvedOk(Find(SectionsOf(SplitLines(text), false), tag).value) && OneLine(python) && OneLine(requirements)
  {
    hide SplitLines, Accepted, SectionsOf, HeadersOf, OneLine, EntriesOk, Normalized, TagOk, Find;
    var sections := SectionsOf(SplitLines(text), false);
    AcceptedIsOk(text, false);
    SplitLinesOneLine(text);
    HeadersOneLine(SplitLines(text));
    FindNone(sections, tag);
    var k :| 0 <= k < |sections| && sections[k].tag == tag;
    FindIs(sections, tag, k);
    assert NormalizedSections(sections)[k] == sections[k];
  }

  // ----- A legacy lock whose tag ends in white space -----

  function LegacyLock(tag: string, python: string, requirements: string, e: Entry): string {
    TextOf(["# " + "schema" + ": " + "1"] + ["# " + "python" + ": " + python]
      + ["# " + "source-requirements-sha256" + ": " + requirements] + ["# " + "platform" + ": " + tag]
      + [RenderEntry(e)])
  }

  lemma LegacyHeaders(tag: string, python: string, requirements: string, e: Entry)
    requires WellFormed(e) && OneLine(tag) && OneLine(python) && OneLine(requirements)
    ensures var h := HeadersOf(SplitLines(LegacyLock(tag, python, requirements, e)));
      && Get(h, "schema") == Some("1") && Get(h, "platform") == Some(tag)
      && Get(h, "source-requirements-sha256") == Some(requirements)
    ensures SplitLines(LegacyLock(tag, python, requirements, e))
      == ["# " + "schema" + ": " + "1"] + ["# " + "python" + ": " + python]
        + ["# " + "source-requirements-sha256" + ": " + requirements] + ["# " + "platform" + ": " + tag]
        + [RenderEntry(e)]
  {
    hide OneLine, HeadersOf, HeaderOf, WellFormed, SplitLines, TextOf, RenderEntry;
    var one := ["# " + "schema" + ": " + "1"];
    var two := one + ["# " + "python" + ": " + python];
    var three := two + ["# " + "source-requirements-sha256" + ": " + requirements];
    var four := three + ["# " + "platform" + ": " + tag];
    HeaderAdded([], "schema", "1");
    assert [] + one == one;
    HeaderAdded(one, "python", python);
    HeaderAdded(two, "source-requirements-sha256", requirements);
    HeaderAdded(three, "platform", tag);
    EntryAddsNoHeader(four, e);
    KeysOneLine();
    HeaderOneLine("schema", "1");
    HeaderOneLine("python", python);
    HeaderOneLine("source-requirements-sha256", requirements);
    HeaderOneLine("platform", tag);
    EntryOneLine(e);
    SplitLinesOfText(four + [RenderEntry(e)]);
  }

  lemma EntryAddsNoHeader(lines: seq<string>, e: Entry)
    requires WellFormed(e)
    ensures HeadersOf(lines + [RenderEntry(e)]) == HeadersOf(lines)
  {
    hide WellFormed, RenderEntry, Strip, HeadersOf;
    EntryKept(e);
    HeadersSnoc(lines, RenderEntry(e));
  }

  lemma KeysOneLine()
    ensures OneLine("1") && OneLine("schema") && OneLine("python") && OneLine("platform")
    ensures OneLine("source-requirements-sha256") && OneLine("# ") && OneLine(": ")
  {
  }

  lemma HeaderOneLine(key: string, value: string)
    requires OneLine(key) && OneLine(value) && OneLine("# ") && OneLine(": ")
    ensures OneLine("# " + key + ": " + value)
  {
    hide OneLine;
    OneLineConcat("# ", key);
    OneLineConcat("# " + key, ": ");
    OneLineConcat("# " + key + ": ", value);
  }

  lemma {:induction false} LegacyComments(comments: seq<string>, line: string)
    requires forall i :: 0 <= i < |comments| ==> StartsWith(comments[i], "#")
    requires !StartsWith(line, "#") && Strip(IsSpace, line) == line && line != ""
    ensures LegacyLines(comments + [line]) == [line]
  {
    hide Strip, StartsWith;
    var all := comments + [line];
    if comments == [] {
      assert all == [line] && all[1..] == [];
    } else {
      assert all[0] == comments[0] && all[1..] == comments[1..] + [line];
      LegacyComments(comments[1..], line);
    }
  }

  lemma HeaderIsComment(key: string, value: string)
    ensures StartsWith("# " + key + ": " + value, "#")
  {
  }

  lemma EntryIsNoComment(e: Entry)
    requires WellFormed(e)
    ensures RenderEntry(e) != "" && !StartsWith(RenderEntry(e), "#") && Strip(IsSpace, RenderEntry(e)) == RenderEntry(e)
  {
    hide WellFormed, RenderEntry, Strip;
    EntryKept(e);
    assert "#"[0] == '#';
  }

  lemma OneEntryParses(e: Entry)
    requires WellFormed(e)
    ensures EntriesParse([RenderEntry(e)])
  {
    hide WellFormed, RenderEntry, MatchLine;
    RenderedMatches(e);
  }

  lemma LegacyEntries(tag: string, python: string, requirements: string, e: Entry)
    requires WellFormed(e)
    ensures LegacyLines(["# " + "schema" + ": " + "1"] + ["# " + "python" + ": " + python]
        + ["# " + "source-requirements-sha256" + ": " + requirements] + ["# " + "platform" + ": " + tag]
        + [RenderEntry(e)])
      == [RenderEntry(e)]
  {
    hide WellFormed, RenderEntry, Strip, StartsWith, LegacyLines;
    HeaderIsComment("schema", "1");
    HeaderIsComment("python", python);
    HeaderIsComment("source-requirements-sha256", requirements);
    HeaderIsComment("platform", tag);
    EntryIsNoComment(e);
    LegacyComments(["# " + "schema" + ": " + "1"] + ["# " + "python" + ": " + python]
      + ["# " + "source-requirements-sha256" + ": " + requirements] + ["# " + "platform" + ": " + tag], RenderEntry(e));
  }

  /**
   Every legacy lock with such a tag is accepted, and refreshing any platform of it loses the section it held.
   */
  lemma LegacyTagLost(tag: string, e: Entry, platform: string, resolved: seq<Entry>, python: string,
                      requirements: string)
    requires tag != "" && OneLine(tag) && IsSpace(tag[|tag| - 1]) && WellFormed(e)
    requires PlatformOk(platform) && ResolvedOk(resolved) && OneLine(python) && OneLine(requirements)
    ensures var previous := LegacyLock(tag, python, requirements, e);
      && Accepted(SplitLines(previous), true) && !LegacyTagKept(previous)
      && var kept := SectionsOf(SplitLines(previous), true);
      && Find(kept, tag).Some?
      && !KeepsOthers(kept, Refreshed(kept, platform, resolved, python, requirements), platform)
  {
    hide SplitLines, HeadersOf, WellFormed, LegacyLock, LegacyLines, EntriesParse, ResolvedOk, PlatformOk, OneLine,
         KeepsOthers, Refreshed, IsSpace;
    var previous := LegacyLock(tag, python, requirements, e);
    LegacyHeaders(tag, python, requirements, e);
    LegacyEntries(tag, python, requirements, e);
    OneEntryParses(e);
    RefreshKeepsOthers(previous, platform, resolved, python, requirements);
  }

  /** One such lock, with one package; its section for `a ` is lost when platform `b` is refreshed. */
  lemma SmallestLegacyTagLost()
    ensures var e := Entry("x", "1", seq(64, _ => '0'));
      var previous := LegacyLock("a ", "3.12", "r", e);
      && Accepted(SplitLines(previous), true) && !LegacyTagKept(previous)
      && !KeepsOthers(SectionsOf(SplitLines(previous), true),
                      Refreshed(SectionsOf(SplitLines(previous), true), "b", [e], "3.12", "r"), "b")
  {
    hide SplitLines, LegacyLock, KeepsOthers, Refreshed, ResolvedOk, LegacyTagKept, Accepted;
    var e := Entry("x", "1", seq(64, _ => '0'));
    OneEntryOk(e);
    assert OneLine("a ") && OneLine("3.12") && OneLine("r") && IsSpace("a "[1]);
    LegacyTagLost("a ", e, "b", [e], "3.12", "r");
  }

  lemma OneEntryOk(e: Entry)
    requires e.name == "x" && e.version == "1" && e.digest == seq(64, _ => '0')
    ensures WellFormed(e) && ResolvedOk([e])
  {
    assert Normalize("x") == "x" by { assert "x"[1..] == ""; }
    assert Normalized([e]) == [e];
  }
}
