/** What a rendered compaction shows, and where: its lines are read back as the summary and the four lists. */
module CompactionSections {
  import opened Wrappers
  import opened Text
  import opened CompactionState

  // ---------------------------------------------------------------- reading a rendered text

  /** The entries at the front: the lines that start with a dash and a blank. */
  function Entries(lines: seq<string>): seq<string> {
    if lines == [] || !("- " <= lines[0]) then [] else [lines[0][2..]] + Entries(lines[1..])
  }

  /** The entries under the first such title that stands behind an empty line. */
  function EntriesUnder(lines: seq<string>, title: string): seq<string> {
    if |lines| < 2 then []
    else if lines[0] == "" && lines[1] == title + ":" then Entries(lines[2..])
    else EntriesUnder(lines[1..], title)
  }

  // ---------------------------------------------------------------- the lines of a section

  datatype Section = Section(title: string, values: seq<string>)

  function Bullets(values: seq<string>): seq<string> {
    seq(|values|, k requires 0 <= k < |values| => "- " + values[k])
  }

  function SectionLines(s: Section): seq<string> {
    if s.values == [] then [] else ["", s.title + ":"] + (Bullets(s.values) + [""])
  }

  function AllLines(sections: seq<Section>): seq<string> {
    if sections == [] then [] else SectionLines(sections[0]) + AllLines(sections[1..])
  }

  lemma {:induction false} EntriesOfBullets(values: seq<string>, rest: seq<string>)
    ensures Entries(Bullets(values) + ([""] + rest)) == values
    decreases values
  {
    var all := Bullets(values) + ([""] + rest);
    if values == [] {
      assert all[0] == "";
    } else {
      assert all[0] == "- " + values[0] && all[0][2..] == values[0];
      assert Bullets(values)[1..] == Bullets(values[1..]);
      assert all[1..] == Bullets(values[1..]) + ([""] + rest);
      EntriesOfBullets(values[1..], rest);
      assert values == [values[0]] + values[1..];
    }
  }

  /** Lines that are not empty hold no section. */
  lemma {:induction false} SkipLines(lines: seq<string>, rest: seq<string>, title: string)
    requires forall i :: 0 <= i < |lines| ==> lines[i] != ""
    ensures EntriesUnder(lines + rest, title) == EntriesUnder(rest, title)
    decreases lines
  {
    if lines == [] {
      assert lines + rest == rest;
    } else {
      assert (lines + rest)[0] == lines[0] && (lines + rest)[1..] == lines[1..] + rest;
      SkipLines(lines[1..], rest, title);
    }
  }

  /** What follows a section is another one, or nothing. */
  predicate StartsEmpty(rest: seq<string>) {
    rest == [] || rest[0] == ""
  }

  lemma SkipSection(s: Section, rest: seq<string>, title: string)
    requires s.title + ":" != title + ":" && StartsEmpty(rest)
    ensures EntriesUnder(SectionLines(s) + rest, title) == EntriesUnder(rest, title)
  {
    if s.values == [] {
      assert SectionLines(s) + rest == rest;
    } else {
      var tail := [""] + rest;
      var full := [s.title + ":"] + Bullets(s.values);
      var all := SectionLines(s) + rest;
      assert all == [""] + (full + tail);
      assert all[0] == "" && all[1] == s.title + ":" && all[1..] == full + tail;
      SkipLines(full, tail, title);
      EmptyPair(rest, title);
    }
  }

  lemma EmptyPair(rest: seq<string>, title: string)
    requires StartsEmpty(rest)
    ensures EntriesUnder([""] + rest, title) == EntriesUnder(rest, title)
  {
    var all := [""] + rest;
    assert all[1..] == rest;
    assert title + ":" != "";
  }

  lemma FindSection(s: Section, rest: seq<string>)
    requires s.values != []
    ensures EntriesUnder(SectionLines(s) + rest, s.title) == s.values
  {
    var all := SectionLines(s) + rest;
    assert all[0] == "" && all[1] == s.title + ":" && all[2..] == Bullets(s.values) + ([""] + rest);
    EntriesOfBullets(s.values, rest);
  }

  predicate DistinctTitles(sections: seq<Section>) {
    forall i, j :: 0 <= i < j < |sections| ==> sections[i].title + ":" != sections[j].title + ":"
  }

  lemma {:induction false} AllStartEmpty(sections: seq<Section>)
    ensures StartsEmpty(AllLines(sections))
    decreases sections
  {
    if sections != [] { AllStartEmpty(sections[1..]); }
  }

  lemma {:induction false} NoSection(sections: seq<Section>, title: string)
    requires forall i :: 0 <= i < |sections| ==> sections[i].title + ":" != title + ":"
    ensures EntriesUnder(AllLines(sections), title) == []
    decreases sections
  {
    if sections != [] {
      AllStartEmpty(sections[1..]);
      SkipSection(sections[0], AllLines(sections[1..]), title);
      NoSection(sections[1..], title);
    }
  }

  /** Each section is found under its own title. */
  lemma {:induction false} SectionFound(sections: seq<Section>, k: nat)
    requires DistinctTitles(sections) && k < |sections|
    ensures EntriesUnder(AllLines(sections), sections[k].title) == sections[k].values
    decreases sections
  {
    var rest := sections[1..];
    AllStartEmpty(rest);
    if k > 0 {
      SkipSection(sections[0], AllLines(rest), sections[k].title);
      assert rest[k - 1] == sections[k];
      SectionFound(rest, k - 1);
    } else if sections[0].values == [] {
      assert AllLines(sections) == AllLines(rest);
      NoSection(rest, sections[0].title);
    } else {
      FindSection(sections[0], AllLines(rest));
    }
  }

  // ---------------------------------------------------------------- the text of the sections

  lemma {:induction false} JoinConcat(a: seq<string>, b: seq<string>, sep: string)
    requires a != [] && b != []
    ensures Join(a + b, sep) == Join(a, sep) + sep + Join(b, sep)
    decreases a
  {
    if |a| == 1 {
      assert (a + b)[1..] == b;
    } else {
      assert (a + b)[1..] == a[1..] + b;
      JoinConcat(a[1..], b, sep);
      assert a[0] + sep + (Join(a[1..], sep) + sep + Join(b, sep)) ==
             a[0] + sep + Join(a[1..], sep) + sep + Join(b, sep);
    }
  }

  predicate AllShowable(values: seq<string>) {
    forall k :: 0 <= k < |values| ==> values[k] != "" && IsTrimmed(values[k])
  }

  lemma {:induction false} EntriesText(values: seq<string>)
    requires values != [] && AllShowable(values)
    ensures WriteEntries(values) == Join(Bullets(values), "\n") + "\n"
    decreases values
  {
    var n := |values| - 1;
    var last := "- " + values[n];
    TrimOfTrimmed(values[n]);
    if n == 0 {
      assert Bullets(values) == [last] && values[..0] == [];
      assert WriteEntries(values) == "" + (last + "\n");
    } else {
      EntriesText(values[..n]);
      assert Bullets(values) == Bullets(values[..n]) + [last];
      JoinSnoc(Bullets(values[..n]), last, "\n");
      assert WriteEntries(values) == Join(Bullets(values[..n]), "\n") + "\n" + (last + "\n");
    }
  }

  lemma ListText(s: Section)
    requires s.values != [] && AllShowable(s.values)
    ensures WriteList(s.title, s.values) == "\n" + Join(SectionLines(s), "\n")
  {
    var bullets := Bullets(s.values);
    EntriesText(s.values);
    JoinSnoc(bullets, "", "\n");
    var head := ["", s.title + ":"];
    JoinConcat(head, bullets + [""], "\n");
    assert head[1..] == [s.title + ":"];
    assert Join(head, "\n") == "" + "\n" + (s.title + ":");
    assert "\n\n" + s.title + ":\n" + (Join(bullets, "\n") + "\n") ==
           "\n" + (("" + "\n" + (s.title + ":")) + "\n" + (Join(bullets, "\n") + "\n" + ""));
  }

  /** Writing a list behind lines is adding its lines. */
  lemma AddSection(lines: seq<string>, s: Section)
    requires lines != [] && AllShowable(s.values)
    ensures Join(lines + SectionLines(s), "\n") == Join(lines, "\n") + WriteList(s.title, s.values)
  {
    if s.values == [] {
      assert lines + [] == lines && Join(lines, "\n") + "" == Join(lines, "\n");
    } else {
      ListText(s);
      JoinConcat(lines, SectionLines(s), "\n");
      Associative(Join(lines, "\n"), "\n", Join(SectionLines(s), "\n"));
    }
  }

  // ---------------------------------------------------------------- the whole text

  function SectionsOf(s: State): seq<Section> {
    [Section("Key facts", s.keyFacts), Section("Constraints", s.constraints),
     Section("Open loops", s.openLoops), Section("Recent tool state", s.toolState)]
  }

  predicate Showable(s: State) {
    AllShowable(s.keyFacts) && AllShowable(s.constraints) && AllShowable(s.openLoops) && AllShowable(s.toolState)
  }

  /** No line breaks in the lists. */
  predicate OneLiners(s: State) {
    && AllFree(s.keyFacts, '\n') && AllFree(s.constraints, '\n')
    && AllFree(s.openLoops, '\n') && AllFree(s.toolState, '\n')
  }

  const TITLE_LINE := "Compacted prior context summary:"

  function AllText(sections: seq<Section>): string {
    if sections == [] then "" else WriteList(sections[0].title, sections[0].values) + AllText(sections[1..])
  }

  lemma {:induction false} AddSections(lines: seq<string>, sections: seq<Section>)
    requires lines != [] && forall i :: 0 <= i < |sections| ==> AllShowable(sections[i].values)
    ensures Join(lines + AllLines(sections), "\n") == Join(lines, "\n") + AllText(sections)
    decreases sections
  {
    if sections == [] {
      assert lines + [] == lines && Join(lines, "\n") + "" == Join(lines, "\n");
    } else {
      var s, rest := sections[0], sections[1..];
      var more, last := SectionLines(s), AllLines(rest);
      AddSection(lines, s);
      AddSections(lines + more, rest);
      Regroup(lines, more, last);
      Associative(Join(lines, "\n"), WriteList(s.title, s.values), AllText(rest));
    }
  }

  lemma Regroup<T>(a: seq<T>, b: seq<T>, c: seq<T>)
    ensures a + (b + c) == a + b + c
  {
  }

  function Written(s: Section): string {
    WriteList(s.title, s.values)
  }

  lemma FourTexts(a: Section, b: Section, c: Section, d: Section)
    ensures AllText([a, b, c, d]) == Written(a) + Written(b) + Written(c) + Written(d)
  {
    assert [d][1..] == [] && AllText([d]) == Written(d) + "";
    assert [c, d][1..] == [d] && AllText([c, d]) == Written(c) + Written(d);
    assert [b, c, d][1..] == [c, d] && AllText([b, c, d]) == Written(b) + (Written(c) + Written(d));
    assert [a, b, c, d][1..] == [b, c, d];
    assert Written(a) + (Written(b) + (Written(c) + Written(d))) == Written(a) + Written(b) + Written(c) + Written(d);
  }

  lemma ListsAreSections(s: State)
    ensures Lists(s) == AllText(SectionsOf(s))
  {
    FourTexts(Section("Key facts", s.keyFacts), Section("Constraints", s.constraints),
              Section("Open loops", s.openLoops), Section("Recent tool state", s.toolState));
  }

  lemma FourLists(summary: string, s: State)
    requires Showable(s)
    ensures HEADING + summary + Lists(s) == Join([TITLE_LINE, summary] + AllLines(SectionsOf(s)), "\n")
  {
    var head := [TITLE_LINE, summary];
    assert head[1..] == [summary] && Join(head, "\n") == TITLE_LINE + "\n" + summary;
    assert HEADING == TITLE_LINE + "\n";
    ListsAreSections(s);
    AddSections(head, SectionsOf(s));
  }

  predicate AllOneLiners(sections: seq<Section>) {
    forall i :: 0 <= i < |sections| ==> Free(sections[i].title, '\n') && AllFree(sections[i].values, '\n')
  }

  lemma {:induction false} LinesFree(sections: seq<Section>)
    requires AllOneLiners(sections)
    ensures AllFree(AllLines(sections), '\n')
    decreases sections
  {
    if sections != [] {
      LinesFree(sections[1..]);
      var s := sections[0];
      forall k | 0 <= k < |s.values| ensures Free(Bullets(s.values)[k], '\n') { assert Free(s.values[k], '\n'); }
    }
  }

  lemma NormalShowable(s: State)
    ensures Showable(Normalize(s))
  {
    NormalizeListNormal(s.keyFacts, 16, 512);
    NormalizeListNormal(s.constraints, 16, 512);
    NormalizeListNormal(s.openLoops, 16, 512);
    NormalizeListNormal(s.toolState, 16, 512);
  }

  /** The summary that is shown: that of the state, else that of the payload, else a fixed phrase. */
  function SummaryShown<R>(p: Payload<R>): string {
    var own := if p.state.Some? then TrimSpace(Normalize(p.state.value).summary) else "";
    if own != "" then own
    else if TrimSpace(p.summary) != "" then TrimSpace(p.summary)
    else "No prior context was provided."
  }

  lemma RenderLines<R>(p: Payload<R>, s: State)
    requires p.state == Some(s)
    ensures Render(p) == Join([TITLE_LINE, SummaryShown(p)] + AllLines(SectionsOf(Normalize(s))), "\n")
    ensures SummaryShown(p) != ""
  {
    NormalShowable(s);
    FourLists(SummaryShown(p), Normalize(s));
    if IsEmpty(s) {
      EmptyNormal(s);
      EmptyLists(Normalize(s));
      assert HEADING + SummaryShown(p) + "" == HEADING + SummaryShown(p);
    }
  }

  lemma EmptyNormal(s: State)
    requires IsEmpty(s)
    ensures IsEmpty(Normalize(s)) && TrimSpace(Normalize(s).summary) == ""
  {
    assert TrimSpace("") == "";
  }

  lemma TitlesDiffer(s: State)
    ensures DistinctTitles(SectionsOf(s))
    ensures OneLiners(s) ==> AllOneLiners(SectionsOf(s))
  {
    assert "Key facts"[0] == 'K' && "Constraints"[0] == 'C' && "Open loops"[0] == 'O' && "Recent tool state"[0] == 'R';
  }

  /**
    Where the summary and the entries are single lines, the rendered text read line by line shows the
    summary on the second line, and each list of the normalised state under its own title.
   */
  lemma RenderedSections<R>(p: Payload<R>, s: State)
    requires p.state == Some(s) && OneLiners(Normalize(s)) && Free(SummaryShown(p), '\n')
    ensures var lines, normal := Split(Render(p), '\n'), Normalize(s);
            && |lines| >= 2 && lines[0] == "Compacted prior context summary:" && lines[1] == SummaryShown(p)
            && EntriesUnder(lines, "Key facts") == normal.keyFacts
            && EntriesUnder(lines, "Constraints") == normal.constraints
            && EntriesUnder(lines, "Open loops") == normal.openLoops
            && EntriesUnder(lines, "Recent tool state") == normal.toolState
  {
    RenderedLines(p, s);
    ListsRead([TITLE_LINE, SummaryShown(p)], Normalize(s));
  }

  lemma RenderedLines<R>(p: Payload<R>, s: State)
    requires p.state == Some(s) && OneLiners(Normalize(s)) && Free(SummaryShown(p), '\n')
    ensures var head, sections := [TITLE_LINE, SummaryShown(p)], SectionsOf(Normalize(s));
            Readable(head, sections) && Split(Render(p), '\n') == head + AllLines(sections)
  {
    RenderLines(p, s);
    TitlesDiffer(Normalize(s));
    HeadReadable(SummaryShown(p), SectionsOf(Normalize(s)));
    SectionsRead([TITLE_LINE, SummaryShown(p)], SectionsOf(Normalize(s)));
  }

  lemma HeadReadable(summary: string, sections: seq<Section>)
    requires summary != "" && Free(summary, '\n') && DistinctTitles(sections)
    requires AllOneLiners(sections)
    ensures Readable([TITLE_LINE, summary], sections)
  {
    assert Free(TITLE_LINE, '\n');
  }

  lemma ListsRead(head: seq<string>, s: State)
    requires Readable(head, SectionsOf(s))
    ensures var lines := head + AllLines(SectionsOf(s));
            && EntriesUnder(lines, "Key facts") == s.keyFacts
            && EntriesUnder(lines, "Constraints") == s.constraints
            && EntriesUnder(lines, "Open loops") == s.openLoops
            && EntriesUnder(lines, "Recent tool state") == s.toolState
  {
    var sections := SectionsOf(s);
    SectionRead(head, sections, 0);
    SectionRead(head, sections, 1);
    SectionRead(head, sections, 2);
    SectionRead(head, sections, 3);
  }

  predicate Readable(head: seq<string>, sections: seq<Section>) {
    && head != [] && (forall i :: 0 <= i < |head| ==> head[i] != "" && Free(head[i], '\n'))
    && DistinctTitles(sections) && AllOneLiners(sections)
  }

  lemma SectionsRead(head: seq<string>, sections: seq<Section>)
    requires Readable(head, sections)
    ensures Split(Join(head + AllLines(sections), "\n"), '\n') == head + AllLines(sections)
  {
    LinesFree(sections);
    SplitJoin(head + AllLines(sections), '\n');
  }

  lemma SectionRead(head: seq<string>, sections: seq<Section>, k: nat)
    requires Readable(head, sections) && k < |sections|
    ensures EntriesUnder(head + AllLines(sections), sections[k].title) == sections[k].values
  {
    SkipLines(head, AllLines(sections), sections[k].title);
    SectionFound(sections, k);
  }

  /** Without a state there is the heading and the summary. */
  lemma RenderedSummary<R>(p: Payload<R>)
    requires p.state.None?
    ensures Render(p) == "Compacted prior context summary:\n" + SummaryShown(p)
  {
  }
}
