/**
  The five passes as the program runs them, line slices rewritten in place under flags, and
  the pipeline that chains them (repairConstrainedCustomToolInput and what it calls).
 */
module PatchPasses {
  import opened Wrappers
  import opened Text
  import opened PatchLines
  import opened PatchCanonical
  import opened PatchEnvelopes
  import opened PatchRepair

  /** What a pass returns: the rewritten text, or nothing where it changes no line. */
  function Outcome(before: seq<string>, after: seq<string>): Option<string> {
    if after == before then None else Some(TextOf(after))
  }

  method RepairRepeatedEnvelopes(input: string) returns (r: Option<string>)
    ensures r == match MergedBody(input)
                 case None => None
                 case Some(body) => Some(TextOf(MergedLines(body)))
  {
    var trimmed := TrimSpace(input);
    if Count(trimmed, BEGIN) < 2 {
      if MergedBody(input).Some? { CountGuardRedundant(input); }
      return None;
    }
    var lines := Split(trimmed, '\n');
    var body: seq<string> := [];
    var inEnvelope := false;
    var envelopes: nat := 0;
    var i := 0;
    while i < |lines|
      invariant 0 <= i <= |lines|
      invariant ScanLines(SCAN_START, lines) == ScanLines(Scan(inEnvelope, envelopes, body), lines[i..])
    {
      var line := lines[i];
      assert lines[i..][0] == line && lines[i..][1..] == lines[i + 1..];
      if line == BEGIN {
        if inEnvelope {
          return None;
        }
        inEnvelope := true;
        envelopes := envelopes + 1;
      } else if line == END {
        if !inEnvelope {
          return None;
        }
        inEnvelope := false;
      } else if !inEnvelope {
        if TrimSpace(line) != "" {
          return None;
        }
      } else {
        body := body + [line];
      }
      i := i + 1;
    }
    assert lines[i..] == [];
    if inEnvelope || envelopes < 2 || |body| == 0 {
      return None;
    }
    MergedText(body);
    return Some(BEGIN + "\n" + Join(body, "\n") + "\n" + END + "\n");
  }

  lemma {:induction false} JoinAppend(a: seq<string>, b: seq<string>, sep: string)
    requires a != [] && b != []
    ensures Join(a + b, sep) == Join(a, sep) + sep + Join(b, sep)
  {
    if |a| == 1 {
      assert (a + b)[1..] == b;
    } else {
      assert (a + b)[1..] == a[1..] + b;
      JoinAppend(a[1..], b, sep);
    }
  }

  lemma MergedText(body: seq<string>)
    requires body != []
    ensures TextOf(MergedLines(body)) == BEGIN + "\n" + Join(body, "\n") + "\n" + END + "\n"
  {
    JoinAppend([BEGIN], body, "\n");
    JoinAppend([BEGIN] + body, [END, ""], "\n");
    assert [END, ""][1..] == [""];
    assert Join([END, ""], "\n") == END + "\n" + "";
  }

  method RepairEmptyHunkHeaders(input: string) returns (r: Option<string>)
    ensures r == Outcome(LinesOf(input), FixEmptyHeaders(LinesOf(input)))
  {
    var before := Split(input, '\n');
    var lines, changed := before, false;
    ghost var fixed := FixEmptyHeaders(before);
    for i := 0 to |lines|
      invariant lines == fixed[..i] + before[i..]
      invariant changed <==> fixed[..i] != before[..i]
    {
      UpdateStep(fixed, before, i);
      assert fixed[i] == EmptyHeaderLine(before[i]);
      if lines[i] == "@@ " {
        lines := lines[i := "@@"];
        changed := true;
      }
    }
    WholeUpdate(fixed, before);
    if !changed {
      return None;
    }
    return Some(Join(lines, "\n"));
  }

  /** A pass that goes through the lines in order holds the new ones before the place it is at. */
  lemma UpdateStep(fixed: seq<string>, before: seq<string>, i: nat)
    requires |fixed| == |before| && i < |before|
    ensures (fixed[..i] + before[i..])[i] == before[i]
    ensures (fixed[..i] + before[i..])[i := fixed[i]] == fixed[..i + 1] + before[i + 1..]
    ensures fixed[..i + 1] != before[..i + 1] <==> fixed[..i] != before[..i] || fixed[i] != before[i]
  {
    assert fixed[..i + 1] == fixed[..i] + [fixed[i]] && before[..i + 1] == before[..i] + [before[i]];
  }

  lemma WholeUpdate(fixed: seq<string>, before: seq<string>)
    requires |fixed| == |before|
    ensures fixed[..|before|] == fixed && before[..|before|] == before &&
            fixed[..|before|] + before[|before|..] == fixed
  {
  }

  method RepairUnifiedDiffHunkHeaders(input: string) returns (r: Option<string>)
    ensures r == Outcome(LinesOf(input), FixHeaders(LinesOf(input)))
  {
    var before := Split(input, '\n');
    var lines, changed := before, false;
    ghost var fixed := FixHeaders(before);
    for i := 0 to |lines|
      invariant lines == fixed[..i] + before[i..]
      invariant changed <==> fixed[..i] != before[..i]
    {
      UpdateStep(fixed, before, i);
      var rewritten := HeaderStep(before, i, lines[i]);
      if rewritten.Some? {
        lines := lines[i := rewritten.value];
        changed := true;
      }
    }
    WholeUpdate(fixed, before);
    if !changed {
      return None;
    }
    return Some(Join(lines, "\n"));
  }

  method HeaderStep(ghost before: seq<string>, ghost i: nat, line: string) returns (replaced: Option<string>)
    requires i < |before| && line == before[i]
    ensures replaced.Some? <==> FixHeaders(before)[i] != line
    ensures FixHeaders(before)[i] == if replaced.Some? then replaced.value else line
  {
    replaced := RewriteUnifiedDiffHunkHeader(line);
    if replaced.Some? {
      RewriteShortens(line);
    }
  }

  method RewriteUnifiedDiffHunkHeader(line: string) returns (r: Option<string>)
    ensures r == RewriteHeader(line)
  {
    var trimmed := TrimSpace(line);
    if !("@@ " <= trimmed) {
      return None;
    }
    var fields := Fields(trimmed[3..]);
    if |fields| < 3 || fields[2] != "@@" {
      return None;
    }
    var removed := IsUnifiedDiffRange(fields[0], '-');
    var added := IsUnifiedDiffRange(fields[1], '+');
    if !removed || !added {
      return None;
    }
    if |fields| == 3 {
      return Some("@@");
    }
    return Some("@@ " + Join(fields[3..], " "));
  }

  /** The digits, and at most one comma with digits on both sides, that may follow the prefix. */
  method IsUnifiedDiffRange(value: string, prefix: char) returns (r: bool)
    ensures r <==> IsRange(value, prefix)
  {
    if |value| < 2 || value[0] != prefix {
      return false;
    }
    var seenComma := false;
    ghost var comma := 0;
    var i := 1;
    while i < |value|
      invariant 1 <= i <= |value|
      invariant seenComma ==> 1 < comma < i && comma < |value| - 1 && value[comma] == ','
      invariant forall k :: 1 <= k < i && !(seenComma && k == comma) ==> '0' <= value[k] <= '9'
    {
      var ch := value[i];
      if '0' <= ch <= '9' {
      } else if ch == ',' && !seenComma && i > 1 && i < |value| - 1 {
        seenComma := true;
        comma := i;
      } else {
        NotRange(value, prefix, seenComma, comma, i);
        return false;
      }
      i := i + 1;
    }
    if seenComma {
      assert AllDigits(value[1..comma]) && AllDigits(value[comma + 1..]);
    } else {
      assert AllDigits(value[1..]);
    }
    return true;
  }

  lemma DigitsBetween(value: string, a: nat, b: nat)
    requires a <= b <= |value|
    ensures AllDigits(value[a..b]) <==> a < b && forall i :: a <= i < b ==> '0' <= value[i] <= '9'
  {
    var part := value[a..b];
    assert forall i :: a <= i < b ==> value[i] == part[i - a];
  }

  lemma NotRange(value: string, prefix: char, seenComma: bool, comma: nat, i: nat)
    requires 1 <= i < |value| && !('0' <= value[i] <= '9')
    requires seenComma ==> 1 < comma < i && value[comma] == ','
    requires value[i] == ',' && !seenComma ==> i == 1 || i == |value| - 1
    ensures !IsRange(value, prefix)
  {
    DigitsBetween(value, 1, |value|);
    assert value[1..|value|] == value[1..];
    forall k | 1 < k < |value| - 1 && value[k] == ','
      ensures !(AllDigits(value[1..k]) && AllDigits(value[k + 1..]))
    {
      DigitsBetween(value, 1, k);
      DigitsBetween(value, k + 1, |value|);
      assert value[k + 1..|value|] == value[k + 1..];
    }
  }

  /** The sections that start before `i` are done with, and nothing after is touched yet. */
  ghost predicate DoneTo(before: seq<string>, lines: seq<string>, i: nat) {
    && i <= |lines| == |before|
    && (forall k :: 0 <= k < i ==> lines[k] == WholeFileLine(before, k))
    && (forall k :: i <= k < |lines| ==> lines[k] == before[k])
    && (forall h :: 0 <= h < i && IsBare(before, h) ==> BodyEnd(before, h + 1) <= i)
  }

  predicate AnyBare(lines: seq<string>, i: nat) {
    exists h :: 0 <= h < i && IsBare(lines, h)
  }

  lemma DoneLine(before: seq<string>, lines: seq<string>, i: nat)
    requires DoneTo(before, lines, i) && i < |lines| && !IsBare(before, i)
    ensures DoneTo(before, lines, i + 1) && (AnyBare(before, i + 1) <==> AnyBare(before, i))
  {
    assert !InBareBody(before, i);
  }

  lemma DoneSection(before: seq<string>, lines: seq<string>, i: nat, after: seq<string>, end: nat)
    requires DoneTo(before, lines, i) && i < |lines| && IsBare(before, i) && end == BodyEnd(before, i + 1)
    requires |after| == |lines| && after[i] == AsAdd(lines[i])
    requires forall k :: 0 <= k < |lines| && k != i ==> after[k] == if i < k < end then "+" + lines[k] else lines[k]
    ensures DoneTo(before, after, end) && AnyBare(before, end)
  {
    BareBodyLines(before, i);
  }

  method RepairUnprefixedWholeFileHunks(input: string) returns (r: Option<string>)
    ensures r == Outcome(LinesOf(input), FixWholeFiles(LinesOf(input)))
  {
    var lines := Split(input, '\n');
    ghost var before := lines;
    var changed := false;
    var i: nat := 0;
    while i < |lines|
      invariant DoneTo(before, lines, i)
      invariant changed <==> AnyBare(before, i)
    {
      SuffixBare(before, lines, i);
      var bare, bodyEnd := IsBareSection(lines, i);
      if !bare {
        DoneLine(before, lines, i);
        i := i + 1;
        continue;
      }
      ghost var earlier := lines;
      if UPDATE <= lines[i] {
        lines := lines[i := ADD + lines[i][|UPDATE|..]];
      }
      lines := PrefixBody(lines, i + 1, bodyEnd);
      DoneSection(before, earlier, i, lines, bodyEnd);
      changed := true;
      i := bodyEnd;
    }
    WholeFilesDecided(before, lines);
    return if changed then Some(Join(lines, "\n")) else None;
  }

  lemma WholeFilesDecided(before: seq<string>, lines: seq<string>)
    requires DoneTo(before, lines, |lines|)
    ensures lines == FixWholeFiles(before) && (lines != before <==> AnyBare(before, |lines|))
  {
    assert lines == FixWholeFiles(before);
    if h :| 0 <= h < |before| && IsBare(before, h) {
      BareChanges(before, h);
    } else {
      assert FixWholeFiles(before) == before;
    }
  }

  /** Does an Add or Update section start here whose body has neither `@@` nor `+` lines, and where does it end? */
  method IsBareSection(lines: seq<string>, index: nat) returns (bare: bool, bodyEnd: nat)
    requires index < |lines|
    ensures bare <==> IsBare(lines, index)
    ensures bare ==> bodyEnd == BodyEnd(lines, index + 1)
  {
    var line := lines[index];
    if !(ADD <= line) && !(UPDATE <= line) {
      return false, 0;
    }
    var bodyStart := index + 1;
    var hasPatchSyntax;
    bodyEnd, hasPatchSyntax := FindBody(lines, bodyStart);
    if bodyEnd == bodyStart || hasPatchSyntax {
      return false, bodyEnd;
    }
    var body := lines[bodyStart..bodyEnd];
    var hasAdd := HasAddPrefixes(body);
    assert forall k :: bodyStart <= k < bodyEnd ==> body[k - bodyStart] == lines[k];
    return !hasAdd, bodyEnd;
  }

  method FindBody(lines: seq<string>, start: nat) returns (bodyEnd: nat, hasPatchSyntax: bool)
    requires start <= |lines|
    ensures bodyEnd == BodyEnd(lines, start)
    ensures hasPatchSyntax <==> exists k :: start <= k < bodyEnd && IsAt(lines[k])
  {
    bodyEnd := start;
    hasPatchSyntax := false;
    while bodyEnd < |lines| && !IsStar(lines[bodyEnd])
      invariant start <= bodyEnd <= |lines|
      invariant BodyEnd(lines, start) == BodyEnd(lines, bodyEnd)
      invariant hasPatchSyntax <==> exists k :: start <= k < bodyEnd && IsAt(lines[k])
    {
      if IsAt(lines[bodyEnd]) {
        hasPatchSyntax := true;
      }
      bodyEnd := bodyEnd + 1;
    }
  }

  method HasAddPrefixes(lines: seq<string>) returns (r: bool)
    ensures r <==> exists k :: 0 <= k < |lines| && IsPlus(lines[k])
  {
    for i := 0 to |lines|
      invariant forall k :: 0 <= k < i ==> !IsPlus(lines[k])
    {
      if IsPlus(lines[i]) {
        return true;
      }
    }
    return false;
  }

  method PrefixBody(lines: seq<string>, start: nat, end: nat) returns (r: seq<string>)
    requires start <= end <= |lines|
    ensures |r| == |lines|
    ensures forall k :: 0 <= k < |lines| ==> r[k] == if start <= k < end then "+" + lines[k] else lines[k]
  {
    r := lines;
    for i := start to end
      invariant |r| == |lines|
      invariant forall k :: 0 <= k < |lines| ==> r[k] == if start <= k < i then "+" + lines[k] else lines[k]
    {
      r := r[i := "+" + r[i]];
    }
  }

  lemma {:induction false} SuffixBody(before: seq<string>, lines: seq<string>, k: nat)
    requires |before| == |lines| && k <= |lines| && forall i :: k <= i < |lines| ==> lines[i] == before[i]
    ensures BodyEnd(lines, k) == BodyEnd(before, k)
    decreases |lines| - k
  {
    if k < |lines| && !IsStar(lines[k]) { SuffixBody(before, lines, k + 1); }
  }

  lemma BareBodyLines(lines: seq<string>, h: nat)
    requires IsBare(lines, h)
    ensures forall k :: h < k < BodyEnd(lines, h + 1) ==> WholeFileLine(lines, k) == "+" + lines[k] && !IsBare(lines, k)
  {
    forall k | h < k < BodyEnd(lines, h + 1)
      ensures WholeFileLine(lines, k) == "+" + lines[k] && !IsBare(lines, k)
    {
      Kinds(lines[k]);
      assert InBareBody(lines, k);
    }
  }

  lemma SuffixBare(before: seq<string>, lines: seq<string>, h: nat)
    requires |before| == |lines| && h < |lines| && forall i :: h <= i < |lines| ==> lines[i] == before[i]
    ensures IsBare(lines, h) <==> IsBare(before, h)
    ensures BodyEnd(lines, h + 1) == BodyEnd(before, h + 1)
  {
    SuffixBody(before, lines, h + 1);
  }

  lemma BareChanges(lines: seq<string>, h: nat)
    requires IsBare(lines, h)
    ensures FixWholeFiles(lines) != lines
  {
    BareBodyLines(lines, h);
    var k := h + 1;
    assert FixWholeFiles(lines)[k] == "+" + lines[k];
    assert |"+" + lines[k]| == 1 + |lines[k]|;
  }

  /** One line of the context pass: what replaces it, and whether the next one is in a hunk. */
  method ContextStep(ghost before: seq<string>, ghost i: nat, line: string, inUpdateHunk: bool)
    returns (replaced: Option<string>, next: bool)
    requires i < |before| && line == before[i] && inUpdateHunk == InHunk(before, i)
    ensures next == InHunk(before, i + 1)
    ensures replaced.Some? <==> FixContext(before)[i] != line
    ensures FixContext(before)[i] == if replaced.Some? then replaced.value else line
  {
    replaced, next := None, inUpdateHunk;
    if IsStar(line) {
      next := false;
    } else if IsAt(line) {
      next := true;
    } else if !inUpdateHunk {
    } else if line == "" {
      replaced := Some(" ");
      assert " " + line == " ";
    } else if line[0] == '+' || line[0] == '-' || line[0] == ' ' {
    } else {
      replaced := Some(" " + line);
      assert |" " + line| == 1 + |line|;
    }
  }

  /** The context pass up to line `i`. */
  ghost predicate ContextUpTo(before: seq<string>, i: nat, lines: seq<string>, inUpdateHunk: bool, changed: bool) {
    && i <= |before|
    && lines == FixContext(before)[..i] + before[i..]
    && inUpdateHunk == InHunk(before, i)
    && (changed <==> FixContext(before)[..i] != before[..i])
  }

  method RepairUnprefixedContextLines(input: string) returns (r: Option<string>)
    ensures r == Outcome(LinesOf(input), FixContext(LinesOf(input)))
  {
    var before := Split(input, '\n');
    var lines, changed := PrefixContext(before);
    if !changed {
      return None;
    }
    return Some(Join(lines, "\n"));
  }

  method PrefixContext(before: seq<string>) returns (lines: seq<string>, changed: bool)
    ensures lines == FixContext(before) && (changed <==> FixContext(before) != before)
  {
    var inUpdateHunk := false;
    lines, changed := before, false;
    for i := 0 to |before|
      invariant ContextUpTo(before, i, lines, inUpdateHunk, changed)
    {
      lines, inUpdateHunk, changed := ContextRound(before, i, lines, inUpdateHunk, changed);
    }
    WholeUpdate(FixContext(before), before);
  }

  method ContextRound(ghost before: seq<string>, i: nat, lines: seq<string>, inUpdateHunk: bool, changed: bool)
    returns (newLines: seq<string>, next: bool, newChanged: bool)
    requires i < |before| && ContextUpTo(before, i, lines, inUpdateHunk, changed)
    ensures ContextUpTo(before, i + 1, newLines, next, newChanged)
  {
    UpdateStep(FixContext(before), before, i);
    var replaced;
    replaced, next := ContextStep(before, i, lines[i], inUpdateHunk);
    ContextNext(before, i, lines, inUpdateHunk, changed, replaced, next);
    newLines, newChanged := lines, changed;
    if replaced.Some? {
      newLines := lines[i := replaced.value];
      newChanged := true;
    }
  }

  lemma ContextNext(before: seq<string>, i: nat, lines: seq<string>, inUpdateHunk: bool, changed: bool,
                    replaced: Option<string>, next: bool)
    requires i < |before| && ContextUpTo(before, i, lines, inUpdateHunk, changed)
    requires next == InHunk(before, i + 1) && (replaced.Some? <==> FixContext(before)[i] != before[i])
    requires FixContext(before)[i] == if replaced.Some? then replaced.value else before[i]
    ensures ContextUpTo(before, i + 1, if replaced.Some? then lines[i := replaced.value] else lines, next,
                        changed || replaced.Some?)
  {
    var fixed := FixContext(before);
    UpdateStep(fixed, before, i);
    assert fixed[i] == before[i] ==> lines[i := fixed[i]] == lines;
  }

  lemma LooseChangesIff(lines: seq<string>)
    ensures FixContext(lines) != lines <==> exists i :: 0 <= i < |lines| && IsLoose(lines, i)
  {
    if i :| 0 <= i < |lines| && IsLoose(lines, i) {
      assert |FixContext(lines)[i]| == |lines[i]| + 1;
    }
  }

  // ---------------------------------------------------------------- the pipeline

  function Lower(s: string): string {
    seq(|s|, i requires 0 <= i < |s| => if 'A' <= s[i] <= 'Z' then s[i] - 'A' + 'a' else s[i])
  }

  predicate IsApplyPatch(name: string) {
    Lower(TrimSpace(name)) == "apply_patch"
  }

  /** The passes in order, each on the output of the one before. */
  method RepairInput(name: string, input: string) returns (repaired: string, changed: bool)
    ensures !IsApplyPatch(name) ==> repaired == "" && !changed
    ensures IsApplyPatch(name) ==> repaired == Repair(input) && (changed <==> Defective(input))
  {
    if !IsApplyPatch(name) {
      return "", false;
    }
    repaired, changed := input, false;
    var merged := RepairRepeatedEnvelopes(input);
    if merged.Some? {
      repaired, changed := merged.value, true;
    }
    ghost var l1 := LinesAfterMerge(input);
    MergedLinesFree(input);
    JoinSplit(input, '\n');
    SplitJoin(l1, '\n');
    StagesFree(l1);
    ghost var l2 := FixEmptyHeaders(l1);
    ghost var l3 := FixHeaders(l2);
    ghost var l4 := FixWholeFiles(l3);
    ghost var l5 := FixContext(l4);
    assert repaired == TextOf(l1) && (changed <==> MergedBody(input).Some?);
    SplitJoin(l2, '\n');
    SplitJoin(l3, '\n');
    SplitJoin(l4, '\n');
    var next := RepairEmptyHunkHeaders(repaired);
    if next.Some? {
      repaired, changed := next.value, true;
    }
    assert repaired == TextOf(l2) && (changed <==> MergedBody(input).Some? || l2 != l1);
    next := RepairUnifiedDiffHunkHeaders(repaired);
    if next.Some? {
      repaired, changed := next.value, true;
    }
    assert repaired == TextOf(l3) && (changed <==> MergedBody(input).Some? || l2 != l1 || l3 != l2);
    next := RepairUnprefixedWholeFileHunks(repaired);
    if next.Some? {
      repaired, changed := next.value, true;
    }
    assert repaired == TextOf(l4) && (changed <==> MergedBody(input).Some? || l2 != l1 || l3 != l2 || l4 != l3);
    next := RepairUnprefixedContextLines(repaired);
    if next.Some? {
      repaired, changed := next.value, true;
    }
    StagesChange(input);
  }

  lemma StagesFree(l1: seq<string>)
    requires AllFree(l1, '\n')
    ensures AllFree(FixEmptyHeaders(l1), '\n')
    ensures AllFree(FixHeaders(FixEmptyHeaders(l1)), '\n')
    ensures AllFree(FixWholeFiles(FixHeaders(FixEmptyHeaders(l1))), '\n')
  {
    var l2 := FixEmptyHeaders(l1);
    var l3 := FixHeaders(l2);
    forall i | 0 <= i < |l1|
      ensures Free(l2[i], '\n') && Free(l3[i], '\n') && Free(WholeFileLine(l3, i), '\n')
    {
      assert Free(l1[i], '\n');
      if RewriteHeader(l2[i]).Some? { SurvivorFree(l2[i], l3[i]); }
    }
  }

  lemma StagesChange(input: string)
    ensures var l1 := LinesAfterMerge(input);
            var l2 := FixEmptyHeaders(l1);
            var l3 := FixHeaders(l2);
            var l4 := FixWholeFiles(l3);
            Defective(input) <==> MergedBody(input).Some? || l2 != l1 || l3 != l2 || l4 != l3 || FixContext(l4) != l4
  {
    if MergedBody(input).None? {
      var l1 := LinesOf(input);
      assert NoEmptyHeaders(l1) <==> FixEmptyHeaders(l1) == l1;
      FixHeadersChanges(l1);
      if h :| 0 <= h < |l1| && IsBare(l1, h) { BareChanges(l1, h); } else { assert FixWholeFiles(l1) == l1; }
      LooseChangesIff(l1);
    }
  }
}
