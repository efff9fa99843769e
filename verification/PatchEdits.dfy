/** Which edit each line of a patch gets, said on the lines that come in. */
module PatchEdits {
  import opened Wrappers
  import opened Text
  import opened PatchLines
  import opened PatchCanonical
  import opened PatchRepair
  import opened PatchDouble

  // ---------------------------------------------------------------- sections and hunks of the input

  predicate IsStarred(line: string) {
    "*** " <= line
  }

  predicate HeadsFile(line: string) {
    "*** Add File: " <= line || "*** Update File: " <= line
  }

  /** A hunk header, as it is or as a unified diff writes it. */
  predicate OpensHunk(line: string) {
    "@@" <= line || RangesAt(HeaderFieldsOf(line), 0)
  }

  /** The section of the file headed at `h` ends before `e`. */
  predicate IsSection(lines: seq<string>, h: nat, e: nat) {
    && h < e <= |lines| && HeadsFile(lines[h])
    && (forall i :: h < i < e ==> !IsStarred(lines[i]))
    && (e < |lines| ==> IsStarred(lines[e]))
  }

  /** It has lines, and none of them says how it changes the file. */
  predicate IsBareSection(lines: seq<string>, h: nat, e: nat) {
    && IsSection(lines, h, e) && h + 1 < e
    && forall i :: h < i < e ==> !OpensHunk(lines[i]) && !("+" <= lines[i])
  }

  predicate HeadsBare(lines: seq<string>, h: nat) {
    exists e :: 0 <= e <= |lines| && IsBareSection(lines, h, e)
  }

  predicate InBare(lines: seq<string>, i: nat) {
    exists h, e :: 0 <= h < i < e <= |lines| && IsBareSection(lines, h, e)
  }

  /** A hunk header stands above line `i`, with no `*** ` line from there on. */
  predicate HunkOpen(lines: seq<string>, i: nat)
    requires i <= |lines|
  {
    exists k :: 0 <= k < i && OpenFrom(lines, k, i)
  }

  predicate OpenFrom(lines: seq<string>, k: nat, i: nat)
    requires k < i <= |lines|
  {
    OpensHunk(lines[k]) && forall j :: k <= j < i ==> !IsStarred(lines[j])
  }

  predicate NeedsBlank(lines: seq<string>, i: nat)
    requires i < |lines|
  {
    var a := lines[i];
    && HunkOpen(lines, i) && !IsStarred(a) && !OpensHunk(a)
    && !("+" <= a) && !("-" <= a) && !(" " <= a)
  }

  // ---------------------------------------------------------------- the two header passes

  function Headed(lines: seq<string>): seq<string> {
    FixHeaders(FixEmptyHeaders(lines))
  }

  lemma HeaderText(line: string)
    requires RangesAt(HeaderFieldsOf(line), 0)
    ensures var f := HeaderFieldsOf(line);
            RewriteHeader(line) == Some(if |f| == 3 then "@@" else "@@ " + Join(f[3..], " "))
  {
    RewrittenIff(line);
  }

  lemma HeadedLine(lines: seq<string>, i: nat)
    requires i < |lines|
    ensures var a, b := lines[i], Headed(lines)[i];
            && (a == "@@ " ==> b == "@@" && !RangesAt(HeaderFieldsOf(a), 0))
            && (RangesAt(HeaderFieldsOf(a), 0) ==> RewriteHeader(a) == Some(b))
            && (a != "@@ " && !RangesAt(HeaderFieldsOf(a), 0) ==> b == a)
            && (IsAt(b) <==> OpensHunk(a)) && (IsStar(b) <==> IsStarred(a))
            && (IsPlus(b) <==> "+" <= a) && (IsFileHeader(b) <==> HeadsFile(a))
  {
    var a, b := lines[i], Headed(lines)[i];
    EmptyHeaderIsNone();
    RewrittenIff(a);
    if a == "@@ " {
      HeaderOpens("@@ ");
    } else if RangesAt(HeaderFieldsOf(a), 0) {
      RewrittenIsAt(a);
      Kinds(a);
      Kinds(b);
      RangeIsNoPlus(a);
    }
  }

  lemma HeaderOpens(line: string)
    requires line == "@@ "
    ensures IsAt(line) && IsAt("@@") && !IsStar("@@") && !IsPlus("@@") && !IsFileHeader("@@")
  {
    Kinds(line);
    Kinds("@@");
  }

  lemma RangeIsNoPlus(line: string)
    requires RewriteHeader(line).Some?
    ensures !("+" <= line)
  {
    if line != "" && !IsSpace(line[0]) { TrimKeepsFirst(line); }
    assert !IsSpace('+');
  }

  // ---------------------------------------------------------------- the structure is that of the input

  predicate SameRole(a: string, b: string) {
    && (IsAt(b) <==> OpensHunk(a)) && (IsStar(b) <==> IsStarred(a))
    && (IsPlus(b) <==> "+" <= a) && (IsFileHeader(b) <==> HeadsFile(a))
  }

  predicate SameRoles(lines: seq<string>, l: seq<string>) {
    |l| == |lines| && forall i :: 0 <= i < |lines| ==> SameRole(lines[i], l[i])
  }

  lemma HeadedRoles(lines: seq<string>)
    ensures SameRoles(lines, Headed(lines))
  {
    forall i | 0 <= i < |lines| ensures SameRole(lines[i], Headed(lines)[i]) { HeadedLine(lines, i); }
  }

  lemma BareEnd(lines: seq<string>, l: seq<string>, h: nat)
    requires SameRoles(lines, l) && h < |lines|
    ensures IsBare(l, h) <==> IsBareSection(lines, h, BodyEnd(l, h + 1))
  {
    var e := BodyEnd(l, h + 1);
    assert SameRole(lines[h], l[h]);
    if e < |lines| { assert SameRole(lines[e], l[e]); }
    if IsBare(l, h) {
      forall i | h < i < e ensures !IsStarred(lines[i]) && !OpensHunk(lines[i]) && !("+" <= lines[i]) {
        assert SameRole(lines[i], l[i]);
      }
    }
    if IsBareSection(lines, h, e) {
      forall i | h < i < e ensures !IsAt(l[i]) && !IsPlus(l[i]) {
        assert SameRole(lines[i], l[i]);
      }
    }
  }

  lemma SectionEnd(lines: seq<string>, h: nat)
    requires h < |lines|
    ensures IsBare(Headed(lines), h) <==> IsBareSection(lines, h, BodyEnd(Headed(lines), h + 1))
  {
    HeadedRoles(lines);
    BareEnd(lines, Headed(lines), h);
  }

  lemma OneEnd(lines: seq<string>, h: nat, e: nat)
    requires IsBareSection(lines, h, e)
    ensures e == BodyEnd(Headed(lines), h + 1)
  {
    var l, b := Headed(lines), BodyEnd(Headed(lines), h + 1);
    if e < |lines| { HeadedLine(lines, e); }
    if b < |lines| { HeadedLine(lines, b); }
  }

  lemma BareIff(lines: seq<string>, h: nat)
    requires h < |lines|
    ensures IsBare(Headed(lines), h) <==> HeadsBare(lines, h)
  {
    SectionEnd(lines, h);
    if HeadsBare(lines, h) {
      var e :| 0 <= e <= |lines| && IsBareSection(lines, h, e);
      OneEnd(lines, h, e);
    }
  }

  lemma BodyIff(lines: seq<string>, i: nat)
    requires i < |lines|
    ensures InBareBody(Headed(lines), i) <==> InBare(lines, i)
  {
    var l := Headed(lines);
    if h :| 0 <= h < i && IsBare(l, h) && i < BodyEnd(l, h + 1) {
      SectionEnd(lines, h);
    }
    if InBare(lines, i) {
      var h, e :| 0 <= h < i < e <= |lines| && IsBareSection(lines, h, e);
      OneEnd(lines, h, e);
      SectionEnd(lines, h);
    }
  }

  lemma OpenStep(lines: seq<string>, k: nat, i: nat)
    requires k < i < |lines|
    ensures OpenFrom(lines, k, i + 1) <==> OpenFrom(lines, k, i) && !IsStarred(lines[i])
  {
  }

  lemma HunkStep(lines: seq<string>, i: nat)
    requires i < |lines|
    ensures HunkOpen(lines, i + 1) <==> !IsStarred(lines[i]) && (OpensHunk(lines[i]) || HunkOpen(lines, i))
  {
    assert OpenFrom(lines, i, i + 1) <==> OpensHunk(lines[i]) && !IsStarred(lines[i]);
    if HunkOpen(lines, i + 1) {
      var k :| 0 <= k < i + 1 && OpenFrom(lines, k, i + 1);
      if k < i { OpenStep(lines, k, i); }
    }
    if !IsStarred(lines[i]) && HunkOpen(lines, i) {
      var k :| 0 <= k < i && OpenFrom(lines, k, i);
      OpenStep(lines, k, i);
    }
  }

  lemma {:induction false} HunkIffOn(lines: seq<string>, l: seq<string>, i: nat)
    requires SameRoles(lines, l) && i <= |lines|
    ensures InHunk(l, i) <==> HunkOpen(lines, i)
    decreases i
  {
    if i > 0 {
      assert SameRole(lines[i - 1], l[i - 1]);
      HunkIffOn(lines, l, i - 1);
      HunkStep(lines, i - 1);
    }
  }

  lemma HunkIff(lines: seq<string>, i: nat)
    requires i <= |lines|
    ensures InHunk(Headed(lines), i) <==> HunkOpen(lines, i)
  {
    HeadedRoles(lines);
    HunkIffOn(lines, Headed(lines), i);
  }

  // ---------------------------------------------------------------- which edit

  /** What one line becomes. */
  predicate GetsItsEdit(lines: seq<string>, i: nat, b: string)
    requires i < |lines|
  {
    var a, f := lines[i], HeaderFieldsOf(lines[i]);
    && (a == "@@ " ==> b == "@@")
    && (RangesAt(f, 0) ==> b == if |f| == 3 then "@@" else "@@ " + Join(f[3..], " "))
    && (HeadsBare(lines, i) && "*** Update File: " <= a ==> b == "*** Add File: " + a[|"*** Update File: "|..])
    && (InBare(lines, i) ==> b == "+" + a)
    && (NeedsBlank(lines, i) ==> b == " " + a)
    && (b != a ==>
          || a == "@@ " || RangesAt(f, 0) || (HeadsBare(lines, i) && "*** Update File: " <= a)
          || InBare(lines, i) || NeedsBlank(lines, i))
  }

  lemma OpeningEdit(lines: seq<string>, i: nat)
    requires i < |lines| && OpensHunk(lines[i])
    ensures RepairLines(lines)[i] == Headed(lines)[i]
    ensures !HeadsBare(lines, i) && !InBare(lines, i)
  {
    HeadedLine(lines, i);
    var l := Headed(lines);
    AtUntouched(l, i);
    AtUntouched(FixWholeFiles(l), i);
    BareIff(lines, i);
    BodyIff(lines, i);
    Kinds(l[i]);
  }

  lemma OtherEdit(lines: seq<string>, i: nat)
    requires i < |lines| && !OpensHunk(lines[i])
    ensures var l := Headed(lines);
            && l[i] == lines[i] && RepairLines(lines) == FixContext(FixWholeFiles(l))
            && (IsBare(l, i) <==> HeadsBare(lines, i)) && (InBareBody(l, i) <==> InBare(lines, i))
            && (IsLoose(FixWholeFiles(l), i) <==> !InBare(lines, i) && NeedsBlank(lines, i))
  {
    var l := Headed(lines);
    var next := FixWholeFiles(l);
    HeadedLine(lines, i);
    BareIff(lines, i);
    BodyIff(lines, i);
    HunkIff(lines, i);
    WholeFilesKinds(l);
    SameInHunk(l, next, i);
    assert SameKind(l[i], next[i]);
    Kinds(l[i]);
    Kinds(next[i]);
    if InBareBody(l, i) && !IsBare(l, i) { assert next[i][0] == '+'; }
  }

  /** A line of a bare section is in no hunk. */
  lemma BareIsNoHunk(lines: seq<string>, i: nat)
    requires i < |lines| && InBare(lines, i)
    ensures !HunkOpen(lines, i) && !HeadsBare(lines, i)
  {
    var h, e :| 0 <= h < i < e <= |lines| && IsBareSection(lines, h, e);
    assert IsStarred(lines[h]) by { StarredHead(lines[h]); }
    assert !IsStarred(lines[i]);
    StarredHead(lines[i]);
  }

  lemma StarredHead(line: string)
    ensures HeadsFile(line) ==> IsStarred(line)
  {
    Kinds(line);
  }

  lemma WhichEditOnLines(lines: seq<string>, i: nat)
    requires i < |lines|
    ensures GetsItsEdit(lines, i, RepairLines(lines)[i])
  {
    var a := lines[i];
    HeadedLine(lines, i);
    if OpensHunk(a) {
      OpeningEdit(lines, i);
      if RangesAt(HeaderFieldsOf(a), 0) { HeaderText(a); }
    } else {
      OtherEdit(lines, i);
      if InBare(lines, i) { BareIsNoHunk(lines, i); }
      OtherIsGiven(lines, i);
    }
  }

  lemma OtherIsGiven(lines: seq<string>, i: nat)
    requires i < |lines| && !OpensHunk(lines[i])
    ensures var a, b := lines[i], RepairLines(lines)[i];
            && (HeadsBare(lines, i) ==> b == if "*** Update File: " <= a then "*** Add File: " + a[17..] else a)
            && (InBare(lines, i) ==> b == "+" + a)
            && (!HeadsBare(lines, i) && !InBare(lines, i) && NeedsBlank(lines, i) ==> b == " " + a)
            && (!HeadsBare(lines, i) && !InBare(lines, i) && !NeedsBlank(lines, i) ==> b == a)
  {
    var l := Headed(lines);
    OtherEdit(lines, i);
    if InBare(lines, i) { BareIsNoHunk(lines, i); }
    if HeadsBare(lines, i) { BareHeadIsStar(lines, i); }
  }

  lemma BareHeadIsStar(lines: seq<string>, h: nat)
    requires h < |lines| && HeadsBare(lines, h)
    ensures IsStarred(lines[h]) && !NeedsBlank(lines, h)
  {
    StarredHead(lines[h]);
  }

  /** For every text, each line that reaches the line passes gets exactly the edit its place calls for. */
  lemma WhichEdit(text: string, i: nat)
    requires i < |LinesAfterMerge(text)|
    ensures |LinesOf(Repair(text))| == |LinesAfterMerge(text)|
    ensures GetsItsEdit(LinesAfterMerge(text), i, LinesOf(Repair(text))[i])
  {
    RepairSettles(text);
    WhichEditOnLines(LinesAfterMerge(text), i);
  }
}
