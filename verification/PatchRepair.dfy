/** The whole repair of an apply_patch input: what it computes, and the laws it satisfies. */
module PatchRepair {
  import opened Wrappers
  import opened Text
  import opened PatchLines
  import opened PatchCanonical
  import opened PatchEnvelopes
  import opened PatchStable

  function LinesOf(text: string): seq<string> {
    Split(text, '\n')
  }

  function TextOf(lines: seq<string>): string {
    Join(lines, "\n")
  }

  /** The lines the line passes start from: those of the merged text, if there is merging to do. */
  function LinesAfterMerge(text: string): seq<string> {
    match MergedBody(text)
    case Some(body) => MergedLines(body)
    case None => LinesOf(text)
  }

  function Repair(text: string): string {
    TextOf(RepairLines(LinesAfterMerge(text)))
  }

  // ---------------------------------------------------------------- no line breaks appear

  lemma {:induction false} FieldsFree(s: string, c: char)
    requires Free(s, c)
    ensures AllFree(Fields(s), c)
    decreases |s|
  {
    if s != "" {
      if IsSpace(s[0]) { FieldsFree(s[1..], c); } else { FieldsFree(s[WordEnd(s, 0)..], c); }
    }
  }

  lemma {:induction false} JoinFree(pieces: seq<string>, sep: string, c: char)
    requires AllFree(pieces, c) && Free(sep, c)
    ensures Free(Join(pieces, sep), c)
  {
    if |pieces| > 0 {
      assert Free(pieces[0], c);
      var rest := pieces[1..];
      forall i | 0 <= i < |rest| ensures Free(rest[i], c) { assert Free(pieces[i + 1], c); }
      JoinFree(rest, sep, c);
    }
  }

  lemma SurvivorFree(a: string, b: string)
    requires Survives(a, b) && Free(a, '\n')
    ensures Free(b, '\n')
  {
    if RewriteHeader(a) == Some(b) {
      var x, y := TrimParts(a);
      var trimmed := TrimSpace(a);
      var fields := Fields(trimmed[3..]);
      FieldsFree(trimmed[3..], '\n');
      if |fields| > 3 {
        forall i | 0 <= i < |fields[3..]| ensures Free(fields[3..][i], '\n') { assert Free(fields[i + 3], '\n'); }
        JoinFree(fields[3..], " ", '\n');
      }
    }
  }

  lemma RepairedFree(lines: seq<string>)
    requires AllFree(lines, '\n')
    ensures AllFree(RepairLines(lines), '\n')
  {
    forall i | 0 <= i < |lines|
      ensures Free(RepairLines(lines)[i], '\n')
    {
      assert Free(lines[i], '\n');
      EveryLineSurvives(lines, i);
      SurvivorFree(lines[i], RepairLines(lines)[i]);
    }
  }

  lemma {:induction false} BodyFromLines(st: Scan, lines: seq<string>)
    requires ScanLines(st, lines).Some?
    ensures forall l :: l in ScanLines(st, lines).value.body ==> l in st.body || (l in lines && !IsMarker(l))
    ensures forall l :: l in st.body ==> l in ScanLines(st, lines).value.body
    ensures forall l :: l in lines ==> IsMarker(l) || IsBlank(l) || l in ScanLines(st, lines).value.body
    decreases lines
  {
    if lines != [] {
      BodyFromLines(ScanLine(st, lines[0]).value, lines[1..]);
    }
  }

  lemma MergedLinesFree(text: string)
    ensures |LinesAfterMerge(text)| > 0 && AllFree(LinesAfterMerge(text), '\n')
    ensures MergedBody(TextOf(LinesAfterMerge(text))).None?
  {
    if MergedBody(text).Some? {
      var t := TrimmedLines(text);
      var body := MergedBody(text).value;
      BodyFromLines(SCAN_START, t);
      SplitFree(TrimSpace(text), '\n');
      forall i | 0 <= i < |body|
        ensures Free(body[i], '\n') && !IsMarker(body[i])
      {
        assert body[i] in t;
      }
      MergedOnce(body);
    } else {
      SplitFree(text, '\n');
      JoinSplit(text, '\n');
    }
  }

  // ---------------------------------------------------------------- canonical output

  /** Nothing is left to merge, and the lines are canonical. */
  predicate Settled(text: string) {
    MergedBody(text).None? && Canonical(LinesOf(text))
  }

  lemma StaysUnmergeable(lines: seq<string>)
    requires |lines| > 0 && AllFree(lines, '\n') && MergedBody(TextOf(lines)).None?
    ensures MergedBody(TextOf(RepairLines(lines))).None?
  {
    var out := RepairLines(lines);
    RepairedFree(lines);
    forall i | 0 <= i < |lines|
      ensures Follows(lines[i], out[i])
    {
      EveryLineSurvives(lines, i);
      SurvivesFollows(lines[i], out[i]);
    }
    if MergedBody(TextOf(out)).Some? {
      NeverNewlyMergeable(lines, out);
    }
  }

  /** For every input the output is settled, and its lines are the repaired ones. */
  lemma RepairSettles(text: string)
    ensures Settled(Repair(text)) && LinesOf(Repair(text)) == RepairLines(LinesAfterMerge(text))
  {
    var lines := LinesAfterMerge(text);
    MergedLinesFree(text);
    RepairedFree(lines);
    SplitJoin(RepairLines(lines), '\n');
    RepairIsCanonical(lines);
    StaysUnmergeable(lines);
  }

  // ---------------------------------------------------------------- nothing is lost

  /** Every line that reaches the line passes comes out in its place, with at most one edit. */
  lemma NothingLost(text: string, i: nat)
    requires i < |LinesAfterMerge(text)|
    ensures |LinesOf(Repair(text))| == |LinesAfterMerge(text)|
    ensures Survives(LinesAfterMerge(text)[i], LinesOf(Repair(text))[i])
  {
    RepairSettles(text);
    EveryLineSurvives(LinesAfterMerge(text), i);
  }

  // ---------------------------------------------------------------- convergence

  lemma {:induction false} JoinLength(a: seq<string>, b: seq<string>)
    requires |a| == |b| && forall i :: 0 <= i < |a| ==> |a[i]| <= |b[i]|
    ensures |TextOf(a)| <= |TextOf(b)|
    ensures (exists i :: 0 <= i < |a| && |a[i]| < |b[i]|) ==> |TextOf(a)| < |TextOf(b)|
  {
    if |a| > 1 {
      JoinLength(a[1..], b[1..]);
      if i :| 0 <= i < |a| && |a[i]| < |b[i]| {
        if i > 0 { assert a[1..][i - 1] == a[i] && b[1..][i - 1] == b[i]; }
      }
    }
  }

  /** On a settled text only the header pass acts; what it changes gets strictly shorter, and stays settled. */
  lemma SettledStep(text: string)
    requires Settled(text)
    ensures Repair(text) == TextOf(FixHeaders(LinesOf(text))) && Settled(Repair(text))
    ensures Repair(text) != text ==> |Repair(text)| < |text|
    ensures Repair(text) == text <==> NoRangeHeaders(LinesOf(text))
  {
    var lines := LinesOf(text);
    var next := FixHeaders(lines);
    OnlyHeadersFireAgain(lines);
    RepairSettles(text);
    JoinSplit(text, '\n');
    FixHeadersChanges(lines);
    forall i | 0 <= i < |lines|
      ensures |next[i]| <= |lines[i]| && (next[i] != lines[i] ==> |next[i]| < |lines[i]|)
    {
      if RewriteHeader(lines[i]).Some? { RewriteShortens(lines[i]); }
    }
    JoinLength(next, lines);
    if next != lines {
      var i :| 0 <= i < |lines| && next[i] != lines[i];
    }
  }

  function Iterate(f: string -> string, n: nat, text: string): string {
    if n == 0 then text else Iterate(f, n - 1, f(text))
  }

  lemma {:induction false} ShrinkingConverges(f: string -> string, p: string -> bool, text: string) returns (n: nat)
    requires p(text) && forall s :: p(s) ==> p(f(s)) && (f(s) != s ==> |f(s)| < |s|)
    ensures n <= |text| && f(Iterate(f, n, text)) == Iterate(f, n, text)
    decreases |text|
  {
    if f(text) == text {
      n := 0;
    } else {
      n := ShrinkingConverges(f, p, f(text));
      n := n + 1;
    }
  }

  lemma IterateStep(f: string -> string, n: nat, text: string)
    ensures Iterate(f, n + 1, text) == Iterate(f, n, f(text))
  {
  }

  lemma SettledShrinks()
    ensures forall s :: Settled(s) ==> Settled(Repair(s)) && (Repair(s) != s ==> |Repair(s)| < |s|)
  {
    forall s | Settled(s)
      ensures Settled(Repair(s)) && (Repair(s) != s ==> |Repair(s)| < |s|)
    {
      SettledStep(s);
    }
  }

  /** Repeating the repair reaches a text it leaves alone, after at most one run more than the first output is long. */
  lemma RepairConverges(text: string) returns (n: nat)
    ensures n <= |Repair(text)| + 1 && Repair(Iterate(Repair, n, text)) == Iterate(Repair, n, text)
  {
    var first := Repair(text);
    assert Settled(first) by { RepairSettles(text); }
    SettledShrinks();
    n := ShrinkingConverges(Repair, Settled, first);
    IterateStep(Repair, n, text);
    n := n + 1;
  }

  // ---------------------------------------------------------------- idempotence

  lemma TrimTwiceLeft(line: string)
    ensures TrimSpace(TrimLeft(line)) == TrimSpace(line)
  {
    var a := TrimLeftParts(line);
    var t := TrimLeft(line);
    assert TrimLeft(t) == t;
  }

  lemma TrimTwiceRight(line: string)
    ensures TrimSpace(TrimRight(line)) == TrimSpace(line)
  {
    var d := TrimRightParts(line);
    var t := TrimRight(line);
    var e, f := TrimParts(t);
    assert line == e + TrimSpace(t) + (f + d);
    TrimAround(e, TrimSpace(t), f + d);
  }

  lemma SameTrimSameDouble(a: string, b: string)
    requires TrimSpace(a) == TrimSpace(b)
    ensures IsDouble(a) <==> IsDouble(b)
  {
  }

  lemma BlankAndMarkersSingle(line: string)
    requires IsBlank(line) || IsMarker(line)
    ensures !IsDouble(line)
  {
    if RewriteHeader(line).Some? {
      RewrittenIsAt(line);
      assert IsStar(BEGIN) && IsStar(END);
    }
  }

  predicate HasDouble(lines: seq<string>) {
    exists i :: 0 <= i < |lines| && IsDouble(lines[i])
  }

  lemma TrimmedDoubles(lines: seq<string>, t: seq<string>, p: nat)
    requires Trims(lines, t, p)
    ensures HasDouble(lines) <==> HasDouble(t)
  {
    forall k | 0 <= k < |t|
      ensures IsDouble(t[k]) <==> IsDouble(lines[p + k])
    {
      TrimTwice(lines[p + k]);
      TrimTwiceLeft(lines[p + k]);
      TrimTwiceRight(lines[p + k]);
      SameTrimSameDouble(t[k], lines[p + k]);
    }
    forall i | 0 <= i < |lines| && IsDouble(lines[i])
      ensures HasDouble(t)
    {
      if i < p || p + |t| <= i { BlankAndMarkersSingle(lines[i]); }
      assert IsDouble(t[i - p]);
    }
  }

  lemma BodyDoubles(t: seq<string>, body: seq<string>)
    requires forall l :: l in body ==> l in t
    requires forall l :: l in t ==> IsMarker(l) || IsBlank(l) || l in body
    ensures HasDouble(t) <==> HasDouble(body)
  {
    forall i | 0 <= i < |t| && IsDouble(t[i])
      ensures HasDouble(body)
    {
      if IsBlank(t[i]) || IsMarker(t[i]) { BlankAndMarkersSingle(t[i]); }
      assert t[i] in t;
      var j :| 0 <= j < |body| && body[j] == t[i];
    }
    forall i | 0 <= i < |body| && IsDouble(body[i])
      ensures HasDouble(t)
    {
      assert body[i] in body;
      var j :| 0 <= j < |t| && t[j] == body[i];
    }
  }

  lemma WrappersSingle()
    ensures !IsDouble(BEGIN) && !IsDouble(END) && !IsDouble("")
  {
    AllSpaceIffBlank("");
    BlankAndMarkersSingle(BEGIN);
    BlankAndMarkersSingle(END);
    BlankAndMarkersSingle("");
  }

  lemma WrappedDoubles(body: seq<string>)
    ensures HasDouble(body) <==> HasDouble(MergedLines(body))
  {
    WrappersSingle();
    SomeWrapped(IsDouble, BEGIN, body, END, "");
  }

  lemma SomeWrapped(p: string -> bool, a: string, body: seq<string>, b: string, c: string)
    requires !p(a) && !p(b) && !p(c)
    ensures var lines := [a] + body + [b, c];
            (exists i :: 0 <= i < |body| && p(body[i])) <==> (exists i :: 0 <= i < |lines| && p(lines[i]))
  {
    var lines := [a] + body + [b, c];
    assert forall i :: 0 <= i < |body| ==> lines[i + 1] == body[i];
    assert lines[0] == a && lines[|body| + 1] == b && lines[|body| + 2] == c;
  }

  lemma MergedDoubles(text: string)
    requires MergedBody(text).Some?
    ensures HasDouble(LinesOf(text)) <==> HasDouble(LinesAfterMerge(text))
  {
    var p := MergeableEnds(LinesOf(text), text);
    var t := TrimmedLines(text);
    var body := MergedBody(text).value;
    TrimmedDoubles(LinesOf(text), t, p);
    BodyFromLines(SCAN_START, t);
    BodyDoubles(t, body);
    WrappedDoubles(body);
  }

  /**
    Repairing twice is repairing once exactly when no line of the input is a unified-diff
    header whose trailing text is one as well.
   */
  lemma RepairIdempotentIff(text: string)
    ensures Repair(Repair(text)) == Repair(text) <==> NoDoubles(LinesOf(text))
  {
    var lines := LinesAfterMerge(text);
    var out := Repair(text);
    RepairSettles(text);
    SettledStep(out);
    forall i | 0 <= i < |lines|
      ensures RewriteHeader(LinesOf(out)[i]).Some? <==> IsDouble(lines[i])
    {
      DoubleIffHeaderLeft(lines, i);
    }
    if MergedBody(text).Some? { MergedDoubles(text); }
    assert NoDoubles(lines) <==> !HasDouble(lines);
    assert NoDoubles(LinesOf(text)) <==> !HasDouble(LinesOf(text));
  }

  // ---------------------------------------------------------------- when anything changes

  /** One of the five defects is present. */
  predicate Defective(text: string) {
    var lines := LinesOf(text);
    MergedBody(text).Some? || !NoEmptyHeaders(lines) || !NoRangeHeaders(lines) || !NoBareSections(lines) ||
      !NoLooseLines(lines)
  }

  lemma CleanUnchanged(text: string)
    requires !Defective(text)
    ensures Repair(text) == text
  {
    var lines := LinesOf(text);
    JoinSplit(text, '\n');
    assert FixEmptyHeaders(lines) == lines;
    assert FixHeaders(lines) == lines;
    assert FixWholeFiles(lines) == lines;
    assert FixContext(lines) == lines;
  }

  lemma UnchangedClean(text: string)
    requires Repair(text) == text
    ensures !Defective(text)
  {
    RepairSettles(text);
    SettledStep(text);
  }

  /** The repair leaves a text alone exactly when it has none of the defects. */
  lemma ChangesIffDefective(text: string)
    ensures Repair(text) != text <==> Defective(text)
  {
    if Repair(text) == text {
      UnchangedClean(text);
    } else if !Defective(text) {
      CleanUnchanged(text);
    }
  }
}
