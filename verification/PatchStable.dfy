/** Once merged, or not mergeable, a patch stays so through the other passes. */
module PatchStable {
  import opened Wrappers
  import opened Text
  import opened PatchLines
  import opened PatchEnvelopes

  /** The trimmed text has the lines from `p` on, its first and last line trimmed. */
  predicate Trims(lines: seq<string>, trimmed: seq<string>, p: nat) {
    var n := |trimmed|;
    && n > 0 && p + n <= |lines|
    && (forall i :: 0 <= i < |lines| && (i < p || p + n <= i) ==> IsBlank(lines[i]))
    && !IsBlank(lines[p]) && !IsBlank(lines[p + n - 1])
    && (forall k :: 0 < k < n - 1 ==> trimmed[k] == lines[p + k])
    && (n == 1 ==> trimmed[0] == TrimSpace(lines[p]))
    && (n > 1 ==> trimmed[0] == TrimLeft(lines[p]) && trimmed[n - 1] == TrimRight(lines[p + n - 1]))
  }

  lemma NotSpaceStart(a: string, s: string, b: string)
    requires s != "" && !IsSpace(s[0])
    ensures !IsBlank(a + s + b)
  {
    AllSpaceIffBlank(a + s + b);
    assert (a + s + b)[|a|] == s[0];
    assert s[0] in a + s + b;
  }

  /** The lines of `a + t + b`, in terms of those of the three parts. */
  lemma GluedTwice(x: seq<string>, y: seq<string>, z: seq<string>)
    requires |x| > 0 && |y| > 0 && |z| > 0
    ensures var lines, p, n := Glue(Glue(x, y), z), |x| - 1, |y|;
            && |lines| == p + n + |z| - 1
            && (forall i :: 0 <= i < p ==> lines[i] == x[i])
            && (forall i :: p + n <= i < |lines| ==> lines[i] == z[i - (p + n) + 1])
            && (forall k :: 0 < k < n - 1 ==> lines[p + k] == y[k])
            && (n == 1 ==> lines[p] == x[p] + y[0] + z[0])
            && (n > 1 ==> lines[p] == x[p] + y[0] && lines[p + n - 1] == y[n - 1] + z[0])
  {
  }

  lemma TrimsGlued(x: seq<string>, y: seq<string>, z: seq<string>)
    requires |x| > 0 && |y| > 0 && |z| > 0 && AllPiecesSpace(x) && AllPiecesSpace(z)
    requires y[0] != "" && !IsSpace(y[0][0]) && y[|y| - 1] != "" && !IsSpace(y[|y| - 1][|y[|y| - 1]| - 1])
    ensures Trims(Glue(Glue(x, y), z), y, |x| - 1)
  {
    var lines, p, n := Glue(Glue(x, y), z), |x| - 1, |y|;
    GluedTwice(x, y, z);
    forall i | 0 <= i < |lines| && (i < p || p + n <= i)
      ensures IsBlank(lines[i])
    {
      AllSpaceIffBlank(lines[i]);
    }
    assert AllSpace(x[p]) && AllSpace(z[0]);
    if n == 1 {
      TrimAround(x[p], y[0], z[0]);
    } else {
      TrimLeftSkips(x[p], y[0]);
      TrimRightSkips(y[n - 1], z[0]);
      NotSpaceStart(x[p], y[0], "");
      assert x[p] + y[0] + "" == x[p] + y[0];
      NotSpaceEnd(y[n - 1], z[0]);
    }
  }

  lemma TrimsSplit(text: string) returns (p: nat)
    requires TrimSpace(text) != ""
    ensures Trims(Split(text, '\n'), TrimmedLines(text), p)
  {
    var a, b := TrimParts(text);
    var t := TrimSpace(text);
    SplitConcat(a, t, '\n');
    SplitConcat(a + t, b, '\n');
    SplitAllSpace(a, '\n');
    SplitAllSpace(b, '\n');
    SplitEnds(t, '\n');
    p := |Split(a, '\n')| - 1;
    TrimsGlued(Split(a, '\n'), Split(t, '\n'), Split(b, '\n'));
  }

  lemma NotSpaceEnd(s: string, b: string)
    requires s != "" && !IsSpace(s[|s| - 1])
    ensures !IsBlank(s + b)
  {
    AllSpaceIffBlank(s + b);
    assert (s + b)[|s| - 1] == s[|s| - 1];
    assert s[|s| - 1] in s + b;
  }

  // ---------------------------------------------------------------- edits that keep the envelopes

  /** The edit neither makes nor unmakes a marker, and makes no line blank. */
  predicate Follows(a: string, b: string) {
    FollowsMarker(a, b, BEGIN) && FollowsMarker(a, b, END) && (IsBlank(b) ==> IsBlank(a))
  }

  predicate FollowsMarker(a: string, b: string, m: string) {
    && (b == m <==> a == m)
    && (TrimLeft(b) == m ==> TrimLeft(a) == m)
    && (TrimRight(b) == m ==> TrimRight(a) == m)
  }

  lemma SurvivesFollows(a: string, b: string)
    requires Survives(a, b)
    ensures Follows(a, b)
  {
    Kinds(a);
    Kinds(b);
    assert IsStar(BEGIN) && IsStar(END);
    if a != b {
      FirstChar(a, b);
      TrimRightIsPrefix(b);
      if b == " " + a {
        assert b[1..] == a;
        AllSpaceIffBlank(a);
        AllSpaceIffBlank(b);
      } else {
        TrimKeepsFirst(b);
        MarkersDiffer(a, b);
      }
    }
  }

  lemma TrimRightIsPrefix(s: string)
    ensures TrimRight(s) <= s
  {
    var b := TrimRightParts(s);
  }

  lemma MarkersDiffer(a: string, b: string)
    ensures ADD <= b ==> !(BEGIN <= b) && !(END <= b)
    ensures UPDATE <= a ==> !(BEGIN <= a) && !(END <= a)
  {
    assert ADD[4] == 'A' && UPDATE[4] == 'U' && BEGIN[4] == 'B' && END[4] == 'E';
    assert ADD <= b ==> b[4] == ADD[4];
    assert UPDATE <= a ==> a[4] == UPDATE[4];
    assert BEGIN <= b ==> b[4] == BEGIN[4];
    assert END <= b ==> b[4] == END[4];
    assert BEGIN <= a ==> a[4] == BEGIN[4];
    assert END <= a ==> a[4] == END[4];
  }

  lemma FirstChar(a: string, b: string)
    requires Survives(a, b) && a != b
    ensures b != "" &&
            (b[0] == '@' || b[0] == '+' || (b[0] == '*' && ADD <= b && UPDATE <= a) || (b == " " + a && !IsStar(a)))
    ensures b[0] == '@' ==> !IsMarker(a)
  {
    if RewriteHeader(a) == Some(b) {
      RewrittenIsAt(a);
      Kinds(b);
    }
  }

  predicate SameMark(a: string, b: string) {
    (b == BEGIN <==> a == BEGIN) && (b == END <==> a == END) && (IsBlank(b) ==> IsBlank(a))
  }

  lemma {:induction false} ScanFollows(s: Scan, t: Scan, a: seq<string>, b: seq<string>)
    requires |a| == |b| && forall i :: 0 <= i < |a| ==> SameMark(a[i], b[i])
    requires s.inEnvelope == t.inEnvelope && s.envelopes == t.envelopes && |s.body| == |t.body|
    requires ScanLines(t, b).Some?
    ensures ScanLines(s, a).Some?
    ensures var x, y := ScanLines(s, a).value, ScanLines(t, b).value;
            x.inEnvelope == y.inEnvelope && x.envelopes == y.envelopes && |x.body| == |y.body|
    decreases a
  {
    if a != [] {
      assert SameMark(a[0], b[0]);
      ScanFollows(ScanLine(s, a[0]).value, ScanLine(t, b[0]).value, a[1..], b[1..]);
    }
  }

  lemma {:induction false} LastLineEnds(st: Scan, lines: seq<string>)
    requires lines != [] && ScanLines(st, lines).Some? && !ScanLines(st, lines).value.inEnvelope
    requires !IsBlank(lines[|lines| - 1])
    ensures lines[|lines| - 1] == END
    decreases lines
  {
    var st' := ScanLine(st, lines[0]).value;
    if |lines| > 1 {
      assert lines[1..][|lines| - 2] == lines[|lines| - 1];
      LastLineEnds(st', lines[1..]);
    }
  }

  lemma TrimsUnique(lines: seq<string>, s: seq<string>, p: nat, t: seq<string>, q: nat)
    requires Trims(lines, s, p)
    requires |t| > 0 && q + |t| <= |lines| && !IsBlank(lines[q]) && !IsBlank(lines[q + |t| - 1])
    requires forall i :: 0 <= i < |lines| && (i < q || q + |t| <= i) ==> IsBlank(lines[i])
    ensures p == q && |s| == |t|
  {
  }

  lemma TrimmedBlank(lines: seq<string>, trimmed: seq<string>, p: nat)
    requires Trims(lines, trimmed, p)
    ensures !IsBlank(trimmed[0]) && !IsBlank(trimmed[|trimmed| - 1])
  {
    var n := |trimmed|;
    TrimKeepsBlank(lines[p]);
    TrimKeepsBlank(lines[p + n - 1]);
  }

  /** Trimming on either side does not change whether a line is blank. */
  lemma TrimKeepsBlank(line: string)
    ensures IsBlank(TrimSpace(line)) <==> IsBlank(line)
    ensures IsBlank(TrimLeft(line)) <==> IsBlank(line)
    ensures IsBlank(TrimRight(line)) <==> IsBlank(line)
  {
    TrimSpaceKeepsBlank(line);
    TrimLeftKeepsBlank(line);
    TrimRightKeepsBlank(line);
  }

  lemma TrimSpaceKeepsBlank(line: string)
    ensures IsBlank(TrimSpace(line)) <==> IsBlank(line)
  {
    var a, b := TrimParts(line);
    TrimOfTrimmed(TrimSpace(line));
  }

  lemma TrimLeftKeepsBlank(line: string)
    ensures IsBlank(TrimLeft(line)) <==> IsBlank(line)
  {
    var a := TrimLeftParts(line);
    AllSpaceIffBlank(line);
    AllSpaceIffBlank(TrimLeft(line));
  }

  lemma TrimRightKeepsBlank(line: string)
    ensures IsBlank(TrimRight(line)) <==> IsBlank(line)
  {
    var b := TrimRightParts(line);
    AllSpaceIffBlank(line);
    AllSpaceIffBlank(TrimRight(line));
  }

  /** A mergeable text starts with a begin marker and ends with an end marker, white space aside. */
  lemma MergeableEnds(lines: seq<string>, text: string) returns (p: nat)
    requires lines == Split(text, '\n') && MergedBody(text).Some?
    ensures var t := TrimmedLines(text);
            Trims(lines, t, p) && |t| > 1 && TrimLeft(lines[p]) == BEGIN == t[0] &&
              TrimRight(lines[p + |t| - 1]) == END == t[|t| - 1]
  {
    var t := TrimmedLines(text);
    var i, j := TwoBeginLines(SCAN_START, t);
    assert TrimSpace(text) != "";
    p := TrimsSplit(text);
    TrimmedBlank(lines, t, p);
    LastLineEnds(SCAN_START, t);
  }

  lemma HasLineNotBlank(lines: seq<string>, text: string, p: nat)
    requires lines == Split(text, '\n') && p < |lines| && !IsBlank(lines[p])
    ensures TrimSpace(text) != ""
  {
    AllSpaceIffBlank(text);
    SplitAllSpace(text, '\n');
    AllSpaceIffBlank(lines[p]);
  }

  lemma SameMarks(lines: seq<string>, out: seq<string>, tx: seq<string>, ty: seq<string>, p: nat)
    requires |lines| == |out| && forall i :: 0 <= i < |lines| ==> Follows(lines[i], out[i])
    requires Trims(lines, tx, p) && Trims(out, ty, p) && |tx| == |ty| > 1
    requires ty[0] == BEGIN && ty[|ty| - 1] == END
    ensures forall k :: 0 <= k < |tx| ==> SameMark(tx[k], ty[k])
  {
    var n := |tx|;
    assert Follows(lines[p], out[p]) && Follows(lines[p + n - 1], out[p + n - 1]);
    TrimmedBlank(out, ty, p);
    forall k | 0 <= k < n
      ensures SameMark(tx[k], ty[k])
    {
      if 0 < k < n - 1 { assert Follows(lines[p + k], out[p + k]); }
    }
  }

  /** If the edited text could be merged, so could the text before. */
  lemma NeverNewlyMergeable(lines: seq<string>, out: seq<string>)
    requires |lines| == |out| > 0 && AllFree(lines, '\n') && AllFree(out, '\n')
    requires forall i :: 0 <= i < |lines| ==> Follows(lines[i], out[i])
    requires MergedBody(Join(out, "\n")).Some?
    ensures MergedBody(Join(lines, "\n")).Some?
  {
    SplitJoin(lines, '\n');
    SplitJoin(out, '\n');
    NeverNewlyMergeableText(lines, out, Join(lines, "\n"), Join(out, "\n"));
  }

  lemma NeverNewlyMergeableText(lines: seq<string>, out: seq<string>, x: string, y: string)
    requires lines == Split(x, '\n') && out == Split(y, '\n') && |lines| == |out|
    requires forall i :: 0 <= i < |lines| ==> Follows(lines[i], out[i])
    requires MergedBody(y).Some?
    ensures MergedBody(x).Some?
  {
    var p := MergeableEnds(out, y);
    var tx, ty := TrimmedLines(x), TrimmedLines(y);
    SameTrim(lines, out, x, ty, p);
    SameMarks(lines, out, tx, ty, p);
    MergeableFollows(x, y);
  }

  lemma MergeableFollows(x: string, y: string)
    requires |TrimmedLines(x)| == |TrimmedLines(y)|
    requires forall k :: 0 <= k < |TrimmedLines(x)| ==> SameMark(TrimmedLines(x)[k], TrimmedLines(y)[k])
    requires MergedBody(y).Some?
    ensures MergedBody(x).Some?
  {
    ScanFollows(SCAN_START, SCAN_START, TrimmedLines(x), TrimmedLines(y));
  }

  /** The text before is trimmed at the same lines as the edited one. */
  lemma SameTrim(lines: seq<string>, out: seq<string>, x: string, ty: seq<string>, p: nat)
    requires |lines| == |out| && lines == Split(x, '\n') && forall i :: 0 <= i < |lines| ==> Follows(lines[i], out[i])
    requires Trims(out, ty, p) && |ty| > 1 && TrimLeft(out[p]) == BEGIN && TrimRight(out[p + |ty| - 1]) == END
    ensures Trims(lines, TrimmedLines(x), p) && |TrimmedLines(x)| == |ty|
  {
    var n := |ty|;
    assert Follows(lines[p], out[p]) && Follows(lines[p + n - 1], out[p + n - 1]);
    NonBlankEnds(lines[p], lines[p + n - 1]);
    forall k | 0 <= k < |lines| && (k < p || p + n <= k)
      ensures IsBlank(lines[k])
    {
      assert Follows(lines[k], out[k]);
    }
    HasLineNotBlank(lines, x, p);
    var q := TrimsSplit(x);
    TrimsUnique(lines, TrimmedLines(x), q, ty, p);
  }

  lemma NonBlankEnds(a: string, b: string)
    requires TrimLeft(a) == BEGIN && TrimRight(b) == END
    ensures !IsBlank(a) && !IsBlank(b)
  {
    var x := TrimLeftParts(a);
    var y := TrimRightParts(b);
    NotSpaceStart(x, BEGIN, "");
    assert x + BEGIN + "" == a;
    NotSpaceStart("", END, y);
    assert "" + END + y == b;
  }

  // ---------------------------------------------------------------- one envelope is never merged again

  lemma MergedOnce(body: seq<string>)
    requires AllFree(body, '\n') && forall i :: 0 <= i < |body| ==> !IsMarker(body[i])
    ensures AllFree(MergedLines(body), '\n') && MergedBody(Join(MergedLines(body), "\n")).None?
  {
    var lines := MergedLines(body);
    assert AllFree(lines, '\n');
    var text := Join(lines, "\n");
    SplitJoin(lines, '\n');
    var n := |body| + 2;
    assert lines[0] == BEGIN && lines[n - 1] == END && lines[n] == "";
    TrimOfTrimmed(BEGIN);
    TrimOfTrimmed(END);
    HasLineNotBlank(lines, text, 0);
    var p := TrimsSplit(text);
    var t := TrimmedLines(text);
    TrimsUnique(lines, t, p, lines[..n], 0);
    assert t == [BEGIN] + (body + [END]);
    ScanBody(Scan(true, 1, []), body, [END]);
    assert t[1..] == body + [END];
    assert [END][1..] == [];
  }
}
