/** What the passes leave behind: a form on which only the header pass can act again. */
module PatchCanonical {
  import opened Wrappers
  import opened Text
  import opened PatchLines

  predicate NoEmptyHeaders(lines: seq<string>) {
    forall i :: 0 <= i < |lines| ==> lines[i] != "@@ "
  }

  /** Every Add or Update section that has a body has an `@@` or a `+` line in it. */
  predicate NoBareSections(lines: seq<string>) {
    forall h :: 0 <= h < |lines| ==> !IsBare(lines, h)
  }

  /** Every line in a hunk starts with `+`, `-`, a space or `@@`. */
  predicate NoLooseLines(lines: seq<string>) {
    forall i :: 0 <= i < |lines| ==> !IsLoose(lines, i)
  }

  predicate NoRangeHeaders(lines: seq<string>) {
    forall i :: 0 <= i < |lines| ==> RewriteHeader(lines[i]).None?
  }

  /** What is left of range headers stands at the start of its line. */
  predicate HeadersAtFront(lines: seq<string>) {
    forall i :: 0 <= i < |lines| && RewriteHeader(lines[i]).Some? ==> IsAt(lines[i])
  }

  predicate Canonical(lines: seq<string>) {
    NoEmptyHeaders(lines) && NoBareSections(lines) && NoLooseLines(lines) && HeadersAtFront(lines)
  }

  // ---------------------------------------------------------------- structure depends on kinds only

  predicate SameKind(a: string, b: string) {
    (IsStar(a) <==> IsStar(b)) && (IsAt(a) <==> IsAt(b))
  }

  predicate SameKinds(a: seq<string>, b: seq<string>) {
    |a| == |b| && forall i :: 0 <= i < |a| ==> SameKind(a[i], b[i])
  }

  lemma {:induction false} SameBodyEnd(a: seq<string>, b: seq<string>, k: nat)
    requires SameKinds(a, b) && k <= |a|
    ensures BodyEnd(a, k) == BodyEnd(b, k)
    decreases |a| - k
  {
    if k < |a| {
      assert SameKind(a[k], b[k]);
      if !IsStar(a[k]) { SameBodyEnd(a, b, k + 1); }
    }
  }

  lemma {:induction false} SameInHunk(a: seq<string>, b: seq<string>, i: nat)
    requires SameKinds(a, b) && i <= |a|
    ensures InHunk(a, i) <==> InHunk(b, i)
    decreases i
  {
    if i > 0 {
      assert SameKind(a[i - 1], b[i - 1]);
      SameInHunk(a, b, i - 1);
    }
  }

  lemma WholeFilesKinds(lines: seq<string>)
    ensures SameKinds(lines, FixWholeFiles(lines))
  {
    var next := FixWholeFiles(lines);
    forall i | 0 <= i < |lines|
      ensures SameKind(lines[i], next[i])
    {
      Kinds(lines[i]);
      Kinds(next[i]);
      if !IsBare(lines, i) && InBareBody(lines, i) {
        assert next[i][0] == '+';
      }
    }
  }

  lemma ContextKinds(lines: seq<string>)
    ensures SameKinds(lines, FixContext(lines))
  {
    var next := FixContext(lines);
    forall i | 0 <= i < |lines|
      ensures SameKind(lines[i], next[i])
    {
      Kinds(next[i]);
      if IsLoose(lines, i) { assert next[i][0] == ' '; }
    }
  }

  /** A section stays bare or not under changes that keep kinds, headers and added lines. */
  lemma SameBare(a: seq<string>, b: seq<string>, h: nat)
    requires SameKinds(a, b) && h < |a|
    requires IsFileHeader(b[h]) ==> IsFileHeader(a[h])
    requires forall i :: h < i < |a| && IsPlus(a[i]) ==> IsPlus(b[i])
    ensures IsBare(b, h) ==> IsBare(a, h)
  {
    SameBodyEnd(a, b, h + 1);
    if IsBare(b, h) {
      forall i | h < i < BodyEnd(a, h + 1)
        ensures !IsAt(a[i]) && !IsPlus(a[i])
      {
        assert SameKind(a[i], b[i]);
      }
    }
  }

  // ---------------------------------------------------------------- each pass removes its own defect

  lemma WholeFilesDone(lines: seq<string>)
    ensures NoBareSections(FixWholeFiles(lines))
  {
    var next := FixWholeFiles(lines);
    WholeFilesKinds(lines);
    forall h | 0 <= h < |lines|
      ensures !IsBare(next, h)
    {
      HeaderOfAdded(lines, h);
      forall i | h < i < |lines| && IsPlus(lines[i])
        ensures IsPlus(next[i])
      {
        Kinds(lines[i]);
      }
      SameBare(lines, next, h);
      if IsBare(lines, h) {
        SameBodyEnd(lines, next, h + 1);
        assert InBareBody(lines, h + 1);
        Kinds(lines[h + 1]);
        assert next[h + 1] == "+" + lines[h + 1];
      }
    }
  }

  lemma HeaderOfAdded(lines: seq<string>, h: nat)
    requires h < |lines|
    ensures IsFileHeader(FixWholeFiles(lines)[h]) ==> IsFileHeader(lines[h])
  {
    var next := FixWholeFiles(lines);
    Kinds(next[h]);
    if !IsBare(lines, h) && InBareBody(lines, h) {
      assert next[h][0] == '+';
    }
  }

  lemma ContextDone(lines: seq<string>)
    ensures NoLooseLines(FixContext(lines))
    ensures NoBareSections(lines) ==> NoBareSections(FixContext(lines))
  {
    var next := FixContext(lines);
    ContextKinds(lines);
    forall i | 0 <= i < |lines|
      ensures !IsLoose(next, i)
    {
      SameInHunk(lines, next, i);
      assert SameKind(lines[i], next[i]);
    }
    forall h | 0 <= h < |lines|
      ensures IsBare(next, h) ==> IsBare(lines, h)
    {
      Kinds(next[h]);
      assert SameKind(lines[h], next[h]);
      SameBare(lines, next, h);
    }
  }

  lemma RewriteIgnoresSpace(line: string)
    ensures RewriteHeader(" " + line) == RewriteHeader(line)
  {
    assert " " + line != "" && (" " + line)[1..] == line;
  }

  lemma NoHeaderAfter(line: string, c: char)
    requires c == '+' || c == '*'
    ensures RewriteHeader([c] + line).None?
  {
    TrimKeepsFirst([c] + line);
  }

  // ---------------------------------------------------------------- the output is canonical

  lemma CanonicalLine(lines: seq<string>, i: nat)
    requires i < |lines|
    ensures var out := RepairLines(lines)[i];
            out != "@@ " &&
              (RewriteHeader(out).Some? ==> IsAt(out) && RewriteHeader(FixEmptyHeaders(lines)[i]) == Some(out))
  {
    var l2 := FixEmptyHeaders(lines);
    var l3 := FixHeaders(l2);
    var out := RepairLines(lines)[i];
    if RewriteHeader(l2[i]).Some? {
      RewrittenIsAt(l2[i]);
      AtUntouched(l3, i);
      AtUntouched(FixWholeFiles(l3), i);
    } else {
      PrefixedOnce(l3, i);
      Kinds(l3[i]);
      if out == "+" + l3[i] {
        NoHeaderAfter(l3[i], '+');
      } else if out == " " + l3[i] {
        RewriteIgnoresSpace(l3[i]);
      } else if out != l3[i] {
        Kinds(out);
        assert out == ['*'] + out[1..];
        NoHeaderAfter(out[1..], '*');
      }
    }
  }

  /** Whatever the input, the passes leave canonical lines. */
  lemma RepairIsCanonical(lines: seq<string>)
    ensures Canonical(RepairLines(lines))
  {
    var l4 := FixWholeFiles(FixHeaders(FixEmptyHeaders(lines)));
    WholeFilesDone(FixHeaders(FixEmptyHeaders(lines)));
    ContextDone(l4);
    forall i | 0 <= i < |lines|
      ensures var out := RepairLines(lines)[i]; out != "@@ " && (RewriteHeader(out).Some? ==> IsAt(out))
    {
      CanonicalLine(lines, i);
    }
  }

  lemma HeadersKeepCanonical(lines: seq<string>)
    requires Canonical(lines)
    ensures Canonical(FixHeaders(lines))
  {
    var next := FixHeaders(lines);
    forall i | 0 <= i < |lines|
      ensures SameKind(lines[i], next[i]) && (next[i] == lines[i] || (IsAt(lines[i]) && IsAt(next[i]))) &&
              next[i] != "@@ "
    {
      if RewriteHeader(lines[i]).Some? {
        RewrittenIsAt(lines[i]);
        Kinds(lines[i]);
        Kinds(next[i]);
      }
    }
    forall h | 0 <= h < |lines|
      ensures !IsBare(next, h)
    {
      Kinds(next[h]);
      forall i | h < i < |lines| && IsPlus(lines[i])
        ensures IsPlus(next[i])
      {
        Kinds(lines[i]);
      }
      SameBare(lines, next, h);
    }
    forall i | 0 <= i < |lines|
      ensures !IsLoose(next, i)
    {
      SameInHunk(lines, next, i);
      assert !IsLoose(lines, i);
      if next[i] != lines[i] { assert IsAt(next[i]); }
    }
  }

  /** On canonical lines only the header pass acts, and it leaves canonical lines. */
  lemma OnlyHeadersFireAgain(lines: seq<string>)
    requires Canonical(lines)
    ensures RepairLines(lines) == FixHeaders(lines) && Canonical(FixHeaders(lines))
  {
    assert FixEmptyHeaders(lines) == lines;
    HeadersKeepCanonical(lines);
    var next := FixHeaders(lines);
    assert FixWholeFiles(next) == next;
    assert FixContext(next) == next;
  }

  // ---------------------------------------------------------------- rewriting shortens

  lemma {:induction false} FieldsLength(s: string)
    ensures |Join(Fields(s), " ")| <= |s|
    decreases |s|
  {
    if s != "" {
      if IsSpace(s[0]) {
        FieldsLength(s[1..]);
      } else {
        var n := WordEnd(s, 0);
        FieldsLength(s[n..]);
        var rest := Fields(s[n..]);
        assert ([s[..n]] + rest)[1..] == rest;
        if rest != [] {
          WordEndStops(s, 0);
          assert IsSpace(s[n..][0]);
          FieldsLength(s[n..][1..]);
        }
      }
    }
  }

  lemma {:induction false} WordEndStops(s: string, i: nat)
    requires i <= |s|
    ensures WordEnd(s, i) < |s| ==> IsSpace(s[WordEnd(s, i)])
    decreases |s| - i
  {
    if i < |s| && !IsSpace(s[i]) { WordEndStops(s, i + 1); }
  }

  lemma RewriteShortens(line: string)
    requires RewriteHeader(line).Some?
    ensures |RewriteHeader(line).value| < |line|
  {
    var a, b := TrimParts(line);
    var trimmed := TrimSpace(line);
    var fields := Fields(trimmed[3..]);
    FieldsLength(trimmed[3..]);
    assert Join(fields, " ") == fields[0] + " " + Join(fields[1..], " ");
    assert fields[1..][1..] == fields[2..];
    assert Join(fields[1..], " ") == fields[1] + " " + Join(fields[2..], " ");
    if |fields| > 3 {
      assert fields[2..][1..] == fields[3..];
      assert Join(fields[2..], " ") == fields[2] + " " + Join(fields[3..], " ");
    }
  }

  /** A range header whose trailing text is itself a range header. */
  predicate IsDouble(line: string) {
    RewriteHeader(line).Some? && RewriteHeader(RewriteHeader(line).value).Some?
  }

  predicate NoDoubles(lines: seq<string>) {
    forall i :: 0 <= i < |lines| ==> !IsDouble(lines[i])
  }

  lemma TrimmedIsNotOpen(t: string)
    requires IsTrimmed(t) && |t| <= 3
    ensures !("@@ " <= t)
  {
    assert IsSpace("@@ "[2]);
  }

  lemma EmptyHeaderIsNone()
    ensures RewriteHeader("@@ ").None? && RewriteHeader("@@").None?
  {
    var a, b := TrimParts("@@");
    var c, d := TrimParts("@@ ");
    TrimmedIsNotOpen(TrimSpace("@@ "));
  }

  lemma DoubleIffHeaderLeft(lines: seq<string>, i: nat)
    requires i < |lines|
    ensures RewriteHeader(RepairLines(lines)[i]).Some? <==> IsDouble(lines[i])
  {
    EmptyHeaderIsNone();
    CanonicalLine(lines, i);
    var l2 := FixEmptyHeaders(lines);
    if IsDouble(lines[i]) {
      RewrittenIsAt(l2[i]);
      AtUntouched(FixHeaders(l2), i);
      AtUntouched(FixWholeFiles(FixHeaders(l2)), i);
    }
  }

  lemma FixHeadersChanges(lines: seq<string>)
    ensures FixHeaders(lines) == lines <==> NoRangeHeaders(lines)
  {
    forall i | 0 <= i < |lines| && RewriteHeader(lines[i]).Some?
      ensures FixHeaders(lines)[i] != lines[i]
    {
      RewriteShortens(lines[i]);
    }
  }

  /** A second run changes nothing exactly when no line is a range header in front of another one. */
  lemma LinesIdempotentIff(lines: seq<string>)
    ensures RepairLines(RepairLines(lines)) == RepairLines(lines) <==> NoDoubles(lines)
  {
    var out := RepairLines(lines);
    RepairIsCanonical(lines);
    OnlyHeadersFireAgain(out);
    FixHeadersChanges(out);
    forall i | 0 <= i < |lines|
      ensures RewriteHeader(out[i]).Some? <==> IsDouble(lines[i])
    {
      DoubleIffHeaderLeft(lines, i);
    }
  }
}
