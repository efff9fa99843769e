/**
  The passes that repair an apply_patch input, as functions on its lines
  (internal/httpapi/custom_tool_input_repair.go).
 */
module PatchLines {
  import opened Wrappers
  import opened Text

  const BEGIN := "*** Begin Patch"
  const END := "*** End Patch"
  const ADD := "*** Add File: "
  const UPDATE := "*** Update File: "

  predicate IsStar(line: string) {
    "*** " <= line
  }

  predicate IsAt(line: string) {
    "@@" <= line
  }

  predicate IsPlus(line: string) {
    "+" <= line
  }

  predicate IsBlank(line: string) {
    TrimSpace(line) == ""
  }

  // ---------------------------------------------------------------- empty hunk headers

  function EmptyHeaderLine(line: string): string {
    if line == "@@ " then "@@" else line
  }

  function FixEmptyHeaders(lines: seq<string>): (r: seq<string>)
    ensures |r| == |lines|
  {
    seq(|lines|, i requires 0 <= i < |lines| => EmptyHeaderLine(lines[i]))
  }

  // ---------------------------------------------------------------- unified-diff hunk headers

  /** The words of a line: what strings.Fields returns. */
  function Fields(s: string): seq<string>
    decreases |s|
  {
    if s == "" then []
    else if IsSpace(s[0]) then Fields(s[1..])
    else [s[..WordEnd(s, 0)]] + Fields(s[WordEnd(s, 0)..])
  }

  function WordEnd(s: string, i: nat): (r: nat)
    requires i <= |s|
    ensures i <= r <= |s|
    ensures i < |s| && !IsSpace(s[i]) ==> i < r
    decreases |s| - i
  {
    if i < |s| && !IsSpace(s[i]) then WordEnd(s, i + 1) else i
  }

  predicate AllDigits(s: string) {
    s != "" && forall i :: 0 <= i < |s| ==> '0' <= s[i] <= '9'
  }

  /** `-3` or `-3,14`: the prefix, a number, and at most one more number after a comma. */
  predicate IsRange(value: string, prefix: char) {
    && |value| >= 2 && value[0] == prefix
    && (AllDigits(value[1..])
        || exists k :: 1 < k < |value| - 1 && value[k] == ',' && AllDigits(value[1..k]) && AllDigits(value[k + 1..]))
  }

  /** What `@@ -1,2 +3,4 @@ rest` is rewritten to; none for a line that is no such header. */
  function RewriteHeader(line: string): Option<string> {
    var trimmed := TrimSpace(line);
    if !("@@ " <= trimmed) then None
    else
      var fields := Fields(trimmed[3..]);
      if |fields| < 3 || fields[2] != "@@" || !IsRange(fields[0], '-') || !IsRange(fields[1], '+') then None
      else if |fields| == 3 then Some("@@")
      else Some("@@ " + Join(fields[3..], " "))
  }

  function HeaderLine(line: string): string {
    if RewriteHeader(line).Some? then RewriteHeader(line).value else line
  }

  function FixHeaders(lines: seq<string>): (r: seq<string>)
    ensures |r| == |lines|
  {
    seq(|lines|, i requires 0 <= i < |lines| => HeaderLine(lines[i]))
  }

  // ---------------------------------------------------------------- whole files without prefixes

  predicate IsFileHeader(line: string) {
    ADD <= line || UPDATE <= line
  }

  /** Where the body that starts at `k` ends: at the next `*** ` line. */
  function BodyEnd(lines: seq<string>, k: nat): (r: nat)
    requires k <= |lines|
    ensures k <= r <= |lines|
    ensures r < |lines| ==> IsStar(lines[r])
    ensures forall i :: k <= i < r ==> !IsStar(lines[i])
    decreases |lines| - k
  {
    if k == |lines| || IsStar(lines[k]) then k else BodyEnd(lines, k + 1)
  }

  /** The section headed at `h` has a body, but no hunk header and no added line in it. */
  predicate IsBare(lines: seq<string>, h: nat) {
    && h < |lines| && IsFileHeader(lines[h])
    && h + 1 < BodyEnd(lines, h + 1)
    && forall i :: h < i < BodyEnd(lines, h + 1) ==> !IsAt(lines[i]) && !IsPlus(lines[i])
  }

  predicate InBareBody(lines: seq<string>, i: nat) {
    exists h :: 0 <= h < i && IsBare(lines, h) && i < BodyEnd(lines, h + 1)
  }

  function AsAdd(line: string): string {
    if UPDATE <= line then ADD + line[|UPDATE|..] else line
  }

  function WholeFileLine(lines: seq<string>, i: nat): string
    requires i < |lines|
  {
    if IsBare(lines, i) then AsAdd(lines[i])
    else if InBareBody(lines, i) then "+" + lines[i]
    else lines[i]
  }

  function FixWholeFiles(lines: seq<string>): (r: seq<string>)
    ensures |r| == |lines|
  {
    seq(|lines|, i requires 0 <= i < |lines| => WholeFileLine(lines, i))
  }

  // ---------------------------------------------------------------- context lines without prefix

  /** A hunk is open before line `i`: the last `*** ` or `@@` line above it is an `@@` one. */
  predicate InHunk(lines: seq<string>, i: nat)
    requires i <= |lines|
    decreases i
  {
    i > 0 && !IsStar(lines[i - 1]) && (IsAt(lines[i - 1]) || InHunk(lines, i - 1))
  }

  predicate IsPrefixed(line: string) {
    line != "" && (line[0] == '+' || line[0] == '-' || line[0] == ' ')
  }

  /** A line in a hunk that must be given a prefix. */
  predicate IsLoose(lines: seq<string>, i: nat) {
    i < |lines| && InHunk(lines, i) && !IsStar(lines[i]) && !IsAt(lines[i]) && !IsPrefixed(lines[i])
  }

  function ContextLine(lines: seq<string>, i: nat): string
    requires i < |lines|
  {
    if IsLoose(lines, i) then " " + lines[i] else lines[i]
  }

  function FixContext(lines: seq<string>): (r: seq<string>)
    ensures |r| == |lines|
  {
    seq(|lines|, i requires 0 <= i < |lines| => ContextLine(lines, i))
  }

  // ---------------------------------------------------------------- the passes in sequence

  function RepairLines(lines: seq<string>): (r: seq<string>)
    ensures |r| == |lines|
  {
    FixContext(FixWholeFiles(FixHeaders(FixEmptyHeaders(lines))))
  }

  // ---------------------------------------------------------------- one edit per line

  /** How a line may come out: as it was, or changed in exactly one of five ways. */
  predicate Survives(a: string, b: string) {
    || b == a
    || (a == "@@ " && b == "@@")
    || RewriteHeader(a) == Some(b)
    || (UPDATE <= a && b == ADD + a[|UPDATE|..])
    || (b == "+" + a && !IsStar(a) && !IsAt(a) && !IsPlus(a))
    || (b == " " + a && !IsStar(a) && !IsAt(a) && !IsPrefixed(a))
  }

  lemma Kinds(line: string)
    ensures IsStar(line) ==> |line| >= 4 && line[0] == '*'
    ensures IsAt(line) ==> |line| >= 2 && line[0] == '@' && !IsStar(line)
    ensures IsPlus(line) ==> line[0] == '+' && !IsStar(line) && !IsAt(line)
    ensures IsFileHeader(line) ==> IsStar(line)
    ensures IsBlank(line) ==> !IsStar(line) && !IsAt(line)
    ensures IsStar(AsAdd(line)) <==> IsStar(line)
  {
    assert "*** "[0] == '*' && "@@"[0] == '@' && "+"[0] == '+';
    assert IsStar(ADD) && IsStar(UPDATE);
    assert UPDATE <= line ==> IsStar(ADD + line[|UPDATE|..]);
    if line != "" && !IsSpace(line[0]) {
      TrimKeepsFirst(line);
    }
  }

  lemma TrimKeepsFirst(line: string)
    requires line != "" && !IsSpace(line[0])
    ensures TrimSpace(line) != "" && TrimSpace(line)[0] == line[0]
  {
    var b := TrimRightParts(line);
    assert line[0] !in b || TrimRight(line) != "";
  }

  lemma RewrittenIsAt(line: string)
    requires RewriteHeader(line).Some?
    ensures IsAt(RewriteHeader(line).value) && RewriteHeader(line).value != "@@ "
    ensures !IsStar(line) && line != "@@ "
  {
    var trimmed := TrimSpace(line);
    var fields := Fields(trimmed[3..]);
    if |fields| > 3 {
      FieldsNonEmpty(trimmed[3..]);
      assert fields[3..][0] == fields[3] != "";
    }
    var a, b := TrimParts(line);
    Kinds(line);
    if line != "" && !IsSpace(line[0]) { TrimKeepsFirst(line); }
    assert trimmed != "@@ " by {
      assert IsTrimmed(trimmed);
      assert IsSpace("@@ "[2]);
    }
    assert |trimmed| > 3;
  }

  lemma {:induction false} FieldsNonEmpty(s: string)
    ensures forall i :: 0 <= i < |Fields(s)| ==> Fields(s)[i] != ""
    decreases |s|
  {
    if s != "" {
      if IsSpace(s[0]) { FieldsNonEmpty(s[1..]); } else { FieldsNonEmpty(s[WordEnd(s, 0)..]); }
    }
  }

  lemma AtUntouched(lines: seq<string>, i: nat)
    requires i < |lines| && IsAt(lines[i])
    ensures WholeFileLine(lines, i) == lines[i] && ContextLine(lines, i) == lines[i]
  {
    Kinds(lines[i]);
  }

  /** The last two passes change a line in one way or not at all. */
  lemma PrefixedOnce(lines: seq<string>, i: nat)
    requires i < |lines|
    ensures var b := FixContext(FixWholeFiles(lines))[i];
            || b == lines[i]
            || (UPDATE <= lines[i] && b == ADD + lines[i][|UPDATE|..])
            || (b == "+" + lines[i] && !IsStar(lines[i]) && !IsAt(lines[i]) && !IsPlus(lines[i]))
            || (b == " " + lines[i] && !IsStar(lines[i]) && !IsAt(lines[i]) && !IsPrefixed(lines[i]))
  {
    var next := FixWholeFiles(lines);
    Kinds(lines[i]);
    if IsBare(lines, i) {
      Kinds(next[i]);
    } else if InBareBody(lines, i) {
      assert next[i][0] == '+';
    }
  }

  /** Every line survives the passes in its place, with at most one edit. */
  lemma EveryLineSurvives(lines: seq<string>, i: nat)
    requires i < |lines|
    ensures Survives(lines[i], RepairLines(lines)[i])
  {
    var l2 := FixEmptyHeaders(lines);
    var l3 := FixHeaders(l2);
    if IsAt(l3[i]) {
      AtUntouched(l3, i);
      AtUntouched(FixWholeFiles(l3), i);
    } else {
      PrefixedOnce(l3, i);
    }
    if lines[i] == "@@ " {
      var a, b := TrimParts(l2[i]);
    } else if RewriteHeader(l2[i]).Some? {
      RewrittenIsAt(l2[i]);
    }
  }
}
