/** Merging repeated patch envelopes (repairApplyPatchRepeatedEnvelopes). */
module PatchEnvelopes {
  import opened Wrappers
  import opened Text
  import opened PatchLines

  // ---------------------------------------------------------------- the scan

  datatype Scan = Scan(inEnvelope: bool, envelopes: nat, body: seq<string>)

  predicate IsMarker(line: string) {
    line == BEGIN || line == END
  }

  function ScanLine(st: Scan, line: string): Option<Scan> {
    if line == BEGIN then
      if st.inEnvelope then None else Some(Scan(true, st.envelopes + 1, st.body))
    else if line == END then
      if st.inEnvelope then Some(st.(inEnvelope := false)) else None
    else if st.inEnvelope then Some(st.(body := st.body + [line]))
    else if IsBlank(line) then Some(st)
    else None
  }

  function ScanLines(st: Scan, lines: seq<string>): Option<Scan>
    decreases lines
  {
    if lines == [] then Some(st)
    else match ScanLine(st, lines[0])
      case None => None
      case Some(st') => ScanLines(st', lines[1..])
  }

  const SCAN_START := Scan(false, 0, [])

  predicate IsMergeable(st: Scan) {
    !st.inEnvelope && st.envelopes >= 2 && st.body != []
  }

  /** The non-overlapping occurrences of a substring. */
  function Count(s: string, sub: string): nat
    requires sub != ""
    decreases |s|
  {
    match IndexOf(s, sub)
    case None => 0
    case Some(k) => 1 + Count(s[k + |sub|..], sub)
  }

  function TrimmedLines(text: string): seq<string> {
    Split(TrimSpace(text), '\n')
  }

  /** The bodies of all envelopes, if there are several and nothing else. */
  function MergedBody(text: string): Option<seq<string>> {
    match ScanLines(SCAN_START, TrimmedLines(text))
    case None => None
    case Some(st) => if IsMergeable(st) then Some(st.body) else None
  }

  function MergedLines(body: seq<string>): seq<string> {
    [BEGIN] + body + [END, ""]
  }

  // ---------------------------------------------------------------- counting markers is redundant

  function Offset(lines: seq<string>, i: nat): nat
    requires i <= |lines|
    decreases i
  {
    if i == 0 then 0 else |lines[0]| + 1 + Offset(lines[1..], i - 1)
  }

  lemma {:induction false} LineOccurs(lines: seq<string>, i: nat)
    requires i < |lines|
    ensures OccursAt(Join(lines, "\n"), lines[i], Offset(lines, i))
    decreases i
  {
    var text := Join(lines, "\n");
    if i == 0 {
      assert text[0..|lines[0]|] == lines[0];
    } else {
      var rest := Join(lines[1..], "\n");
      LineOccurs(lines[1..], i - 1);
      var k := Offset(lines[1..], i - 1);
      assert text == lines[0] + "\n" + rest;
      var front := |lines[0]| + 1;
      assert text[front..] == rest;
      assert text[front + k..front + k + |lines[i]|] == rest[k..k + |lines[i]|];
    }
  }

  lemma {:induction false} OffsetGrows(lines: seq<string>, i: nat, j: nat)
    requires i < j < |lines|
    ensures Offset(lines, i) + |lines[i]| < Offset(lines, j)
    decreases i
  {
    if i > 0 { OffsetGrows(lines[1..], i - 1, j - 1); }
  }

  lemma CountTwice(s: string, sub: string, p: nat, q: nat)
    requires sub != "" && OccursAt(s, sub, p) && OccursAt(s, sub, q) && p + |sub| <= q
    ensures Count(s, sub) >= 2
  {
    var k := IndexOf(s, sub).value;
    assert k <= p;
    var rest := s[k + |sub|..];
    var d := q - (k + |sub|);
    assert rest[d..d + |sub|] == s[q..q + |sub|];
    assert OccursAt(rest, sub, d);
  }

  lemma {:induction false} TwoBeginLines(st: Scan, lines: seq<string>) returns (i: nat, j: nat)
    requires ScanLines(st, lines).Some? && ScanLines(st, lines).value.envelopes >= st.envelopes + 2
    ensures i < j < |lines| && lines[i] == BEGIN && lines[j] == BEGIN
    decreases lines
  {
    var st' := ScanLine(st, lines[0]).value;
    if lines[0] == BEGIN {
      j := OneBeginLine(st', lines[1..]);
      i, j := 0, j + 1;
    } else {
      i, j := TwoBeginLines(st', lines[1..]);
      i, j := i + 1, j + 1;
    }
  }

  lemma {:induction false} OneBeginLine(st: Scan, lines: seq<string>) returns (i: nat)
    requires ScanLines(st, lines).Some? && ScanLines(st, lines).value.envelopes >= st.envelopes + 1
    ensures i < |lines| && lines[i] == BEGIN
    decreases lines
  {
    if lines[0] == BEGIN {
      i := 0;
    } else {
      i := OneBeginLine(ScanLine(st, lines[0]).value, lines[1..]);
      i := i + 1;
    }
  }

  /** Whenever the scan finds two envelopes, the cheap count in front of it has let it through. */
  lemma CountGuardRedundant(text: string)
    requires MergedBody(text).Some?
    ensures Count(TrimSpace(text), BEGIN) >= 2
  {
    var lines := TrimmedLines(text);
    var i, j := TwoBeginLines(SCAN_START, lines);
    JoinSplit(TrimSpace(text), '\n');
    LineOccurs(lines, i);
    LineOccurs(lines, j);
    OffsetGrows(lines, i, j);
    CountTwice(TrimSpace(text), BEGIN, Offset(lines, i), Offset(lines, j));
  }

  // ---------------------------------------------------------------- what merging keeps

  function Flatten(bodies: seq<seq<string>>): seq<string> {
    if bodies == [] then [] else bodies[0] + Flatten(bodies[1..])
  }

  /** The lines are envelopes with these bodies, with nothing but blank lines around them. */
  ghost predicate Enveloped(lines: seq<string>, bodies: seq<seq<string>>)
    decreases |lines|
  {
    if lines == [] then bodies == []
    else if lines[0] != BEGIN then IsBlank(lines[0]) && !IsMarker(lines[0]) && Enveloped(lines[1..], bodies)
    else
      && bodies != [] && var n := |bodies[0]|;
      && n + 2 <= |lines| && lines[1..n + 1] == bodies[0] && lines[n + 1] == END
      && (forall i :: 0 <= i < n ==> !IsMarker(bodies[0][i]))
      && Enveloped(lines[n + 2..], bodies[1..])
  }

  lemma {:induction false} ScanBody(st: Scan, body: seq<string>, rest: seq<string>)
    requires st.inEnvelope && forall i :: 0 <= i < |body| ==> !IsMarker(body[i])
    ensures ScanLines(st, body + rest) == ScanLines(st.(body := st.body + body), rest)
    decreases body
  {
    if body == [] {
      assert body + rest == rest && st.body + body == st.body;
    } else {
      assert (body + rest)[1..] == body[1..] + rest;
      ScanBody(st.(body := st.body + [body[0]]), body[1..], rest);
      assert st.body + [body[0]] + body[1..] == st.body + body;
    }
  }

  lemma {:induction false} EnvelopedScans(envelopes: nat, body: seq<string>, lines: seq<string>,
                                          bodies: seq<seq<string>>)
    requires Enveloped(lines, bodies)
    ensures ScanLines(Scan(false, envelopes, body), lines) ==
            Some(Scan(false, envelopes + |bodies|, body + Flatten(bodies)))
    decreases |lines|
  {
    if lines == [] {
      assert body + [] == body;
    } else if lines[0] != BEGIN {
      EnvelopedScans(envelopes, body, lines[1..], bodies);
    } else {
      var b := bodies[0];
      var n := |b|;
      var open := Scan(true, envelopes + 1, body);
      assert lines[1..] == b + ([END] + lines[n + 2..]);
      ScanBody(open, b, [END] + lines[n + 2..]);
      assert ([END] + lines[n + 2..])[1..] == lines[n + 2..];
      EnvelopedScans(envelopes + 1, body + b, lines[n + 2..], bodies[1..]);
      assert body + b + Flatten(bodies[1..]) == body + Flatten(bodies);
    }
  }

  lemma {:induction false} ScansEnveloped(st: Scan, lines: seq<string>) returns (bodies: seq<seq<string>>)
    requires !st.inEnvelope && ScanLines(st, lines).Some? && !ScanLines(st, lines).value.inEnvelope
    ensures Enveloped(lines, bodies)
    decreases |lines|
  {
    if lines == [] {
      bodies := [];
    } else if lines[0] != BEGIN {
      bodies := ScansEnveloped(st, lines[1..]);
    } else {
      var open := ScanLine(st, lines[0]).value;
      var b, rest := OpenEnvelope(open, lines[1..]);
      var n := |b|;
      assert lines[n + 2..] == rest;
      var more := ScansEnveloped(Scan(false, open.envelopes, open.body + b), rest);
      bodies := [b] + more;
      assert bodies[1..] == more;
      assert lines[1..][n] == END;
      assert lines[1..n + 1] == b;
    }
  }

  lemma {:induction false} OpenEnvelope(st: Scan, lines: seq<string>) returns (body: seq<string>, rest: seq<string>)
    requires st.inEnvelope && ScanLines(st, lines).Some? && !ScanLines(st, lines).value.inEnvelope
    ensures lines == body + [END] + rest && forall i :: 0 <= i < |body| ==> !IsMarker(body[i])
    ensures ScanLines(Scan(false, st.envelopes, st.body + body), rest) == ScanLines(st, lines)
    decreases |lines|
  {
    if lines[0] == END {
      body, rest := [], lines[1..];
      assert st.body + [] == st.body;
    } else {
      var b, r := OpenEnvelope(ScanLine(st, lines[0]).value, lines[1..]);
      body, rest := [lines[0]] + b, r;
      assert lines == [lines[0]] + lines[1..];
      assert st.body + [lines[0]] + b == st.body + body;
    }
  }

  /**
    Merging happens exactly on two or more envelopes with something in them and only blank
    lines around; it keeps the lines of their bodies, all and in order.
   */
  lemma MergeKeepsBodies(text: string, body: seq<string>)
    ensures MergedBody(text) == Some(body) <==>
            exists bodies :: Enveloped(TrimmedLines(text), bodies) && |bodies| >= 2 && body == Flatten(bodies) &&
              body != []
  {
    var lines := TrimmedLines(text);
    if MergedBody(text) == Some(body) {
      var bodies := ScansEnveloped(SCAN_START, lines);
      EnvelopedScans(0, [], lines, bodies);
      assert [] + Flatten(bodies) == Flatten(bodies);
    }
    if bodies :| Enveloped(lines, bodies) && |bodies| >= 2 && body == Flatten(bodies) && body != [] {
      EnvelopedScans(0, [], lines, bodies);
      assert [] + Flatten(bodies) == Flatten(bodies);
    }
  }
}
