/** The one family of inputs a single repair does not settle: a range header in front of another one. */
module PatchDouble {
  import opened Wrappers
  import opened Text
  import opened PatchLines
  import opened PatchCanonical
  import opened PatchRepair

  /** A word: not empty, and without white space. */
  predicate IsWord(w: string) {
    w != "" && forall i :: 0 <= i < |w| ==> !IsSpace(w[i])
  }

  predicate AllWords(ws: seq<string>) {
    forall i :: 0 <= i < |ws| ==> IsWord(ws[i])
  }

  lemma {:induction false} WordEndOf(w: string, rest: string, i: nat)
    requires IsWord(w) && i <= |w| && (rest == "" || IsSpace(rest[0]))
    ensures WordEnd(w + rest, i) == |w|
    decreases |w| - i
  {
    if i < |w| {
      assert (w + rest)[i] == w[i];
      WordEndOf(w, rest, i + 1);
    } else if rest != "" {
      assert (w + rest)[i] == rest[0];
    }
  }

  lemma FieldsCons(w: string, rest: string)
    requires IsWord(w) && (rest == "" || IsSpace(rest[0]))
    ensures Fields(w + rest) == [w] + Fields(rest)
  {
    WordEndOf(w, rest, 0);
    assert (w + rest)[0] == w[0];
    assert (w + rest)[..|w|] == w && (w + rest)[|w|..] == rest;
  }

  /** Words joined by blanks are read back. */
  lemma {:induction false} FieldsOfWords(ws: seq<string>)
    requires AllWords(ws)
    ensures Fields(Join(ws, " ")) == ws
    decreases ws
  {
    if |ws| == 1 {
      FieldsCons(ws[0], "");
      assert ws[0] + "" == ws[0] && ws == [ws[0]];
    } else if |ws| > 1 {
      var tail := Join(ws[1..], " ");
      FieldsOfWords(ws[1..]);
      FieldsCons(ws[0], " " + tail);
      assert (" " + tail)[1..] == tail;
      assert ws[0] + " " + tail == ws[0] + (" " + tail);
      assert ws == [ws[0]] + ws[1..];
    }
  }

  lemma {:induction false} WordsEnds(ws: seq<string>)
    requires AllWords(ws) && ws != []
    ensures var s := Join(ws, " "); s != "" && !IsSpace(s[0]) && !IsSpace(s[|s| - 1])
    decreases ws
  {
    if |ws| > 1 {
      WordsEnds(ws[1..]);
    }
  }

  function HeaderText(ws: seq<string>): string {
    "@@ " + Join(ws, " ")
  }

  lemma HeaderFields(ws: seq<string>)
    requires AllWords(ws) && ws != []
    ensures TrimSpace(HeaderText(ws)) == HeaderText(ws) && HeaderText(ws)[3..] == Join(ws, " ")
  {
    WordsEnds(ws);
    TrimOfTrimmed(HeaderText(ws));
  }

  lemma {:induction false} FieldsAreWords(s: string)
    ensures AllWords(Fields(s))
    decreases |s|
  {
    if s != "" {
      if IsSpace(s[0]) {
        FieldsAreWords(s[1..]);
      } else {
        var n := WordEnd(s, 0);
        WordEndSkips(s, 0);
        assert IsWord(s[..n]);
        FieldsAreWords(s[n..]);
      }
    }
  }

  lemma {:induction false} WordEndSkips(s: string, i: nat)
    requires i <= |s|
    ensures forall k :: i <= k < WordEnd(s, i) ==> !IsSpace(s[k])
    decreases |s| - i
  {
    if i < |s| && !IsSpace(s[i]) { WordEndSkips(s, i + 1); }
  }

  // ---------------------------------------------------------------- the condition on the fields

  /** A range of removed lines, one of added lines and the closing mark, from position `k` on. */
  predicate RangesAt(fields: seq<string>, k: nat) {
    |fields| >= k + 3 && IsRange(fields[k], '-') && IsRange(fields[k + 1], '+') && fields[k + 2] == "@@"
  }

  function HeaderFieldsOf(line: string): seq<string> {
    var trimmed := TrimSpace(line);
    if "@@ " <= trimmed then Fields(trimmed[3..]) else []
  }

  lemma RewrittenIff(line: string)
    ensures RewriteHeader(line).Some? <==> RangesAt(HeaderFieldsOf(line), 0)
    ensures RewriteHeader(line).Some? ==> HeaderFieldsOf(RewriteHeader(line).value) == HeaderFieldsOf(line)[3..]
  {
    var fields := HeaderFieldsOf(line);
    if RewriteHeader(line).Some? {
      if |fields| == 3 {
        MarkHasNoFields();
      } else {
        FieldsAreWords(TrimSpace(line)[3..]);
        assert AllWords(fields[3..]);
        HeaderFields(fields[3..]);
        FieldsOfWords(fields[3..]);
      }
    }
  }

  lemma MarkHasNoFields()
    ensures HeaderFieldsOf("@@") == []
  {
    var a, b := TrimParts("@@");
    assert !("@@ " <= TrimSpace("@@"));
  }

  /** A line takes two repairs exactly when its fields hold two range headers, one behind the other. */
  lemma DoubleIff(line: string)
    ensures IsDouble(line) <==> RangesAt(HeaderFieldsOf(line), 0) && RangesAt(HeaderFieldsOf(line), 3)
  {
    RewrittenIff(line);
    if RewriteHeader(line).Some? { RewrittenIff(RewriteHeader(line).value); }
  }

  /** Repairing twice is repairing once exactly when no line of the input has those fields. */
  lemma RepairIdempotentOnFields(text: string)
    ensures Repair(Repair(text)) == Repair(text) <==>
            forall line :: line in LinesOf(text) ==>
              !(RangesAt(HeaderFieldsOf(line), 0) && RangesAt(HeaderFieldsOf(line), 3))
  {
    var lines := LinesOf(text);
    RepairIdempotentIff(text);
    forall line: string
      ensures IsDouble(line) <==> RangesAt(HeaderFieldsOf(line), 0) && RangesAt(HeaderFieldsOf(line), 3)
    {
      DoubleIff(line);
    }
    assert NoDoubles(lines) <==> forall line :: line in lines ==> !IsDouble(line);
  }

  // ---------------------------------------------------------------- the failing family

  /** A range header loses its ranges and keeps what follows them. */
  lemma RangeHeader(a: string, b: string, rest: seq<string>)
    requires IsRange(a, '-') && IsRange(b, '+') && IsWord(a) && IsWord(b) && AllWords(rest) && rest != []
    ensures RewriteHeader(HeaderText([a, b, "@@"] + rest)) == Some(HeaderText(rest))
  {
    var ws := [a, b, "@@"] + rest;
    assert IsWord("@@");
    assert AllWords(ws);
    HeaderFields(ws);
    FieldsOfWords(ws);
    assert ws[3..] == rest;
  }

  lemma LastHeader(c: string, d: string)
    requires IsRange(c, '-') && IsRange(d, '+') && IsWord(c) && IsWord(d)
    ensures RewriteHeader(HeaderText([c, d, "@@"])) == Some("@@")
  {
    assert IsWord("@@");
    HeaderFields([c, d, "@@"]);
    FieldsOfWords([c, d, "@@"]);
  }

  /** Two range headers in a row take two repairs, whatever their ranges. */
  lemma DoubleHeaderFails(a: string, b: string, c: string, d: string)
    requires IsRange(a, '-') && IsRange(b, '+') && IsRange(c, '-') && IsRange(d, '+')
    requires IsWord(a) && IsWord(b) && IsWord(c) && IsWord(d)
    ensures var text := HeaderText([a, b, "@@"] + [c, d, "@@"]); Repair(Repair(text)) != Repair(text)
  {
    var ws := [a, b, "@@"] + [c, d, "@@"];
    var text := HeaderText(ws);
    assert IsWord("@@");
    RangeHeader(a, b, [c, d, "@@"]);
    LastHeader(c, d);
    assert IsDouble(text);
    forall i | 0 <= i < |ws| ensures Free(ws[i], '\n') { assert IsWord(ws[i]); }
    JoinFree(ws, " ", '\n');
    assert Free(text, '\n');
    SplitPiece(text, '\n', "");
    assert LinesOf(text)[0] == text;
    RepairIdempotentIff(text);
  }

  lemma DoubleHeaderExample()
    ensures var text := HeaderText(["-1", "+1", "@@"] + ["-2", "+2", "@@"]); Repair(Repair(text)) != Repair(text)
  {
    assert AllDigits("-1"[1..]) && AllDigits("+1"[1..]) && AllDigits("-2"[1..]) && AllDigits("+2"[1..]);
    DoubleHeaderFails("-1", "+1", "-2", "+2");
  }
}
