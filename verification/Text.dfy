/** The string operations of Go's `strings` package that the modelled code relies on. */
module Text {
  import opened Wrappers

  // ---------------------------------------------------------------- bytes

  /** The bytes that UTF-8 takes for a character. */
  function Utf8Width(c: char): nat {
    if c < 0x80 as char then 1 else if c < 0x800 as char then 2 else if c as int < 0x10000 then 3 else 4
  }

  function ByteLen(s: string): nat {
    if s == "" then 0 else Utf8Width(s[0]) + ByteLen(s[1..])
  }

  lemma {:induction false} ByteLenConcat(a: string, b: string)
    ensures ByteLen(a + b) == ByteLen(a) + ByteLen(b)
    decreases a
  {
    if a == "" {
      assert a + b == b;
    } else {
      assert (a + b)[1..] == a[1..] + b;
      ByteLenConcat(a[1..], b);
    }
  }

  // ---------------------------------------------------------------- white space

  predicate IsSpace(c: char) {
    c == ' ' || c == '\t' || c == '\n' || c == '\r' || c == 0x0B as char || c == 0x0C as char
    || c == 0x85 as char || c == 0xA0 as char || c == 0x1680 as char || 0x2000 as char <= c <= 0x200A as char
    || c == 0x2028 as char || c == 0x2029 as char || c == 0x202F as char || c == 0x205F as char || c == 0x3000 as char
  }

  predicate AllSpace(s: string) {
    forall c :: c in s ==> IsSpace(c)
  }

  function TrimLeft(s: string): string {
    if s != "" && IsSpace(s[0]) then TrimLeft(s[1..]) else s
  }

  function TrimRight(s: string): string {
    if s != "" && IsSpace(s[|s| - 1]) then TrimRight(s[..|s| - 1]) else s
  }

  function TrimSpace(s: string): string {
    TrimRight(TrimLeft(s))
  }

  /** The string starts and ends with something other than white space, or is empty. */
  predicate IsTrimmed(s: string) {
    s != "" ==> !IsSpace(s[0]) && !IsSpace(s[|s| - 1])
  }

  lemma Associative(a: string, b: string, c: string)
    ensures a + b + c == a + (b + c)
  {
  }

  lemma {:induction false} TrimLeftParts(s: string) returns (a: string)
    ensures s == a + TrimLeft(s) && AllSpace(a)
    ensures TrimLeft(s) != "" ==> !IsSpace(TrimLeft(s)[0])
  {
    if s != "" && IsSpace(s[0]) {
      var b := TrimLeftParts(s[1..]);
      a := [s[0]] + b;
      Associative([s[0]], b, TrimLeft(s[1..]));
      assert s == [s[0]] + s[1..];
    } else {
      a := "";
    }
  }

  lemma {:induction false} TrimRightParts(s: string) returns (b: string)
    ensures s == TrimRight(s) + b && AllSpace(b)
    ensures TrimRight(s) != "" ==> !IsSpace(TrimRight(s)[|TrimRight(s)| - 1])
  {
    if s != "" && IsSpace(s[|s| - 1]) {
      var c := TrimRightParts(s[..|s| - 1]);
      b := c + [s[|s| - 1]];
      Associative(TrimRight(s[..|s| - 1]), c, [s[|s| - 1]]);
      assert s == s[..|s| - 1] + [s[|s| - 1]];
    } else {
      b := "";
    }
  }

  /** Trimming drops white space at the two ends and nothing else. */
  lemma TrimParts(s: string) returns (a: string, b: string)
    ensures s == a + TrimSpace(s) + b && AllSpace(a) && AllSpace(b)
    ensures IsTrimmed(TrimSpace(s))
  {
    a := TrimLeftParts(s);
    b := TrimRightParts(TrimLeft(s));
    if TrimSpace(s) != "" {
      assert TrimLeft(s)[0] == TrimSpace(s)[0];
    }
  }

  lemma {:induction false} TrimOfTrimmed(s: string)
    requires IsTrimmed(s)
    ensures TrimSpace(s) == s
  {
  }

  lemma TrimTwice(s: string)
    ensures TrimSpace(TrimSpace(s)) == TrimSpace(s)
  {
    var a, b := TrimParts(s);
    TrimOfTrimmed(TrimSpace(s));
  }

  lemma {:induction false} TrimLeftSkips(a: string, s: string)
    requires AllSpace(a)
    ensures TrimLeft(a + s) == TrimLeft(s)
  {
    if a == "" {
      assert a + s == s;
    } else {
      assert (a + s)[1..] == a[1..] + s;
      TrimLeftSkips(a[1..], s);
    }
  }

  lemma {:induction false} TrimRightSkips(s: string, b: string)
    requires AllSpace(b)
    ensures TrimRight(s + b) == TrimRight(s)
  {
    if b == "" {
      assert s + b == s;
    } else {
      assert (s + b)[..|s + b| - 1] == s + b[..|b| - 1];
      TrimRightSkips(s, b[..|b| - 1]);
    }
  }

  lemma {:induction false} TrimLeftAllSpace(s: string)
    requires AllSpace(s)
    ensures TrimLeft(s) == ""
  {
    if s != "" { TrimLeftAllSpace(s[1..]); }
  }

  /** A trimmed string with white space around it trims back to itself. */
  lemma TrimAround(a: string, s: string, b: string)
    requires AllSpace(a) && AllSpace(b) && IsTrimmed(s)
    ensures TrimSpace(a + s + b) == s
  {
    assert a + s + b == a + (s + b);
    TrimLeftSkips(a, s + b);
    if s == "" {
      assert s + b == b;
      TrimLeftAllSpace(b);
    } else {
      TrimRightSkips(s, b);
    }
  }

  /** The pieces between the separators; one more than there are separators. */
  function Split(s: string, sep: char): (r: seq<string>)
    ensures |r| > 0
  {
    if s == "" then [""]
    else
      var rest := Split(s[1..], sep);
      if s[0] == sep then [""] + rest else [[s[0]] + rest[0]] + rest[1..]
  }

  function Join(pieces: seq<string>, sep: string): string {
    if pieces == [] then ""
    else if |pieces| == 1 then pieces[0]
    else pieces[0] + sep + Join(pieces[1..], sep)
  }

  lemma {:induction false} JoinSnoc(pieces: seq<string>, piece: string, sep: string)
    requires pieces != []
    ensures Join(pieces + [piece], sep) == Join(pieces, sep) + sep + piece
  {
    if |pieces| > 1 {
      assert (pieces + [piece])[1..] == pieces[1..] + [piece];
      JoinSnoc(pieces[1..], piece, sep);
    }
  }

  predicate Free(s: string, sep: char) {
    sep !in s
  }

  predicate AllFree(pieces: seq<string>, sep: char) {
    forall i :: 0 <= i < |pieces| ==> Free(pieces[i], sep)
  }

  lemma {:induction false} SplitFree(s: string, sep: char)
    ensures AllFree(Split(s, sep), sep)
  {
    if s != "" {
      SplitFree(s[1..], sep);
      var rest := Split(s[1..], sep);
      assert Free(rest[0], sep);
    }
  }

  lemma {:induction false} JoinSplit(s: string, sep: char)
    ensures Join(Split(s, sep), [sep]) == s
  {
    if s != "" {
      JoinSplit(s[1..], sep);
      var rest := Split(s[1..], sep);
      assert s == [s[0]] + s[1..];
      if s[0] == sep {
        assert ([""] + rest)[1..] == rest;
      } else {
        assert ([[s[0]] + rest[0]] + rest[1..])[1..] == rest[1..];
      }
    }
  }

  lemma {:induction false} SplitPiece(a: string, sep: char, rest: string)
    requires Free(a, sep)
    ensures Split(a, sep) == [a]
    ensures Split(a + [sep] + rest, sep) == [a] + Split(rest, sep)
  {
    var all := a + [sep] + rest;
    if a == "" {
      assert all[1..] == rest;
    } else {
      assert all[1..] == a[1..] + [sep] + rest;
      SplitPiece(a[1..], sep, rest);
      assert a == [a[0]] + a[1..];
    }
  }

  lemma {:induction false} SplitJoin(pieces: seq<string>, sep: char)
    requires |pieces| > 0 && AllFree(pieces, sep)
    ensures Split(Join(pieces, [sep]), sep) == pieces
  {
    assert Free(pieces[0], sep);
    if |pieces| == 1 {
      SplitPiece(pieces[0], sep, "");
    } else {
      var rest := pieces[1..];
      assert forall i :: 0 <= i < |rest| ==> rest[i] == pieces[i + 1];
      assert AllFree(rest, sep) by {
        forall i | 0 <= i < |rest| ensures Free(rest[i], sep) { assert Free(pieces[i + 1], sep); }
      }
      SplitJoin(rest, sep);
      SplitPiece(pieces[0], sep, Join(rest, [sep]));
    }
  }

  /** Two lists of pieces, the last of the one run together with the first of the other. */
  function Glue(x: seq<string>, y: seq<string>): seq<string>
    requires |x| > 0 && |y| > 0
  {
    x[..|x| - 1] + [x[|x| - 1] + y[0]] + y[1..]
  }

  lemma GlueCons(x: seq<string>, y: seq<string>)
    requires |x| > 0 && |y| > 0
    ensures Glue([""] + x, y) == [""] + Glue(x, y)
  {
    var longer := [""] + x;
    assert longer[..|longer| - 1] == [""] + x[..|x| - 1];
  }

  lemma GlueFirst(c: char, x: seq<string>, y: seq<string>)
    requires |x| > 0 && |y| > 0
    ensures Glue([[c] + x[0]] + x[1..], y) == [[c] + Glue(x, y)[0]] + Glue(x, y)[1..]
  {
    var longer := [[c] + x[0]] + x[1..];
    if |x| == 1 {
      assert longer[..|longer| - 1] == [] && x[..0] == [];
      assert [c] + x[0] + y[0] == [c] + (x[0] + y[0]);
      assert Glue(x, y) == [x[0] + y[0]] + y[1..];
    } else {
      assert longer[..|longer| - 1] == [[c] + x[0]] + x[1..|x| - 1];
      assert Glue(x, y)[1..] == x[1..|x| - 1] + [x[|x| - 1] + y[0]] + y[1..];
    }
  }

  lemma {:induction false} SplitConcat(a: string, b: string, sep: char)
    ensures Split(a + b, sep) == Glue(Split(a, sep), Split(b, sep))
  {
    var y := Split(b, sep);
    if a == "" {
      assert a + b == b;
      assert "" + y[0] == y[0];
    } else {
      SplitConcat(a[1..], b, sep);
      assert (a + b)[1..] == a[1..] + b;
      GlueCons(Split(a[1..], sep), y);
      GlueFirst(a[0], Split(a[1..], sep), y);
    }
  }

  lemma {:induction false} SplitEnds(s: string, sep: char)
    requires s != "" && s[0] != sep && s[|s| - 1] != sep
    ensures var x := Split(s, sep); x[0] != "" && x[0][0] == s[0]
    ensures var x := Split(s, sep); x[|x| - 1] != "" && x[|x| - 1][|x[|x| - 1]| - 1] == s[|s| - 1]
  {
    var front, last := s[..|s| - 1], [s[|s| - 1]];
    assert s == front + last;
    SplitPiece(last, sep, "");
    SplitConcat(front, last, sep);
  }

  lemma FreePiece(s: string, i: nat, j: nat)
    requires Free(s, '\n') && i <= j <= |s|
    ensures Free(s[i..j], '\n')
  {
    forall k | 0 <= k < j - i ensures s[i..j][k] != '\n' { assert s[i..j][k] == s[i + k] && s[i + k] in s; }
  }

  lemma TrimFree(s: string)
    requires Free(s, '\n')
    ensures Free(TrimSpace(s), '\n')
  {
    var a, b := TrimParts(s);
    assert TrimSpace(s) == s[|a|..|a| + |TrimSpace(s)|];
    FreePiece(s, |a|, |a| + |TrimSpace(s)|);
  }

  lemma AllSpaceIffBlank(s: string)
    ensures AllSpace(s) <==> TrimSpace(s) == ""
  {
    if AllSpace(s) {
      TrimLeftAllSpace(s);
    }
    var a, b := TrimParts(s);
  }

  predicate AllPiecesSpace(pieces: seq<string>) {
    forall i :: 0 <= i < |pieces| ==> AllSpace(pieces[i])
  }

  lemma AllPiecesSpaceCons(piece: string, pieces: seq<string>)
    ensures AllPiecesSpace([piece] + pieces) <==> AllSpace(piece) && AllPiecesSpace(pieces)
  {
    var all := [piece] + pieces;
    if AllPiecesSpace(all) {
      assert AllSpace(all[0]);
      forall i | 0 <= i < |pieces| ensures AllSpace(pieces[i]) { assert AllSpace(all[i + 1]); }
    }
  }

  lemma AllSpaceCons(c: char, s: string)
    ensures AllSpace([c] + s) <==> IsSpace(c) && AllSpace(s)
  {
    if AllSpace([c] + s) {
      assert ([c] + s)[0] in [c] + s;
    }
  }

  lemma {:induction false} SplitAllSpace(s: string, sep: char)
    requires IsSpace(sep)
    ensures AllSpace(s) <==> AllPiecesSpace(Split(s, sep))
  {
    if s != "" {
      SplitAllSpace(s[1..], sep);
      var z := Split(s[1..], sep);
      assert s == [s[0]] + s[1..] && z == [z[0]] + z[1..];
      AllSpaceCons(s[0], s[1..]);
      AllSpaceCons(s[0], z[0]);
      AllPiecesSpaceCons("", z);
      AllPiecesSpaceCons(z[0], z[1..]);
      AllPiecesSpaceCons([s[0]] + z[0], z[1..]);
    }
  }

  predicate OccursAt(s: string, sub: string, k: nat) {
    k + |sub| <= |s| && s[k..k + |sub|] == sub
  }

  lemma OccursNext(s: string, sub: string, k: nat)
    requires s != "" && k > 0
    ensures OccursAt(s, sub, k) <==> OccursAt(s[1..], sub, k - 1)
  {
    if k + |sub| <= |s| {
      var a, b := s[k..k + |sub|], s[1..][k - 1..k - 1 + |sub|];
      forall j | 0 <= j < |sub| ensures a[j] == b[j] { assert a[j] == s[k + j]; }
      assert a == b;
    }
  }

  /** The first place where `sub` occurs in `s`, if any. */
  function IndexOf(s: string, sub: string): (r: Option<nat>)
    ensures r.Some? ==> OccursAt(s, sub, r.value) && forall k: nat :: k < r.value ==> !OccursAt(s, sub, k)
    ensures r.None? ==> forall k: nat :: !OccursAt(s, sub, k)
  {
    if sub <= s then Some(0)
    else if s == "" then None
    else
      assert forall k: nat :: k > 0 ==> (OccursAt(s, sub, k) <==> OccursAt(s[1..], sub, k - 1)) by {
        forall k: nat | k > 0
          ensures OccursAt(s, sub, k) <==> OccursAt(s[1..], sub, k - 1)
        {
          OccursNext(s, sub, k);
        }
      }
      match IndexOf(s[1..], sub)
      case None => None
      case Some(k) => Some(k + 1)
  }
}
