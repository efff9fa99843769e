/**
  Formal languages: the common ground on which the Lark source, the compiled regular
  expression and the emitted grammar are compared.

  A language says which spans of a text belong to it.  That the text around a span is
  known too gives anchors and word boundaries a meaning; where nothing looks around, a
  span belongs exactly when the word it covers does.
 */
module Languages {
  import opened Wrappers

  datatype Place = Place(text: string, from: nat, to: nat)

  type Span = p: Place | p.from <= p.to <= |p.text| witness Place("", 0, 0)

  type Language = iset<Span>

  /** The span that covers all of a text. */
  function Whole(w: string): Span {
    Place(w, 0, |w|)
  }

  function Covered(s: Span): string {
    s.text[s.from..s.to]
  }

  function Before(s: Span, k: nat): Span
    requires s.from <= k <= s.to
  {
    Place(s.text, s.from, k)
  }

  function After(s: Span, k: nat): Span
    requires s.from <= k <= s.to
  {
    Place(s.text, k, s.to)
  }

  /** How often a factor may be repeated: `*` is 0.., `+` is 1.., `?` is 0..1. */
  datatype Times = Times(lo: nat, hi: Option<nat>) {
    predicate Allows(n: nat) {
      lo <= n && (hi.Some? ==> n <= hi.value)
    }
  }

  const STAR := Times(0, None)
  const PLUS := Times(1, None)
  const QUESTION := Times(0, Some(1))

  ghost const EPSILON: Language := iset s: Span | s.from == s.to

  /** The spans that cover the word `v`, wherever they stand. */
  ghost function Word(v: string): Language {
    iset s: Span | Covered(s) == v
  }

  ghost predicate Splits(a: Language, b: Language, s: Span) {
    exists k :: s.from <= k <= s.to && Before(s, k) in a && After(s, k) in b
  }

  ghost function Concat(a: Language, b: Language): Language {
    iset s: Span | Splits(a, b, s)
  }

  ghost function Power(a: Language, n: nat): Language {
    if n == 0 then EPSILON else Concat(Power(a, n - 1), a)
  }

  ghost predicate Repeats(a: Language, t: Times, s: Span) {
    exists n: nat :: t.Allows(n) && s in Power(a, n)
  }

  ghost function Repeat(a: Language, t: Times): Language {
    iset s: Span | Repeats(a, t, s)
  }

  lemma ConcatHas(a: Language, b: Language, s: Span, k: nat)
    requires s.from <= k <= s.to && Before(s, k) in a && After(s, k) in b
    ensures s in Concat(a, b)
  {
  }

  lemma ConcatSplit(a: Language, b: Language, s: Span) returns (k: nat)
    requires s in Concat(a, b)
    ensures s.from <= k <= s.to && Before(s, k) in a && After(s, k) in b
  {
    k :| s.from <= k <= s.to && Before(s, k) in a && After(s, k) in b;
  }

  lemma ConcatAssociative(a: Language, b: Language, c: Language)
    ensures Concat(Concat(a, b), c) == Concat(a, Concat(b, c))
  {
    forall s | s in Concat(Concat(a, b), c)
      ensures s in Concat(a, Concat(b, c))
    {
      var k := ConcatSplit(Concat(a, b), c, s);
      var j := ConcatSplit(a, b, Before(s, k));
      assert Before(After(s, j), k) == After(Before(s, k), j);
      ConcatHas(b, c, After(s, j), k);
      ConcatHas(a, Concat(b, c), s, j);
    }
    forall s | s in Concat(a, Concat(b, c))
      ensures s in Concat(Concat(a, b), c)
    {
      var j := ConcatSplit(a, Concat(b, c), s);
      var k := ConcatSplit(b, c, After(s, j));
      assert After(Before(s, k), j) == Before(After(s, j), k);
      ConcatHas(a, b, Before(s, k), j);
      ConcatHas(Concat(a, b), c, s, k);
    }
  }

  lemma ConcatUnitLeft(a: Language)
    ensures Concat(EPSILON, a) == a
  {
    forall s: Span
      ensures s in Concat(EPSILON, a) <==> s in a
    {
      if s in a {
        assert After(s, s.from) == s;
        ConcatHas(EPSILON, a, s, s.from);
      }
      if s in Concat(EPSILON, a) {
        var k := ConcatSplit(EPSILON, a, s);
        assert After(s, k) == s;
      }
    }
  }

  lemma ConcatUnitRight(a: Language)
    ensures Concat(a, EPSILON) == a
  {
    forall s: Span
      ensures s in Concat(a, EPSILON) <==> s in a
    {
      if s in a {
        assert Before(s, s.to) == s;
        ConcatHas(a, EPSILON, s, s.to);
      }
      if s in Concat(a, EPSILON) {
        var k := ConcatSplit(a, EPSILON, s);
        assert Before(s, k) == s;
      }
    }
  }

  lemma ConcatMonotone(a: Language, a': Language, b: Language, b': Language)
    requires a <= a' && b <= b'
    ensures Concat(a, b) <= Concat(a', b')
  {
  }

  lemma {:induction false} PowerMonotone(a: Language, b: Language, n: nat)
    requires a <= b
    ensures Power(a, n) <= Power(b, n)
  {
    if n > 0 {
      PowerMonotone(a, b, n - 1);
      ConcatMonotone(Power(a, n - 1), Power(b, n - 1), a, b);
    }
  }

  lemma RepeatMonotone(a: Language, b: Language, t: Times)
    requires a <= b
    ensures Repeat(a, t) <= Repeat(b, t)
  {
    forall s | s in Repeat(a, t)
      ensures s in Repeat(b, t)
    {
      var n: nat :| t.Allows(n) && s in Power(a, n);
      PowerMonotone(a, b, n);
    }
  }

  // ---------------------------------------------------------------- words

  lemma CoveredSplit(s: Span, k: nat)
    requires s.from <= k <= s.to
    ensures Covered(s) == Covered(Before(s, k)) + Covered(After(s, k))
    ensures Covered(Before(s, k)) == Covered(s)[..k - s.from] && Covered(After(s, k)) == Covered(s)[k - s.from..]
  {
  }

  lemma WordSplits(u: string, v: string, s: Span)
    requires s in Concat(Word(u), Word(v))
    ensures s in Word(u + v)
  {
    var k := ConcatSplit(Word(u), Word(v), s);
    CoveredSplit(s, k);
  }

  lemma WordJoins(u: string, v: string, s: Span)
    requires s in Word(u + v)
    ensures s in Concat(Word(u), Word(v))
  {
    var k := s.from + |u|;
    assert |Covered(s)| == s.to - s.from == |u| + |v|;
    CoveredSplit(s, k);
    Halves(u, v);
    ConcatHas(Word(u), Word(v), s, k);
  }

  lemma Halves(u: string, v: string)
    ensures (u + v)[..|u|] == u && (u + v)[|u|..] == v
  {
  }

  lemma WordConcat(u: string, v: string)
    ensures Concat(Word(u), Word(v)) == Word(u + v)
  {
    forall s: Span | s in Concat(Word(u), Word(v)) ensures s in Word(u + v) { WordSplits(u, v, s); }
    forall s: Span | s in Word(u + v) ensures s in Concat(Word(u), Word(v)) { WordJoins(u, v, s); }
  }

  lemma EmptyWord()
    ensures Word("") == EPSILON
  {
    forall s: Span ensures s in Word("") <==> s in EPSILON {
      assert |Covered(s)| == s.to - s.from;
    }
  }

  /** Whether a span belongs depends on the word it covers only. */
  ghost predicate Contextless(a: Language) {
    forall s: Span, t: Span :: s in a && Covered(s) == Covered(t) ==> t in a
  }

  lemma ContextlessConcat(a: Language, b: Language)
    requires Contextless(a) && Contextless(b)
    ensures Contextless(Concat(a, b))
  {
    forall s: Span, t: Span | s in Concat(a, b) && Covered(s) == Covered(t)
      ensures t in Concat(a, b)
    {
      var k := ConcatSplit(a, b, s);
      assert |Covered(s)| == |Covered(t)|;
      var j := t.from + (k - s.from);
      CoveredSplit(s, k);
      CoveredSplit(t, j);
      assert Covered(Before(s, k)) == Covered(Before(t, j)) && Covered(After(s, k)) == Covered(After(t, j));
      ConcatHas(a, b, t, j);
    }
  }

  lemma {:induction false} ContextlessPower(a: Language, n: nat)
    requires Contextless(a)
    ensures Contextless(Power(a, n))
  {
    if n == 0 {
      EmptyWord();
    } else {
      ContextlessPower(a, n - 1);
      ContextlessConcat(Power(a, n - 1), a);
    }
  }

  lemma ContextlessRepeat(a: Language, t: Times)
    requires Contextless(a)
    ensures Contextless(Repeat(a, t))
  {
    forall s: Span, u: Span | s in Repeat(a, t) && Covered(s) == Covered(u)
      ensures u in Repeat(a, t)
    {
      var n: nat :| t.Allows(n) && s in Power(a, n);
      ContextlessPower(a, n);
    }
  }
}
