/** Searching a value for a match, what the anchors and the group of the guardrail do, and when context matters. */
module RegexMatch {
  import opened Wrappers
  import opened Languages
  import opened RegexText
  import opened RegexMeaning

  /** Some part of the value is matched: what `regexp.MatchString` looks for. */
  ghost predicate MatchString(units: string -> Language, text: string, value: string) {
    exists s: Span :: s.text == value && s in RegexLanguage(units, text)
  }

  function Anchored(pattern: string): string {
    "^(?:" + pattern + ")$"
  }

  // ---------------------------------------------------------------- anchors

  lemma AnchorsPaste()
    ensures Pastes("^", Sequence(Empty, One(Begin))) && Pastes("$", Sequence(Empty, One(End)))
  {
    assert "^"[1..] == "" && "$"[1..] == "";
    assert [Leaf(Begin)][1..] == [] && [Leaf(End)][1..] == [];
    assert LexFrom(Ready, "^") == Lexed(Ready, [Leaf(Begin)]) && LexFrom(Ready, "$") == Lexed(Ready, [Leaf(End)]);
    assert ReadFrom(true, START, [Leaf(Begin)]) ==
           ReadFrom(true, Bottom(Frame(NoAlternatives, Sequence(Empty, One(Begin)))), []);
    assert ReadFrom(true, START, [Leaf(End)]) ==
           ReadFrom(true, Bottom(Frame(NoAlternatives, Sequence(Empty, One(End)))), []);
  }

  function AnchoredTree(a: Alternatives): Sequence {
    Append(Append(Sequence(Empty, One(Begin)), Sequence(Empty, Group(a))), Sequence(Empty, One(End)))
  }

  lemma AnchoredReads(pattern: string, a: Alternatives)
    requires RegexOf(pattern) == Some(a)
    ensures Pastes(Anchored(pattern), AnchoredTree(a))
  {
    AnchorsPaste();
    PastesGroup(pattern, a);
    var group := "(?:" + pattern + ")";
    PastesConcat("^", Sequence(Empty, One(Begin)), group, Sequence(Empty, Group(a)));
    PastesConcat("^" + group, Append(Sequence(Empty, One(Begin)), Sequence(Empty, Group(a))), "$",
                 Sequence(Empty, One(End)));
    assert "^" + group + "$" == Anchored(pattern);
  }

  lemma BetweenAnchors(l: Language, s: Span)
    ensures s in Concat(Concat(AT_BEGIN, l), AT_END) <==> s == Whole(s.text) && s in l
  {
    if s in Concat(Concat(AT_BEGIN, l), AT_END) {
      var k := ConcatSplit(Concat(AT_BEGIN, l), AT_END, s);
      var j := ConcatSplit(AT_BEGIN, l, Before(s, k));
      assert s == After(Before(s, k), j);
    }
    if s == Whole(s.text) && s in l {
      assert After(Before(s, s.to), 0) == s;
      ConcatHas(AT_BEGIN, l, Before(s, s.to), 0);
      ConcatHas(Concat(AT_BEGIN, l), AT_END, s, s.to);
    }
  }

  lemma AnchoredLanguage(units: string -> Language, pattern: string, s: Span)
    requires RegexOf(pattern).Some?
    ensures s in RegexLanguage(units, Anchored(pattern)) <==> s == Whole(s.text) && s in RegexLanguage(units, pattern)
  {
    var a := RegexOf(pattern).value;
    var m := Meaning(units, NoNames());
    AnchoredReads(pattern, a);
    PastesLanguage(units, Anchored(pattern), AnchoredTree(a));
    AppendLanguage(m, Append(Sequence(Empty, One(Begin)), Sequence(Empty, Group(a))), Sequence(Empty, One(End)));
    AppendLanguage(m, Sequence(Empty, One(Begin)), Sequence(Empty, Group(a)));
    SingleFactor(m, One(Begin));
    SingleFactor(m, One(End));
    SingleFactor(m, Group(a));
    BetweenAnchors(RegexLanguage(units, pattern), s);
  }

  /** Searching for the anchored expression is asking whether the pattern matches the whole value. */
  lemma AnchoredMatchesWhole(units: string -> Language, pattern: string, value: string)
    requires RegexOf(pattern).Some?
    ensures MatchString(units, Anchored(pattern), value) <==> Whole(value) in RegexLanguage(units, pattern)
  {
    AnchoredLanguage(units, pattern, Whole(value));
    if MatchString(units, Anchored(pattern), value) {
      var s: Span :| s.text == value && s in RegexLanguage(units, Anchored(pattern));
      AnchoredLanguage(units, pattern, s);
    }
  }

  // ---------------------------------------------------------------- what the group is for

  lemma PrefixFound(m: Meaning, v: string, value: string)
    requires v <= value
    ensures Place(value, 0, |v|) in SequenceLanguage(m, Append(Sequence(Empty, One(Begin)), UnitsOf(v)))
  {
    AppendLanguage(m, Sequence(Empty, One(Begin)), UnitsOf(v));
    SingleFactor(m, One(Begin));
    QuoteMeans(m, v);
    var s: Span := Place(value, 0, |v|);
    assert After(s, 0) == s && Covered(s) == v;
    ConcatHas(AT_BEGIN, Word(v), s, 0);
  }

  function TwoLiterals(v: string, w: string): string {
    QuoteMeta(v) + "|" + QuoteMeta(w)
  }

  lemma TwoLiteralsMean(units: string -> Language, v: string, w: string)
    ensures RegexOf(TwoLiterals(v, w)).Some? && RegexLanguage(units, TwoLiterals(v, w)) == Word(v) + Word(w)
  {
    var m := Meaning(units, NoNames());
    QuoteReads(v);
    QuoteReads(w);
    PastesRegex(QuoteMeta(v), UnitsOf(v));
    PastesBar(QuoteMeta(v), Alternatives(NoAlternatives, UnitsOf(v)), QuoteMeta(w), UnitsOf(w));
    SingleAlternative(m, UnitsOf(v));
    QuoteMeans(m, v);
    QuoteMeans(m, w);
  }

  lemma UngroupedReads(v: string, w: string)
    ensures RegexOf("^" + TwoLiterals(v, w) + "$") ==
            Some(Alternatives(Alternatives(NoAlternatives, Append(Sequence(Empty, One(Begin)), UnitsOf(v))),
                              Append(UnitsOf(w), Sequence(Empty, One(End)))))
  {
    AnchorsPaste();
    QuoteReads(v);
    QuoteReads(w);
    var front := Append(Sequence(Empty, One(Begin)), UnitsOf(v));
    var back := Append(UnitsOf(w), Sequence(Empty, One(End)));
    PastesConcat("^", Sequence(Empty, One(Begin)), QuoteMeta(v), UnitsOf(v));
    PastesConcat(QuoteMeta(w), UnitsOf(w), "$", Sequence(Empty, One(End)));
    PastesRegex("^" + QuoteMeta(v), front);
    PastesBar("^" + QuoteMeta(v), Alternatives(NoAlternatives, front), QuoteMeta(w) + "$", back);
    assert "^" + TwoLiterals(v, w) + "$" == "^" + QuoteMeta(v) + "|" + (QuoteMeta(w) + "$");
  }

  /**
    Without the group the anchors would bind to the outer alternatives: with two literals and a bar
    between them, a value that only begins with the first one is let through.
   */
  lemma UngroupedLetsThrough(units: string -> Language, v: string, w: string)
    ensures MatchString(units, "^" + TwoLiterals(v, w) + "$", v + "c" + w)
    ensures !MatchString(units, Anchored(TwoLiterals(v, w)), v + "c" + w)
  {
    var value := v + "c" + w;
    var m := Meaning(units, NoNames());
    UngroupedReads(v, w);
    assert value == v + ("c" + w);
    PrefixFound(m, v, value);
    SingleAlternative(m, Append(Sequence(Empty, One(Begin)), UnitsOf(v)));
    assert Place(value, 0, |v|) in RegexLanguage(units, "^" + TwoLiterals(v, w) + "$");
    TwoLiteralsMean(units, v, w);
    assert Covered(Whole(value)) == value;
    AnchoredMatchesWhole(units, TwoLiterals(v, w), value);
  }

  // ---------------------------------------------------------------- where context does not matter

  predicate FreeAlternatives(a: Alternatives) {
    a.Alternatives? ==> FreeAlternatives(a.init) && FreeSequence(a.last)
  }

  predicate FreeSequence(s: Sequence) {
    s.Sequence? ==> FreeSequence(s.init) && FreeFactor(s.last)
  }

  /** No anchors anywhere. */
  predicate FreeFactor(f: Factor) {
    match f
    case One(a) => !a.Begin? && !a.End?
    case Group(a) => FreeAlternatives(a)
    case Repeated(g, _) => FreeFactor(g)
  }

  ghost predicate ContextlessMeaning(m: Meaning) {
    (forall u :: Contextless(m.units(u))) && (forall n :: Contextless(m.names(n)))
  }

  lemma {:induction false} FreeAlternativesMean(m: Meaning, a: Alternatives)
    requires FreeAlternatives(a) && ContextlessMeaning(m)
    ensures Contextless(AlternativesLanguage(m, a))
    decreases a
  {
    if a.Alternatives? {
      FreeAlternativesMean(m, a.init);
      FreeSequenceMeans(m, a.last);
    }
  }

  lemma {:induction false} FreeSequenceMeans(m: Meaning, s: Sequence)
    requires FreeSequence(s) && ContextlessMeaning(m)
    ensures Contextless(SequenceLanguage(m, s))
    decreases s
  {
    if s.Sequence? {
      FreeSequenceMeans(m, s.init);
      FreeFactorMeans(m, s.last);
      ContextlessConcat(SequenceLanguage(m, s.init), FactorLanguage(m, s.last));
    } else {
      EmptyWord();
    }
  }

  lemma {:induction false} FreeFactorMeans(m: Meaning, f: Factor)
    requires FreeFactor(f) && ContextlessMeaning(m)
    ensures Contextless(FactorLanguage(m, f))
    decreases f
  {
    match f
    case One(_) =>
    case Group(a) => FreeAlternativesMean(m, a);
    case Repeated(g, t) =>
      FreeFactorMeans(m, g);
      ContextlessRepeat(FactorLanguage(m, g), t);
  }

  /** An expression without anchors and boundaries matches a span exactly when it matches the covered word by itself. */
  lemma MatchesAreWords(units: string -> Language, text: string, s: Span)
    requires RegexOf(text).Some? && FreeAlternatives(RegexOf(text).value)
    requires forall u :: Contextless(units(u))
    ensures s in RegexLanguage(units, text) <==> Whole(Covered(s)) in RegexLanguage(units, text)
  {
    var m := Meaning(units, NoNames());
    assert forall n :: m.names(n) == iset{};
    FreeAlternativesMean(m, RegexOf(text).value);
    assert Covered(Whole(Covered(s))) == Covered(s);
  }
}
