/**
  What a text means: the spans its tree stands for, and what pasting one text into
  another does to it.
 */
module RegexMeaning {
  import opened Wrappers
  import opened Languages
  import opened RegexText

  /** The languages of what is not spelled out here: classes and escapes, and named rules. */
  datatype Meaning = Meaning(units: string -> Language, names: string -> Language)

  /** The characters that `regexp.QuoteMeta` escapes. */
  predicate IsMeta(c: char) {
    c == '\\' || c == '.' || c == '+' || c == '*' || c == '?' || c == '(' || c == ')' || c == '|'
    || c == '[' || c == ']' || c == '{' || c == '}' || c == '^' || c == '$'
  }

  ghost function UnitLanguage(units: string -> Language, text: string): Language {
    if |text| == 1 && text[0] != '.' then Word(text)
    else if |text| == 2 && text[0] == '\\' && IsSign(text[1]) then Word(text[1..])
    else units(text)
  }

  ghost const AT_BEGIN: Language := iset s: Span | s.to == 0
  ghost const AT_END: Language := iset s: Span | s.from == |s.text|

  ghost function AlternativesLanguage(m: Meaning, a: Alternatives): Language {
    match a
    case NoAlternatives => iset{}
    case Alternatives(init, s) => AlternativesLanguage(m, init) + SequenceLanguage(m, s)
  }

  ghost function SequenceLanguage(m: Meaning, s: Sequence): Language {
    match s
    case Empty => EPSILON
    case Sequence(init, f) => Concat(SequenceLanguage(m, init), FactorLanguage(m, f))
  }

  ghost function FactorLanguage(m: Meaning, f: Factor): Language {
    match f
    case One(Unit(text)) => UnitLanguage(m.units, text)
    case One(Quoted(value)) => Word(value)
    case One(Name(name)) => m.names(name)
    case One(Begin) => AT_BEGIN
    case One(End) => AT_END
    case Group(a) => AlternativesLanguage(m, a)
    case Repeated(g, t) => Repeat(FactorLanguage(m, g), t)
  }

  ghost function NoNames(): string -> Language {
    (name: string) => iset{}
  }

  /** The spans that a regular expression text matches. */
  ghost function RegexLanguage(units: string -> Language, text: string): Language {
    match RegexOf(text)
    case None => iset{}
    case Some(a) => AlternativesLanguage(Meaning(units, NoNames()), a)
  }

  lemma {:induction false} AppendLanguage(m: Meaning, s: Sequence, t: Sequence)
    ensures SequenceLanguage(m, Append(s, t)) == Concat(SequenceLanguage(m, s), SequenceLanguage(m, t))
  {
    match t
    case Empty => ConcatUnitRight(SequenceLanguage(m, s));
    case Sequence(init, f) =>
      AppendLanguage(m, s, init);
      ConcatAssociative(SequenceLanguage(m, s), SequenceLanguage(m, init), FactorLanguage(m, f));
  }

  lemma SingleFactor(m: Meaning, f: Factor)
    ensures SequenceLanguage(m, Sequence(Empty, f)) == FactorLanguage(m, f)
  {
    ConcatUnitLeft(FactorLanguage(m, f));
  }

  lemma SingleAlternative(m: Meaning, s: Sequence)
    ensures AlternativesLanguage(m, Alternatives(NoAlternatives, s)) == SequenceLanguage(m, s)
  {
    assert AlternativesLanguage(m, NoAlternatives) == iset{};
  }

  // ---------------------------------------------------------------- texts that read as a sequence

  predicate Pastes(text: string, s: Sequence) {
    LexFrom(Ready, text).state.Ready? && Reads(true, LexFrom(Ready, text).lexemes, s)
  }

  lemma PastesSelfContained(text: string)
    requires SelfContained(text)
    ensures Pastes(text, Body(text))
  {
  }

  lemma PastesLanguage(units: string -> Language, text: string, s: Sequence)
    requires Pastes(text, s)
    ensures SelfContained(text) && Body(text) == s
    ensures RegexLanguage(units, text) == SequenceLanguage(Meaning(units, NoNames()), s)
  {
    SingleAlternative(Meaning(units, NoNames()), s);
  }

  lemma PastesRegex(text: string, s: Sequence)
    requires Pastes(text, s)
    ensures RegexOf(text) == Some(Alternatives(NoAlternatives, s))
  {
  }

  lemma PastesConcat(a: string, s: Sequence, b: string, t: Sequence)
    requires Pastes(a, s) && Pastes(b, t)
    ensures Pastes(a + b, Append(s, t))
  {
    LexConcat(Ready, a, b);
    ReadsConcat(true, LexFrom(Ready, a).lexemes, s, LexFrom(Ready, b).lexemes, t);
  }

  lemma LexSign(text: string, x: Lexeme)
    requires (text == "(?:" && x == Open) || (text == ")" && x == Close) || (text == "|" && x == Bar)
          || (text == "*" && x == Post(STAR)) || (text == "+" && x == Post(PLUS)) ||
             (text == "?" && x == Post(QUESTION))
    ensures LexFrom(Ready, text) == Lexed(Ready, [x])
  {
    assert "(?:"[1..] == "?:" && "?:"[1..] == ":" && ":"[1..] == "";
    assert text != "(?:" ==> text[1..] == "";
  }

  /** `(?:` and `)` keep any text together, also one with a `|` outside its groups. */
  lemma PastesGroup(text: string, a: Alternatives)
    requires RegexOf(text) == Some(a)
    ensures Pastes("(?:" + text + ")", Sequence(Empty, Group(a)))
  {
    LexSign("(?:", Open);
    LexSign(")", Close);
    LexConcat(Ready, "(?:", text);
    LexConcat(Ready, "(?:" + text, ")");
    ReadsGroup(true, LexFrom(Ready, text).lexemes, a);
  }

  lemma PastesPost(text: string, f: Factor, sign: string, t: Times)
    requires Pastes(text, Sequence(Empty, f)) && !f.Repeated?
    requires (sign == "*" && t == STAR) || (sign == "+" && t == PLUS) || (sign == "?" && t == QUESTION)
    ensures Pastes(text + sign, Sequence(Empty, Repeated(f, t)))
  {
    LexSign(sign, Post(t));
    LexConcat(Ready, text, sign);
    ReadsPost(true, LexFrom(Ready, text).lexemes, f, t);
  }

  lemma PastesBar(a: string, alternatives: Alternatives, b: string, s: Sequence)
    requires RegexOf(a) == Some(alternatives) && Pastes(b, s)
    ensures RegexOf(a + "|" + b) == Some(Alternatives(alternatives, s))
  {
    LexSign("|", Bar);
    LexConcat(Ready, a, "|");
    LexConcat(Ready, a + "|", b);
    ReadsBar(true, LexFrom(Ready, a).lexemes, alternatives, LexFrom(Ready, b).lexemes, s);
  }

  // ---------------------------------------------------------------- quoted literals

  function QuoteChar(c: char): string {
    if IsMeta(c) then ['\\', c] else [c]
  }

  function QuoteMeta(v: string): string {
    if v == "" then "" else QuoteMeta(v[..|v| - 1]) + QuoteChar(v[|v| - 1])
  }

  function UnitsOf(v: string): Sequence {
    if v == "" then Empty else Sequence(UnitsOf(v[..|v| - 1]), One(Unit(QuoteChar(v[|v| - 1]))))
  }

  lemma LexQuoteChar(c: char)
    ensures LexFrom(Ready, QuoteChar(c)) == Lexed(Ready, [Leaf(Unit(QuoteChar(c)))])
  {
    var q := QuoteChar(c);
    if IsMeta(c) {
      assert q[1..] == [c] && [c][1..] == "";
      assert LexFrom(Escaped, [c]) == Lexed(Ready, [Leaf(Unit(q))]);
    } else {
      assert q[1..] == "";
    }
  }

  lemma {:induction false} QuoteReads(v: string)
    ensures Pastes(QuoteMeta(v), UnitsOf(v))
  {
    if v == "" {
      assert Reads(true, LexFrom(Ready, "").lexemes, Empty);
    } else {
      var init, c := v[..|v| - 1], v[|v| - 1];
      QuoteReads(init);
      LexQuoteChar(c);
      assert Reads(true, [Leaf(Unit(QuoteChar(c)))], Sequence(Empty, One(Unit(QuoteChar(c)))));
      var last := Sequence(Empty, One(Unit(QuoteChar(c))));
      PastesConcat(QuoteMeta(init), UnitsOf(init), QuoteChar(c), last);
      assert UnitsOf(v) == Append(UnitsOf(init), last);
    }
  }

  lemma {:induction false} QuoteMeans(m: Meaning, v: string)
    ensures SequenceLanguage(m, UnitsOf(v)) == Word(v)
  {
    if v == "" {
      EmptyWord();
    } else {
      var init, c := v[..|v| - 1], v[|v| - 1];
      QuoteMeans(m, init);
      assert FactorLanguage(m, One(Unit(QuoteChar(c)))) == Word([c]) by {
        if IsMeta(c) { assert QuoteChar(c)[1..] == [c]; }
      }
      WordConcat(init, [c]);
      assert init + [c] == v;
    }
  }

  /** Quoting a literal gives a text that matches the literal and nothing else. */
  lemma QuoteMetaMatches(units: string -> Language, v: string)
    ensures SelfContained(QuoteMeta(v))
    ensures RegexLanguage(units, QuoteMeta(v)) == Word(v)
  {
    QuoteReads(v);
    PastesLanguage(units, QuoteMeta(v), UnitsOf(v));
    QuoteMeans(Meaning(units, NoNames()), v);
  }

  // ---------------------------------------------------------------- when is pasting safe?

  function Pasted(before: string, text: string, after: string): string {
    QuoteMeta(before) + text + QuoteMeta(after)
  }

  function Wrapped(before: string, text: string, after: string): string {
    Pasted(before, "(?:" + text + ")", after)
  }

  /** Pasting the bare text between any two literals means what pasting it as a group means. */
  ghost predicate SafeToPaste(units: string -> Language, text: string) {
    forall before: string, after: string ::
      RegexLanguage(units, Pasted(before, text, after)) == RegexLanguage(units, Wrapped(before, text, after))
  }

  lemma PastedSequence(units: string -> Language, before: string, text: string, after: string, s: Sequence)
    requires Pastes(text, s)
    ensures RegexLanguage(units, Pasted(before, text, after)) ==
            Concat(Concat(Word(before), SequenceLanguage(Meaning(units, NoNames()), s)), Word(after))
  {
    var m := Meaning(units, NoNames());
    QuoteReads(before);
    QuoteReads(after);
    QuoteMeans(m, before);
    QuoteMeans(m, after);
    PastesConcat(QuoteMeta(before), UnitsOf(before), text, s);
    PastesConcat(QuoteMeta(before) + text, Append(UnitsOf(before), s), QuoteMeta(after), UnitsOf(after));
    AppendLanguage(m, UnitsOf(before), s);
    AppendLanguage(m, Append(UnitsOf(before), s), UnitsOf(after));
    PastesLanguage(units, Pasted(before, text, after), Append(Append(UnitsOf(before), s), UnitsOf(after)));
  }

  lemma WrappedLanguage(units: string -> Language, before: string, text: string, after: string)
    requires RegexOf(text).Some?
    ensures RegexLanguage(units, Wrapped(before, text, after)) ==
            Concat(Concat(Word(before), RegexLanguage(units, text)), Word(after))
  {
    var a := RegexOf(text).value;
    PastesGroup(text, a);
    PastedSequence(units, before, "(?:" + text + ")", after, Sequence(Empty, Group(a)));
    SingleFactor(Meaning(units, NoNames()), Group(a));
  }

  /** `s` put in front of the first alternative only: what pasting after `s` does to a bare `|`. */
  function Prefixed(s: Sequence, a: Alternatives): Alternatives {
    match a
    case NoAlternatives => NoAlternatives
    case Alternatives(NoAlternatives, t) => Alternatives(NoAlternatives, Append(s, t))
    case Alternatives(init, t) => Alternatives(Prefixed(s, init), t)
  }

  function PrefixedStack(s: Sequence, st: Stack): Stack {
    match st
    case Bottom(f) =>
      if f.done.NoAlternatives? then Bottom(f.(cur := Append(s, f.cur)))
      else Bottom(f.(done := Prefixed(s, f.done)))
    case Nested(below, f) => Nested(PrefixedStack(s, below), f)
  }

  lemma {:induction false} ReadPrefixed(s: Sequence, st: Stack, xs: seq<Lexeme>)
    requires ReadFrom(true, st, xs).Some?
    ensures ReadFrom(true, PrefixedStack(s, st), xs) == Some(PrefixedStack(s, ReadFrom(true, st, xs).value))
    decreases xs
  {
    if xs != [] {
      var st' := ReadStep(true, st, xs[0]).value;
      assert ReadStep(true, PrefixedStack(s, st), xs[0]) == Some(PrefixedStack(s, st'));
      ReadPrefixed(s, st', xs[1..]);
    }
  }

  lemma RegexPrefixed(before: string, s: Sequence, text: string, a: Alternatives)
    requires Pastes(before, s) && RegexOf(text) == Some(a)
    ensures RegexOf(before + text) == Some(Prefixed(s, a))
  {
    var xs := LexFrom(Ready, text).lexemes;
    LexConcat(Ready, before, text);
    ReadConcat(true, START, LexFrom(Ready, before).lexemes, xs);
    ReadPrefixed(s, START, xs);
    assert PrefixedStack(s, START) == Bottom(Frame(NoAlternatives, s));
  }

  lemma RegexSuffixed(text: string, a: Alternatives, after: string, s: Sequence)
    requires RegexOf(text) == Some(a) && Pastes(after, s)
    ensures RegexOf(text + after) == Some(Alternatives(a.init, Append(a.last, s)))
  {
    LexConcat(Ready, text, after);
    ReadConcat(true, START, LexFrom(Ready, text).lexemes, LexFrom(Ready, after).lexemes);
    ReadsAfter(true, Bottom(Frame(a.init, a.last)), LexFrom(Ready, after).lexemes, s);
  }

  lemma {:induction false} Shortest(l: Language, s: Span) returns (u: Span)
    requires s in l
    ensures u in l && forall v :: v in l ==> u.to - u.from <= v.to - v.from
    decreases s.to - s.from
  {
    if v :| v in l && v.to - v.from < s.to - s.from {
      u := Shortest(l, v);
    } else {
      u := s;
    }
  }

  lemma LongerThan(l: Language, u: Span)
    requires forall v :: v in l ==> u.to - u.from <= v.to - v.from
    ensures u !in Concat(Concat(Word(""), l), Word("c"))
    ensures u !in Concat(Concat(Word("c"), l), Word(""))
  {
    if u in Concat(Concat(Word(""), l), Word("c")) {
      var k := ConcatSplit(Concat(Word(""), l), Word("c"), u);
      var j := ConcatSplit(Word(""), l, Before(u, k));
    }
    if u in Concat(Concat(Word("c"), l), Word("")) {
      var k := ConcatSplit(Concat(Word("c"), l), Word(""), u);
      var j := ConcatSplit(Word("c"), l, Before(u, k));
    }
  }

  /** With a bare `|`, the shortest match of the text escapes one of the two contexts. */
  lemma BarUnsafe(units: string -> Language, text: string, w: Span)
    requires RegexOf(text).Some? && !SelfContained(text) && w in RegexLanguage(units, text)
    ensures !SafeToPaste(units, text)
  {
    var m := Meaning(units, NoNames());
    var a := RegexOf(text).value;
    var l := RegexLanguage(units, text);
    var u := Shortest(l, w);
    LongerThan(l, u);
    QuoteReads("");
    QuoteReads("c");
    if u in AlternativesLanguage(m, a.init) {
      RegexSuffixed(text, a, QuoteMeta("c"), UnitsOf("c"));
      assert Pasted("", text, "c") == text + QuoteMeta("c");
      assert u in RegexLanguage(units, Pasted("", text, "c"));
      WrappedLanguage(units, "", text, "c");
    } else {
      RegexPrefixed(QuoteMeta("c"), UnitsOf("c"), text, a);
      assert Pasted("c", text, "") == QuoteMeta("c") + text;
      assert Prefixed(UnitsOf("c"), a).last == a.last;
      assert u in RegexLanguage(units, Pasted("c", text, ""));
      WrappedLanguage(units, "c", text, "");
    }
  }

  /** For instance any two literals with a bar between them: pasted beside something they mean another thing. */
  lemma QuotedBarUnsafe(units: string -> Language, v: string, w: string)
    ensures !SafeToPaste(units, QuoteMeta(v) + "|" + QuoteMeta(w))
  {
    var text := QuoteMeta(v) + "|" + QuoteMeta(w);
    QuoteReads(v);
    QuoteReads(w);
    PastesRegex(QuoteMeta(v), UnitsOf(v));
    var a := RegexOf(QuoteMeta(v)).value;
    PastesBar(QuoteMeta(v), a, QuoteMeta(w), UnitsOf(w));
    QuoteMetaMatches(units, v);
    assert Covered(Whole(v)) == v;
    assert Whole(v) in AlternativesLanguage(Meaning(units, NoNames()), a);
    BarUnsafe(units, text, Whole(v));
  }

  /**
    The compilers paste regex literals without wrapping them.  For a literal that matches
    anything at all, that is harmless in every context exactly when the literal has no `|`
    outside its groups.
   */
  lemma SafeToPasteIffSelfContained(units: string -> Language, text: string, w: Span)
    requires RegexOf(text).Some? && w in RegexLanguage(units, text)
    ensures SafeToPaste(units, text) <==> SelfContained(text)
  {
    if SelfContained(text) {
      PastesSelfContained(text);
      PastesLanguage(units, text, Body(text));
      forall before: string, after: string
        ensures RegexLanguage(units, Pasted(before, text, after)) == RegexLanguage(units, Wrapped(before, text, after))
      {
        PastedSequence(units, before, text, after, Body(text));
        WrappedLanguage(units, before, text, after);
      }
    } else {
      BarUnsafe(units, text, w);
    }
  }
}
