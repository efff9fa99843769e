/**
  Definitions that compile and whose native grammar means something else: the families of
  inputs behind the conditions of LarkGrammar.TextPreservesLanguage.
 */
module LarkClashes {
  import opened Wrappers
  import opened Text
  import opened Languages
  import opened RegexText
  import opened RegexMeaning
  import opened LarkSyntax
  import opened LarkLexer
  import opened LarkMeaning
  import opened LarkGrammarText
  import opened LarkPrint
  import opened LarkGrammar
  import opened GoQuote

  /** The name is looked up as a rule, with this body. */
  predicate HasRule(g: Grammar, name: string, body: Choice) {
    name !in g.patterns && name in g.bodies && g.bodies[name] == Some(body)
  }

  function Alone(t: Term): Choice {
    Only(First(t))
  }

  function Two(t: Term, u: Term): Choice {
    Only(Then(First(t), u))
  }

  lemma WholeWord(w: string, v: string)
    ensures Whole(w) in Word(v) <==> w == v
  {
    assert Covered(Whole(w)) == w;
  }

  lemma {:induction false} QuoteOfName(name: string)
    requires forall c :: c in name ==> IsIdentPart(c)
    ensures QuoteMeta(name) == name
    decreases name
  {
    if name != "" {
      var n := |name| - 1;
      assert name == name[..n] + [name[n]] && name[n] in name;
      forall c | c in name[..n] ensures IsIdentPart(c) { assert c in name; }
      QuoteOfName(name[..n]);
    }
  }

  // ---------------------------------------------------------------- what is listed

  lemma AloneMentions(g: Grammar, t: Term)
    ensures ChoiceRules(Alone(t)) == TermRules(t)
    ensures ChoiceAll(DecodesIn(g), Alone(t)) <==> TermAll(DecodesIn(g), t)
  {
    assert ChainRules(First(t)) == TermRules(t);
    assert ChainAll(DecodesIn(g), First(t)) <==> TermAll(DecodesIn(g), t);
  }

  lemma TwoMentions(g: Grammar, t: Term, u: Term)
    ensures ChoiceRules(Two(t, u)) == TermRules(t) + TermRules(u)
    ensures ChoiceAll(DecodesIn(g), Two(t, u)) <==> TermAll(DecodesIn(g), t) && TermAll(DecodesIn(g), u)
  {
    var c := First(t);
    assert ChainRules(c) == TermRules(t) && (ChainAll(DecodesIn(g), c) <==> TermAll(DecodesIn(g), t));
    assert ChainRules(Then(c, u)) == ChainRules(c) + TermRules(u);
    assert ChainAll(DecodesIn(g), Then(c, u)) <==> ChainAll(DecodesIn(g), c) && TermAll(DecodesIn(g), u);
  }

  lemma PatternMentions(g: Grammar, text: string)
    ensures TermRules(Plain(Pattern(text))) == {} && TermAll(DecodesIn(g), Plain(Pattern(text)))
  {
    assert PrimaryRules(Pattern(text)) == {} && PrimaryAll(DecodesIn(g), Pattern(text));
  }

  lemma LiteralMentions(g: Grammar, raw: string)
    requires g.decode(raw).Some?
    ensures TermRules(Plain(Literal(raw))) == {} && TermAll(DecodesIn(g), Plain(Literal(raw)))
  {
    assert PrimaryRules(Literal(raw)) == {} && PrimaryAll(DecodesIn(g), Literal(raw));
  }

  lemma OneListed(g: Grammar, body: Choice)
    requires HasRule(g, "start", body) && ChoiceRules(body) == {} && ChoiceAll(DecodesIn(g), body)
    ensures Listed(g, ["start"]) && ExpandName(g, {}, "start").Some?
  {
    ChoiceExpandsIff(g, {"start"}, body);
    assert {} + {"start"} == {"start"};
    assert Ordered(g, ["start"]);
    ReachesSelf(g, "start");
    assert GrownBy(g, [], ["start"], {"start"}) by { GrownOne(g, [], "start"); }
    GrownIsListed(g, ["start"]);
  }

  /** `start` is the term and then the rule `f`, which is a literal. */
  lemma TwoListed(g: Grammar, t: Term, f: string, raw: string)
    requires HasRule(g, "start", Two(t, Plain(Rule(f)))) && HasRule(g, f, Alone(Plain(Literal(raw))))
    requires g.decode(raw).Some? && TermRules(t) <= {f} && TermAll(DecodesIn(g), t)
    ensures Listed(g, [f, "start"]) && ExpandName(g, {}, "start").Some?
  {
    LiteralBody(g, f, raw);
    TwoBody(g, t, f);
    OrderedTwo(g, f);
    GrownOne(g, [], f);
    assert [] + [f] == [f] && [f] + ["start"] == [f, "start"];
    TwoMentions(g, t, Plain(Rule(f)));
    RuleExpandsIff(g, {}, f);
    assert ChoiceRules(g.BodyOf("start")) == {f};
    GrownThrough(g, [], [f], "start");
    GrownIsListed(g, [f, "start"]);
  }

  lemma LiteralBody(g: Grammar, f: string, raw: string)
    requires HasRule(g, f, Alone(Plain(Literal(raw)))) && g.decode(raw).Some?
    ensures Usable(g, f) && (forall n :: !Refers(g, f, n)) && ExpandName(g, {"start"}, f).Some? == (f != "start")
  {
    var body := Alone(Plain(Literal(raw)));
    AloneMentions(g, Plain(Literal(raw)));
    LiteralMentions(g, raw);
    ChoiceExpandsIff(g, {"start"} + {f}, body);
  }

  lemma TwoBody(g: Grammar, t: Term, f: string)
    requires HasRule(g, "start", Two(t, Plain(Rule(f)))) && TermRules(t) <= {f} && TermAll(DecodesIn(g), t)
    requires ExpandName(g, {"start"}, f).Some?
    ensures Usable(g, "start") && (forall n :: Refers(g, "start", n) <==> n == f) && ExpandName(g, {}, "start").Some?
  {
    var body := Two(t, Plain(Rule(f)));
    RuleExpandsIff(g, {"start"}, f);
    TwoMentions(g, t, Plain(Rule(f)));
    assert ChoiceRules(body) == {f};
    ChoiceExpandsIff(g, {"start"}, body);
    assert {} + {"start"} == {"start"};
  }

  lemma OrderedTwo(g: Grammar, f: string)
    requires f != "start" && Usable(g, f) && Usable(g, "start")
    requires (forall n :: !Refers(g, f, n)) && forall n :: Refers(g, "start", n) <==> n == f
    ensures Ordered(g, [f, "start"])
  {
    assert Ordered(g, []);
    OrderedSnoc(g, [], f);
    OrderedSnoc(g, [] + [f], "start");
    assert [] + [f] + ["start"] == [f, "start"];
  }

  /** The list is the only one there is. */
  lemma ListedUnique(g: Grammar, f: string, order: seq<string>)
    requires Listed(g, [f, "start"]) && Listed(g, order)
    ensures order == [f, "start"]
  {
    var n := |order| - 1;
    forall i | 0 <= i < n ensures order[i] == f {
      assert order[i] in order && order[i] != order[n];
      assert order[i] in [f, "start"];
    }
    assert f in [f, "start"] && f in order;
    assert [f, "start"][0] != [f, "start"][1];
    var i :| 0 <= i < |order| && order[i] == f;
    assert order[0] == f == order[n - 1];
  }

  lemma ListedAlone(g: Grammar, order: seq<string>)
    requires Listed(g, ["start"]) && Listed(g, order)
    ensures order == ["start"]
  {
    assert order[0] in order && order[0] in ["start"];
  }

  // ---------------------------------------------------------------- a pattern that is spelled like a rule

  /** `start: /f/ f` and `start: f f`, where the rule `f` is the literal `raw`. */
  predicate IsNameAsPattern(g: Grammar, f: string, raw: string) {
    HasRule(g, "start", Two(Plain(Pattern(f)), Plain(Rule(f)))) && HasRule(g, f, Alone(Plain(Literal(raw))))
  }

  predicate IsNameTwice(g: Grammar, f: string, raw: string) {
    HasRule(g, "start", Two(Plain(Rule(f)), Plain(Rule(f)))) && HasRule(g, f, Alone(Plain(Literal(raw))))
  }

  lemma AloneWords(g: Grammar, units: string -> Language, depth: nat, t: Term)
    ensures ChoiceWords(g, units, depth, Alone(t)) == TermWords(g, units, depth, t)
  {
    assert ChainWords(g, units, depth, First(t)) == TermWords(g, units, depth, t);
  }

  lemma TwoWords(g: Grammar, units: string -> Language, depth: nat, t: Term, u: Term)
    ensures ChoiceWords(g, units, depth, Two(t, u)) ==
            Concat(TermWords(g, units, depth, t), TermWords(g, units, depth, u))
  {
    assert ChainWords(g, units, depth, First(t)) == TermWords(g, units, depth, t);
    assert ChainWords(g, units, depth, Then(First(t), u)) ==
           Concat(TermWords(g, units, depth, t), TermWords(g, units, depth, u));
  }

  lemma PlainWords(g: Grammar, units: string -> Language, depth: nat, p: Primary)
    ensures TermWords(g, units, depth, Plain(p)) == PrimaryWords(g, units, depth, p)
  {
  }

  lemma QuotedWords(g: Grammar, units: string -> Language, depth: nat, v: string)
    ensures TermWords(g, units, depth, Plain(Pattern(QuoteMeta(v)))) == Word(v)
  {
    PlainWords(g, units, depth, Pattern(QuoteMeta(v)));
    QuoteMetaMatches(units, v);
  }

  lemma LiteralRule(g: Grammar, units: string -> Language, depth: nat, f: string, raw: string, v: string)
    requires HasRule(g, f, Alone(Plain(Literal(raw)))) && g.decode(raw) == Some(v)
    ensures NameWords(g, units, depth, f) == if depth == 0 then iset{} else Word(v)
  {
    if depth > 0 {
      AloneWords(g, units, depth - 1, Plain(Literal(raw)));
      PlainWords(g, units, depth - 1, Literal(raw));
    }
  }

  lemma NothingConcat(a: Language)
    ensures Concat(a, iset{}) == iset{} && Concat(iset{}, a) == iset{}
  {
  }

  /** A rule that derives the language `l` from some depth on, and nothing before, derives `l`. */
  lemma DerivesFrom(g: Grammar, units: string -> Language, least: nat, l: Language, s: Span)
    requires forall depth: nat :: NameWords(g, units, depth, "start") == if depth < least then iset{} else l
    ensures Derives(g, units, "start", s) <==> s in l
  {
    assert NameWords(g, units, least, "start") == l;
  }

  lemma StartWords(g: Grammar, units: string -> Language, depth: nat, t: Term, u: Term, a: Language, b: Language)
    requires depth > 0 && HasRule(g, "start", Two(t, u))
    requires TermWords(g, units, depth - 1, t) == a && TermWords(g, units, depth - 1, u) == b
    ensures NameWords(g, units, depth, "start") == Concat(a, b)
  {
    TwoWords(g, units, depth - 1, t, u);
  }

  lemma PatternThenRuleAt(g: Grammar, units: string -> Language, f: string, raw: string, v: string, depth: nat)
    requires IsNameAsPattern(g, f, raw) && IsIdentifier(f) && g.decode(raw) == Some(v)
    ensures NameWords(g, units, depth, "start") == if depth < 2 then iset{} else Word(f + v)
  {
    if depth > 0 {
      NameAsWord(g, units, depth - 1, f);
      RuleAsWord(g, units, depth - 1, f, raw, v);
      StartWords(g, units, depth, Plain(Pattern(f)), Plain(Rule(f)), Word(f), if depth == 1 then iset{} else Word(v));
      WordConcat(f, v);
      NothingConcat(Word(f));
    }
  }

  lemma NameAsWord(g: Grammar, units: string -> Language, depth: nat, f: string)
    requires IsIdentifier(f)
    ensures TermWords(g, units, depth, Plain(Pattern(f))) == Word(f)
  {
    QuoteOfName(f);
    QuotedWords(g, units, depth, f);
  }

  lemma RuleAsWord(g: Grammar, units: string -> Language, depth: nat, f: string, raw: string, v: string)
    requires HasRule(g, f, Alone(Plain(Literal(raw)))) && g.decode(raw) == Some(v)
    ensures TermWords(g, units, depth, Plain(Rule(f))) == if depth == 0 then iset{} else Word(v)
  {
    PlainWords(g, units, depth, Rule(f));
    LiteralRule(g, units, depth, f, raw, v);
  }

  lemma PatternThenRule(g: Grammar, units: string -> Language, f: string, raw: string, v: string, s: Span)
    requires IsNameAsPattern(g, f, raw) && IsIdentifier(f) && g.decode(raw) == Some(v)
    ensures Derives(g, units, "start", s) <==> s in Word(f + v)
  {
    forall depth: nat ensures NameWords(g, units, depth, "start") == if depth < 2 then iset{} else Word(f + v) {
      PatternThenRuleAt(g, units, f, raw, v, depth);
    }
    DerivesFrom(g, units, 2, Word(f + v), s);
  }

  lemma RuleThenRuleAt(g: Grammar, units: string -> Language, f: string, raw: string, v: string, depth: nat)
    requires IsNameTwice(g, f, raw) && g.decode(raw) == Some(v)
    ensures NameWords(g, units, depth, "start") == if depth < 2 then iset{} else Word(v + v)
  {
    if depth > 0 {
      WordConcat(v, v);
      TwoWords(g, units, depth - 1, Plain(Rule(f)), Plain(Rule(f)));
      PlainWords(g, units, depth - 1, Rule(f));
      LiteralRule(g, units, depth - 1, f, raw, v);
      NothingConcat(iset{});
    }
  }

  lemma RuleThenRule(g: Grammar, units: string -> Language, f: string, raw: string, v: string, s: Span)
    requires IsNameTwice(g, f, raw) && g.decode(raw) == Some(v)
    ensures Derives(g, units, "start", s) <==> s in Word(v + v)
  {
    forall depth: nat ensures NameWords(g, units, depth, "start") == if depth < 2 then iset{} else Word(v + v) {
      RuleThenRuleAt(g, units, f, raw, v, depth);
    }
    DerivesFrom(g, units, 2, Word(v + v), s);
  }

  /**
    The two print the same text and derive different words, so no way of reading the text can be right
    for both: `/f/ f` and `f f`, for every name that is looked up as a rule and every literal other than it.
   */
  lemma NamesCollide(g: Grammar, h: Grammar, f: string, raw: string, v: string, units: string -> Language)
    requires IsNameAsPattern(g, f, raw) && IsNameTwice(h, f, raw) && IsIdentifier(f)
    requires g.decode == h.decode && g.prints == h.prints && g.decode(raw) == Some(v) && v != f
    ensures var order := [f, "start"];
            && Listed(g, order) && ExpandName(g, {}, "start").Some?
            && Listed(h, order) && ExpandName(h, {}, "start").Some?
            && GrammarText(Output(g, order)) == GrammarText(Output(h, order))
            && Derives(g, units, "start", Whole(f + v)) && !Derives(h, units, "start", Whole(f + v))
  {
    var order := [f, "start"];
    PatternMentions(g, f);
    RuleExpandsIff(h, {}, f);
    TwoListed(g, Plain(Pattern(f)), f, raw);
    TwoListed(h, Plain(Rule(f)), f, raw);
    assert Definition(g, "start") == Definition(h, "start") by {
      TwoPrinted(g, Plain(Pattern(f)), Plain(Rule(f)));
      TwoPrinted(h, Plain(Rule(f)), Plain(Rule(f)));
    }
    assert Definition(g, f) == Definition(h, f) by {
      AlonePrinted(g, Plain(Literal(raw)));
      AlonePrinted(h, Plain(Literal(raw)));
    }
    SameLines(g, h, order);
    PatternThenRule(g, units, f, raw, v, Whole(f + v));
    RuleThenRule(h, units, f, raw, v, Whole(f + v));
    WholeWord(f + v, f + v);
    WholeWord(f + v, v + v);
    SameSuffix(f, v, v);
  }

  lemma SameSuffix(a: string, b: string, c: string)
    ensures a + c == b + c ==> a == b
  {
    assert (a + c)[..|a|] == a && (b + c)[..|b|] == b;
    assert |a + c| == |a| + |c| && |b + c| == |b| + |c|;
  }

  lemma AlonePrinted(g: Grammar, t: Term)
    ensures PrintChoice(g, Alone(t)) == PrintTerm(g, t)
  {
    assert PrintChain(g, First(t)) == PrintTerm(g, t);
  }

  lemma TwoPrinted(g: Grammar, t: Term, u: Term)
    ensures PrintChoice(g, Two(t, u)) == PrintTerm(g, t) + (" " + PrintTerm(g, u))
  {
    assert PrintChain(g, First(t)) == PrintTerm(g, t);
  }

  lemma {:induction false} SameLines(g: Grammar, h: Grammar, order: seq<string>)
    requires forall n :: n in order ==> Definition(g, n) == Definition(h, n)
    requires Definition(g, "start") == Definition(h, "start")
    ensures Output(g, order) == Output(h, order)
    decreases order
  {
    if order != [] {
      var n := |order| - 1;
      assert order == order[..n] + [order[n]];
      SameLines(g, h, order[..n]);
      assert LinesOf(g, order[..n]) == Output(g, order[..n])[1..];
      assert LinesOf(h, order[..n]) == Output(h, order[..n])[1..];
    }
  }

  // ---------------------------------------------------------------- a blank in a pattern

  function Spaced(u: string, v: string): string {
    QuoteMeta(u) + " " + QuoteMeta(v)
  }

  lemma SpacedIsQuote(u: string, v: string)
    ensures Spaced(u, v) == QuoteMeta(u + " " + v)
  {
    QuoteConcat(u, " ");
    QuoteConcat(u + " ", v);
    assert QuoteMeta(" ") == " " by {
      assert " "[..0] == "" && QuoteMeta("") == "";
    }
  }

  lemma {:induction false} QuoteConcat(u: string, v: string)
    ensures QuoteMeta(u + v) == QuoteMeta(u) + QuoteMeta(v)
    decreases v
  {
    if v == "" {
      assert u + v == u && QuoteMeta(u) + "" == QuoteMeta(u);
    } else {
      var n := |v| - 1;
      assert (u + v)[..|u| + n] == u + v[..n];
      QuoteConcat(u, v[..n]);
      Associative(QuoteMeta(u), QuoteMeta(v[..n]), QuoteChar(v[n]));
    }
  }

  /** `start: /u v/` and `start: /u/ /v/` print the same text; one derives the blank and the other does not. */
  lemma BlanksCollide(g: Grammar, h: Grammar, u: string, v: string, units: string -> Language)
    requires HasRule(g, "start", Alone(Plain(Pattern(Spaced(u, v)))))
    requires HasRule(h, "start", Two(Plain(Pattern(QuoteMeta(u))), Plain(Pattern(QuoteMeta(v)))))
    ensures && Listed(g, ["start"]) && ExpandName(g, {}, "start").Some?
            && Listed(h, ["start"]) && ExpandName(h, {}, "start").Some?
            && GrammarText(Output(g, ["start"])) == GrammarText(Output(h, ["start"]))
            && Derives(g, units, "start", Whole(u + " " + v)) && !Derives(h, units, "start", Whole(u + " " + v))
  {
    BlankMentions(g, h, u, v);
    OneListed(g, Alone(Plain(Pattern(Spaced(u, v)))));
    OneListed(h, Two(Plain(Pattern(QuoteMeta(u))), Plain(Pattern(QuoteMeta(v)))));
    assert Definition(g, "start") == Definition(h, "start") by {
      TwoPrinted(h, Plain(Pattern(QuoteMeta(u))), Plain(Pattern(QuoteMeta(v))));
      AlonePrinted(g, Plain(Pattern(Spaced(u, v))));
      Associative(QuoteMeta(u), " ", QuoteMeta(v));
    }
    SameLines(g, h, ["start"]);
    SpacedIsQuote(u, v);
    PatternAlone(g, units, u + " " + v, Whole(u + " " + v));
    PatternsTwo(h, units, u, v, Whole(u + " " + v));
    WholeWord(u + " " + v, u + " " + v);
    WholeWord(u + " " + v, u + v);
    assert |u + " " + v| != |u + v|;
  }

  lemma BlankMentions(g: Grammar, h: Grammar, u: string, v: string)
    ensures var c := Alone(Plain(Pattern(Spaced(u, v)))); ChoiceRules(c) == {} && ChoiceAll(DecodesIn(g), c)
    ensures var c := Two(Plain(Pattern(QuoteMeta(u))), Plain(Pattern(QuoteMeta(v))));
            ChoiceRules(c) == {} && ChoiceAll(DecodesIn(h), c)
  {
    PatternMentions(g, Spaced(u, v));
    PatternMentions(h, QuoteMeta(u));
    PatternMentions(h, QuoteMeta(v));
    AloneMentions(g, Plain(Pattern(Spaced(u, v))));
    TwoMentions(h, Plain(Pattern(QuoteMeta(u))), Plain(Pattern(QuoteMeta(v))));
  }

  lemma PatternAlone(g: Grammar, units: string -> Language, v: string, s: Span)
    requires HasRule(g, "start", Alone(Plain(Pattern(QuoteMeta(v)))))
    ensures Derives(g, units, "start", s) <==> s in Word(v)
  {
    forall depth: nat ensures NameWords(g, units, depth, "start") == if depth < 1 then iset{} else Word(v) {
      if depth > 0 {
        AloneWords(g, units, depth - 1, Plain(Pattern(QuoteMeta(v))));
        QuotedWords(g, units, depth - 1, v);
      }
    }
    DerivesFrom(g, units, 1, Word(v), s);
  }

  lemma PatternsTwo(g: Grammar, units: string -> Language, u: string, v: string, s: Span)
    requires HasRule(g, "start", Two(Plain(Pattern(QuoteMeta(u))), Plain(Pattern(QuoteMeta(v)))))
    ensures Derives(g, units, "start", s) <==> s in Word(u + v)
  {
    forall depth: nat ensures NameWords(g, units, depth, "start") == if depth < 1 then iset{} else Word(u + v) {
      if depth > 0 { PatternsTwoAt(g, units, u, v, depth); }
    }
    DerivesFrom(g, units, 1, Word(u + v), s);
  }

  lemma PatternsTwoAt(g: Grammar, units: string -> Language, u: string, v: string, depth: nat)
    requires HasRule(g, "start", Two(Plain(Pattern(QuoteMeta(u))), Plain(Pattern(QuoteMeta(v)))))
    requires depth > 0
    ensures NameWords(g, units, depth, "start") == Word(u + v)
  {
    QuotedWords(g, units, depth - 1, u);
    QuotedWords(g, units, depth - 1, v);
    StartWords(g, units, depth, Plain(Pattern(QuoteMeta(u))), Plain(Pattern(QuoteMeta(v))), Word(u), Word(v));
    WordConcat(u, v);
  }

  // ---------------------------------------------------------------- an operator behind a bare pattern

  /** No character of the word is special in a grammar. */
  predicate IsPlainWord(v: string) {
    forall i :: 0 <= i < |v| ==> !IsSpecial(v[i])
  }

  lemma {:induction false} QuotePlain(v: string)
    requires IsPlainWord(v)
    ensures IsPlain(QuoteMeta(v))
    decreases v
  {
    PlainIffNoSpecial(Ready, QuoteMeta(v));
    QuoteNoSpecial(v);
  }

  lemma {:induction false} QuoteNoSpecial(v: string)
    requires IsPlainWord(v)
    ensures LexFrom(Ready, QuoteMeta(v)).state.Ready? && !HasSpecial(LexFrom(Ready, QuoteMeta(v)).lexemes)
    decreases v
  {
    RegexMeaning.QuoteReads(v);
    if v != "" {
      var n := |v| - 1;
      QuoteNoSpecial(v[..n]);
      LexQuoteChar(v[n]);
      RegexMeaning.QuoteReads(v[..n]);
      LexConcat(Ready, QuoteMeta(v[..n]), QuoteChar(v[n]));
      HasSpecialConcat(LexFrom(Ready, QuoteMeta(v[..n])).lexemes, [Leaf(Unit(QuoteChar(v[n])))]);
      assert !IsSpecialUnit([Leaf(Unit(QuoteChar(v[n])))][0]);
    }
  }

  function Starred(v: string): Choice {
    Alone(Quantified(Plain(Pattern(QuoteMeta(v))), ZeroOrMore))
  }

  lemma {:induction false} PowerLength(v: string, n: nat, s: Span)
    requires s in Power(Word(v), n)
    ensures |Covered(s)| == n * |v|
    decreases n
  {
    if n > 0 {
      var k := ConcatSplit(Power(Word(v), n - 1), Word(v), s);
      PowerLength(v, n - 1, Before(s, k));
      CoveredSplit(s, k);
    }
  }

  lemma StarredDerives(g: Grammar, units: string -> Language, v: string, s: Span)
    requires HasRule(g, "start", Starred(v))
    ensures Derives(g, units, "start", s) <==> s in Repeat(Word(v), STAR)
  {
    forall depth: nat
      ensures NameWords(g, units, depth, "start") == if depth < 1 then iset{} else Repeat(Word(v), STAR)
    {
      if depth > 0 {
        AloneWords(g, units, depth - 1, Quantified(Plain(Pattern(QuoteMeta(v))), ZeroOrMore));
        QuotedWords(g, units, depth - 1, v);
      }
    }
    DerivesFrom(g, units, 1, Repeat(Word(v), STAR), s);
  }

  lemma TooLongToRepeat(v: string, w: string)
    requires |v| >= 2 && |w| == |v| + 1
    ensures Whole(w) !in Repeat(Word(v), STAR)
  {
    if Whole(w) in Repeat(Word(v), STAR) {
      var n: nat :| STAR.Allows(n) && Whole(w) in Power(Word(v), n);
      PowerLength(v, n, Whole(w));
      assert Covered(Whole(w)) == w;
      OneMore(n, |v|);
    }
  }

  lemma OneMore(n: nat, m: nat)
    requires m >= 2
    ensures n * m != m + 1
  {
    if n >= 2 { assert n * m >= 2 * m; }
  }

  /** Read as a grammar, the operator binds to the last unit only. */
  lemma StarredReads(v: string, text: string)
    requires IsPlainWord(v) && |v| >= 2 && text == QuoteMeta(v) + "*"
    ensures var last := Repeated(One(Unit(QuoteChar(v[|v| - 1]))), STAR);
            && LexemesOf(text).Some?
            && Read(false, LexemesOf(text).value) ==
               Some(Alternatives(NoAlternatives, Sequence(UnitsOf(v[..|v| - 1]), last)))
  {
    var xs := LexFrom(Ready, QuoteMeta(v)).lexemes;
    StarredLexemes(v, text, xs);
    StarredTree(v, xs);
  }

  lemma StarredLexemes(v: string, text: string, xs: seq<Lexeme>)
    requires IsPlainWord(v) && |v| >= 2 && text == QuoteMeta(v) + "*" && xs == LexFrom(Ready, QuoteMeta(v)).lexemes
    ensures LexemesOf(text) == Some(xs + [Post(STAR)])
  {
    QuotePlain(v);
    QuoteMetaSelfContained(v);
    PatternRead(QuoteMeta(v));
    assert QuoteMeta(v) != "";
    SignRead(QuoteMeta(v), xs, ZeroOrMore);
  }

  lemma QuoteMetaSelfContained(v: string)
    ensures SelfContained(QuoteMeta(v))
  {
    RegexMeaning.QuoteReads(v);
    PastesRegex(QuoteMeta(v), UnitsOf(v));
  }

  lemma StarredTree(v: string, xs: seq<Lexeme>)
    requires v != "" && xs == LexFrom(Ready, QuoteMeta(v)).lexemes
    ensures var last := Repeated(One(Unit(QuoteChar(v[|v| - 1]))), STAR);
            Read(false, xs + [Post(STAR)]) == Some(Alternatives(NoAlternatives, Sequence(UnitsOf(v[..|v| - 1]), last)))
  {
    RegexMeaning.QuoteReads(v);
    ReadRelaxed(START, xs);
    PostBindsLast(xs, UnitsOf(v), STAR);
  }

  lemma PostBindsLast(xs: seq<Lexeme>, s: Sequence, t: Times)
    requires Reads(false, xs, s) && s.Sequence?
    ensures Read(false, xs + [Post(t)]) == Some(Alternatives(NoAlternatives, Sequence(s.init, Repeated(s.last, t))))
  {
    RegexText.ReadConcat(false, START, xs, [Post(t)]);
    var st := Bottom(Frame(NoAlternatives, s));
    assert [Post(t)][1..] == [];
    assert ReadFrom(false, st, [Post(t)]) == ReadStep(false, st, Post(t));
  }

  lemma RepeatedTwice(m: Meaning, init: string, c: char)
    ensures Whole(init + [c] + [c]) in
            SequenceLanguage(m, Sequence(UnitsOf(init), Repeated(One(Unit(QuoteChar(c))), STAR)))
  {
    QuoteMeans(m, init);
    CharMeans(m, c);
    TwiceBehind(init, c);
  }

  lemma CharMeans(m: Meaning, c: char)
    ensures FactorLanguage(m, One(Unit(QuoteChar(c)))) == Word([c])
  {
    if IsMeta(c) { assert QuoteChar(c)[1..] == [c]; }
  }

  lemma TwiceBehind(init: string, c: char)
    ensures Whole(init + [c] + [c]) in Concat(Word(init), Repeat(Word([c]), STAR))
  {
    var s := Whole(init + [c] + [c]);
    var k := |init|;
    TwiceInPower(c, After(s, k));
    assert Covered(Before(s, k)) == init && Covered(After(s, k)) == [c] + [c];
    assert STAR.Allows(2);
    ConcatHas(Word(init), Repeat(Word([c]), STAR), s, k);
  }

  lemma TwiceInPower(c: char, s: Span)
    ensures Covered(s) == [c] + [c] ==> s in Power(Word([c]), 2)
  {
    if Covered(s) == [c] + [c] {
      assert s.to == s.from + 2;
      var k := s.from + 1;
      CoveredSplit(s, k);
      assert Covered(Before(s, k)) == [c] && Covered(After(s, k)) == [c];
      ConcatUnitLeft(Word([c]));
      assert Power(Word([c]), 1) == Concat(Power(Word([c]), 0), Word([c])) == Word([c]);
      ConcatHas(Power(Word([c]), 1), Word([c]), s, k);
    }
  }

  /**
    A starred literal of two or more plain characters: `root` generates the literal with its last
    character twice, which `start` does not derive.
   */
  lemma StarredPatternDiffers(g: Grammar, v: string, units: string -> Language)
    requires HasRule(g, "start", Starred(v)) && IsPlainWord(v) && |v| >= 2
    ensures var w := v + [v[|v| - 1]];
            && Listed(g, ["start"]) && ExpandName(g, {}, "start").Some?
            && TextGenerates(GrammarText(Output(g, ["start"])), units, "root", Whole(w))
            && !Derives(g, units, "start", Whole(w))
  {
    PatternMentions(g, QuoteMeta(v));
    AloneMentions(g, Quantified(Plain(Pattern(QuoteMeta(v))), ZeroOrMore));
    OneListed(g, Starred(v));
    var n := |v| - 1;
    var w := v + [v[n]];
    StarredDerives(g, units, v, Whole(w));
    TooLongToRepeat(v, w);
    StarredText(g, v);
    StarredReads(v, Definition(g, "start"));
    var lines := Output(g, ["start"]);
    assert LinesOf(g, ["start"]) == LinesOf(g, []) == [] by { assert ["start"][..0] == []; }
    assert lines == [Line("root", Definition(g, "start"))];
    assert v[..n] + [v[n]] == v;
    OneLineGenerates(lines, units, 0, Whole(w), v[..n], v[n]);
    assert IsLine(lines[0]) by { assert IsIdentifier("root"); }
    GrammarReadBack(lines);
  }

  lemma StarredText(g: Grammar, v: string)
    requires HasRule(g, "start", Starred(v)) && IsPlainWord(v)
    ensures Definition(g, "start") == QuoteMeta(v) + "*" && Free(QuoteMeta(v) + "*", '\n')
  {
    var t := Quantified(Plain(Pattern(QuoteMeta(v))), ZeroOrMore);
    AlonePrinted(g, t);
    assert PrintTerm(g, Plain(Pattern(QuoteMeta(v)))) == QuoteMeta(v);
    QuoteFree(v);
  }

  lemma {:induction false} QuoteFree(v: string)
    requires IsPlainWord(v)
    ensures Free(QuoteMeta(v), '\n')
    decreases v
  {
    if v != "" {
      QuoteFree(v[..|v| - 1]);
      assert !IsSpecial(v[|v| - 1]);
    }
  }

  lemma OneLineGenerates(lines: seq<Line>, units: string -> Language, i: nat, s: Span, init: string, c: char)
    requires i < |lines| && lines[i].name == "root" && s == Whole(init + [c] + [c])
    requires LexemesOf(lines[i].definition).Some?
    requires Read(false, LexemesOf(lines[i].definition).value) ==
             Some(Alternatives(NoAlternatives, Sequence(UnitsOf(init), Repeated(One(Unit(QuoteChar(c))), STAR))))
    ensures Generates(lines, units, "root", s)
  {
    var names := (n: string) => GrammarWords(lines, units, 0, n);
    var m := Meaning(units, names);
    RepeatedTwice(m, init, c);
    assert s in LineWords(units, names, lines[i]);
    assert LineDerives(lines, units, names, "root", s);
    assert s in GrammarWords(lines, units, 1, "root");
  }

  // ---------------------------------------------------------------- a rule called root

  /** `start: "u" root` with `root: "v"`. */
  predicate IsRootRule(g: Grammar, rawU: string, rawV: string) {
    && HasRule(g, "start", Two(Plain(Literal(rawU)), Plain(Rule("root"))))
    && HasRule(g, "root", Alone(Plain(Literal(rawV))))
  }

  lemma RootRuleDerives(g: Grammar, units: string -> Language, rawU: string, u: string, rawV: string, v: string,
                        s: Span)
    requires IsRootRule(g, rawU, rawV) && g.decode(rawU) == Some(u) && g.decode(rawV) == Some(v)
    ensures Derives(g, units, "start", s) <==> s in Word(u + v)
  {
    WordConcat(u, v);
    NothingConcat(Word(u));
    forall depth: nat ensures NameWords(g, units, depth, "start") == if depth < 2 then iset{} else Word(u + v) {
      if depth > 0 {
        TwoWords(g, units, depth - 1, Plain(Literal(rawU)), Plain(Rule("root")));
        PlainWords(g, units, depth - 1, Literal(rawU));
        PlainWords(g, units, depth - 1, Rule("root"));
        LiteralRule(g, units, depth - 1, "root", rawV, v);
      }
    }
    DerivesFrom(g, units, 2, Word(u + v), s);
  }

  lemma LiteralLine(units: string -> Language, names: string -> Language, prints: char -> bool, v: string, line: Line)
    requires line.definition == Quote(prints, v)
    ensures LineWords(units, names, line) == Word(v)
  {
    LiteralRead(prints, v);
    var xs := [Leaf(Quoted(v))];
    assert xs[1..] == [];
    var st := Bottom(Frame(NoAlternatives, Sequence(Empty, One(Quoted(v)))));
    assert ReadFrom(false, START, xs) == ReadFrom(false, st, []);
    SingleFactor(Meaning(units, names), One(Quoted(v)));
    SingleAlternative(Meaning(units, names), Sequence(Empty, One(Quoted(v))));
  }

  /** A rule called `root` is read as the start rule too: `root` generates what that rule derives alone. */
  lemma RootClashDiffers(g: Grammar, rawU: string, u: string, rawV: string, v: string, units: string -> Language)
    requires IsRootRule(g, rawU, rawV) && g.decode(rawU) == Some(u) && g.decode(rawV) == Some(v) && u != ""
    ensures var order := ["root", "start"];
            && Listed(g, order) && ExpandName(g, {}, "start").Some?
            && TextGenerates(GrammarText(Output(g, order)), units, "root", Whole(v))
            && !Derives(g, units, "start", Whole(v))
  {
    LiteralMentions(g, rawU);
    TwoListed(g, Plain(Literal(rawU)), "root", rawV);
    RootRuleDerives(g, units, rawU, u, rawV, v, Whole(v));
    WholeWord(v, u + v);
    RootLines(g, rawU, u, rawV, v);
    var lines := Output(g, ["root", "start"]);
    GrammarReadBack(lines);
    var names := (n: string) => GrammarWords(lines, units, 0, n);
    LiteralLine(units, names, g.prints, v, lines[1]);
    WholeWord(v, v);
    assert LineDerives(lines, units, names, "root", Whole(v));
    assert Whole(v) in GrammarWords(lines, units, 1, "root");
  }

  lemma RootLines(g: Grammar, rawU: string, u: string, rawV: string, v: string)
    requires IsRootRule(g, rawU, rawV) && g.decode(rawU) == Some(u) && g.decode(rawV) == Some(v)
    ensures var lines := Output(g, ["root", "start"]);
            && |lines| == 2 && lines[1] == Line("root", Quote(g.prints, v))
            && IsLine(lines[0]) && IsLine(lines[1])
  {
    var lines := Output(g, ["root", "start"]);
    assert ["root", "start"][..1] == ["root"] && ["root"][..0] == [];
    assert LinesOf(g, ["root"]) == [Line("root", Definition(g, "root"))];
    AlonePrinted(g, Plain(Literal(rawV)));
    TwoPrinted(g, Plain(Literal(rawU)), Plain(Rule("root")));
    LiteralFree(g.prints, u);
    LiteralFree(g.prints, v);
    assert IsIdentifier("root");
  }
}
