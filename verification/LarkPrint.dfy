/**
  The text of a rule in the native grammar (larkVLLMGrammarExprParser), the lexemes that are
  meant by it, and exactly when reading the text gives them.
 */
module LarkPrint {
  import opened Wrappers
  import opened Text
  import opened RegexText
  import opened LarkSyntax
  import opened LarkLexer
  import opened LarkMeaning
  import opened LarkGrammarText
  import opened GoQuote

  // ---------------------------------------------------------------- the text

  function PrintChoice(g: Grammar, c: Choice): string {
    match c
    case Only(chain) => PrintChain(g, chain)
    case Or(init, last) => PrintChoice(g, init) + (" | " + PrintChain(g, last))
  }

  function PrintChain(g: Grammar, c: Chain): string {
    match c
    case First(t) => PrintTerm(g, t)
    case Then(init, last) => PrintChain(g, init) + (" " + PrintTerm(g, last))
  }

  function PrintTerm(g: Grammar, t: Term): string {
    match t
    case Plain(p) => PrintPrimary(g, p)
    case Quantified(u, q) => PrintTerm(g, u) + q.Sign()
  }

  function PrintPrimary(g: Grammar, p: Primary): string {
    match p
    case Rule(name) => name
    case Literal(raw) => (match g.decode(raw) case None => "" case Some(v) => Quote(g.prints, v))
    case Pattern(text) => text
    case Paren(c) => "(" + (PrintChoice(g, c) + ")")
  }

  // ---------------------------------------------------------------- the lexemes that are meant

  function EmitChoice(g: Grammar, c: Choice): seq<Lexeme> {
    match c
    case Only(chain) => EmitChain(g, chain)
    case Or(init, last) => EmitChoice(g, init) + [Bar] + EmitChain(g, last)
  }

  function EmitChain(g: Grammar, c: Chain): seq<Lexeme> {
    match c
    case First(t) => EmitTerm(g, t)
    case Then(init, last) => EmitChain(g, init) + EmitTerm(g, last)
  }

  function EmitTerm(g: Grammar, t: Term): seq<Lexeme> {
    match t
    case Plain(p) => EmitPrimary(g, p)
    case Quantified(u, q) => EmitTerm(g, u) + [Post(q.Times())]
  }

  function EmitPrimary(g: Grammar, p: Primary): seq<Lexeme> {
    match p
    case Rule(name) => [Leaf(Name(name))]
    case Literal(raw) => (match g.decode(raw) case None => [Bad] case Some(v) => [Leaf(Quoted(v))])
    case Pattern(text) => LexFrom(Ready, text).lexemes
    case Paren(c) => [Open] + EmitChoice(g, c) + [Close]
  }

  predicate IsOneFactor(s: Sequence) {
    s.Sequence? && s.init.Empty?
  }

  /** No postfix operator follows a pattern that is more (or less) than one factor. */
  predicate ChoiceQuantifiable(c: Choice) {
    match c
    case Only(chain) => ChainQuantifiable(chain)
    case Or(init, last) => ChoiceQuantifiable(init) && ChainQuantifiable(last)
  }

  predicate ChainQuantifiable(c: Chain) {
    match c
    case First(t) => TermQuantifiable(t)
    case Then(init, last) => ChainQuantifiable(init) && TermQuantifiable(last)
  }

  predicate TermQuantifiable(t: Term) {
    match t
    case Plain(Paren(c)) => ChoiceQuantifiable(c)
    case Plain(_) => true
    case Quantified(Plain(Pattern(text)), _) => IsOneFactor(Body(text))
    case Quantified(u, _) => TermQuantifiable(u)
  }

  // ---------------------------------------------------------------- reading the text

  predicate PlainPattern(p: Primary) {
    p.Pattern? ==> IsPlain(p.text)
  }

  predicate Identifiers(names: set<string>) {
    forall n :: n in names ==> IsIdentifier(n)
  }

  /** The text is read as these lexemes, and may follow an opening parenthesis. */
  predicate ReadsAs(text: string, xs: seq<Lexeme>) {
    ReadAll(text) == Progress(InText(Ready), xs) && (text == "" || text[0] != '?')
  }

  lemma PatternStarts(text: string)
    requires SelfContained(text) && text != ""
    ensures text[0] != '?'
  {
  }

  lemma PatternRead(text: string)
    requires SelfContained(text) && IsPlain(text)
    ensures ReadsAs(text, LexFrom(Ready, text).lexemes)
  {
    PlainReads(Ready, text);
    if text != "" { PatternStarts(text); }
  }

  lemma BarRead(a: string, xs: seq<Lexeme>, b: string, ys: seq<Lexeme>)
    requires ReadsAs(a, xs) && ReadsAs(b, ys)
    ensures ReadsAs(a + (" | " + b), xs + [Bar] + ys)
  {
    BarThen(b);
    ReadsThen(a, " | " + b);
    assert xs + ([Bar] + ys) == xs + [Bar] + ys;
  }

  lemma BarThen(b: string)
    ensures ReadAll(" | " + b) == Prepend([Bar], ReadAll(b))
  {
    assert " | " + b == " " + (['|'] + (" " + b));
    OneSpace(['|'] + (" " + b));
    OneSign('|', Bar, " " + b);
    OneSpace(b);
  }

  lemma SpaceRead(a: string, xs: seq<Lexeme>, b: string, ys: seq<Lexeme>)
    requires ReadsAs(a, xs) && ReadsAs(b, ys)
    ensures ReadsAs(a + (" " + b), xs + ys)
  {
    OneSpace(b);
    ReadsThen(a, " " + b);
  }

  lemma SignRead(a: string, xs: seq<Lexeme>, q: Quantifier)
    requires ReadsAs(a, xs) && a != ""
    ensures ReadsAs(a + q.Sign(), xs + [Post(q.Times())])
  {
    var sign := q.Sign();
    OneSign(sign[0], Post(q.Times()), "");
    assert [sign[0]] + "" == sign;
    assert ReadAll("") == Progress(InText(Ready), []);
    ReadsThen(a, sign);
  }

  lemma GroupRead(a: string, xs: seq<Lexeme>)
    requires ReadsAs(a, xs)
    ensures ReadsAs("(" + (a + ")"), [Open] + xs + [Close])
  {
    OneSign(')', Close, "");
    assert [')'] + "" == ")";
    assert ReadAll("") == Progress(InText(Ready), []);
    ReadsThen(a, ")");
    OpenThen(a + ")");
    assert [Open] + (xs + [Close]) == [Open] + xs + [Close];
  }

  lemma {:induction false} ChoiceRead(g: Grammar, c: Choice)
    requires ChoiceAll(DecodesIn(g), c) && ChoiceAll(SelfContainedPattern, c) && ChoiceAll(PlainPattern, c)
    requires ChoiceQuantifiable(c) && Identifiers(ChoiceRules(c))
    ensures ReadsAs(PrintChoice(g, c), EmitChoice(g, c))
    decreases c
  {
    match c
    case Only(chain) => ChainRead(g, chain);
    case Or(init, last) =>
      ChoiceRead(g, init);
      ChainRead(g, last);
      BarRead(PrintChoice(g, init), EmitChoice(g, init), PrintChain(g, last), EmitChain(g, last));
  }

  lemma {:induction false} ChainRead(g: Grammar, c: Chain)
    requires ChainAll(DecodesIn(g), c) && ChainAll(SelfContainedPattern, c) && ChainAll(PlainPattern, c)
    requires ChainQuantifiable(c) && Identifiers(ChainRules(c))
    ensures ReadsAs(PrintChain(g, c), EmitChain(g, c))
    decreases c
  {
    match c
    case First(t) => TermRead(g, t);
    case Then(init, last) =>
      ChainRead(g, init);
      TermRead(g, last);
      SpaceRead(PrintChain(g, init), EmitChain(g, init), PrintTerm(g, last), EmitTerm(g, last));
  }

  lemma {:induction false} TermRead(g: Grammar, t: Term)
    requires TermAll(DecodesIn(g), t) && TermAll(SelfContainedPattern, t) && TermAll(PlainPattern, t)
    requires TermQuantifiable(t) && Identifiers(TermRules(t))
    ensures ReadsAs(PrintTerm(g, t), EmitTerm(g, t))
    ensures PrintTerm(g, t) == "" ==> t == Plain(Pattern(""))
    decreases t
  {
    match t
    case Plain(Rule(name)) =>
      assert name in TermRules(t);
      NameRead(name);
    case Plain(Literal(raw)) => LiteralRead(g.prints, g.decode(raw).value);
    case Plain(Pattern(text)) =>
      PatternRead(text);
      assert PrintTerm(g, t) == text;
    case Plain(Paren(c)) =>
      assert TermRules(t) == ChoiceRules(c);
      ChoiceRead(g, c);
      GroupRead(PrintChoice(g, c), EmitChoice(g, c));
      assert PrintTerm(g, t)[0] == '(';
    case Quantified(u, q) =>
      TermRead(g, u);
      if u == Plain(Pattern("")) {
        EmptyPattern();
      }
      SignRead(PrintTerm(g, u), EmitTerm(g, u), q);
  }

  lemma EmptyPattern()
    ensures !IsOneFactor(Body(""))
  {
  }

  // ---------------------------------------------------------------- and only then

  lemma {:induction false} ChoiceSpecial(g: Grammar, c: Choice)
    ensures HasSpecial(EmitChoice(g, c)) <==> !ChoiceAll(PlainPattern, c)
    decreases c
  {
    match c
    case Only(chain) => ChainSpecial(g, chain);
    case Or(init, last) =>
      ChoiceSpecial(g, init);
      ChainSpecial(g, last);
      HasSpecialConcat(EmitChoice(g, init) + [Bar], EmitChain(g, last));
      HasSpecialConcat(EmitChoice(g, init), [Bar]);
  }

  lemma {:induction false} ChainSpecial(g: Grammar, c: Chain)
    ensures HasSpecial(EmitChain(g, c)) <==> !ChainAll(PlainPattern, c)
    decreases c
  {
    match c
    case First(t) => TermSpecial(g, t);
    case Then(init, last) =>
      ChainSpecial(g, init);
      TermSpecial(g, last);
      HasSpecialConcat(EmitChain(g, init), EmitTerm(g, last));
  }

  lemma {:induction false} TermSpecial(g: Grammar, t: Term)
    ensures HasSpecial(EmitTerm(g, t)) <==> !TermAll(PlainPattern, t)
    decreases t
  {
    match t
    case Plain(Pattern(text)) => PlainIffNoSpecial(Ready, text);
    case Plain(Paren(c)) =>
      ChoiceSpecial(g, c);
      HasSpecialConcat([Open] + EmitChoice(g, c), [Close]);
      HasSpecialConcat([Open], EmitChoice(g, c));
    case Plain(_) =>
    case Quantified(u, q) =>
      TermSpecial(g, u);
      HasSpecialConcat(EmitTerm(g, u), [Post(q.Times())]);
  }

  /** The printed text of an expression is read as what was meant exactly when all its patterns are plain. */
  lemma PrintedReadIff(g: Grammar, c: Choice)
    requires ChoiceAll(DecodesIn(g), c) && ChoiceAll(SelfContainedPattern, c)
    requires ChoiceQuantifiable(c) && Identifiers(ChoiceRules(c))
    ensures LexemesOf(PrintChoice(g, c)) == Some(EmitChoice(g, c)) <==> ChoiceAll(PlainPattern, c)
  {
    ChoiceSpecial(g, c);
    AllNeverSpecial(PrintChoice(g, c));
    if ChoiceAll(PlainPattern, c) {
      ChoiceRead(g, c);
    }
  }

  // ---------------------------------------------------------------- one line

  predicate FreePattern(p: Primary) {
    p.Pattern? ==> Free(p.text, '\n')
  }

  lemma LiteralFree(prints: char -> bool, v: string)
    ensures Free(Quote(prints, v), '\n')
  {
    QuoteVisible(prints, v);
  }

  lemma {:induction false} ChoiceFree(g: Grammar, c: Choice)
    requires ChoiceAll(FreePattern, c) && Identifiers(ChoiceRules(c))
    ensures Free(PrintChoice(g, c), '\n')
    decreases c
  {
    match c
    case Only(chain) => ChainFree(g, chain);
    case Or(init, last) =>
      ChoiceFree(g, init);
      ChainFree(g, last);
  }

  lemma {:induction false} ChainFree(g: Grammar, c: Chain)
    requires ChainAll(FreePattern, c) && Identifiers(ChainRules(c))
    ensures Free(PrintChain(g, c), '\n')
    decreases c
  {
    match c
    case First(t) => TermFree(g, t);
    case Then(init, last) =>
      ChainFree(g, init);
      TermFree(g, last);
  }

  lemma {:induction false} TermFree(g: Grammar, t: Term)
    requires TermAll(FreePattern, t) && Identifiers(TermRules(t))
    ensures Free(PrintTerm(g, t), '\n')
    decreases t
  {
    match t
    case Plain(Rule(name)) => assert name in TermRules(t);
    case Plain(Literal(raw)) => if g.decode(raw).Some? { LiteralFree(g.prints, g.decode(raw).value); }
    case Plain(Pattern(text)) =>
    case Plain(Paren(c)) =>
      assert TermRules(t) == ChoiceRules(c);
      ChoiceFree(g, c);
    case Quantified(u, q) => TermFree(g, u);
  }
}
