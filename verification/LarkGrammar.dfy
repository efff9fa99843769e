/**
  The rule-by-rule grammar emitted for the native backend: one line per rule, rules
  referred to by name, the start rule printed as `root`.
 */
module LarkGrammar {
  import opened Wrappers
  import opened Text
  import opened Languages
  import opened RegexText
  import opened RegexMeaning
  import opened LarkSyntax
  import opened LarkLexer
  import opened LarkMeaning
  import opened LarkGrammarText
  import opened LarkPrint

  // ---------------------------------------------------------------- lines

  /** What is printed after `::=` for a name that resolves. */
  function Definition(g: Grammar, name: string): string {
    if name in g.patterns then g.patterns[name]
    else if g.HasBody(name) then PrintChoice(g, g.BodyOf(name))
    else ""
  }

  datatype Line = Line(name: string, definition: string)

  function LinesOf(g: Grammar, order: seq<string>): seq<Line> {
    if order == [] then []
    else
      var name := order[|order| - 1];
      var rest := LinesOf(g, order[..|order| - 1]);
      if name == "start" then rest else rest + [Line(name, Definition(g, name))]
  }

  function Output(g: Grammar, order: seq<string>): seq<Line> {
    [Line("root", Definition(g, "start"))] + LinesOf(g, order)
  }

  // ---------------------------------------------------------------- the trees that are meant

  /** A sequence as one factor that a postfix operator can follow. */
  function OneFactor(s: Sequence): Factor {
    if IsOneFactor(s) then s.last else Group(Alternatives(NoAlternatives, s))
  }

  function ChoiceTree(g: Grammar, c: Choice): Alternatives {
    match c
    case Only(chain) => Alternatives(NoAlternatives, ChainTree(g, chain))
    case Or(init, last) => Alternatives(ChoiceTree(g, init), ChainTree(g, last))
  }

  function ChainTree(g: Grammar, c: Chain): Sequence {
    match c
    case First(t) => TermTree(g, t)
    case Then(init, last) => Append(ChainTree(g, init), TermTree(g, last))
  }

  function TermTree(g: Grammar, t: Term): Sequence {
    match t
    case Plain(p) => PrimaryTree(g, p)
    case Quantified(u, q) => Sequence(Empty, Repeated(OneFactor(TermTree(g, u)), q.Times()))
  }

  function PrimaryTree(g: Grammar, p: Primary): Sequence {
    match p
    case Rule(name) => Sequence(Empty, One(Name(name)))
    case Literal(raw) => (match g.decode(raw) case None => Empty case Some(v) => Sequence(Empty, One(Quoted(v))))
    case Pattern(text) => Body(text)
    case Paren(c) => Sequence(Empty, Group(ChoiceTree(g, c)))
  }

  // ---------------------------------------------------------------- precedence

  lemma PatternReads(text: string)
    requires SelfContained(text)
    ensures Reads(false, LexFrom(Ready, text).lexemes, Body(text))
  {
    PastesSelfContained(text);
    ReadRelaxed(START, LexFrom(Ready, text).lexemes);
  }

  /** A postfix operator after a bare pattern applies to the whole of it exactly when it is one factor. */
  lemma QuantifiedPatternIff(text: string, t: Times)
    requires SelfContained(text)
    ensures Reads(false, LexFrom(Ready, text).lexemes + [Post(t)], Sequence(Empty, Repeated(OneFactor(Body(text)), t)))
       <==> IsOneFactor(Body(text))
  {
    PatternReads(text);
    ReadConcat(false, START, LexFrom(Ready, text).lexemes, [Post(t)]);
  }

  lemma {:induction false} ChoiceTreeReads(g: Grammar, c: Choice)
    requires ChoiceAll(DecodesIn(g), c) && ChoiceAll(SelfContainedPattern, c) && ChoiceQuantifiable(c)
    ensures Read(false, EmitChoice(g, c)) == Some(ChoiceTree(g, c))
    decreases c
  {
    match c
    case Only(chain) => ChainTreeReads(g, chain);
    case Or(init, last) =>
      ChoiceTreeReads(g, init);
      ChainTreeReads(g, last);
      ReadsBar(false, EmitChoice(g, init), ChoiceTree(g, init), EmitChain(g, last), ChainTree(g, last));
  }

  lemma {:induction false} ChainTreeReads(g: Grammar, c: Chain)
    requires ChainAll(DecodesIn(g), c) && ChainAll(SelfContainedPattern, c) && ChainQuantifiable(c)
    ensures Reads(false, EmitChain(g, c), ChainTree(g, c))
    decreases c
  {
    match c
    case First(t) => TermTreeReads(g, t);
    case Then(init, last) =>
      ChainTreeReads(g, init);
      TermTreeReads(g, last);
      ReadsConcat(false, EmitChain(g, init), ChainTree(g, init), EmitTerm(g, last), TermTree(g, last));
  }

  lemma {:induction false} TermTreeReads(g: Grammar, t: Term)
    requires TermAll(DecodesIn(g), t) && TermAll(SelfContainedPattern, t) && TermQuantifiable(t)
    ensures Reads(false, EmitTerm(g, t), TermTree(g, t))
    ensures !(t.Plain? && t.primary.Pattern?) ==> IsOneFactor(TermTree(g, t))
    decreases t
  {
    match t
    case Plain(Pattern(text)) => PatternReads(text);
    case Plain(Paren(c)) =>
      ChoiceTreeReads(g, c);
      ReadsGroup(false, EmitChoice(g, c), ChoiceTree(g, c));
    case Plain(_) =>
    case Quantified(u, q) =>
      TermTreeReads(g, u);
      if u.Plain? && u.primary.Pattern? {
        assert TermTree(g, u) == Body(u.primary.text);
      }
      ReadsPost(false, EmitTerm(g, u), TermTree(g, u).last, q.Times());
  }

  // ---------------------------------------------------------------- patterns mention no rules

  predicate NamelessLexeme(x: Lexeme) {
    x.Leaf? ==> !x.atom.Name?
  }

  predicate NamelessAlternatives(a: Alternatives) {
    a.Alternatives? ==> NamelessAlternatives(a.init) && NamelessSequence(a.last)
  }

  predicate NamelessSequence(s: Sequence) {
    s.Sequence? ==> NamelessSequence(s.init) && NamelessFactor(s.last)
  }

  predicate NamelessFactor(f: Factor) {
    match f
    case One(a) => !a.Name?
    case Group(a) => NamelessAlternatives(a)
    case Repeated(h, _) => NamelessFactor(h)
  }

  predicate NamelessStack(st: Stack) {
    && NamelessAlternatives(st.top.done)
    && NamelessSequence(st.top.cur)
    && (st.Nested? ==> NamelessStack(st.below))
  }

  lemma StepNameless(st: LexState, c: char)
    ensures forall x :: x in LexStep(st, c).lexemes ==> NamelessLexeme(x)
  {
  }

  lemma {:induction false} LexNameless(st: LexState, s: string)
    ensures forall x :: x in LexFrom(st, s).lexemes ==> NamelessLexeme(x)
    decreases s
  {
    if s != "" {
      StepNameless(st, s[0]);
      LexNameless(LexStep(st, s[0]).state, s[1..]);
    }
  }

  lemma {:induction false} ReadNameless(strict: bool, st: Stack, xs: seq<Lexeme>)
    requires NamelessStack(st) && forall x :: x in xs ==> NamelessLexeme(x)
    requires ReadFrom(strict, st, xs).Some?
    ensures NamelessStack(ReadFrom(strict, st, xs).value)
    decreases xs
  {
    if xs != [] {
      assert NamelessLexeme(xs[0]);
      ReadNameless(strict, ReadStep(strict, st, xs[0]).value, xs[1..]);
    }
  }

  lemma {:induction false} NamelessMeaning(units: string -> Language, a: string -> Language, b: string -> Language,
                                           s: Sequence)
    requires NamelessSequence(s)
    ensures SequenceLanguage(Meaning(units, a), s) == SequenceLanguage(Meaning(units, b), s)
    decreases s
  {
    if s.Sequence? {
      NamelessMeaning(units, a, b, s.init);
      NamelessFactorMeaning(units, a, b, s.last);
    }
  }

  lemma {:induction false} NamelessFactorMeaning(units: string -> Language, a: string -> Language,
                                                 b: string -> Language, f: Factor)
    requires NamelessFactor(f)
    ensures FactorLanguage(Meaning(units, a), f) == FactorLanguage(Meaning(units, b), f)
    decreases f
  {
    match f
    case One(_) =>
    case Group(alternatives) => NamelessAlternativesMeaning(units, a, b, alternatives);
    case Repeated(h, _) => NamelessFactorMeaning(units, a, b, h);
  }

  lemma {:induction false} NamelessAlternativesMeaning(units: string -> Language, a: string -> Language,
                                                       b: string -> Language, x: Alternatives)
    requires NamelessAlternatives(x)
    ensures AlternativesLanguage(Meaning(units, a), x) == AlternativesLanguage(Meaning(units, b), x)
    decreases x
  {
    if x.Alternatives? {
      NamelessAlternativesMeaning(units, a, b, x.init);
      NamelessMeaning(units, a, b, x.last);
    }
  }

  lemma PatternMeaning(units: string -> Language, names: string -> Language, text: string)
    requires SelfContained(text)
    ensures SequenceLanguage(Meaning(units, names), Body(text)) == RegexLanguage(units, text)
  {
    var xs := LexFrom(Ready, text).lexemes;
    PastesSelfContained(text);
    PastesLanguage(units, text, Body(text));
    LexNameless(Ready, text);
    ReadNameless(true, START, xs);
    NamelessMeaning(units, names, NoNames(), Body(text));
  }

  // ---------------------------------------------------------------- the language of one line

  /** `names` gives each rule in `rules` the words it derives to depth `depth`. */
  ghost predicate Interprets(g: Grammar, units: string -> Language, depth: nat, names: string -> Language,
                             rules: set<string>) {
    forall n :: n in rules ==> names(n) == NameWords(g, units, depth, n)
  }

  lemma OneFactorMeaning(m: Meaning, s: Sequence)
    ensures FactorLanguage(m, OneFactor(s)) == SequenceLanguage(m, s)
  {
    if IsOneFactor(s) {
      SingleFactor(m, s.last);
    } else {
      SingleAlternative(m, s);
    }
  }

  lemma {:induction false} ChoiceTreeMeans(g: Grammar, units: string -> Language, depth: nat,
                                           names: string -> Language, c: Choice)
    requires ChoiceAll(DecodesIn(g), c) && ChoiceAll(SelfContainedPattern, c)
    requires Interprets(g, units, depth, names, ChoiceRules(c))
    ensures AlternativesLanguage(Meaning(units, names), ChoiceTree(g, c)) == ChoiceWords(g, units, depth, c)
    decreases c
  {
    match c
    case Only(chain) =>
      ChainTreeMeans(g, units, depth, names, chain);
      SingleAlternative(Meaning(units, names), ChainTree(g, chain));
    case Or(init, last) =>
      ChoiceTreeMeans(g, units, depth, names, init);
      ChainTreeMeans(g, units, depth, names, last);
  }

  lemma {:induction false} ChainTreeMeans(g: Grammar, units: string -> Language, depth: nat, names: string -> Language,
                                          c: Chain)
    requires ChainAll(DecodesIn(g), c) && ChainAll(SelfContainedPattern, c)
    requires Interprets(g, units, depth, names, ChainRules(c))
    ensures SequenceLanguage(Meaning(units, names), ChainTree(g, c)) == ChainWords(g, units, depth, c)
    decreases c
  {
    match c
    case First(t) => TermTreeMeans(g, units, depth, names, t);
    case Then(init, last) =>
      ChainTreeMeans(g, units, depth, names, init);
      TermTreeMeans(g, units, depth, names, last);
      AppendLanguage(Meaning(units, names), ChainTree(g, init), TermTree(g, last));
  }

  lemma {:induction false} TermTreeMeans(g: Grammar, units: string -> Language, depth: nat, names: string -> Language,
                                         t: Term)
    requires TermAll(DecodesIn(g), t) && TermAll(SelfContainedPattern, t)
    requires Interprets(g, units, depth, names, TermRules(t))
    ensures SequenceLanguage(Meaning(units, names), TermTree(g, t)) == TermWords(g, units, depth, t)
    decreases t
  {
    var m := Meaning(units, names);
    match t
    case Plain(Rule(name)) =>
      SingleFactor(m, One(Name(name)));
      assert name in TermRules(t);
    case Plain(Literal(raw)) => SingleFactor(m, One(Quoted(g.decode(raw).value)));
    case Plain(Pattern(text)) => PatternMeaning(units, names, text);
    case Plain(Paren(c)) =>
      assert TermRules(t) == ChoiceRules(c);
      ChoiceTreeMeans(g, units, depth, names, c);
      SingleFactor(m, Group(ChoiceTree(g, c)));
    case Quantified(u, q) =>
      TermTreeMeans(g, units, depth, names, u);
      OneFactorMeaning(m, TermTree(g, u));
      SingleFactor(m, Repeated(OneFactor(TermTree(g, u)), q.Times()));
  }

  // ---------------------------------------------------------------- the language of the grammar

  ghost function LineWords(units: string -> Language, names: string -> Language, line: Line): Language {
    match LexemesOf(line.definition)
    case None => iset{}
    case Some(xs) =>
      match Read(false, xs)
      case None => iset{}
      case Some(a) => AlternativesLanguage(Meaning(units, names), a)
  }

  ghost predicate LineDerives(lines: seq<Line>, units: string -> Language, names: string -> Language, name: string,
                              w: Span) {
    exists i :: 0 <= i < |lines| && lines[i].name == name && w in LineWords(units, names, lines[i])
  }

  /** The words the printed grammar derives from `name` with lines unfolded to depth `depth`. */
  ghost function GrammarWords(lines: seq<Line>, units: string -> Language, depth: nat, name: string): Language
    decreases depth
  {
    if depth == 0 then iset{}
    else
      var names := (n: string) => GrammarWords(lines, units, depth - 1, n);
      iset w: Span | LineDerives(lines, units, names, name, w)
  }

  ghost predicate Generates(lines: seq<Line>, units: string -> Language, name: string, w: Span) {
    exists depth: nat :: w in GrammarWords(lines, units, depth, name)
  }

  /** Names are listed once, after everything their definitions refer to. */
  ghost predicate Ordered(g: Grammar, order: seq<string>) {
    && (forall i, j :: 0 <= i < j < |order| ==> order[i] != order[j])
    && (forall i :: 0 <= i < |order| ==> Usable(g, order[i]))
    && (forall i, n :: 0 <= i < |order| && Refers(g, order[i], n) ==> n in order[..i])
  }

  /** The list has grown only by what `names` reach. */
  ghost predicate GrownBy(g: Grammar, before: seq<string>, after: seq<string>, names: set<string>) {
    forall n :: n in after ==> n in before || Reached(g, names, n)
  }

  lemma GrownTwice(g: Grammar, a: seq<string>, b: seq<string>, c: seq<string>, x: set<string>, y: set<string>)
    requires GrownBy(g, a, b, x) && GrownBy(g, b, c, y)
    ensures GrownBy(g, a, c, x + y)
  {
    forall n | n in c && n !in a ensures Reached(g, x + y, n) {
      if n in b {
        var m :| m in x && Reaches(g, m, n);
        assert m in x + y;
      } else {
        var m :| m in y && Reaches(g, m, n);
        assert m in x + y;
      }
    }
  }

  lemma GrownOne(g: Grammar, before: seq<string>, name: string)
    ensures GrownBy(g, before, before + [name], {name}) && GrownBy(g, before, before, {name})
  {
    ReachesSelf(g, name);
    assert name in {name};
  }

  /** What the rules of a body reach, the rule reaches. */
  lemma GrownThrough(g: Grammar, before: seq<string>, after: seq<string>, name: string)
    requires g.HasBody(name) && GrownBy(g, before, after, ChoiceRules(g.BodyOf(name)))
    ensures GrownBy(g, before, after + [name], {name})
  {
    ReachesSelf(g, name);
    assert name in {name};
    forall n | n in after && n !in before ensures Reached(g, {name}, n) {
      var m :| m in ChoiceRules(g.BodyOf(name)) && Reaches(g, m, n);
      ReachesStep(g, name, m, n);
    }
  }

  /** What a grammar is printed from: what `start` reaches, all of it and nothing else, in order, `start` last. */
  ghost predicate Listed(g: Grammar, order: seq<string>) {
    && Ordered(g, order)
    && |order| > 0 && order[|order| - 1] == "start"
    && forall n :: n in order <==> Reaches(g, "start", n)
  }

  lemma {:induction false} PathStays(g: Grammar, order: seq<string>, path: seq<string>, k: nat)
    requires Ordered(g, order) && IsPath(g, path) && path[0] in order && k < |path|
    ensures path[k] in order
    decreases k
  {
    if k > 0 {
      PathStays(g, order, path, k - 1);
      var i :| 0 <= i < |order| && order[i] == path[k - 1];
      assert Refers(g, path[k - 1], path[k - 1 + 1]);
      assert path[k] in order[..i];
    }
  }

  /** An ordered list that ends in `start` lists all that `start` reaches. */
  lemma GrownIsListed(g: Grammar, order: seq<string>)
    requires Ordered(g, order) && |order| > 0 && order[|order| - 1] == "start" && GrownBy(g, [], order, {"start"})
    ensures Listed(g, order)
  {
    forall n ensures n in order <==> Reaches(g, "start", n) {
      if Reaches(g, "start", n) {
        var path :| IsPath(g, path) && path[0] == "start" && path[|path| - 1] == n;
        PathStays(g, order, path, |path| - 1);
      }
    }
  }

  lemma OrderedSnoc(g: Grammar, order: seq<string>, name: string)
    requires Ordered(g, order) && name !in order && Usable(g, name)
    requires forall n :: Refers(g, name, n) ==> n in order
    ensures Ordered(g, order + [name])
  {
    var longer := order + [name];
    forall i, n | 0 <= i < |longer| && Refers(g, longer[i], n)
      ensures n in longer[..i]
    {
      if i < |order| {
        assert Refers(g, order[i], n);
        assert longer[..i] == order[..i];
      } else {
        assert longer[..i] == order;
      }
    }
  }

  /** What can be pasted, and is read in a grammar as it is in a regular expression. */
  predicate PrintablePattern(text: string) {
    SelfContained(text) && IsPlain(text) && Free(text, '\n')
  }

  predicate PrintableChoice(c: Choice) {
    && ChoiceAll(SelfContainedPattern, c) && ChoiceAll(PlainPattern, c) && ChoiceAll(FreePattern, c)
    && ChoiceQuantifiable(c) && Identifiers(ChoiceRules(c))
  }

  /** The rules listed can be printed and read back. */
  predicate Printable(g: Grammar, order: seq<string>) {
    forall n :: n in order ==>
      && IsIdentifier(n)
      && (n in g.patterns ==> PrintablePattern(g.patterns[n]))
      && (g.HasBody(n) ==> PrintableChoice(g.BodyOf(n)))
  }

  lemma {:induction false} LinesOfMember(g: Grammar, order: seq<string>, line: Line)
    ensures line in LinesOf(g, order) <==>
            line.name in order && line.name != "start" && line.definition == Definition(g, line.name)
    decreases order
  {
    if order != [] {
      var front := order[..|order| - 1];
      LinesOfMember(g, front, line);
      assert order == front + [order[|order| - 1]];
    }
  }

  lemma DefinitionWords(g: Grammar, units: string -> Language, depth: nat, names: string -> Language,
                        order: seq<string>, n: string)
    requires Printable(g, order) && n in order && Usable(g, n)
    requires g.HasBody(n) ==> Interprets(g, units, depth, names, ChoiceRules(g.BodyOf(n)))
    ensures forall line: Line :: line.definition == Definition(g, n) ==>
              LineWords(units, names, line) == NameWords(g, units, depth + 1, n)
  {
    if n in g.patterns {
      var text := g.patterns[n];
      PatternRead(text);
      PatternReads(text);
      PatternMeaning(units, names, text);
      SingleAlternative(Meaning(units, names), Body(text));
    } else {
      ChoiceRead(g, g.BodyOf(n));
      ChoiceTreeReads(g, g.BodyOf(n));
      ChoiceTreeMeans(g, units, depth, names, g.BodyOf(n));
    }
  }

  /** The printed grammar and the rule table derive the same words, depth for depth. */
  lemma {:induction false} Lockstep(g: Grammar, units: string -> Language, order: seq<string>, depth: nat, n: string)
    requires Ordered(g, order) && Printable(g, order) && "root" !in order
    requires |order| > 0 && order[|order| - 1] == "start"
    requires n in order
    ensures GrammarWords(Output(g, order), units, depth, if n == "start" then "root" else n) ==
            NameWords(g, units, depth, n)
    decreases depth
  {
    if depth > 0 {
      var lines := Output(g, order);
      var names := (m: string) => GrammarWords(lines, units, depth - 1, m);
      var printed := if n == "start" then "root" else n;
      if g.HasBody(n) {
        forall m | m in ChoiceRules(g.BodyOf(n))
          ensures names(m) == NameWords(g, units, depth - 1, m)
        {
          var i :| 0 <= i < |order| && order[i] == n;
          assert Refers(g, order[i], m);
          var j :| 0 <= j < i && order[..i][j] == m;
          assert order[j] == m && m != "start";
          Lockstep(g, units, order, depth - 1, m);
        }
      }
      DefinitionWords(g, units, depth - 1, names, order, n);
      forall w: Span
        ensures LineDerives(lines, units, names, printed, w) <==> w in NameWords(g, units, depth, n)
      {
        LineOfName(g, order, n);
      }
    }
  }

  /** Exactly the one line of a name bears it, and it holds that name's definition. */
  lemma LineOfName(g: Grammar, order: seq<string>, n: string)
    requires n in order && "root" !in order
    ensures var printed := if n == "start" then "root" else n;
            && (forall i :: 0 <= i < |Output(g, order)| && Output(g, order)[i].name == printed ==>
                  Output(g, order)[i].definition == Definition(g, n))
            && exists i :: 0 <= i < |Output(g, order)| && Output(g, order)[i] == Line(printed, Definition(g, n))
  {
    var lines := Output(g, order);
    var printed := if n == "start" then "root" else n;
    forall i | 0 <= i < |lines| && lines[i].name == printed
      ensures lines[i].definition == Definition(g, n)
    {
      if i > 0 { LinesOfMember(g, order, lines[i]); assert lines[i] in LinesOf(g, order); }
    }
    if n == "start" {
      assert lines[0] == Line(printed, Definition(g, n));
    } else {
      LinesOfMember(g, order, Line(n, Definition(g, n)));
      var k :| 0 <= k < |LinesOf(g, order)| && LinesOf(g, order)[k] == Line(n, Definition(g, n));
      assert lines[k + 1] == Line(printed, Definition(g, n));
    }
  }

  /** What the printed grammar generates from `root` is what `start` derives. */
  lemma GrammarPreservesLanguage(g: Grammar, units: string -> Language, order: seq<string>, w: Span)
    requires Ordered(g, order) && Printable(g, order) && "root" !in order
    requires |order| > 0 && order[|order| - 1] == "start"
    ensures Generates(Output(g, order), units, "root", w) <==> Derives(g, units, "start", w)
  {
    forall depth: nat
      ensures GrammarWords(Output(g, order), units, depth, "root") == NameWords(g, units, depth, "start")
    {
      Lockstep(g, units, order, depth, "start");
    }
  }

  // ---------------------------------------------------------------- the text of the grammar

  function PrintLine(line: Line): string {
    line.name + (" ::= " + line.definition)
  }

  function PrintLines(lines: seq<Line>): seq<string> {
    seq(|lines|, i requires 0 <= i < |lines| => PrintLine(lines[i]))
  }

  function GrammarText(lines: seq<Line>): string {
    Join(PrintLines(lines), "\n")
  }

  /** A line is cut at its first ` ::= `. */
  function ReadLine(text: string): Option<Line> {
    match IndexOf(text, " ::= ")
    case None => None
    case Some(k) => Some(Line(text[..k], text[k + 5..]))
  }

  function ReadLines(texts: seq<string>): seq<Line> {
    if texts == [] then []
    else
      var rest := ReadLines(texts[1..]);
      if ReadLine(texts[0]).None? then rest else [ReadLine(texts[0]).value] + rest
  }

  function ReadGrammar(text: string): seq<Line> {
    ReadLines(Split(text, '\n'))
  }

  /** What the text of a grammar generates from `name`. */
  ghost predicate TextGenerates(text: string, units: string -> Language, name: string, w: Span) {
    Generates(ReadGrammar(text), units, name, w)
  }

  predicate IsLine(line: Line) {
    IsIdentifier(line.name) && Free(line.definition, '\n')
  }

  lemma LineReadBack(line: Line)
    requires IsIdentifier(line.name)
    ensures ReadLine(PrintLine(line)) == Some(line)
  {
    var text, n := PrintLine(line), |line.name|;
    assert text[n..n + 5] == " ::= ";
    assert OccursAt(text, " ::= ", n);
    forall k: nat | k < n ensures !OccursAt(text, " ::= ", k) {
      assert text[k] == line.name[k] && line.name[k] in line.name;
      assert k + 5 <= |text| ==> text[k..k + 5][0] == text[k];
    }
    assert text[..n] == line.name && text[n + 5..] == line.definition;
  }

  lemma {:induction false} LinesReadBack(lines: seq<Line>)
    requires forall i :: 0 <= i < |lines| ==> IsLine(lines[i])
    ensures ReadLines(PrintLines(lines)) == lines
    decreases lines
  {
    if lines != [] {
      assert IsLine(lines[0]);
      LineReadBack(lines[0]);
      assert PrintLines(lines)[1..] == PrintLines(lines[1..]);
      LinesReadBack(lines[1..]);
    }
  }

  /** Printing a grammar and reading its text gives its lines back. */
  lemma GrammarReadBack(lines: seq<Line>)
    requires lines != [] && forall i :: 0 <= i < |lines| ==> IsLine(lines[i])
    ensures ReadGrammar(GrammarText(lines)) == lines
  {
    var texts := PrintLines(lines);
    forall i | 0 <= i < |texts| ensures Free(texts[i], '\n') {
      assert IsLine(lines[i]);
    }
    SplitJoin(texts, '\n');
    LinesReadBack(lines);
  }

  lemma DefinitionFree(g: Grammar, order: seq<string>, n: string)
    requires Printable(g, order) && n in order
    ensures IsLine(Line(n, Definition(g, n)))
  {
    if g.HasBody(n) { ChoiceFree(g, g.BodyOf(n)); }
  }

  lemma OutputLines(g: Grammar, order: seq<string>)
    requires Printable(g, order) && "start" in order
    ensures forall i :: 0 <= i < |Output(g, order)| ==> IsLine(Output(g, order)[i])
  {
    var lines := Output(g, order);
    forall i | 0 <= i < |lines| ensures IsLine(lines[i]) {
      if i == 0 {
        DefinitionFree(g, order, "start");
        assert IsIdentifier("root");
      } else {
        assert lines[i] in LinesOf(g, order);
        LinesOfMember(g, order, lines[i]);
        DefinitionFree(g, order, lines[i].name);
      }
    }
  }

  /** What the emitted text generates from `root` is what `start` derives. */
  lemma TextPreservesLanguage(g: Grammar, units: string -> Language, order: seq<string>, w: Span)
    requires Ordered(g, order) && Printable(g, order) && "root" !in order
    requires |order| > 0 && order[|order| - 1] == "start"
    ensures TextGenerates(GrammarText(Output(g, order)), units, "root", w) <==> Derives(g, units, "start", w)
  {
    OutputLines(g, order);
    GrammarReadBack(Output(g, order));
    GrammarPreservesLanguage(g, units, order, w);
  }

  // ---------------------------------------------------------------- names

  predicate DistinctNames(lines: seq<Line>) {
    forall i, j :: 0 <= i < j < |lines| ==> lines[i].name != lines[j].name
  }

  lemma {:induction false} LinesOfDistinct(g: Grammar, order: seq<string>)
    requires Ordered(g, order)
    ensures DistinctNames(LinesOf(g, order))
    decreases order
  {
    if order != [] {
      var front := order[..|order| - 1];
      forall i, n | 0 <= i < |front| && Refers(g, front[i], n)
        ensures n in front[..i]
      {
        assert Refers(g, order[i], n) && order[..i] == front[..i];
      }
      LinesOfDistinct(g, front);
      var rest := LinesOf(g, front);
      forall i | 0 <= i < |rest|
        ensures rest[i].name != order[|order| - 1]
      {
        LinesOfMember(g, front, rest[i]);
        assert rest[i] in rest;
      }
    }
  }

  /** The start rule takes the name `root`: the printed names clash exactly when a rule bears it. */
  lemma RootClash(g: Grammar, order: seq<string>)
    requires Ordered(g, order)
    ensures DistinctNames(Output(g, order)) <==> "root" !in order
  {
    var rest := LinesOf(g, order);
    var lines := Output(g, order);
    LinesOfDistinct(g, order);
    LinesOfMember(g, order, Line("root", Definition(g, "root")));
    if "root" in order {
      var k :| 0 <= k < |rest| && rest[k] == Line("root", Definition(g, "root"));
      assert lines[0].name == lines[k + 1].name;
    } else {
      forall i, j | 0 <= i < j < |lines|
        ensures lines[i].name != lines[j].name
      {
        assert lines[j] == rest[j - 1];
        if i == 0 { LinesOfMember(g, order, rest[j - 1]); assert rest[j - 1] in rest; }
        else { assert lines[i] == rest[i - 1]; }
      }
    }
  }
}
