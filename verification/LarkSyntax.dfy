/**
  Lark rule expressions: tokens, trees, and the recursive-descent grammar that both
  expression parsers of internal/httpapi/custom_tool_constraints.go follow.
 */
module LarkSyntax {
  import opened Wrappers
  import opened Languages

  datatype Token =
    | Ident(text: string)
    | String(text: string)
    | Regex(text: string)
    | LParen
    | RParen
    | Pipe
    | Star
    | Plus
    | Question
    | Eof

  datatype Quantifier = ZeroOrMore | OneOrMore | Optional {
    function Sign(): string {
      match this
      case ZeroOrMore => "*"
      case OneOrMore => "+"
      case Optional => "?"
    }

    function Times(): Times {
      match this
      case ZeroOrMore => STAR
      case OneOrMore => PLUS
      case Optional => QUESTION
    }

    function Token(): Token {
      match this
      case ZeroOrMore => Star
      case OneOrMore => Plus
      case Optional => Question
    }
  }

  /** `a b* | c`: a choice of chains of terms; lists grow to the right, as the loops build them. */
  datatype Choice = Only(chain: Chain) | Or(init: Choice, last: Chain)
  datatype Chain = First(term: Term) | Then(init: Chain, last: Term)
  datatype Term = Plain(primary: Primary) | Quantified(term: Term, quantifier: Quantifier)
  datatype Primary = Rule(name: string) | Literal(raw: string) | Pattern(text: string) | Paren(choice: Choice)

  // ---------------------------------------------------------------- the parser

  datatype Parsed<+T> = Parsed(node: T, next: nat)

  function Peek(tokens: seq<Token>, pos: nat): Token {
    if pos < |tokens| then tokens[pos] else Eof
  }

  predicate EndsChain(t: Token) {
    t.Eof? || t.RParen? || t.Pipe?
  }

  function QuantifierOf(t: Token): Option<Quantifier> {
    match t
    case Star => Some(ZeroOrMore)
    case Plus => Some(OneOrMore)
    case Question => Some(Optional)
    case _ => None
  }

  function ParseChoice(tokens: seq<Token>, pos: nat): (r: Option<Parsed<Choice>>)
    requires pos <= |tokens|
    ensures r.Some? ==> pos < r.value.next <= |tokens|
    decreases |tokens| - pos, 5
  {
    match ParseChain(tokens, pos)
    case None => None
    case Some(Parsed(c, next)) => ChoiceLoop(tokens, Only(c), next)
  }

  function ChoiceLoop(tokens: seq<Token>, acc: Choice, pos: nat): (r: Option<Parsed<Choice>>)
    requires pos <= |tokens|
    ensures r.Some? ==> pos <= r.value.next <= |tokens|
    decreases |tokens| - pos, 5
  {
    if Peek(tokens, pos).Pipe? then
      match ParseChain(tokens, pos + 1)
      case None => None
      case Some(Parsed(c, next)) => ChoiceLoop(tokens, Or(acc, c), next)
    else Some(Parsed(acc, pos))
  }

  function ParseChain(tokens: seq<Token>, pos: nat): (r: Option<Parsed<Chain>>)
    requires pos <= |tokens|
    ensures r.Some? ==> pos < r.value.next <= |tokens|
    decreases |tokens| - pos, 4
  {
    if EndsChain(Peek(tokens, pos)) then None
    else match ParseTerm(tokens, pos)
      case None => None
      case Some(Parsed(t, next)) => ChainLoop(tokens, First(t), next)
  }

  function ChainLoop(tokens: seq<Token>, acc: Chain, pos: nat): (r: Option<Parsed<Chain>>)
    requires pos <= |tokens|
    ensures r.Some? ==> pos <= r.value.next <= |tokens|
    decreases |tokens| - pos, 4
  {
    if EndsChain(Peek(tokens, pos)) then Some(Parsed(acc, pos))
    else match ParseTerm(tokens, pos)
      case None => None
      case Some(Parsed(t, next)) => ChainLoop(tokens, Then(acc, t), next)
  }

  function ParseTerm(tokens: seq<Token>, pos: nat): (r: Option<Parsed<Term>>)
    requires pos <= |tokens|
    ensures r.Some? ==> pos < r.value.next <= |tokens|
    decreases |tokens| - pos, 3
  {
    match ParsePrimary(tokens, pos)
    case None => None
    case Some(Parsed(p, next)) => Some(TermLoop(tokens, Plain(p), next))
  }

  function TermLoop(tokens: seq<Token>, acc: Term, pos: nat): (r: Parsed<Term>)
    requires pos <= |tokens|
    ensures pos <= r.next <= |tokens|
    decreases |tokens| - pos, 3
  {
    match QuantifierOf(Peek(tokens, pos))
    case Some(q) => TermLoop(tokens, Quantified(acc, q), pos + 1)
    case None => Parsed(acc, pos)
  }

  function ParsePrimary(tokens: seq<Token>, pos: nat): (r: Option<Parsed<Primary>>)
    requires pos <= |tokens|
    ensures r.Some? ==> pos < r.value.next <= |tokens|
    decreases |tokens| - pos, 2
  {
    match Peek(tokens, pos)
    case Ident(text) => Some(Parsed(Rule(text), pos + 1))
    case String(text) => Some(Parsed(Literal(text), pos + 1))
    case Regex(text) => Some(Parsed(Pattern(text), pos + 1))
    case LParen =>
      (match ParseChoice(tokens, pos + 1)
       case None => None
       case Some(Parsed(c, next)) =>
         if Peek(tokens, next).RParen? then Some(Parsed(Paren(c), next + 1)) else None)
    case _ => None
  }

  function ParseExpr(tokens: seq<Token>): Option<Choice> {
    match ParseChoice(tokens, 0)
    case None => None
    case Some(Parsed(c, next)) => if Peek(tokens, next).Eof? then Some(c) else None
  }

  // ---------------------------------------------------------------- the grammar

  function ChoiceTokens(c: Choice): seq<Token> {
    match c
    case Only(chain) => ChainTokens(chain)
    case Or(init, last) => ChoiceTokens(init) + [Pipe] + ChainTokens(last)
  }

  function ChainTokens(c: Chain): seq<Token> {
    match c
    case First(t) => TermTokens(t)
    case Then(init, last) => ChainTokens(init) + TermTokens(last)
  }

  function TermTokens(t: Term): seq<Token> {
    match t
    case Plain(p) => PrimaryTokens(p)
    case Quantified(u, q) => TermTokens(u) + [q.Token()]
  }

  function PrimaryTokens(p: Primary): seq<Token> {
    match p
    case Rule(name) => [Ident(name)]
    case Literal(raw) => [String(raw)]
    case Pattern(text) => [Regex(text)]
    case Paren(c) => [LParen] + ChoiceTokens(c) + [RParen]
  }

  predicate At(tokens: seq<Token>, pos: nat, piece: seq<Token>) {
    pos + |piece| <= |tokens| && tokens[pos..pos + |piece|] == piece
  }

  lemma AtSplit(tokens: seq<Token>, pos: nat, a: seq<Token>, b: seq<Token>)
    ensures At(tokens, pos, a + b) <==> At(tokens, pos, a) && At(tokens, pos + |a|, b)
  {
    if At(tokens, pos, a + b) {
      assert tokens[pos..pos + |a|] == (a + b)[..|a|] == a;
      assert tokens[pos + |a|..pos + |a| + |b|] == (a + b)[|a|..] == b;
    }
    if At(tokens, pos, a) && At(tokens, pos + |a|, b) {
      assert tokens[pos..pos + |a + b|] == tokens[pos..pos + |a|] + tokens[pos + |a|..pos + |a| + |b|];
    }
  }

  lemma AtOne(tokens: seq<Token>, pos: nat, token: Token)
    requires At(tokens, pos, [token])
    ensures pos < |tokens| && tokens[pos] == token
  {
    assert tokens[pos..pos + 1][0] == tokens[pos];
  }

  // ---------------------------------------------------------------- every phrase is parsed to its tree

  lemma {:induction false} ChoiceComplete(tokens: seq<Token>, pos: nat, c: Choice)
    requires At(tokens, pos, ChoiceTokens(c))
    requires EndsChain(Peek(tokens, pos + |ChoiceTokens(c)|))
    ensures ParseChoice(tokens, pos) == ChoiceLoop(tokens, c, pos + |ChoiceTokens(c)|)
    decreases c
  {
    match c
    case Only(chain) =>
      ChainComplete(tokens, pos, chain);
    case Or(init, last) =>
      AtOr(tokens, pos, init, last);
      ChoiceComplete(tokens, pos, init);
      ChainComplete(tokens, pos + |ChoiceTokens(init)| + 1, last);
  }

  lemma AtOr(tokens: seq<Token>, pos: nat, init: Choice, last: Chain)
    requires At(tokens, pos, ChoiceTokens(Or(init, last)))
    ensures At(tokens, pos, ChoiceTokens(init)) && Peek(tokens, pos + |ChoiceTokens(init)|) == Pipe
    ensures At(tokens, pos + |ChoiceTokens(init)| + 1, ChainTokens(last))
    ensures |ChoiceTokens(Or(init, last))| == |ChoiceTokens(init)| + 1 + |ChainTokens(last)|
  {
    var front := ChoiceTokens(init);
    AtSplit(tokens, pos, front + [Pipe], ChainTokens(last));
    AtSplit(tokens, pos, front, [Pipe]);
    AtOne(tokens, pos + |front|, Pipe);
  }

  lemma {:induction false} ChainComplete(tokens: seq<Token>, pos: nat, c: Chain)
    requires At(tokens, pos, ChainTokens(c))
    requires QuantifierOf(Peek(tokens, pos + |ChainTokens(c)|)).None?
    ensures ParseChain(tokens, pos) == ChainLoop(tokens, c, pos + |ChainTokens(c)|)
    decreases c
  {
    match c
    case First(t) =>
      TermComplete(tokens, pos, t);
    case Then(init, last) =>
      AtSplit(tokens, pos, ChainTokens(init), TermTokens(last));
      TermComplete(tokens, pos + |ChainTokens(init)|, last);
      ChainComplete(tokens, pos, init);
  }

  lemma {:induction false} TermComplete(tokens: seq<Token>, pos: nat, t: Term)
    requires At(tokens, pos, TermTokens(t))
    ensures ParseTerm(tokens, pos) == Some(TermLoop(tokens, t, pos + |TermTokens(t)|))
    ensures !EndsChain(Peek(tokens, pos)) && QuantifierOf(Peek(tokens, pos)).None?
    decreases t
  {
    match t
    case Plain(p) =>
      PrimaryComplete(tokens, pos, p);
    case Quantified(u, q) =>
      AtSplit(tokens, pos, TermTokens(u), [q.Token()]);
      var next := pos + |TermTokens(u)|;
      AtOne(tokens, next, q.Token());
      TermComplete(tokens, pos, u);
  }

  lemma {:induction false} PrimaryComplete(tokens: seq<Token>, pos: nat, p: Primary)
    requires At(tokens, pos, PrimaryTokens(p))
    ensures ParsePrimary(tokens, pos) == Some(Parsed(p, pos + |PrimaryTokens(p)|))
    ensures !EndsChain(Peek(tokens, pos)) && QuantifierOf(Peek(tokens, pos)).None?
    decreases p
  {
    match p
    case Paren(c) =>
      AtSplit(tokens, pos, [LParen] + ChoiceTokens(c), [RParen]);
      AtSplit(tokens, pos, [LParen], ChoiceTokens(c));
      var close := pos + |[LParen] + ChoiceTokens(c)|;
      AtOne(tokens, pos, LParen);
      AtOne(tokens, close, RParen);
      ChoiceComplete(tokens, pos + 1, c);
    case _ =>
      assert tokens[pos..pos + 1][0] == PrimaryTokens(p)[0];
  }

  // ---------------------------------------------------------------- and only phrases are parsed

  lemma {:induction false} ChoiceSound(tokens: seq<Token>, pos: nat)
    requires pos <= |tokens|
    ensures var r := ParseChoice(tokens, pos);
            r.Some? ==>
              r.value.next == pos + |ChoiceTokens(r.value.node)| && At(tokens, pos, ChoiceTokens(r.value.node))
    decreases |tokens| - pos, 5
  {
    ChainSound(tokens, pos);
    match ParseChain(tokens, pos)
    case None =>
    case Some(Parsed(c, next)) => ChoiceLoopSound(tokens, pos, Only(c), next);
  }

  lemma {:induction false} ChoiceLoopSound(tokens: seq<Token>, start: nat, acc: Choice, pos: nat)
    requires pos <= |tokens| && pos == start + |ChoiceTokens(acc)| && At(tokens, start, ChoiceTokens(acc))
    ensures var r := ChoiceLoop(tokens, acc, pos);
            r.Some? ==>
              r.value.next == start + |ChoiceTokens(r.value.node)| && At(tokens, start, ChoiceTokens(r.value.node))
    decreases |tokens| - pos, 5
  {
    if Peek(tokens, pos).Pipe? {
      ChainSound(tokens, pos + 1);
      match ParseChain(tokens, pos + 1)
      case None =>
      case Some(Parsed(c, next)) =>
        AtSplit(tokens, start, ChoiceTokens(acc), [Pipe]);
        AtSplit(tokens, start, ChoiceTokens(acc) + [Pipe], ChainTokens(c));
        ChoiceLoopSound(tokens, start, Or(acc, c), next);
    }
  }

  lemma {:induction false} ChainSound(tokens: seq<Token>, pos: nat)
    requires pos <= |tokens|
    ensures var r := ParseChain(tokens, pos);
            r.Some? ==> r.value.next == pos + |ChainTokens(r.value.node)| && At(tokens, pos, ChainTokens(r.value.node))
    decreases |tokens| - pos, 4
  {
    if !EndsChain(Peek(tokens, pos)) {
      TermSound(tokens, pos);
      match ParseTerm(tokens, pos)
      case None =>
      case Some(Parsed(t, next)) => ChainLoopSound(tokens, pos, First(t), next);
    }
  }

  lemma {:induction false} ChainLoopSound(tokens: seq<Token>, start: nat, acc: Chain, pos: nat)
    requires pos <= |tokens| && pos == start + |ChainTokens(acc)| && At(tokens, start, ChainTokens(acc))
    ensures var r := ChainLoop(tokens, acc, pos);
            r.Some? ==>
              r.value.next == start + |ChainTokens(r.value.node)| && At(tokens, start, ChainTokens(r.value.node))
    decreases |tokens| - pos, 4
  {
    if !EndsChain(Peek(tokens, pos)) {
      TermSound(tokens, pos);
      match ParseTerm(tokens, pos)
      case None =>
      case Some(Parsed(t, next)) =>
        AtSplit(tokens, start, ChainTokens(acc), TermTokens(t));
        ChainLoopSound(tokens, start, Then(acc, t), next);
    }
  }

  lemma {:induction false} TermSound(tokens: seq<Token>, pos: nat)
    requires pos <= |tokens|
    ensures var r := ParseTerm(tokens, pos);
            r.Some? ==> r.value.next == pos + |TermTokens(r.value.node)| && At(tokens, pos, TermTokens(r.value.node))
    decreases |tokens| - pos, 3
  {
    PrimarySound(tokens, pos);
    match ParsePrimary(tokens, pos)
    case None =>
    case Some(Parsed(p, next)) => TermLoopSound(tokens, pos, Plain(p), next);
  }

  lemma {:induction false} TermLoopSound(tokens: seq<Token>, start: nat, acc: Term, pos: nat)
    requires pos <= |tokens| && pos == start + |TermTokens(acc)| && At(tokens, start, TermTokens(acc))
    ensures var r := TermLoop(tokens, acc, pos);
            r.next == start + |TermTokens(r.node)| && At(tokens, start, TermTokens(r.node))
    decreases |tokens| - pos, 3
  {
    match QuantifierOf(Peek(tokens, pos))
    case None =>
    case Some(q) =>
      AtSplit(tokens, start, TermTokens(acc), [q.Token()]);
      TermLoopSound(tokens, start, Quantified(acc, q), pos + 1);
  }

  lemma {:induction false} PrimarySound(tokens: seq<Token>, pos: nat)
    requires pos <= |tokens|
    ensures var r := ParsePrimary(tokens, pos);
            r.Some? ==>
              r.value.next == pos + |PrimaryTokens(r.value.node)| && At(tokens, pos, PrimaryTokens(r.value.node))
    decreases |tokens| - pos, 2
  {
    if Peek(tokens, pos).LParen? {
      ChoiceSound(tokens, pos + 1);
      match ParseChoice(tokens, pos + 1)
      case None =>
      case Some(Parsed(c, next)) =>
        AtSplit(tokens, pos, [LParen], ChoiceTokens(c));
        AtSplit(tokens, pos, [LParen] + ChoiceTokens(c), [RParen]);
    }
  }

  predicate EofAtEndOnly(tokens: seq<Token>) {
    0 < |tokens| && tokens[|tokens| - 1].Eof? && Eof !in tokens[..|tokens| - 1]
  }

  /** The parser accepts exactly the phrases of the grammar, and gives each its one tree. */
  lemma ParserDecidesGrammar(tokens: seq<Token>, c: Choice)
    requires EofAtEndOnly(tokens)
    ensures ParseExpr(tokens) == Some(c) <==> tokens == ChoiceTokens(c) + [Eof]
  {
    var n := |ChoiceTokens(c)|;
    if ParseExpr(tokens) == Some(c) {
      ChoiceSound(tokens, 0);
      EndNotEof(c);
      assert tokens[0..n] == ChoiceTokens(c);
      assert n == |tokens| - 1;
    }
    if tokens == ChoiceTokens(c) + [Eof] {
      assert tokens[0..n] == ChoiceTokens(c);
      ChoiceComplete(tokens, 0, c);
    }
  }

  lemma {:induction false} EndNotEof(c: Choice)
    ensures |ChoiceTokens(c)| > 0 && !ChoiceTokens(c)[|ChoiceTokens(c)| - 1].Eof?
  {
    match c
    case Only(chain) => ChainEndNotEof(chain);
    case Or(_, last) => ChainEndNotEof(last);
  }

  lemma ChainEndNotEof(c: Chain)
    ensures |ChainTokens(c)| > 0 && !ChainTokens(c)[|ChainTokens(c)| - 1].Eof?
  {
    var t := if c.First? then c.term else c.last;
    assert |TermTokens(t)| > 0 && !TermTokens(t)[|TermTokens(t)| - 1].Eof?;
  }

  // ---------------------------------------------------------------- what an expression mentions

  function ChoiceRules(c: Choice): set<string> {
    match c
    case Only(chain) => ChainRules(chain)
    case Or(init, last) => ChoiceRules(init) + ChainRules(last)
  }

  function ChainRules(c: Chain): set<string> {
    match c
    case First(t) => TermRules(t)
    case Then(init, last) => ChainRules(init) + TermRules(last)
  }

  function TermRules(t: Term): set<string> {
    match t
    case Plain(p) => PrimaryRules(p)
    case Quantified(u, _) => TermRules(u)
  }

  function PrimaryRules(p: Primary): set<string> {
    match p
    case Rule(name) => {name}
    case Paren(c) => ChoiceRules(c)
    case _ => {}
  }

  /** `p` holds of every literal and every pattern in the expression. */
  predicate ChoiceAll(p: Primary -> bool, c: Choice) {
    match c
    case Only(chain) => ChainAll(p, chain)
    case Or(init, last) => ChoiceAll(p, init) && ChainAll(p, last)
  }

  predicate ChainAll(p: Primary -> bool, c: Chain) {
    match c
    case First(t) => TermAll(p, t)
    case Then(init, last) => ChainAll(p, init) && TermAll(p, last)
  }

  predicate TermAll(p: Primary -> bool, t: Term) {
    match t
    case Plain(q) => PrimaryAll(p, q)
    case Quantified(u, _) => TermAll(p, u)
  }

  predicate PrimaryAll(p: Primary -> bool, q: Primary) {
    match q
    case Paren(c) => ChoiceAll(p, c)
    case _ => p(q)
  }
}
