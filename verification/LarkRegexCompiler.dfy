/**
  The regex back end: a recursive-descent parser that compiles rules as it meets them, and
  a compiler with a memo and a set of rules under way (larkRegexCompiler, larkExprParser).
 */
module LarkRegexCompiler {
  import opened Wrappers
  import opened Text
  import opened RegexMeaning
  import opened LarkSyntax
  import opened LarkLexer
  import opened LarkMeaning
  import opened LarkTable

  // ---------------------------------------------------------------- what the parser methods compute

  function TextOf(f: Option<Fragment>): Option<string> {
    match f
    case None => None
    case Some(x) => Some(x.text)
  }

  function ChoiceText(g: Grammar, visiting: set<string>, tokens: seq<Token>, pos: nat): Option<string>
    requires pos <= |tokens|
  {
    match ParseChoice(tokens, pos)
    case None => None
    case Some(Parsed(c, _)) => TextOf(ExpandChoice(g, visiting, c))
  }

  function ChainText(g: Grammar, visiting: set<string>, tokens: seq<Token>, pos: nat): Option<string>
    requires pos <= |tokens|
  {
    match ParseChain(tokens, pos)
    case None => None
    case Some(Parsed(c, _)) => TextOf(ExpandChain(g, visiting, c))
  }

  function TermText(g: Grammar, visiting: set<string>, tokens: seq<Token>, pos: nat): Option<string>
    requires pos <= |tokens|
  {
    match ParseTerm(tokens, pos)
    case None => None
    case Some(Parsed(t, _)) => TextOf(ExpandTerm(g, visiting, t))
  }

  function PrimaryText(g: Grammar, visiting: set<string>, tokens: seq<Token>, pos: nat): Option<string>
    requires pos <= |tokens|
  {
    match LarkSyntax.ParsePrimary(tokens, pos)
    case None => None
    case Some(Parsed(p, _)) => TextOf(ExpandPrimary(g, visiting, p))
  }

  lemma {:induction false} ChoiceLoopFails(g: Grammar, visiting: set<string>, tokens: seq<Token>, acc: Choice, pos: nat)
    requires pos <= |tokens| && ExpandJoined(g, visiting, acc).None?
    ensures var r := ChoiceLoop(tokens, acc, pos); r.Some? ==> ExpandChoice(g, visiting, r.value.node).None?
    decreases |tokens| - pos
  {
    ChoiceExpandsIff(g, visiting, acc);
    if Peek(tokens, pos).Pipe? && ParseChain(tokens, pos + 1).Some? {
      var Parsed(c, next) := ParseChain(tokens, pos + 1).value;
      ChoiceLoopFails(g, visiting, tokens, Or(acc, c), next);
    }
  }

  lemma {:induction false} ChainLoopFails(g: Grammar, visiting: set<string>, tokens: seq<Token>, acc: Chain, pos: nat)
    requires pos <= |tokens| && ExpandChain(g, visiting, acc).None?
    ensures var r := ChainLoop(tokens, acc, pos); r.Some? ==> ExpandChain(g, visiting, r.value.node).None?
    decreases |tokens| - pos
  {
    if !EndsChain(Peek(tokens, pos)) && ParseTerm(tokens, pos).Some? {
      var Parsed(t, next) := ParseTerm(tokens, pos).value;
      ChainLoopFails(g, visiting, tokens, Then(acc, t), next);
    }
  }

  lemma {:induction false} TermLoopFails(g: Grammar, visiting: set<string>, tokens: seq<Token>, acc: Term, pos: nat)
    requires pos <= |tokens| && ExpandTerm(g, visiting, acc).None?
    ensures ExpandTerm(g, visiting, TermLoop(tokens, acc, pos).node).None?
    decreases |tokens| - pos
  {
    match QuantifierOf(Peek(tokens, pos))
    case None =>
    case Some(q) => TermLoopFails(g, visiting, tokens, Quantified(acc, q), pos + 1);
  }

  // ---------------------------------------------------------------- the compiler

  class Compiler {
    const table: Table
    const lexicon: Lexicon
    var memo: map<string, string>
    var visiting: set<string>

    constructor (table: Table, lexicon: Lexicon)
      ensures this.table == table && this.lexicon == lexicon
      ensures memo == map[] && visiting == {} && Valid()
    {
      this.table, this.lexicon := table, lexicon;
      memo, visiting := map[], {};
    }

    ghost function Rules(): Grammar {
      GrammarOf(table, lexicon)
    }

    /** Cached texts are the uncached expansions; what they refer to is cached; none is under way. */
    ghost predicate Valid()
      reads this
    {
      && (forall n :: n in memo ==> Rules().HasBody(n) && TextOf(ExpandName(Rules(), {}, n)) == Some(memo[n]))
      && Closed(Rules(), memo.Keys)
      && memo.Keys !! visiting
    }

    method CompileRule(name: string) returns (r: Option<string>)
      requires Valid()
      modifies this
      ensures Valid() && visiting == old(visiting) && old(memo).Keys <= memo.Keys
      ensures r == TextOf(ExpandName(Rules(), visiting, name))
      ensures r.Some? ==> Known(Rules(), memo.Keys, {name})
      decreases Rules().bodies.Keys - visiting, 0, 1
    {
      if name in memo {
        NameIndependent(Rules(), memo.Keys, visiting, {}, name);
        return Some(memo[name]);
      }
      if name in table.imports {
        return Some(table.imports[name]);
      }
      if name in lexicon.builtins {
        return Some(lexicon.builtins[name]);
      }
      if name !in table.rules || name in visiting {
        return None;
      }
      r := CompileBody(name);
    }

    /** The rule's own body, with the rule marked as under way meanwhile. */
    method CompileBody(name: string) returns (r: Option<string>)
      requires Valid() && name in table.rules && name !in Rules().patterns && name !in visiting && name !in memo
      modifies this
      ensures Valid() && visiting == old(visiting) && old(memo).Keys <= memo.Keys
      ensures r == TextOf(ExpandName(Rules(), visiting, name))
      ensures r.Some? ==> Known(Rules(), memo.Keys, {name})
      decreases Rules().bodies.Keys - visiting, 0, 0
    {
      var g := Rules();
      visiting := visiting + {name};
      var tokens := Tokenize(StripAliases(table.rules[name]));
      if tokens.None? {
        visiting := visiting - {name};
        return None;
      }
      var parser := new Parser(tokens.value, this);
      var pattern := parser.Parse();
      visiting := visiting - {name};
      assert visiting == old(visiting);
      if pattern.Some? {
        MemoStays(g, memo.Keys, name);
        assert memo.Keys + {name} == memo[name := pattern.value].Keys;
        memo := memo[name := pattern.value];
        NameIndependent(g, memo.Keys, visiting, {}, name);
      }
      r := pattern;
    }
  }

  lemma MemoStays(g: Grammar, names: set<string>, name: string)
    requires Closed(g, names) && g.HasBody(name) && Known(g, names, ChoiceRules(g.BodyOf(name)))
    ensures Closed(g, names + {name})
  {
  }

  // ---------------------------------------------------------------- the parser

  class Parser {
    const tokens: seq<Token>
    const compiler: Compiler
    var position: nat

    constructor (tokens: seq<Token>, compiler: Compiler)
      ensures this.tokens == tokens && this.compiler == compiler && position == 0
    {
      this.tokens, this.compiler, position := tokens, compiler, 0;
    }

    ghost predicate Valid()
      reads this, compiler
    {
      position <= |tokens| && compiler.Valid()
    }

    /** What a call may change: the position, and new entries in the memo. */
    twostate predicate Advances()
      reads this, compiler
    {
      Valid() && compiler.visiting == old(compiler.visiting) && old(compiler.memo).Keys <= compiler.memo.Keys
    }

    method Next() returns (t: Token)
      requires position <= |tokens|
      modifies this`position
      ensures t == Peek(tokens, old(position))
      ensures position == if old(position) < |tokens| then old(position) + 1 else old(position)
    {
      t := Peek(tokens, position);
      if position < |tokens| {
        position := position + 1;
      }
    }

    method Parse() returns (r: Option<string>)
      requires Valid() && position == 0
      modifies this, compiler
      ensures Advances()
      ensures r == match ParseExpr(tokens)
                   case None => None
                   case Some(c) => TextOf(ExpandChoice(compiler.Rules(), compiler.visiting, c))
      ensures r.Some? ==> Known(compiler.Rules(), compiler.memo.Keys, ChoiceRules(ParseExpr(tokens).value))
      decreases compiler.Rules().bodies.Keys - compiler.visiting, 1, |tokens| - position, 6
    {
      r := ParseAlternation();
      if r.Some? && !Peek(tokens, position).Eof? {
        r := None;
      }
    }

    method ParseAlternation() returns (r: Option<string>)
      requires Valid()
      modifies this, compiler
      ensures Advances()
      ensures r == ChoiceText(compiler.Rules(), compiler.visiting, tokens, old(position))
      ensures r.Some? ==>
                var Parsed(c, next) := ParseChoice(tokens, old(position)).value;
                position == next && Known(compiler.Rules(), compiler.memo.Keys, ChoiceRules(c))
      decreases compiler.Rules().bodies.Keys - compiler.visiting, 1, |tokens| - position, 5
    {
      ghost var g, v := compiler.Rules(), compiler.visiting;
      var first := ParseSequence();
      if first.None? {
        ghost var chain := ParseChain(tokens, old(position));
        if chain.Some? {
          ChoiceLoopFails(g, v, tokens, Only(chain.value.node), chain.value.next);
        }
        return None;
      }
      ghost var acc := Only(ParseChain(tokens, old(position)).value.node);
      var alternatives := [first.value];
      while Peek(tokens, position).Pipe?
        invariant Advances() && old(position) < position
        invariant ParseChoice(tokens, old(position)) == ChoiceLoop(tokens, acc, position)
        invariant |alternatives| > 0 && (|alternatives| == 1 <==> acc.Only?)
        invariant ExpandJoined(g, v, acc).Some? && ExpandJoined(g, v, acc).value.text == Join(alternatives, "|")
        invariant Known(g, compiler.memo.Keys, ChoiceRules(acc))
        decreases |tokens| - position
      {
        var _ := Next();
        ghost var start := position;
        var nextExpr := ParseSequence();
        ghost var chain := ParseChain(tokens, start);
        if nextExpr.None? {
          if chain.Some? {
            ChoiceLoopFails(g, v, tokens, Or(acc, chain.value.node), chain.value.next);
          }
          return None;
        }
        JoinSnoc(alternatives, nextExpr.value, "|");
        alternatives := alternatives + [nextExpr.value];
        acc := Or(acc, chain.value.node);
      }
      if |alternatives| == 1 {
        return Some(alternatives[0]);
      }
      return Some("(?:" + Join(alternatives, "|") + ")");
    }

    method ParseSequence() returns (r: Option<string>)
      requires Valid()
      modifies this, compiler
      ensures Advances()
      ensures r == ChainText(compiler.Rules(), compiler.visiting, tokens, old(position))
      ensures r.Some? ==>
                var Parsed(c, next) := ParseChain(tokens, old(position)).value;
                position == next && Known(compiler.Rules(), compiler.memo.Keys, ChainRules(c))
      decreases compiler.Rules().bodies.Keys - compiler.visiting, 1, |tokens| - position, 4
    {
      ghost var g, v := compiler.Rules(), compiler.visiting;
      var parts: seq<string> := [];
      ghost var acc: Option<Chain> := None;
      while !EndsChain(Peek(tokens, position))
        invariant Advances() && old(position) <= position
        invariant acc.None? <==> parts == []
        invariant acc.None? ==> position == old(position)
        invariant acc.Some? ==>
                    && !EndsChain(Peek(tokens, old(position))) && old(position) < position
                    && ParseChain(tokens, old(position)) == ChainLoop(tokens, acc.value, position)
                    && TextOf(ExpandChain(g, v, acc.value)) == Some(Join(parts, ""))
                    && Known(g, compiler.memo.Keys, ChainRules(acc.value))
        decreases |tokens| - position
      {
        ghost var start := position;
        var part := ParseFactor();
        ghost var term := ParseTerm(tokens, start);
        if part.None? {
          if term.Some? {
            ghost var bad := if acc.None? then First(term.value.node) else Then(acc.value, term.value.node);
            ChainLoopFails(g, v, tokens, bad, term.value.next);
          }
          return None;
        }
        if parts != [] {
          JoinSnoc(parts, part.value, "");
          assert Join(parts, "") + "" == Join(parts, "");
        }
        parts := parts + [part.value];
        acc := Some(if acc.None? then First(term.value.node) else Then(acc.value, term.value.node));
      }
      if |parts| == 0 {
        return None;
      }
      return Some(Join(parts, ""));
    }

    method ParseFactor() returns (r: Option<string>)
      requires Valid()
      modifies this, compiler
      ensures Advances()
      ensures r == TermText(compiler.Rules(), compiler.visiting, tokens, old(position))
      ensures r.Some? ==>
                var Parsed(t, next) := ParseTerm(tokens, old(position)).value;
                position == next && Known(compiler.Rules(), compiler.memo.Keys, TermRules(t))
      decreases compiler.Rules().bodies.Keys - compiler.visiting, 1, |tokens| - position, 3
    {
      ghost var g, v := compiler.Rules(), compiler.visiting;
      var primary := ParsePrimary();
      ghost var parsed := LarkSyntax.ParsePrimary(tokens, old(position));
      if primary.None? {
        if parsed.Some? {
          TermLoopFails(g, v, tokens, Plain(parsed.value.node), parsed.value.next);
        }
        return None;
      }
      var text := primary.value;
      ghost var acc := Plain(parsed.value.node);
      while QuantifierOf(Peek(tokens, position)).Some?
        invariant Advances() && old(position) < position
        invariant ParseTerm(tokens, old(position)) == Some(TermLoop(tokens, acc, position))
        invariant TextOf(ExpandTerm(g, v, acc)) == Some(text)
        invariant Known(g, compiler.memo.Keys, TermRules(acc))
        decreases |tokens| - position
      {
        var q := QuantifierOf(Peek(tokens, position)).value;
        var _ := Next();
        text := "(?:" + text + ")" + q.Sign();
        acc := Quantified(acc, q);
      }
      return Some(text);
    }

    method ParsePrimary() returns (r: Option<string>)
      requires Valid()
      modifies this, compiler
      ensures Advances()
      ensures r == PrimaryText(compiler.Rules(), compiler.visiting, tokens, old(position))
      ensures r.Some? ==>
                var Parsed(p, next) := LarkSyntax.ParsePrimary(tokens, old(position)).value;
                position == next && Known(compiler.Rules(), compiler.memo.Keys, PrimaryRules(p))
      decreases compiler.Rules().bodies.Keys - compiler.visiting, 1, |tokens| - position, 2
    {
      var token := Next();
      match token {
        case Ident(text) =>
          r := compiler.CompileRule(text);
        case String(text) =>
          var literal := compiler.lexicon.decode(text);
          r := if literal.None? then None else Some(QuoteMeta(literal.value));
        case Regex(text) =>
          r := Some(text);
        case LParen =>
          var expr := ParseAlternation();
          if expr.None? || !Peek(tokens, position).RParen? {
            return None;
          }
          var _ := Next();
          r := Some("(?:" + expr.value + ")");
        case _ =>
          r := None;
      }
    }
  }
}
