/**
  The native-grammar back end: the same descent, but rules become named definitions, listed
  in the order in which they are completed (larkVLLMGrammarCompiler, larkVLLMGrammarExprParser).
 */
module LarkGrammarCompiler {
  import opened Wrappers
  import opened Text
  import opened LarkSyntax
  import opened LarkLexer
  import opened LarkMeaning
  import opened LarkTable
  import opened LarkPrint
  import opened LarkGrammar
  import opened LarkRegexCompiler
  import opened GoQuote

  // ---------------------------------------------------------------- what the parser methods compute

  function ChoicePrinted(g: Grammar, visiting: set<string>, tokens: seq<Token>, pos: nat): Option<string>
    requires pos <= |tokens|
  {
    match ParseChoice(tokens, pos)
    case None => None
    case Some(Parsed(c, _)) => if ExpandChoice(g, visiting, c).Some? then Some(PrintChoice(g, c)) else None
  }

  function ChainPrinted(g: Grammar, visiting: set<string>, tokens: seq<Token>, pos: nat): Option<string>
    requires pos <= |tokens|
  {
    match ParseChain(tokens, pos)
    case None => None
    case Some(Parsed(c, _)) => if ExpandChain(g, visiting, c).Some? then Some(PrintChain(g, c)) else None
  }

  function TermPrinted(g: Grammar, visiting: set<string>, tokens: seq<Token>, pos: nat): Option<string>
    requires pos <= |tokens|
  {
    match ParseTerm(tokens, pos)
    case None => None
    case Some(Parsed(t, _)) => if ExpandTerm(g, visiting, t).Some? then Some(PrintTerm(g, t)) else None
  }

  function PrimaryPrinted(g: Grammar, visiting: set<string>, tokens: seq<Token>, pos: nat): Option<string>
    requires pos <= |tokens|
  {
    match ParsePrimary(tokens, pos)
    case None => None
    case Some(Parsed(p, _)) => if ExpandPrimary(g, visiting, p).Some? then Some(PrintPrimary(g, p)) else None
  }

  // ---------------------------------------------------------------- the compiler

  class Compiler {
    const table: Table
    const lexicon: Lexicon
    var definitions: map<string, string>
    var visiting: set<string>
    var order: seq<string>

    constructor (table: Table, lexicon: Lexicon)
      ensures this.table == table && this.lexicon == lexicon
      ensures definitions == map[] && visiting == {} && order == [] && Valid()
    {
      this.table, this.lexicon := table, lexicon;
      definitions, visiting, order := map[], {}, [];
    }

    ghost function Rules(): Grammar {
      GrammarOf(table, lexicon)
    }

    /**
      Every name is defined once, by its own definition, after all it refers to; it can be
      inlined; and none is under way.
     */
    ghost predicate Valid()
      reads this
    {
      && (forall n :: n in definitions <==> n in order)
      && (forall n :: n in definitions ==>
            definitions[n] == Definition(Rules(), n) && ExpandName(Rules(), {}, n).Some?)
      && Ordered(Rules(), order)
      && definitions.Keys !! visiting
      && (forall n :: n in visiting ==> n !in Rules().patterns)
    }

    lemma DefinedIsClosed()
      requires Valid()
      ensures Closed(Rules(), definitions.Keys)
    {
      var g := Rules();
      forall n, m | n in definitions && g.HasBody(n) && m in ChoiceRules(g.BodyOf(n))
        ensures m in g.patterns || m in definitions
      {
        var i :| 0 <= i < |order| && order[i] == n;
        assert Refers(g, order[i], m);
        assert m in order[..i];
      }
    }

    lemma StillExpands(name: string)
      requires Valid() && name in definitions
      ensures ExpandName(Rules(), visiting, name).Some?
    {
      DefinedIsClosed();
      NameIndependent(Rules(), definitions.Keys, visiting, {}, name);
    }

    lemma Unusable(name: string)
      requires name !in Rules().patterns && (name !in table.rules || name in visiting)
      ensures ExpandName(Rules(), visiting, name).None?
    {
    }

    /** A rule whose body has been compiled meets what a definition must. */
    lemma Completed(name: string)
      requires Valid() && Rules().HasBody(name) && name !in visiting
      requires ExpandChoice(Rules(), visiting + {name}, Rules().BodyOf(name)).Some?
      requires forall n :: n in ChoiceRules(Rules().BodyOf(name)) ==> n in definitions
      ensures Usable(Rules(), name) && ExpandName(Rules(), {}, name).Some?
    {
      var g := Rules();
      DefinedIsClosed();
      ChoiceExpandsIff(g, visiting + {name}, g.BodyOf(name));
      var names := definitions.Keys + {name};
      assert Closed(g, names);
      assert visiting * names == {} * names;
      NameIndependent(g, names, visiting, {}, name);
    }

    /** An import goes before a built-in pattern. */
    function PatternOf(name: string): (r: Option<string>)
      ensures r.Some? <==> name in Rules().patterns
      ensures r.Some? ==> r.value == Rules().patterns[name]
    {
      if name in table.imports then Some(table.imports[name])
      else if name in lexicon.builtins then Some(lexicon.builtins[name])
      else None
    }

    /**
      What compiling a rule does: it succeeds exactly when inlining would, and then the rule is
      defined, last if it is new, after what it reaches and nothing else.
     */
    twostate predicate Compiled(name: string, new r: Option<string>)
      reads this
    {
      && Valid() && visiting == old(visiting) && old(order) <= order
      && r == (if ExpandName(Rules(), visiting, name).Some? then Some(name) else None)
      && (r.Some? ==>
            && name in definitions && (name !in old(definitions) ==> order[|order| - 1] == name)
            && GrownBy(Rules(), old(order), order, {name}))
    }

    method CompileRule(name: string) returns (r: Option<string>)
      requires Valid()
      modifies this
      ensures Compiled(name, r)
      decreases Rules().bodies.Keys - visiting, 0, 2
    {
      if name in definitions {
        StillExpands(name);
        GrownOne(Rules(), order, name);
        return Some(name);
      }
      r := CompileNew(name);
    }

    method CompileNew(name: string) returns (r: Option<string>)
      requires Valid() && name !in definitions
      modifies this
      ensures Compiled(name, r)
      decreases Rules().bodies.Keys - visiting, 0, 1
    {
      var pattern := PatternOf(name);
      if pattern.Some? {
        AddPattern(name, pattern.value);
        return Some(name);
      }
      if name !in table.rules || name in visiting {
        Unusable(name);
        return None;
      }
      r := CompileBody(name);
    }

    /** The rule's own body, with the rule marked as under way meanwhile. */
    method CompileBody(name: string) returns (r: Option<string>)
      requires Valid() && name in table.rules && name !in Rules().patterns && name !in visiting && name !in definitions
      modifies this
      ensures Valid() && visiting == old(visiting) && old(order) <= order
      ensures r == if ExpandName(Rules(), visiting, name).Some? then Some(name) else None
      ensures r.Some? ==> name in definitions && order[|order| - 1] == name
      ensures r.Some? ==> GrownBy(Rules(), old(order), order, {name})
      decreases Rules().bodies.Keys - visiting, 0, 0
    {
      visiting := visiting + {name};
      var tokens := Tokenize(StripAliases(table.rules[name]));
      if tokens.None? {
        visiting := visiting - {name};
        return None;
      }
      var parser := new Parser(tokens.value, this);
      var compiled := parser.Parse();
      visiting := visiting - {name};
      assert visiting == old(visiting);
      if compiled.None? {
        return None;
      }
      Completed(name);
      GrownThrough(Rules(), old(order), order, name);
      AddDefinition(name, compiled.value);
      return Some(name);
    }

    /** The start rule's line, printed as `root`, then the others in order. */
    method Lines() returns (lines: seq<Line>)
      requires Valid() && "start" in definitions
      ensures lines == Output(Rules(), order)
    {
      ghost var first := [Line("root", Definition(Rules(), "start"))];
      lines := [Line("root", definitions["start"])];
      for i := 0 to |order|
        invariant lines == first + LinesOf(Rules(), order[..i])
      {
        var name := order[i];
        assert order[..i + 1][..i] == order[..i];
        if name != "start" {
          lines := lines + [Line(name, definitions[name])];
        }
      }
      assert order[..|order|] == order;
    }

    /** The lines, joined into one text. */
    method Emit() returns (text: string)
      requires Valid() && "start" in definitions
      ensures text == GrammarText(Output(Rules(), order))
    {
      var lines := Lines();
      text := Join(PrintLines(lines), "\n");
    }

    /** An imported or built-in pattern is its own definition. */
    method AddPattern(name: string, pattern: string)
      requires Valid() && name !in definitions && name in Rules().patterns && Rules().patterns[name] == pattern
      modifies this
      ensures Valid() && visiting == old(visiting) && order == old(order) + [name]
      ensures ExpandName(Rules(), visiting, name).Some? && GrownBy(Rules(), old(order), order, {name})
    {
      GrownOne(Rules(), order, name);
      AddDefinition(name, pattern);
    }

    method AddDefinition(name: string, definition: string)
      requires Valid() && name !in visiting
      requires name !in definitions ==>
                 && definition == Definition(Rules(), name) && ExpandName(Rules(), {}, name).Some?
                 && Usable(Rules(), name) && forall n :: Refers(Rules(), name, n) ==> n in definitions
      modifies this
      ensures Valid() && visiting == old(visiting)
      ensures order == if name in old(definitions) then old(order) else old(order) + [name]
    {
      if name in definitions {
        return;
      }
      OrderedSnoc(Rules(), order, name);
      definitions := definitions[name := definition];
      order := order + [name];
    }
  }

  // ---------------------------------------------------------------- the parser

  class Parser {
    const tokens: seq<Token>
    const compiler: Compiler
    var position: nat

    constructor (tokens: seq<Token>, compiler: Compiler)
      ensures this.tokens == tokens && this.compiler == compiler && position == 0
    {
      this.tokens, this.compiler, position := tokens, compiler, 0;
    }

    ghost predicate Valid()
      reads this, compiler
    {
      position <= |tokens| && compiler.Valid()
    }

    /** What a call may change: the position, and definitions added at the end. */
    twostate predicate Advances()
      reads this, compiler
    {
      Valid() && compiler.visiting == old(compiler.visiting) && old(compiler.order) <= compiler.order
    }

    /** The rules are defined, and nothing was added that they do not reach. */
    twostate predicate Gathered(rules: set<string>)
      reads compiler
    {
      && (forall n :: n in rules ==> n in compiler.order)
      && GrownBy(compiler.Rules(), old(compiler.order), compiler.order, rules)
    }

    method Next() returns (t: Token)
      requires position <= |tokens|
      modifies this`position
      ensures t == Peek(tokens, old(position))
      ensures position == if old(position) < |tokens| then old(position) + 1 else old(position)
    {
      t := Peek(tokens, position);
      if position < |tokens| {
        position := position + 1;
      }
    }

    method Parse() returns (r: Option<string>)
      requires Valid() && position == 0
      modifies this, compiler
      ensures Advances()
      ensures r.Some? <==>
              ParseExpr(tokens).Some? &&
              ExpandChoice(compiler.Rules(), compiler.visiting, ParseExpr(tokens).value).Some?
      ensures r.Some? ==>
                var c := ParseExpr(tokens).value;
                r.value == PrintChoice(compiler.Rules(), c) && Gathered(ChoiceRules(c))
      decreases compiler.Rules().bodies.Keys - compiler.visiting, 1, |tokens| - position, 6
    {
      r := ParseAlternation();
      if r.Some? && !Peek(tokens, position).Eof? {
        r := None;
      }
    }

    method ParseAlternation() returns (r: Option<string>)
      requires Valid()
      modifies this, compiler
      ensures Advances()
      ensures r == ChoicePrinted(compiler.Rules(), compiler.visiting, tokens, old(position))
      ensures r.Some? ==>
                var Parsed(c, next) := ParseChoice(tokens, old(position)).value;
                position == next && Gathered(ChoiceRules(c))
      decreases compiler.Rules().bodies.Keys - compiler.visiting, 1, |tokens| - position, 5
    {
      ghost var g, v := compiler.Rules(), compiler.visiting;
      var first := ParseSequence();
      if first.None? {
        ghost var chain := ParseChain(tokens, old(position));
        if chain.Some? {
          ChoiceLoopFails(g, v, tokens, Only(chain.value.node), chain.value.next);
        }
        return None;
      }
      ghost var acc := Only(ParseChain(tokens, old(position)).value.node);
      var alternatives := [first.value];
      while Peek(tokens, position).Pipe?
        invariant Advances() && old(position) < position
        invariant ParseChoice(tokens, old(position)) == ChoiceLoop(tokens, acc, position)
        invariant |alternatives| > 0 && Join(alternatives, " | ") == PrintChoice(g, acc)
        invariant ExpandJoined(g, v, acc).Some?
        invariant Gathered(ChoiceRules(acc))
        decreases |tokens| - position
      {
        var _ := Next();
        ghost var start, before := position, compiler.order;
        var nextExpr := ParseSequence();
        ghost var chain := ParseChain(tokens, start);
        if nextExpr.None? {
          if chain.Some? {
            ChoiceLoopFails(g, v, tokens, Or(acc, chain.value.node), chain.value.next);
          }
          return None;
        }
        JoinSnoc(alternatives, nextExpr.value, " | ");
        Associative(Join(alternatives, " | "), " | ", nextExpr.value);
        alternatives := alternatives + [nextExpr.value];
        GrownTwice(g, old(compiler.order), before, compiler.order, ChoiceRules(acc), ChainRules(chain.value.node));
        acc := Or(acc, chain.value.node);
      }
      return Some(Join(alternatives, " | "));
    }

    method ParseSequence() returns (r: Option<string>)
      requires Valid()
      modifies this, compiler
      ensures Advances()
      ensures r == ChainPrinted(compiler.Rules(), compiler.visiting, tokens, old(position))
      ensures r.Some? ==>
                var Parsed(c, next) := ParseChain(tokens, old(position)).value;
                position == next && Gathered(ChainRules(c))
      decreases compiler.Rules().bodies.Keys - compiler.visiting, 1, |tokens| - position, 4
    {
      ghost var g, v := compiler.Rules(), compiler.visiting;
      var parts: seq<string> := [];
      ghost var acc: Option<Chain> := None;
      while !EndsChain(Peek(tokens, position))
        invariant Advances() && old(position) <= position
        invariant acc.None? <==> parts == []
        invariant acc.None? ==> position == old(position) && compiler.order == old(compiler.order)
        invariant acc.Some? ==>
                    && !EndsChain(Peek(tokens, old(position))) && old(position) < position
                    && ParseChain(tokens, old(position)) == ChainLoop(tokens, acc.value, position)
                    && ExpandChain(g, v, acc.value).Some?
                    && PrintChain(g, acc.value) == Join(parts, " ")
                    && Gathered(ChainRules(acc.value))
        decreases |tokens| - position
      {
        ghost var start, before := position, compiler.order;
        var part := ParseFactor();
        ghost var term := ParseTerm(tokens, start);
        if part.None? {
          if term.Some? {
            ghost var bad := if acc.None? then First(term.value.node) else Then(acc.value, term.value.node);
            ChainLoopFails(g, v, tokens, bad, term.value.next);
          }
          return None;
        }
        if parts != [] {
          JoinSnoc(parts, part.value, " ");
          Associative(Join(parts, " "), " ", part.value);
          GrownTwice(g, old(compiler.order), before, compiler.order, ChainRules(acc.value), TermRules(term.value.node));
        }
        parts := parts + [part.value];
        acc := Some(if acc.None? then First(term.value.node) else Then(acc.value, term.value.node));
      }
      if |parts| == 0 {
        return None;
      }
      return Some(Join(parts, " "));
    }

    method ParseFactor() returns (r: Option<string>)
      requires Valid()
      modifies this, compiler
      ensures Advances()
      ensures r == TermPrinted(compiler.Rules(), compiler.visiting, tokens, old(position))
      ensures r.Some? ==>
                var Parsed(t, next) := ParseTerm(tokens, old(position)).value;
                position == next && Gathered(TermRules(t))
      decreases compiler.Rules().bodies.Keys - compiler.visiting, 1, |tokens| - position, 3
    {
      ghost var g, v := compiler.Rules(), compiler.visiting;
      var primary := ParsePrimary();
      ghost var parsed := LarkSyntax.ParsePrimary(tokens, old(position));
      if primary.None? {
        if parsed.Some? {
          TermLoopFails(g, v, tokens, Plain(parsed.value.node), parsed.value.next);
        }
        return None;
      }
      var emitted := primary.value;
      ghost var acc := Plain(parsed.value.node);
      while QuantifierOf(Peek(tokens, position)).Some?
        invariant Advances() && old(position) < position
        invariant ParseTerm(tokens, old(position)) == Some(TermLoop(tokens, acc, position))
        invariant ExpandTerm(g, v, acc).Some? && emitted == PrintTerm(g, acc)
        invariant Gathered(TermRules(acc))
        decreases |tokens| - position
      {
        var q := QuantifierOf(Peek(tokens, position)).value;
        var _ := Next();
        emitted := emitted + q.Sign();
        acc := Quantified(acc, q);
      }
      return Some(emitted);
    }

    method ParsePrimary() returns (r: Option<string>)
      requires Valid()
      modifies this, compiler
      ensures Advances()
      ensures r == PrimaryPrinted(compiler.Rules(), compiler.visiting, tokens, old(position))
      ensures r.Some? ==>
                var Parsed(p, next) := LarkSyntax.ParsePrimary(tokens, old(position)).value;
                position == next && Gathered(PrimaryRules(p))
      decreases compiler.Rules().bodies.Keys - compiler.visiting, 1, |tokens| - position, 2
    {
      var token := Next();
      match token {
        case Ident(text) =>
          var name := compiler.CompileRule(text);
          r := name;
        case String(text) =>
          var literal := compiler.lexicon.decode(text);
          r := if literal.None? then None else Some(Quote(compiler.lexicon.prints, literal.value));
        case Regex(text) =>
          r := Some(text);
        case LParen =>
          var expr := ParseAlternation();
          if expr.None? || !Peek(tokens, position).RParen? {
            return None;
          }
          var _ := Next();
          r := Some("(" + (expr.value + ")"));
        case _ =>
          r := None;
      }
    }
  }
}
