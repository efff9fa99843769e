/**
  A Lark constraint from its definition text to its two compiled forms, and their agreement
  (compileSupportedLarkToRegex, compileSupportedLarkToVLLMGrammar, compileCustomToolConstraint).
 */
module LarkConstraint {
  import opened Wrappers
  import opened Text
  import opened Languages
  import opened RegexText
  import opened RegexMeaning
  import opened RegexMatch
  import opened LarkSyntax
  import opened LarkLexer
  import opened LarkMeaning
  import opened LarkTable
  import opened LarkBuiltins
  import opened LarkGrammarText
  import opened LarkPrint
  import opened LarkTableText
  import opened LarkGrammar
  import opened LarkRegexCompiler
  import LarkGrammarCompiler

  /** The regular expression of a definition: its rule table read, and `start` inlined. */
  ghost function CompiledRegex(definition: string, lexicon: Lexicon): Option<string> {
    match TableOf(definition)
    case None => None
    case Some(t) => TextOf(ExpandName(GrammarOf(t, lexicon), {}, "start"))
  }

  method CompileToRegex(definition: string, lexicon: Lexicon) returns (r: Option<string>)
    ensures r == CompiledRegex(definition, lexicon)
  {
    var table := ReadDefinition(definition);
    if table.None? {
      return None;
    }
    var compiler := new LarkRegexCompiler.Compiler(table.value, lexicon);
    r := compiler.CompileRule("start");
  }

  method CompileToGrammar(definition: string, lexicon: Lexicon) returns (r: Option<string>, ghost order: seq<string>)
    ensures r.Some? <==> CompiledRegex(definition, lexicon).Some?
    ensures r.Some? ==>
              var g := GrammarOf(TableOf(definition).value, lexicon);
              && Listed(g, order) && r.value == GrammarText(Output(g, order))
  {
    order := [];
    var table := ReadDefinition(definition);
    if table.None? {
      return None, [];
    }
    var compiler := new LarkGrammarCompiler.Compiler(table.value, lexicon);
    var name := compiler.CompileRule("start");
    if name.None? {
      return None, [];
    }
    order := compiler.order;
    GrownIsListed(compiler.Rules(), order);
    var text := compiler.Emit();
    return Some(text), order;
  }

  datatype Limits = Limits(definitionBytes: int, patternBytes: int)

  datatype Constraint = Constraint(definition: string, pattern: string, grammar: string)

  /**
    The compiled constraint; `accepts` is what the regular-expression engine takes.  Where the
    regex back end succeeds the other cannot fail, so the error return after it is never taken.
   */
  method CompileConstraint(text: string, limits: Limits, lexicon: Lexicon, accepts: string -> bool)
    returns (r: Option<Constraint>, ghost order: seq<string>)
    ensures r.Some? <==>
              && TrimSpace(text) != "" && ByteLen(TrimSpace(text)) <= limits.definitionBytes
              && CompiledRegex(TrimSpace(text), lexicon).Some?
              && ByteLen(Anchored(CompiledRegex(TrimSpace(text), lexicon).value)) <= limits.patternBytes
              && accepts(Anchored(CompiledRegex(TrimSpace(text), lexicon).value))
    ensures r.Some? ==>
              var g := GrammarOf(TableOf(TrimSpace(text)).value, lexicon);
              && r.value.definition == TrimSpace(text)
              && CompiledRegex(TrimSpace(text), lexicon) == Some(r.value.pattern)
              && Listed(g, order) && r.value.grammar == GrammarText(Output(g, order))
  {
    order := [];
    var definition := TrimSpace(text);
    if definition == "" || ByteLen(definition) > limits.definitionBytes {
      return None, [];
    }
    var pattern := CompileToRegex(definition, lexicon);
    if pattern.None? {
      return None, [];
    }
    var grammar: Option<string>;
    grammar, order := CompileToGrammar(definition, lexicon);
    if grammar.None? {
      assert false;
    }
    var fits := FitsEngine(pattern.value, limits, accepts);
    if !fits {
      return None, [];
    }
    return Some(Constraint(definition, pattern.value, grammar.value)), order;
  }

  method FitsEngine(pattern: string, limits: Limits, accepts: string -> bool) returns (fits: bool)
    ensures fits <==> ByteLen(Anchored(pattern)) <= limits.patternBytes && accepts(Anchored(pattern))
  {
    AnchoredLonger(pattern);
    if ByteLen(pattern) > limits.patternBytes || ByteLen(Anchored(pattern)) > limits.patternBytes {
      return false;
    }
    return accepts(Anchored(pattern));
  }

  lemma AnchoredLonger(pattern: string)
    ensures ByteLen(pattern) <= ByteLen(Anchored(pattern))
  {
    ByteLenConcat("^(?:" + pattern, ")$");
    ByteLenConcat("^(?:", pattern);
  }

  // ---------------------------------------------------------------- the guardrail

  /** The guardrail searches the value for the anchored expression. */
  ghost predicate Validates(units: string -> Language, pattern: string, value: string) {
    MatchString(units, Anchored(pattern), value)
  }

  /**
    The rules listed: their regex literals have no bar outside groups, are plain, and quantified
    only where they are one factor; and the patterns they import are plain.
   */
  predicate LiteralsFit(g: Grammar, order: seq<string>) {
    forall n :: n in order ==>
      && (n in g.patterns ==> IsPlain(g.patterns[n]))
      && (g.HasBody(n) ==>
            && ChoiceAll(SelfContainedPattern, g.BodyOf(n))
            && ChoiceAll(PlainPattern, g.BodyOf(n))
            && ChoiceQuantifiable(g.BodyOf(n)))
  }

  /** Which name's built-in pattern a pattern of the table is. */
  lemma PatternOrigin(t: Table, lexicon: Lexicon, n: string) returns (k: string)
    requires WellFormedTable(t) && lexicon.builtins == BUILTINS && n in GrammarOf(t, lexicon).patterns
    ensures IsIdentifier(n) && k in BUILTINS && GrammarOf(t, lexicon).patterns[n] == BUILTINS[k]
  {
    if n in t.imports {
      assert t.imports[n] in BUILTINS.Values;
      k :| k in BUILTINS && BUILTINS[k] == t.imports[n];
    } else {
      BuiltinNames(n);
      k := n;
    }
  }

  /** A table that was read from a definition can be printed where its literals fit. */
  lemma ListedPrintable(definition: string, lexicon: Lexicon, order: seq<string>)
    requires TableOf(definition).Some? && lexicon.builtins == BUILTINS
    requires var g := GrammarOf(TableOf(definition).value, lexicon); Ordered(g, order) && LiteralsFit(g, order)
    ensures Printable(GrammarOf(TableOf(definition).value, lexicon), order)
  {
    var t := TableOf(definition).value;
    var g := GrammarOf(t, lexicon);
    TablesWellFormed(definition);
    forall n | n in order
      ensures IsIdentifier(n)
      ensures n in g.patterns ==> PrintablePattern(g.patterns[n])
      ensures g.HasBody(n) ==> PrintableChoice(g.BodyOf(n))
    {
      var i :| 0 <= i < |order| && order[i] == n;
      assert Usable(g, order[i]);
      if n in g.patterns {
        var k := PatternOrigin(t, lexicon, n);
        BuiltinsSelfContained(k);
        BuiltinFree(k);
      } else {
        RulesFine(definition, n);
      }
    }
  }

  /** The only imported pattern that is not read as it was meant is the quoted string. */
  lemma ImportPlainIff(definition: string, lexicon: Lexicon, n: string)
    requires TableOf(definition).Some? && lexicon.builtins == BUILTINS
    requires n in GrammarOf(TableOf(definition).value, lexicon).patterns
    ensures var g := GrammarOf(TableOf(definition).value, lexicon);
            IsPlain(g.patterns[n]) <==> g.patterns[n] != BUILTINS["ESCAPED_STRING"]
  {
    TablesWellFormed(definition);
    var k := PatternOrigin(TableOf(definition).value, lexicon, n);
    BuiltinPlainIff(k);
    QuotedBuiltin();
    BuiltinPlainIff("ESCAPED_STRING");
  }

  lemma QuotedBuiltin()
    ensures "ESCAPED_STRING" in BUILTINS
  {
    assert "ESCAPED_STRING" in NAMES && ShapeOf("ESCAPED_STRING").Some?;
  }

  /** Where literals can be pasted, the local guardrail accepts exactly the values that `start` derives. */
  lemma ValidatesIffDerives(definition: string, lexicon: Lexicon, units: string -> Language, reach: set<string>,
                            value: string)
    requires CompiledRegex(definition, lexicon).Some?
    requires Clean(GrammarOf(TableOf(definition).value, lexicon), reach) && "start" in reach
    ensures Validates(units, CompiledRegex(definition, lexicon).value, value) <==>
            Derives(GrammarOf(TableOf(definition).value, lexicon), units, "start", Whole(value))
  {
    var g := GrammarOf(TableOf(definition).value, lexicon);
    InliningPreservesLanguage(g, units, reach, "start", Whole(value));
    CleanCompiles(g, reach);
    AnchoredMatchesWhole(units, ExpandName(g, {}, "start").value.text, value);
  }

  /**
    For every definition that compiles: the local guardrail accepts exactly the values the rule
    table derives from `start`, and exactly those that the emitted text generates from `root`.
   */
  lemma GuardrailAgrees(definition: string, lexicon: Lexicon, units: string -> Language, order: seq<string>,
                        value: string)
    requires lexicon.builtins == BUILTINS && CompiledRegex(definition, lexicon).Some?
    requires var g := GrammarOf(TableOf(definition).value, lexicon);
             && Ordered(g, order) && |order| > 0 && order[|order| - 1] == "start"
             && LiteralsFit(g, order) && "root" !in order
    ensures var g := GrammarOf(TableOf(definition).value, lexicon);
            var pattern := CompiledRegex(definition, lexicon).value;
            && (Validates(units, pattern, value) <==> Derives(g, units, "start", Whole(value)))
            && (Validates(units, pattern, value) <==>
                TextGenerates(GrammarText(Output(g, order)), units, "root", Whole(value)))
  {
    var g := GrammarOf(TableOf(definition).value, lexicon);
    ListedPrintable(definition, lexicon, order);
    TextPreservesLanguage(g, units, order, Whole(value));
    ListedIsClean(g, order);
    var reach := set n | n in order;
    ValidatesIffDerives(definition, lexicon, units, reach, value);
  }

  /** With literals that can be pasted the final compilation is of a well-formed expression. */
  lemma CleanCompiles(g: Grammar, reach: set<string>)
    requires Clean(g, reach) && "start" in reach && ExpandName(g, {}, "start").Some?
    ensures var text := ExpandName(g, {}, "start").value.text; RegexOf(text).Some? && RegexOf(Anchored(text)).Some?
  {
    NameReads(g, reach, {}, "start");
    var f := ExpandName(g, {}, "start").value;
    PastesRegex(f.text, f.tree);
    AnchoredReads(f.text, Alternatives(NoAlternatives, f.tree));
    PastesRegex(Anchored(f.text), AnchoredTree(Alternatives(NoAlternatives, f.tree)));
  }

  /** Otherwise it can be refused: a literal that is one open parenthesis. */
  lemma OpenGroupRefused()
    ensures RegexOf(Anchored("(")).None?
  {
    AnchorsLex();
    LexSign("(?:", Open);
    EmptyGroup();
    assert Anchored("(") == "^" + "(?:" + "()" + "$";
    LexThen("^", [Leaf(Begin)], "(?:", [Open]);
    LexThen("^" + "(?:", [Leaf(Begin)] + [Open], "()", [Open, Close]);
    LexThen("^" + "(?:" + "()", [Leaf(Begin)] + [Open] + [Open, Close], "$", [Leaf(End)]);
    OpenRemains([Leaf(Begin)] + [Open] + [Open, Close] + [Leaf(End)]);
  }

  lemma LexThen(a: string, xs: seq<Lexeme>, b: string, ys: seq<Lexeme>)
    requires LexFrom(Ready, a) == Lexed(Ready, xs) && LexFrom(Ready, b) == Lexed(Ready, ys)
    ensures LexFrom(Ready, a + b) == Lexed(Ready, xs + ys)
  {
    LexConcat(Ready, a, b);
  }

  lemma AnchorsLex()
    ensures LexFrom(Ready, "^") == Lexed(Ready, [Leaf(Begin)]) && LexFrom(Ready, "$") == Lexed(Ready, [Leaf(End)])
  {
    assert "^"[1..] == "" && "$"[1..] == "";
  }

  lemma EmptyGroup()
    ensures LexFrom(Ready, "()") == Lexed(Ready, [Open, Close])
  {
    assert "()"[1..] == ")" && ")"[1..] == "";
    assert LexFrom(Opened, ")") == Lexed(Ready, [Open, Close]);
  }

  lemma OpenRemains(xs: seq<Lexeme>)
    requires xs == [Leaf(Begin), Open, Open, Close, Leaf(End)]
    ensures Read(true, xs).None?
  {
    var one := Bottom(Frame(NoAlternatives, Sequence(Empty, One(Begin))));
    assert xs[1..] == [Open, Open, Close, Leaf(End)] && xs[1..][1..] == [Open, Close, Leaf(End)];
    assert xs[1..][1..][1..] == [Close, Leaf(End)] && xs[1..][1..][1..][1..] == [Leaf(End)];
    var two := Nested(one, Frame(NoAlternatives, Empty));
    assert ReadFrom(true, two, [Open, Close, Leaf(End)]).Some? ==>
           ReadFrom(true, two, [Open, Close, Leaf(End)]).value.Nested?;
    assert ReadFrom(true, one, [Open, Open, Close, Leaf(End)]) == ReadFrom(true, two, [Open, Close, Leaf(End)]);
    assert ReadFrom(true, START, xs) == ReadFrom(true, one, xs[1..]);
  }

  lemma ListedIsClean(g: Grammar, order: seq<string>)
    requires Ordered(g, order) && Printable(g, order)
    ensures Clean(g, set n | n in order)
  {
    var reach := set n | n in order;
    forall n, m | n in reach && g.HasBody(n) && m in ChoiceRules(g.BodyOf(n))
      ensures m in reach
    {
      var i :| 0 <= i < |order| && order[i] == n;
      assert Refers(g, order[i], m);
    }
  }

  /** A definition compiles exactly when everything reachable from `start` is usable and acyclic. */
  lemma CompilesIffAcyclic(definition: string, lexicon: Lexicon)
    ensures CompiledRegex(definition, lexicon).Some? <==>
            TableOf(definition).Some? && AcyclicFrom(GrammarOf(TableOf(definition).value, lexicon), "start")
  {
    if TableOf(definition).Some? {
      ExpandsIffAcyclic(GrammarOf(TableOf(definition).value, lexicon), "start");
    }
  }
}
