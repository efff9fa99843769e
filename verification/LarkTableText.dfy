/** What the rule tables and the built-in patterns are made of, as far as printing them is concerned. */
module LarkTableText {
  import opened Wrappers
  import opened Text
  import opened Languages
  import opened RegexText
  import opened RegexMeaning
  import opened LarkSyntax
  import opened LarkLexer
  import opened LarkTable
  import opened LarkBuiltins
  import opened LarkGrammarText
  import opened LarkPrint

  // ---------------------------------------------------------------- tokens of a rule

  predicate TokenFine(t: Token) {
    (t.Regex? ==> Free(t.text, '\n')) && (t.Ident? ==> IsIdentifier(t.text)) && !t.Eof?
  }

  predicate TokensFine(tokens: seq<Token>) {
    forall i :: 0 <= i < |tokens| ==> TokenFine(tokens[i])
  }

  lemma SpelledFine(s: string, t: Token)
    requires Free(s, '\n') && Spells(s, t)
    ensures TokenFine(t)
  {
    if t.Regex? {
      assert s[1..|s| - 1] == t.text;
      FreePiece(s, 1, |s| - 1);
    }
  }

  lemma {:induction false} SpellingFine(s: string, tokens: seq<Token>)
    requires Free(s, '\n') && Spelling(s, tokens)
    ensures TokensFine(tokens)
    decreases s
  {
    if s != "" && IsSpace(s[0]) {
      FreePiece(s, 1, |s|);
      SpellingFine(s[1..], tokens);
    } else if tokens != [] {
      var n :| 0 < n <= |s| && Spells(s[..n], tokens[0]) && EndsBefore(tokens[0], s[n..]) &&
        Spelling(s[n..], tokens[1..]);
      FreePiece(s, 0, n);
      FreePiece(s, n, |s|);
      SpelledFine(s[..n], tokens[0]);
      SpellingFine(s[n..], tokens[1..]);
      assert tokens == [tokens[0]] + tokens[1..];
    }
  }

  lemma FinePieces(a: seq<Token>, b: seq<Token>)
    requires TokensFine(a + b)
    ensures TokensFine(a) && TokensFine(b)
  {
    forall i | 0 <= i < |a| ensures TokenFine(a[i]) { assert a[i] == (a + b)[i]; }
    forall i | 0 <= i < |b| ensures TokenFine(b[i]) { assert b[i] == (a + b)[|a| + i]; }
  }

  // ---------------------------------------------------------------- and of its tree

  lemma {:induction false} ChoiceFine(c: Choice)
    requires TokensFine(ChoiceTokens(c))
    ensures ChoiceAll(FreePattern, c) && Identifiers(ChoiceRules(c))
    decreases c
  {
    match c
    case Only(chain) => ChainFine(chain);
    case Or(init, last) =>
      FinePieces(ChoiceTokens(init) + [Pipe], ChainTokens(last));
      FinePieces(ChoiceTokens(init), [Pipe]);
      ChoiceFine(init);
      ChainFine(last);
  }

  lemma {:induction false} ChainFine(c: Chain)
    requires TokensFine(ChainTokens(c))
    ensures ChainAll(FreePattern, c) && Identifiers(ChainRules(c))
    decreases c
  {
    match c
    case First(t) => TermFine(t);
    case Then(init, last) =>
      FinePieces(ChainTokens(init), TermTokens(last));
      ChainFine(init);
      TermFine(last);
  }

  lemma {:induction false} TermFine(t: Term)
    requires TokensFine(TermTokens(t))
    ensures TermAll(FreePattern, t) && Identifiers(TermRules(t))
    decreases t
  {
    match t
    case Plain(Paren(c)) =>
      assert TermTokens(t) == [LParen] + ChoiceTokens(c) + [RParen];
      FinePieces([LParen] + ChoiceTokens(c), [RParen]);
      FinePieces([LParen], ChoiceTokens(c));
      ChoiceFine(c);
      assert TermRules(t) == ChoiceRules(c);
    case Plain(p) =>
      assert TokenFine(PrimaryTokens(p)[0]);
      assert TermRules(t) == PrimaryRules(p);
    case Quantified(u, q) =>
      FinePieces(TermTokens(u), [q.Token()]);
      TermFine(u);
  }

  // ---------------------------------------------------------------- the rules of a definition

  predicate FreeRules(rules: map<string, string>) {
    forall n :: n in rules ==> Free(rules[n], '\n')
  }

  lemma LineKeepsFree(st: LarkTable.Reader, line: string)
    requires Free(line, '\n') && FreeRules(st.table.rules) && LarkTable.ReadLine(st, line).Some?
    ensures FreeRules(LarkTable.ReadLine(st, line).value.table.rules)
  {
    var t := TrimSpace(line);
    TrimFree(line);
    if t != "" {
      FreePiece(t, 1, |t|);
      TrimFree(t[1..]);
    }
    var colon := IndexOf(t, ":");
    if colon.Some? {
      FreePiece(t, colon.value + 1, |t|);
      TrimFree(t[colon.value + 1..]);
    }
  }

  lemma {:induction false} LinesKeepFree(st: LarkTable.Reader, lines: seq<string>)
    requires AllFree(lines, '\n') && FreeRules(st.table.rules) && LarkTable.ReadLines(st, lines).Some?
    ensures FreeRules(LarkTable.ReadLines(st, lines).value.table.rules)
    decreases lines
  {
    if lines != [] {
      assert Free(lines[0], '\n');
      LineKeepsFree(st, lines[0]);
      forall i | 0 <= i < |lines[1..]| ensures Free(lines[1..][i], '\n') { assert Free(lines[i + 1], '\n'); }
      LinesKeepFree(LarkTable.ReadLine(st, lines[0]).value, lines[1..]);
    }
  }

  lemma {:induction false} StripFree(s: string)
    requires Free(s, '\n')
    ensures Free(StripAliases(s), '\n')
    decreases s
  {
    if s != "" {
      var n := AliasLength(s);
      FreePiece(s, n, |s|);
      FreePiece(s, 1, |s|);
      if n > 0 { StripFree(s[n..]); } else { StripFree(s[1..]); }
    }
  }

  /** In every rule of a definition patterns have no line break, and rules are named by identifiers. */
  lemma RulesFine(definition: string, name: string)
    requires TableOf(definition).Some? && name in TableOf(definition).value.rules
    requires ParseRule(TableOf(definition).value.rules[name]).Some?
    ensures var c := ParseRule(TableOf(definition).value.rules[name]).value;
            ChoiceAll(FreePattern, c) && Identifiers(ChoiceRules(c))
  {
    var rules := TableOf(definition).value.rules;
    SplitFree(definition, '\n');
    LinesKeepFree(NOTHING_READ, Split(definition, '\n'));
    ParsedFine(rules[name]);
  }

  lemma ParsedFine(expr: string)
    requires Free(expr, '\n') && ParseRule(expr).Some?
    ensures ChoiceAll(FreePattern, ParseRule(expr).value) && Identifiers(ChoiceRules(ParseRule(expr).value))
  {
    var s := StripAliases(expr);
    StripFree(expr);
    var tokens :| TokensOf(s) == Some(tokens + [Eof]) && Spelling(s, tokens);
    SpellingFine(s, tokens);
    var all := tokens + [Eof];
    var c := ParseExpr(all).value;
    assert all[..|all| - 1] == tokens;
    forall i | 0 <= i < |tokens| ensures tokens[i] != Eof { assert TokenFine(tokens[i]); }
    ParserDecidesGrammar(all, c);
    assert ChoiceTokens(c) == all[..|all| - 1];
    ChoiceFine(c);
  }

  // ---------------------------------------------------------------- built-in patterns

  /** The shape has a character that stands for itself in a pattern and not in a grammar. */
  predicate IsRough(s: Shape) {
    match s
    case Class(_, _, _) => false
    case Escape(_) => false
    case Char(c) => IsSpecial(c)
    case Chain(a, b) => IsRough(a) || IsRough(b)
    case Wrap(a) => IsRough(a)
    case Either(a, b) => IsRough(a) || IsRough(b)
    case Star(a) => IsRough(a)
    case Plus(a) => IsRough(a)
    case Maybe(a) => IsRough(a)
  }

  predicate Special(text: string) {
    HasSpecial(LexFrom(Ready, text).lexemes)
  }

  lemma SpecialConcat(a: string, b: string)
    requires LexFrom(Ready, a).state.Ready?
    ensures Special(a + b) <==> Special(a) || Special(b)
  {
    LexConcat(Ready, a, b);
    HasSpecialConcat(LexFrom(Ready, a).lexemes, LexFrom(Ready, b).lexemes);
  }

  lemma SignsFine(text: string, x: Lexeme)
    requires (text == "(?:" && x == Open) || (text == ")" && x == Close) || (text == "|" && x == Bar)
          || (text == "*" && x == Post(STAR)) || (text == "+" && x == Post(PLUS)) ||
             (text == "?" && x == Post(QUESTION))
    ensures LexFrom(Ready, text).state.Ready? && !Special(text)
  {
    LexSign(text, x);
  }

  lemma GroupSpecial(text: string)
    requires LexFrom(Ready, text).state.Ready?
    ensures Special("(?:" + text + ")") <==> Special(text)
  {
    SignsFine("(?:", Open);
    SignsFine(")", Close);
    LexConcat(Ready, "(?:", text);
    SpecialConcat("(?:", text);
    SpecialConcat("(?:" + text, ")");
  }

  lemma BarSpecial(a: string, b: string)
    requires LexFrom(Ready, a).state.Ready? && LexFrom(Ready, b).state.Ready?
    ensures LexFrom(Ready, a + "|" + b).state.Ready? && (Special(a + "|" + b) <==> Special(a) || Special(b))
  {
    SignsFine("|", Bar);
    LexConcat(Ready, a, "|");
    LexConcat(Ready, a + "|", b);
    SpecialConcat(a, "|");
    SpecialConcat(a + "|", b);
  }

  lemma {:induction false} ShapeSpecial(s: Shape)
    requires IsValid(s)
    ensures LexFrom(Ready, Render(s)).state.Ready? && (Special(Render(s)) <==> IsRough(s))
  {
    var t := ShapePastes(s);
    match s
    case Class(_, _, _) => ClassPastes(s);
    case Escape(c) => EscapePastes(c);
    case Char(c) => CharSpecial(c);
    case Chain(a, b) =>
      ShapeSpecial(a);
      ShapeSpecial(b);
      SpecialConcat(Render(a), Render(b));
    case Wrap(a) =>
      ShapeSpecial(a);
      GroupSpecial(Render(a));
    case Either(a, b) =>
      ShapeSpecial(a);
      ShapeSpecial(b);
      BarSpecial(Render(a), Render(b));
      GroupSpecial(Render(a) + "|" + Render(b));
    case Star(a) =>
      ShapeSpecial(a);
      SignsFine("*", Post(STAR));
      SpecialConcat(Render(a), "*");
    case Plus(a) =>
      ShapeSpecial(a);
      SignsFine("+", Post(PLUS));
      SpecialConcat(Render(a), "+");
    case Maybe(a) =>
      ShapeSpecial(a);
      SignsFine("?", Post(QUESTION));
      SpecialConcat(Render(a), "?");
  }

  lemma CharSpecial(c: char)
    requires c == '"' || c == '.'
    ensures Special([c]) <==> IsSpecial(c)
  {
    assert [c][1..] == "";
    assert LexFrom(Ready, [c]).lexemes == [Leaf(Unit([c]))];
    assert IsSpecialUnit(LexFrom(Ready, [c]).lexemes[0]) <==> IsSpecial(c);
  }

  lemma NumbersSmooth(name: string)
    requires NumberShape(name).Some?
    ensures !IsRough(NumberShape(name).value)
  {
    assert !IsRough(DIGITS) && !IsRough(SIGN) && !IsRough(MARK) && !IsRough(TAIL);
    assert !IsRough(EXPONENT) && !IsRough(FRACTION) && !IsRough(WHOLE);
    assert !IsRough(DECIMAL) && !IsRough(FLOAT) && !IsRough(NUMBER);
  }

  lemma WordsSmooth(name: string)
    ensures SpaceShape(name).Some? ==> !IsRough(SpaceShape(name).value)
    ensures WordShape(name).Some? ==> (IsRough(WordShape(name).value) <==> name == "ESCAPED_STRING")
  {
    assert IsRough(Char('"'));
    assert IsRough(QUOTED);
  }

  /** Of the built-in patterns all can be printed into a grammar but the quoted string. */
  lemma BuiltinPlainIff(name: string)
    requires name in BUILTINS
    ensures IsPlain(BUILTINS[name]) <==> name != "ESCAPED_STRING"
  {
    ShapeRough(name);
    ShapeSpecial(ShapeOf(name).value);
    PlainIffNoSpecial(Ready, BUILTINS[name]);
  }

  lemma ShapeRough(name: string)
    requires ShapeOf(name).Some?
    ensures IsValid(ShapeOf(name).value) && (IsRough(ShapeOf(name).value) <==> name == "ESCAPED_STRING")
  {
    if NumberShape(name).Some? {
      NumbersValid(name);
      NumbersSmooth(name);
    } else {
      WordsValid(name);
      WordsSmooth(name);
    }
  }

  predicate FreeShape(s: Shape) {
    match s
    case Class(_, plain, escapes) => Free(plain, '\n') && Free(escapes, '\n')
    case Escape(c) => c != '\n'
    case Char(c) => c != '\n'
    case Chain(a, b) => FreeShape(a) && FreeShape(b)
    case Wrap(a) => FreeShape(a)
    case Either(a, b) => FreeShape(a) && FreeShape(b)
    case Star(a) => FreeShape(a)
    case Plus(a) => FreeShape(a)
    case Maybe(a) => FreeShape(a)
  }

  lemma {:induction false} EscapesFree(s: string)
    requires Free(s, '\n')
    ensures Free(Escapes(s), '\n')
    decreases s
  {
    if s != "" {
      assert s[0] in s;
      FreePiece(s, 1, |s|);
      EscapesFree(s[1..]);
    }
  }

  lemma {:induction false} ShapeFree(s: Shape)
    requires FreeShape(s)
    ensures Free(Render(s), '\n')
  {
    match s
    case Class(_, plain, escapes) => EscapesFree(escapes);
    case Escape(c) =>
    case Char(c) =>
    case Chain(a, b) =>
      ShapeFree(a);
      ShapeFree(b);
    case Wrap(a) => ShapeFree(a);
    case Either(a, b) =>
      ShapeFree(a);
      ShapeFree(b);
    case Star(a) => ShapeFree(a);
    case Plus(a) => ShapeFree(a);
    case Maybe(a) => ShapeFree(a);
  }

  lemma NumbersFree(name: string)
    requires NumberShape(name).Some?
    ensures FreeShape(NumberShape(name).value)
  {
    ExponentsFree();
    assert FreeShape(WHOLE) && FreeShape(DECIMAL);
    assert FreeShape(FLOAT) && FreeShape(NUMBER);
  }

  lemma ExponentsFree()
    ensures FreeShape(DIGITS) && FreeShape(SIGN) && FreeShape(HEXDIGIT)
    ensures FreeShape(TAIL) && FreeShape(MARK) && FreeShape(EXPONENT) && FreeShape(FRACTION)
  {
    assert Free("0-9", '\n') && Free("-+", '\n') && Free("eE", '\n') && Free("0-9A-Fa-f", '\n');
    assert FreeShape(DIGIT) && FreeShape(DIGITS) && FreeShape(SIGN);
    assert FreeShape(TAIL) && FreeShape(MARK);
  }

  lemma WordsFree(name: string)
    ensures SpaceShape(name).Some? ==> FreeShape(SpaceShape(name).value)
    ensures WordShape(name).Some? ==> FreeShape(WordShape(name).value)
  {
    assert FreeShape(STRING_UNIT) && FreeShape(QUOTED);
  }

  lemma BuiltinFree(name: string)
    requires name in BUILTINS
    ensures Free(BUILTINS[name], '\n')
  {
    if NumberShape(name).Some? { NumbersFree(name); } else { WordsFree(name); }
    ShapeFree(ShapeOf(name).value);
  }

  lemma BuiltinNames(name: string)
    requires name in BUILTINS
    ensures IsIdentifier(name)
  {
    ShapeNames(name);
  }

  lemma ShapeNames(name: string)
    requires ShapeOf(name).Some?
    ensures IsIdentifier(name)
  {
    if NumberShape(name).Some? { NumberNames(); }
    else if SpaceShape(name).Some? { SpaceNames(); }
    else { WordNames(); }
  }

  lemma NumberNames()
    ensures IsIdentifier("DECIMAL") && IsIdentifier("DIGIT") && IsIdentifier("FLOAT") && IsIdentifier("HEXDIGIT")
    ensures IsIdentifier("INT") && IsIdentifier("NUMBER")
    ensures IsIdentifier("SIGNED_FLOAT") && IsIdentifier("SIGNED_INT") && IsIdentifier("SIGNED_NUMBER")
  {
  }

  lemma SpaceNames()
    ensures IsIdentifier("CR") && IsIdentifier("CRLF") && IsIdentifier("LF") && IsIdentifier("NEWLINE")
    ensures IsIdentifier("WS") && IsIdentifier("WS_INLINE")
  {
  }

  lemma WordNames()
    ensures IsIdentifier("CNAME") && IsIdentifier("ESCAPED_STRING") && IsIdentifier("LETTER") && IsIdentifier("WORD")
  {
  }
}
