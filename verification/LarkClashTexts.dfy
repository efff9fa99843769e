/** The same failing families as definition texts: what is written, read, compiled and emitted. */
module LarkClashTexts {
  import opened Wrappers
  import opened Text
  import opened Languages
  import opened RegexMeaning
  import opened LarkSyntax
  import opened LarkLexer
  import opened LarkMeaning
  import opened LarkBuiltins
  import opened LarkTable
  import LarkGrammarText
  import opened LarkGrammar
  import opened LarkClashes
  import opened LarkConstraint

  // ---------------------------------------------------------------- reading rule lines

  function RuleText(name: string, expr: string): string {
    name + ": " + expr
  }

  lemma ColonFound(name: string, rest: string)
    requires ':' !in name
    ensures IndexOf(name + ":" + rest, ":") == Some(|name|)
  {
    var s := name + ":" + rest;
    assert OccursAt(s, ":", |name|);
    var k := IndexOf(s, ":").value;
    assert s[k..k + 1][0] == s[k] == ':';
  }

  /** What may stand behind the colon of a rule, and survives the trimming. */
  predicate IsExpr(expr: string) {
    expr != "" && IsTrimmed(expr) && Free(expr, '\n')
  }

  /** A line that starts like a name is no comment, no directive and no further alternative. */
  lemma StartsLikeName(line: string)
    requires line != "" && IsIdentStart(line[0])
    ensures !("//" <= line) && !("#" <= line) && !("%ignore" <= line) && !("%import" <= line)
    ensures !("%declare" <= line) && !("|" <= line)
  {
  }

  lemma RuleParts(name: string, expr: string)
    requires IsIdentifier(name) && IsExpr(expr)
    ensures var line := RuleText(name, expr);
            && TrimSpace(line) == line && line != "" && IsIdentStart(line[0])
            && IndexOf(line, ":") == Some(|name|) && line[..|name|] == name
            && TrimSpace(line[|name| + 1..]) == expr
  {
    var line := RuleText(name, expr);
    assert line[0] == name[0] && line[|line| - 1] == expr[|expr| - 1];
    TrimOfTrimmed(line);
    assert ':' !in name;
    ColonFound(name, " " + expr);
    assert line == name + ":" + (" " + expr);
    assert line[..|name|] == name && line[|name| + 1..] == " " + expr;
    BlankFirst(expr);
  }

  lemma RuleRead(st: Reader, name: string, expr: string)
    requires IsIdentifier(name) && IsExpr(expr)
    ensures LarkTable.ReadLine(st, RuleText(name, expr)) ==
            Some(Reader(Table(st.table.rules[name := expr], st.table.imports), name))
  {
    RuleParts(name, expr);
    NameTrimmed(name);
    StartsLikeName(RuleText(name, expr));
  }

  lemma OneRead(st: Reader, line: string, next: Reader)
    requires LarkTable.ReadLine(st, line) == Some(next)
    ensures LarkTable.ReadLines(st, [line]) == Some(next)
  {
    assert [line][1..] == [];
  }

  lemma TwoRead(st: Reader, a: string, next: Reader, b: string, last: Reader)
    requires LarkTable.ReadLine(st, a) == Some(next) && LarkTable.ReadLine(next, b) == Some(last)
    ensures LarkTable.ReadLines(st, [a, b]) == Some(last)
  {
    assert [a, b][1..] == [b];
    OneRead(next, b, last);
  }

  lemma NameTrimmed(name: string)
    requires IsIdentifier(name)
    ensures TrimSpace(name) == name
  {
    assert name[|name| - 1] in name;
    TrimOfTrimmed(name);
  }

  lemma BlankFirst(expr: string)
    requires expr != "" && IsTrimmed(expr)
    ensures TrimSpace(" " + expr) == expr
  {
    assert " " + expr == " " + expr + "";
    TrimAround(" ", expr, "");
  }

  lemma OneRuleTable(expr: string)
    requires IsExpr(expr)
    ensures TableOf(RuleText("start", expr)) == Some(Table(map["start" := expr], map[]))
  {
    var line := RuleText("start", expr);
    assert IsIdentifier("start");
    LineFree("start", expr);
    SplitPiece(line, '\n', "");
    RuleRead(NOTHING_READ, "start", expr);
    var next := Reader(Table(NOTHING_READ.table.rules["start" := expr], map[]), "start");
    OneRead(NOTHING_READ, line, next);
    assert next.table.rules == map["start" := expr];
  }

  lemma LineFree(name: string, expr: string)
    requires IsIdentifier(name) && IsExpr(expr)
    ensures Free(RuleText(name, expr), '\n')
  {
    forall i | 0 <= i < |name| ensures name[i] != '\n' { assert name[i] in name; }
  }

  function TwoRules(start: string, name: string, expr: string): string {
    RuleText("start", start) + "\n" + RuleText(name, expr)
  }

  lemma TwoRulesTable(start: string, name: string, expr: string)
    requires IsExpr(start) && IsIdentifier(name) && name != "start" && IsExpr(expr)
    ensures TableOf(TwoRules(start, name, expr)) == Some(Table(map["start" := start, name := expr], map[]))
  {
    var a, b := RuleText("start", start), RuleText(name, expr);
    var st := Reader(Table(NOTHING_READ.table.rules["start" := start], map[]), "start");
    var last := Reader(Table(st.table.rules[name := expr], map[]), name);
    assert IsIdentifier("start");
    RuleRead(NOTHING_READ, "start", start);
    RuleRead(st, name, expr);
    TwoRead(NOTHING_READ, a, st, b, last);
    LineFree("start", start);
    LineFree(name, expr);
    TwoLines(a, b);
    assert last.table.rules == map["start" := start, name := expr];
  }

  lemma TwoLines(a: string, b: string)
    requires Free(a, '\n') && Free(b, '\n')
    ensures Split(a + "\n" + b, '\n') == [a, b]
  {
    SplitPiece(a, '\n', b);
    SplitPiece(b, '\n', "");
    assert a + ['\n'] + b == a + "\n" + b;
  }

  // ---------------------------------------------------------------- spelling expressions

  lemma SpellOne(s: string, t: Token)
    requires Spells(s, t)
    ensures Spelling(s, [t])
  {
    SpellsStart(s, t);
    assert s[..|s|] == s && s[|s|..] == "";
    assert EndsBefore(t, "") && Spelling("", []) && [t][1..] == [];
  }

  lemma SpellThen(s: string, t: Token, rest: string, tokens: seq<Token>)
    requires Spells(s, t) && EndsBefore(t, rest) && Spelling(rest, tokens)
    ensures Spelling(s + rest, [t] + tokens)
  {
    SpellsStart(s, t);
    var all := s + rest;
    assert all[0] == s[0] && all[..|s|] == s && all[|s|..] == rest && ([t] + tokens)[1..] == tokens;
  }

  lemma SpellBlank(s: string, tokens: seq<Token>)
    requires Spelling(s, tokens)
    ensures Spelling(" " + s, tokens)
  {
    assert (" " + s)[1..] == s;
  }

  lemma BlankEnds(t: Token, rest: string)
    ensures EndsBefore(t, " " + rest)
  {
    assert (" " + rest)[0] == ' ';
  }

  /** Two tokens with a blank between them. */
  lemma SpellTwo(a: string, t: Token, b: string, u: Token)
    requires Spells(a, t) && Spells(b, u)
    ensures Spelling(a + " " + b, [t, u])
  {
    var rest := " " + b;
    assert Spelling(rest, [u]) by {
      SpellOne(b, u);
      SpellBlank(b, [u]);
    }
    BlankEnds(t, b);
    assert a + " " + b == a + rest && [t, u] == [t] + [u];
    SpellThen(a, t, rest, [u]);
  }

  /** Letters, digits, underscores and blanks: nothing that a regex literal treats specially. */
  predicate IsTame(text: string) {
    forall i :: 0 <= i < |text| ==> IsIdentPart(text[i]) || text[i] == ' '
  }

  lemma {:induction false} NothingEscaped(s: string, i: nat)
    requires 1 <= i <= |s| && forall k :: 1 <= k < i ==> s[k] != '\\'
    ensures !Escaped(s, 1, i)
    decreases i
  {
    if i > 1 { NothingEscaped(s, i - 1); }
  }

  lemma TameSpells(text: string)
    requires IsTame(text)
    ensures Spells("/" + text + "/", Regex(text))
  {
    var s := "/" + text + "/";
    assert forall k :: 1 <= k < |s| - 1 ==> s[k] == text[k - 1];
    NothingEscaped(s, |s| - 1);
    assert ClosesAt(s, '/', 0, |s| - 1);
  }

  lemma ParsesTo(expr: string, tokens: seq<Token>, c: Choice)
    requires Spelling(expr, tokens) && tokens == ChoiceTokens(c) && Eof !in tokens
    requires forall k: nat :: !OccursAt(expr, "->", k)
    ensures ParseRule(expr) == Some(c)
  {
    NoArrowNoAlias(expr);
    assert Spellable(expr);
    var found :| Spelling(expr, found) && TokensOf(expr) == Some(found + [Eof]);
    SpellingUnique(expr, found, tokens);
    var all := tokens + [Eof];
    assert all[..|all| - 1] == tokens;
    ParserDecidesGrammar(all, c);
  }

  lemma ArrowHasDash(expr: string, k: nat)
    ensures OccursAt(expr, "->", k) ==> '-' in expr
  {
    if OccursAt(expr, "->", k) {
      assert expr[k..k + 2][0] == expr[k];
    }
  }

  lemma NoDashNoArrow(expr: string)
    requires '-' !in expr
    ensures forall k: nat :: !OccursAt(expr, "->", k)
  {
    forall k: nat ensures !OccursAt(expr, "->", k) {
      ArrowHasDash(expr, k);
    }
  }

  // ---------------------------------------------------------------- from a definition to its rules

  lemma LowerIsFree(name: string)
    requires name != "" && 'a' <= name[0] <= 'z'
    ensures name !in BUILTINS
  {
    assert name !in NAMES;
  }

  lemma NoBuiltins()
    ensures "start" !in BUILTINS && "root" !in BUILTINS
  {
    LowerIsFree("start");
    LowerIsFree("root");
  }

  lemma TableHasRule(t: Table, lexicon: Lexicon, name: string, c: Choice)
    requires lexicon.builtins == BUILTINS && name !in BUILTINS && t.imports == map[] && name in t.rules
    requires ParseRule(t.rules[name]) == Some(c)
    ensures HasRule(GrammarOf(t, lexicon), name, c)
  {
  }

  ghost function GrammarIn(definition: string, lexicon: Lexicon): Grammar
    requires TableOf(definition).Some?
  {
    GrammarOf(TableOf(definition).value, lexicon)
  }

  lemma OneRuleGrammar(expr: string, c: Choice, lexicon: Lexicon)
    requires lexicon.builtins == BUILTINS && IsExpr(expr) && ParseRule(expr) == Some(c)
    ensures TableOf(RuleText("start", expr)).Some?
    ensures HasRule(GrammarIn(RuleText("start", expr), lexicon), "start", c)
  {
    OneRuleTable(expr);
    NoBuiltins();
    TableHasRule(TableOf(RuleText("start", expr)).value, lexicon, "start", c);
  }

  lemma TwoRulesGrammar(start: string, c: Choice, name: string, expr: string, d: Choice, lexicon: Lexicon)
    requires lexicon.builtins == BUILTINS && name !in BUILTINS && IsIdentifier(name) && name != "start"
    requires IsExpr(start) && ParseRule(start) == Some(c) && IsExpr(expr) && ParseRule(expr) == Some(d)
    ensures TableOf(TwoRules(start, name, expr)).Some?
    ensures var g := GrammarIn(TwoRules(start, name, expr), lexicon); HasRule(g, "start", c) && HasRule(g, name, d)
  {
    TwoRulesTable(start, name, expr);
    NoBuiltins();
    var t := TableOf(TwoRules(start, name, expr)).value;
    TableHasRule(t, lexicon, "start", c);
    TableHasRule(t, lexicon, name, d);
  }

  /** The definition compiles, and whatever list its grammar is printed from, this is the text. */
  ghost predicate Emits(definition: string, lexicon: Lexicon, text: string) {
    && CompiledRegex(definition, lexicon).Some?
    && forall order :: Listed(GrammarIn(definition, lexicon), order) ==>
                         GrammarText(Output(GrammarIn(definition, lexicon), order)) == text
  }

  lemma EmitsTwo(definition: string, lexicon: Lexicon, f: string)
    requires TableOf(definition).Some? && ExpandName(GrammarIn(definition, lexicon), {}, "start").Some?
    requires Listed(GrammarIn(definition, lexicon), [f, "start"])
    ensures Emits(definition, lexicon, GrammarText(Output(GrammarIn(definition, lexicon), [f, "start"])))
  {
    var g := GrammarIn(definition, lexicon);
    forall order | Listed(g, order) ensures order == [f, "start"] {
      ListedUnique(g, f, order);
    }
  }

  lemma EmitsOne(definition: string, lexicon: Lexicon)
    requires TableOf(definition).Some? && ExpandName(GrammarIn(definition, lexicon), {}, "start").Some?
    requires Listed(GrammarIn(definition, lexicon), ["start"])
    ensures Emits(definition, lexicon, GrammarText(Output(GrammarIn(definition, lexicon), ["start"])))
  {
    var g := GrammarIn(definition, lexicon);
    forall order | Listed(g, order) ensures order == ["start"] {
      ListedAlone(g, order);
    }
  }

  // ---------------------------------------------------------------- a string literal as a rule

  ghost predicate IsLiteral(raw: string) {
    Spells(raw, String(raw)) && Free(raw, '\n') && forall k: nat :: !OccursAt(raw, "->", k)
  }

  lemma LiteralParses(raw: string)
    requires IsLiteral(raw)
    ensures IsExpr(raw) && ParseRule(raw) == Some(Alone(Plain(Literal(raw))))
  {
    SpellOne(raw, String(raw));
    AloneTokens(Plain(Literal(raw)));
    ParsesTo(raw, [String(raw)], Alone(Plain(Literal(raw))));
  }

  lemma AloneTokens(t: Term)
    ensures ChoiceTokens(Alone(t)) == TermTokens(t)
  {
    assert ChainTokens(First(t)) == TermTokens(t);
  }

  lemma TwoTokens(t: Term, u: Term)
    ensures ChoiceTokens(Two(t, u)) == TermTokens(t) + TermTokens(u)
  {
    assert ChainTokens(First(t)) == TermTokens(t);
  }

  // ---------------------------------------------------------------- the families

  lemma NameIsTame(f: string)
    requires IsIdentifier(f)
    ensures IsTame(f) && '-' !in f && Free(f, '\n')
  {
    forall i | 0 <= i < |f| ensures IsIdentPart(f[i]) { assert f[i] in f; }
  }

  lemma TwoIsExpr(a: string, b: string)
    requires a != "" && !IsSpace(a[0]) && Free(a, '\n') && '-' !in a
    requires b != "" && !IsSpace(b[|b| - 1]) && Free(b, '\n') && '-' !in b
    ensures IsExpr(a + " " + b) && '-' !in a + " " + b
  {
    var expr := a + " " + b;
    assert expr[0] == a[0] && expr[|expr| - 1] == b[|b| - 1];
  }

  lemma TwoExpr(a: string, t: Token, b: string, u: Token, c: Choice)
    requires Spells(a, t) && Spells(b, u) && Free(a, '\n') && Free(b, '\n') && '-' !in a && '-' !in b
    requires !t.Eof? && !u.Eof? && ChoiceTokens(c) == [t, u] && b != "" && !IsSpace(b[|b| - 1])
    ensures IsExpr(a + " " + b) && ParseRule(a + " " + b) == Some(c)
  {
    SpellsStart(a, t);
    TwoIsExpr(a, b);
    SpellTwo(a, t, b, u);
    NoDashNoArrow(a + " " + b);
    ParsesTo(a + " " + b, [t, u], c);
  }

  lemma NameAsPatternParses(f: string)
    requires IsIdentifier(f)
    ensures var expr := "/" + f + "/" + " " + f;
            IsExpr(expr) && ParseRule(expr) == Some(Two(Plain(Pattern(f)), Plain(Rule(f))))
  {
    NameIsTame(f);
    TameSpells(f);
    TwoTokens(Plain(Pattern(f)), Plain(Rule(f)));
    assert f[|f| - 1] in f;
    TwoExpr("/" + f + "/", Regex(f), f, Ident(f), Two(Plain(Pattern(f)), Plain(Rule(f))));
  }

  lemma NameTwiceParses(f: string)
    requires IsIdentifier(f)
    ensures IsExpr(f + " " + f) && ParseRule(f + " " + f) == Some(Two(Plain(Rule(f)), Plain(Rule(f))))
  {
    NameIsTame(f);
    TwoTokens(Plain(Rule(f)), Plain(Rule(f)));
    assert f[|f| - 1] in f;
    TwoExpr(f, Ident(f), f, Ident(f), Two(Plain(Rule(f)), Plain(Rule(f))));
  }

  /**
    `start: /f/ f` and `start: f f`, each with `f: raw`: both compile, the same text is emitted for both,
    and one derives a word that the other does not.  For every rule name but those of built-in patterns.
   */
  lemma NamesCollideInText(f: string, raw: string, v: string, lexicon: Lexicon, units: string -> Language)
    requires lexicon.builtins == BUILTINS && IsIdentifier(f) && f !in BUILTINS && f != "start"
    requires IsLiteral(raw) && lexicon.decode(raw) == Some(v) && v != f
    ensures var p, q := TwoRules("/" + f + "/" + " " + f, f, raw), TwoRules(f + " " + f, f, raw);
            && TableOf(p).Some? && TableOf(q).Some?
            && (exists text :: Emits(p, lexicon, text) && Emits(q, lexicon, text))
            && Derives(GrammarIn(p, lexicon), units, "start", Whole(f + v))
            && !Derives(GrammarIn(q, lexicon), units, "start", Whole(f + v))
  {
    var a, b := "/" + f + "/" + " " + f, f + " " + f;
    NameAsPatternParses(f);
    NameTwiceParses(f);
    LiteralParses(raw);
    TwoRulesGrammar(a, Two(Plain(Pattern(f)), Plain(Rule(f))), f, raw, Alone(Plain(Literal(raw))), lexicon);
    TwoRulesGrammar(b, Two(Plain(Rule(f)), Plain(Rule(f))), f, raw, Alone(Plain(Literal(raw))), lexicon);
    var p, q := TwoRules(a, f, raw), TwoRules(b, f, raw);
    var g, h := GrammarIn(p, lexicon), GrammarIn(q, lexicon);
    NamesCollide(g, h, f, raw, v, units);
    EmitsTwo(p, lexicon, f);
    EmitsTwo(q, lexicon, f);
  }

  lemma TameFree(text: string)
    requires IsTame(text)
    ensures Free(text, '\n') && '-' !in text
  {
  }

  lemma TamePattern(text: string)
    requires IsTame(text)
    ensures var expr := "/" + text + "/"; IsExpr(expr) && ParseRule(expr) == Some(Alone(Plain(Pattern(text))))
  {
    var expr := "/" + text + "/";
    TameFree(text);
    TameSpells(text);
    SpellOne(expr, Regex(text));
    AloneTokens(Plain(Pattern(text)));
    assert '-' !in expr;
    NoDashNoArrow(expr);
    ParsesTo(expr, [Regex(text)], Alone(Plain(Pattern(text))));
  }

  lemma TamePatterns(u: string, v: string)
    requires IsTame(u) && IsTame(v)
    ensures var expr := "/" + u + "/" + " " + ("/" + v + "/");
            IsExpr(expr) && ParseRule(expr) == Some(Two(Plain(Pattern(u)), Plain(Pattern(v))))
  {
    TameFree(u);
    TameFree(v);
    TameSpells(u);
    TameSpells(v);
    TwoTokens(Plain(Pattern(u)), Plain(Pattern(v)));
    TwoExpr("/" + u + "/", Regex(u), "/" + v + "/", Regex(v), Two(Plain(Pattern(u)), Plain(Pattern(v))));
  }

  lemma WordsPlain(u: string, v: string)
    requires (forall c :: c in u ==> IsIdentPart(c)) && forall c :: c in v ==> IsIdentPart(c)
    ensures QuoteMeta(u) == u && QuoteMeta(v) == v && Spaced(u, v) == u + " " + v
    ensures IsTame(u) && IsTame(v) && IsTame(u + " " + v)
  {
    QuoteOfName(u);
    QuoteOfName(v);
    forall i | 0 <= i < |u| ensures IsIdentPart(u[i]) { assert u[i] in u; }
    forall i | 0 <= i < |v| ensures IsIdentPart(v[i]) { assert v[i] in v; }
  }

  /** `start: /u v/` and `start: /u/ /v/`, for all words of letters, digits and underscores. */
  lemma BlanksCollideInText(u: string, v: string, lexicon: Lexicon, units: string -> Language)
    requires lexicon.builtins == BUILTINS
    requires (forall c :: c in u ==> IsIdentPart(c)) && forall c :: c in v ==> IsIdentPart(c)
    ensures var p := RuleText("start", "/" + (u + " " + v) + "/");
            var q := RuleText("start", "/" + u + "/" + " " + ("/" + v + "/"));
            && TableOf(p).Some? && TableOf(q).Some?
            && (exists text :: Emits(p, lexicon, text) && Emits(q, lexicon, text))
            && Derives(GrammarIn(p, lexicon), units, "start", Whole(u + " " + v))
            && !Derives(GrammarIn(q, lexicon), units, "start", Whole(u + " " + v))
  {
    var a, b := "/" + (u + " " + v) + "/", "/" + u + "/" + " " + ("/" + v + "/");
    WordsPlain(u, v);
    TamePattern(u + " " + v);
    TamePatterns(u, v);
    OneRuleGrammar(a, Alone(Plain(Pattern(u + " " + v))), lexicon);
    OneRuleGrammar(b, Two(Plain(Pattern(u)), Plain(Pattern(v))), lexicon);
    BlanksEmit(RuleText("start", a), RuleText("start", b), u, v, lexicon, units);
  }

  lemma BlanksEmit(p: string, q: string, u: string, v: string, lexicon: Lexicon, units: string -> Language)
    requires TableOf(p).Some? && HasRule(GrammarIn(p, lexicon), "start", Alone(Plain(Pattern(Spaced(u, v)))))
    requires TableOf(q).Some?
    requires HasRule(GrammarIn(q, lexicon), "start", Two(Plain(Pattern(QuoteMeta(u))), Plain(Pattern(QuoteMeta(v)))))
    ensures (exists text :: Emits(p, lexicon, text) && Emits(q, lexicon, text))
    ensures Derives(GrammarIn(p, lexicon), units, "start", Whole(u + " " + v))
    ensures !Derives(GrammarIn(q, lexicon), units, "start", Whole(u + " " + v))
  {
    BlanksCollide(GrammarIn(p, lexicon), GrammarIn(q, lexicon), u, v, units);
    EmitsOne(p, lexicon);
    EmitsOne(q, lexicon);
  }

  lemma StarredParses(v: string)
    requires IsTame(v)
    ensures var expr := "/" + v + "/" + "*";
            IsExpr(expr) && ParseRule(expr) == Some(Alone(Quantified(Plain(Pattern(v)), ZeroOrMore)))
  {
    var expr := "/" + v + "/" + "*";
    TameFree(v);
    TameSpells(v);
    SpellOne("*", Token.Star);
    SpellThen("/" + v + "/", Regex(v), "*", [Token.Star]);
    assert [Regex(v)] + [Token.Star] == [Regex(v), Token.Star];
    AloneTokens(Quantified(Plain(Pattern(v)), ZeroOrMore));
    assert TermTokens(Plain(Pattern(v))) == [Regex(v)];
    assert '-' !in expr;
    NoDashNoArrow(expr);
    ParsesTo(expr, [Regex(v), Token.Star], Alone(Quantified(Plain(Pattern(v)), ZeroOrMore)));
  }

  /** A starred pattern of two or more digits: `root` generates the digits with the last one twice. */
  lemma StarredTextDiffers(v: string, lexicon: Lexicon, units: string -> Language)
    requires lexicon.builtins == BUILTINS && |v| >= 2 && forall c :: c in v ==> '0' <= c <= '9'
    ensures var p := RuleText("start", "/" + v + "/" + "*");
            var w := v + [v[|v| - 1]];
            && TableOf(p).Some?
            && (exists text :: Emits(p, lexicon, text) && TextGenerates(text, units, "root", Whole(w)))
            && !Derives(GrammarIn(p, lexicon), units, "start", Whole(w))
  {
    var expr := "/" + v + "/" + "*";
    DigitsPlain(v);
    StarredParses(v);
    OneRuleGrammar(expr, Starred(v), lexicon);
    StarredEmits(RuleText("start", expr), v, lexicon, units);
  }

  lemma DigitsPlain(v: string)
    requires forall c :: c in v ==> '0' <= c <= '9'
    ensures QuoteMeta(v) == v && IsTame(v) && IsPlainWord(v)
  {
    forall i | 0 <= i < |v| ensures IsIdentPart(v[i]) && !LarkGrammarText.IsSpecial(v[i]) {
      assert v[i] in v;
      DigitIsPlain(v[i]);
    }
    QuoteOfName(v);
  }

  lemma DigitIsPlain(c: char)
    requires '0' <= c <= '9'
    ensures IsIdentPart(c) && !LarkGrammarText.IsSpecial(c)
  {
  }

  lemma StarredEmits(p: string, v: string, lexicon: Lexicon, units: string -> Language)
    requires TableOf(p).Some? && HasRule(GrammarIn(p, lexicon), "start", Starred(v)) && IsPlainWord(v) && |v| >= 2
    ensures var w := v + [v[|v| - 1]];
            && (exists text :: Emits(p, lexicon, text) && TextGenerates(text, units, "root", Whole(w)))
            && !Derives(GrammarIn(p, lexicon), units, "start", Whole(w))
  {
    StarredPatternDiffers(GrammarIn(p, lexicon), v, units);
    EmitsOne(p, lexicon);
  }

  lemma RootParses(raw: string)
    requires IsLiteral(raw) && '-' !in raw
    ensures IsExpr(raw + " " + "root")
    ensures ParseRule(raw + " " + "root") == Some(Two(Plain(Literal(raw)), Plain(Rule("root"))))
  {
    assert IsIdentifier("root");
    TwoTokens(Plain(Literal(raw)), Plain(Rule("root")));
    TwoExpr(raw, String(raw), "root", Ident("root"), Two(Plain(Literal(raw)), Plain(Rule("root"))));
  }

  /** `start: "u" root` with `root: "v"`: `root` generates the second literal alone. */
  lemma RootTextDiffers(rawU: string, u: string, rawV: string, v: string, lexicon: Lexicon, units: string -> Language)
    requires lexicon.builtins == BUILTINS && IsLiteral(rawU) && '-' !in rawU && IsLiteral(rawV)
    requires lexicon.decode(rawU) == Some(u) && lexicon.decode(rawV) == Some(v) && u != ""
    ensures var p := TwoRules(rawU + " " + "root", "root", rawV);
            && TableOf(p).Some?
            && (exists text :: Emits(p, lexicon, text) && TextGenerates(text, units, "root", Whole(v)))
            && !Derives(GrammarIn(p, lexicon), units, "start", Whole(v))
  {
    var p := TwoRules(rawU + " " + "root", "root", rawV);
    NoBuiltins();
    assert IsIdentifier("root");
    RootParses(rawU);
    LiteralParses(rawV);
    TwoRulesGrammar(rawU + " " + "root", Two(Plain(Literal(rawU)), Plain(Rule("root"))), "root", rawV,
                    Alone(Plain(Literal(rawV))), lexicon);
    RootClashDiffers(GrammarIn(p, lexicon), rawU, u, rawV, v, units);
    EmitsTwo(p, lexicon, "root");
  }
}
