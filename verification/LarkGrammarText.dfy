/**
  How the text of the native grammar is read: white space separates, a maximal identifier
  is a rule, a quoted string is a literal, and the rest is pattern text.  Patterns are
  printed bare, so whether they are read as they were meant depends on their own text.
 */
module LarkGrammarText {
  import opened Wrappers
  import opened Text
  import opened RegexText
  import opened LarkLexer
  import opened GoQuote

  // ---------------------------------------------------------------- characters to lexemes

  datatype Reader = InText(st: LexState) | InName(name: string) | InQuotes(body: string, escaped: bool)

  datatype Progress = Progress(state: Reader, lexemes: seq<Lexeme>)

  function Lifted(x: Lexed): Progress {
    Progress(InText(x.state), x.lexemes)
  }

  function Prepend(xs: seq<Lexeme>, x: Progress): Progress {
    Progress(x.state, xs + x.lexemes)
  }

  /** Characters that do not stand for themselves in a grammar, unlike in a pattern. */
  predicate IsSpecial(c: char) {
    IsIdentStart(c) || c == '"' || IsSpace(c)
  }

  function ReadReady(c: char): Progress {
    if IsIdentStart(c) then Progress(InName([c]), [])
    else if c == '"' then Progress(InQuotes("", false), [])
    else if IsSpace(c) then Progress(InText(Ready), [])
    else Lifted(LexReady(c))
  }

  function ReadChar(r: Reader, c: char): Progress {
    match r
    case InText(Ready) => ReadReady(c)
    case InText(Opened) => if c == '?' then Lifted(LexStep(Opened, c)) else Prepend([Open], ReadReady(c))
    case InText(InBraces(digits)) =>
      if IsSpecial(c) then Prepend(Literals("{" + digits), ReadReady(c)) else Lifted(LexStep(r.st, c))
    case InText(st) => Lifted(LexStep(st, c))
    case InName(name) =>
      if IsIdentPart(c) then Progress(InName(name + [c]), [])
      else Prepend([Leaf(Name(name))], ReadReady(c))
    case InQuotes(body, escaped) =>
      if escaped then Progress(InQuotes(body + [c], false), [])
      else if c == '\\' then Progress(InQuotes(body + [c], true), [])
      else if c != '"' then Progress(InQuotes(body + [c], false), [])
      else Progress(InText(Ready), [match Unquote(body) case None => Bad case Some(v) => Leaf(Quoted(v))])
  }

  function ReadChars(r: Reader, s: string): Progress
    decreases s
  {
    if s == "" then Progress(r, [])
    else
      var first := ReadChar(r, s[0]);
      Prepend(first.lexemes, ReadChars(first.state, s[1..]))
  }

  /** A name ends where the text does. */
  function Flush(x: Progress): Progress {
    if x.state.InName? then Progress(InText(Ready), x.lexemes + [Leaf(Name(x.state.name))]) else x
  }

  function ReadAll(s: string): Progress {
    Flush(ReadChars(InText(Ready), s))
  }

  /** The lexemes of a definition, if nothing is left open. */
  function LexemesOf(s: string): Option<seq<Lexeme>> {
    if ReadAll(s).state == InText(Ready) then Some(ReadAll(s).lexemes) else None
  }

  lemma PrependTwice(a: seq<Lexeme>, b: seq<Lexeme>, x: Progress)
    ensures Prepend(a, Prepend(b, x)) == Prepend(a + b, x)
  {
    assert a + (b + x.lexemes) == a + b + x.lexemes;
  }

  lemma {:induction false} CharsConcat(r: Reader, a: string, b: string)
    ensures ReadChars(r, a + b) == Prepend(ReadChars(r, a).lexemes, ReadChars(ReadChars(r, a).state, b))
    decreases a
  {
    if a == "" {
      assert a + b == b;
      NothingFirst(ReadChars(r, b));
    } else {
      assert (a + b)[0] == a[0] && (a + b)[1..] == a[1..] + b;
      var first := ReadChar(r, a[0]);
      CharsConcat(first.state, a[1..], b);
      var x := ReadChars(first.state, a[1..]);
      PrependTwice(first.lexemes, x.lexemes, ReadChars(x.state, b));
    }
  }

  lemma FlushAfter(xs: seq<Lexeme>, x: Progress)
    ensures Flush(Prepend(xs, x)) == Prepend(xs, Flush(x))
  {
    if x.state.InName? {
      assert xs + x.lexemes + [Leaf(Name(x.state.name))] == xs + (x.lexemes + [Leaf(Name(x.state.name))]);
    }
  }

  /** A text that is complete by itself is read the same in front of anything that does not continue a name. */
  lemma ReadsThen(a: string, rest: string)
    requires ReadAll(a).state == InText(Ready)
    requires rest == "" || !IsIdentPart(rest[0])
    ensures ReadAll(a + rest) == Prepend(ReadAll(a).lexemes, ReadAll(rest))
  {
    CharsConcat(InText(Ready), a, rest);
    FlushedThen(ReadChars(InText(Ready), a), rest);
  }

  lemma FlushedThen(x: Progress, rest: string)
    requires Flush(x).state == InText(Ready)
    requires rest == "" || !IsIdentPart(rest[0])
    ensures Flush(Prepend(x.lexemes, ReadChars(x.state, rest))) == Prepend(Flush(x).lexemes, ReadAll(rest))
  {
    FlushAfter(x.lexemes, ReadChars(x.state, rest));
    if x.state.InName? {
      NameThen(x.state.name, rest);
      PrependTwice(x.lexemes, [Leaf(Name(x.state.name))], ReadAll(rest));
    }
  }

  lemma NameThen(name: string, rest: string)
    requires rest == "" || !IsIdentPart(rest[0])
    ensures Flush(ReadChars(InName(name), rest)) == Prepend([Leaf(Name(name))], ReadAll(rest))
  {
    var one := [Leaf(Name(name))];
    if rest != "" {
      var first := ReadReady(rest[0]);
      var more := ReadChars(first.state, rest[1..]);
      PrependTwice(one, first.lexemes, more);
      FlushAfter(one, Prepend(first.lexemes, more));
    }
  }

  // ---------------------------------------------------------------- names, literals, separators

  lemma {:induction false} NameGoesOn(name: string, rest: string)
    requires forall i :: 0 <= i < |rest| ==> IsIdentPart(rest[i])
    ensures ReadChars(InName(name), rest) == Progress(InName(name + rest), [])
    decreases rest
  {
    if rest == "" {
      assert name + rest == name;
    } else {
      NameGoesOn(name + [rest[0]], rest[1..]);
      assert name + [rest[0]] + rest[1..] == name + rest;
    }
  }

  lemma NameRead(name: string)
    requires IsIdentifier(name)
    ensures ReadAll(name) == Progress(InText(Ready), [Leaf(Name(name))])
  {
    NameGoesOn([name[0]], name[1..]);
    assert [name[0]] + name[1..] == name;
  }

  lemma {:induction false} HexGoesOn(body: string, s: string)
    requires IsHexText(s)
    ensures ReadChars(InQuotes(body, false), s) == Progress(InQuotes(body + s, false), [])
    decreases s
  {
    if s == "" {
      assert body + s == body;
    } else {
      assert HexValue(s[0]).Some?;
      HexGoesOn(body + [s[0]], s[1..]);
      assert body + [s[0]] + s[1..] == body + s;
    }
  }

  lemma RuneGoesOn(body: string, s: string)
    requires IsRune(s)
    ensures ReadChars(InQuotes(body, false), s) == Progress(InQuotes(body + s, false), [])
  {
    if |s| == 1 {
      assert s[1..] == "" && body + [s[0]] == body + s;
    } else {
      var two := body + [s[0]] + [s[1]];
      HexGoesOn(two, s[2..]);
      assert s[1..][1..] == s[2..] && two + s[2..] == body + s;
      assert ReadChars(InQuotes(body + [s[0]], true), s[1..]) == Progress(InQuotes(two + s[2..], false), []);
    }
  }

  predicate GoesOn(body: string, s: string) {
    ReadChars(InQuotes(body, false), s) == Progress(InQuotes(body + s, false), [])
  }

  lemma GoOnTwice(body: string, a: string, b: string)
    requires GoesOn(body, a) && GoesOn(body + a, b)
    ensures GoesOn(body, a + b)
  {
    CharsConcat(InQuotes(body, false), a, b);
    NothingFirst(ReadChars(InQuotes(body + a, false), b));
    Associative(body, a, b);
  }

  lemma NothingFirst(x: Progress)
    ensures Prepend([], x) == x
  {
    assert [] + x.lexemes == x.lexemes;
  }

  lemma {:induction false} BodyGoesOn(prints: char -> bool, body: string, v: string)
    ensures GoesOn(body, QuoteBody(prints, v))
    decreases v
  {
    if v == "" {
      assert body + "" == body;
    } else {
      RuneShape(prints, v[0]);
      RuneGoesOn(body, QuoteRune(prints, v[0]));
      BodyGoesOn(prints, body + QuoteRune(prints, v[0]), v[1..]);
      GoOnTwice(body, QuoteRune(prints, v[0]), QuoteBody(prints, v[1..]));
    }
  }

  lemma LiteralRead(prints: char -> bool, v: string)
    ensures ReadAll(Quote(prints, v)) == Progress(InText(Ready), [Leaf(Quoted(v))])
  {
    var body := QuoteBody(prints, v);
    BodyGoesOn(prints, "", v);
    QuoteReadBack(prints, v);
    assert "" + body == body;
    OpenQuote(body);
    CharsConcat(InText(Ready), "\"" + body, "\"");
    CloseQuote(body);
  }

  lemma OpenQuote(body: string)
    ensures ReadChars(InText(Ready), "\"" + body) == ReadChars(InQuotes("", false), body)
  {
    assert ("\"" + body)[0] == '"' && ("\"" + body)[1..] == body;
  }

  lemma CloseQuote(body: string)
    requires Unquote(body).Some?
    ensures ReadChars(InQuotes(body, false), "\"") == Progress(InText(Ready), [Leaf(Quoted(Unquote(body).value))])
  {
    assert "\""[1..] == "";
  }

  lemma OneSign(sign: char, x: Lexeme, rest: string)
    requires ReadReady(sign) == Progress(InText(Ready), [x])
    ensures ReadAll([sign] + rest) == Prepend([x], ReadAll(rest))
  {
    assert ([sign] + rest)[1..] == rest;
    FlushAfter([x], ReadChars(InText(Ready), rest));
  }

  lemma OneSpace(rest: string)
    ensures ReadAll(" " + rest) == ReadAll(rest)
  {
    assert (" " + rest)[0] == ' ' && (" " + rest)[1..] == rest;
    assert [] + ReadChars(InText(Ready), rest).lexemes == ReadChars(InText(Ready), rest).lexemes;
  }

  /** An opening parenthesis is one, unless a question mark follows. */
  lemma OpenThen(rest: string)
    requires rest != "" && rest[0] != '?'
    ensures ReadAll("(" + rest) == Prepend([Open], ReadAll(rest))
  {
    assert ("(" + rest)[0] == '(' && ("(" + rest)[1..] == rest;
    var first := ReadReady(rest[0]);
    var more := ReadChars(first.state, rest[1..]);
    assert ReadChars(InText(Opened), rest) == Prepend([Open] + first.lexemes, more);
    assert [Open] + first.lexemes + more.lexemes == [Open] + (first.lexemes + more.lexemes);
    var all := ReadChars(InText(Opened), rest);
    assert [] + all.lexemes == all.lexemes;
    FlushAfter([Open], Prepend(first.lexemes, more));
  }

  // ---------------------------------------------------------------- patterns

  /** From the state `st` on, no special character stands outside classes and escapes. */
  predicate IsPlainFrom(st: LexState, s: string)
    decreases s
  {
    s == "" || (((st.Ready? || st.Opened? || st.InBraces?) ==> !IsSpecial(s[0])) &&
                IsPlainFrom(LexStep(st, s[0]).state, s[1..]))
  }

  /** Outside classes and escapes the text has no white space, no quote and nothing that begins an identifier. */
  predicate IsPlain(text: string) {
    IsPlainFrom(Ready, text)
  }

  predicate IsSpecialUnit(x: Lexeme) {
    x.Leaf? && x.atom.Unit? && |x.atom.text| == 1 && IsSpecial(x.atom.text[0])
  }

  predicate HasSpecial(xs: seq<Lexeme>) {
    exists i :: 0 <= i < |xs| && IsSpecialUnit(xs[i])
  }

  predicate BracesFine(st: LexState) {
    st.InBraces? ==> forall i :: 0 <= i < |st.digits| ==> IsDigit(st.digits[i]) || st.digits[i] == ','
  }

  lemma HasSpecialConcat(xs: seq<Lexeme>, ys: seq<Lexeme>)
    ensures HasSpecial(xs + ys) <==> HasSpecial(xs) || HasSpecial(ys)
  {
    var all := xs + ys;
    if i :| 0 <= i < |xs| && IsSpecialUnit(xs[i]) { assert all[i] == xs[i]; }
    if i :| 0 <= i < |ys| && IsSpecialUnit(ys[i]) { assert all[|xs| + i] == ys[i]; }
    if i :| 0 <= i < |all| && IsSpecialUnit(all[i]) {
      assert i >= |xs| ==> all[i] == ys[i - |xs|];
    }
  }

  lemma LiteralsFine(digits: string)
    requires BracesFine(InBraces(digits))
    ensures !HasSpecial(Literals("{" + digits))
  {
    var s := "{" + digits;
    forall i | 0 <= i < |s| ensures !IsSpecialUnit(Literals(s)[i]) {
      assert i > 0 ==> s[i] == digits[i - 1];
    }
  }

  lemma ReadySpecial(c: char)
    ensures HasSpecial(LexReady(c).lexemes) <==> IsSpecial(c)
    ensures !HasSpecial(ReadReady(c).lexemes)
    ensures BracesFine(LexReady(c).state)
  {
    var xs := LexReady(c).lexemes;
    if IsSpecial(c) {
      assert xs == [Leaf(Unit([c]))];
      assert IsSpecialUnit(xs[0]);
    }
  }

  /** A step of the pattern lexer yields a special unit exactly at a special character outside classes and escapes. */
  lemma StepSpecial(st: LexState, c: char)
    requires BracesFine(st)
    ensures HasSpecial(LexStep(st, c).lexemes) <==> (st.Ready? || st.Opened? || st.InBraces?) && IsSpecial(c)
    ensures BracesFine(LexStep(st, c).state)
  {
    ReadySpecial(c);
    match st
    case Opened =>
      HasSpecialConcat([Open], LexReady(c).lexemes);
      assert !HasSpecial([Open]);
    case InBraces(digits) =>
      LiteralsFine(digits);
      HasSpecialConcat(Literals("{" + digits), LexReady(c).lexemes);
    case _ =>
  }

  lemma {:induction false} PlainIffNoSpecial(st: LexState, s: string)
    requires BracesFine(st)
    ensures IsPlainFrom(st, s) <==> !HasSpecial(LexFrom(st, s).lexemes)
    decreases s
  {
    if s != "" {
      StepSpecial(st, s[0]);
      PlainIffNoSpecial(LexStep(st, s[0]).state, s[1..]);
      HasSpecialConcat(LexStep(st, s[0]).lexemes, LexFrom(LexStep(st, s[0]).state, s[1..]).lexemes);
    }
  }

  lemma {:induction false} PlainReads(st: LexState, s: string)
    requires IsPlainFrom(st, s)
    ensures ReadChars(InText(st), s) == Lifted(LexFrom(st, s))
    decreases s
  {
    if s != "" {
      assert ReadChar(InText(st), s[0]) == Lifted(LexStep(st, s[0]));
      PlainReads(LexStep(st, s[0]).state, s[1..]);
    }
  }

  predicate ReaderFine(r: Reader) {
    r.InText? ==> BracesFine(r.st)
  }

  lemma CharNeverSpecial(r: Reader, c: char)
    requires ReaderFine(r)
    ensures !HasSpecial(ReadChar(r, c).lexemes) && ReaderFine(ReadChar(r, c).state)
  {
    ReadySpecial(c);
    match r
    case InText(Ready) =>
    case InText(Opened) =>
      HasSpecialConcat([Open], ReadReady(c).lexemes);
    case InText(InBraces(digits)) =>
      LiteralsFine(digits);
      HasSpecialConcat(Literals("{" + digits), ReadReady(c).lexemes);
      StepSpecial(r.st, c);
    case InText(st) => StepSpecial(st, c);
    case InName(name) =>
      HasSpecialConcat([Leaf(Name(name))], ReadReady(c).lexemes);
    case InQuotes(_, _) =>
  }

  /** Whatever text is read, no special character is ever taken for a unit. */
  lemma {:induction false} NeverSpecial(r: Reader, s: string)
    requires ReaderFine(r)
    ensures !HasSpecial(ReadChars(r, s).lexemes)
    decreases s
  {
    if s != "" {
      var first := ReadChar(r, s[0]);
      CharNeverSpecial(r, s[0]);
      NeverSpecial(first.state, s[1..]);
      HasSpecialConcat(first.lexemes, ReadChars(first.state, s[1..]).lexemes);
    }
  }

  lemma AllNeverSpecial(s: string)
    ensures !HasSpecial(ReadAll(s).lexemes)
  {
    var x := ReadChars(InText(Ready), s);
    NeverSpecial(InText(Ready), s);
    if x.state.InName? {
      HasSpecialConcat(x.lexemes, [Leaf(Name(x.state.name))]);
    }
  }

  /** A complete pattern text is read in a grammar as it is read in a regular expression exactly when it is plain. */
  lemma PatternReadIff(text: string)
    requires LexFrom(Ready, text).state.Ready?
    ensures LexemesOf(text) == Some(LexFrom(Ready, text).lexemes) <==> IsPlain(text)
  {
    PlainIffNoSpecial(Ready, text);
    AllNeverSpecial(text);
    if IsPlain(text) {
      PlainReads(Ready, text);
    }
  }
}
