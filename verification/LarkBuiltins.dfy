/** The built-in patterns of supportedLarkImportPatterns, and why they can be pasted anywhere. */
module LarkBuiltins {
  import opened Wrappers
  import opened Languages
  import opened RegexText
  import opened RegexMeaning

  /** The forms of regular expression that the built-in patterns use. */
  datatype Shape =
    | Class(negated: bool, plain: string, escapes: string)
    | Escape(c: char)
    | Char(c: char)
    | Chain(first: Shape, second: Shape)
    | Wrap(inner: Shape)
    | Either(first: Shape, second: Shape)
    | Star(inner: Shape)
    | Plus(inner: Shape)
    | Maybe(inner: Shape)

  function Escapes(s: string): string {
    if s == "" then "" else ['\\', s[0]] + Escapes(s[1..])
  }

  function Render(s: Shape): string {
    match s
    case Class(negated, plain, escapes) => (if negated then "[^" else "[") + (plain + (Escapes(escapes) + "]"))
    case Escape(c) => ['\\', c]
    case Char(c) => [c]
    case Chain(a, b) => Render(a) + Render(b)
    case Wrap(a) => "(?:" + Render(a) + ")"
    case Either(a, b) => "(?:" + (Render(a) + "|" + Render(b)) + ")"
    case Star(a) => Render(a) + "*"
    case Plus(a) => Render(a) + "+"
    case Maybe(a) => Render(a) + "?"
  }

  const DIGIT := Class(false, "0-9", "")
  const LETTER := Class(false, "A-Za-z", "")
  const STRING_UNIT := Either(Chain(Escape('\\'), Char('.')), Class(true, "\"", "\\"))  // (?:\\.|[^"\\])
  const DIGITS := Plus(DIGIT)                                                    // [0-9]+
  const SIGN := Maybe(Class(false, "-+", ""))                                               // [-+]?
  const MARK := Chain(Class(false, "eE", ""), Chain(SIGN, DIGITS))                          // [eE][-+]?[0-9]+
  const EXPONENT := Maybe(Wrap(MARK))                                            // (?:[eE][-+]?[0-9]+)?
  const FRACTION := Maybe(Wrap(Chain(Escape('.'), Star(DIGIT))))                 // (?:\.[0-9]*)?
  const TAIL := Chain(Escape('.'), DIGITS)                                       // \.[0-9]+
  const WHOLE := Chain(DIGITS, FRACTION)                                         // [0-9]+(?:\.[0-9]*)?
  const FLOAT := Either(Chain(Either(WHOLE, TAIL), EXPONENT), Chain(DIGITS, MARK))
  const NUMBER := Either(Chain(WHOLE, EXPONENT), Chain(TAIL, EXPONENT))

  const DECIMAL := Either(Chain(DIGITS, Chain(Escape('.'), Star(DIGIT))), TAIL)
  const HEXDIGIT := Class(false, "0-9A-Fa-f", "")
  const NEWLINE := Plus(Wrap(Chain(Maybe(Escape('r')), Escape('n'))))            // (?:\r?\n)+
  const SPACES := Plus(Class(false, " ", "tfrn"))                                // [ \t\f\r\n]+
  const BLANKS := Plus(Class(false, " ", "t"))                                   // [ \t]+
  const CNAME := Chain(Class(false, "A-Za-z_", ""), Star(Class(false, "A-Za-z0-9_", "")))
  const QUOTED := Chain(Char('"'), Chain(Star(STRING_UNIT), Char('"')))

  const NAMES: set<string> := {
    "CNAME", "CR", "CRLF", "DECIMAL", "DIGIT", "ESCAPED_STRING", "FLOAT", "HEXDIGIT", "INT", "LETTER", "LF",
    "NEWLINE", "NUMBER", "SIGNED_FLOAT", "SIGNED_INT", "SIGNED_NUMBER", "WORD", "WS", "WS_INLINE"
  }

  function NumberShape(name: string): Option<Shape> {
    match name
    case "DECIMAL" => Some(DECIMAL)
    case "DIGIT" => Some(DIGIT)
    case "FLOAT" => Some(FLOAT)
    case "HEXDIGIT" => Some(HEXDIGIT)
    case "INT" => Some(DIGITS)
    case "NUMBER" => Some(NUMBER)
    case "SIGNED_FLOAT" => Some(Chain(SIGN, FLOAT))
    case "SIGNED_INT" => Some(Chain(SIGN, DIGITS))
    case "SIGNED_NUMBER" => Some(Chain(SIGN, NUMBER))
    case _ => None
  }

  function SpaceShape(name: string): Option<Shape> {
    match name
    case "CR" => Some(Escape('r'))
    case "CRLF" => Some(Chain(Escape('r'), Escape('n')))
    case "LF" => Some(Escape('n'))
    case "NEWLINE" => Some(NEWLINE)
    case "WS" => Some(SPACES)
    case "WS_INLINE" => Some(BLANKS)
    case _ => None
  }

  function WordShape(name: string): Option<Shape> {
    match name
    case "CNAME" => Some(CNAME)
    case "ESCAPED_STRING" => Some(QUOTED)
    case "LETTER" => Some(LETTER)
    case "WORD" => Some(Plus(LETTER))
    case _ => None
  }

  function ShapeOf(name: string): Option<Shape> {
    if NumberShape(name).Some? then NumberShape(name)
    else if SpaceShape(name).Some? then SpaceShape(name)
    else WordShape(name)
  }

  /** The patterns that `%import common.NAME` may name. */
  const BUILTINS: map<string, string> := map n | n in NAMES && ShapeOf(n).Some? :: Render(ShapeOf(n).value)

  // ---------------------------------------------------------------- well-formed shapes

  predicate PlainInClass(c: char) {
    c != '\\' && c != '[' && c != ']' && c != '^'
  }

  predicate IsAtomic(s: Shape) {
    s.Class? || s.Escape? || s.Char? || s.Wrap? || s.Either?
  }

  predicate IsValid(s: Shape) {
    match s
    case Class(_, plain, _) => plain != "" && forall i :: 0 <= i < |plain| ==> PlainInClass(plain[i])
    case Escape(c) => IsShortEscape(c)
    case Char(c) => c == '"' || c == '.'
    case Chain(a, b) => IsValid(a) && IsValid(b)
    case Wrap(a) => IsValid(a)
    case Either(a, b) => IsValid(a) && IsValid(b)
    case Star(a) => IsAtomic(a) && IsValid(a)
    case Plus(a) => IsAtomic(a) && IsValid(a)
    case Maybe(a) => IsAtomic(a) && IsValid(a)
  }

  lemma LexClose(done: string)
    requires |done| > 2 || (|done| == 2 && done[1] != '^')
    ensures LexFrom(InClass(done, false), "]") == Lexed(Ready, [Leaf(Unit(done + "]"))])
  {
    assert "]"[1..] == "" && done != "[" && done != "[^";
  }

  lemma EscapeText(done: string, c: char, rest: string)
    ensures done + ['\\'] + [c] + rest == done + (['\\', c] + rest)
  {
  }

  lemma LexOneEscape(done: string, c: char, rest: string)
    ensures LexFrom(InClass(done, false), ['\\', c] + rest) == LexFrom(InClass(done + ['\\'] + [c], false), rest)
  {
    var all := ['\\', c] + rest;
    assert all[0] == '\\' && all[1..][0] == c && all[1..][1..] == rest;
  }

  lemma {:induction false} LexEscapes(done: string, escapes: string)
    requires |done| > 2 || (|done| == 2 && done[1] != '^')
    ensures LexFrom(InClass(done, false), Escapes(escapes) + "]") ==
            Lexed(Ready, [Leaf(Unit(done + (Escapes(escapes) + "]")))])
    decreases escapes
  {
    var all := Escapes(escapes) + "]";
    if escapes == "" {
      assert all == "]";
      LexClose(done);
    } else {
      var rest := Escapes(escapes[1..]) + "]";
      var longer := done + ['\\'] + [escapes[0]];
      assert all == ['\\', escapes[0]] + rest;
      LexEscapes(longer, escapes[1..]);
      LexOneEscape(done, escapes[0], rest);
      EscapeText(done, escapes[0], rest);
    }
  }

  lemma {:induction false} LexClass(done: string, plain: string, escapes: string)
    requires forall i :: 0 <= i < |plain| ==> PlainInClass(plain[i])
    requires if plain == "" then |done| > 2 || (|done| == 2 && done[1] != '^') else done != ""
    ensures LexFrom(InClass(done, false), plain + (Escapes(escapes) + "]")) ==
            Lexed(Ready, [Leaf(Unit(done + (plain + (Escapes(escapes) + "]"))))])
    decreases plain
  {
    var tail := Escapes(escapes) + "]";
    var all := plain + tail;
    if plain == "" {
      assert all == tail;
      LexEscapes(done, escapes);
    } else {
      assert all[1..] == plain[1..] + tail;
      LexClass(done + [plain[0]], plain[1..], escapes);
      assert done + [plain[0]] + (plain[1..] + tail) == done + all;
    }
  }

  lemma UnitPastes(text: string)
    requires LexFrom(Ready, text) == Lexed(Ready, [Leaf(Unit(text))])
    ensures Pastes(text, Sequence(Empty, One(Unit(text))))
  {
    var x := [Leaf(Unit(text))];
    assert x[1..] == [];
    assert ReadFrom(true, START, x) ==
           ReadFrom(true, Bottom(Frame(NoAlternatives, Sequence(Empty, One(Unit(text))))), []);
  }

  lemma ClassPastes(s: Shape)
    requires s.Class? && IsValid(s)
    ensures LexFrom(Ready, Render(s)) == Lexed(Ready, [Leaf(Unit(Render(s)))]) && |Render(s)| > 1
    ensures Pastes(Render(s), Sequence(Empty, One(Unit(Render(s)))))
  {
    var text := Render(s);
    var inside := s.plain + (Escapes(s.escapes) + "]");
    if s.negated {
      LexClass("[^", s.plain, s.escapes);
      assert text[1..] == "^" + inside && text[1..][1..] == inside;
      assert "[" + ['^'] == "[^";
      assert LexStep(InClass("[", false), '^') == Lexed(InClass("[^", false), []);
    } else {
      LexClass("[", s.plain, s.escapes);
      assert text[1..] == inside;
    }
    UnitPastes(text);
  }

  lemma EscapePastes(c: char)
    requires IsShortEscape(c)
    ensures LexFrom(Ready, ['\\', c]) == Lexed(Ready, [Leaf(Unit(['\\', c]))])
    ensures var text := ['\\', c]; Pastes(text, Sequence(Empty, One(Unit(text))))
  {
    var text := ['\\', c];
    assert text[1..] == [c] && [c][1..] == "";
    assert LexFrom(Escaped, [c]) == Lexed(Ready, [Leaf(Unit(text))]);
    UnitPastes(text);
  }

  /** The text is a sequence; and one factor without a postfix operator where the shape is atomic. */
  lemma {:induction false} ShapePastes(s: Shape) returns (t: Sequence)
    requires IsValid(s)
    ensures Pastes(Render(s), t)
    ensures IsAtomic(s) ==> t.Sequence? && t.init.Empty? && !t.last.Repeated?
  {
    var text := Render(s);
    match s
    case Class(_, _, _) =>
      ClassPastes(s);
      t := Sequence(Empty, One(Unit(text)));
    case Escape(c) =>
      EscapePastes(c);
      t := Sequence(Empty, One(Unit(text)));
    case Char(c) =>
      assert text[1..] == "";
      UnitPastes(text);
      t := Sequence(Empty, One(Unit(text)));
    case Chain(a, b) =>
      var x := ShapePastes(a);
      var y := ShapePastes(b);
      PastesConcat(Render(a), x, Render(b), y);
      t := Append(x, y);
    case Wrap(a) =>
      var x := ShapePastes(a);
      PastesRegex(Render(a), x);
      PastesGroup(Render(a), Alternatives(NoAlternatives, x));
      t := Sequence(Empty, Group(Alternatives(NoAlternatives, x)));
    case Either(a, b) =>
      var x := ShapePastes(a);
      var y := ShapePastes(b);
      PastesRegex(Render(a), x);
      PastesBar(Render(a), Alternatives(NoAlternatives, x), Render(b), y);
      var both := Alternatives(Alternatives(NoAlternatives, x), y);
      PastesGroup(Render(a) + "|" + Render(b), both);
      t := Sequence(Empty, Group(both));
    case Star(a) =>
      var x := ShapePastes(a);
      PastesPost(Render(a), x.last, "*", STAR);
      t := Sequence(Empty, Repeated(x.last, STAR));
    case Plus(a) =>
      var x := ShapePastes(a);
      PastesPost(Render(a), x.last, "+", PLUS);
      t := Sequence(Empty, Repeated(x.last, PLUS));
    case Maybe(a) =>
      var x := ShapePastes(a);
      PastesPost(Render(a), x.last, "?", QUESTION);
      t := Sequence(Empty, Repeated(x.last, QUESTION));
  }

  lemma ClassesValid()
    ensures IsValid(DIGIT) && IsValid(LETTER) && IsValid(SIGN) && IsValid(Class(false, "eE", "")) && IsValid(HEXDIGIT)
  {
  }

  lemma ExponentsValid()
    ensures IsValid(DIGITS) && IsValid(SIGN) && IsValid(MARK) && IsValid(TAIL) && IsValid(EXPONENT)
  {
    ClassesValid();
    assert IsValid(DIGITS) && IsValid(SIGN);
    assert IsValid(MARK) && IsValid(TAIL);
  }

  lemma NumbersValid(name: string)
    ensures NumberShape(name).Some? ==> IsValid(NumberShape(name).value)
  {
    ExponentsValid();
    assert IsValid(FRACTION);
    assert IsValid(WHOLE) && IsValid(DECIMAL);
    assert IsValid(FLOAT) && IsValid(NUMBER);
  }

  lemma WordsValid(name: string)
    ensures SpaceShape(name).Some? ==> IsValid(SpaceShape(name).value)
    ensures WordShape(name).Some? ==> IsValid(WordShape(name).value)
  {
    ClassesValid();
    assert IsValid(Class(false, "A-Za-z_", "")) && IsValid(Class(false, "A-Za-z0-9_", ""));
    assert IsValid(STRING_UNIT);
  }

  /** Whatever name is imported, its pattern can be pasted without changing its meaning. */
  lemma BuiltinsSelfContained(name: string)
    requires name in BUILTINS
    ensures SelfContained(BUILTINS[name])
  {
    NumbersValid(name);
    WordsValid(name);
    var t := ShapePastes(ShapeOf(name).value);
  }
}
