/** The built-in patterns, letter by letter. */
module LarkBuiltinTexts {
  import opened Wrappers
  import opened LarkBuiltins

  const MARK_TEXT := "[eE][-+]?[0-9]+"
  const EXPONENT_TEXT := "(?:[eE][-+]?[0-9]+)?"
  const WHOLE_TEXT := "[0-9]+(?:\\.[0-9]*)?"
  const TAIL_TEXT := "\\.[0-9]+"

  const FLOAT_TEXT :=
    "(?:" + ("(?:" + (WHOLE_TEXT + "|" + TAIL_TEXT) + ")" + EXPONENT_TEXT + "|" + ("[0-9]+" + MARK_TEXT)) + ")"
  const NUMBER_TEXT := "(?:" + (WHOLE_TEXT + EXPONENT_TEXT + "|" + (TAIL_TEXT + EXPONENT_TEXT)) + ")"

  function NumberText(name: string): Option<string> {
    match name
    case "DECIMAL" => Some("(?:[0-9]+\\.[0-9]*|\\.[0-9]+)")
    case "DIGIT" => Some("[0-9]")
    case "FLOAT" => Some(FLOAT_TEXT)
    case "HEXDIGIT" => Some("[0-9A-Fa-f]")
    case "INT" => Some("[0-9]+")
    case "NUMBER" => Some(NUMBER_TEXT)
    case "SIGNED_FLOAT" => Some("[-+]?" + FLOAT_TEXT)
    case "SIGNED_INT" => Some("[-+]?[0-9]+")
    case "SIGNED_NUMBER" => Some("[-+]?" + NUMBER_TEXT)
    case _ => None
  }

  function SpaceText(name: string): Option<string> {
    match name
    case "CR" => Some("\\r")
    case "CRLF" => Some("\\r\\n")
    case "LF" => Some("\\n")
    case "NEWLINE" => Some("(?:\\r?\\n)+")
    case "WS" => Some("[ \\t\\f\\r\\n]+")
    case "WS_INLINE" => Some("[ \\t]+")
    case _ => None
  }

  function WordText(name: string): Option<string> {
    match name
    case "CNAME" => Some("[A-Za-z_][A-Za-z0-9_]*")
    case "ESCAPED_STRING" => Some("\"(?:\\\\.|[^\"\\\\])*\"")
    case "LETTER" => Some("[A-Za-z]")
    case "WORD" => Some("[A-Za-z]+")
    case _ => None
  }

  function PatternText(name: string): Option<string> {
    if NumberText(name).Some? then NumberText(name)
    else if SpaceText(name).Some? then SpaceText(name)
    else WordText(name)
  }

  // ---------------------------------------------------------------- the shapes render so

  lemma ClassText(plain: string, text: string)
    requires "[" + plain + "]" == text
    ensures Render(Class(false, plain, "")) == text
  {
    assert "[" + (plain + ("" + "]")) == "[" + plain + "]";
  }

  lemma StarText(a: Shape, x: string, text: string)
    requires Render(a) == x && x + "*" == text
    ensures Render(Star(a)) == text
  {
  }

  lemma OptionText(a: Shape, x: string, text: string)
    requires Render(a) == x && "(?:" + x + ")" + "?" == text
    ensures Render(Maybe(Wrap(a))) == text
  {
  }

  lemma ChainText(a: Shape, x: string, b: Shape, y: string, both: string)
    requires Render(a) == x && Render(b) == y && x + y == both
    ensures Render(Chain(a, b)) == both
  {
  }

  lemma EitherText(a: Shape, x: string, b: Shape, y: string, both: string)
    requires Render(a) == x && Render(b) == y && "(?:" + (x + "|" + y) + ")" == both
    ensures Render(Either(a, b)) == both
  {
  }

  lemma Digits()
    ensures Render(DIGIT) == "[0-9]" && Render(DIGITS) == "[0-9]+" && Render(SIGN) == "[-+]?"
    ensures Render(HEXDIGIT) == "[0-9A-Fa-f]" && Render(LETTER) == "[A-Za-z]"
  {
    ClassText("0-9", "[0-9]");
    ClassText("-+", "[-+]");
    ClassText("0-9A-Fa-f", "[0-9A-Fa-f]");
    ClassText("A-Za-z", "[A-Za-z]");
  }

  lemma Marks()
    ensures Render(MARK) == MARK_TEXT && Render(EXPONENT) == EXPONENT_TEXT && Render(TAIL) == TAIL_TEXT
  {
    Digits();
    ClassText("eE", "[eE]");
    ChainText(SIGN, "[-+]?", DIGITS, "[0-9]+", "[-+]?[0-9]+");
    ChainText(Class(false, "eE", ""), "[eE]", Chain(SIGN, DIGITS), "[-+]?[0-9]+", MARK_TEXT);
    OptionText(MARK, MARK_TEXT, EXPONENT_TEXT);
    ChainText(Escape('.'), "\\.", DIGITS, "[0-9]+", TAIL_TEXT);
  }

  lemma Fractions()
    ensures Render(Chain(Escape('.'), Star(DIGIT))) == "\\.[0-9]*" && Render(FRACTION) == "(?:\\.[0-9]*)?"
  {
    Digits();
    StarText(DIGIT, "[0-9]", "[0-9]*");
    ChainText(Escape('.'), "\\.", Star(DIGIT), "[0-9]*", "\\.[0-9]*");
    OptionText(Chain(Escape('.'), Star(DIGIT)), "\\.[0-9]*", "(?:\\.[0-9]*)?");
  }

  lemma Wholes()
    ensures Render(WHOLE) == WHOLE_TEXT && Render(DECIMAL) == "(?:[0-9]+\\.[0-9]*|\\.[0-9]+)"
  {
    Digits();
    Marks();
    Fractions();
    var fraction := Chain(Escape('.'), Star(DIGIT));
    ChainText(DIGITS, "[0-9]+", FRACTION, "(?:\\.[0-9]*)?", WHOLE_TEXT);
    ChainText(DIGITS, "[0-9]+", fraction, "\\.[0-9]*", "[0-9]+\\.[0-9]*");
    EitherText(Chain(DIGITS, fraction), "[0-9]+\\.[0-9]*", TAIL, TAIL_TEXT, "(?:[0-9]+\\.[0-9]*|\\.[0-9]+)");
  }

  lemma FloatText()
    ensures Render(FLOAT) == FLOAT_TEXT
  {
    Digits();
    Marks();
    Wholes();
    var mantissa := "(?:" + (WHOLE_TEXT + "|" + TAIL_TEXT) + ")";
    EitherText(WHOLE, WHOLE_TEXT, TAIL, TAIL_TEXT, mantissa);
    ChainText(Either(WHOLE, TAIL), mantissa, EXPONENT, EXPONENT_TEXT, mantissa + EXPONENT_TEXT);
    ChainText(DIGITS, "[0-9]+", MARK, MARK_TEXT, "[0-9]+" + MARK_TEXT);
    EitherText(Chain(Either(WHOLE, TAIL), EXPONENT), mantissa + EXPONENT_TEXT, Chain(DIGITS, MARK),
               "[0-9]+" + MARK_TEXT, FLOAT_TEXT);
  }

  lemma PlainNumberText()
    ensures Render(NUMBER) == NUMBER_TEXT
  {
    Marks();
    Wholes();
    ChainText(WHOLE, WHOLE_TEXT, EXPONENT, EXPONENT_TEXT, WHOLE_TEXT + EXPONENT_TEXT);
    ChainText(TAIL, TAIL_TEXT, EXPONENT, EXPONENT_TEXT, TAIL_TEXT + EXPONENT_TEXT);
    EitherText(Chain(WHOLE, EXPONENT), WHOLE_TEXT + EXPONENT_TEXT, Chain(TAIL, EXPONENT), TAIL_TEXT + EXPONENT_TEXT,
               NUMBER_TEXT);
  }

  lemma SignedTexts()
    ensures Render(Chain(SIGN, FLOAT)) == "[-+]?" + FLOAT_TEXT
    ensures Render(Chain(SIGN, DIGITS)) == "[-+]?[0-9]+"
    ensures Render(Chain(SIGN, NUMBER)) == "[-+]?" + NUMBER_TEXT
  {
    Digits();
    FloatText();
    PlainNumberText();
    ChainText(SIGN, "[-+]?", FLOAT, FLOAT_TEXT, "[-+]?" + FLOAT_TEXT);
    ChainText(SIGN, "[-+]?", DIGITS, "[0-9]+", "[-+]?[0-9]+");
    ChainText(SIGN, "[-+]?", NUMBER, NUMBER_TEXT, "[-+]?" + NUMBER_TEXT);
  }

  lemma NumberRenders(name: string)
    ensures NumberShape(name).Some? <==> NumberText(name).Some?
    ensures NumberShape(name).Some? ==> Some(Render(NumberShape(name).value)) == NumberText(name)
  {
    match name
    case "DECIMAL" => Wholes();
    case "DIGIT" => Digits();
    case "FLOAT" => FloatText();
    case "HEXDIGIT" => Digits();
    case "INT" => Digits();
    case "NUMBER" => PlainNumberText();
    case "SIGNED_FLOAT" => SignedTexts();
    case "SIGNED_INT" => SignedTexts();
    case "SIGNED_NUMBER" => SignedTexts();
    case _ =>
  }

  lemma SpaceRenders(name: string)
    ensures SpaceShape(name).Some? <==> SpaceText(name).Some?
    ensures SpaceShape(name).Some? ==> Some(Render(SpaceShape(name).value)) == SpaceText(name)
  {
    assert Render(Escape('r')) == "\\r" && Render(Escape('n')) == "\\n";
    ChainText(Escape('r'), "\\r", Escape('n'), "\\n", "\\r\\n");
    assert Render(Maybe(Escape('r'))) == "\\r?";
    ChainText(Maybe(Escape('r')), "\\r?", Escape('n'), "\\n", "\\r?\\n");
    assert Render(NEWLINE) == "(?:\\r?\\n)+";
    assert Escapes("t") == "\\t" + Escapes("") == "\\t";
    assert Render(BLANKS) == "[ \\t]+";
    EscapedSpaces();
    assert Render(SPACES) == "[ \\t\\f\\r\\n]+";
  }

  lemma EscapedSpaces()
    ensures Escapes("tfrn") == "\\t\\f\\r\\n"
  {
    assert "tfrn"[1..] == "frn" && "frn"[1..] == "rn" && "rn"[1..] == "n" && "n"[1..] == "";
    assert Escapes("n") == "\\n";
    assert Escapes("rn") == "\\r\\n";
    assert Escapes("frn") == "\\f\\r\\n";
  }

  lemma WordRenders(name: string)
    ensures WordShape(name).Some? <==> WordText(name).Some?
    ensures WordShape(name).Some? ==> Some(Render(WordShape(name).value)) == WordText(name)
  {
    Digits();
    assert Render(Plus(LETTER)) == "[A-Za-z]+";
    QuotedText();
    NameText();
  }

  lemma NameText()
    ensures Render(CNAME) == "[A-Za-z_][A-Za-z0-9_]*"
  {
    var first, rest := Class(false, "A-Za-z_", ""), Class(false, "A-Za-z0-9_", "");
    ClassText("A-Za-z_", "[A-Za-z_]");
    ClassText("A-Za-z0-9_", "[A-Za-z0-9_]");
    StarText(rest, "[A-Za-z0-9_]", "[A-Za-z0-9_]*");
    ChainText(first, "[A-Za-z_]", Star(rest), "[A-Za-z0-9_]*", "[A-Za-z_][A-Za-z0-9_]*");
  }

  lemma QuotedText()
    ensures Render(QUOTED) == "\"(?:\\\\.|[^\"\\\\])*\""
  {
    ChainText(Escape('\\'), "\\\\", Char('.'), ".", "\\\\.");
    assert Escapes("\\") == "\\\\" + Escapes("") == "\\\\";
    assert Render(Class(true, "\"", "\\")) == "[^" + ("\"" + ("\\\\" + "]")) == "[^\"\\\\]";
    EitherText(Chain(Escape('\\'), Char('.')), "\\\\.", Class(true, "\"", "\\"), "[^\"\\\\]",
               "(?:\\\\.|[^\"\\\\])");
    assert Render(Star(STRING_UNIT)) == "(?:\\\\.|[^\"\\\\])*";
    ChainText(Star(STRING_UNIT), "(?:\\\\.|[^\"\\\\])*", Char('"'), "\"", "(?:\\\\.|[^\"\\\\])*\"");
    ChainText(Char('"'), "\"", Chain(Star(STRING_UNIT), Char('"')), "(?:\\\\.|[^\"\\\\])*\"",
              "\"(?:\\\\.|[^\"\\\\])*\"");
  }

  /** Each name of the common library has the pattern the source gives it, and there are no others. */
  lemma PatternTexts(name: string)
    ensures name in BUILTINS <==> PatternText(name).Some?
    ensures name in BUILTINS ==> Some(BUILTINS[name]) == PatternText(name)
  {
    NumberRenders(name);
    SpaceRenders(name);
    WordRenders(name);
    assert ShapeOf(name).Some? ==> name in NAMES;
  }
}
