/** Go's `strconv.Quote` and `%q`, and reading the quoted form back. */
module GoQuote {
  import opened Wrappers

  // ---------------------------------------------------------------- hexadecimal numbers

  function HexDigit(n: nat): char
    requires n < 16
  {
    if n < 10 then (n + '0' as int) as char else (n - 10 + 'a' as int) as char
  }

  function HexValue(c: char): Option<nat> {
    if '0' <= c <= '9' then Some(c as int - '0' as int)
    else if 'a' <= c <= 'f' then Some(c as int - 'a' as int + 10)
    else None
  }

  function Hex(n: nat, width: nat): (r: string)
    ensures |r| == width
  {
    if width == 0 then "" else Hex(n / 16, width - 1) + [HexDigit(n % 16)]
  }

  function ParseHex(s: string): Option<nat> {
    if s == "" then Some(0)
    else match (ParseHex(s[..|s| - 1]), HexValue(s[|s| - 1]))
      case (Some(high), Some(low)) => Some(16 * high + low)
      case _ => None
  }

  function Pow16(width: nat): nat {
    if width == 0 then 1 else 16 * Pow16(width - 1)
  }

  lemma {:induction false} HexParses(n: nat, width: nat)
    requires n < Pow16(width)
    ensures ParseHex(Hex(n, width)) == Some(n)
  {
    if width > 0 {
      HexParses(n / 16, width - 1);
      assert Hex(n, width)[..width - 1] == Hex(n / 16, width - 1);
    }
  }

  predicate IsHexText(s: string) {
    forall i :: 0 <= i < |s| ==> HexValue(s[i]).Some?
  }

  lemma {:induction false} HexIsHex(n: nat, width: nat)
    ensures IsHexText(Hex(n, width))
  {
    if width > 0 { HexIsHex(n / 16, width - 1); }
  }

  // ---------------------------------------------------------------- quoting

  /** Whether a character is written as it is; `prints` tells for those outside ASCII and Latin controls. */
  predicate PrintsRaw(prints: char -> bool, c: char) {
    ' ' <= c <= '~' || (c > 0xA0 as char && prints(c))
  }

  /** The letter of a short escape for a control character. */
  function ControlLetter(c: char): Option<char> {
    match c as int
    case 7 => Some('a')
    case 8 => Some('b')
    case 9 => Some('t')
    case 10 => Some('n')
    case 11 => Some('v')
    case 12 => Some('f')
    case 13 => Some('r')
    case _ => None
  }

  function QuoteRune(prints: char -> bool, c: char): string {
    if c == '"' || c == '\\' then ['\\', c]
    else if PrintsRaw(prints, c) then [c]
    else if ControlLetter(c).Some? then ['\\', ControlLetter(c).value]
    else if c < ' ' || c == 0x7F as char then "\\x" + Hex(c as int, 2)
    else if c as int < 0x10000 then "\\u" + Hex(c as int, 4)
    else "\\U" + Hex(c as int, 8)
  }

  /** The short escapes of the control characters that have one. */
  lemma ShortEscapes(prints: char -> bool)
    ensures QuoteRune(prints, 7 as char) == "\\a" && QuoteRune(prints, 8 as char) == "\\b"
    ensures QuoteRune(prints, 9 as char) == "\\t" && QuoteRune(prints, 10 as char) == "\\n"
    ensures QuoteRune(prints, 11 as char) == "\\v" && QuoteRune(prints, 12 as char) == "\\f"
    ensures QuoteRune(prints, 13 as char) == "\\r"
  {
  }

  function QuoteBody(prints: char -> bool, v: string): string {
    if v == "" then "" else QuoteRune(prints, v[0]) + QuoteBody(prints, v[1..])
  }

  function Quote(prints: char -> bool, v: string): string {
    "\"" + QuoteBody(prints, v) + "\""
  }

  // ---------------------------------------------------------------- and back

  function CharOf(n: nat): Option<char> {
    if n < 0xD800 || 0xE000 <= n < 0x11_0000 then Some(n as char) else None
  }

  function EscapedChar(c: char): Option<char> {
    match c
    case 'a' => Some(7 as char)
    case 'b' => Some(8 as char)
    case 't' => Some(9 as char)
    case 'n' => Some(10 as char)
    case 'v' => Some(11 as char)
    case 'f' => Some(12 as char)
    case 'r' => Some(13 as char)
    case '"' => Some('"')
    case '\\' => Some('\\')
    case _ => None
  }

  function HexWidth(c: char): nat {
    if c == 'x' then 2 else if c == 'u' then 4 else if c == 'U' then 8 else 0
  }

  /** The character at the front of a quoted body, and how much of the body it takes. */
  function FirstRune(s: string): (r: Option<(char, nat)>)
    requires s != ""
    ensures r.Some? ==> 0 < r.value.1 <= |s|
  {
    if s[0] != '\\' then Some((s[0], 1))
    else if |s| < 2 then None
    else
      var width := HexWidth(s[1]);
      if width == 0 then
        match EscapedChar(s[1])
        case None => None
        case Some(c) => Some((c, 2))
      else if |s| < 2 + width then None
      else
        match ParseHex(s[2..2 + width])
        case None => None
        case Some(n) => if CharOf(n).None? then None else Some((CharOf(n).value, 2 + width))
  }

  function Unquote(s: string): Option<string>
    decreases |s|
  {
    if s == "" then Some("")
    else
      match FirstRune(s)
      case None => None
      case Some((c, n)) =>
        match Unquote(s[n..])
        case None => None
        case Some(rest) => Some([c] + rest)
  }

  lemma HexRune(letter: char, width: nat, c: char, rest: string)
    requires HexWidth(letter) == width > 0 && c as int < Pow16(width)
    ensures FirstRune("\\" + [letter] + Hex(c as int, width) + rest) == Some((c, 2 + width))
  {
    var s := "\\" + [letter] + Hex(c as int, width) + rest;
    assert s[0] == '\\' && s[1] == letter && s[2..2 + width] == Hex(c as int, width);
    HexParses(c as int, width);
  }

  lemma Widths()
    ensures Pow16(2) == 0x100 && Pow16(4) == 0x10000 && Pow16(8) == 0x1_0000_0000
  {
    assert Pow16(1) == 16 && Pow16(3) == 0x1000 && Pow16(5) == 0x100000;
    assert Pow16(6) == 0x100_0000 && Pow16(7) == 0x1000_0000;
  }

  lemma RuneReadBack(prints: char -> bool, c: char, rest: string)
    ensures FirstRune(QuoteRune(prints, c) + rest) == Some((c, |QuoteRune(prints, c)|))
  {
    Widths();
    if c == '"' || c == '\\' || PrintsRaw(prints, c) || ControlLetter(c).Some? {
    } else if c < ' ' || c == 0x7F as char {
      HexRune('x', 2, c, rest);
      assert "\\" + ['x'] == "\\x";
    } else if c as int < 0x10000 {
      HexRune('u', 4, c, rest);
      assert "\\" + ['u'] == "\\u";
    } else {
      HexRune('U', 8, c, rest);
      assert "\\" + ['U'] == "\\U";
    }
  }

  /** Whatever is quoted is read back. */
  lemma {:induction false} QuoteReadBack(prints: char -> bool, v: string)
    ensures Unquote(QuoteBody(prints, v)) == Some(v)
    decreases v
  {
    if v != "" {
      var rune, rest := QuoteRune(prints, v[0]), QuoteBody(prints, v[1..]);
      RuneReadBack(prints, v[0], rest);
      QuoteReadBack(prints, v[1..]);
      assert (rune + rest)[|rune|..] == rest;
      assert [v[0]] + v[1..] == v;
    }
  }

  // ---------------------------------------------------------------- the shape of the quoted form

  /** One character that needs no escape, or a backslash, any sign or letter, and hexadecimal digits. */
  predicate IsRune(s: string) {
    || (|s| == 1 && s[0] != '"' && s[0] != '\\' && s[0] >= ' ')
    || (|s| >= 2 && s[0] == '\\' && ' ' <= s[1] <= '~' && IsHexText(s[2..]))
  }

  lemma RuneShape(prints: char -> bool, c: char)
    ensures IsRune(QuoteRune(prints, c))
  {
    HexIsHex(c as int, 2);
    HexIsHex(c as int, 4);
    HexIsHex(c as int, 8);
    var s := QuoteRune(prints, c);
    if c != '"' && c != '\\' && !PrintsRaw(prints, c) && ControlLetter(c).None? {
      assert s[2..] == if c < ' ' || c == 0x7F as char then Hex(c as int, 2)
                       else if c as int < 0x10000 then Hex(c as int, 4) else Hex(c as int, 8);
    }
  }

  lemma RuneVisible(s: string)
    requires IsRune(s)
    ensures forall i :: 0 <= i < |s| ==> s[i] >= ' '
  {
    forall i | 0 <= i < |s| ensures s[i] >= ' ' {
      if i >= 2 { assert HexValue(s[2..][i - 2]).Some?; }
    }
  }

  /** A quoted form holds no control characters. */
  lemma {:induction false} QuoteVisible(prints: char -> bool, v: string)
    ensures forall i :: 0 <= i < |QuoteBody(prints, v)| ==> QuoteBody(prints, v)[i] >= ' '
    decreases v
  {
    if v != "" {
      RuneShape(prints, v[0]);
      RuneVisible(QuoteRune(prints, v[0]));
      QuoteVisible(prints, v[1..]);
    }
  }
}
