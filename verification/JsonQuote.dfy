/** What a JSON decoder makes of text that was quoted the way Go quotes (internal/domain/normalize.go). */
module JsonQuote {
  import opened Wrappers
  import opened GoQuote

  function JsonEscape(c: char): Option<char> {
    match c
    case '"' => Some('"')
    case '\\' => Some('\\')
    case '/' => Some('/')
    case 'b' => Some(8 as char)
    case 'f' => Some(12 as char)
    case 'n' => Some(10 as char)
    case 'r' => Some(13 as char)
    case 't' => Some(9 as char)
    case _ => None
  }

  /** The character at the front of a JSON string's body, and how much of the body it takes. */
  function JsonChar(s: string): (r: Option<(char, nat)>)
    requires s != ""
    ensures r.Some? ==> 0 < r.value.1 <= |s|
  {
    if s[0] != '\\' then (if s[0] < ' ' || s[0] == '"' then None else Some((s[0], 1)))
    else if |s| < 2 then None
    else if s[1] != 'u' then
      match JsonEscape(s[1])
      case None => None
      case Some(c) => Some((c, 2))
    else if |s| < 6 then None
    else
      match ParseHex(s[2..6])
      case None => None
      case Some(n) => if CharOf(n).None? then None else Some((CharOf(n).value, 6))
  }

  function JsonRead(s: string): Option<string>
    decreases |s|
  {
    if s == "" then Some("")
    else
      match JsonChar(s)
      case None => None
      case Some((c, n)) =>
        match JsonRead(s[n..])
        case None => None
        case Some(rest) => Some([c] + rest)
  }

  /** Go and JSON share the escape that the character is quoted with, if it needs one. */
  predicate IsShared(prints: char -> bool, c: char) {
    || PrintsRaw(prints, c)
    || c as int in {8, 9, 10, 12, 13}
    || 0x80 <= c as int < 0x10000
  }

  predicate AllShared(prints: char -> bool, text: string) {
    forall i :: 0 <= i < |text| ==> IsShared(prints, text[i])
  }

  lemma CharRead(prints: char -> bool, c: char, rest: string)
    ensures JsonChar(QuoteRune(prints, c) + rest) ==
            if IsShared(prints, c) then Some((c, |QuoteRune(prints, c)|)) else None
  {
    var s := QuoteRune(prints, c) + rest;
    Widths();
    if c != '"' && c != '\\' && !PrintsRaw(prints, c) && ControlLetter(c).None? {
      var letter := if c < ' ' || c == 0x7F as char then 'x' else if c as int < 0x10000 then 'u' else 'U';
      assert s[0] == '\\' && s[1] == letter;
      if IsShared(prints, c) {
        HexParses(c as int, 4);
        assert s[2..6] == Hex(c as int, 4);
      }
    }
  }

  /** A quoted text is JSON exactly when all its characters are quoted in a shared way, and then it is read back. */
  lemma {:induction false} JsonReadsIff(prints: char -> bool, text: string)
    ensures JsonRead(QuoteBody(prints, text)) == if AllShared(prints, text) then Some(text) else None
    decreases text
  {
    if text != "" {
      var rune, rest := QuoteRune(prints, text[0]), QuoteBody(prints, text[1..]);
      CharRead(prints, text[0], rest);
      JsonReadsIff(prints, text[1..]);
      RuneShape(prints, text[0]);
      assert (rune + rest)[|rune|..] == rest;
      assert text == [text[0]] + text[1..];
    }
  }
}
