/** Cutting a rule expression into tokens (tokenizeLarkExpr and the literal readers it calls). */
module LarkLexer {
  import opened Wrappers
  import opened Text
  import opened LarkSyntax

  predicate IsIdentStart(c: char) {
    c == '_' || 'a' <= c <= 'z' || 'A' <= c <= 'Z'
  }

  predicate IsIdentPart(c: char) {
    IsIdentStart(c) || '0' <= c <= '9'
  }

  predicate IsIdentifier(s: string) {
    s != "" && IsIdentStart(s[0]) && forall c :: c in s ==> IsIdentPart(c)
  }

  // ---------------------------------------------------------------- scanning inside literals

  /** Where the scan of a delimited literal stands: `escaped` after an odd backslash. */
  function Escaped(s: string, from: nat, i: nat): bool
    requires from <= i <= |s|
    decreases i
  {
    i > from && !Escaped(s, from, i - 1) && s[i - 1] == '\\'
  }

  /** The literal opened at `start` ends at `i`: the first unescaped delimiter after it. */
  predicate ClosesAt(s: string, delimiter: char, start: nat, i: nat) {
    && start < i < |s| && s[i] == delimiter && !Escaped(s, start + 1, i)
    && forall k :: start < k < i ==> s[k] != delimiter || Escaped(s, start + 1, k)
  }

  method FindClose(s: string, delimiter: char, start: nat) returns (r: Option<nat>)
    requires start < |s| && delimiter != '\\'
    ensures r.Some? ==> ClosesAt(s, delimiter, start, r.value)
    ensures r.None? ==> forall i: nat :: !ClosesAt(s, delimiter, start, i)
  {
    var escaped := false;
    var i := start + 1;
    while i < |s|
      invariant start < i <= |s|
      invariant escaped == Escaped(s, start + 1, i)
      invariant forall k :: start < k < i ==> s[k] != delimiter || Escaped(s, start + 1, k)
    {
      if escaped {
        escaped := false;
      } else if s[i] == '\\' {
        escaped := true;
      } else if s[i] == delimiter {
        return Some(i);
      }
      i := i + 1;
    }
    return None;
  }

  /** Inside a regex: after an odd backslash, or between `[` and `]`. */
  datatype Scan = Scan(escaped: bool, inClass: bool)

  function ScanTo(p: string, i: nat): Scan
    requires i <= |p|
    decreases i
  {
    if i == 0 then Scan(false, false)
    else
      var before := ScanTo(p, i - 1);
      if before.escaped then Scan(false, before.inClass)
      else match p[i - 1]
        case '\\' => Scan(true, before.inClass)
        case '[' => Scan(false, true)
        case ']' => Scan(false, false)
        case _ => before
  }

  /** The character at `i` is neither escaped nor part of a class. */
  predicate Live(p: string, i: nat) {
    i < |p| && ScanTo(p, i) == Scan(false, false)
  }

  predicate LookaroundAt(p: string, i: nat) {
    && i + 2 < |p| && p[i] == '(' && p[i + 1] == '?'
    && (p[i + 2] == '=' || p[i + 2] == '!'
        || (p[i + 2] == '<' && i + 3 < |p| && (p[i + 3] == '=' || p[i + 3] == '!')))
  }

  predicate LazyAt(p: string, i: nat) {
    i + 1 < |p| && (p[i] == '*' || p[i] == '+' || p[i] == '?') && p[i + 1] == '?'
  }

  predicate HasLookaround(p: string) {
    exists i :: 0 <= i < |p| && Live(p, i) && LookaroundAt(p, i)
  }

  predicate HasLazyQuantifier(p: string) {
    exists i :: 0 <= i < |p| && Live(p, i) && LazyAt(p, i)
  }

  method ContainsLookaround(p: string) returns (r: bool)
    ensures r <==> HasLookaround(p)
  {
    var escaped, inClass := false, false;
    var i := 0;
    while i < |p|
      invariant 0 <= i <= |p|
      invariant Scan(escaped, inClass) == ScanTo(p, i)
      invariant forall k :: 0 <= k < i ==> !(Live(p, k) && LookaroundAt(p, k))
    {
      if escaped {
        escaped := false;
      } else if p[i] == '\\' {
        escaped := true;
      } else if p[i] == '[' {
        inClass := true;
      } else if p[i] == ']' {
        inClass := false;
      } else if !inClass && p[i] == '(' && i + 2 < |p| && p[i + 1] == '?' {
        assert Live(p, i);
        if p[i + 2] == '=' || p[i + 2] == '!' {
          assert LookaroundAt(p, i);
          return true;
        }
        if p[i + 2] == '<' && i + 3 < |p| && (p[i + 3] == '=' || p[i + 3] == '!') {
          assert LookaroundAt(p, i);
          return true;
        }
      }
      i := i + 1;
    }
    return false;
  }

  method ContainsLazyQuantifier(p: string) returns (r: bool)
    ensures r <==> HasLazyQuantifier(p)
  {
    var escaped, inClass := false, false;
    var i := 0;
    while i + 1 < |p|
      invariant 0 <= i <= |p| && (|p| > 0 ==> i < |p|)
      invariant Scan(escaped, inClass) == ScanTo(p, i)
      invariant forall k :: 0 <= k < i ==> !(Live(p, k) && LazyAt(p, k))
    {
      if escaped {
        escaped := false;
      } else if p[i] == '\\' {
        escaped := true;
      } else if p[i] == '[' {
        inClass := true;
      } else if p[i] == ']' {
        inClass := false;
      } else if !inClass && (p[i] == '*' || p[i] == '+' || p[i] == '?') && p[i + 1] == '?' {
        assert Live(p, i) && LazyAt(p, i);
        return true;
      }
      i := i + 1;
    }
    return false;
  }

  // ---------------------------------------------------------------- one token

  /** A way to write a token.  (A string token keeps its quotes; a regex token drops its slashes.) */
  predicate Spells(s: string, t: Token) {
    match t
    case Ident(text) => s == text && IsIdentifier(text)
    case String(text) =>
      s == text && |text| >= 2 && (text[0] == '"' || text[0] == '\'') && ClosesAt(text, text[0], 0, |text| - 1)
    case Regex(text) =>
      s == "/" + text + "/" && ClosesAt(s, '/', 0, |s| - 1) && !HasLookaround(text) && !HasLazyQuantifier(text)
    case LParen => s == "("
    case RParen => s == ")"
    case Pipe => s == "|"
    case Star => s == "*"
    case Plus => s == "+"
    case Question => s == "?"
    case Eof => false
  }

  /** May `t` end before `rest`?  An identifier must be maximal, and a lazy quantifier is refused. */
  predicate EndsBefore(t: Token, rest: string) {
    match t
    case Ident(_) => rest == "" || !IsIdentPart(rest[0])
    case Star => rest == "" || rest[0] != '?'
    case Plus => rest == "" || rest[0] != '?'
    case Question => rest == "" || rest[0] != '?'
    case _ => true
  }

  /**
    `s` is a spelling of `tokens`: their own spellings in order, white space in between where
    wanted, each token ending where it must.
   */
  ghost predicate Spelling(s: string, tokens: seq<Token>) {
    if s != "" && IsSpace(s[0]) then Spelling(s[1..], tokens)
    else if tokens == [] then s == ""
    else
      exists n ::
        0 < n <= |s| && Spells(s[..n], tokens[0]) && EndsBefore(tokens[0], s[n..]) && Spelling(s[n..], tokens[1..])
  }

  lemma SpellsStart(s: string, t: Token)
    requires Spells(s, t)
    ensures s != "" && !IsSpace(s[0])
    ensures match t
            case Ident(_) => IsIdentStart(s[0])
            case String(_) => s[0] == '"' || s[0] == '\''
            case Regex(_) => s[0] == '/'
            case LParen => s[0] == '('
            case RParen => s[0] == ')'
            case Pipe => s[0] == '|'
            case Star => s[0] == '*'
            case Plus => s[0] == '+'
            case Question => s[0] == '?'
            case Eof => false
  {
  }

  lemma {:induction false} EscapedLocal(a: string, b: string, from: nat, i: nat)
    requires from <= i <= |a| && |a| <= |b| && b[..|a|] == a
    ensures Escaped(a, from, i) == Escaped(b, from, i)
    decreases i
  {
    if i > from {
      EscapedLocal(a, b, from, i - 1);
      assert a[i - 1] == b[..|a|][i - 1];
    }
  }

  lemma ClosesAtLocal(a: string, b: string, delimiter: char, i: nat)
    requires i < |a| <= |b| && b[..|a|] == a
    ensures ClosesAt(a, delimiter, 0, i) == ClosesAt(b, delimiter, 0, i)
  {
    if i > 0 {
      forall k | 0 < k <= i
        ensures a[k] == b[k] && Escaped(a, 1, k) == Escaped(b, 1, k)
      {
        EscapedLocal(a, b, 1, k);
        assert b[..|a|][k] == a[k];
      }
    }
  }

  /** Two literals opened at the same place close at the same place. */
  lemma ClosesAtUnique(s: string, delimiter: char, i: nat, j: nat)
    requires ClosesAt(s, delimiter, 0, i) && ClosesAt(s, delimiter, 0, j)
    ensures i == j
  {
  }

  lemma IdentifierMaximal(s: string, n: nat, m: nat)
    requires m <= |s| && forall c :: c in s[..m] ==> IsIdentPart(c)
    requires n <= |s| && (s[n..] == "" || !IsIdentPart(s[n..][0]))
    ensures m <= n
  {
    forall k | 0 <= k < m
      ensures IsIdentPart(s[k])
    {
      assert s[..m][k] in s[..m];
    }
    assert n < |s| ==> s[n..][0] == s[n];
  }

  /** A text starts with at most one token: the first token and its length are determined. */
  lemma FirstTokenUnique(s: string, t: Token, n: nat, u: Token, m: nat)
    requires 0 < n <= |s| && Spells(s[..n], t) && EndsBefore(t, s[n..])
    requires 0 < m <= |s| && Spells(s[..m], u) && EndsBefore(u, s[m..])
    ensures t == u && n == m
  {
    SpellsStart(s[..n], t);
    SpellsStart(s[..m], u);
    assert s[..n][0] == s[0] == s[..m][0];
    match t
    case Ident(_) =>
      IdentifierMaximal(s, n, m);
      IdentifierMaximal(s, m, n);
    case String(text) =>
      ClosesAtLocal(s[..n], s, s[0], n - 1);
      ClosesAtLocal(s[..m], s, s[0], m - 1);
      ClosesAtUnique(s, s[0], n - 1, m - 1);
    case Regex(text) =>
      ClosesAtLocal(s[..n], s, '/', n - 1);
      ClosesAtLocal(s[..m], s, '/', m - 1);
      ClosesAtUnique(s, '/', n - 1, m - 1);
      assert text == s[..n][1..n - 1];
    case _ =>
  }

  /** A text is a spelling of at most one sequence of tokens. */
  lemma {:induction false} SpellingUnique(s: string, a: seq<Token>, b: seq<Token>)
    requires Spelling(s, a) && Spelling(s, b)
    ensures a == b
    decreases s
  {
    if s != "" {
      if IsSpace(s[0]) {
        SpellingUnique(s[1..], a, b);
      } else {
        var n :| 0 < n <= |s| && Spells(s[..n], a[0]) && EndsBefore(a[0], s[n..]) && Spelling(s[n..], a[1..]);
        var m :| 0 < m <= |s| && Spells(s[..m], b[0]) && EndsBefore(b[0], s[m..]) && Spelling(s[m..], b[1..]);
        FirstTokenUnique(s, a[0], n, b[0], m);
        SpellingUnique(s[n..], a[1..], b[1..]);
      }
    }
  }

  // ---------------------------------------------------------------- the tokenizer

  datatype Scanned = Refused | Token(token: Token, next: nat)

  /** The token at a place that is not white space. */
  method ReadToken(s: string, start: nat) returns (r: Scanned)
    requires start < |s| && !IsSpace(s[start])
    ensures r.Token? ==>
              && start < r.next <= |s|
              && Spells(s[start..r.next], r.token) && EndsBefore(r.token, s[r.next..])
    ensures r.Refused? ==>
              forall n, t :: start < n <= |s| ==> !(Spells(s[start..n], t) && EndsBefore(t, s[n..]))
  {
    var c := s[start];
    var rest := s[start + 1..];
    if c == '(' || c == ')' || c == '|' {
      r := Token(if c == '(' then LParen else if c == ')' then RParen else Pipe, start + 1);
      assert s[start..start + 1] == [c];
    } else if c == '*' || c == '+' || c == '?' {
      assert s[start..start + 1] == [c];
      if start + 1 < |s| && s[start + 1] == '?' {
        r := Refused;
        RefuseLazy(s, start);
      } else {
        r := Token(if c == '*' then Star else if c == '+' then Plus else Question, start + 1);
      }
    } else if c == '"' || c == '\'' {
      var close := FindClose(s, c, start);
      match close {
        case None =>
          r := Refused;
          RefuseOpen(s, start, c);
        case Some(i) =>
          r := Token(String(s[start..i + 1]), i + 1);
          ClosesAtShift(s, c, start, i, i + 1);
      }
    } else if c == '/' {
      var close := FindClose(s, c, start);
      match close {
        case None =>
          r := Refused;
          RefuseOpen(s, start, c);
        case Some(i) =>
          var pattern := s[start + 1..i];
          assert s[start..i + 1] == "/" + pattern + "/";
          ClosesAtShift(s, c, start, i, i + 1);
          var lookaround := ContainsLookaround(pattern);
          var lazy := ContainsLazyQuantifier(pattern);
          if lookaround || lazy {
            r := Refused;
            RefuseRegex(s, start, i);
          } else {
            r := Token(Regex(pattern), i + 1);
          }
      }
    } else if !IsIdentStart(c) {
      r := Refused;
      RefuseOther(s, start);
    } else {
      var i := start + 1;
      while i < |s| && IsIdentPart(s[i])
        invariant start < i <= |s|
        invariant forall k :: start <= k < i ==> IsIdentPart(s[k])
      {
        i := i + 1;
      }
      r := Token(Ident(s[start..i]), i);
      assert i < |s| ==> s[i..][0] == s[i];
    }
  }

  lemma RefuseLazy(s: string, start: nat)
    requires start + 1 < |s| && (s[start] == '*' || s[start] == '+' || s[start] == '?') && s[start + 1] == '?'
    ensures forall n, t :: start < n <= |s| ==> !(Spells(s[start..n], t) && EndsBefore(t, s[n..]))
  {
    forall n, t | start < n <= |s| && Spells(s[start..n], t)
      ensures !EndsBefore(t, s[n..])
    {
      SpellsStart(s[start..n], t);
      assert s[n..][0] == s[n];
    }
  }

  lemma {:induction false} EscapedShift(s: string, start: nat, end: nat, i: nat)
    requires start < i <= end <= |s|
    ensures Escaped(s[start..end], 1, i - start) == Escaped(s, start + 1, i)
    decreases i
  {
    if i > start + 1 {
      EscapedShift(s, start, end, i - 1);
      assert s[start..end][i - start - 1] == s[i - 1];
    }
  }

  lemma ClosesAtShift(s: string, delimiter: char, start: nat, i: nat, end: nat)
    requires start < i < end <= |s|
    ensures ClosesAt(s[start..end], delimiter, 0, i - start) == ClosesAt(s, delimiter, start, i)
  {
    var t := s[start..end];
    forall k | start < k <= i
      ensures t[k - start] == s[k] && Escaped(t, 1, k - start) == Escaped(s, start + 1, k)
    {
      EscapedShift(s, start, end, k);
    }
    if ClosesAt(t, delimiter, 0, i - start) {
      forall k | start < k < i
        ensures s[k] != delimiter || Escaped(s, start + 1, k)
      {
        assert t[k - start] != delimiter || Escaped(t, 1, k - start);
      }
    }
  }

  lemma RefuseOpen(s: string, start: nat, delimiter: char)
    requires start < |s| && s[start] == delimiter
    requires delimiter == '"' || delimiter == '\'' || delimiter == '/'
    requires forall i: nat :: !ClosesAt(s, delimiter, start, i)
    ensures forall n, t :: start < n <= |s| ==> !(Spells(s[start..n], t) && EndsBefore(t, s[n..]))
  {
    forall n, t | start < n <= |s|
      ensures !Spells(s[start..n], t)
    {
      if Spells(s[start..n], t) {
        SpellsStart(s[start..n], t);
        ClosesAtShift(s, delimiter, start, n - 1, n);
      }
    }
  }

  lemma InsideSlashes(s: string, start: nat, i: nat)
    requires start < i < |s|
    ensures s[start..i + 1][1..i - start] == s[start + 1..i]
  {
    var a, b := s[start..i + 1][1..i - start], s[start + 1..i];
    forall k | 0 <= k < |a|
      ensures a[k] == b[k]
    {
      assert a[k] == s[start..i + 1][1 + k] == s[start + 1 + k];
    }
    assert a == b;
  }

  lemma RefuseRegex(s: string, start: nat, i: nat)
    requires start < i < |s| && s[start] == '/' && ClosesAt(s, '/', start, i)
    requires HasLookaround(s[start + 1..i]) || HasLazyQuantifier(s[start + 1..i])
    ensures forall n, t :: start < n <= |s| ==> !(Spells(s[start..n], t) && EndsBefore(t, s[n..]))
  {
    forall n, t | start < n <= |s|
      ensures !Spells(s[start..n], t)
    {
      var written := s[start..n];
      if Spells(written, t) {
        SpellsStart(written, t);
        ClosesAtShift(s, '/', start, n - 1, n);
        assert n == i + 1;
        assert t.text == written[1..|written| - 1];
        InsideSlashes(s, start, i);
      }
    }
  }

  lemma RefuseOther(s: string, start: nat)
    requires start < |s| && !IsIdentStart(s[start])
    requires s[start] !in ['(', ')', '|', '*', '+', '?', '"', '\'', '/']
    ensures forall n, t :: start < n <= |s| ==> !(Spells(s[start..n], t) && EndsBefore(t, s[n..]))
  {
    forall n, t | start < n <= |s|
      ensures !Spells(s[start..n], t)
    {
      if Spells(s[start..n], t) {
        SpellsStart(s[start..n], t);
      }
    }
  }

  ghost predicate Spellable(s: string) {
    exists tokens :: Spelling(s, tokens)
  }

  /** The tokens of an expression, closed by an end marker; none if it cannot be cut into tokens. */
  ghost function TokensOf(s: string): Option<seq<Token>> {
    if Spellable(s) then
      var tokens :| Spelling(s, tokens);
      Some(tokens + [Eof])
    else None
  }

  /** `tokens` is how every spelling of `s` starts, and `s[i..]` is what is left to spell. */
  ghost predicate CutAt(s: string, tokens: seq<Token>, i: nat) {
    && i <= |s|
    && (forall more :: Spelling(s[i..], more) ==> Spelling(s, tokens + more))
    && (forall all :: Spelling(s, all) ==> tokens <= all && Spelling(s[i..], all[|tokens|..]))
  }

  lemma CutSpace(s: string, tokens: seq<Token>, i: nat)
    requires CutAt(s, tokens, i) && i < |s| && IsSpace(s[i])
    ensures CutAt(s, tokens, i + 1)
  {
    assert s[i..][1..] == s[i + 1..];
  }

  lemma CutToken(s: string, tokens: seq<Token>, i: nat, t: Token, next: nat)
    requires CutAt(s, tokens, i) && i < next <= |s| && !IsSpace(s[i])
    requires Spells(s[i..next], t) && EndsBefore(t, s[next..])
    ensures CutAt(s, tokens + [t], next)
  {
    var rest := s[i..];
    var n := next - i;
    assert rest[..n] == s[i..next] && rest[n..] == s[next..];
    forall more | Spelling(s[next..], more)
      ensures Spelling(s, tokens + [t] + more)
    {
      var these := [t] + more;
      assert these[0] == t && these[1..] == more;
      assert Spelling(rest, these);
      assert tokens + these == tokens + [t] + more;
    }
    forall all | Spelling(s, all)
      ensures tokens + [t] <= all && Spelling(s[next..], all[|tokens + [t]|..])
    {
      var these := all[|tokens|..];
      var m :| 0 < m <= |rest| && Spells(rest[..m], these[0]) && EndsBefore(these[0], rest[m..]) &&
        Spelling(rest[m..], these[1..]);
      FirstTokenUnique(rest, t, n, these[0], m);
      assert these[1..] == all[|tokens + [t]|..];
    }
  }

  lemma CutRefused(s: string, tokens: seq<Token>, i: nat)
    requires CutAt(s, tokens, i) && i < |s| && !IsSpace(s[i])
    requires forall n, t :: i < n <= |s| ==> !(Spells(s[i..n], t) && EndsBefore(t, s[n..]))
    ensures !Spellable(s)
  {
    var rest := s[i..];
    forall m, t | 0 < m <= |rest|
      ensures !(Spells(rest[..m], t) && EndsBefore(t, rest[m..]))
    {
      assert rest[..m] == s[i..i + m] && rest[m..] == s[i + m..];
    }
    assert forall these :: !Spelling(rest, these);
  }

  lemma CutDone(s: string, tokens: seq<Token>)
    requires CutAt(s, tokens, |s|)
    ensures TokensOf(s) == Some(tokens + [Eof])
  {
    assert Spelling(s[|s|..], []);
    assert tokens + [] == tokens;
    var all :| Spelling(s, all) && TokensOf(s) == Some(all + [Eof]);
    SpellingUnique(s, all, tokens);
  }

  method Tokenize(s: string) returns (r: Option<seq<Token>>)
    ensures r == TokensOf(s)
  {
    var tokens: seq<Token> := [];
    var i := 0;
    assert s[0..] == s;
    assert forall more: seq<Token> :: [] + more == more;
    while i < |s|
      invariant 0 <= i <= |s|
      invariant CutAt(s, tokens, i)
    {
      if IsSpace(s[i]) {
        CutSpace(s, tokens, i);
        i := i + 1;
      } else {
        var scanned := ReadToken(s, i);
        match scanned {
          case Refused =>
            CutRefused(s, tokens, i);
            return None;
          case Token(t, next) =>
            CutToken(s, tokens, i, t, next);
            tokens := tokens + [t];
            i := next;
        }
      }
    }
    CutDone(s, tokens);
    return Some(tokens + [Eof]);
  }
}
