/** Reading a Lark definition into a rule table (newLarkRegexCompiler and the import parsers). */
module LarkTable {
  import opened Wrappers
  import opened Text
  import opened LarkSyntax
  import opened LarkLexer
  import opened LarkMeaning
  import opened LarkBuiltins

  // ---------------------------------------------------------------- aliases

  predicate IsRegexSpace(c: char) {
    c == ' ' || c == '\t' || c == '\n' || c == '\r' || c == 0x0C as char
  }

  function SkipSpaces(s: string, i: nat): (r: nat)
    requires i <= |s|
    ensures i <= r <= |s|
    decreases |s| - i
  {
    if i < |s| && IsRegexSpace(s[i]) then SkipSpaces(s, i + 1) else i
  }

  function SkipIdentifier(s: string, i: nat): (r: nat)
    requires i <= |s|
    ensures i <= r <= |s|
    ensures i < |s| && IsIdentPart(s[i]) ==> i < r
    decreases |s| - i
  {
    if i < |s| && IsIdentPart(s[i]) then SkipIdentifier(s, i + 1) else i
  }

  /** How much of the front of `s` is a `-> name` with the white space before it. */
  function AliasLength(s: string): (n: nat)
    ensures n <= |s|
  {
    var arrow := SkipSpaces(s, 0);
    if !("->" <= s[arrow..]) then 0
    else
      var name := SkipSpaces(s, arrow + 2);
      if name < |s| && IsIdentStart(s[name]) then SkipIdentifier(s, name) else 0
  }

  function StripAliases(s: string): string {
    if s == "" then ""
    else if AliasLength(s) > 0 then StripAliases(s[AliasLength(s)..])
    else [s[0]] + StripAliases(s[1..])
  }

  lemma {:induction false} NoArrowNoAlias(s: string)
    requires forall k: nat :: !OccursAt(s, "->", k)
    ensures StripAliases(s) == s
  {
    if s != "" {
      var arrow := SkipSpaces(s, 0);
      if "->" <= s[arrow..] {
        assert OccursAt(s, "->", arrow);
      }
      forall k: nat
        ensures !OccursAt(s[1..], "->", k)
      {
        if k + 2 <= |s[1..]| { assert s[1..][k..k + 2] == s[k + 1..k + 3]; }
        assert !OccursAt(s, "->", k + 1);
      }
      NoArrowNoAlias(s[1..]);
    }
  }

  // ---------------------------------------------------------------- imports

  datatype Import = Import(name: string, pattern: string)

  function ParseCommonImport(target: string): Option<Import> {
    var arrow := IndexOf(target, "->");
    var alias := if arrow.Some? then TrimSpace(target[arrow.value + 2..]) else "";
    var named := if arrow.Some? then TrimSpace(target[..arrow.value]) else target;
    var base := TrimSpace(TrimPrefix(named, "common."));
    if !IsIdentifier(base) then None
    else if alias != "" && !IsIdentifier(alias) then None
    else if base !in BUILTINS then None
    else Some(Import(if alias != "" then alias else base, BUILTINS[base]))
  }

  function TrimPrefix(s: string, prefix: string): string {
    if prefix <= s then s[|prefix|..] else s
  }

  function ParseCommonImports(parts: seq<string>): Option<seq<Import>> {
    if parts == [] then Some([])
    else
      match (ParseCommonImport(TrimSpace(parts[0])), ParseCommonImports(parts[1..]))
      case (Some(x), Some(xs)) => Some([x] + xs)
      case _ => None
  }

  function ParseImport(line: string): Option<seq<Import>> {
    var trimmed := TrimSpace(TrimPrefix(line, "%import"));
    if "common." <= trimmed then ParseCommonImports([trimmed])
    else
      var rest := TrimSpace(TrimPrefix(trimmed, "common"));
      if "common" <= trimmed && |rest| >= 2 && rest[0] == '(' && rest[|rest| - 1] == ')' then
        var group := TrimSpace(rest[1..|rest| - 1]);
        if group == "" then None else ParseCommonImports(Split(group, ','))
      else None
  }

  // ---------------------------------------------------------------- the line reader

  datatype Table = Table(rules: map<string, string>, imports: map<string, string>)

  datatype Reader = Reader(table: Table, lastRule: string)

  function AddImports(imports: map<string, string>, xs: seq<Import>): map<string, string>
    decreases xs
  {
    if xs == [] then imports
    else AddImports(imports[xs[0].name := xs[0].pattern], xs[1..])
  }

  function ReadLine(st: Reader, rawLine: string): Option<Reader> {
    var line := TrimSpace(rawLine);
    var Table(rules, imports) := st.table;
    if line == "" || "//" <= line || "#" <= line then Some(st)
    else if "%ignore" <= line then None
    else if "%import" <= line then
      match ParseImport(line)
      case None => None
      case Some(xs) => Some(st.(table := Table(rules, AddImports(imports, xs))))
    else if "%declare" <= line then None
    else if "|" <= line then
      if st.lastRule == "" || st.lastRule !in rules then None
      else
        var expr := rules[st.lastRule] + " | " + TrimSpace(line[1..]);
        Some(st.(table := Table(rules[st.lastRule := expr], imports)))
    else
      match IndexOf(line, ":")
      case None => None
      case Some(colon) =>
        var name := TrimSpace(line[..colon]);
        var expr := TrimSpace(line[colon + 1..]);
        if colon == 0 || !IsIdentifier(name) || expr == "" then None
        else Some(Reader(Table(rules[name := expr], imports), name))
  }

  function ReadLines(st: Reader, lines: seq<string>): Option<Reader>
    decreases lines
  {
    if lines == [] then Some(st)
    else
      match ReadLine(st, lines[0])
      case None => None
      case Some(st') => ReadLines(st', lines[1..])
  }

  const NOTHING_READ := Reader(Table(map[], map[]), "")

  function TableOf(definition: string): Option<Table> {
    match ReadLines(NOTHING_READ, Split(definition, '\n'))
    case None => None
    case Some(st) => if "start" in st.table.rules then Some(st.table) else None
  }

  method ReadDefinition(definition: string) returns (r: Option<Table>)
    ensures r == TableOf(definition)
  {
    var st := NOTHING_READ;
    var lines := Split(definition, '\n');
    var i := 0;
    while i < |lines|
      invariant 0 <= i <= |lines|
      invariant ReadLines(NOTHING_READ, lines) == ReadLines(st, lines[i..])
    {
      assert lines[i..][0] == lines[i] && lines[i..][1..] == lines[i + 1..];
      var next := ReadDefinitionLine(st, lines[i]);
      if next.None? {
        return None;
      }
      st := next.value;
      i := i + 1;
    }
    assert lines[i..] == [];
    if "start" !in st.table.rules {
      return None;
    }
    return Some(st.table);
  }

  /** One line of a definition: a comment, an import, another alternative of the last rule, or a rule. */
  method ReadDefinitionLine(st: Reader, rawLine: string) returns (r: Option<Reader>)
    ensures r == ReadLine(st, rawLine)
  {
    var line := TrimSpace(rawLine);
    var rules, imports, lastRule := st.table.rules, st.table.imports, st.lastRule;
    if line == "" || "//" <= line || "#" <= line {
      return Some(st);
    }
    if "%ignore" <= line {
      return None;
    } else if "%import" <= line {
      match ParseImport(line) {
        case None => return None;
        case Some(xs) =>
          imports := AddAllImports(imports, xs);
      }
    } else if "%declare" <= line {
      return None;
    } else if "|" <= line {
      if lastRule == "" || lastRule !in rules {
        return None;
      }
      rules := rules[lastRule := rules[lastRule] + " | " + TrimSpace(line[1..])];
    } else {
      var colon := IndexOf(line, ":");
      if colon.None? || colon.value == 0 {
        return None;
      }
      var name := TrimSpace(line[..colon.value]);
      if !IsIdentifier(name) {
        return None;
      }
      var expr := TrimSpace(line[colon.value + 1..]);
      if expr == "" {
        return None;
      }
      rules := rules[name := expr];
      lastRule := name;
    }
    return Some(Reader(Table(rules, imports), lastRule));
  }

  method AddAllImports(before: map<string, string>, xs: seq<Import>) returns (imports: map<string, string>)
    ensures imports == AddImports(before, xs)
  {
    imports := before;
    var k := 0;
    while k < |xs|
      invariant 0 <= k <= |xs|
      invariant AddImports(before, xs) == AddImports(imports, xs[k..])
    {
      assert xs[k..][1..] == xs[k + 1..];
      imports := imports[xs[k].name := xs[k].pattern];
      k := k + 1;
    }
    assert xs[k..] == [];
  }

  // ---------------------------------------------------------------- what every table satisfies

  predicate WellFormedTable(t: Table) {
    && (forall n :: n in t.rules ==> IsIdentifier(n))
    && (forall n :: n in t.imports ==> IsIdentifier(n) && t.imports[n] in BUILTINS.Values)
  }

  lemma {:induction false} CommonImportsFromBuiltins(parts: seq<string>)
    requires ParseCommonImports(parts).Some?
    ensures forall x :: x in ParseCommonImports(parts).value ==> IsIdentifier(x.name) && x.pattern in BUILTINS.Values
  {
    if parts != [] {
      CommonImportsFromBuiltins(parts[1..]);
      var x := ParseCommonImport(TrimSpace(parts[0])).value;
      assert x.pattern in BUILTINS.Values;
    }
  }

  lemma {:induction false} AddImportsKeeps(imports: map<string, string>, xs: seq<Import>)
    requires forall n :: n in imports ==> IsIdentifier(n) && imports[n] in BUILTINS.Values
    requires forall x :: x in xs ==> IsIdentifier(x.name) && x.pattern in BUILTINS.Values
    ensures forall n :: n in AddImports(imports, xs) ==>
            IsIdentifier(n) && AddImports(imports, xs)[n] in BUILTINS.Values
    decreases xs
  {
    if xs != [] {
      assert xs[0] in xs;
      AddImportsKeeps(imports[xs[0].name := xs[0].pattern], xs[1..]);
    }
  }

  lemma {:induction false} ReadLinesKeeps(st: Reader, lines: seq<string>)
    requires WellFormedTable(st.table) && ReadLines(st, lines).Some?
    ensures WellFormedTable(ReadLines(st, lines).value.table)
    decreases lines
  {
    if lines != [] {
      var line := TrimSpace(lines[0]);
      var next := ReadLine(st, lines[0]).value;
      if "%import" <= line && !("//" <= line || "#" <= line) && ParseImport(line).Some? {
        ImportFromBuiltins(line);
        AddImportsKeeps(st.table.imports, ParseImport(line).value);
      }
      assert WellFormedTable(next.table);
      ReadLinesKeeps(next, lines[1..]);
    }
  }

  /** A successful import is that of a list of common names. */
  lemma ImportParts(line: string) returns (parts: seq<string>)
    requires ParseImport(line).Some?
    ensures ParseImport(line) == ParseCommonImports(parts)
  {
    var trimmed := TrimSpace(TrimPrefix(line, "%import"));
    if "common." <= trimmed {
      return [trimmed];
    }
    var rest := TrimSpace(TrimPrefix(trimmed, "common"));
    return Split(TrimSpace(rest[1..|rest| - 1]), ',');
  }

  lemma ImportFromBuiltins(line: string)
    requires ParseImport(line).Some?
    ensures forall x :: x in ParseImport(line).value ==> IsIdentifier(x.name) && x.pattern in BUILTINS.Values
  {
    var parts := ImportParts(line);
    CommonImportsFromBuiltins(parts);
  }

  /** Whatever the definition, imported names stand for built-in patterns and nothing else. */
  lemma TablesWellFormed(definition: string)
    requires TableOf(definition).Some?
    ensures WellFormedTable(TableOf(definition).value) && "start" in TableOf(definition).value.rules
  {
    ReadLinesKeeps(NOTHING_READ, Split(definition, '\n'));
  }

  // ---------------------------------------------------------------- the table as a grammar

  ghost function ParseRule(expr: string): Option<Choice> {
    match TokensOf(StripAliases(expr))
    case None => None
    case Some(tokens) => ParseExpr(tokens)
  }

  /** What is fixed for all definitions: the built-in patterns and how string literals decode. */
  datatype Lexicon = Lexicon(builtins: map<string, string>, decode: string -> Option<string>, prints: char -> bool)

  /** Imports are looked up first, then the built-ins, then the rules. */
  ghost function GrammarOf(t: Table, lexicon: Lexicon): Grammar {
    Grammar(lexicon.builtins + t.imports, map n | n in t.rules :: ParseRule(t.rules[n]), lexicon.decode, lexicon.prints)
  }
}
