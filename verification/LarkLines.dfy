/** A rule that is written on several lines derives what one of its lines derives. */
module LarkLines {
  import opened Wrappers
  import opened Text
  import opened Languages
  import opened LarkSyntax
  import opened LarkLexer
  import opened LarkMeaning
  import opened LarkTable
  import opened LarkAliases
  import opened LarkClashTexts

  // ---------------------------------------------------------------- the lines of a definition

  /** Blank lines, comments and directives. */
  predicate IsIdle(raw: string) {
    var line := TrimSpace(raw);
    line == "" || "//" <= line || "#" <= line || "%" <= line
  }

  /** A line that goes on with the rule above it. */
  predicate GoesOn(raw: string) {
    "|" <= TrimSpace(raw)
  }

  /** A line that defines the rule `name` as `expr`. */
  ghost predicate Defines(raw: string, name: string, expr: string) {
    && IsIdentifier(name) && expr != ""
    && exists a, b :: TrimSpace(raw) == a + ":" + b && TrimSpace(a) == name && TrimSpace(b) == expr
  }

  ghost predicate DefinesNo(lines: seq<string>, name: string) {
    forall i, expr :: 0 <= i < |lines| ==> !Defines(lines[i], name, expr)
  }

  /** The alternatives that follow a rule, up to the line of the next rule. */
  function Alternatives(lines: seq<string>): seq<string> {
    if lines == [] || (!IsIdle(lines[0]) && !GoesOn(lines[0])) then []
    else if GoesOn(lines[0]) then [TrimSpace(TrimSpace(lines[0])[1..])] + Alternatives(lines[1..])
    else Alternatives(lines[1..])
  }

  /** Line `i` is the last to define `name`, and `parts` are what it and the lines that go on with it say. */
  ghost predicate WrittenAt(lines: seq<string>, i: nat, name: string, parts: seq<string>) {
    && i < |lines| && parts != [] && Defines(lines[i], name, parts[0])
    && DefinesNo(lines[i + 1..], name) && parts[1..] == Alternatives(lines[i + 1..])
  }

  // ---------------------------------------------------------------- reading one line

  lemma TrimmedChars(a: string, name: string)
    requires IsIdentifier(name) && TrimSpace(a) == name
    ensures ':' !in a
  {
    var v, w := TrimParts(a);
    assert a == v + name + w;
    forall k | 0 <= k < |a| ensures a[k] != ':' {
      if k < |v| {
        assert a[k] == v[k] && IsSpace(v[k]);
      } else if k < |v| + |name| {
        assert a[k] == name[k - |v|] && name[k - |v|] in name && IsIdentPart(a[k]);
      } else {
        assert a[k] == w[k - |v| - |name|] && IsSpace(a[k]);
      }
    }
  }

  lemma NoSpaceFirst(v: string, rest: string, line: string)
    requires AllSpace(v) && v + rest <= line && line != "" && !IsSpace(line[0])
    ensures v == ""
  {
    assert v <= v + rest <= line;
  }

  lemma DefinitionRead(st: Reader, raw: string, name: string, expr: string)
    requires Defines(raw, name, expr)
    ensures LarkTable.ReadLine(st, raw) == Some(Reader(Table(st.table.rules[name := expr], st.table.imports), name))
    ensures !IsIdle(raw) && !GoesOn(raw)
  {
    var a, b :| TrimSpace(raw) == a + ":" + b && TrimSpace(a) == name && TrimSpace(b) == expr;
    var line := TrimSpace(raw);
    TrimmedChars(a, name);
    ColonFound(a, b);
    assert line[..|a|] == a && line[|a| + 1..] == b;
    NameFirst(raw, a, name);
    StartsLikeName(line);
  }

  lemma NameFirst(raw: string, a: string, name: string)
    requires IsIdentifier(name) && TrimSpace(a) == name && a <= TrimSpace(raw)
    ensures a != "" && IsIdentStart(TrimSpace(raw)[0])
  {
    var v, w := TrimParts(a);
    var x, y := TrimParts(raw);
    assert a == v + (name + w);
    NoSpaceFirst(v, name + w, TrimSpace(raw));
    assert a[0] == name[0];
  }

  /** Any other line that is read and neither idle nor goes on defines a rule. */
  lemma OtherLineDefines(st: Reader, raw: string) returns (name: string, expr: string)
    requires !IsIdle(raw) && !GoesOn(raw) && LarkTable.ReadLine(st, raw).Some?
    ensures Defines(raw, name, expr)
  {
    var line := TrimSpace(raw);
    NoDirective(line);
    var colon := IndexOf(line, ":").value;
    name, expr := TrimSpace(line[..colon]), TrimSpace(line[colon + 1..]);
    assert line[colon..colon + 1] == ":";
    assert line == line[..colon] + line[colon..colon + 1] + line[colon + 1..];
  }

  lemma NoDirective(line: string)
    requires !("%" <= line)
    ensures !("%ignore" <= line) && !("%import" <= line) && !("%declare" <= line)
  {
    assert "%" <= "%ignore" && "%" <= "%import" && "%" <= "%declare";
  }

  lemma IdleRead(st: Reader, raw: string)
    requires IsIdle(raw) && LarkTable.ReadLine(st, raw).Some?
    ensures var next := LarkTable.ReadLine(st, raw).value;
            next.lastRule == st.lastRule && next.table.rules == st.table.rules
    ensures !GoesOn(raw)
  {
    var line := TrimSpace(raw);
    assert line != "" ==> line[..1] == [line[0]];
    if "%" <= line { PercentDefines(line); }
  }

  lemma PercentDefines(line: string)
    requires "%" <= line
    ensures IndexOf(line, ":").Some? ==> !IsIdentifier(TrimSpace(line[..IndexOf(line, ":").value]))
  {
    if IndexOf(line, ":").Some? {
      var a := line[..IndexOf(line, ":").value];
      var v, w := TrimParts(a);
      var rest := TrimSpace(a) + w;
      assert a == v + rest && a <= line && line[0] == '%';
      NoSpaceFirst(v, rest, line);
      assert a != "" ==> a[0] == '%' && TrimSpace(a) + w == a;
    }
  }

  // ---------------------------------------------------------------- reading the lines of a rule

  function JoinAfter(expr: string, parts: seq<string>): string
    decreases parts
  {
    if parts == [] then expr else JoinAfter(expr + " | " + parts[0], parts[1..])
  }

  lemma RestDefinesNo(lines: seq<string>, name: string)
    requires lines != []
    ensures DefinesNo(lines, name) <==> DefinesNo(lines[1..], name) && forall expr :: !Defines(lines[0], name, expr)
  {
    assert forall i :: 0 <= i < |lines[1..]| ==> lines[1..][i] == lines[i + 1];
    assert forall i :: 0 < i < |lines| ==> lines[i] == lines[1..][i - 1];
  }

  /** One line leaves a rule alone that it does not define and that is not the last one defined. */
  lemma LineKeeps(st: Reader, raw: string, name: string)
    requires LarkTable.ReadLine(st, raw).Some? && (forall expr :: !Defines(raw, name, expr)) && st.lastRule != name
    ensures var next := LarkTable.ReadLine(st, raw).value;
            && next.lastRule != name && (name in next.table.rules <==> name in st.table.rules)
            && (name in st.table.rules ==> next.table.rules[name] == st.table.rules[name])
  {
    if IsIdle(raw) {
      IdleRead(st, raw);
    } else if GoesOn(raw) {
      GoesOnRead(st, raw);
    } else {
      var other, expr := OtherLineDefines(st, raw);
      DefinitionRead(st, raw, other, expr);
    }
  }

  lemma GoesOnRead(st: Reader, raw: string)
    requires !IsIdle(raw) && GoesOn(raw) && LarkTable.ReadLine(st, raw).Some?
    ensures st.lastRule in st.table.rules
    ensures var expr := st.table.rules[st.lastRule] + " | " + TrimSpace(TrimSpace(raw)[1..]);
            LarkTable.ReadLine(st, raw) ==
            Some(Reader(Table(st.table.rules[st.lastRule := expr], st.table.imports), st.lastRule))
  {
    NoDirective(TrimSpace(raw));
  }

  lemma {:induction false} OthersKeep(st: Reader, lines: seq<string>, name: string)
    requires LarkTable.ReadLines(st, lines).Some? && DefinesNo(lines, name) && st.lastRule != name
    ensures var rules := LarkTable.ReadLines(st, lines).value.table.rules;
            (name in rules <==> name in st.table.rules) && (name in rules ==> rules[name] == st.table.rules[name])
    decreases lines
  {
    if lines != [] {
      RestDefinesNo(lines, name);
      LineKeeps(st, lines[0], name);
      OthersKeep(LarkTable.ReadLine(st, lines[0]).value, lines[1..], name);
    }
  }

  /** Behind the line of a rule: what goes on with it is joined to it. */
  lemma {:induction false} BlockRead(st: Reader, lines: seq<string>, name: string)
    requires LarkTable.ReadLines(st, lines).Some? && DefinesNo(lines, name)
    requires st.lastRule == name && name in st.table.rules
    ensures var rules := LarkTable.ReadLines(st, lines).value.table.rules;
            name in rules && rules[name] == JoinAfter(st.table.rules[name], Alternatives(lines))
    decreases lines
  {
    if lines != [] {
      var next := LarkTable.ReadLine(st, lines[0]).value;
      RestDefinesNo(lines, name);
      if IsIdle(lines[0]) {
        IdleRead(st, lines[0]);
        BlockRead(next, lines[1..], name);
      } else if GoesOn(lines[0]) {
        GoesOnRead(st, lines[0]);
        BlockRead(next, lines[1..], name);
        var more := Alternatives(lines[1..]);
        var first := TrimSpace(TrimSpace(lines[0])[1..]);
        assert ([first] + more)[1..] == more;
      } else {
        var other, expr := OtherLineDefines(st, lines[0]);
        DefinitionRead(st, lines[0], other, expr);
        OthersKeep(next, lines[1..], name);
      }
    }
  }

  lemma {:induction false} ReadOn(st: Reader, lines: seq<string>, i: nat)
    requires LarkTable.ReadLines(st, lines).Some? && i <= |lines|
    ensures LarkTable.ReadLines(st, lines[..i]).Some?
    ensures LarkTable.ReadLines(LarkTable.ReadLines(st, lines[..i]).value, lines[i..]) ==
            LarkTable.ReadLines(st, lines)
    decreases i
  {
    if i == 0 {
      assert lines[0..] == lines;
    } else {
      var next := LarkTable.ReadLine(st, lines[0]).value;
      assert lines[..i][1..] == lines[1..][..i - 1] && lines[1..][i - 1..] == lines[i..];
      ReadOn(next, lines[1..], i - 1);
    }
  }

  lemma BlockOf(lines: seq<string>, i: nat, name: string, expr: string)
    requires LarkTable.ReadLines(NOTHING_READ, lines).Some?
    requires i < |lines| && Defines(lines[i], name, expr) && DefinesNo(lines[i + 1..], name)
    ensures var rules := LarkTable.ReadLines(NOTHING_READ, lines).value.table.rules;
            name in rules && rules[name] == JoinAfter(expr, Alternatives(lines[i + 1..]))
  {
    ReadOn(NOTHING_READ, lines, i);
    var st := LarkTable.ReadLines(NOTHING_READ, lines[..i]).value;
    assert lines[i..][0] == lines[i] && lines[i..][1..] == lines[i + 1..];
    DefinitionRead(st, lines[i], name, expr);
    BlockRead(LarkTable.ReadLine(st, lines[i]).value, lines[i + 1..], name);
  }

  lemma WrittenRead(definition: string, i: nat, name: string, parts: seq<string>)
    requires TableOf(definition).Some? && WrittenAt(Split(definition, '\n'), i, name, parts)
    ensures var rules := TableOf(definition).value.rules;
            name in rules && rules[name] == JoinAfter(parts[0], parts[1..])
  {
    BlockOf(Split(definition, '\n'), i, name, parts[0]);
  }

  // ---------------------------------------------------------------- every rule is written somewhere

  lemma {:induction false} UndefinedStays(st: Reader, lines: seq<string>, name: string)
    requires LarkTable.ReadLines(st, lines).Some? && DefinesNo(lines, name) && name !in st.table.rules
    ensures name !in LarkTable.ReadLines(st, lines).value.table.rules
    decreases lines
  {
    if lines != [] {
      var next := LarkTable.ReadLine(st, lines[0]).value;
      RestDefinesNo(lines, name);
      if IsIdle(lines[0]) {
        IdleRead(st, lines[0]);
      } else if GoesOn(lines[0]) {
        GoesOnRead(st, lines[0]);
      } else {
        var other, expr := OtherLineDefines(st, lines[0]);
        DefinitionRead(st, lines[0], other, expr);
      }
      UndefinedStays(next, lines[1..], name);
    }
  }

  lemma {:induction false} LastDefinition(lines: seq<string>, name: string) returns (i: nat, expr: string)
    requires !DefinesNo(lines, name)
    ensures i < |lines| && Defines(lines[i], name, expr) && DefinesNo(lines[i + 1..], name)
    decreases lines
  {
    if DefinesNo(lines[1..], name) {
      RestDefinesNo(lines, name);
      var e :| Defines(lines[0], name, e);
      i, expr := 0, e;
    } else {
      i, expr := LastDefinition(lines[1..], name);
      assert lines[1..][i + 1..] == lines[i + 2..] && lines[1..][i] == lines[i + 1];
      i := i + 1;
    }
  }

  /** The rules of a definition are those that a line defines. */
  lemma RulesAreWritten(definition: string, name: string)
    requires TableOf(definition).Some?
    ensures name in TableOf(definition).value.rules <==>
            exists i: nat, parts :: WrittenAt(Split(definition, '\n'), i, name, parts)
  {
    var lines := Split(definition, '\n');
    if DefinesNo(lines, name) {
      UndefinedStays(NOTHING_READ, lines, name);
      forall i: nat, parts ensures !WrittenAt(lines, i, name, parts) {
        if i < |lines| && parts != [] { assert !Defines(lines[i], name, parts[0]); }
      }
    } else {
      var i, expr := LastDefinition(lines, name);
      var parts := [expr] + Alternatives(lines[i + 1..]);
      assert parts[1..] == Alternatives(lines[i + 1..]);
      assert WrittenAt(lines, i, name, parts);
      WrittenRead(definition, i, name, parts);
      assert name in TableOf(definition).value.rules;
      assert exists j: nat, more :: WrittenAt(Split(definition, '\n'), j, name, more);
    }
  }

  // ---------------------------------------------------------------- which definitions are read

  ghost predicate DefinesSome(raw: string) {
    exists name, expr :: Defines(raw, name, expr)
  }

  predicate IsImport(raw: string) {
    "%import" <= TrimSpace(raw) && ParseImport(TrimSpace(raw)).Some?
  }

  /** A line with its place: nothing goes on before a rule, and of the directives only imports are known. */
  ghost predicate Fits(raw: string, afterRule: bool) {
    if IsIdle(raw) then "%" <= TrimSpace(raw) ==> IsImport(raw)
    else if GoesOn(raw) then afterRule
    else DefinesSome(raw)
  }

  ghost predicate AllFit(lines: seq<string>, afterRule: bool) {
    lines == [] || (Fits(lines[0], afterRule) && AllFit(lines[1..], afterRule || DefinesSome(lines[0])))
  }

  predicate Sound(st: Reader) {
    st.lastRule != "" ==> st.lastRule in st.table.rules
  }

  lemma IdleIff(st: Reader, raw: string)
    requires IsIdle(raw)
    ensures LarkTable.ReadLine(st, raw).Some? <==> ("%" <= TrimSpace(raw) ==> IsImport(raw))
  {
    if "%" <= TrimSpace(raw) { PercentIff(st, raw); }
  }

  lemma PercentFirst(line: string)
    requires "%" <= line
    ensures line != "" && !("//" <= line) && !("#" <= line) && !("|" <= line)
    ensures "%ignore" <= line ==> !("%import" <= line)
  {
    assert line[0] == '%';
    assert "%ignore" <= line ==> line[2] == 'g';
    assert "%import" <= line ==> line[2] == 'm';
  }

  lemma PercentIff(st: Reader, raw: string)
    requires "%" <= TrimSpace(raw)
    ensures LarkTable.ReadLine(st, raw).Some? <==> IsImport(raw)
  {
    PercentFirst(TrimSpace(raw));
    PercentDefines(TrimSpace(raw));
  }

  lemma LineIff(st: Reader, raw: string)
    requires Sound(st)
    ensures LarkTable.ReadLine(st, raw).Some? <==> Fits(raw, st.lastRule != "")
    ensures LarkTable.ReadLine(st, raw).Some? ==>
              var next := LarkTable.ReadLine(st, raw).value;
              Sound(next) && (next.lastRule != "" <==> st.lastRule != "" || DefinesSome(raw))
  {
    if DefinesSome(raw) {
      var name, expr :| Defines(raw, name, expr);
      DefinitionRead(st, raw, name, expr);
    } else if IsIdle(raw) {
      IdleIff(st, raw);
      if LarkTable.ReadLine(st, raw).Some? { IdleRead(st, raw); }
    } else if GoesOn(raw) {
      NoDirective(TrimSpace(raw));
    } else if LarkTable.ReadLine(st, raw).Some? {
      var name, expr := OtherLineDefines(st, raw);
      assert false;
    }
  }

  lemma {:induction false} LinesIff(st: Reader, lines: seq<string>)
    requires Sound(st)
    ensures LarkTable.ReadLines(st, lines).Some? <==> AllFit(lines, st.lastRule != "")
    decreases lines
  {
    if lines != [] {
      LineIff(st, lines[0]);
      if LarkTable.ReadLine(st, lines[0]).Some? {
        LinesIff(LarkTable.ReadLine(st, lines[0]).value, lines[1..]);
      }
    }
  }

  /** A definition is read exactly when each of its lines fits its place and some line defines `start`. */
  lemma DefinitionIff(definition: string)
    ensures var lines := Split(definition, '\n');
            TableOf(definition).Some? <==> AllFit(lines, false) && !DefinesNo(lines, "start")
  {
    var lines := Split(definition, '\n');
    LinesIff(NOTHING_READ, lines);
    if LarkTable.ReadLines(NOTHING_READ, lines).Some? {
      if DefinesNo(lines, "start") {
        UndefinedStays(NOTHING_READ, lines, "start");
      } else {
        StartIsRead(lines);
      }
    }
  }

  lemma StartIsRead(lines: seq<string>)
    requires LarkTable.ReadLines(NOTHING_READ, lines).Some? && !DefinesNo(lines, "start")
    ensures "start" in LarkTable.ReadLines(NOTHING_READ, lines).value.table.rules
  {
    var i, expr := LastDefinition(lines, "start");
    BlockOf(lines, i, "start", expr);
  }

  // ---------------------------------------------------------------- joining two expressions

  /** A text that starts with a blank and a bar does not reach back into what stands before it. */
  predicate StartsBar(s: string) {
    |s| >= 2 && s[0] == ' ' && s[1] == '|'
  }

  lemma {:induction false} SpacesBeforeBar(x: string, bar: string, i: nat)
    requires StartsBar(bar) && i <= |x|
    ensures SkipSpaces(x + bar, i) == if SkipSpaces(x, i) < |x| then SkipSpaces(x, i) else |x| + 1
    decreases |x| - i
  {
    if i == |x| {
      assert SkipSpaces(x + bar, |x| + 1) == |x| + 1;
    } else if IsRegexSpace(x[i]) {
      SpacesBeforeBar(x, bar, i + 1);
    }
  }

  lemma {:induction false} IdentifierBeforeBar(x: string, bar: string, i: nat)
    requires StartsBar(bar) && i <= |x|
    ensures SkipIdentifier(x + bar, i) == SkipIdentifier(x, i)
    decreases |x| - i
  {
    if i < |x| { IdentifierBeforeBar(x, bar, i + 1); }
  }

  lemma AliasBeforeBar(x: string, bar: string)
    requires StartsBar(bar)
    ensures AliasLength(x + bar) == AliasLength(x)
  {
    var s, arrow := x + bar, SkipSpaces(x, 0);
    SpacesBeforeBar(x, bar, 0);
    if arrow < |x| {
      assert s[arrow] == x[arrow];
      assert arrow + 1 < |x| ==> s[arrow + 1] == x[arrow + 1];
      if "->" <= x[arrow..] {
        assert x[arrow] == '-' && x[arrow + 1] == '>';
        assert s[arrow..][..2] == "->";
        SpacesBeforeBar(x, bar, arrow + 2);
        IdentifierBeforeBar(x, bar, SkipSpaces(x, arrow + 2));
      }
    }
  }

  lemma {:induction false} StripBeforeBar(x: string, bar: string)
    requires StartsBar(bar)
    ensures StripAliases(x + bar) == StripAliases(x) + StripAliases(bar)
    decreases x
  {
    AliasBeforeBar(x, bar);
    var n := AliasLength(x);
    if x == "" {
      assert x + bar == bar;
    } else if n > 0 {
      assert (x + bar)[n..] == x[n..] + bar;
      StripBeforeBar(x[n..], bar);
    } else {
      assert (x + bar)[1..] == x[1..] + bar;
      StripBeforeBar(x[1..], bar);
    }
  }

  /** A blank in front is kept, or goes with the alias behind it. */
  lemma StripBlank(y: string)
    ensures StripAliases(" " + y) == (if AliasLength(y) > 0 then "" else " ") + StripAliases(y)
  {
    SpacesBefore(" ", y);
    var s := " " + y;
    if AliasLength(y) > 0 {
      assert s[1 + AliasLength(y)..] == y[AliasLength(y)..];
    } else {
      assert s[1..] == y;
    }
  }

  lemma StripBar(y: string)
    ensures StripAliases(" | " + y) == " |" + StripAliases(" " + y)
  {
    var s := " | " + y;
    assert s[0..] == s && s[0..2] == " |" && s[2..] == " " + y;
    SpacesEnd(s[0..], 0, 1);
    SpacesEnd(s[1..], 0, 0);
    assert Quiet(s, 0) && Quiet(s, 1);
    StripQuiet(s, 0, 2);
  }

  lemma EndsStill(t: Token, x: string, rest: string)
    requires EndsBefore(t, x) && rest != "" && rest[0] == ' '
    ensures EndsBefore(t, x + rest)
  {
    assert (x + rest)[0] == if x == "" then rest[0] else x[0];
  }

  lemma SpaceFirst(x: string, rest: string, tokens: seq<Token>)
    requires x != "" && IsSpace(x[0]) && Spelling(x[1..] + rest, tokens)
    ensures Spelling(x + rest, tokens)
  {
    assert (x + rest)[1..] == x[1..] + rest;
  }

  lemma TokenFirst(x: string, n: nat, t: Token, rest: string, tokens: seq<Token>)
    requires n <= |x| && Spells(x[..n], t) && EndsBefore(t, x[n..])
    requires rest != "" && rest[0] == ' ' && Spelling(x[n..] + rest, tokens)
    ensures Spelling(x + rest, [t] + tokens)
  {
    var all := x + rest;
    assert all[..n] == x[..n] && all[n..] == x[n..] + rest;
    EndsStill(t, x[n..], rest);
    SpellFirst(all, n, t, tokens);
  }

  lemma SpellFirst(s: string, n: nat, t: Token, tokens: seq<Token>)
    requires n <= |s| && Spells(s[..n], t) && EndsBefore(t, s[n..]) && Spelling(s[n..], tokens)
    ensures Spelling(s, [t] + tokens)
  {
    SpellsStart(s[..n], t);
    assert s[..n][0] == s[0] && ([t] + tokens)[1..] == tokens;
  }

  lemma SpellingParts(s: string, tokens: seq<Token>) returns (n: nat)
    requires Spelling(s, tokens) && s != "" && !IsSpace(s[0])
    ensures tokens != [] && 0 < n <= |s| && Spells(s[..n], tokens[0]) && EndsBefore(tokens[0], s[n..])
    ensures Spelling(s[n..], tokens[1..])
  {
    n :| 0 < n <= |s| && Spells(s[..n], tokens[0]) && EndsBefore(tokens[0], s[n..]) && Spelling(s[n..], tokens[1..]);
  }

  lemma {:induction false} SpellingConcat(x: string, a: seq<Token>, rest: string, b: seq<Token>)
    requires Spelling(x, a) && rest != "" && rest[0] == ' ' && Spelling(rest, b)
    ensures Spelling(x + rest, a + b)
    decreases x
  {
    if x == "" {
      assert x + rest == rest && a + b == b;
    } else if IsSpace(x[0]) {
      SpellingConcat(x[1..], a, rest, b);
      SpaceFirst(x, rest, a + b);
    } else {
      var n := SpellingParts(x, a);
      SpellingConcat(x[n..], a[1..], rest, b);
      TokenFirst(x, n, a[0], rest, a[1..] + b);
      assert [a[0]] + (a[1..] + b) == a + b;
    }
  }

  lemma {:induction false} SpellingEndsNot(s: string, tokens: seq<Token>)
    requires Spelling(s, tokens)
    ensures Eof !in tokens
    decreases s
  {
    if s != "" && IsSpace(s[0]) {
      SpellingEndsNot(s[1..], tokens);
    } else if tokens != [] {
      var n :| 0 < n <= |s| && Spells(s[..n], tokens[0]) && EndsBefore(tokens[0], s[n..]) &&
        Spelling(s[n..], tokens[1..]);
      SpellingEndsNot(s[n..], tokens[1..]);
    }
  }

  /** An expression is read as `c` exactly when its text without aliases spells `c`. */
  lemma ReadsIffSpells(expr: string, c: Choice)
    ensures ParseRule(expr) == Some(c) <==> Spelling(StripAliases(expr), ChoiceTokens(c))
  {
    var s := StripAliases(expr);
    if Spellable(s) {
      var tokens :| Spelling(s, tokens) && TokensOf(s) == Some(tokens + [Eof]);
      SpellingEndsNot(s, tokens);
      var all := tokens + [Eof];
      assert all[..|all| - 1] == tokens;
      ParserDecidesGrammar(all, c);
      if Spelling(s, ChoiceTokens(c)) { SpellingUnique(s, tokens, ChoiceTokens(c)); }
      assert all == ChoiceTokens(c) + [Eof] ==> (ChoiceTokens(c) + [Eof])[..|all| - 1] == ChoiceTokens(c);
    }
  }

  /** All alternatives of both. */
  function OrElse(c: Choice, d: Choice): Choice {
    match d
    case Only(chain) => Or(c, chain)
    case Or(init, last) => Or(OrElse(c, init), last)
  }

  lemma {:induction false} OrElseTokens(c: Choice, d: Choice)
    ensures ChoiceTokens(OrElse(c, d)) == ChoiceTokens(c) + [Pipe] + ChoiceTokens(d)
    decreases d
  {
    if d.Or? { OrElseTokens(c, d.init); }
  }

  lemma {:induction false} OrElseWords(g: Grammar, units: string -> Language, depth: nat, c: Choice, d: Choice)
    ensures ChoiceWords(g, units, depth, OrElse(c, d)) ==
            ChoiceWords(g, units, depth, c) + ChoiceWords(g, units, depth, d)
    decreases d
  {
    if d.Or? { OrElseWords(g, units, depth, c, d.init); }
  }

  lemma BlankSpells(y: string, tokens: seq<Token>)
    requires Spelling(StripAliases(y), tokens)
    ensures Spelling(StripAliases(" " + y), tokens)
  {
    StripBlank(y);
    if AliasLength(y) > 0 {
      assert "" + StripAliases(y) == StripAliases(y);
    } else {
      SpellBlank(StripAliases(y), tokens);
    }
  }

  lemma BarSpells(y: string, tokens: seq<Token>)
    requires Spelling(StripAliases(y), tokens)
    ensures Spelling(StripAliases(" | " + y), [Pipe] + tokens)
    ensures var bar := StripAliases(" | " + y); bar != "" && bar[0] == ' '
  {
    var rest := StripAliases(" " + y);
    BlankSpells(y, tokens);
    SpellThen("|", Pipe, rest, tokens);
    SpellBlank("|" + rest, [Pipe] + tokens);
    StripBar(y);
    assert " " + ("|" + rest) == " |" + rest;
  }

  lemma BarFollows(x: string, a: seq<Token>, bar: string, b: seq<Token>)
    requires Spelling(StripAliases(x), a) && StartsBar(bar) && Spelling(StripAliases(bar), b)
    requires StripAliases(bar) != "" && StripAliases(bar)[0] == ' '
    ensures Spelling(StripAliases(x + bar), a + b)
  {
    StripBeforeBar(x, bar);
    SpellingConcat(StripAliases(x), a, StripAliases(bar), b);
  }

  lemma JoinSpells(x: string, a: seq<Token>, y: string, b: seq<Token>)
    requires Spelling(StripAliases(x), a) && Spelling(StripAliases(y), b)
    ensures Spelling(StripAliases(x + " | " + y), a + [Pipe] + b)
  {
    var bar := " | " + y;
    BarSpells(y, b);
    BarFollows(x, a, bar, [Pipe] + b);
    assert x + bar == x + " | " + y && a + ([Pipe] + b) == a + [Pipe] + b;
  }

  lemma TwoPartsRead(x: string, c: Choice, y: string, d: Choice)
    requires ParseRule(x) == Some(c) && ParseRule(y) == Some(d)
    ensures ParseRule(x + " | " + y) == Some(OrElse(c, d))
  {
    ReadsIffSpells(x, c);
    ReadsIffSpells(y, d);
    JoinSpells(x, ChoiceTokens(c), y, ChoiceTokens(d));
    OrElseTokens(c, d);
    ReadsIffSpells(x + " | " + y, OrElse(c, d));
  }

  /** The postfix signs: what is written, what it is read as, and how often it allows to repeat. */
  lemma QuantifierMeans(q: Quantifier)
    ensures Spells(q.Sign(), q.Token()) && QuantifierOf(q.Token()) == Some(q)
    ensures q.Sign() == "*" <==> q.Times() == Times(0, None)
    ensures q.Sign() == "+" <==> q.Times() == Times(1, None)
    ensures q.Sign() == "?" <==> q.Times() == Times(0, Some(1))
  {
    match q
    case ZeroOrMore => assert q.Sign() == "*";
    case OneOrMore => assert q.Sign() == "+";
    case Optional => assert q.Sign() == "?";
  }

  // ---------------------------------------------------------------- what the rule derives

  ghost predicate AllRead(parts: seq<string>) {
    forall k :: 0 <= k < |parts| ==> ParseRule(parts[k]).Some?
  }

  /** The span is derived from one of the parts, each read by itself. */
  ghost predicate OneDerives(g: Grammar, units: string -> Language, depth: nat, parts: seq<string>, s: Span)
    requires AllRead(parts)
  {
    exists k :: 0 <= k < |parts| && s in ChoiceWords(g, units, depth, ParseRule(parts[k]).value)
  }

  lemma {:induction false} JoinedReads(g: Grammar, units: string -> Language, depth: nat, expr: string,
                                       parts: seq<string>, s: Span)
    requires ParseRule(expr).Some? && AllRead(parts)
    ensures ParseRule(JoinAfter(expr, parts)).Some?
    ensures s in ChoiceWords(g, units, depth, ParseRule(JoinAfter(expr, parts)).value) <==>
            s in ChoiceWords(g, units, depth, ParseRule(expr).value) || OneDerives(g, units, depth, parts, s)
    decreases parts
  {
    if parts != [] {
      var c, d, rest := ParseRule(expr).value, ParseRule(parts[0]).value, parts[1..];
      TwoPartsRead(expr, c, parts[0], d);
      OrElseWords(g, units, depth, c, d);
      assert forall k :: 0 <= k < |rest| ==> rest[k] == parts[k + 1];
      JoinedReads(g, units, depth, expr + " | " + parts[0], rest, s);
      OneStep(g, units, depth, parts, s);
    }
  }

  lemma OneStep(g: Grammar, units: string -> Language, depth: nat, parts: seq<string>, s: Span)
    requires parts != [] && AllRead(parts)
    ensures AllRead(parts[1..])
    ensures OneDerives(g, units, depth, parts, s) <==>
            s in ChoiceWords(g, units, depth, ParseRule(parts[0]).value) || OneDerives(g, units, depth, parts[1..], s)
  {
    var rest := parts[1..];
    assert forall k :: 0 <= k < |rest| ==> rest[k] == parts[k + 1];
    assert forall k :: 0 < k < |parts| ==> parts[k] == rest[k - 1];
  }

  lemma JoinedStep(g: Grammar, units: string -> Language, depth: nat, name: string, parts: seq<string>, s: Span)
    requires parts != [] && AllRead(parts)
    requires g.HasBody(name) && Some(g.BodyOf(name)) == ParseRule(JoinAfter(parts[0], parts[1..]))
    ensures s in NameWords(g, units, depth + 1, name) <==> OneDerives(g, units, depth, parts, s)
  {
    OneStep(g, units, depth, parts, s);
    JoinedReads(g, units, depth, parts[0], parts[1..], s);
  }

  lemma JoinedDerives(g: Grammar, units: string -> Language, name: string, parts: seq<string>, s: Span)
    requires parts != [] && AllRead(parts)
    requires g.HasBody(name) && Some(g.BodyOf(name)) == ParseRule(JoinAfter(parts[0], parts[1..]))
    ensures Derives(g, units, name, s) <==> exists depth: nat :: OneDerives(g, units, depth, parts, s)
  {
    if Derives(g, units, name, s) {
      var depth: nat :| s in NameWords(g, units, depth, name);
      JoinedStep(g, units, depth - 1, name, parts, s);
    }
    if exists depth: nat :: OneDerives(g, units, depth, parts, s) {
      var depth: nat :| OneDerives(g, units, depth, parts, s);
      JoinedStep(g, units, depth, name, parts, s);
    }
  }

  /**
    A rule whose lines are each an expression of their own derives a span exactly when one of them
    does: the line that names it, or a line that goes on with it.
   */
  lemma LinesAreAlternatives(definition: string, lexicon: Lexicon, units: string -> Language, i: nat, name: string,
                             parts: seq<string>, s: Span)
    requires TableOf(definition).Some? && WrittenAt(Split(definition, '\n'), i, name, parts) && AllRead(parts)
    requires name !in GrammarOf(TableOf(definition).value, lexicon).patterns
    ensures var g := GrammarOf(TableOf(definition).value, lexicon);
            Derives(g, units, name, s) <==> exists depth: nat :: OneDerives(g, units, depth, parts, s)
  {
    var g := GrammarOf(TableOf(definition).value, lexicon);
    WrittenRead(definition, i, name, parts);
    assert AllRead(parts[1..]) by { OneStep(g, units, 0, parts, s); }
    JoinedReads(g, units, 0, parts[0], parts[1..], s);
    JoinedDerives(g, units, name, parts, s);
  }
}
