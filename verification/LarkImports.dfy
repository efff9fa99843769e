/** What an import line brings in, and which import a name stands for. */
module LarkImports {
  import opened Wrappers
  import opened Text
  import opened LarkLexer
  import opened LarkBuiltins
  import opened LarkTable
  import opened LarkClashTexts
  import opened LarkLines

  // ---------------------------------------------------------------- one name

  /** A name of the common library, with the name it is to have here where that is another one. */
  datatype Item = Item(prefixed: bool, base: string, alias: string, before: string, after: string)

  function NameText(x: Item): string {
    if x.prefixed then "common." + x.base else x.base
  }

  function ItemText(x: Item): string {
    if x.alias == "" then NameText(x) else NameText(x) + x.before + "->" + (x.after + x.alias)
  }

  predicate IsItem(x: Item) {
    IsIdentifier(x.base) && (x.alias != "" ==> IsIdentifier(x.alias)) && AllSpace(x.before) && AllSpace(x.after)
  }

  /** Under its alias, or else its own name, and with its own pattern. */
  function Brings(x: Item): Option<Import> {
    if x.base in BUILTINS then Some(Import(if x.alias == "" then x.base else x.alias, BUILTINS[x.base])) else None
  }

  predicate NoDash(s: string) {
    forall i :: 0 <= i < |s| ==> s[i] != '-'
  }

  lemma IdentifierChars(s: string)
    requires IsIdentifier(s)
    ensures NoDash(s) && IsTrimmed(s) && TrimSpace(s) == s && !("common." <= s)
  {
    forall i | 0 <= i < |s| ensures IsIdentPart(s[i]) { assert s[i] in s; }
    assert |s| > 6 ==> s[6] != '.';
    NameTrimmed(s);
  }

  lemma PrefixChars(s: string)
    requires NoDash(s) && IsTrimmed(s) && s != ""
    ensures var t := "common." + s; NoDash(t) && IsTrimmed(t) && t != "" && TrimPrefix(t, "common.") == s
  {
    var t := "common." + s;
    assert t[|t| - 1] == s[|s| - 1] && t[0] == 'c';
    assert t[7..] == s;
  }

  lemma NameChars(x: Item)
    requires IsItem(x)
    ensures NoDash(NameText(x)) && IsTrimmed(NameText(x)) && NameText(x) != ""
    ensures TrimPrefix(NameText(x), "common.") == x.base && TrimSpace(x.base) == x.base
  {
    IdentifierChars(x.base);
    PrefixChars(x.base);
  }

  lemma ArrowFound(head: string, tail: string)
    requires NoDash(head)
    ensures IndexOf(head + "->" + tail, "->") == Some(|head|)
  {
    var s := head + "->" + tail;
    assert s[|head|..|head| + 2] == "->";
    assert OccursAt(s, "->", |head|);
    forall k: nat | k < |head| ensures !OccursAt(s, "->", k) {
      assert s[k] == head[k];
      assert k + 2 <= |s| ==> s[k..k + 2][0] == s[k];
    }
  }

  lemma NoArrowFound(s: string)
    requires NoDash(s)
    ensures IndexOf(s, "->") == None
  {
    forall k: nat ensures !OccursAt(s, "->", k) {
      assert k + 2 <= |s| ==> s[k..k + 2][0] == s[k];
    }
  }

  lemma SpacesHaveNoDash(s: string, v: string)
    requires NoDash(s) && AllSpace(v)
    ensures NoDash(s + v)
  {
    forall i | 0 <= i < |v| ensures v[i] != '-' { assert v[i] in v && IsSpace(v[i]); }
  }

  lemma AliasParts(x: Item)
    requires IsItem(x) && x.alias != ""
    ensures var s, n := ItemText(x), |NameText(x) + x.before|;
            && IndexOf(s, "->") == Some(n) && n + 2 <= |s|
            && TrimSpace(s[..n]) == NameText(x) && TrimSpace(s[n + 2..]) == x.alias
  {
    var head, tail := NameText(x) + x.before, x.after + x.alias;
    var s := head + "->" + tail;
    NameChars(x);
    SpacesHaveNoDash(NameText(x), x.before);
    ArrowFound(head, tail);
    assert s[..|head|] == head && s[|head| + 2..] == tail;
    assert "" + NameText(x) + x.before == head && x.after + x.alias + "" == tail;
    TrimAround("", NameText(x), x.before);
    IdentifierChars(x.alias);
    TrimAround(x.after, x.alias, "");
  }

  /** One name of the library, with or without another name for it. */
  lemma ItemRead(x: Item)
    requires IsItem(x)
    ensures ParseCommonImport(ItemText(x)) == Brings(x)
  {
    NameChars(x);
    if x.alias == "" { NoArrowFound(NameText(x)); } else { AliasParts(x); }
  }

  // ---------------------------------------------------------------- an import line

  /** Each part is, but for white space around it, one name. */
  predicate AreItems(parts: seq<string>, xs: seq<Item>) {
    |parts| == |xs| && forall k :: 0 <= k < |xs| ==> IsItem(xs[k]) && TrimSpace(parts[k]) == ItemText(xs[k])
  }

  /** All of them, or nothing where one is not known. */
  function BringsAll(xs: seq<Item>): Option<seq<Import>> {
    if xs == [] then Some([])
    else if Brings(xs[0]).None? || BringsAll(xs[1..]).None? then None
    else Some([Brings(xs[0]).value] + BringsAll(xs[1..]).value)
  }

  lemma {:induction false} ItemsRead(parts: seq<string>, xs: seq<Item>)
    requires AreItems(parts, xs)
    ensures ParseCommonImports(parts) == BringsAll(xs)
    decreases xs
  {
    if xs != [] {
      ItemRead(xs[0]);
      ItemsRead(parts[1..], xs[1..]);
    }
  }

  lemma ItemTrimmed(x: Item)
    requires IsItem(x)
    ensures IsTrimmed(ItemText(x)) && ItemText(x) != "" && (x.prefixed ==> "common." <= ItemText(x))
  {
    var s := ItemText(x);
    NameChars(x);
    assert s[0] == NameText(x)[0];
    if x.alias != "" {
      IdentifierChars(x.alias);
      assert s[|s| - 1] == x.alias[|x.alias| - 1];
      assert s == NameText(x) + (x.before + "->" + (x.after + x.alias));
    }
    if x.prefixed { assert NameText(x)[..7] == "common." && s[..7] == NameText(x)[..7]; }
  }

  lemma DirectiveRest(v: string, text: string)
    requires AllSpace(v) && IsTrimmed(text)
    ensures TrimSpace(TrimPrefix("%import" + (v + text), "%import")) == text
  {
    assert ("%import" + (v + text))[7..] == v + text == v + text + "";
    TrimAround(v, text, "");
  }

  /** `%import common.NAME`, with or without an alias. */
  lemma SingleRead(v: string, x: Item)
    requires AllSpace(v) && IsItem(x) && x.prefixed
    ensures ParseImport("%import" + (v + ItemText(x))) == BringsAll([x])
  {
    ItemTrimmed(x);
    DirectiveRest(v, ItemText(x));
    TrimOfTrimmed(ItemText(x));
    ItemsRead([ItemText(x)], [x]);
  }

  lemma GroupParts(w: string, a: string, group: string, b: string)
    requires AllSpace(w) && AllSpace(a) && AllSpace(b) && IsTrimmed(group)
    ensures var rest := "(" + (a + group + b) + ")";
            var text := "common" + (w + rest);
            && IsTrimmed(text) && "common" <= text && !("common." <= text)
            && TrimSpace(TrimPrefix(text, "common")) == rest
            && |rest| >= 2 && rest[0] == '(' && rest[|rest| - 1] == ')' && TrimSpace(rest[1..|rest| - 1]) == group
  {
    var rest := "(" + (a + group + b) + ")";
    var text := "common" + (w + rest);
    assert rest[1..|rest| - 1] == a + group + b;
    TrimAround(a, group, b);
    assert text[6..] == w + rest == w + rest + "";
    TrimAround(w, rest, "");
    assert text[6] == if w == "" then '(' else w[0];
    assert w != "" ==> w[0] in w && IsSpace(w[0]);
    assert text[0] == 'c' && text[|text| - 1] == ')';
    assert text[..6] == "common";
  }

  /** `%import common (A, B -> b)`: each name of the list. */
  lemma GroupRead(v: string, w: string, a: string, parts: seq<string>, b: string, xs: seq<Item>)
    requires AllSpace(v) && AllSpace(w) && AllSpace(a) && AllSpace(b)
    requires parts != [] && AllFree(parts, ',') && AreItems(parts, xs)
    requires Join(parts, [',']) != "" && IsTrimmed(Join(parts, [',']))
    ensures ParseImport("%import" + (v + ("common" + (w + ("(" + (a + Join(parts, [',']) + b) + ")"))))) ==
            BringsAll(xs)
  {
    var group := Join(parts, [',']);
    GroupParts(w, a, group, b);
    DirectiveRest(v, "common" + (w + ("(" + (a + group + b) + ")")));
    SplitJoin(parts, ',');
    ItemsRead(parts, xs);
  }

  // ---------------------------------------------------------------- the import a name stands for

  /** The last of a list to bring in `name`. */
  function LastIn(xs: seq<Import>, name: string): Option<string> {
    if xs == [] then None
    else
      var x := xs[|xs| - 1];
      if x.name == name then Some(x.pattern) else LastIn(xs[..|xs| - 1], name)
  }

  /** The last line to bring in `name`. */
  function LastImport(lines: seq<string>, name: string): Option<string> {
    if lines == [] then None
    else
      var last := TrimSpace(lines[|lines| - 1]);
      var here := if "%import" <= last && ParseImport(last).Some? then LastIn(ParseImport(last).value, name) else None;
      if here.Some? then here else LastImport(lines[..|lines| - 1], name)
  }

  function Lookup(m: map<string, string>, name: string): Option<string> {
    if name in m then Some(m[name]) else None
  }

  lemma {:induction false} AddedLast(imports: map<string, string>, xs: seq<Import>, name: string)
    ensures Lookup(AddImports(imports, xs), name) ==
            if LastIn(xs, name).Some? then LastIn(xs, name) else Lookup(imports, name)
    decreases xs
  {
    if xs != [] {
      var next := imports[xs[0].name := xs[0].pattern];
      AddedLast(next, xs[1..], name);
      FirstIn(xs, name);
    }
  }

  lemma {:induction false} FirstIn(xs: seq<Import>, name: string)
    requires xs != []
    ensures LastIn(xs, name) == if LastIn(xs[1..], name).Some? then LastIn(xs[1..], name)
                                else if xs[0].name == name then Some(xs[0].pattern) else None
    decreases xs
  {
    var init := xs[..|xs| - 1];
    if init == [] {
      assert xs[1..] == [] && xs == [xs[0]];
    } else {
      FirstIn(init, name);
      assert init[1..] == xs[1..][..|xs[1..]| - 1] && init[0] == xs[0];
    }
  }

  lemma LineImports(st: Reader, raw: string, name: string)
    requires LarkTable.ReadLine(st, raw).Some?
    ensures var line := TrimSpace(raw);
            var here := if "%import" <= line && ParseImport(line).Some? then LastIn(ParseImport(line).value, name)
                        else None;
            Lookup(LarkTable.ReadLine(st, raw).value.table.imports, name) ==
            if here.Some? then here else Lookup(st.table.imports, name)
  {
    var line := TrimSpace(raw);
    if "%import" <= line {
      assert "%" <= "%import" <= line;
      PercentFirst(line);
      if ParseImport(line).Some? { AddedLast(st.table.imports, ParseImport(line).value, name); }
    }
  }

  lemma {:induction false} ImportsRead(lines: seq<string>, name: string)
    requires LarkTable.ReadLines(NOTHING_READ, lines).Some?
    ensures Lookup(LarkTable.ReadLines(NOTHING_READ, lines).value.table.imports, name) == LastImport(lines, name)
    decreases lines
  {
    if lines != [] {
      var n := |lines| - 1;
      ReadOn(NOTHING_READ, lines, n);
      var st := LarkTable.ReadLines(NOTHING_READ, lines[..n]).value;
      assert lines[n..][0] == lines[n] && lines[n..][1..] == [];
      ImportsRead(lines[..n], name);
      LineImports(st, lines[n], name);
    }
  }

  /** A name stands for what the last import to bring it in says, and for nothing where there is none. */
  lemma ImportsAreLast(definition: string, name: string)
    requires TableOf(definition).Some?
    ensures Lookup(TableOf(definition).value.imports, name) == LastImport(Split(definition, '\n'), name)
  {
    ImportsRead(Split(definition, '\n'), name);
  }

  /** What a name stands for: its last import, else the built-in of that name, else the rule of that name. */
  lemma NamesResolve(definition: string, lexicon: Lexicon, name: string)
    requires TableOf(definition).Some?
    ensures var g, lines := GrammarOf(TableOf(definition).value, lexicon), Split(definition, '\n');
            && Lookup(g.patterns, name) ==
               (if LastImport(lines, name).Some? then LastImport(lines, name) else Lookup(lexicon.builtins, name))
            && (name in g.bodies <==> exists i: nat, parts :: WrittenAt(lines, i, name, parts))
  {
    ImportsAreLast(definition, name);
    RulesAreWritten(definition, name);
  }
}
