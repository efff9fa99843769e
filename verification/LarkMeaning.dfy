/**
  The meaning of a Lark rule table, and the regular expression that inlining its rules
  gives.  The table is abstract here: named patterns (imports first, then built-ins), rule
  bodies (absent where the rule text does not parse), the decoding of string literals, and
  which characters are printed as they are.
 */
module LarkMeaning {
  import opened Wrappers
  import opened Languages
  import opened RegexText
  import opened RegexMeaning
  import opened LarkSyntax

  datatype Grammar = Grammar(
    patterns: map<string, string>,
    bodies: map<string, Option<Choice>>,
    decode: string -> Option<string>,
    prints: char -> bool)
  {
    /** A rule that is looked up as a rule, and whose text parses. */
    predicate HasBody(name: string) {
      name !in patterns && name in bodies && bodies[name].Some?
    }

    function BodyOf(name: string): Choice
      requires HasBody(name)
    {
      bodies[name].value
    }
  }

  // ---------------------------------------------------------------- derivation

  /** The words `name` derives with rules unfolded to depth `depth`. */
  ghost function NameWords(g: Grammar, units: string -> Language, depth: nat, name: string): Language
    decreases depth, 0
  {
    if depth == 0 then iset{}
    else if name in g.patterns then RegexLanguage(units, g.patterns[name])
    else if g.HasBody(name) then ChoiceWords(g, units, depth - 1, g.BodyOf(name))
    else iset{}
  }

  ghost function ChoiceWords(g: Grammar, units: string -> Language, depth: nat, c: Choice): Language
    decreases depth, 1, c
  {
    match c
    case Only(chain) => ChainWords(g, units, depth, chain)
    case Or(init, last) => ChoiceWords(g, units, depth, init) + ChainWords(g, units, depth, last)
  }

  ghost function ChainWords(g: Grammar, units: string -> Language, depth: nat, c: Chain): Language
    decreases depth, 1, c
  {
    match c
    case First(t) => TermWords(g, units, depth, t)
    case Then(init, last) => Concat(ChainWords(g, units, depth, init), TermWords(g, units, depth, last))
  }

  ghost function TermWords(g: Grammar, units: string -> Language, depth: nat, t: Term): Language
    decreases depth, 1, t
  {
    match t
    case Plain(p) => PrimaryWords(g, units, depth, p)
    case Quantified(u, q) => Repeat(TermWords(g, units, depth, u), q.Times())
  }

  ghost function PrimaryWords(g: Grammar, units: string -> Language, depth: nat, p: Primary): Language
    decreases depth, 1, p
  {
    match p
    case Rule(name) => NameWords(g, units, depth, name)
    case Literal(raw) => (match g.decode(raw) case None => iset{} case Some(v) => Word(v))
    case Pattern(text) => RegexLanguage(units, text)
    case Paren(c) => ChoiceWords(g, units, depth, c)
  }

  /** The rule derives what the span covers, where it stands. */
  ghost predicate Derives(g: Grammar, units: string -> Language, name: string, s: Span) {
    exists depth: nat :: s in NameWords(g, units, depth, name)
  }

  lemma {:induction false} NameDeeper(g: Grammar, units: string -> Language, depth: nat, name: string)
    ensures NameWords(g, units, depth, name) <= NameWords(g, units, depth + 1, name)
    decreases depth, 0
  {
    if depth > 0 && g.HasBody(name) {
      ChoiceDeeper(g, units, depth - 1, g.BodyOf(name));
    }
  }

  lemma {:induction false} ChoiceDeeper(g: Grammar, units: string -> Language, depth: nat, c: Choice)
    ensures ChoiceWords(g, units, depth, c) <= ChoiceWords(g, units, depth + 1, c)
    decreases depth, 1, c
  {
    match c
    case Only(chain) => ChainDeeper(g, units, depth, chain);
    case Or(init, last) =>
      ChoiceDeeper(g, units, depth, init);
      ChainDeeper(g, units, depth, last);
  }

  lemma {:induction false} ChainDeeper(g: Grammar, units: string -> Language, depth: nat, c: Chain)
    ensures ChainWords(g, units, depth, c) <= ChainWords(g, units, depth + 1, c)
    decreases depth, 1, c
  {
    match c
    case First(t) => TermDeeper(g, units, depth, t);
    case Then(init, last) =>
      ChainDeeper(g, units, depth, init);
      TermDeeper(g, units, depth, last);
      ConcatMonotone(ChainWords(g, units, depth, init), ChainWords(g, units, depth + 1, init),
                     TermWords(g, units, depth, last), TermWords(g, units, depth + 1, last));
  }

  lemma {:induction false} TermDeeper(g: Grammar, units: string -> Language, depth: nat, t: Term)
    ensures TermWords(g, units, depth, t) <= TermWords(g, units, depth + 1, t)
    decreases depth, 1, t
  {
    match t
    case Plain(Rule(name)) => NameDeeper(g, units, depth, name);
    case Plain(Paren(c)) => ChoiceDeeper(g, units, depth, c);
    case Plain(_) =>
    case Quantified(u, q) =>
      TermDeeper(g, units, depth, u);
      RepeatMonotone(TermWords(g, units, depth, u), TermWords(g, units, depth + 1, u), q.Times());
  }

  lemma {:induction false} NameMonotone(g: Grammar, units: string -> Language, d: nat, e: nat, name: string)
    requires d <= e
    ensures NameWords(g, units, d, name) <= NameWords(g, units, e, name)
    decreases e - d
  {
    if d < e {
      NameDeeper(g, units, d, name);
      NameMonotone(g, units, d + 1, e, name);
    }
  }

  // ---------------------------------------------------------------- inlining

  /** An emitted text together with the regular expression it is meant to be. */
  datatype Fragment = Fragment(text: string, tree: Sequence)

  /** Alternatives joined by `|`, before they are wrapped. */
  datatype Joined = Joined(text: string, tree: Alternatives)

  function Wrap(j: Joined): Fragment {
    Fragment("(?:" + j.text + ")", Sequence(Empty, Group(j.tree)))
  }

  function AsOne(f: Fragment): Joined {
    Joined(f.text, Alternatives(NoAlternatives, f.tree))
  }

  function PatternFragment(text: string): Fragment {
    Fragment(text, Body(text))
  }

  function LiteralFragment(value: string): Fragment {
    Fragment(QuoteMeta(value), UnitsOf(value))
  }

  function QuantifiedFragment(f: Fragment, q: Quantifier): Fragment {
    var w := Wrap(AsOne(f));
    Fragment(w.text + q.Sign(), Sequence(Empty, Repeated(w.tree.last, q.Times())))
  }

  /** The uncached expansion of a rule while the rules in `visiting` are being expanded. */
  function ExpandName(g: Grammar, visiting: set<string>, name: string): Option<Fragment>
    decreases g.bodies.Keys - visiting, 0
  {
    if name in g.patterns then Some(PatternFragment(g.patterns[name]))
    else if !g.HasBody(name) || name in visiting then None
    else ExpandChoice(g, visiting + {name}, g.BodyOf(name))
  }

  function ExpandChoice(g: Grammar, visiting: set<string>, c: Choice): Option<Fragment>
    decreases g.bodies.Keys - visiting, 1, c, 1
  {
    match c
    case Only(chain) => ExpandChain(g, visiting, chain)
    case Or(_, _) =>
      (match ExpandJoined(g, visiting, c)
       case None => None
       case Some(j) => Some(Wrap(j)))
  }

  function ExpandJoined(g: Grammar, visiting: set<string>, c: Choice): Option<Joined>
    decreases g.bodies.Keys - visiting, 1, c, 0
  {
    match c
    case Only(chain) =>
      (match ExpandChain(g, visiting, chain)
       case None => None
       case Some(f) => Some(AsOne(f)))
    case Or(init, last) =>
      (match (ExpandJoined(g, visiting, init), ExpandChain(g, visiting, last))
       case (Some(j), Some(f)) => Some(Joined(j.text + "|" + f.text, Alternatives(j.tree, f.tree)))
       case _ => None)
  }

  function ExpandChain(g: Grammar, visiting: set<string>, c: Chain): Option<Fragment>
    decreases g.bodies.Keys - visiting, 1, c, 0
  {
    match c
    case First(t) => ExpandTerm(g, visiting, t)
    case Then(init, last) =>
      (match (ExpandChain(g, visiting, init), ExpandTerm(g, visiting, last))
       case (Some(f), Some(h)) => Some(Fragment(f.text + h.text, Append(f.tree, h.tree)))
       case _ => None)
  }

  function ExpandTerm(g: Grammar, visiting: set<string>, t: Term): Option<Fragment>
    decreases g.bodies.Keys - visiting, 1, t, 0
  {
    match t
    case Plain(p) => ExpandPrimary(g, visiting, p)
    case Quantified(u, q) =>
      (match ExpandTerm(g, visiting, u)
       case None => None
       case Some(f) => Some(QuantifiedFragment(f, q)))
  }

  function ExpandPrimary(g: Grammar, visiting: set<string>, p: Primary): Option<Fragment>
    decreases g.bodies.Keys - visiting, 1, p, 0
  {
    match p
    case Rule(name) => ExpandName(g, visiting, name)
    case Literal(raw) =>
      (match g.decode(raw)
       case None => None
       case Some(v) => Some(LiteralFragment(v)))
    case Pattern(text) => Some(PatternFragment(text))
    case Paren(c) =>
      (match ExpandChoice(g, visiting, c)
       case None => None
       case Some(f) => Some(Wrap(AsOne(f))))
  }

  // ---------------------------------------------------------------- precedence survives inlining

  predicate SelfContainedPattern(p: Primary) {
    p.Pattern? ==> SelfContained(p.text)
  }

  /** `reach` is closed under rule references, and the patterns met in it are self-contained. */
  predicate Clean(g: Grammar, reach: set<string>) {
    forall n :: n in reach ==>
      && (n in g.patterns ==> SelfContained(g.patterns[n]))
      && (g.HasBody(n) ==> ChoiceRules(g.BodyOf(n)) <= reach && ChoiceAll(SelfContainedPattern, g.BodyOf(n)))
  }

  lemma WrapReads(j: Joined)
    requires RegexOf(j.text) == Some(j.tree)
    ensures Pastes(Wrap(j).text, Wrap(j).tree)
  {
    PastesGroup(j.text, j.tree);
  }

  lemma {:induction false} NameReads(g: Grammar, reach: set<string>, visiting: set<string>, name: string)
    requires Clean(g, reach) && name in reach && ExpandName(g, visiting, name).Some?
    ensures var f := ExpandName(g, visiting, name).value; Pastes(f.text, f.tree)
    decreases g.bodies.Keys - visiting, 0
  {
    if name in g.patterns {
      PastesSelfContained(g.patterns[name]);
    } else {
      ChoiceReads(g, reach, visiting + {name}, g.BodyOf(name));
    }
  }

  lemma {:induction false} ChoiceReads(g: Grammar, reach: set<string>, visiting: set<string>, c: Choice)
    requires Clean(g, reach) && ChoiceRules(c) <= reach && ChoiceAll(SelfContainedPattern, c)
    requires ExpandChoice(g, visiting, c).Some?
    ensures var f := ExpandChoice(g, visiting, c).value; Pastes(f.text, f.tree)
    decreases g.bodies.Keys - visiting, 1, c, 1
  {
    match c
    case Only(chain) => ChainReads(g, reach, visiting, chain);
    case Or(_, _) =>
      JoinedReads(g, reach, visiting, c);
      WrapReads(ExpandJoined(g, visiting, c).value);
  }

  lemma {:induction false} JoinedReads(g: Grammar, reach: set<string>, visiting: set<string>, c: Choice)
    requires Clean(g, reach) && ChoiceRules(c) <= reach && ChoiceAll(SelfContainedPattern, c)
    requires ExpandJoined(g, visiting, c).Some?
    ensures var j := ExpandJoined(g, visiting, c).value; RegexOf(j.text) == Some(j.tree)
    decreases g.bodies.Keys - visiting, 1, c, 0
  {
    match c
    case Only(chain) =>
      ChainReads(g, reach, visiting, chain);
      var f := ExpandChain(g, visiting, chain).value;
      PastesRegex(f.text, f.tree);
    case Or(init, last) =>
      JoinedReads(g, reach, visiting, init);
      ChainReads(g, reach, visiting, last);
      var j, f := ExpandJoined(g, visiting, init).value, ExpandChain(g, visiting, last).value;
      PastesBar(j.text, j.tree, f.text, f.tree);
  }

  lemma {:induction false} ChainReads(g: Grammar, reach: set<string>, visiting: set<string>, c: Chain)
    requires Clean(g, reach) && ChainRules(c) <= reach && ChainAll(SelfContainedPattern, c)
    requires ExpandChain(g, visiting, c).Some?
    ensures var f := ExpandChain(g, visiting, c).value; Pastes(f.text, f.tree)
    decreases g.bodies.Keys - visiting, 1, c, 0
  {
    match c
    case First(t) => TermReads(g, reach, visiting, t);
    case Then(init, last) =>
      ChainReads(g, reach, visiting, init);
      TermReads(g, reach, visiting, last);
      var f, h := ExpandChain(g, visiting, init).value, ExpandTerm(g, visiting, last).value;
      PastesConcat(f.text, f.tree, h.text, h.tree);
  }

  lemma {:induction false} TermReads(g: Grammar, reach: set<string>, visiting: set<string>, t: Term)
    requires Clean(g, reach) && TermRules(t) <= reach && TermAll(SelfContainedPattern, t)
    requires ExpandTerm(g, visiting, t).Some?
    ensures var f := ExpandTerm(g, visiting, t).value; Pastes(f.text, f.tree)
    decreases g.bodies.Keys - visiting, 1, t, 0
  {
    match t
    case Plain(p) => PrimaryReads(g, reach, visiting, p);
    case Quantified(u, q) =>
      TermReads(g, reach, visiting, u);
      var f := ExpandTerm(g, visiting, u).value;
      PastesRegex(f.text, f.tree);
      WrapReads(AsOne(f));
      var w := Wrap(AsOne(f));
      PastesPost(w.text, w.tree.last, q.Sign(), q.Times());
  }

  lemma {:induction false} PrimaryReads(g: Grammar, reach: set<string>, visiting: set<string>, p: Primary)
    requires Clean(g, reach) && PrimaryRules(p) <= reach && PrimaryAll(SelfContainedPattern, p)
    requires ExpandPrimary(g, visiting, p).Some?
    ensures var f := ExpandPrimary(g, visiting, p).value; Pastes(f.text, f.tree)
    decreases g.bodies.Keys - visiting, 1, p, 0
  {
    match p
    case Rule(name) => NameReads(g, reach, visiting, name);
    case Literal(raw) => QuoteReads(g.decode(raw).value);
    case Pattern(text) => PastesSelfContained(text);
    case Paren(c) =>
      ChoiceReads(g, reach, visiting, c);
      var f := ExpandChoice(g, visiting, c).value;
      PastesRegex(f.text, f.tree);
      WrapReads(AsOne(f));
  }

  // ---------------------------------------------------------------- the language survives inlining

  ghost function TreeWords(units: string -> Language, s: Sequence): Language {
    SequenceLanguage(Meaning(units, NoNames()), s)
  }

  lemma OneLessToVisit(g: Grammar, visiting: set<string>, name: string)
    requires name in g.bodies && name !in visiting
    ensures |g.bodies.Keys - (visiting + {name})| + 1 == |g.bodies.Keys - visiting|
  {
    assert g.bodies.Keys - visiting == (g.bodies.Keys - (visiting + {name})) + {name};
  }

  lemma WrapWords(units: string -> Language, j: Joined)
    ensures TreeWords(units, Wrap(j).tree) == AlternativesLanguage(Meaning(units, NoNames()), j.tree)
  {
    SingleFactor(Meaning(units, NoNames()), Group(j.tree));
  }

  lemma PatternMeans(g: Grammar, units: string -> Language, reach: set<string>, visiting: set<string>, depth: nat,
                     name: string)
    requires Clean(g, reach) && name in reach && name in g.patterns && ExpandName(g, visiting, name).Some? && depth > 0
    ensures NameWords(g, units, depth, name) == TreeWords(units, ExpandName(g, visiting, name).value.tree)
  {
    PastesSelfContained(g.patterns[name]);
    PastesLanguage(units, g.patterns[name], Body(g.patterns[name]));
  }

  lemma {:induction false} NameMeans(g: Grammar, units: string -> Language, reach: set<string>, visiting: set<string>,
                                     depth: nat, name: string)
    requires Clean(g, reach) && name in reach && ExpandName(g, visiting, name).Some?
    requires depth > |g.bodies.Keys - visiting|
    ensures NameWords(g, units, depth, name) == TreeWords(units, ExpandName(g, visiting, name).value.tree)
    decreases g.bodies.Keys - visiting, 0
  {
    if name in g.patterns {
      PatternMeans(g, units, reach, visiting, depth, name);
    } else {
      OneLessToVisit(g, visiting, name);
      ChoiceMeans(g, units, reach, visiting + {name}, depth - 1, g.BodyOf(name));
    }
  }

  lemma {:induction false} ChoiceMeans(g: Grammar, units: string -> Language, reach: set<string>,
                                       visiting: set<string>, depth: nat, c: Choice)
    requires Clean(g, reach) && ChoiceRules(c) <= reach && ChoiceAll(SelfContainedPattern, c)
    requires ExpandChoice(g, visiting, c).Some? && depth > |g.bodies.Keys - visiting|
    ensures ChoiceWords(g, units, depth, c) == TreeWords(units, ExpandChoice(g, visiting, c).value.tree)
    decreases g.bodies.Keys - visiting, 1, c, 1
  {
    match c
    case Only(chain) => ChainMeans(g, units, reach, visiting, depth, chain);
    case Or(_, _) =>
      JoinedMeans(g, units, reach, visiting, depth, c);
      WrapWords(units, ExpandJoined(g, visiting, c).value);
  }

  lemma {:induction false} JoinedMeans(g: Grammar, units: string -> Language, reach: set<string>,
                                       visiting: set<string>, depth: nat, c: Choice)
    requires Clean(g, reach) && ChoiceRules(c) <= reach && ChoiceAll(SelfContainedPattern, c)
    requires ExpandJoined(g, visiting, c).Some? && depth > |g.bodies.Keys - visiting|
    ensures ChoiceWords(g, units, depth, c) ==
            AlternativesLanguage(Meaning(units, NoNames()), ExpandJoined(g, visiting, c).value.tree)
    decreases g.bodies.Keys - visiting, 1, c, 0
  {
    match c
    case Only(chain) =>
      ChainMeans(g, units, reach, visiting, depth, chain);
      SingleAlternative(Meaning(units, NoNames()), ExpandChain(g, visiting, chain).value.tree);
    case Or(init, last) =>
      JoinedMeans(g, units, reach, visiting, depth, init);
      ChainMeans(g, units, reach, visiting, depth, last);
  }

  lemma {:induction false} ChainMeans(g: Grammar, units: string -> Language, reach: set<string>, visiting: set<string>,
                                      depth: nat, c: Chain)
    requires Clean(g, reach) && ChainRules(c) <= reach && ChainAll(SelfContainedPattern, c)
    requires ExpandChain(g, visiting, c).Some? && depth > |g.bodies.Keys - visiting|
    ensures ChainWords(g, units, depth, c) == TreeWords(units, ExpandChain(g, visiting, c).value.tree)
    decreases g.bodies.Keys - visiting, 1, c, 0
  {
    match c
    case First(t) => TermMeans(g, units, reach, visiting, depth, t);
    case Then(init, last) =>
      ChainMeans(g, units, reach, visiting, depth, init);
      TermMeans(g, units, reach, visiting, depth, last);
      AppendLanguage(Meaning(units, NoNames()), ExpandChain(g, visiting, init).value.tree,
                     ExpandTerm(g, visiting, last).value.tree);
  }

  lemma {:induction false} TermMeans(g: Grammar, units: string -> Language, reach: set<string>, visiting: set<string>,
                                     depth: nat, t: Term)
    requires Clean(g, reach) && TermRules(t) <= reach && TermAll(SelfContainedPattern, t)
    requires ExpandTerm(g, visiting, t).Some? && depth > |g.bodies.Keys - visiting|
    ensures TermWords(g, units, depth, t) == TreeWords(units, ExpandTerm(g, visiting, t).value.tree)
    decreases g.bodies.Keys - visiting, 1, t, 0
  {
    match t
    case Plain(p) => PrimaryMeans(g, units, reach, visiting, depth, p);
    case Quantified(u, q) =>
      TermMeans(g, units, reach, visiting, depth, u);
      var f := ExpandTerm(g, visiting, u).value;
      var m := Meaning(units, NoNames());
      SingleAlternative(m, f.tree);
      SingleFactor(m, Repeated(Group(AsOne(f).tree), q.Times()));
  }

  lemma {:induction false} PrimaryMeans(g: Grammar, units: string -> Language, reach: set<string>,
                                        visiting: set<string>, depth: nat, p: Primary)
    requires Clean(g, reach) && PrimaryRules(p) <= reach && PrimaryAll(SelfContainedPattern, p)
    requires ExpandPrimary(g, visiting, p).Some? && depth > |g.bodies.Keys - visiting|
    ensures PrimaryWords(g, units, depth, p) == TreeWords(units, ExpandPrimary(g, visiting, p).value.tree)
    decreases g.bodies.Keys - visiting, 1, p, 0
  {
    match p
    case Rule(name) => NameMeans(g, units, reach, visiting, depth, name);
    case Literal(raw) => QuoteMeans(Meaning(units, NoNames()), g.decode(raw).value);
    case Pattern(text) =>
      PastesSelfContained(text);
      PastesLanguage(units, text, Body(text));
    case Paren(c) =>
      ChoiceMeans(g, units, reach, visiting, depth, c);
      var f := ExpandChoice(g, visiting, c).value;
      SingleAlternative(Meaning(units, NoNames()), f.tree);
      WrapWords(units, AsOne(f));
  }

  /**
    The inlined regular expression matches a span exactly when the rule derives it, to
    whatever depth.
   */
  lemma InliningPreservesLanguage(g: Grammar, units: string -> Language, reach: set<string>, name: string, w: Span)
    requires Clean(g, reach) && name in reach && ExpandName(g, {}, name).Some?
    ensures w in RegexLanguage(units, ExpandName(g, {}, name).value.text) <==> Derives(g, units, name, w)
  {
    var f := ExpandName(g, {}, name).value;
    NameReads(g, reach, {}, name);
    PastesLanguage(units, f.text, f.tree);
    var enough := |g.bodies.Keys - {}| + 1;
    NameMeans(g, units, reach, {}, enough, name);
    if Derives(g, units, name, w) {
      var depth: nat :| w in NameWords(g, units, depth, name);
      var most := if depth < enough then enough else depth;
      NameMonotone(g, units, depth, most, name);
      NameMeans(g, units, reach, {}, most, name);
    }
  }

  // ---------------------------------------------------------------- which tables can be inlined

  /** The name is defined, its text parses and its string literals decode. */
  predicate Usable(g: Grammar, name: string) {
    name in g.patterns || (g.HasBody(name) && ChoiceAll(DecodesIn(g), g.BodyOf(name)))
  }

  function DecodesIn(g: Grammar): Primary -> bool {
    (p: Primary) => p.Literal? ==> g.decode(p.raw).Some?
  }

  predicate Refers(g: Grammar, name: string, other: string) {
    g.HasBody(name) && other in ChoiceRules(g.BodyOf(name))
  }

  predicate IsPath(g: Grammar, path: seq<string>) {
    |path| > 0 && forall i :: 0 <= i < |path| - 1 ==> Refers(g, path[i], path[i + 1])
  }

  ghost predicate Reaches(g: Grammar, name: string, other: string) {
    exists path :: IsPath(g, path) && path[0] == name && path[|path| - 1] == other
  }

  /** One of `names` reaches `other`. */
  ghost predicate Reached(g: Grammar, names: set<string>, other: string) {
    exists n :: n in names && Reaches(g, n, other)
  }

  lemma ReachesSelf(g: Grammar, name: string)
    ensures Reaches(g, name, name)
  {
    assert IsPath(g, [name]);
  }

  lemma ReachesStep(g: Grammar, name: string, next: string, other: string)
    requires Refers(g, name, next) && Reaches(g, next, other)
    ensures Reaches(g, name, other)
  {
    var rest :| IsPath(g, rest) && rest[0] == next && rest[|rest| - 1] == other;
    var path := [name] + rest;
    forall i | 0 <= i < |path| - 1 ensures Refers(g, path[i], path[i + 1]) {
      if i > 0 { assert Refers(g, rest[i - 1], rest[i - 1 + 1]); }
    }
    assert IsPath(g, path) && path[|path| - 1] == other;
  }

  predicate Revisits(path: seq<string>) {
    exists i, j :: 0 <= i < j < |path| && path[i] == path[j]
  }

  /** Everything reachable from `name` is usable, and nothing is reachable from itself. */
  ghost predicate AcyclicFrom(g: Grammar, name: string) {
    forall path: seq<string> :: IsPath(g, path) && path[0] == name ==> Usable(g, path[|path| - 1]) && !Revisits(path)
  }

  /** A choice expands exactly when its literals decode and all rules it names expand. */
  lemma {:induction false} ChoiceExpandsIff(g: Grammar, visiting: set<string>, c: Choice)
    ensures ExpandChoice(g, visiting, c).Some? <==> ExpandJoined(g, visiting, c).Some?
    ensures ExpandChoice(g, visiting, c).Some? <==>
            ChoiceAll(DecodesIn(g), c) && forall n :: n in ChoiceRules(c) ==> ExpandName(g, visiting, n).Some?
    decreases c
  {
    match c
    case Only(chain) => ChainExpandsIff(g, visiting, chain);
    case Or(init, last) =>
      ChoiceExpandsIff(g, visiting, init);
      ChainExpandsIff(g, visiting, last);
  }

  lemma {:induction false} ChainExpandsIff(g: Grammar, visiting: set<string>, c: Chain)
    ensures ExpandChain(g, visiting, c).Some? <==>
            ChainAll(DecodesIn(g), c) && forall n :: n in ChainRules(c) ==> ExpandName(g, visiting, n).Some?
    decreases c
  {
    match c
    case First(t) => TermExpandsIff(g, visiting, t);
    case Then(init, last) =>
      ChainExpandsIff(g, visiting, init);
      TermExpandsIff(g, visiting, last);
  }

  lemma RuleExpandsIff(g: Grammar, visiting: set<string>, name: string)
    ensures ExpandTerm(g, visiting, Plain(Rule(name))) == ExpandName(g, visiting, name)
    ensures TermRules(Plain(Rule(name))) == {name} && TermAll(DecodesIn(g), Plain(Rule(name)))
  {
    assert PrimaryRules(Rule(name)) == {name} && PrimaryAll(DecodesIn(g), Rule(name));
  }

  lemma {:induction false} TermExpandsIff(g: Grammar, visiting: set<string>, t: Term)
    ensures ExpandTerm(g, visiting, t).Some? <==>
            TermAll(DecodesIn(g), t) && forall n :: n in TermRules(t) ==> ExpandName(g, visiting, n).Some?
    decreases t
  {
    match t
    case Plain(Paren(c)) => ChoiceExpandsIff(g, visiting, c);
    case Plain(Rule(name)) => RuleExpandsIff(g, visiting, name);
    case Plain(_) => assert TermRules(t) == {};
    case Quantified(u, _) => TermExpandsIff(g, visiting, u);
  }

  lemma {:induction false} PathFromExpanded(g: Grammar, visiting: set<string>, path: seq<string>)
    requires IsPath(g, path) && ExpandName(g, visiting, path[0]).Some?
    ensures Usable(g, path[|path| - 1]) && !Revisits(path)
    ensures forall i :: 0 <= i < |path| && path[i] !in g.patterns ==> path[i] !in visiting
    decreases |path|
  {
    var name := path[0];
    if name !in g.patterns {
      ChoiceExpandsIff(g, visiting + {name}, g.BodyOf(name));
    }
    if |path| > 1 {
      var rest := path[1..];
      assert Refers(g, path[0], path[0 + 1]);
      forall i | 0 <= i < |rest| - 1
        ensures Refers(g, rest[i], rest[i + 1])
      {
        assert Refers(g, path[i + 1], path[i + 1 + 1]);
      }
      PathFromExpanded(g, visiting + {name}, rest);
      forall j | 0 < j < |path|
        ensures path[j] != name && (path[j] !in g.patterns ==> path[j] !in visiting)
      {
        assert path[j] == rest[j - 1];
      }
      forall i, j | 0 <= i < j < |path|
        ensures path[i] != path[j]
      {
        if i > 0 { assert path[i] == rest[i - 1] && path[j] == rest[j - 1]; }
      }
    }
  }

  lemma {:induction false} PathToFailure(g: Grammar, visiting: set<string>, name: string) returns (path: seq<string>)
    requires ExpandName(g, visiting, name).None?
    ensures IsPath(g, path) && path[0] == name
    ensures !Usable(g, path[|path| - 1]) || Revisits(path) || path[|path| - 1] in visiting
    decreases g.bodies.Keys - visiting
  {
    path := [name];
    if Usable(g, name) && name !in visiting {
      ChoiceExpandsIff(g, visiting + {name}, g.BodyOf(name));
      var next :| next in ChoiceRules(g.BodyOf(name)) && ExpandName(g, visiting + {name}, next).None?;
      var rest := PathToFailure(g, visiting + {name}, next);
      path := [name] + rest;
      forall i | 0 <= i < |path| - 1
        ensures Refers(g, path[i], path[i + 1])
      {
        if i > 0 { assert Refers(g, rest[i - 1], rest[i - 1 + 1]); }
      }
      if Revisits(rest) {
        var i, j :| 0 <= i < j < |rest| && rest[i] == rest[j];
        assert path[i + 1] == path[j + 1];
      }
      if rest[|rest| - 1] == name {
        assert path[0] == path[|path| - 1];
      }
    }
  }

  /** Inlining succeeds exactly on the tables whose reachable part is defined and acyclic. */
  lemma ExpandsIffAcyclic(g: Grammar, name: string)
    ensures ExpandName(g, {}, name).Some? <==> AcyclicFrom(g, name)
  {
    if ExpandName(g, {}, name).Some? {
      forall path: seq<string> | IsPath(g, path) && path[0] == name
        ensures Usable(g, path[|path| - 1]) && !Revisits(path)
      {
        PathFromExpanded(g, {}, path);
      }
    } else {
      var path := PathToFailure(g, {}, name);
    }
  }

  // ---------------------------------------------------------------- caching is safe

  /** Rules of `names` refer only to patterns and to each other. */
  predicate Closed(g: Grammar, names: set<string>) {
    forall n :: n in names && g.HasBody(n) ==> Known(g, names, ChoiceRules(g.BodyOf(n)))
  }

  predicate Known(g: Grammar, names: set<string>, rules: set<string>) {
    forall n :: n in rules ==> n in g.patterns || n in names
  }

  /** The expansion of a rule does not depend on what is being visited outside its closure. */
  lemma {:induction false} NameIndependent(g: Grammar, names: set<string>, v: set<string>, w: set<string>, name: string)
    requires Closed(g, names) && Known(g, names, {name}) && v * names == w * names
    ensures ExpandName(g, v, name) == ExpandName(g, w, name)
    decreases g.bodies.Keys - v, 0
  {
    assert name in {name};
    if g.HasBody(name) {
      assert name in v <==> name in v * names;
      assert name in w <==> name in w * names;
      if name !in v {
        assert (v + {name}) * names == v * names + {name} * names == w * names + {name} * names == (w + {name}) * names;
        ChoiceIndependent(g, names, v + {name}, w + {name}, g.BodyOf(name));
      }
    }
  }

  lemma {:induction false} ChoiceIndependent(g: Grammar, names: set<string>, v: set<string>, w: set<string>, c: Choice)
    requires Closed(g, names) && Known(g, names, ChoiceRules(c)) && v * names == w * names
    ensures ExpandChoice(g, v, c) == ExpandChoice(g, w, c) && ExpandJoined(g, v, c) == ExpandJoined(g, w, c)
    decreases g.bodies.Keys - v, 1, c
  {
    match c
    case Only(chain) => ChainIndependent(g, names, v, w, chain);
    case Or(init, last) =>
      ChoiceIndependent(g, names, v, w, init);
      ChainIndependent(g, names, v, w, last);
  }

  lemma {:induction false} ChainIndependent(g: Grammar, names: set<string>, v: set<string>, w: set<string>, c: Chain)
    requires Closed(g, names) && Known(g, names, ChainRules(c)) && v * names == w * names
    ensures ExpandChain(g, v, c) == ExpandChain(g, w, c)
    decreases g.bodies.Keys - v, 1, c
  {
    match c
    case First(t) => TermIndependent(g, names, v, w, t);
    case Then(init, last) =>
      ChainIndependent(g, names, v, w, init);
      TermIndependent(g, names, v, w, last);
  }

  lemma {:induction false} TermIndependent(g: Grammar, names: set<string>, v: set<string>, w: set<string>, t: Term)
    requires Closed(g, names) && Known(g, names, TermRules(t)) && v * names == w * names
    ensures ExpandTerm(g, v, t) == ExpandTerm(g, w, t)
    decreases g.bodies.Keys - v, 1, t
  {
    match t
    case Plain(Rule(name)) =>
      assert TermRules(t) == {name};
      NameIndependent(g, names, v, w, name);
    case Plain(Paren(c)) =>
      assert TermRules(t) == ChoiceRules(c);
      ChoiceIndependent(g, names, v, w, c);
    case Plain(_) =>
    case Quantified(u, _) => TermIndependent(g, names, v, w, u);
  }
}
