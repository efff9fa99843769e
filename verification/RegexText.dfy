/**
  The texts the compilers emit, and how they are read back.

  A text is first cut into lexemes (`LexFrom`, a left-to-right automaton over characters)
  and the lexemes are then read with the usual precedence, alternation < sequence <
  postfix (`ReadFrom`, a stack of open groups).  What Go refuses, and what this reading
  leaves out (flags and named groups, octal escapes, `\Q`, a bracket inside a class),
  becomes the lexeme `Bad`, which no reading accepts.
 */
module RegexText {
  import opened Wrappers
  import opened Languages

  /** One unit of a pattern, a quoted literal, a rule, or the begin or the end of the text. */
  datatype Atom = Unit(text: string) | Quoted(value: string) | Name(name: string) | Begin | End

  datatype Lexeme = Open | Close | Bar | Post(times: Times) | Leaf(atom: Atom) | Bad

  // ---------------------------------------------------------------- characters to lexemes

  datatype LexState =
    | Ready
    | Escaped
    | Opened
    | OpenedQuestion
    | InClass(text: string, escaped: bool)
    | InBraces(digits: string)
    | Long(text: string)
    | LongBraced(text: string)

  datatype Lexed = Lexed(state: LexState, lexemes: seq<Lexeme>)

  predicate IsDigit(c: char) {
    '0' <= c <= '9'
  }

  function ParseNat(s: string): Option<nat> {
    if s == "" then None
    else if !IsDigit(s[|s| - 1]) then None
    else
      var digit: nat := (s[|s| - 1] as int) - ('0' as int);
      if |s| == 1 then Some(digit)
      else match ParseNat(s[..|s| - 1])
        case None => None
        case Some(n) => Some(10 * n + digit)
  }

  function CommaAt(s: string, k: nat): (r: nat)
    requires k <= |s|
    ensures k <= r <= |s|
    ensures r < |s| ==> s[r] == ','
    decreases |s| - k
  {
    if k == |s| || s[k] == ',' then k else CommaAt(s, k + 1)
  }

  /** A number without leading zeros. */
  function ParseCount(s: string): Option<nat> {
    if |s| >= 2 && s[0] == '0' then None else ParseNat(s)
  }

  /** The bounds between the braces of `x{2}`, `x{2,}` and `x{2,5}`; other braces stand for themselves. */
  function ParseBounds(s: string): Option<Times> {
    var k := CommaAt(s, 0);
    if k == |s| then
      match ParseCount(s)
      case None => None
      case Some(n) => Some(Times(n, Some(n)))
    else
      match (ParseCount(s[..k]), ParseCount(s[k + 1..]))
      case (Some(lo), Some(hi)) => Some(Times(lo, Some(hi)))
      case (Some(lo), None) => if k + 1 == |s| then Some(Times(lo, None)) else None
      case _ => None
  }

  const MAX_REPEAT := 1000

  predicate FitsBounds(t: Times) {
    t.lo <= MAX_REPEAT && (t.hi.Some? ==> t.lo <= t.hi.value <= MAX_REPEAT)
  }

  predicate IsLetterOrDigit(c: char) {
    'a' <= c <= 'z' || 'A' <= c <= 'Z' || IsDigit(c)
  }

  /** An escaped sign stands for itself. */
  predicate IsSign(c: char) {
    c < 128 as char && !IsLetterOrDigit(c)
  }

  /** What a backslash makes one unit: a sign, a control character, a class or a word boundary. */
  predicate IsShortEscape(c: char) {
    IsSign(c) || c in "afnrtvdDsSwWbB"
  }

  predicate IsHex(c: char) {
    IsDigit(c) || 'a' <= c <= 'f' || 'A' <= c <= 'F'
  }

  function Literals(s: string): seq<Lexeme> {
    seq(|s|, i requires 0 <= i < |s| => Leaf(Unit([s[i]])))
  }

  function LexReady(c: char): Lexed {
    match c
    case '(' => Lexed(Opened, [])
    case ')' => Lexed(Ready, [Close])
    case '|' => Lexed(Ready, [Bar])
    case '*' => Lexed(Ready, [Post(STAR)])
    case '+' => Lexed(Ready, [Post(PLUS)])
    case '?' => Lexed(Ready, [Post(QUESTION)])
    case '\\' => Lexed(Escaped, [])
    case '[' => Lexed(InClass("[", false), [])
    case '{' => Lexed(InBraces(""), [])
    case '^' => Lexed(Ready, [Leaf(Begin)])
    case '$' => Lexed(Ready, [Leaf(End)])
    case _ => Lexed(Ready, [Leaf(Unit([c]))])
  }

  function LexEscape(c: char): Lexed {
    if c == 'A' then Lexed(Ready, [Leaf(Begin)])
    else if c == 'z' then Lexed(Ready, [Leaf(End)])
    else if c == 'x' || c == 'p' || c == 'P' then Lexed(Long(['\\', c]), [])
    else if IsShortEscape(c) then Lexed(Ready, [Leaf(Unit(['\\', c]))])
    else Lexed(Ready, [Bad])
  }

  /** `\x41` and `\pL`, or the braced forms of either. */
  function LexLong(text: string, c: char): Lexed {
    if |text| == 2 && c == '{' then Lexed(LongBraced(text + [c]), [])
    else if |text| == 2 && text[1] == 'x' && IsHex(c) then Lexed(Long(text + [c]), [])
    else if (|text| == 2 && text[1] != 'x') || (|text| == 3 && IsHex(c)) then Lexed(Ready, [Leaf(Unit(text + [c]))])
    else Lexed(Ready, [Bad])
  }

  /** Braces that hold no bounds stand for themselves, and what follows is read afresh. */
  function LexBraces(digits: string, c: char): Lexed {
    if IsDigit(c) || c == ',' then Lexed(InBraces(digits + [c]), [])
    else if c == '}' && ParseBounds(digits).Some? then
      Lexed(Ready, [if FitsBounds(ParseBounds(digits).value) then Post(ParseBounds(digits).value) else Bad])
    else
      var next := LexReady(c);
      Lexed(next.state, Literals("{" + digits) + next.lexemes)
  }

  function LexStep(st: LexState, c: char): Lexed {
    match st
    case Ready => LexReady(c)
    case Escaped => LexEscape(c)
    case Opened =>
      if c == '?' then Lexed(OpenedQuestion, [])
      else var next := LexReady(c); Lexed(next.state, [Open] + next.lexemes)
    case OpenedQuestion =>
      Lexed(Ready, [if c == ':' then Open else Bad])
    case InClass(text, escaped) =>
      if escaped then Lexed(InClass(text + [c], false), [])
      else if c == '\\' then Lexed(InClass(text + [c], true), [])
      else if c == '[' then Lexed(Ready, [Bad])
      else if c == ']' && text != "[" && text != "[^" then Lexed(Ready, [Leaf(Unit(text + [c]))])
      else Lexed(InClass(text + [c], false), [])
    case InBraces(digits) => LexBraces(digits, c)
    case Long(text) => LexLong(text, c)
    case LongBraced(text) =>
      if c == '}' then Lexed(Ready, [Leaf(Unit(text + [c]))]) else Lexed(LongBraced(text + [c]), [])
  }

  function LexFrom(st: LexState, s: string): Lexed
    decreases s
  {
    if s == "" then Lexed(st, [])
    else
      var first := LexStep(st, s[0]);
      var rest := LexFrom(first.state, s[1..]);
      Lexed(rest.state, first.lexemes + rest.lexemes)
  }

  lemma {:induction false} LexConcat(st: LexState, a: string, b: string)
    ensures LexFrom(st, a + b) ==
            var x := LexFrom(st, a);
            var y := LexFrom(x.state, b);
            Lexed(y.state, x.lexemes + y.lexemes)
    decreases a
  {
    if a == "" {
      assert a + b == b;
    } else {
      assert (a + b)[0] == a[0] && (a + b)[1..] == a[1..] + b;
      var first := LexStep(st, a[0]);
      LexConcat(first.state, a[1..], b);
      var x := LexFrom(first.state, a[1..]);
      var y := LexFrom(x.state, b);
      assert first.lexemes + (x.lexemes + y.lexemes) == first.lexemes + x.lexemes + y.lexemes;
    }
  }

  // ---------------------------------------------------------------- lexemes to trees

  /** Alternatives of sequences of factors: the tree that precedence gives a text. */
  datatype Alternatives = NoAlternatives | Alternatives(init: Alternatives, last: Sequence)
  datatype Sequence = Empty | Sequence(init: Sequence, last: Factor)
  datatype Factor = One(atom: Atom) | Group(alternatives: Alternatives) | Repeated(factor: Factor, times: Times)

  /** A group being read: the finished alternatives and the sequence under way. */
  datatype Frame = Frame(done: Alternatives, cur: Sequence)
  datatype Stack = Bottom(top: Frame) | Nested(below: Stack, top: Frame)

  const START := Bottom(Frame(NoAlternatives, Empty))

  /** `strict` is Go's rule that a postfix operator may not follow another directly. */
  function ReadStep(strict: bool, st: Stack, x: Lexeme): Option<Stack> {
    var Frame(done, cur) := st.top;
    match x
    case Open => Some(Nested(st, Frame(NoAlternatives, Empty)))
    case Close =>
      if st.Bottom? then None
      else
        var outer := st.below.top;
        Some(st.below.(top := outer.(cur := Sequence(outer.cur, Group(Alternatives(done, cur))))))
    case Bar => Some(st.(top := Frame(Alternatives(done, cur), Empty)))
    case Post(t) =>
      if cur.Empty? || (strict && cur.last.Repeated?) then None
      else Some(st.(top := Frame(done, Sequence(cur.init, Repeated(cur.last, t)))))
    case Leaf(a) => Some(st.(top := Frame(done, Sequence(cur, One(a)))))
    case Bad => None
  }

  function ReadFrom(strict: bool, st: Stack, xs: seq<Lexeme>): Option<Stack>
    decreases xs
  {
    if xs == [] then Some(st)
    else match ReadStep(strict, st, xs[0])
      case None => None
      case Some(st') => ReadFrom(strict, st', xs[1..])
  }

  function Read(strict: bool, xs: seq<Lexeme>): Option<Alternatives> {
    match ReadFrom(strict, START, xs)
    case Some(Bottom(f)) => Some(Alternatives(f.done, f.cur))
    case _ => None
  }

  /** The tree of a regular expression text, if it has one. */
  function RegexOf(text: string): Option<Alternatives> {
    var lexed := LexFrom(Ready, text);
    if lexed.state.Ready? then Read(true, lexed.lexemes) else None
  }

  /** The text is a sequence: it has a tree, and no `|` outside its groups. */
  predicate SelfContained(text: string) {
    RegexOf(text).Some? && RegexOf(text).value.init.NoAlternatives?
  }

  function Body(text: string): Sequence {
    match RegexOf(text)
    case Some(Alternatives(_, s)) => s
    case _ => Empty
  }

  function Append(s: Sequence, t: Sequence): Sequence {
    match t
    case Empty => s
    case Sequence(init, last) => Sequence(Append(s, init), last)
  }

  // ---------------------------------------------------------------- printing and reading are inverse

  function PrintAlternatives(a: Alternatives): seq<Lexeme> {
    match a
    case NoAlternatives => []
    case Alternatives(NoAlternatives, s) => PrintSequence(s)
    case Alternatives(init, s) => PrintAlternatives(init) + [Bar] + PrintSequence(s)
  }

  function PrintSequence(s: Sequence): seq<Lexeme> {
    match s
    case Empty => []
    case Sequence(init, f) => PrintSequence(init) + PrintFactor(f)
  }

  function PrintFactor(f: Factor): seq<Lexeme> {
    match f
    case One(a) => [Leaf(a)]
    case Group(a) => [Open] + PrintAlternatives(a) + [Close]
    case Repeated(g, t) => PrintFactor(g) + [Post(t)]
  }

  function PrintFrame(f: Frame): seq<Lexeme> {
    PrintAlternatives(Alternatives(f.done, f.cur))
  }

  function PrintStack(st: Stack): seq<Lexeme> {
    match st
    case Bottom(f) => PrintFrame(f)
    case Nested(below, f) => PrintStack(below) + [Open] + PrintFrame(f)
  }

  /** Every group of the tree has at least one alternative. */
  predicate WellFormedAlternatives(a: Alternatives) {
    a.Alternatives? ==> WellFormedAlternatives(a.init) && WellFormedSequence(a.last)
  }

  predicate WellFormedSequence(s: Sequence) {
    s.Sequence? ==> WellFormedSequence(s.init) && WellFormedFactor(s.last)
  }

  predicate WellFormedFactor(f: Factor) {
    match f
    case One(_) => true
    case Group(a) => a.Alternatives? && WellFormedAlternatives(a)
    case Repeated(g, _) => WellFormedFactor(g)
  }

  lemma {:induction false} ReadConcat(strict: bool, st: Stack, xs: seq<Lexeme>, ys: seq<Lexeme>)
    ensures ReadFrom(strict, st, xs + ys) ==
            match ReadFrom(strict, st, xs)
            case None => None
            case Some(st') => ReadFrom(strict, st', ys)
    decreases xs
  {
    if xs == [] {
      assert xs + ys == ys;
    } else {
      assert (xs + ys)[1..] == xs[1..] + ys;
      match ReadStep(strict, st, xs[0])
      case None =>
      case Some(st') => ReadConcat(strict, st', xs[1..], ys);
    }
  }

  lemma PrintFrameGrows(done: Alternatives, cur: Sequence, f: Factor)
    ensures PrintFrame(Frame(done, Sequence(cur, f))) == PrintFrame(Frame(done, cur)) + PrintFactor(f)
  {
    assert PrintSequence(Sequence(cur, f)) == PrintSequence(cur) + PrintFactor(f);
    if !done.NoAlternatives? {
      assert PrintAlternatives(done) + [Bar] + (PrintSequence(cur) + PrintFactor(f)) ==
             PrintAlternatives(done) + [Bar] + PrintSequence(cur) + PrintFactor(f);
    }
  }

  lemma PrintGrows(st: Stack, f: Factor)
    ensures PrintStack(st.(top := st.top.(cur := Sequence(st.top.cur, f)))) == PrintStack(st) + PrintFactor(f)
  {
    PrintFrameGrows(st.top.done, st.top.cur, f);
  }

  lemma PrintStep(strict: bool, st: Stack, x: Lexeme)
    requires ReadStep(strict, st, x).Some?
    ensures PrintStack(ReadStep(strict, st, x).value) == PrintStack(st) + [x]
  {
    var Frame(done, cur) := st.top;
    match x
    case Open =>
    case Close =>
      PrintGrows(st.below, Group(Alternatives(done, cur)));
    case Bar =>
      assert PrintFrame(Frame(Alternatives(done, cur), Empty)) == PrintFrame(st.top) + [Bar] + PrintSequence(Empty);
    case Post(t) =>
      var before := st.(top := Frame(done, cur.init));
      PrintGrows(before, cur.last);
      PrintGrows(before, Repeated(cur.last, t));
      assert PrintStack(before) + (PrintFactor(cur.last) + [x]) == PrintStack(before) + PrintFactor(cur.last) + [x];
    case Leaf(a) =>
      PrintGrows(st, One(a));
    case Bad =>
  }

  lemma {:induction false} PrintReadFrom(strict: bool, st: Stack, xs: seq<Lexeme>)
    requires ReadFrom(strict, st, xs).Some?
    ensures PrintStack(ReadFrom(strict, st, xs).value) == PrintStack(st) + xs
    decreases xs
  {
    if xs != [] {
      var st' := ReadStep(strict, st, xs[0]).value;
      PrintStep(strict, st, xs[0]);
      PrintReadFrom(strict, st', xs[1..]);
      assert [xs[0]] + xs[1..] == xs;
    }
  }

  /** A text that is accepted is the print-out of its tree: nothing is dropped or moved. */
  lemma PrintOfRead(strict: bool, xs: seq<Lexeme>)
    requires Read(strict, xs).Some?
    ensures PrintAlternatives(Read(strict, xs).value) == xs
  {
    PrintReadFrom(strict, START, xs);
  }

  lemma {:induction false} ReadOfPrintSequence(st: Stack, s: Sequence)
    requires WellFormedSequence(s) && st.top.cur.Empty?
    ensures ReadFrom(false, st, PrintSequence(s)) == Some(st.(top := st.top.(cur := s)))
    decreases s
  {
    match s
    case Empty =>
    case Sequence(init, f) =>
      ReadOfPrintSequence(st, init);
      ReadConcat(false, st, PrintSequence(init), PrintFactor(f));
      ReadOfPrintFactor(st.(top := st.top.(cur := init)), f);
  }

  lemma {:induction false} ReadOfPrintFactor(st: Stack, f: Factor)
    requires WellFormedFactor(f)
    ensures ReadFrom(false, st, PrintFactor(f)) == Some(st.(top := st.top.(cur := Sequence(st.top.cur, f))))
    decreases f
  {
    match f
    case One(a) =>
    case Group(a) =>
      var open := Nested(st, Frame(NoAlternatives, Empty));
      assert PrintFactor(f) == [Open] + (PrintAlternatives(a) + [Close]);
      ReadConcat(false, st, [Open], PrintAlternatives(a) + [Close]);
      ReadConcat(false, open, PrintAlternatives(a), [Close]);
      ReadOfPrintAlternatives(open, a);
    case Repeated(g, t) =>
      ReadOfPrintFactor(st, g);
      ReadConcat(false, st, PrintFactor(g), [Post(t)]);
  }

  lemma {:induction false} ReadOfPrintAlternatives(st: Stack, a: Alternatives)
    requires a.Alternatives? && WellFormedAlternatives(a)
    requires st.top == Frame(NoAlternatives, Empty)
    ensures ReadFrom(false, st, PrintAlternatives(a)) == Some(st.(top := Frame(a.init, a.last)))
    decreases a
  {
    if a.init.NoAlternatives? {
      ReadOfPrintSequence(st, a.last);
    } else {
      var front, tail := PrintAlternatives(a.init), PrintSequence(a.last);
      ReadOfPrintAlternatives(st, a.init);
      ReadConcat(false, st, front + [Bar], tail);
      ReadConcat(false, st, front, [Bar]);
      var st' := st.(top := Frame(a.init, Empty));
      ReadOfPrintSequence(st', a.last);
    }
  }

  /** Printing then reading gives the tree back, whatever the nesting and the stacked operators. */
  lemma ReadOfPrint(a: Alternatives)
    requires a.Alternatives? && WellFormedAlternatives(a)
    ensures Read(false, PrintAlternatives(a)) == Some(a)
  {
    ReadOfPrintAlternatives(START, a);
  }

  // ---------------------------------------------------------------- reading in a context

  function BottomDone(st: Stack): Alternatives {
    match st
    case Bottom(f) => f.done
    case Nested(below, _) => BottomDone(below)
  }

  /** `st`, read on top of `base`: its bottom sequence continues the one under way there. */
  function Lift(base: Stack, st: Stack): Stack {
    match st
    case Bottom(f) => base.(top := base.top.(cur := Append(base.top.cur, f.cur)))
    case Nested(below, f) => Nested(Lift(base, below), f)
  }

  /** `st`, read inside a group just opened on `base`. */
  function Under(base: Stack, st: Stack): Stack {
    match st
    case Bottom(f) => Nested(base, f)
    case Nested(below, f) => Nested(Under(base, below), f)
  }

  lemma {:induction false} BarsRemain(strict: bool, st: Stack, xs: seq<Lexeme>)
    requires ReadFrom(strict, st, xs).Some?
    requires BottomDone(ReadFrom(strict, st, xs).value).NoAlternatives?
    ensures BottomDone(st).NoAlternatives?
    decreases xs
  {
    if xs != [] {
      BarsRemain(strict, ReadStep(strict, st, xs[0]).value, xs[1..]);
    }
  }

  lemma {:induction false} ReadLift(strict: bool, base: Stack, st: Stack, xs: seq<Lexeme>)
    requires ReadFrom(strict, st, xs).Some?
    requires BottomDone(ReadFrom(strict, st, xs).value).NoAlternatives?
    ensures ReadFrom(strict, Lift(base, st), xs) == Some(Lift(base, ReadFrom(strict, st, xs).value))
    decreases xs
  {
    if xs != [] {
      var st' := ReadStep(strict, st, xs[0]).value;
      BarsRemain(strict, st', xs[1..]);
      BarsRemain(strict, st, xs);
      assert ReadStep(strict, Lift(base, st), xs[0]) == Some(Lift(base, st'));
      ReadLift(strict, base, st', xs[1..]);
    }
  }

  lemma {:induction false} ReadUnder(strict: bool, base: Stack, st: Stack, xs: seq<Lexeme>)
    requires ReadFrom(strict, st, xs).Some?
    ensures ReadFrom(strict, Under(base, st), xs) == Some(Under(base, ReadFrom(strict, st, xs).value))
    decreases xs
  {
    if xs != [] {
      var st' := ReadStep(strict, st, xs[0]).value;
      assert ReadStep(strict, Under(base, st), xs[0]) == Some(Under(base, st'));
      ReadUnder(strict, base, st', xs[1..]);
    }
  }

  lemma {:induction false} ReadRelaxed(st: Stack, xs: seq<Lexeme>)
    requires ReadFrom(true, st, xs).Some?
    ensures ReadFrom(false, st, xs) == ReadFrom(true, st, xs)
    decreases xs
  {
    if xs != [] {
      ReadRelaxed(ReadStep(true, st, xs[0]).value, xs[1..]);
    }
  }

  /** Reading `xs` from the start gives the sequence `s`, with no alternative finished. */
  predicate Reads(strict: bool, xs: seq<Lexeme>, s: Sequence) {
    ReadFrom(strict, START, xs) == Some(Bottom(Frame(NoAlternatives, s)))
  }

  /** A sequence may follow anything: it is read as a continuation of the sequence there. */
  lemma ReadsAfter(strict: bool, base: Stack, xs: seq<Lexeme>, s: Sequence)
    requires Reads(strict, xs, s)
    ensures ReadFrom(strict, base, xs) == Some(base.(top := base.top.(cur := Append(base.top.cur, s))))
  {
    ReadLift(strict, base, START, xs);
    assert Lift(base, START) == base;
  }

  lemma ReadsConcat(strict: bool, xs: seq<Lexeme>, s: Sequence, ys: seq<Lexeme>, t: Sequence)
    requires Reads(strict, xs, s) && Reads(strict, ys, t)
    ensures Reads(strict, xs + ys, Append(s, t))
  {
    ReadConcat(strict, START, xs, ys);
    ReadsAfter(strict, Bottom(Frame(NoAlternatives, s)), ys, t);
  }

  lemma ReadsGroup(strict: bool, xs: seq<Lexeme>, a: Alternatives)
    requires Read(strict, xs) == Some(a)
    ensures Reads(strict, [Open] + xs + [Close], Sequence(Empty, Group(a)))
  {
    var open := Nested(START, Frame(NoAlternatives, Empty));
    assert [Open] + xs + [Close] == [Open] + (xs + [Close]);
    ReadConcat(strict, START, [Open], xs + [Close]);
    ReadConcat(strict, open, xs, [Close]);
    ReadUnder(strict, START, START, xs);
  }

  lemma ReadsPost(strict: bool, xs: seq<Lexeme>, f: Factor, t: Times)
    requires Reads(strict, xs, Sequence(Empty, f))
    requires strict ==> !f.Repeated?
    ensures Reads(strict, xs + [Post(t)], Sequence(Empty, Repeated(f, t)))
  {
    ReadConcat(strict, START, xs, [Post(t)]);
  }

  lemma ReadsBar(strict: bool, xs: seq<Lexeme>, a: Alternatives, ys: seq<Lexeme>, s: Sequence)
    requires Read(strict, xs) == Some(a)
    requires Reads(strict, ys, s)
    ensures Read(strict, xs + [Bar] + ys) == Some(Alternatives(a, s))
  {
    ReadConcat(strict, START, xs + [Bar], ys);
    ReadConcat(strict, START, xs, [Bar]);
    ReadsAfter(strict, Bottom(Frame(a, Empty)), ys, s);
    AppendEmpty(s);
  }

  lemma AppendEmpty(s: Sequence)
    ensures Append(Empty, s) == s
  {
  }
}
