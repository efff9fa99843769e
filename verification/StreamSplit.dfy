/** Where a stream cuts a text into fragments does not matter to the capture. */
module StreamSplit {
  import opened Text
  import opened StreamState
  import opened StreamExplicit
  import opened StreamBudget
  import opened StreamText
  import opened StreamResolve
  import opened StreamReorder
  import opened StreamHoles
  import opened StreamAppend
  import opened StreamFilling

  // ---------------------------------------------------------------- splitting a fragment

  /** A fragment in the hole comes last in what the chunk carries for its text. */
  ghost predicate LastHole(c: Chunk, k: nat, h: Hole)
    requires Fits(c.choices, k, h) && ExplicitParts(c.choices)
  {
    forall s :: HoleText(c, k, h, s) == HoleText(c, k, h, "") + s
  }

  /** What the chunk carries for the text of its hole, with `s` in the hole. */
  function HoleText(c: Chunk, k: nat, h: Hole, s: string): string
    requires Fits(c.choices, k, h) && ExplicitParts(c.choices)
  {
    PartsText(FillParts(c.choices, k, h, s), HoleIndex(c, k, h), HoleSlot(c, k, h))
  }

  function HoleIndex(c: Chunk, k: nat, h: Hole): int
    requires Fits(c.choices, k, h)
  {
    PartIndex(c.choices[k].value)
  }

  function HoleSlot(c: Chunk, k: nat, h: Hole): Slot
    requires Fits(c.choices, k, h) && ExplicitParts(c.choices)
  {
    assert ExplicitPart(c.choices[k].value);
    SlotOf(c.choices[k].value.delta.value, h)
  }

  lemma FillExplicit(c: Chunk, k: nat, h: Hole, s: string)
    requires Fits(c.choices, k, h) && ExplicitParts(c.choices)
    ensures ExplicitParts(Fill(c, k, h, s).choices)
  {
    assert ExplicitPart(c.choices[k].value);
  }

  lemma AroundText(x: seq<Op>, y: seq<Op>, i: int, slot: Slot, s: string, log: seq<Op>)
    requires Around(x, y, i, slot, s, log)
    ensures LogText(log, i, slot) == LogText(x, i, slot) + s + LogText(y, i, slot)
  {
    var w := When(s != "", Write(i, slot, s));
    LogTextConcat(x + w, y, i, slot);
    WhenText(x, s != "", Write(i, slot, s), i, slot);
    WrittenPiece(i, slot, s);
  }

  lemma WrittenPiece(i: int, slot: Slot, s: string)
    ensures OpPiece(Write(i, slot, s), i, slot) == s
  {
  }

  /** Whatever stands in the middle could as well stand last only if nothing comes behind it. */
  lemma NothingBehind(a: string, b: string, s: string)
    requires |s| == 1 && a + s + b == a + b + s
    ensures b == "" || b[0] == s[0]
  {
    assert (a + s + b)[|a|] == s[0];
    if b != "" { assert (a + b + s)[|a|] == b[0]; }
  }

  lemma NoTextBehind(c: Chunk, k: nat, h: Hole, x: seq<Op>, y: seq<Op>)
    requires Fits(c.choices, k, h) && ExplicitParts(c.choices) && LastHole(c, k, h)
    requires forall s :: Around(x, y, HoleIndex(c, k, h), HoleSlot(c, k, h), s, ChunkOps(Fill(c, k, h, s)))
    ensures LogText(y, HoleIndex(c, k, h), HoleSlot(c, k, h)) == ""
  {
    var i, slot := HoleIndex(c, k, h), HoleSlot(c, k, h);
    var a, b := LogText(x, i, slot), LogText(y, i, slot);
    LastInText(c, k, h, x, y, "0", a, b);
    LastInText(c, k, h, x, y, "1", a, b);
    NothingBehind(a, b, "0");
    NothingBehind(a, b, "1");
  }

  lemma LastInText(c: Chunk, k: nat, h: Hole, x: seq<Op>, y: seq<Op>, s: string, a: string, b: string)
    requires Fits(c.choices, k, h) && ExplicitParts(c.choices)
    requires HoleText(c, k, h, s) == HoleText(c, k, h, "") + s
    requires Around(x, y, HoleIndex(c, k, h), HoleSlot(c, k, h), s, ChunkOps(Fill(c, k, h, s)))
    requires Around(x, y, HoleIndex(c, k, h), HoleSlot(c, k, h), "", ChunkOps(Fill(c, k, h, "")))
    requires a == LogText(x, HoleIndex(c, k, h), HoleSlot(c, k, h))
    requires b == LogText(y, HoleIndex(c, k, h), HoleSlot(c, k, h))
    ensures a + s + b == a + b + s
  {
    FilledText(c, k, h, x, y, s);
    FilledText(c, k, h, x, y, "");
    Unit(a);
  }

  lemma FilledText(c: Chunk, k: nat, h: Hole, x: seq<Op>, y: seq<Op>, s: string)
    requires Fits(c.choices, k, h) && ExplicitParts(c.choices)
    requires Around(x, y, HoleIndex(c, k, h), HoleSlot(c, k, h), s, ChunkOps(Fill(c, k, h, s)))
    ensures var i, slot := HoleIndex(c, k, h), HoleSlot(c, k, h);
            HoleText(c, k, h, s) == LogText(x, i, slot) + s + LogText(y, i, slot)
  {
    var i, slot := HoleIndex(c, k, h), HoleSlot(c, k, h);
    FillExplicit(c, k, h, s);
    ChunkLogText(NEW_STATE, Fill(c, k, h, s), i, slot);
    ChunkLogOps(NEW_STATE, Fill(c, k, h, s));
    AroundText(x, y, i, slot, s, ChunkOps(Fill(c, k, h, s)));
  }

  lemma SolidBehind(x: seq<Op>, y: seq<Op>)
    requires AllSolid(x + [] + y)
    ensures AllSolid(y)
  {
    forall n | 0 <= n < |y| ensures Solid(y[n]) {
      assert (x + [] + y)[|x| + n] == y[n];
    }
  }

  lemma AroundRuns(st: State, x: seq<Op>, y: seq<Op>, i: int, slot: Slot, s: string, log: seq<Op>)
    requires Around(x, y, i, slot, s, log) && st.status.Fine? && st.bytes + LogBytes(log) <= MAX_BYTES
    ensures LogBytes(log) == LogBytes(x) + ByteLen(s) + LogBytes(y)
    ensures Run(st, x).status.Fine? && Run(st, x).bytes == st.bytes + LogBytes(x)
    ensures Run(st, log).status.Fine? && Run(st, log) == Run(Put(Run(st, x), i, slot, s), y)
  {
    var w := When(s != "", Write(i, slot, s));
    PutKeeps(st, i, slot, s);
    LogBytesConcat(x + w, y);
    WhenBytes(x, s != "", Write(i, slot, s));
    RunTrips(st, log);
    RunTrips(st, x);
    RunConcat(st, x + w, y);
    RunConcat(st, x, w);
    if s != "" { RunOne(Run(st, x), Write(i, slot, s)); }
  }

  lemma AroundSplits(st: State, x: seq<Op>, y: seq<Op>, i: int, slot: Slot, s: string, t: string, a: seq<Op>,
                     b: seq<Op>)
    requires Around(x, y, i, slot, s + t, a) && Around(x, y, i, slot, s, b)
    requires Prepares(x, i, slot) && AllSpare(y, i, slot) && st.status.Fine? && st.bytes + LogBytes(a) <= MAX_BYTES
    requires LogBytes(a) == LogBytes(b) + ByteLen(t)
    ensures Run(st, b).status.Fine? && Has(Run(st, b), i, slot)
    ensures Run(st, a) == Put(Run(st, b), i, slot, t)
  {
    var mid := Run(st, x);
    AroundRuns(st, x, y, i, slot, s + t, a);
    AroundRuns(st, x, y, i, slot, s, b);
    RunHas(st, x, i, slot);
    PutHas(mid, i, slot, s);
    PutTwice(mid, i, slot, s, t);
    PutKeeps(mid, i, slot, s);
    PutGoesOn(Put(mid, i, slot, s), i, slot, t, y);
    RunHas(Put(mid, i, slot, s), y, i, slot);
  }

  lemma PutHas(st: State, i: int, slot: Slot, t: string)
    requires Has(st, i, slot)
    ensures Has(Put(st, i, slot, t), i, slot)
  {
    if t != "" { OpHas(st, Write(i, slot, t), i, slot); }
  }

  /** An explicit chunk with `s + t` in its hole does what the chunk with `s` does and then appends `t`. */
  lemma ExplicitSplit(st: State, c: Chunk, k: nat, h: Hole, s: string, t: string)
    requires Fits(c.choices, k, h) && ExplicitParts(c.choices) && LastHole(c, k, h)
    requires st.status.Fine? && st.bytes + PartsBytes(FillParts(c.choices, k, h, s + t)) <= MAX_BYTES
    ensures var i, slot := HoleIndex(c, k, h), HoleSlot(c, k, h);
            var next := Run(st, ChunkOps(Fill(c, k, h, s)));
            && next.status.Fine? && Has(next, i, slot)
            && Run(st, ChunkOps(Fill(c, k, h, s + t))) == Put(next, i, slot, t)
  {
    var i, slot := HoleIndex(c, k, h), HoleSlot(c, k, h);
    var x, y := ChunkAround(c, k, h);
    var a, b := ChunkOps(Fill(c, k, h, s + t)), ChunkOps(Fill(c, k, h, s));
    assert Around(x, y, i, slot, "", ChunkOps(Fill(c, k, h, "")));
    ChunkSolid(Fill(c, k, h, ""));
    SolidBehind(x, y);
    NoTextBehind(c, k, h, x, y);
    TextlessSpares(y, i, slot);
    FillOpsBytes(st, c, k, h, s);
    FillOpsBytes(st, c, k, h, s + t);
    ByteLenConcat(s, t);
    assert Around(x, y, i, slot, s + t, a) && Around(x, y, i, slot, s, b);
    AroundSplits(st, x, y, i, slot, s, t, a, b);
  }

  lemma FillOpsBytes(st: State, c: Chunk, k: nat, h: Hole, s: string)
    requires Fits(c.choices, k, h) && ExplicitParts(c.choices)
    ensures LogBytes(ChunkOps(Fill(c, k, h, s))) == PartsBytes(FillParts(c.choices, k, h, s))
    ensures LogBytes(ChunkOps(Fill(c, k, h, s))) == PartsBytes(FillParts(c.choices, k, h, "")) + ByteLen(s)
  {
    FillExplicit(c, k, h, s);
    ChunkLogOps(st, Fill(c, k, h, s));
    ChunkLogBytes(st, Fill(c, k, h, s));
    FillBytes(c.choices, k, h, s);
  }

  /** The chunk with its tool indexes written in still has the hole. */
  lemma ResolvedFits(seen: Seen, c: Chunk, k: nat, h: Hole)
    requires Fits(c.choices, k, h)
    ensures Fits(ResolvedChunk(seen, c).choices, k, h) && ExplicitParts(ResolvedChunk(seen, c).choices)
    ensures HoleIndex(ResolvedChunk(seen, c), k, h) == HoleIndex(c, k, h)
  {
    PartsFill(seen, c.choices, k, h, "");
    PartsExplicit(seen, c.choices);
    ResolvedIndex(seen, c.choices, k);
  }

  /** The text that a hole feeds, where the tool calls seen so far number those without an index. */
  function SlotIn(seen: Seen, c: Chunk, k: nat, h: Hole): Slot
    requires Fits(c.choices, k, h)
  {
    ResolvedFits(seen, c, k, h);
    HoleSlot(ResolvedChunk(seen, c), k, h)
  }

  ghost predicate LastHoleIn(seen: Seen, c: Chunk, k: nat, h: Hole)
    requires Fits(c.choices, k, h)
  {
    ResolvedFits(seen, c, k, h);
    LastHole(ResolvedChunk(seen, c), k, h)
  }

  lemma FilledRuns(st: State, seen: Seen, c: Chunk, k: nat, h: Hole, s: string)
    requires Fits(c.choices, k, h) && Fits(ResolvedChunk(seen, c).choices, k, h)
    requires st.status.Fine? && Matches(st, seen) && st.bytes + PartsBytes(FillParts(c.choices, k, h, s)) <= MAX_BYTES
    ensures RunChunk(st, Fill(c, k, h, s)) == Run(st, ChunkOps(Fill(ResolvedChunk(seen, c), k, h, s)))
    ensures RunChunk(st, Fill(c, k, h, s)).status.Fine?
    ensures RunChunk(st, Fill(c, k, h, s)).bytes == st.bytes + PartsBytes(FillParts(c.choices, k, h, s))
    ensures Matches(RunChunk(st, Fill(c, k, h, s)), SeenAfterParts(seen, c.choices))
  {
    var f := Fill(c, k, h, s);
    ChunkTrips(st, f);
    ChunkLogResolved(st, seen, f);
    PartsFill(seen, c.choices, k, h, s);
    assert ResolvedChunk(seen, f) == Fill(ResolvedChunk(seen, c), k, h, s);
  }

  lemma ResolvedBytes(st: State, c: Chunk, d: Chunk)
    requires LogBytes(ChunkLog(st, c)) == LogBytes(ChunkLog(st, d))
    ensures PartsBytes(c.choices) == PartsBytes(d.choices)
  {
    ChunkLogBytes(st, c);
    ChunkLogBytes(st, d);
  }

  lemma ChunkSplits(st: State, seen: Seen, c: Chunk, k: nat, h: Hole, s: string, t: string)
    requires Fits(c.choices, k, h) && LastHoleIn(seen, c, k, h)
    requires st.status.Fine? && Matches(st, seen) &&
             st.bytes + PartsBytes(FillParts(c.choices, k, h, s + t)) <= MAX_BYTES
    ensures var i, slot := HoleIndex(c, k, h), SlotIn(seen, c, k, h);
            var next := RunChunk(st, Fill(c, k, h, s));
            && next.status.Fine? && Has(next, i, slot) && Matches(next, SeenAfterParts(seen, c.choices))
            && next.bytes + ByteLen(t) == st.bytes + PartsBytes(FillParts(c.choices, k, h, s + t))
            && RunChunk(st, Fill(c, k, h, s + t)) == Put(next, i, slot, t)
  {
    ResolvedFits(seen, c, k, h);
    FillBytes(c.choices, k, h, s);
    FillBytes(c.choices, k, h, s + t);
    ByteLenConcat(s, t);
    FilledRuns(st, seen, c, k, h, s);
    FilledRuns(st, seen, c, k, h, s + t);
    var r := ResolvedChunk(seen, c);
    ResolvedFillBytes(st, seen, c, k, h, s + t);
    ExplicitSplit(st, r, k, h, s, t);
  }

  lemma ResolvedFillBytes(st: State, seen: Seen, c: Chunk, k: nat, h: Hole, s: string)
    requires Fits(c.choices, k, h) && Fits(ResolvedChunk(seen, c).choices, k, h)
    requires st.status.Fine? && Matches(st, seen) && st.bytes + PartsBytes(FillParts(c.choices, k, h, s)) <= MAX_BYTES
    ensures PartsBytes(FillParts(ResolvedChunk(seen, c).choices, k, h, s)) == PartsBytes(FillParts(c.choices, k, h, s))
  {
    var f := Fill(c, k, h, s);
    ChunkTrips(st, f);
    ChunkLogResolved(st, seen, f);
    PartsFill(seen, c.choices, k, h, s);
    PartsExplicit(seen, f.choices);
    ChunkLogOps(st, ResolvedChunk(seen, f));
    ResolvedBytes(st, f, ResolvedChunk(seen, f));
  }

  lemma OneEvent(st: State, e: Event, es: seq<Event>)
    ensures RunEvents(st, [e] + es) == RunEvents(RunEvent(st, e), es)
  {
    assert ([e] + es)[1..] == es;
  }

  lemma SplitFrom(st: State, seen: Seen, c: Chunk, k: nat, h: Hole, s: string, t: string, between: seq<Event>,
                  head: Chunk)
    requires Fits(c.choices, k, h) && LastHoleIn(seen, c, k, h)
    requires var i, slot := HoleIndex(c, k, h), SlotIn(seen, c, k, h);
             EventsText(ResolvedEvents(SeenAfterParts(seen, c.choices), between), i, slot) == ""
    requires st.status.Fine? && Matches(st, seen) && NoBroken(between)
    requires st.bytes + PartsBytes(FillParts(c.choices, k, h, s + t)) + TotalBytes(between) <= MAX_BYTES
    requires InForce(head, RunEvents(RunEvent(st, Decoded(Fill(c, k, h, s))), between).meta)
    ensures var i, slot := HoleIndex(c, k, h), SlotIn(seen, c, k, h);
            RunEvents(RunEvent(st, Decoded(Fill(c, k, h, s + t))), between) ==
            RunEvent(RunEvents(RunEvent(st, Decoded(Fill(c, k, h, s))), between), Decoded(Rest(head, i, slot, t)))
  {
    var i, slot := HoleIndex(c, k, h), SlotIn(seen, c, k, h);
    ChunkSplits(st, seen, c, k, h, s, t);
    AfterError(st, Fill(c, k, h, s));
    AfterError(st, Fill(c, k, h, s + t));
    RestComesLater(RunChunk(st, Fill(c, k, h, s)), SeenAfterParts(seen, c.choices), between, i, slot, t, head);
  }

  lemma RestComesLater(st: State, seen: Seen, es: seq<Event>, i: int, slot: Slot, t: string, head: Chunk)
    requires st.status.Fine? && Matches(st, seen) && Has(st, i, slot)
    requires NoBroken(es) && st.bytes + ByteLen(t) + TotalBytes(es) <= MAX_BYTES
    requires EventsText(ResolvedEvents(seen, es), i, slot) == "" && InForce(head, RunEvents(st, es).meta)
    ensures RunEvents(Put(st, i, slot, t), es) == RunEvent(RunEvents(st, es), Decoded(Rest(head, i, slot, t)))
  {
    EventsCarry(st, seen, es, i, slot, t);
    RestRuns(RunEvents(st, es), head, i, slot, t);
    AfterError(RunEvents(st, es), Rest(head, i, slot, t));
  }

  // ---------------------------------------------------------------- the whole stream

  function Uncut(before: seq<Event>, whole: Chunk, between: seq<Event>, after: seq<Event>): seq<Event> {
    before + ([Decoded(whole)] + (between + after))
  }

  function Cut(before: seq<Event>, part: Chunk, between: seq<Event>, rest: Chunk, after: seq<Event>): seq<Event> {
    before + ([Decoded(part)] + (between + ([Decoded(rest)] + after)))
  }

  lemma CutRuns(before: seq<Event>, part: Chunk, between: seq<Event>, rest: Chunk, after: seq<Event>)
    ensures var st := RunEvents(RunEvent(RunEvents(NEW_STATE, before), Decoded(part)), between);
            RunEvents(NEW_STATE, Cut(before, part, between, rest, after)) ==
            RunEvents(RunEvent(st, Decoded(rest)), after)
  {
    var st := RunEvents(NEW_STATE, before);
    EventsConcat(NEW_STATE, before, [Decoded(part)] + (between + ([Decoded(rest)] + after)));
    OneEvent(st, Decoded(part), between + ([Decoded(rest)] + after));
    EventsConcat(RunEvent(st, Decoded(part)), between, [Decoded(rest)] + after);
    OneEvent(RunEvents(RunEvent(st, Decoded(part)), between), Decoded(rest), after);
  }

  lemma UncutRuns(before: seq<Event>, whole: Chunk, between: seq<Event>, after: seq<Event>)
    ensures RunEvents(NEW_STATE, Uncut(before, whole, between, after)) ==
            RunEvents(RunEvents(RunEvent(RunEvents(NEW_STATE, before), Decoded(whole)), between), after)
  {
    var st := RunEvents(NEW_STATE, before);
    EventsConcat(NEW_STATE, before, [Decoded(whole)] + (between + after));
    OneEvent(st, Decoded(whole), between + after);
    EventsConcat(RunEvent(st, Decoded(whole)), between, after);
  }

  lemma OneTotal(e: Event, es: seq<Event>)
    ensures TotalBytes([e] + es) == (if e.Decoded? then PartsBytes(e.chunk.choices) else 0) + TotalBytes(es)
    ensures NoBroken([e] + es) <==> !e.Broken? && NoBroken(es)
  {
    var all := [e] + es;
    assert all[1..] == es;
    BrokenConcat([e], es);
  }

  lemma BrokenConcat(a: seq<Event>, b: seq<Event>)
    ensures NoBroken(a + b) <==> NoBroken(a) && NoBroken(b)
  {
    if NoBroken(a + b) {
      forall k | 0 <= k < |a| ensures !a[k].Broken? { assert (a + b)[k] == a[k]; }
      forall k | 0 <= k < |b| ensures !b[k].Broken? { assert (a + b)[|a| + k] == b[k]; }
    }
  }

  lemma UncutTotal(before: seq<Event>, whole: Chunk, between: seq<Event>, after: seq<Event>)
    ensures TotalBytes(Uncut(before, whole, between, after)) ==
            TotalBytes(before) + PartsBytes(whole.choices) + TotalBytes(between) + TotalBytes(after)
    ensures NoBroken(Uncut(before, whole, between, after)) <==> NoBroken(before) && NoBroken(between) && NoBroken(after)
  {
    TotalConcat(before, [Decoded(whole)] + (between + after));
    BrokenConcat(before, [Decoded(whole)] + (between + after));
    OneTotal(Decoded(whole), between + after);
    TotalConcat(between, after);
    BrokenConcat(between, after);
  }

  lemma CutTotal(before: seq<Event>, part: Chunk, between: seq<Event>, rest: Chunk, after: seq<Event>)
    ensures var es := Cut(before, part, between, rest, after);
            && TotalBytes(es) == TotalBytes(before) + PartsBytes(part.choices) + TotalBytes(between)
                                 + PartsBytes(rest.choices) + TotalBytes(after)
            && (NoBroken(es) <==> NoBroken(before) && NoBroken(between) && NoBroken(after))
  {
    UncutTotal(before, part, between, [Decoded(rest)] + after);
    OneTotal(Decoded(rest), after);
  }

  lemma RestBytes(i: int, slot: Slot, t: string)
    ensures PartsBytes(RestParts(i, slot, t)) == ByteLen(t)
  {
    RestOps(i, slot, t);
    PartsLogOps(NEW_STATE, RestParts(i, slot, t));
    PartsLogBytes(NEW_STATE, RestParts(i, slot, t));
    RestOpsBytes(i, slot, t);
  }

  lemma RestOpsBytes(i: int, slot: Slot, t: string)
    ensures LogBytes(TouchSlot(i, slot) + When(t != "", Write(i, slot, t))) == ByteLen(t)
  {
    WhenBytes(TouchSlot(i, slot), t != "", Write(i, slot, t));
    PutKeeps(NEW_STATE, i, slot, t);
    TouchBytes(i, slot);
  }

  lemma TouchBytes(i: int, slot: Slot)
    ensures LogBytes(TouchSlot(i, slot)) == 0
  {
    NoBytes(TouchSlot(i, slot));
  }

  lemma {:induction false} NoBytes(ops: seq<Op>)
    requires forall op :: op in ops ==> OpBytes(op) == 0
    ensures LogBytes(ops) == 0
    decreases ops
  {
    if ops != [] { NoBytes(ops[1..]); }
  }

  /**
    In any stream a chunk that carries `s + t` for one text may be replaced by the chunk with `s`
    and, after any events that carry nothing for the same text, a chunk with `t` that repeats the
    metadata in force, or has none: both captures fail, or both end in the same state.
   */
  lemma StreamSplit(before: seq<Event>, c: Chunk, k: nat, h: Hole, s: string, t: string, between: seq<Event>,
                    head: Chunk, after: seq<Event>)
    requires Fits(c.choices, k, h) && LastHoleIn(SeenAfter(map[], before), c, k, h)
    requires var seen := SeenAfter(map[], before);
             EventsText(ResolvedEvents(SeenAfterParts(seen, c.choices), between), HoleIndex(c, k, h),
                        SlotIn(seen, c, k, h)) == ""
    requires InForce(head, RunEvents(NEW_STATE, before + ([Decoded(Fill(c, k, h, s))] + between)).meta)
    ensures var rest := Rest(head, HoleIndex(c, k, h), SlotIn(SeenAfter(map[], before), c, k, h), t);
            SameOutcome(RunEvents(NEW_STATE, Uncut(before, Fill(c, k, h, s + t), between, after)),
                        RunEvents(NEW_STATE, Cut(before, Fill(c, k, h, s), between, rest, after)))
  {
    var seen := SeenAfter(map[], before);
    var i, slot := HoleIndex(c, k, h), SlotIn(seen, c, k, h);
    var whole, part, rest := Fill(c, k, h, s + t), Fill(c, k, h, s), Rest(head, i, slot, t);
    var a, b := Uncut(before, whole, between, after), Cut(before, part, between, rest, after);
    FineIff(NEW_STATE, a);
    FineIff(NEW_STATE, b);
    SplitTotals(before, c, k, h, s, t, between, head, after, i, slot);
    if RunEvents(NEW_STATE, a).status.Fine? {
      var st := RunEvents(NEW_STATE, before);
      FineIff(NEW_STATE, before);
      EventsResolved(NEW_STATE, map[], before);
      EventsBytes(NEW_STATE, before);
      PartRuns(before, part, between);
      SplitFrom(st, seen, c, k, h, s, t, between, head);
      UncutRuns(before, whole, between, after);
      CutRuns(before, part, between, rest, after);
    }
  }

  lemma PartRuns(before: seq<Event>, part: Chunk, between: seq<Event>)
    ensures RunEvents(NEW_STATE, before + ([Decoded(part)] + between)) ==
            RunEvents(RunEvent(RunEvents(NEW_STATE, before), Decoded(part)), between)
  {
    EventsConcat(NEW_STATE, before, [Decoded(part)] + between);
    OneEvent(RunEvents(NEW_STATE, before), Decoded(part), between);
  }

  lemma SplitTotals(before: seq<Event>, c: Chunk, k: nat, h: Hole, s: string, t: string, between: seq<Event>,
                    head: Chunk, after: seq<Event>, i: int, slot: Slot)
    requires Fits(c.choices, k, h)
    ensures var a := Uncut(before, Fill(c, k, h, s + t), between, after);
            var b := Cut(before, Fill(c, k, h, s), between, Rest(head, i, slot, t), after);
            && TotalBytes(a) == TotalBytes(b) && (NoBroken(a) <==> NoBroken(b))
            && (NoBroken(a) ==> NoBroken(before) && NoBroken(between))
            && TotalBytes(before) + PartsBytes(FillParts(c.choices, k, h, s + t)) + TotalBytes(between) <= TotalBytes(a)
  {
    UncutTotal(before, Fill(c, k, h, s + t), between, after);
    CutTotal(before, Fill(c, k, h, s), between, Rest(head, i, slot, t), after);
    RestBytes(i, slot, t);
    FillBytes(c.choices, k, h, s);
    FillBytes(c.choices, k, h, s + t);
    ByteLenConcat(s, t);
  }

  lemma {:induction false} EventsBytes(st: State, es: seq<Event>)
    requires st.status.Fine? && st.bytes + TotalBytes(es) <= MAX_BYTES && NoBroken(es)
    ensures RunEvents(st, es).status.Fine? && RunEvents(st, es).bytes == st.bytes + TotalBytes(es)
    decreases es
  {
    if es != [] {
      if es[0].Decoded? { ChunkTrips(st, es[0].chunk); }
      EventsBytes(RunEvent(st, es[0]), es[1..]);
    }
  }
}
