/** How much of a stream's framing does not matter: chunks of different choices, and where fragments are cut. */
module StreamReorder {
  import opened Wrappers
  import opened Text
  import opened StreamState
  import opened StreamExplicit
  import opened StreamBudget
  import opened StreamText
  import opened StreamResolve
  import opened StreamAssembly

  // ---------------------------------------------------------------- which choice a log concerns

  predicate AllOn(ops: seq<Op>, i: int) {
    forall k :: 0 <= k < |ops| ==> ops[k].OnChoice? && ops[k].i == i
  }

  lemma CallLogOn(i: int, tool: Option<int>, f: FunctionPart)
    ensures AllOn(CallLog(i, tool, f), i)
  {
  }

  lemma ToolLogOn(i: int, t: int, p: ToolPart)
    ensures AllOn(ToolLog(i, t, p), i)
  {
    if p.function_.Some? { CallLogOn(i, Some(t), p.function_.value); }
  }

  lemma {:induction false} ToolsLogOn(st: State, i: int, parts: seq<Option<ToolPart>>)
    ensures AllOn(ToolsLog(st, i, parts), i)
    decreases parts
  {
    if parts != [] {
      if parts[0].None? {
        ToolsLogOn(st, i, parts[1..]);
      } else {
        var t := ToolIndex(st, i, parts[0].value);
        ToolLogOn(i, t, parts[0].value);
        ToolsLogOn(Run(st, ToolLog(i, t, parts[0].value)), i, parts[1..]);
      }
    }
  }

  lemma TextLogOn(i: int, d: Delta)
    ensures AllOn(TextLog(i, d), i)
  {
    if d.functionCall.Some? { CallLogOn(i, None, d.functionCall.value); }
    FourOn(When(TrimSpace(d.role) != "", OnChoice(i, SetRole(TrimSpace(d.role)))),
           When(d.content != "", OnChoice(i, AddContent(d.content))),
           When(d.refusal != "", OnChoice(i, AddRefusal(d.refusal))),
           if d.functionCall.Some? then CallLog(i, None, d.functionCall.value) else [], i);
  }

  lemma FourOn(a: seq<Op>, b: seq<Op>, c: seq<Op>, d: seq<Op>, i: int)
    requires AllOn(a, i) && AllOn(b, i) && AllOn(c, i) && AllOn(d, i)
    ensures AllOn(a + b + c + d, i)
  {
  }

  lemma PartLogOn(st: State, p: ChoicePart)
    ensures AllOn(PartLog(st, p), PartIndex(p))
  {
    if p.delta.Some? {
      var i, d := PartIndex(p), p.delta.value;
      var st' := Run(st, HeadLog(p));
      TextLogOn(i, d);
      ToolsLogOn(Run(st', TextLog(i, d)), i, d.toolCalls);
    }
  }

  function Indices(parts: seq<Option<ChoicePart>>): set<int> {
    if parts == [] then {}
    else (if parts[0].None? then {} else {PartIndex(parts[0].value)}) + Indices(parts[1..])
  }

  predicate Within(ops: seq<Op>, indices: set<int>) {
    forall k :: 0 <= k < |ops| && ops[k].OnChoice? ==> ops[k].i in indices
  }

  lemma {:induction false} PartsLogWithin(st: State, parts: seq<Option<ChoicePart>>)
    ensures Within(PartsLog(st, parts), Indices(parts))
    decreases parts
  {
    if parts != [] {
      if parts[0].None? {
        PartsLogWithin(st, parts[1..]);
      } else {
        PartLogOn(st, parts[0].value);
        PartsLogWithin(Run(st, PartLog(st, parts[0].value)), parts[1..]);
      }
    }
  }

  lemma {:induction false} EditsOutside(ops: seq<Op>, indices: set<int>, i: int)
    requires Within(ops, indices) && i !in indices
    ensures EditsOf(ops, i) == []
    decreases ops
  {
    if ops != [] { EditsOutside(ops[1..], indices, i); }
  }

  // ---------------------------------------------------------------- swapping chunks

  lemma EditsSwap(x: seq<Op>, y: seq<Op>, a: set<int>, b: set<int>, i: int)
    requires Within(x, a) && Within(y, b) && a !! b
    ensures EditsOf(x + y, i) == EditsOf(y + x, i)
  {
    EditsConcat(x, y, i);
    EditsConcat(y, x, i);
    if i !in a { EditsOutside(x, a, i); } else { EditsOutside(y, b, i); }
  }

  lemma AssembledSwap(choices: map<int, Choice>, x: seq<Op>, y: seq<Op>, a: set<int>, b: set<int>)
    requires Within(x, a) && Within(y, b) && a !! b
    ensures Assembled(choices, x + y) == Assembled(choices, y + x)
  {
    MetaEditsConcat(x, y);
    MetaEditsConcat(y, x);
    var p, q := Assembled(choices, x + y), Assembled(choices, y + x);
    assert p.Keys == q.Keys;
    forall i | i in p
      ensures p[i] == q[i]
    {
      EditsSwap(x, y, a, b, i);
    }
  }

  lemma {:induction false} NoMeta(ops: seq<Op>)
    requires forall k :: 0 <= k < |ops| ==> ops[k].OnChoice?
    ensures MetaEditsOf(ops) == []
    decreases ops
  {
    if ops != [] { NoMeta(ops[1..]); }
  }

  lemma {:induction false} PartsLogNoMeta(st: State, parts: seq<Option<ChoicePart>>)
    ensures forall k :: 0 <= k < |PartsLog(st, parts)| ==> PartsLog(st, parts)[k].OnChoice?
    decreases parts
  {
    if parts != [] {
      if parts[0].None? {
        PartsLogNoMeta(st, parts[1..]);
      } else {
        PartLogOn(st, parts[0].value);
        PartsLogNoMeta(Run(st, PartLog(st, parts[0].value)), parts[1..]);
      }
    }
  }

  lemma ChunkShape(st: State, c: Chunk)
    ensures Within(ChunkLog(st, c), Indices(c.choices)) && MetaEditsOf(ChunkLog(st, c)) == MetaEditsOf(MetaLog(c))
  {
    var meta := MetaLog(c);
    var log := PartsLog(Run(st, meta), c.choices);
    MetaLogShape(c);
    PartsLogWithin(Run(st, meta), c.choices);
    WithinConcat(meta, log, Indices(c.choices));
    PartsLogNoMeta(Run(st, meta), c.choices);
    NoMeta(log);
    MetaEditsConcat(meta, log);
    assert MetaEditsOf(meta) + [] == MetaEditsOf(meta);
  }

  lemma WithinConcat(a: seq<Op>, b: seq<Op>, indices: set<int>)
    requires MetaOnly(a) && Within(b, indices)
    ensures Within(a + b, indices)
  {
  }

  lemma ExplicitSwap(st: State, a: Chunk, b: Chunk)
    requires st.status.Fine? && st.bytes <= MAX_BYTES && RunChunk(RunChunk(st, a), b).status.Fine?
    requires ExplicitParts(a.choices) && ExplicitParts(b.choices)
    requires Indices(a.choices) !! Indices(b.choices) && MetaLog(a) == MetaLog(b)
    ensures RunChunk(RunChunk(st, a), b) == RunChunk(RunChunk(st, b), a)
  {
    var x, y := ChunkOps(a), ChunkOps(b);
    ChunkLogOps(st, a);
    ChunkLogOps(st, b);
    ChunkLogOps(RunChunk(st, a), b);
    ChunkLogOps(RunChunk(st, b), a);
    RunConcat(st, x, y);
    RunConcat(st, y, x);
    LogBytesConcat(x, y);
    LogBytesConcat(y, x);
    RunTrips(st, x + y);
    RunTrips(st, y + x);
    RunAssembles(st, x + y);
    RunAssembles(st, y + x);
    ChunkShape(st, a);
    ChunkShape(st, b);
    MetaEditsConcat(x, y);
    MetaEditsConcat(y, x);
    AssembledSwap(st.choices, x, y, Indices(a.choices), Indices(b.choices));
  }

  // ---------------------------------------------------------------- also without tool indexes

  function SeenOf(st: State): Seen {
    map i | i in st.choices :: st.choices[i].tools.Keys
  }

  predicate SameSeen(a: Seen, b: Seen, indices: set<int>) {
    forall i :: i in indices ==> SeenAt(a, i) == SeenAt(b, i)
  }

  lemma {:induction false} SeenOutside(seen: Seen, parts: seq<Option<ChoicePart>>, i: int)
    requires i !in Indices(parts)
    ensures SeenAt(SeenAfterParts(seen, parts), i) == SeenAt(seen, i)
    decreases parts
  {
    if parts != [] {
      SeenOutside(if parts[0].None? then seen else SeenAfterPart(seen, parts[0].value), parts[1..], i);
    }
  }

  lemma {:induction false} ResolvedLocally(a: Seen, b: Seen, parts: seq<Option<ChoicePart>>)
    requires SameSeen(a, b, Indices(parts))
    ensures ResolvedParts(a, parts) == ResolvedParts(b, parts)
    decreases parts
  {
    if parts != [] {
      if parts[0].None? {
        ResolvedLocally(a, b, parts[1..]);
      } else {
        ResolvedLocally(SeenAfterPart(a, parts[0].value), SeenAfterPart(b, parts[0].value), parts[1..]);
      }
    }
  }

  lemma {:induction false} ResolvedIndices(seen: Seen, parts: seq<Option<ChoicePart>>)
    ensures Indices(ResolvedParts(seen, parts)) == Indices(parts)
    decreases parts
  {
    if parts != [] {
      var all := ResolvedParts(seen, parts);
      if parts[0].None? {
        ResolvedIndices(seen, parts[1..]);
        assert all[1..] == ResolvedParts(seen, parts[1..]);
      } else {
        ResolvedIndices(SeenAfterPart(seen, parts[0].value), parts[1..]);
        assert all[1..] == ResolvedParts(SeenAfterPart(seen, parts[0].value), parts[1..]);
      }
    }
  }

  /** Running `a` and then `b` is running both with the tool indexes they would have by themselves. */
  lemma BothResolved(st: State, a: Chunk, b: Chunk)
    requires st.status.Fine? && RunChunk(st, a).status.Fine? && RunChunk(RunChunk(st, a), b).status.Fine?
    requires Indices(a.choices) !! Indices(b.choices)
    ensures var seen := SeenOf(st);
            && RunChunk(RunChunk(st, a), b) == RunChunk(RunChunk(st, ResolvedChunk(seen, a)), ResolvedChunk(seen, b))
            && RunChunk(st, a) == RunChunk(st, ResolvedChunk(seen, a))
  {
    var seen := SeenOf(st);
    assert Matches(st, seen);
    ChunkResolved(st, seen, a);
    var next := SeenAfterParts(seen, a.choices);
    ChunkResolved(RunChunk(st, a), next, b);
    forall i | i in Indices(b.choices) ensures SeenAt(next, i) == SeenAt(seen, i) {
      SeenOutside(seen, a.choices, i);
    }
    ResolvedLocally(next, seen, b.choices);
  }

  lemma ChunkTrips(st: State, c: Chunk)
    requires st.status.Fine? && st.bytes <= MAX_BYTES
    ensures RunChunk(st, c).status.Fine? <==> st.bytes + PartsBytes(c.choices) <= MAX_BYTES
    ensures RunChunk(st, c).status.Fine? ==> RunChunk(st, c).bytes == st.bytes + PartsBytes(c.choices)
  {
    ChunkLogBytes(st, c);
    RunTrips(st, ChunkLog(st, c));
  }

  lemma TwoTrip(st: State, a: Chunk, b: Chunk)
    requires st.status.Fine? && st.bytes <= MAX_BYTES
    ensures RunChunk(RunChunk(st, a), b).status.Fine? <==>
            st.bytes + PartsBytes(a.choices) + PartsBytes(b.choices) <= MAX_BYTES
    ensures RunChunk(RunChunk(st, a), b).status.Fine? ==> RunChunk(st, a).status.Fine?
  {
    ChunkTrips(st, a);
    var x := RunChunk(st, a);
    if x.status.Fine? {
      ChunkTrips(x, b);
    } else {
      RunAfterError(x, ChunkLog(x, b));
    }
  }

  /** Two chunks with the same metadata that concern different choices may come in either order. */
  lemma ChunksSwap(st: State, a: Chunk, b: Chunk)
    requires st.status.Fine? && st.bytes <= MAX_BYTES
    requires Indices(a.choices) !! Indices(b.choices) && MetaLog(a) == MetaLog(b)
    ensures SameOutcome(RunChunk(RunChunk(st, a), b), RunChunk(RunChunk(st, b), a))
  {
    TwoTrip(st, a, b);
    TwoTrip(st, b, a);
    if RunChunk(RunChunk(st, a), b).status.Fine? {
      var seen := SeenOf(st);
      BothResolved(st, a, b);
      BothResolved(st, b, a);
      PartsExplicit(seen, a.choices);
      PartsExplicit(seen, b.choices);
      ResolvedIndices(seen, a.choices);
      ResolvedIndices(seen, b.choices);
      ExplicitSwap(st, ResolvedChunk(seen, a), ResolvedChunk(seen, b));
    }
  }

  lemma {:induction false} EventsConcat(st: State, a: seq<Event>, b: seq<Event>)
    ensures RunEvents(st, a + b) == RunEvents(RunEvents(st, a), b)
    decreases a
  {
    if a == [] {
      assert a + b == b;
    } else {
      assert (a + b)[1..] == a[1..] + b;
      EventsConcat(RunEvent(st, a[0]), a[1..], b);
    }
  }

  lemma TwoEvents(st: State, a: Event, b: Event, rest: seq<Event>)
    ensures RunEvents(st, [a, b] + rest) == RunEvents(RunEvent(RunEvent(st, a), b), rest)
  {
    assert ([a, b] + rest)[1..] == [b] + rest && ([b] + rest)[1..] == rest;
  }

  lemma OutcomeGoesOn(x: State, y: State, es: seq<Event>)
    requires SameOutcome(x, y)
    ensures SameOutcome(RunEvents(x, es), RunEvents(y, es))
  {
    if !x.status.Fine? {
      EventsAfterError(x, es);
      EventsAfterError(y, es);
    }
  }

  /** The same within any stream, errors included. */
  lemma StreamSwap(before: seq<Event>, a: Chunk, b: Chunk, after: seq<Event>)
    requires Indices(a.choices) !! Indices(b.choices) && MetaLog(a) == MetaLog(b)
    ensures SameOutcome(RunEvents(NEW_STATE, before + ([Decoded(a), Decoded(b)] + after)),
                        RunEvents(NEW_STATE, before + ([Decoded(b), Decoded(a)] + after)))
  {
    var st := RunEvents(NEW_STATE, before);
    EventsConcat(NEW_STATE, before, [Decoded(a), Decoded(b)] + after);
    EventsConcat(NEW_STATE, before, [Decoded(b), Decoded(a)] + after);
    TwoEvents(st, Decoded(a), Decoded(b), after);
    TwoEvents(st, Decoded(b), Decoded(a), after);
    FreshIsAccounted();
    EventsAccounted(NEW_STATE, before);
    if st.status.Fine? {
      ChunksSwap(st, a, b);
      AfterError(RunChunk(st, a), b);
      AfterError(RunChunk(st, b), a);
      OutcomeGoesOn(RunChunk(RunChunk(st, a), b), RunChunk(RunChunk(st, b), a), after);
    }
  }

  lemma AfterError(st: State, c: Chunk)
    ensures RunEvent(st, Decoded(c)) == RunChunk(st, c)
  {
    if !st.status.Fine? { RunAfterError(st, ChunkLog(st, c)); }
  }

  // ---------------------------------------------------------------- cutting fragments

  /** The edit that appends `s` to a text. */
  function Write(i: int, slot: Slot, s: string): Op {
    OnChoice(i, match slot
                case Content => AddContent(s)
                case Refusal => AddRefusal(s)
                case CallName => OnCall(AddName(s))
                case CallArguments => OnCall(AddArguments(s))
                case ToolName(t) => OnTool(t, OnFunction(AddName(s)))
                case ToolArguments(t) => OnTool(t, OnFunction(AddArguments(s))))
  }

  /** The edit appends nothing to this text. */
  predicate Spares(op: Op, i: int, slot: Slot) {
    op.OnChoice? && op.i == i ==>
      match slot
      case Content => !op.edit.AddContent?
      case Refusal => !op.edit.AddRefusal?
      case CallName => !(op.edit.OnCall? && op.edit.call.AddName?)
      case CallArguments => !(op.edit.OnCall? && op.edit.call.AddArguments?)
      case ToolName(t) => !(op.edit.OnTool? && op.edit.t == t && op.edit.tool.OnFunction? && op.edit.tool.call.AddName?)
      case ToolArguments(t) => !(op.edit.OnTool? && op.edit.t == t && op.edit.tool.OnFunction? &&
                                 op.edit.tool.call.AddArguments?)
  }

  lemma ToolCommutes(tools: map<int, Tool>, t: int, w: ToolEdit, u: int, e: ToolEdit)
    requires t == u ==> EditTool(EditTool(ToolAt(tools, t), w), e) == EditTool(EditTool(ToolAt(tools, t), e), w)
    ensures var x := tools[t := EditTool(ToolAt(tools, t), w)];
            var y := tools[u := EditTool(ToolAt(tools, u), e)];
            x[u := EditTool(ToolAt(x, u), e)] == y[t := EditTool(ToolAt(y, t), w)]
  {
  }

  lemma EditCommutes(c: Choice, i: int, slot: Slot, s: string, e: ChoiceEdit)
    requires Spares(OnChoice(i, e), i, slot)
    ensures var w := Write(i, slot, s).edit;
            EditChoice(EditChoice(c, w), e) == EditChoice(EditChoice(c, e), w)
  {
    var w := Write(i, slot, s).edit;
    if w.OnTool? && e.OnTool? {
      ToolCommutes(c.tools, w.t, w.tool, e.t, e.tool);
    }
  }

  lemma WriteCommutes(st: State, i: int, slot: Slot, s: string, op: Op)
    requires Spares(op, i, slot)
    ensures Apply(Apply(st, Write(i, slot, s)), op) == Apply(Apply(st, op), Write(i, slot, s))
  {
    if op.OnChoice? {
      if op.i == i {
        EditCommutes(ChoiceAt(st.choices, i), i, slot, s, op.edit);
      }
      ApplyCommutes(st, i, Write(i, slot, s).edit, op.i, op.edit);
    }
  }

  lemma ApplyCommutes(st: State, i: int, x: ChoiceEdit, j: int, y: ChoiceEdit)
    requires i == j ==>
             EditChoice(EditChoice(ChoiceAt(st.choices, i), x), y) ==
             EditChoice(EditChoice(ChoiceAt(st.choices, i), y), x)
    ensures Apply(Apply(st, OnChoice(i, x)), OnChoice(j, y)) == Apply(Apply(st, OnChoice(j, y)), OnChoice(i, x))
  {
    var a, b := Apply(Apply(st, OnChoice(i, x)), OnChoice(j, y)), Apply(Apply(st, OnChoice(j, y)), OnChoice(i, x));
    assert a.choices == b.choices;
  }

  lemma {:induction false} WriteMovesLater(st: State, i: int, slot: Slot, s: string, ops: seq<Op>)
    requires st.status.Fine? && st.bytes + ByteLen(s) + LogBytes(ops) <= MAX_BYTES
    requires forall k :: 0 <= k < |ops| ==> Spares(ops[k], i, slot)
    ensures Run(Apply(st, Write(i, slot, s)), ops) == Apply(Run(st, ops), Write(i, slot, s))
    decreases ops
  {
    if ops != [] {
      WriteCommutes(st, i, slot, s, ops[0]);
      WriteMovesLater(RunOp(st, ops[0]), i, slot, s, ops[1..]);
    }
  }

  lemma WriteTwice(st: State, i: int, slot: Slot, s: string, t: string)
    ensures Apply(Apply(st, Write(i, slot, s)), Write(i, slot, t)) == Apply(st, Write(i, slot, s + t))
  {
    EditTwice(ChoiceAt(st.choices, i), i, slot, s, t);
    WriteBytes(i, slot, s, t);
    ApplyTwice(st, i, Write(i, slot, s).edit, Write(i, slot, t).edit, Write(i, slot, s + t).edit);
  }

  lemma WriteBytes(i: int, slot: Slot, s: string, t: string)
    ensures EditBytes(Write(i, slot, s + t).edit) ==
            EditBytes(Write(i, slot, s).edit) + EditBytes(Write(i, slot, t).edit)
  {
    ByteLenConcat(s, t);
  }

  lemma EditTwice(c: Choice, i: int, slot: Slot, s: string, t: string)
    ensures EditChoice(EditChoice(c, Write(i, slot, s).edit), Write(i, slot, t).edit) ==
            EditChoice(c, Write(i, slot, s + t).edit)
  {
    assert c.content + s + t == c.content + (s + t);
    assert c.refusal + s + t == c.refusal + (s + t);
    CallTwice(c.call, s, t);
    if slot.ToolName? || slot.ToolArguments? {
      CallTwice(ToolAt(c.tools, slot.t).call, s, t);
      var x, y := Write(i, slot, s).edit, Write(i, slot, t).edit;
      assert EditChoice(EditChoice(c, x), y).tools == EditChoice(c, Write(i, slot, s + t).edit).tools;
    }
  }

  lemma ApplyTwice(st: State, i: int, x: ChoiceEdit, y: ChoiceEdit, z: ChoiceEdit)
    requires EditChoice(EditChoice(ChoiceAt(st.choices, i), x), y) == EditChoice(ChoiceAt(st.choices, i), z)
    ensures Apply(Apply(st, OnChoice(i, x)), OnChoice(i, y)).choices == Apply(st, OnChoice(i, z)).choices
  {
  }

  lemma CallTwice(c: Option<Call>, s: string, t: string)
    ensures EditCall(EditCall(c, AddName(s)), AddName(t)) == EditCall(c, AddName(s + t))
    ensures EditCall(EditCall(c, AddArguments(s)), AddArguments(t)) == EditCall(c, AddArguments(s + t))
  {
    assert CallOf(c).name + s + t == CallOf(c).name + (s + t);
    assert CallOf(c).arguments + s + t == CallOf(c).arguments + (s + t);
  }
}
