/** The byte budget of a capture: what the counter counts, and exactly when it trips. */
module StreamBudget {
  import opened Wrappers
  import opened Text
  import opened StreamState
  import opened Collections

  // ---------------------------------------------------------------- fragments in the input

  function LogBytes(ops: seq<Op>): nat {
    if ops == [] then 0 else OpBytes(ops[0]) + LogBytes(ops[1..])
  }

  lemma {:induction false} LogBytesConcat(a: seq<Op>, b: seq<Op>)
    ensures LogBytes(a + b) == LogBytes(a) + LogBytes(b)
  {
    if a == [] {
      assert a + b == b;
    } else {
      assert (a + b)[1..] == a[1..] + b;
      LogBytesConcat(a[1..], b);
    }
  }

  function FunctionBytes(f: Option<FunctionPart>): nat {
    if f.None? then 0 else ByteLen(f.value.name) + ByteLen(f.value.arguments)
  }

  function ToolPartsBytes(parts: seq<Option<ToolPart>>): nat {
    if parts == [] then 0
    else (if parts[0].None? then 0 else FunctionBytes(parts[0].value.function_)) + ToolPartsBytes(parts[1..])
  }

  function PartBytes(p: ChoicePart): nat {
    if p.delta.None? then 0
    else
      var d := p.delta.value;
      ByteLen(d.content) + ByteLen(d.refusal) + FunctionBytes(d.functionCall) + ToolPartsBytes(d.toolCalls)
  }

  function PartsBytes(parts: seq<Option<ChoicePart>>): nat {
    if parts == [] then 0
    else (if parts[0].None? then 0 else PartBytes(parts[0].value)) + PartsBytes(parts[1..])
  }

  /** The length in bytes of all text fragments of the chunks among the events. */
  function TotalBytes(es: seq<Event>): nat {
    if es == [] then 0
    else (if es[0].Decoded? then PartsBytes(es[0].chunk.choices) else 0) + TotalBytes(es[1..])
  }

  lemma WhenBytes(log: seq<Op>, b: bool, op: Op)
    ensures LogBytes(log + When(b, op)) == LogBytes(log) + if b then OpBytes(op) else 0
  {
    LogBytesConcat(log, When(b, op));
    if b { assert [op][1..] == []; }
  }

  lemma CallLogBytes(i: int, tool: Option<int>, f: FunctionPart)
    ensures LogBytes(CallLog(i, tool, f)) == FunctionBytes(Some(f))
  {
    var touch := [Target(i, tool, TouchCall)];
    assert touch[1..] == [];
    WhenBytes(touch, f.name != "", Target(i, tool, AddName(f.name)));
    WhenBytes(touch + When(f.name != "", Target(i, tool, AddName(f.name))),
              f.arguments != "", Target(i, tool, AddArguments(f.arguments)));
  }

  lemma OptionalCallBytes(log: seq<Op>, i: int, tool: Option<int>, f: Option<FunctionPart>)
    ensures LogBytes(log + (if f.Some? then CallLog(i, tool, f.value) else [])) == LogBytes(log) + FunctionBytes(f)
  {
    if f.Some? {
      LogBytesConcat(log, CallLog(i, tool, f.value));
      CallLogBytes(i, tool, f.value);
    } else {
      assert log + [] == log;
    }
  }

  lemma ToolLogBytes(i: int, t: int, p: ToolPart)
    ensures LogBytes(ToolLog(i, t, p)) == FunctionBytes(p.function_)
  {
    var touch := [OnChoice(i, OnTool(t, TouchTool))];
    var id := When(TrimSpace(p.id) != "", OnChoice(i, OnTool(t, SetToolId(TrimSpace(p.id)))));
    var kind := When(TrimSpace(p.kind) != "", OnChoice(i, OnTool(t, SetKind(TrimSpace(p.kind)))));
    assert touch[1..] == [];
    WhenBytes(touch, TrimSpace(p.id) != "", OnChoice(i, OnTool(t, SetToolId(TrimSpace(p.id)))));
    WhenBytes(touch + id, TrimSpace(p.kind) != "", OnChoice(i, OnTool(t, SetKind(TrimSpace(p.kind)))));
    OptionalCallBytes(touch + id + kind, i, Some(t), p.function_);
  }

  lemma {:induction false} ToolsLogBytes(st: State, i: int, parts: seq<Option<ToolPart>>)
    ensures LogBytes(ToolsLog(st, i, parts)) == ToolPartsBytes(parts)
    decreases parts
  {
    if parts != [] {
      if parts[0].None? {
        ToolsLogBytes(st, i, parts[1..]);
      } else {
        var t := ToolIndex(st, i, parts[0].value);
        var log := ToolLog(i, t, parts[0].value);
        ToolLogBytes(i, t, parts[0].value);
        ToolsLogBytes(Run(st, log), i, parts[1..]);
        LogBytesConcat(log, ToolsLog(Run(st, log), i, parts[1..]));
      }
    }
  }

  lemma TextLogBytes(i: int, d: Delta)
    ensures LogBytes(TextLog(i, d)) == ByteLen(d.content) + ByteLen(d.refusal) + FunctionBytes(d.functionCall)
  {
    var role := When(TrimSpace(d.role) != "", OnChoice(i, SetRole(TrimSpace(d.role))));
    var content := When(d.content != "", OnChoice(i, AddContent(d.content)));
    var refusal := When(d.refusal != "", OnChoice(i, AddRefusal(d.refusal)));
    WhenBytes([], TrimSpace(d.role) != "", OnChoice(i, SetRole(TrimSpace(d.role))));
    assert [] + role == role;
    WhenBytes(role, d.content != "", OnChoice(i, AddContent(d.content)));
    WhenBytes(role + content, d.refusal != "", OnChoice(i, AddRefusal(d.refusal)));
    OptionalCallBytes(role + content + refusal, i, None, d.functionCall);
  }

  lemma HeadLogBytes(p: ChoicePart)
    ensures LogBytes(HeadLog(p)) == 0
  {
    var i := PartIndex(p);
    var touch := [OnChoice(i, TouchChoice)];
    assert touch[1..] == [];
    WhenBytes(touch, p.finishReason.Value?, OnChoice(i, SetFinish(p.finishReason)));
    WhenBytes(touch + When(p.finishReason.Value?, OnChoice(i, SetFinish(p.finishReason))),
              !p.logprobs.Absent?, OnChoice(i, SetLogprobs(p.logprobs)));
  }

  lemma PartLogBytes(st: State, p: ChoicePart)
    ensures LogBytes(PartLog(st, p)) == PartBytes(p)
  {
    HeadLogBytes(p);
    if p.delta.Some? {
      var d, i := p.delta.value, PartIndex(p);
      var st' := Run(st, HeadLog(p));
      TextLogBytes(i, d);
      ToolsLogBytes(Run(st', TextLog(i, d)), i, d.toolCalls);
      LogBytesConcat(TextLog(i, d), ToolsLog(Run(st', TextLog(i, d)), i, d.toolCalls));
      LogBytesConcat(HeadLog(p), DeltaLog(st', i, d));
    } else {
      assert HeadLog(p) + [] == HeadLog(p);
    }
  }

  lemma {:induction false} PartsLogBytes(st: State, parts: seq<Option<ChoicePart>>)
    ensures LogBytes(PartsLog(st, parts)) == PartsBytes(parts)
    decreases parts
  {
    if parts != [] {
      if parts[0].None? {
        PartsLogBytes(st, parts[1..]);
      } else {
        var log := PartLog(st, parts[0].value);
        PartLogBytes(st, parts[0].value);
        PartsLogBytes(Run(st, log), parts[1..]);
        LogBytesConcat(log, PartsLog(Run(st, log), parts[1..]));
      }
    }
  }

  lemma {:induction false} MetaOnlyBytes(ops: seq<Op>)
    requires MetaOnly(ops)
    ensures LogBytes(ops) == 0
  {
    if ops != [] { MetaOnlyBytes(ops[1..]); }
  }

  lemma ChunkLogBytes(st: State, c: Chunk)
    ensures LogBytes(ChunkLog(st, c)) == PartsBytes(c.choices)
  {
    MetaLogShape(c);
    MetaOnlyBytes(MetaLog(c));
    PartsLogBytes(Run(st, MetaLog(c)), c.choices);
    LogBytesConcat(MetaLog(c), PartsLog(Run(st, MetaLog(c)), c.choices));
  }

  // ---------------------------------------------------------------- when the budget trips

  lemma {:induction false} RunTrips(st: State, ops: seq<Op>)
    requires st.status.Fine? && st.bytes <= MAX_BYTES
    ensures Run(st, ops).status == if st.bytes + LogBytes(ops) > MAX_BYTES then TooLarge else Fine
    ensures Run(st, ops).status.Fine? ==> Run(st, ops).bytes == st.bytes + LogBytes(ops)
    ensures Run(st, ops).done == st.done
    decreases ops
  {
    if ops != [] {
      var st' := RunOp(st, ops[0]);
      if st'.status.Fine? {
        RunTrips(st', ops[1..]);
      } else {
        RunAfterError(st', ops[1..]);
      }
    }
  }

  lemma {:induction false} EventsAfterError(st: State, es: seq<Event>)
    requires !st.status.Fine?
    ensures RunEvents(st, es) == st
    decreases es
  {
    if es != [] { EventsAfterError(st, es[1..]); }
  }

  lemma {:induction false} EventsTrip(st: State, es: seq<Event>)
    requires st.status.Fine? && st.bytes <= MAX_BYTES
    requires forall k :: 0 <= k < |es| ==> !es[k].Broken?
    ensures RunEvents(st, es).status == if st.bytes + TotalBytes(es) > MAX_BYTES then TooLarge else Fine
    decreases es
  {
    if es != [] {
      var st' := RunEvent(st, es[0]);
      if es[0].Decoded? {
        ChunkLogBytes(st, es[0].chunk);
        RunTrips(st, ChunkLog(st, es[0].chunk));
      }
      if st'.status.Fine? {
        EventsTrip(st', es[1..]);
      } else {
        EventsAfterError(st', es[1..]);
      }
    }
  }

  predicate NoBroken(es: seq<Event>) {
    forall k :: 0 <= k < |es| ==> !es[k].Broken?
  }

  /** A capture is without error exactly when every line decodes and the fragments stay within the limit. */
  lemma {:induction false} FineIff(st: State, es: seq<Event>)
    requires st.status.Fine? && st.bytes <= MAX_BYTES
    ensures RunEvents(st, es).status.Fine? <==> NoBroken(es) && st.bytes + TotalBytes(es) <= MAX_BYTES
    decreases es
  {
    if NoBroken(es) {
      EventsTrip(st, es);
    } else {
      var st' := RunEvent(st, es[0]);
      if es[0].Decoded? {
        ChunkLogBytes(st, es[0].chunk);
        RunTrips(st, ChunkLog(st, es[0].chunk));
      }
      if st'.status.Fine? {
        assert !NoBroken(es[1..]) by {
          var k :| 0 <= k < |es| && es[k].Broken?;
          assert es[1..][k - 1].Broken?;
        }
        FineIff(st', es[1..]);
      } else {
        EventsAfterError(st', es[1..]);
      }
    }
  }

  lemma {:induction false} TotalConcat(a: seq<Event>, b: seq<Event>)
    ensures TotalBytes(a + b) == TotalBytes(a) + TotalBytes(b)
    decreases a
  {
    if a == [] {
      assert a + b == b;
    } else {
      assert (a + b)[1..] == a[1..] + b;
      TotalConcat(a[1..], b);
    }
  }

  /** Both captures fail, or both hold the same: nothing that is rebuilt from them differs. */
  predicate SameOutcome(x: State, y: State) {
    (x.status.Fine? <==> y.status.Fine?) && (x.status.Fine? ==> x == y)
  }

  /** Absent decode errors, a capture fails exactly when all its fragments together exceed the limit. */
  lemma FailsIffTooLarge(es: seq<Event>)
    requires forall k :: 0 <= k < |es| ==> !es[k].Broken?
    ensures RunEvents(NEW_STATE, es).status == if TotalBytes(es) > MAX_BYTES then TooLarge else Fine
  {
    EventsTrip(NEW_STATE, es);
  }

  // ---------------------------------------------------------------- what the counter counts

  function CallSize(c: Option<Call>): nat {
    ByteLen(CallOf(c).name) + ByteLen(CallOf(c).arguments)
  }

  function ToolSize(t: Tool): nat {
    CallSize(t.call)
  }

  ghost function ChoiceSize(c: Choice): nat {
    ByteLen(c.content) + ByteLen(c.refusal) + CallSize(c.call) + Sum(c.tools, ToolSize)
  }

  ghost function SizeOfChoice(): Choice -> nat {
    (c: Choice) => ChoiceSize(c)
  }

  lemma EmptySum()
    ensures Sum<int, Tool>(map[], ToolSize) == 0
  {
  }

  lemma CallGrows(c: Option<Call>, e: CallEdit)
    ensures CallSize(EditCall(c, e)) == CallSize(c) + CallBytes(e)
  {
    match e
    case TouchCall =>
    case AddName(s) => ByteLenConcat(CallOf(c).name, s);
    case AddArguments(s) => ByteLenConcat(CallOf(c).arguments, s);
  }

  lemma EditGrows(c: Choice, e: ChoiceEdit)
    ensures ChoiceSize(EditChoice(c, e)) == ChoiceSize(c) + EditBytes(e)
  {
    match e
    case AddContent(s) => ByteLenConcat(c.content, s);
    case AddRefusal(s) => ByteLenConcat(c.refusal, s);
    case OnCall(call) => CallGrows(c.call, call);
    case OnTool(t, tool) =>
      SumUpdate(c.tools, ToolSize, t, EditTool(ToolAt(c.tools, t), tool));
      if tool.OnFunction? { CallGrows(ToolAt(c.tools, t).call, tool.call); }
    case _ =>
  }

  /** The counter is the length of all the builders together, and within the limit. */
  ghost predicate Accounted(st: State) {
    st.bytes == Sum(st.choices, SizeOfChoice()) && st.bytes <= MAX_BYTES
  }

  lemma OpAccounted(st: State, op: Op)
    requires Accounted(st)
    ensures Accounted(RunOp(st, op))
  {
    if st.status.Fine? && op.OnChoice? {
      EmptySum();
      EditGrows(ChoiceAt(st.choices, op.i), op.edit);
      SumUpdate(st.choices, SizeOfChoice(), op.i, EditChoice(ChoiceAt(st.choices, op.i), op.edit));
      assert ChoiceSize(NEW_CHOICE) == 0;
    }
  }

  lemma {:induction false} RunAccounted(st: State, ops: seq<Op>)
    requires Accounted(st)
    ensures Accounted(Run(st, ops))
    decreases ops
  {
    if ops != [] {
      OpAccounted(st, ops[0]);
      RunAccounted(RunOp(st, ops[0]), ops[1..]);
    }
  }

  /** In every reachable state, error or not, the counter is what the builders hold. */
  lemma {:induction false} EventsAccounted(st: State, es: seq<Event>)
    requires Accounted(st)
    ensures Accounted(RunEvents(st, es))
    decreases es
  {
    if es != [] {
      if st.status.Fine? && es[0].Decoded? {
        RunAccounted(st, ChunkLog(st, es[0].chunk));
      }
      EventsAccounted(RunEvent(st, es[0]), es[1..]);
    }
  }

  lemma FreshIsAccounted()
    ensures Accounted(NEW_STATE)
  {
  }
}
