/** Every captured text is the in-order concatenation of the fragments the chunks carry for it. */
module StreamText {
  import opened Wrappers
  import opened Text
  import opened StreamState
  import opened StreamExplicit
  import opened StreamBudget

  /** The texts that a choice accumulates. */
  datatype Slot = Content | Refusal | CallName | CallArguments | ToolName(t: int) | ToolArguments(t: int)

  function TextAt(c: Choice, slot: Slot): string {
    match slot
    case Content => c.content
    case Refusal => c.refusal
    case CallName => CallOf(c.call).name
    case CallArguments => CallOf(c.call).arguments
    case ToolName(t) => CallOf(ToolAt(c.tools, t).call).name
    case ToolArguments(t) => CallOf(ToolAt(c.tools, t).call).arguments
  }

  // ---------------------------------------------------------------- in terms of the log

  /** What one edit adds to a text. */
  function Piece(e: ChoiceEdit, slot: Slot): string {
    match (e, slot)
    case (AddContent(s), Content) => s
    case (AddRefusal(s), Refusal) => s
    case (OnCall(AddName(s)), CallName) => s
    case (OnCall(AddArguments(s)), CallArguments) => s
    case (OnTool(t, OnFunction(AddName(s))), ToolName(u)) => if t == u then s else ""
    case (OnTool(t, OnFunction(AddArguments(s))), ToolArguments(u)) => if t == u then s else ""
    case _ => ""
  }

  function OpPiece(op: Op, i: int, slot: Slot): string {
    if op.OnChoice? && op.i == i then Piece(op.edit, slot) else ""
  }

  function LogText(ops: seq<Op>, i: int, slot: Slot): string {
    if ops == [] then "" else OpPiece(ops[0], i, slot) + LogText(ops[1..], i, slot)
  }

  lemma {:induction false} LogTextConcat(a: seq<Op>, b: seq<Op>, i: int, slot: Slot)
    ensures LogText(a + b, i, slot) == LogText(a, i, slot) + LogText(b, i, slot)
    decreases a
  {
    if a == [] {
      assert a + b == b && "" + LogText(b, i, slot) == LogText(b, i, slot);
    } else {
      assert (a + b)[1..] == a[1..] + b;
      LogTextConcat(a[1..], b, i, slot);
      assert OpPiece(a[0], i, slot) + (LogText(a[1..], i, slot) + LogText(b, i, slot)) ==
             OpPiece(a[0], i, slot) + LogText(a[1..], i, slot) + LogText(b, i, slot);
    }
  }

  lemma CallEditText(c: Option<Call>, e: CallEdit)
    ensures CallOf(EditCall(c, e)).name == CallOf(c).name + (if e.AddName? then e.s else "")
    ensures CallOf(EditCall(c, e)).arguments == CallOf(c).arguments + (if e.AddArguments? then e.s else "")
  {
    assert CallOf(c).name + "" == CallOf(c).name && CallOf(c).arguments + "" == CallOf(c).arguments;
  }

  lemma EditText(c: Choice, e: ChoiceEdit, slot: Slot)
    ensures TextAt(EditChoice(c, e), slot) == TextAt(c, slot) + Piece(e, slot)
  {
    assert TextAt(c, slot) + "" == TextAt(c, slot);
    match e
    case OnCall(call) => CallEditText(c.call, call);
    case OnTool(t, OnFunction(call)) => CallEditText(ToolAt(c.tools, t).call, call);
    case _ =>
  }

  lemma Unit(a: string)
    ensures a + "" == a && "" + a == a
  {
  }

  lemma OpText(st: State, op: Op, i: int, slot: Slot)
    requires st.status.Fine? && RunOp(st, op).status.Fine?
    ensures TextAt(ChoiceAt(RunOp(st, op).choices, i), slot) ==
            TextAt(ChoiceAt(st.choices, i), slot) + OpPiece(op, i, slot)
  {
    if op.OnChoice? && op.i == i {
      EditText(ChoiceAt(st.choices, i), op.edit, slot);
    } else {
      Unit(TextAt(ChoiceAt(st.choices, i), slot));
      assert ChoiceAt(RunOp(st, op).choices, i) == ChoiceAt(st.choices, i);
    }
  }

  lemma {:induction false} RunText(st: State, ops: seq<Op>, i: int, slot: Slot)
    requires st.status.Fine? && Run(st, ops).status.Fine?
    ensures TextAt(ChoiceAt(Run(st, ops).choices, i), slot) ==
            TextAt(ChoiceAt(st.choices, i), slot) + LogText(ops, i, slot)
    decreases ops
  {
    var text := TextAt(ChoiceAt(st.choices, i), slot);
    if ops == [] {
      Unit(text);
    } else {
      var st' := RunOp(st, ops[0]);
      if !st'.status.Fine? { RunAfterError(st', ops[1..]); }
      OpText(st, ops[0], i, slot);
      RunText(st', ops[1..], i, slot);
      Associative(text, OpPiece(ops[0], i, slot), LogText(ops[1..], i, slot));
    }
  }

  // ---------------------------------------------------------------- in terms of the chunks

  function FunctionText(tool: Option<int>, f: Option<FunctionPart>, slot: Slot): string {
    if f.None? then ""
    else match slot
      case CallName => if tool.None? then f.value.name else ""
      case CallArguments => if tool.None? then f.value.arguments else ""
      case ToolName(t) => if tool == Some(t) then f.value.name else ""
      case ToolArguments(t) => if tool == Some(t) then f.value.arguments else ""
      case _ => ""
  }

  /** The fragments that tool parts with an index carry for a text. */
  function ToolPartsText(parts: seq<Option<ToolPart>>, slot: Slot): string {
    if parts == [] then ""
    else
      (if parts[0].None? || parts[0].value.index.None? then ""
       else FunctionText(parts[0].value.index, parts[0].value.function_, slot))
      + ToolPartsText(parts[1..], slot)
  }

  function PartText(p: ChoicePart, slot: Slot): string {
    if p.delta.None? then ""
    else
      var d := p.delta.value;
      (if slot.Content? then d.content
       else if slot.Refusal? then d.refusal
       else FunctionText(None, d.functionCall, slot))
      + ToolPartsText(d.toolCalls, slot)
  }

  function PartsText(parts: seq<Option<ChoicePart>>, i: int, slot: Slot): string {
    if parts == [] then ""
    else
      (if parts[0].None? || PartIndex(parts[0].value) != i then "" else PartText(parts[0].value, slot))
      + PartsText(parts[1..], i, slot)
  }

  /** The fragments for one text of one choice, over all chunks, in order. */
  function EventsText(es: seq<Event>, i: int, slot: Slot): string {
    if es == [] then ""
    else (if es[0].Decoded? then PartsText(es[0].chunk.choices, i, slot) else "") + EventsText(es[1..], i, slot)
  }

  predicate OfTool(slot: Slot) {
    slot.ToolName? || slot.ToolArguments?
  }

  lemma WhenText(log: seq<Op>, b: bool, op: Op, i: int, slot: Slot)
    ensures LogText(log + When(b, op), i, slot) == LogText(log, i, slot) + if b then OpPiece(op, i, slot) else ""
  {
    LogTextConcat(log, When(b, op), i, slot);
    if b { assert [op][1..] == [] && OpPiece(op, i, slot) + "" == OpPiece(op, i, slot); }
  }

  lemma CallLogText(j: int, tool: Option<int>, f: FunctionPart, i: int, slot: Slot)
    ensures LogText(CallLog(j, tool, f), i, slot) == if i == j then FunctionText(tool, Some(f), slot) else ""
  {
    var touch := [Target(j, tool, TouchCall)];
    var named := touch + When(f.name != "", Target(j, tool, AddName(f.name)));
    OneText(Target(j, tool, TouchCall), i, slot);
    WhenText(touch, f.name != "", Target(j, tool, AddName(f.name)), i, slot);
    WhenText(named, f.arguments != "", Target(j, tool, AddArguments(f.arguments)), i, slot);
    CallPieces(j, tool, f, i, slot);
  }

  lemma OneText(op: Op, i: int, slot: Slot)
    ensures LogText([op], i, slot) == OpPiece(op, i, slot)
  {
    assert [op][1..] == [] && OpPiece(op, i, slot) + "" == OpPiece(op, i, slot);
  }

  lemma CallPieces(j: int, tool: Option<int>, f: FunctionPart, i: int, slot: Slot)
    ensures OpPiece(Target(j, tool, TouchCall), i, slot)
            + (if f.name != "" then OpPiece(Target(j, tool, AddName(f.name)), i, slot) else "")
            + (if f.arguments != "" then OpPiece(Target(j, tool, AddArguments(f.arguments)), i, slot) else "")
         == if i == j then FunctionText(tool, Some(f), slot) else ""
  {
    assert "" + f.name + "" == f.name && "" + "" + f.arguments == f.arguments;
  }

  lemma OptionalCallText(log: seq<Op>, j: int, tool: Option<int>, f: Option<FunctionPart>, i: int, slot: Slot)
    ensures LogText(log + (if f.Some? then CallLog(j, tool, f.value) else []), i, slot) ==
            LogText(log, i, slot) + if i == j then FunctionText(tool, f, slot) else ""
  {
    if f.Some? {
      LogTextConcat(log, CallLog(j, tool, f.value), i, slot);
      CallLogText(j, tool, f.value, i, slot);
    } else {
      assert log + [] == log;
    }
  }

  lemma ToolLogText(j: int, t: int, p: ToolPart, i: int, slot: Slot)
    ensures LogText(ToolLog(j, t, p), i, slot) == if i == j then FunctionText(Some(t), p.function_, slot) else ""
  {
    var touch := [OnChoice(j, OnTool(t, TouchTool))];
    var id := When(TrimSpace(p.id) != "", OnChoice(j, OnTool(t, SetToolId(TrimSpace(p.id)))));
    var kind := When(TrimSpace(p.kind) != "", OnChoice(j, OnTool(t, SetKind(TrimSpace(p.kind)))));
    assert touch[1..] == [];
    WhenText(touch, TrimSpace(p.id) != "", OnChoice(j, OnTool(t, SetToolId(TrimSpace(p.id)))), i, slot);
    WhenText(touch + id, TrimSpace(p.kind) != "", OnChoice(j, OnTool(t, SetKind(TrimSpace(p.kind)))), i, slot);
    OptionalCallText(touch + id + kind, j, Some(t), p.function_, i, slot);
  }

  lemma FirstToolText(p: ToolPart, t: int, slot: Slot)
    requires p.index.Some? ==> p.index.value == t
    requires OfTool(slot) ==> p.index.Some?
    ensures FunctionText(Some(t), p.function_, slot) ==
            if p.index.None? then "" else FunctionText(p.index, p.function_, slot)
  {
  }

  lemma {:induction false} ToolsLogText(st: State, j: int, parts: seq<Option<ToolPart>>, i: int, slot: Slot)
    requires OfTool(slot) ==> ExplicitTools(parts)
    ensures LogText(ToolsLog(st, j, parts), i, slot) == if i == j then ToolPartsText(parts, slot) else ""
    decreases parts
  {
    if parts != [] {
      var rest := parts[1..];
      if parts[0].None? {
        ToolsLogText(st, j, rest, i, slot);
        Unit(ToolPartsText(rest, slot));
      } else {
        var t := ToolIndex(st, j, parts[0].value);
        var log := ToolLog(j, t, parts[0].value);
        ToolLogText(j, t, parts[0].value, i, slot);
        ToolsLogText(Run(st, log), j, rest, i, slot);
        LogTextConcat(log, ToolsLog(Run(st, log), j, rest), i, slot);
        FirstToolText(parts[0].value, t, slot);
      }
    }
  }

  lemma TextLogText(j: int, d: Delta, i: int, slot: Slot)
    ensures LogText(TextLog(j, d), i, slot) ==
            if i != j then ""
            else if slot.Content? then d.content
            else if slot.Refusal? then d.refusal
            else FunctionText(None, d.functionCall, slot)
  {
    var role := When(TrimSpace(d.role) != "", OnChoice(j, SetRole(TrimSpace(d.role))));
    var content := When(d.content != "", OnChoice(j, AddContent(d.content)));
    var refusal := When(d.refusal != "", OnChoice(j, AddRefusal(d.refusal)));
    WhenText([], TrimSpace(d.role) != "", OnChoice(j, SetRole(TrimSpace(d.role))), i, slot);
    assert [] + role == role;
    assert LogText(role, i, slot) == "";
    WhenText(role, d.content != "", OnChoice(j, AddContent(d.content)), i, slot);
    var a := if i == j && slot.Content? then d.content else "";
    Unit(a);
    assert LogText(role + content, i, slot) == a;
    WhenText(role + content, d.refusal != "", OnChoice(j, AddRefusal(d.refusal)), i, slot);
    var b := if i == j && slot.Refusal? then d.refusal else "";
    Unit(b);
    assert LogText(role + content + refusal, i, slot) == a + b;
    OptionalCallText(role + content + refusal, j, None, d.functionCall, i, slot);
    Unit(a + b);
    Unit(FunctionText(None, d.functionCall, slot));
  }

  lemma HeadLogText(p: ChoicePart, i: int, slot: Slot)
    ensures LogText(HeadLog(p), i, slot) == ""
  {
    var j := PartIndex(p);
    var touch := [OnChoice(j, TouchChoice)];
    assert touch[1..] == [];
    WhenText(touch, p.finishReason.Value?, OnChoice(j, SetFinish(p.finishReason)), i, slot);
    WhenText(touch + When(p.finishReason.Value?, OnChoice(j, SetFinish(p.finishReason))),
             !p.logprobs.Absent?, OnChoice(j, SetLogprobs(p.logprobs)), i, slot);
  }

  lemma PartLogText(st: State, p: ChoicePart, i: int, slot: Slot)
    requires OfTool(slot) ==> ExplicitPart(p)
    ensures LogText(PartLog(st, p), i, slot) == if i == PartIndex(p) then PartText(p, slot) else ""
  {
    HeadLogText(p, i, slot);
    if p.delta.Some? {
      var d, j := p.delta.value, PartIndex(p);
      var st' := Run(st, HeadLog(p));
      TextLogText(j, d, i, slot);
      ToolsLogText(Run(st', TextLog(j, d)), j, d.toolCalls, i, slot);
      LogTextConcat(TextLog(j, d), ToolsLog(Run(st', TextLog(j, d)), j, d.toolCalls), i, slot);
      LogTextConcat(HeadLog(p), DeltaLog(st', j, d), i, slot);
      assert "" + LogText(DeltaLog(st', j, d), i, slot) == LogText(DeltaLog(st', j, d), i, slot);
    } else {
      assert HeadLog(p) + [] == HeadLog(p);
    }
  }

  lemma {:induction false} PartsLogText(st: State, parts: seq<Option<ChoicePart>>, i: int, slot: Slot)
    requires OfTool(slot) ==> ExplicitParts(parts)
    ensures LogText(PartsLog(st, parts), i, slot) == PartsText(parts, i, slot)
    decreases parts
  {
    if parts != [] {
      var rest := parts[1..];
      if parts[0].None? {
        PartsLogText(st, rest, i, slot);
        assert "" + PartsText(rest, i, slot) == PartsText(rest, i, slot);
      } else {
        var log := PartLog(st, parts[0].value);
        PartLogText(st, parts[0].value, i, slot);
        PartsLogText(Run(st, log), rest, i, slot);
        LogTextConcat(log, PartsLog(Run(st, log), rest), i, slot);
      }
    }
  }

  lemma {:induction false} MetaOnlyText(ops: seq<Op>, i: int, slot: Slot)
    requires MetaOnly(ops)
    ensures LogText(ops, i, slot) == ""
  {
    if ops != [] { MetaOnlyText(ops[1..], i, slot); }
  }

  lemma ChunkLogText(st: State, c: Chunk, i: int, slot: Slot)
    requires OfTool(slot) ==> ExplicitParts(c.choices)
    ensures LogText(ChunkLog(st, c), i, slot) == PartsText(c.choices, i, slot)
  {
    var st' := Run(st, MetaLog(c));
    MetaLogShape(c);
    PartsLogText(st', c.choices, i, slot);
    MetaFirst(MetaLog(c), PartsLog(st', c.choices), i, slot);
  }

  lemma MetaFirst(ops: seq<Op>, rest: seq<Op>, i: int, slot: Slot)
    requires MetaOnly(ops)
    ensures LogText(ops + rest, i, slot) == LogText(rest, i, slot)
  {
    MetaOnlyText(ops, i, slot);
    LogTextConcat(ops, rest, i, slot);
    assert "" + LogText(rest, i, slot) == LogText(rest, i, slot);
  }

  lemma EventText(st: State, e: Event, i: int, slot: Slot)
    requires st.status.Fine? && RunEvent(st, e).status.Fine?
    requires OfTool(slot) && e.Decoded? ==> ExplicitParts(e.chunk.choices)
    ensures TextAt(ChoiceAt(RunEvent(st, e).choices, i), slot) ==
            TextAt(ChoiceAt(st.choices, i), slot) + if e.Decoded? then PartsText(e.chunk.choices, i, slot) else ""
  {
    if e.Decoded? {
      RunText(st, ChunkLog(st, e.chunk), i, slot);
      ChunkLogText(st, e.chunk, i, slot);
    } else {
      Unit(TextAt(ChoiceAt(st.choices, i), slot));
    }
  }

  lemma {:induction false} EventsAppend(st: State, es: seq<Event>, i: int, slot: Slot)
    requires st.status.Fine? && RunEvents(st, es).status.Fine? && (OfTool(slot) ==> Explicit(es))
    ensures TextAt(ChoiceAt(RunEvents(st, es).choices, i), slot) ==
            TextAt(ChoiceAt(st.choices, i), slot) + EventsText(es, i, slot)
    decreases es
  {
    var text := TextAt(ChoiceAt(st.choices, i), slot);
    if es == [] {
      Unit(text);
    } else {
      var st' := RunEvent(st, es[0]);
      if !st'.status.Fine? { EventsAfterError(st', es[1..]); }
      EventText(st, es[0], i, slot);
      EventsAppend(st', es[1..], i, slot);
      var first := if es[0].Decoded? then PartsText(es[0].chunk.choices, i, slot) else "";
      Associative(text, first, EventsText(es[1..], i, slot));
    }
  }

  lemma NewIsBlank(i: int, slot: Slot)
    ensures TextAt(ChoiceAt(NEW_STATE.choices, i), slot) == ""
  {
  }

  /**
    Where tool calls bear their index: a stream that was captured without error leaves in each
    text of a choice the in-order concatenation of the fragments for its index.
   */
  lemma ExplicitTexts(es: seq<Event>, i: int, slot: Slot)
    requires RunEvents(NEW_STATE, es).status.Fine? && (OfTool(slot) ==> Explicit(es))
    ensures TextAt(ChoiceAt(RunEvents(NEW_STATE, es).choices, i), slot) == EventsText(es, i, slot)
  {
    EventsAppend(NEW_STATE, es, i, slot);
    NewIsBlank(i, slot);
    assert "" + EventsText(es, i, slot) == EventsText(es, i, slot);
  }
}
