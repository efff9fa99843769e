/** Where a chunk carries a fragment of a text, and what the fragment contributes to what the chunk does. */
module StreamHoles {
  import opened Wrappers
  import opened Text
  import opened StreamState
  import opened StreamExplicit
  import opened StreamText
  import opened StreamReorder

  // ---------------------------------------------------------------- holes

  /** A place for a fragment in a delta; those of tool calls are given by their position in the delta. */
  datatype Hole = InContent | InRefusal | InCall(named: bool) | InTool(m: nat, named: bool)

  function FillFunction(f: FunctionPart, named: bool, s: string): FunctionPart {
    if named then f.(name := s) else f.(arguments := s)
  }

  predicate FitsTools(parts: seq<Option<ToolPart>>, m: nat) {
    m < |parts| && parts[m].Some? && parts[m].value.function_.Some?
  }

  function FillTool(p: ToolPart, named: bool, s: string): ToolPart
    requires p.function_.Some?
  {
    p.(function_ := Some(FillFunction(p.function_.value, named, s)))
  }

  function FillTools(parts: seq<Option<ToolPart>>, m: nat, named: bool, s: string): seq<Option<ToolPart>>
    requires FitsTools(parts, m)
  {
    parts[m := Some(FillTool(parts[m].value, named, s))]
  }

  predicate FitsDelta(d: Delta, h: Hole) {
    (h.InCall? ==> d.functionCall.Some?) && (h.InTool? ==> FitsTools(d.toolCalls, h.m))
  }

  function FillDelta(d: Delta, h: Hole, s: string): Delta
    requires FitsDelta(d, h)
  {
    match h
    case InContent => d.(content := s)
    case InRefusal => d.(refusal := s)
    case InCall(named) => d.(functionCall := Some(FillFunction(d.functionCall.value, named, s)))
    case InTool(m, named) => d.(toolCalls := FillTools(d.toolCalls, m, named, s))
  }

  function FillPart(p: ChoicePart, h: Hole, s: string): ChoicePart
    requires p.delta.Some? && FitsDelta(p.delta.value, h)
  {
    p.(delta := Some(FillDelta(p.delta.value, h, s)))
  }

  predicate Fits(parts: seq<Option<ChoicePart>>, k: nat, h: Hole) {
    k < |parts| && parts[k].Some? && parts[k].value.delta.Some? && FitsDelta(parts[k].value.delta.value, h)
  }

  function FillParts(parts: seq<Option<ChoicePart>>, k: nat, h: Hole, s: string): seq<Option<ChoicePart>>
    requires Fits(parts, k, h)
  {
    parts[k := Some(FillPart(parts[k].value, h, s))]
  }

  /** The chunk with the fragment `s` in the hole. */
  function Fill(c: Chunk, k: nat, h: Hole, s: string): Chunk
    requires Fits(c.choices, k, h)
  {
    c.(choices := FillParts(c.choices, k, h, s))
  }

  function ToolSlot(t: int, named: bool): Slot {
    if named then ToolName(t) else ToolArguments(t)
  }

  /** The text that a hole feeds. */
  function SlotOf(d: Delta, h: Hole): Slot
    requires FitsDelta(d, h) && ExplicitTools(d.toolCalls)
  {
    match h
    case InContent => Content
    case InRefusal => Refusal
    case InCall(named) => if named then CallName else CallArguments
    case InTool(m, named) => ToolSlot(d.toolCalls[m].value.index.value, named)
  }

  // ---------------------------------------------------------------- what the fragment contributes

  /** The edits are those of `x`, the writing of the fragment, and those of `y`. */
  predicate Around(x: seq<Op>, y: seq<Op>, i: int, slot: Slot, s: string, log: seq<Op>) {
    log == x + When(s != "", Write(i, slot, s)) + y
  }

  /** The edits make sure that the builder of the text is there. */
  predicate Prepares(ops: seq<Op>, i: int, slot: Slot) {
    exists n :: 0 <= n < |ops| && PreparesOp(ops[n], i, slot)
  }

  predicate PreparesOp(op: Op, i: int, slot: Slot) {
    && op.OnChoice? && op.i == i
    && match slot
       case Content => true
       case Refusal => true
       case CallName => op.edit.OnCall?
       case CallArguments => op.edit.OnCall?
       case ToolName(t) => op.edit.OnTool? && op.edit.t == t && op.edit.tool.OnFunction?
       case ToolArguments(t) => op.edit.OnTool? && op.edit.t == t && op.edit.tool.OnFunction?
  }

  lemma PreparesMore(a: seq<Op>, b: seq<Op>, i: int, slot: Slot)
    requires Prepares(a, i, slot) || Prepares(b, i, slot)
    ensures Prepares(a + b, i, slot)
  {
    if n :| 0 <= n < |a| && PreparesOp(a[n], i, slot) {
      assert (a + b)[n] == a[n];
    } else {
      var n :| 0 <= n < |b| && PreparesOp(b[n], i, slot);
      assert (a + b)[|a| + n] == b[n];
    }
  }

  lemma AroundMore(a: seq<Op>, x: seq<Op>, y: seq<Op>, b: seq<Op>, i: int, slot: Slot, s: string, log: seq<Op>)
    requires Around(x, y, i, slot, s, log)
    ensures Around(a + x, y + b, i, slot, s, a + log + b)
  {
    var w := When(s != "", Write(i, slot, s));
    assert a + (x + w + y) + b == (a + x) + w + (y + b);
  }

  function CallSlot(tool: Option<int>, named: bool): Slot {
    if tool.Some? then ToolSlot(tool.value, named) else if named then CallName else CallArguments
  }

  function BeforeCall(i: int, tool: Option<int>, f: FunctionPart, named: bool): seq<Op> {
    [Target(i, tool, TouchCall)] + if named then [] else When(f.name != "", Target(i, tool, AddName(f.name)))
  }

  function AfterCall(i: int, tool: Option<int>, f: FunctionPart, named: bool): seq<Op> {
    if named then When(f.arguments != "", Target(i, tool, AddArguments(f.arguments))) else []
  }

  lemma CallAround(i: int, tool: Option<int>, f: FunctionPart, named: bool, s: string)
    ensures Around(BeforeCall(i, tool, f, named), AfterCall(i, tool, f, named), i, CallSlot(tool, named), s,
                   CallLog(i, tool, FillFunction(f, named, s)))
    ensures Prepares(BeforeCall(i, tool, f, named), i, CallSlot(tool, named))
  {
    assert PreparesOp(BeforeCall(i, tool, f, named)[0], i, CallSlot(tool, named));
    if named {
      assert [Target(i, tool, TouchCall)] + [] == [Target(i, tool, TouchCall)];
    } else {
      var log := CallLog(i, tool, FillFunction(f, named, s));
      assert log + [] == log;
    }
  }

  function BeforeTool(i: int, t: int, p: ToolPart): seq<Op> {
    [OnChoice(i, OnTool(t, TouchTool))]
    + When(TrimSpace(p.id) != "", OnChoice(i, OnTool(t, SetToolId(TrimSpace(p.id)))))
    + When(TrimSpace(p.kind) != "", OnChoice(i, OnTool(t, SetKind(TrimSpace(p.kind)))))
  }

  lemma ToolAround(i: int, t: int, p: ToolPart, named: bool, s: string)
    requires p.function_.Some?
    ensures var f := p.function_.value;
            && Around(BeforeTool(i, t, p) + BeforeCall(i, Some(t), f, named), AfterCall(i, Some(t), f, named), i,
                      ToolSlot(t, named), s, ToolLog(i, t, FillTool(p, named, s)))
            && Prepares(BeforeTool(i, t, p) + BeforeCall(i, Some(t), f, named), i, ToolSlot(t, named))
  {
    var f := p.function_.value;
    var log := CallLog(i, Some(t), FillFunction(f, named, s));
    CallAround(i, Some(t), f, named, s);
    AroundMore(BeforeTool(i, t, p), BeforeCall(i, Some(t), f, named), AfterCall(i, Some(t), f, named), [], i,
               ToolSlot(t, named), s, log);
    assert AfterCall(i, Some(t), f, named) + [] == AfterCall(i, Some(t), f, named);
    assert BeforeTool(i, t, p) + log + [] == BeforeTool(i, t, p) + log;
    PreparesMore(BeforeTool(i, t, p), BeforeCall(i, Some(t), f, named), i, ToolSlot(t, named));
  }

  lemma {:induction false} ToolsOpsConcat(i: int, a: seq<Option<ToolPart>>, b: seq<Option<ToolPart>>)
    ensures ToolsOps(i, a + b) == ToolsOps(i, a) + ToolsOps(i, b)
    decreases a
  {
    if a == [] {
      assert a + b == b;
    } else {
      assert (a + b)[1..] == a[1..] + b;
      ToolsOpsConcat(i, a[1..], b);
    }
  }

  lemma ToolsOpsAt(i: int, parts: seq<Option<ToolPart>>, m: nat, p: ToolPart)
    requires m < |parts| && p.index.Some?
    ensures ToolsOps(i, parts[m := Some(p)]) ==
            ToolsOps(i, parts[..m]) + ToolLog(i, p.index.value, p) + ToolsOps(i, parts[m + 1..])
  {
    assert parts[m := Some(p)] == parts[..m] + ([Some(p)] + parts[m + 1..]);
    ToolsOpsConcat(i, parts[..m], [Some(p)] + parts[m + 1..]);
    assert ([Some(p)] + parts[m + 1..])[1..] == parts[m + 1..];
  }

  lemma ToolsAround(i: int, parts: seq<Option<ToolPart>>, m: nat, named: bool) returns (x: seq<Op>, y: seq<Op>)
    requires FitsTools(parts, m) && ExplicitTools(parts)
    ensures Prepares(x, i, ToolSlot(parts[m].value.index.value, named))
    ensures forall s :: Around(x, y, i, ToolSlot(parts[m].value.index.value, named), s,
                               ToolsOps(i, FillTools(parts, m, named, s)))
  {
    var p := parts[m].value;
    var t, f := p.index.value, p.function_.value;
    var a, b := BeforeTool(i, t, p) + BeforeCall(i, Some(t), f, named), AfterCall(i, Some(t), f, named);
    x, y := ToolsOps(i, parts[..m]) + a, b + ToolsOps(i, parts[m + 1..]);
    forall s
      ensures Around(x, y, i, ToolSlot(t, named), s, ToolsOps(i, FillTools(parts, m, named, s)))
      ensures Prepares(a, i, ToolSlot(t, named))
    {
      ToolAround(i, t, p, named, s);
      ToolsOpsAt(i, parts, m, FillTool(p, named, s));
      AroundMore(ToolsOps(i, parts[..m]), a, b, ToolsOps(i, parts[m + 1..]), i, ToolSlot(t, named), s,
                 ToolLog(i, t, FillTool(p, named, s)));
    }
    ToolAround(i, t, p, named, "");
    PreparesMore(ToolsOps(i, parts[..m]), a, i, ToolSlot(t, named));
  }

  // ---------------------------------------------------------------- deltas

  function RoleOps(i: int, d: Delta): seq<Op> {
    When(TrimSpace(d.role) != "", OnChoice(i, SetRole(TrimSpace(d.role))))
  }

  function ContentOps(i: int, d: Delta): seq<Op> {
    When(d.content != "", OnChoice(i, AddContent(d.content)))
  }

  function RefusalOps(i: int, d: Delta): seq<Op> {
    When(d.refusal != "", OnChoice(i, AddRefusal(d.refusal)))
  }

  function CallOps(i: int, d: Delta): seq<Op> {
    if d.functionCall.Some? then CallLog(i, None, d.functionCall.value) else []
  }

  lemma DeltaOpsAre(i: int, d: Delta)
    ensures DeltaOps(i, d) ==
            RoleOps(i, d) + ContentOps(i, d) + RefusalOps(i, d) + CallOps(i, d) + ToolsOps(i, d.toolCalls)
  {
  }

  /** A text that is not that of a call needs the choice only, which the part has touched before its delta. */
  predicate NeedsChoiceOnly(slot: Slot) {
    slot.Content? || slot.Refusal?
  }

  lemma DeltaAround(i: int, d: Delta, h: Hole) returns (x: seq<Op>, y: seq<Op>)
    requires FitsDelta(d, h) && ExplicitTools(d.toolCalls)
    ensures NeedsChoiceOnly(SlotOf(d, h)) || Prepares(x, i, SlotOf(d, h))
    ensures forall s :: Around(x, y, i, SlotOf(d, h), s, DeltaOps(i, FillDelta(d, h, s)))
  {
    match h
    case InContent => x, y := ContentAround(i, d);
    case InRefusal => x, y := RefusalAround(i, d);
    case InCall(named) => x, y := DeltaCallAround(i, d, named);
    case InTool(m, named) => x, y := DeltaToolAround(i, d, m, named);
  }

  lemma Grouped(a: seq<Op>, m: seq<Op>, b: seq<Op>, c: seq<Op>, d: seq<Op>)
    ensures a + m + b + c + d == a + m + (b + c + d)
  {
  }

  lemma ContentAround(i: int, d: Delta) returns (x: seq<Op>, y: seq<Op>)
    ensures forall s :: Around(x, y, i, Content, s, DeltaOps(i, FillDelta(d, InContent, s)))
  {
    x, y := RoleOps(i, d), RefusalOps(i, d) + CallOps(i, d) + ToolsOps(i, d.toolCalls);
    forall s ensures Around(x, y, i, Content, s, DeltaOps(i, FillDelta(d, InContent, s))) {
      DeltaOpsAre(i, d.(content := s));
      Grouped(x, ContentOps(i, d.(content := s)), RefusalOps(i, d), CallOps(i, d), ToolsOps(i, d.toolCalls));
    }
  }

  lemma RefusalAround(i: int, d: Delta) returns (x: seq<Op>, y: seq<Op>)
    ensures forall s :: Around(x, y, i, Refusal, s, DeltaOps(i, FillDelta(d, InRefusal, s)))
  {
    x, y := RoleOps(i, d) + ContentOps(i, d), CallOps(i, d) + ToolsOps(i, d.toolCalls);
    forall s ensures Around(x, y, i, Refusal, s, DeltaOps(i, FillDelta(d, InRefusal, s))) {
      DeltaOpsAre(i, d.(refusal := s));
      Grouped(x, RefusalOps(i, d.(refusal := s)), CallOps(i, d), ToolsOps(i, d.toolCalls), []);
      assert y + [] == y;
    }
  }

  lemma DeltaCallAround(i: int, d: Delta, named: bool) returns (x: seq<Op>, y: seq<Op>)
    requires d.functionCall.Some?
    ensures Prepares(x, i, CallSlot(None, named))
    ensures forall s :: Around(x, y, i, CallSlot(None, named), s, DeltaOps(i, FillDelta(d, InCall(named), s)))
  {
    var f := d.functionCall.value;
    var a, b := BeforeCall(i, None, f, named), AfterCall(i, None, f, named);
    var front := RoleOps(i, d) + ContentOps(i, d) + RefusalOps(i, d);
    x, y := front + a, b + ToolsOps(i, d.toolCalls);
    forall s ensures Around(x, y, i, CallSlot(None, named), s, DeltaOps(i, FillDelta(d, InCall(named), s))) {
      CallAround(i, None, f, named, s);
      DeltaOpsAre(i, FillDelta(d, InCall(named), s));
      AroundMore(front, a, b, ToolsOps(i, d.toolCalls), i, CallSlot(None, named), s,
                 CallLog(i, None, FillFunction(f, named, s)));
    }
    CallAround(i, None, f, named, "");
    PreparesMore(front, a, i, CallSlot(None, named));
  }

  lemma DeltaToolAround(i: int, d: Delta, m: nat, named: bool) returns (x: seq<Op>, y: seq<Op>)
    requires FitsTools(d.toolCalls, m) && ExplicitTools(d.toolCalls)
    ensures Prepares(x, i, ToolSlot(d.toolCalls[m].value.index.value, named))
    ensures forall s :: Around(x, y, i, ToolSlot(d.toolCalls[m].value.index.value, named), s,
                               DeltaOps(i, FillDelta(d, InTool(m, named), s)))
  {
    var slot := ToolSlot(d.toolCalls[m].value.index.value, named);
    var a, b := ToolsAround(i, d.toolCalls, m, named);
    x, y := TextLog(i, d) + a, b;
    forall s ensures Around(x, y, i, slot, s, DeltaOps(i, FillDelta(d, InTool(m, named), s))) {
      var tools := FillTools(d.toolCalls, m, named, s);
      assert Around(a, b, i, slot, s, ToolsOps(i, tools));
      AroundMore(TextLog(i, d), a, b, [], i, slot, s, ToolsOps(i, tools));
      assert TextLog(i, d) + ToolsOps(i, tools) + [] == TextLog(i, d) + ToolsOps(i, tools) && b + [] == b;
      assert TextLog(i, d.(toolCalls := tools)) == TextLog(i, d);
    }
    PreparesMore(TextLog(i, d), a, i, slot);
  }

  // ---------------------------------------------------------------- chunks

  lemma {:induction false} PartsOpsConcat(a: seq<Option<ChoicePart>>, b: seq<Option<ChoicePart>>)
    ensures PartsOps(a + b) == PartsOps(a) + PartsOps(b)
    decreases a
  {
    if a == [] {
      assert a + b == b;
    } else {
      assert (a + b)[1..] == a[1..] + b;
      PartsOpsConcat(a[1..], b);
    }
  }

  lemma PartsOpsAt(parts: seq<Option<ChoicePart>>, k: nat, p: ChoicePart)
    requires k < |parts|
    ensures PartsOps(parts[k := Some(p)]) == PartsOps(parts[..k]) + PartOps(p) + PartsOps(parts[k + 1..])
  {
    assert parts[k := Some(p)] == parts[..k] + ([Some(p)] + parts[k + 1..]);
    PartsOpsConcat(parts[..k], [Some(p)] + parts[k + 1..]);
    assert ([Some(p)] + parts[k + 1..])[1..] == parts[k + 1..];
  }

  lemma PartAround(p: ChoicePart, h: Hole) returns (x: seq<Op>, y: seq<Op>)
    requires p.delta.Some? && FitsDelta(p.delta.value, h) && ExplicitTools(p.delta.value.toolCalls)
    ensures Prepares(x, PartIndex(p), SlotOf(p.delta.value, h))
    ensures forall s :: Around(x, y, PartIndex(p), SlotOf(p.delta.value, h), s,
                               PartOps(p.(delta := Some(FillDelta(p.delta.value, h, s)))))
  {
    var i, d := PartIndex(p), p.delta.value;
    var slot := SlotOf(d, h);
    var a, b := DeltaAround(i, d, h);
    x, y := HeadLog(p) + a, b;
    forall s ensures Around(x, y, i, slot, s, PartOps(p.(delta := Some(FillDelta(d, h, s))))) {
      assert Around(a, b, i, slot, s, DeltaOps(i, FillDelta(d, h, s)));
      AroundMore(HeadLog(p), a, b, [], i, slot, s, DeltaOps(i, FillDelta(d, h, s)));
      FilledPart(p, d, h, s);
      assert b + [] == b;
    }
    if NeedsChoiceOnly(slot) { assert PreparesOp(HeadLog(p)[0], i, slot); }
    PreparesMore(HeadLog(p), a, i, slot);
  }

  lemma FilledPart(p: ChoicePart, d: Delta, h: Hole, s: string)
    requires p.delta == Some(d) && FitsDelta(d, h)
    ensures PartOps(p.(delta := Some(FillDelta(d, h, s)))) ==
            HeadLog(p) + DeltaOps(PartIndex(p), FillDelta(d, h, s)) + []
  {
  }

  /** What an explicit chunk does with a fragment in a hole: the same edits around the writing of the fragment. */
  lemma ChunkAround(c: Chunk, k: nat, h: Hole) returns (x: seq<Op>, y: seq<Op>)
    requires Fits(c.choices, k, h) && ExplicitParts(c.choices)
    ensures var p := c.choices[k].value;
            && Prepares(x, PartIndex(p), SlotOf(p.delta.value, h))
            && forall s :: Around(x, y, PartIndex(p), SlotOf(p.delta.value, h), s, ChunkOps(Fill(c, k, h, s)))
  {
    var p := c.choices[k].value;
    assert ExplicitPart(p);
    var i, slot := PartIndex(p), SlotOf(p.delta.value, h);
    var a, b := PartAround(p, h);
    var front, back := MetaLog(c) + PartsOps(c.choices[..k]), PartsOps(c.choices[k + 1..]);
    x, y := front + a, b + back;
    forall s ensures Around(x, y, i, slot, s, ChunkOps(Fill(c, k, h, s))) {
      var q := p.(delta := Some(FillDelta(p.delta.value, h, s)));
      assert Around(a, b, i, slot, s, PartOps(q));
      AroundMore(front, a, b, back, i, slot, s, PartOps(q));
      PartsOpsAt(c.choices, k, q);
      FilledChunk(c, k, h, s, q);
    }
    PreparesMore(front, a, i, slot);
  }

  lemma FilledChunk(c: Chunk, k: nat, h: Hole, s: string, q: ChoicePart)
    requires Fits(c.choices, k, h)
    requires q == c.choices[k].value.(delta := Some(FillDelta(c.choices[k].value.delta.value, h, s)))
    requires PartsOps(c.choices[k := Some(q)]) == PartsOps(c.choices[..k]) + PartOps(q) + PartsOps(c.choices[k + 1..])
    ensures ChunkOps(Fill(c, k, h, s)) ==
            MetaLog(c) + PartsOps(c.choices[..k]) + PartOps(q) + PartsOps(c.choices[k + 1..])
  {
    assert MetaLog(Fill(c, k, h, s)) == MetaLog(c);
    assert Fill(c, k, h, s).choices == c.choices[k := Some(q)];
    Alongside(MetaLog(c), PartsOps(c.choices[..k]), PartOps(q), PartsOps(c.choices[k + 1..]));
  }

  lemma Alongside(a: seq<Op>, b: seq<Op>, c: seq<Op>, d: seq<Op>)
    ensures a + (b + c + d) == a + b + c + d
  {
  }
}
