/** Appending to a text later: what it commutes with, and a chunk that does nothing else. */
module StreamAppend {
  import opened Wrappers
  import opened Text
  import opened StreamState
  import opened StreamExplicit
  import opened StreamBudget
  import opened StreamText
  import opened StreamResolve
  import opened StreamReorder
  import opened StreamHoles

  // ---------------------------------------------------------------- fragments are not empty

  predicate SolidCall(e: CallEdit) {
    (e.AddName? ==> e.s != "") && (e.AddArguments? ==> e.s != "")
  }

  /** The edit, if it appends, appends something. */
  predicate Solid(op: Op) {
    op.OnChoice? ==>
      match op.edit
      case AddContent(s) => s != ""
      case AddRefusal(s) => s != ""
      case OnCall(call) => SolidCall(call)
      case OnTool(_, OnFunction(call)) => SolidCall(call)
      case _ => true
  }

  predicate AllSolid(ops: seq<Op>) {
    forall k :: 0 <= k < |ops| ==> Solid(ops[k])
  }

  lemma SolidConcat(a: seq<Op>, b: seq<Op>)
    requires AllSolid(a) && AllSolid(b)
    ensures AllSolid(a + b)
  {
  }

  lemma CallSolid(i: int, tool: Option<int>, f: FunctionPart)
    ensures AllSolid(CallLog(i, tool, f))
  {
  }

  lemma ToolSolid(i: int, t: int, p: ToolPart)
    ensures AllSolid(ToolLog(i, t, p))
  {
    var rest := if p.function_.Some? then CallLog(i, Some(t), p.function_.value) else [];
    if p.function_.Some? { CallSolid(i, Some(t), p.function_.value); }
    SolidConcat(BeforeTool(i, t, p), rest);
  }

  lemma {:induction false} ToolsSolid(i: int, parts: seq<Option<ToolPart>>)
    ensures AllSolid(ToolsOps(i, parts))
    decreases parts
  {
    if parts != [] {
      ToolsSolid(i, parts[1..]);
      if parts[0].Some? {
        var p := parts[0].value;
        ToolSolid(i, if p.index.Some? then p.index.value else 0, p);
      }
    }
  }

  lemma DeltaSolid(i: int, d: Delta)
    ensures AllSolid(DeltaOps(i, d))
  {
    DeltaOpsAre(i, d);
    if d.functionCall.Some? { CallSolid(i, None, d.functionCall.value); }
    ToolsSolid(i, d.toolCalls);
    SolidConcat(RoleOps(i, d), ContentOps(i, d));
    SolidConcat(RoleOps(i, d) + ContentOps(i, d), RefusalOps(i, d));
    SolidConcat(RoleOps(i, d) + ContentOps(i, d) + RefusalOps(i, d), CallOps(i, d));
    SolidConcat(RoleOps(i, d) + ContentOps(i, d) + RefusalOps(i, d) + CallOps(i, d), ToolsOps(i, d.toolCalls));
  }

  lemma {:induction false} PartsSolid(parts: seq<Option<ChoicePart>>)
    ensures AllSolid(PartsOps(parts))
    decreases parts
  {
    if parts != [] {
      PartsSolid(parts[1..]);
      if parts[0].Some? {
        var p := parts[0].value;
        if p.delta.Some? { DeltaSolid(PartIndex(p), p.delta.value); }
        assert AllSolid(PartOps(p));
      }
    }
  }

  lemma ChunkSolid(c: Chunk)
    ensures AllSolid(ChunkOps(c))
  {
    MetaLogShape(c);
    PartsSolid(c.choices);
    SolidConcat(MetaLog(c), PartsOps(c.choices));
  }

  lemma SolidSpares(op: Op, i: int, slot: Slot)
    requires Solid(op) && OpPiece(op, i, slot) == ""
    ensures Spares(op, i, slot)
  {
  }

  predicate AllSpare(ops: seq<Op>, i: int, slot: Slot) {
    forall k :: 0 <= k < |ops| ==> Spares(ops[k], i, slot)
  }

  lemma {:induction false} TextlessSpares(ops: seq<Op>, i: int, slot: Slot)
    requires AllSolid(ops) && LogText(ops, i, slot) == ""
    ensures AllSpare(ops, i, slot)
    decreases ops
  {
    if ops != [] {
      SolidSpares(ops[0], i, slot);
      TextlessSpares(ops[1..], i, slot);
      forall k | 0 <= k < |ops| ensures Spares(ops[k], i, slot) {
        if k > 0 { assert ops[k] == ops[1..][k - 1]; }
      }
    }
  }

  /** A chunk without a fragment for a text spares it. */
  lemma ChunkSpares(c: Chunk, i: int, slot: Slot)
    requires ExplicitParts(c.choices) && PartsText(c.choices, i, slot) == ""
    ensures AllSpare(ChunkOps(c), i, slot)
  {
    ChunkLogText(NEW_STATE, c, i, slot);
    ChunkLogOps(NEW_STATE, c);
    ChunkSolid(c);
    TextlessSpares(ChunkOps(c), i, slot);
  }

  // ---------------------------------------------------------------- the builder of a text is there

  predicate Has(st: State, i: int, slot: Slot) {
    && i in st.choices
    && match slot
       case Content => true
       case Refusal => true
       case CallName => st.choices[i].call.Some?
       case CallArguments => st.choices[i].call.Some?
       case ToolName(t) => t in st.choices[i].tools && st.choices[i].tools[t].call.Some?
       case ToolArguments(t) => t in st.choices[i].tools && st.choices[i].tools[t].call.Some?
  }

  lemma OpHas(st: State, op: Op, i: int, slot: Slot)
    requires Has(st, i, slot) || PreparesOp(op, i, slot)
    ensures Has(Apply(st, op), i, slot)
  {
  }

  lemma {:induction false} RunHas(st: State, ops: seq<Op>, i: int, slot: Slot)
    requires st.status.Fine? && Run(st, ops).status.Fine?
    requires Has(st, i, slot) || Prepares(ops, i, slot)
    ensures Has(Run(st, ops), i, slot)
    decreases ops
  {
    if ops != [] {
      var st' := RunOp(st, ops[0]);
      if !st'.status.Fine? { RunAfterError(st', ops[1..]); }
      if Has(st, i, slot) || PreparesOp(ops[0], i, slot) {
        OpHas(st, ops[0], i, slot);
      } else {
        var n :| 0 <= n < |ops| && PreparesOp(ops[n], i, slot);
        assert ops[1..][n - 1] == ops[n];
      }
      RunHas(st', ops[1..], i, slot);
    }
  }

  // ---------------------------------------------------------------- appending to a text

  function Put(st: State, i: int, slot: Slot, t: string): State {
    if t == "" then st else Apply(st, Write(i, slot, t))
  }

  lemma PutKeeps(st: State, i: int, slot: Slot, t: string)
    ensures Put(st, i, slot, t).status == st.status && Put(st, i, slot, t).bytes == st.bytes + ByteLen(t)
    ensures OpBytes(Write(i, slot, t)) == ByteLen(t)
  {
  }

  lemma PutTwice(st: State, i: int, slot: Slot, s: string, t: string)
    ensures Put(Put(st, i, slot, s), i, slot, t) == Put(st, i, slot, s + t)
  {
    assert s == "" ==> s + t == t;
    assert t == "" ==> s + t == s;
    WriteTwice(st, i, slot, s, t);
  }

  lemma PutGoesOn(st: State, i: int, slot: Slot, t: string, ops: seq<Op>)
    requires st.status.Fine? && st.bytes + ByteLen(t) + LogBytes(ops) <= MAX_BYTES && AllSpare(ops, i, slot)
    ensures Run(Put(st, i, slot, t), ops) == Put(Run(st, ops), i, slot, t)
  {
    if t != "" { WriteMovesLater(st, i, slot, t, ops); }
  }

  lemma PutMatches(st: State, seen: Seen, i: int, slot: Slot, t: string)
    requires Matches(st, seen) && Has(st, i, slot)
    ensures Matches(Put(st, i, slot, t), seen)
  {
    forall j ensures ToolKeys(Put(st, i, slot, t), j) == SeenAt(seen, j) {
      assert ToolKeys(Put(st, i, slot, t), j) == ToolKeys(st, j);
    }
  }

  // ---------------------------------------------------------------- the rest of a fragment

  function RestCall(named: bool, t: string): FunctionPart {
    FillFunction(FunctionPart("", ""), named, t)
  }

  function RestTool(n: int, named: bool, t: string): ToolPart {
    ToolPart(Some(n), "", "", Some(RestCall(named, t)))
  }

  function RestDelta(slot: Slot, t: string): Delta {
    match slot
    case Content => Delta("", t, "", None, [])
    case Refusal => Delta("", "", t, None, [])
    case CallName => Delta("", "", "", Some(RestCall(true, t)), [])
    case CallArguments => Delta("", "", "", Some(RestCall(false, t)), [])
    case ToolName(n) => Delta("", "", "", None, [Some(RestTool(n, true, t))])
    case ToolArguments(n) => Delta("", "", "", None, [Some(RestTool(n, false, t))])
  }

  function RestParts(i: int, slot: Slot, t: string): seq<Option<ChoicePart>> {
    [Some(ChoicePart(Some(i), Absent, Absent, Some(RestDelta(slot, t))))]
  }

  /** A chunk with the metadata of `head` and a fragment for one text. */
  function Rest(head: Chunk, i: int, slot: Slot, t: string): Chunk {
    head.(choices := RestParts(i, slot, t))
  }

  /** The chunk carries no metadata other than what was captured last. */
  predicate InForce(c: Chunk, meta: Meta) {
    && (TrimSpace(c.id) == "" || TrimSpace(c.id) == meta.id)
    && (TrimSpace(c.model) == "" || TrimSpace(c.model) == meta.model)
    && (c.created.None? || c.created.value == meta.created)
    && (TrimSpace(c.fingerprint) == "" || TrimSpace(c.fingerprint) == meta.fingerprint)
    && (c.serviceTier.Absent? || c.serviceTier == meta.serviceTier)
    && (!c.usage.Value? || c.usage == meta.usage)
  }

  /** Edits that leave the state alone, and one more of the kind. */
  lemma StaysWhen(st: State, ops: seq<Op>, b: bool, e: MetaEdit)
    requires st.status.Fine? && st.bytes <= MAX_BYTES && Run(st, ops) == st && (b ==> EditMeta(st.meta, e) == st.meta)
    ensures Run(st, ops + When(b, OnMeta(e))) == st
  {
    RunConcat(st, ops, When(b, OnMeta(e)));
    if b { RunOne(st, OnMeta(e)); }
  }

  lemma MetaInForce(st: State, c: Chunk)
    requires st.status.Fine? && InForce(c, st.meta) && st.bytes <= MAX_BYTES
    ensures Run(st, MetaLog(c)) == st
  {
    var id := When(TrimSpace(c.id) != "", OnMeta(SetId(TrimSpace(c.id))));
    StaysWhen(st, [], TrimSpace(c.id) != "", SetId(TrimSpace(c.id)));
    assert [] + id == id;
    StaysWhen(st, id, TrimSpace(c.model) != "", SetModel(TrimSpace(c.model)));
    RestInForce(st, id + When(TrimSpace(c.model) != "", OnMeta(SetModel(TrimSpace(c.model)))), c);
  }

  lemma RestInForce(st: State, ops: seq<Op>, c: Chunk)
    requires st.status.Fine? && InForce(c, st.meta) && st.bytes <= MAX_BYTES && Run(st, ops) == st
    ensures Run(st, ops
                    + When(c.created.Some?, OnMeta(SetCreated(if c.created.Some? then c.created.value else 0)))
                    + When(TrimSpace(c.fingerprint) != "", OnMeta(SetFingerprint(TrimSpace(c.fingerprint))))
                    + When(!c.serviceTier.Absent?, OnMeta(SetTier(c.serviceTier)))
                    + When(c.usage.Value?, OnMeta(SetUsage(c.usage)))) == st
  {
    var created := SetCreated(if c.created.Some? then c.created.value else 0);
    StaysWhen(st, ops, c.created.Some?, created);
    var a := ops + When(c.created.Some?, OnMeta(created));
    StaysWhen(st, a, TrimSpace(c.fingerprint) != "", SetFingerprint(TrimSpace(c.fingerprint)));
    var b := a + When(TrimSpace(c.fingerprint) != "", OnMeta(SetFingerprint(TrimSpace(c.fingerprint))));
    StaysWhen(st, b, !c.serviceTier.Absent?, SetTier(c.serviceTier));
    StaysWhen(st, b + When(!c.serviceTier.Absent?, OnMeta(SetTier(c.serviceTier))), c.usage.Value?, SetUsage(c.usage));
  }

  /** What it does before the fragment. */
  function TouchSlot(i: int, slot: Slot): seq<Op> {
    [OnChoice(i, TouchChoice)] +
    match slot
    case Content => []
    case Refusal => []
    case CallName => [OnChoice(i, OnCall(TouchCall))]
    case CallArguments => [OnChoice(i, OnCall(TouchCall))]
    case ToolName(t) => [OnChoice(i, OnTool(t, TouchTool)), OnChoice(i, OnTool(t, OnFunction(TouchCall)))]
    case ToolArguments(t) => [OnChoice(i, OnTool(t, TouchTool)), OnChoice(i, OnTool(t, OnFunction(TouchCall)))]
  }

  lemma BlankTrims()
    ensures TrimSpace("") == ""
  {
  }

  lemma RestTextOps(i: int, slot: Slot, t: string)
    requires NeedsChoiceOnly(slot)
    ensures DeltaOps(i, RestDelta(slot, t)) == When(t != "", Write(i, slot, t))
  {
    BlankTrims();
    var d := RestDelta(slot, t);
    DeltaOpsAre(i, d);
    assert RoleOps(i, d) == [] && CallOps(i, d) == [] && ToolsOps(i, d.toolCalls) == [];
  }

  lemma RestCallLog(i: int, tool: Option<int>, named: bool, t: string)
    ensures CallLog(i, tool, RestCall(named, t)) ==
            [Target(i, tool, TouchCall)] + When(t != "", Write(i, CallSlot(tool, named), t))
  {
    var blank := FunctionPart("", "");
    CallAround(i, tool, blank, named, t);
    assert BeforeCall(i, tool, blank, named) == [Target(i, tool, TouchCall)] && AfterCall(i, tool, blank, named) == [];
  }

  lemma RestCallOps(i: int, named: bool, t: string)
    ensures var d := RestDelta(CallSlot(None, named), t);
            DeltaOps(i, d) == [OnChoice(i, OnCall(TouchCall))] + When(t != "", Write(i, CallSlot(None, named), t))
  {
    BlankTrims();
    var d := RestDelta(CallSlot(None, named), t);
    DeltaOpsAre(i, d);
    RestCallLog(i, None, named, t);
    assert RoleOps(i, d) == [] && ContentOps(i, d) == [] && RefusalOps(i, d) == [] && ToolsOps(i, d.toolCalls) == [];
    assert CallOps(i, d) == CallLog(i, None, RestCall(named, t));
    Alone(CallOps(i, d));
  }

  lemma Alone(a: seq<Op>)
    ensures [] + [] + [] + a + [] == a && [] + [] + [] + [] + a == a
  {
  }

  lemma RestToolOps(i: int, n: int, named: bool, t: string)
    ensures var d := RestDelta(ToolSlot(n, named), t);
            DeltaOps(i, d) ==
            [OnChoice(i, OnTool(n, TouchTool))] + [Target(i, Some(n), TouchCall)] +
            When(t != "", Write(i, ToolSlot(n, named), t))
  {
    BlankTrims();
    var d := RestDelta(ToolSlot(n, named), t);
    var p := RestTool(n, named, t);
    DeltaOpsAre(i, d);
    RestCallLog(i, Some(n), named, t);
    assert RoleOps(i, d) == [] && ContentOps(i, d) == [] && RefusalOps(i, d) == [] && CallOps(i, d) == [];
    assert d.toolCalls == [Some(p)] && d.toolCalls[1..] == [];
    assert ToolsOps(i, d.toolCalls) == ToolLog(i, n, p) + [] == ToolLog(i, n, p);
    assert BeforeTool(i, n, p) == [OnChoice(i, OnTool(n, TouchTool))];
    Alone(ToolsOps(i, d.toolCalls));
  }

  lemma RestDeltaOps(i: int, slot: Slot, t: string)
    ensures [OnChoice(i, TouchChoice)] + DeltaOps(i, RestDelta(slot, t)) ==
            TouchSlot(i, slot) + When(t != "", Write(i, slot, t))
  {
    var w := When(t != "", Write(i, slot, t));
    match slot
    case Content => RestTextOps(i, slot, t);
    case Refusal => RestTextOps(i, slot, t);
    case CallName =>
      RestCallOps(i, true, t);
      Behind(OnChoice(i, TouchChoice), [OnChoice(i, OnCall(TouchCall))], w);
    case CallArguments =>
      RestCallOps(i, false, t);
      Behind(OnChoice(i, TouchChoice), [OnChoice(i, OnCall(TouchCall))], w);
    case ToolName(n) => RestToolTouch(i, n, true, t);
    case ToolArguments(n) => RestToolTouch(i, n, false, t);
  }

  lemma RestToolTouch(i: int, n: int, named: bool, t: string)
    ensures var slot := ToolSlot(n, named);
            [OnChoice(i, TouchChoice)] + DeltaOps(i, RestDelta(slot, t)) ==
            TouchSlot(i, slot) + When(t != "", Write(i, slot, t))
  {
    var touch := [OnChoice(i, OnTool(n, TouchTool))] + [Target(i, Some(n), TouchCall)];
    RestToolOps(i, n, named, t);
    Behind(OnChoice(i, TouchChoice), touch, When(t != "", Write(i, ToolSlot(n, named), t)));
    assert touch == [OnChoice(i, OnTool(n, TouchTool)), OnChoice(i, OnTool(n, OnFunction(TouchCall)))];
  }

  lemma Behind(op: Op, a: seq<Op>, b: seq<Op>)
    ensures [op] + (a + b) == [op] + a + b
  {
  }

  lemma RestOps(i: int, slot: Slot, t: string)
    ensures PartsOps(RestParts(i, slot, t)) == TouchSlot(i, slot) + When(t != "", Write(i, slot, t))
  {
    var parts := RestParts(i, slot, t);
    assert parts[1..] == [];
    var p := parts[0].value;
    assert PartsOps(parts) == PartOps(p);
    assert HeadLog(p) == [OnChoice(i, TouchChoice)];
    RestDeltaOps(i, slot, t);
  }

  lemma TouchNothing(st: State, op: Op, i: int, slot: Slot)
    requires st.status.Fine? && Has(st, i, slot) && op in TouchSlot(i, slot)
    ensures RunOp(st, op) == st
  {
    assert op.OnChoice? && op.i == i;
    var c := st.choices[i];
    assert EditChoice(c, op.edit) == c by {
      if op.edit.OnTool? { assert c.tools[op.edit.t := c.tools[op.edit.t]] == c.tools; }
    }
    assert st.choices[i := c] == st.choices;
  }

  lemma {:induction false} TouchesNothing(st: State, ops: seq<Op>, i: int, slot: Slot)
    requires st.status.Fine? && Has(st, i, slot) && forall op :: op in ops ==> op in TouchSlot(i, slot)
    ensures Run(st, ops) == st
    decreases ops
  {
    if ops != [] {
      TouchNothing(st, ops[0], i, slot);
      TouchesNothing(st, ops[1..], i, slot);
    }
  }

  lemma RestRuns(st: State, head: Chunk, i: int, slot: Slot, t: string)
    requires st.status.Fine? && Has(st, i, slot) && st.bytes + ByteLen(t) <= MAX_BYTES && InForce(head, st.meta)
    ensures RunChunk(st, Rest(head, i, slot, t)) == Put(st, i, slot, t)
  {
    var c := Rest(head, i, slot, t);
    ChunkLogOps(st, c);
    RunConcat(st, MetaLog(c), PartsOps(c.choices));
    MetaInForce(st, c);
    PartsRun(st, i, slot, t);
  }

  lemma PartsRun(st: State, i: int, slot: Slot, t: string)
    requires st.status.Fine? && Has(st, i, slot) && st.bytes + ByteLen(t) <= MAX_BYTES
    ensures Run(st, PartsOps(RestParts(i, slot, t))) == Put(st, i, slot, t)
  {
    RestOps(i, slot, t);
    RunConcat(st, TouchSlot(i, slot), When(t != "", Write(i, slot, t)));
    TouchesNothing(st, TouchSlot(i, slot), i, slot);
    PutKeeps(st, i, slot, t);
    if t != "" { RunOne(st, Write(i, slot, t)); }
  }

  lemma RunOne(st: State, op: Op)
    requires st.status.Fine? && st.bytes + OpBytes(op) <= MAX_BYTES
    ensures Run(st, [op]) == Apply(st, op)
  {
    assert [op][1..] == [];
  }

  // ---------------------------------------------------------------- behind the events in between

  lemma ChunkCarries(st: State, seen: Seen, c: Chunk, i: int, slot: Slot, t: string)
    requires st.status.Fine? && Matches(st, seen) && Has(st, i, slot)
    requires st.bytes + ByteLen(t) + PartsBytes(c.choices) <= MAX_BYTES
    requires PartsText(ResolvedChunk(seen, c).choices, i, slot) == ""
    ensures RunChunk(Put(st, i, slot, t), c) == Put(RunChunk(st, c), i, slot, t)
    ensures RunChunk(st, c).status.Fine? && RunChunk(st, c).bytes == st.bytes + PartsBytes(c.choices)
    ensures Has(RunChunk(st, c), i, slot) && Matches(RunChunk(st, c), SeenAfterParts(seen, c.choices))
  {
    var st' := Put(st, i, slot, t);
    PutKeeps(st, i, slot, t);
    PutMatches(st, seen, i, slot, t);
    ChunkTrips(st, c);
    ChunkTrips(st', c);
    ChunkLogResolved(st, seen, c);
    ChunkLogResolved(st', seen, c);
    PartsExplicit(seen, c.choices);
    ChunkSpares(ResolvedChunk(seen, c), i, slot);
    ChunkLogBytes(st, c);
    PutGoesOn(st, i, slot, t, ChunkLog(st, c));
    RunHas(st, ChunkLog(st, c), i, slot);
  }

  lemma OtherCarries(st: State, seen: Seen, e: Event, i: int, slot: Slot, t: string)
    requires st.status.Fine? && Matches(st, seen) && Has(st, i, slot) && (e.Ignored? || e.Done?)
    ensures var next := RunEvent(st, e);
            && RunEvent(Put(st, i, slot, t), e) == Put(next, i, slot, t)
            && next.status.Fine? && next.bytes == st.bytes && Has(next, i, slot) && Matches(next, seen)
  {
    var next := RunEvent(st, e);
    assert Matches(next, seen) by { assert forall j :: ToolKeys(next, j) == ToolKeys(st, j); }
  }

  function SeenNext(seen: Seen, e: Event): Seen {
    if e.Decoded? then SeenAfterParts(seen, e.chunk.choices) else seen
  }

  function EventBytes(e: Event): nat {
    if e.Decoded? then PartsBytes(e.chunk.choices) else 0
  }

  lemma FirstIsTextless(seen: Seen, es: seq<Event>, i: int, slot: Slot)
    requires es != [] && EventsText(ResolvedEvents(seen, es), i, slot) == ""
    ensures es[0].Decoded? ==> PartsText(ResolvedChunk(seen, es[0].chunk).choices, i, slot) == ""
    ensures EventsText(ResolvedEvents(SeenNext(seen, es[0]), es[1..]), i, slot) == ""
  {
    var all := ResolvedEvents(seen, es);
    assert all[1..] == ResolvedEvents(SeenNext(seen, es[0]), es[1..]);
  }

  lemma EventCarries(st: State, seen: Seen, e: Event, i: int, slot: Slot, t: string)
    requires st.status.Fine? && Matches(st, seen) && Has(st, i, slot) && !e.Broken?
    requires st.bytes + ByteLen(t) + EventBytes(e) <= MAX_BYTES
    requires e.Decoded? ==> PartsText(ResolvedChunk(seen, e.chunk).choices, i, slot) == ""
    ensures var next := RunEvent(st, e);
            && RunEvent(Put(st, i, slot, t), e) == Put(next, i, slot, t)
            && next.status.Fine? && next.bytes == st.bytes + EventBytes(e)
            && Has(next, i, slot) && Matches(next, SeenNext(seen, e))
  {
    PutKeeps(st, i, slot, t);
    if e.Decoded? {
      ChunkCarries(st, seen, e.chunk, i, slot, t);
    } else {
      OtherCarries(st, seen, e, i, slot, t);
    }
  }

  lemma {:induction false} EventsCarry(st: State, seen: Seen, es: seq<Event>, i: int, slot: Slot, t: string)
    requires st.status.Fine? && Matches(st, seen) && Has(st, i, slot)
    requires NoBroken(es) && st.bytes + ByteLen(t) + TotalBytes(es) <= MAX_BYTES
    requires EventsText(ResolvedEvents(seen, es), i, slot) == ""
    ensures RunEvents(Put(st, i, slot, t), es) == Put(RunEvents(st, es), i, slot, t)
    ensures RunEvents(st, es).status.Fine? && RunEvents(st, es).bytes == st.bytes + TotalBytes(es)
    ensures Has(RunEvents(st, es), i, slot)
    decreases es
  {
    if es != [] {
      FirstIsTextless(seen, es, i, slot);
      EventCarries(st, seen, es[0], i, slot, t);
      EventsCarry(RunEvent(st, es[0]), SeenNext(seen, es[0]), es[1..], i, slot, t);
    }
  }
}
