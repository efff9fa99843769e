/** Everything a capture holds besides its texts is the last value that the chunks carry for it. */
module StreamMarks {
  import opened Wrappers
  import opened Text
  import opened StreamState
  import opened StreamExplicit
  import opened StreamBudget
  import opened StreamAssembly
  import opened StreamReorder
  import opened StreamResolve

  // ---------------------------------------------------------------- what is set and not appended to

  datatype Header = Id | Model | Created | Fingerprint | Tier | Usage

  datatype Mark = Role | Finish | Logprobs | HasCall | ToolId(t: int) | ToolKind(t: int) | HasToolCall(t: int)

  datatype Held = Words(s: string) | Number(n: int) | Json(f: Field) | Flag(b: bool)

  function HeaderAt(m: Meta, h: Header): Held {
    match h
    case Id => Words(m.id)
    case Model => Words(m.model)
    case Created => Number(m.created)
    case Fingerprint => Words(m.fingerprint)
    case Tier => Json(m.serviceTier)
    case Usage => Json(m.usage)
  }

  function MarkAt(c: Choice, m: Mark): Held {
    match m
    case Role => Words(c.role)
    case Finish => Json(c.finishReason)
    case Logprobs => Json(c.logprobs)
    case HasCall => Flag(c.call.Some?)
    case ToolId(t) => Words(ToolAt(c.tools, t).id)
    case ToolKind(t) => Words(ToolAt(c.tools, t).kind)
    case HasToolCall(t) => Flag(ToolAt(c.tools, t).call.Some?)
  }

  function Later<T>(a: Option<T>, b: Option<T>): Option<T> {
    if b.Some? then b else a
  }

  function Or<T>(a: Option<T>, default: T): T {
    if a.Some? then a.value else default
  }

  function OnlyIf<T>(b: bool, a: Option<T>): Option<T> {
    if b then a else None
  }

  // ---------------------------------------------------------------- what the chunks carry

  function NonBlank(s: string): Option<Held> {
    OnlyIf(TrimSpace(s) != "", Some(Words(TrimSpace(s))))
  }

  function Present<T>(a: Option<T>): Option<Held> {
    OnlyIf(a.Some?, Some(Flag(true)))
  }

  function ChunkHeader(c: Chunk, h: Header): Option<Held> {
    match h
    case Id => NonBlank(c.id)
    case Model => NonBlank(c.model)
    case Created => if c.created.Some? then Some(Number(c.created.value)) else None
    case Fingerprint => NonBlank(c.fingerprint)
    case Tier => OnlyIf(!c.serviceTier.Absent?, Some(Json(c.serviceTier)))
    case Usage => OnlyIf(c.usage.Value?, Some(Json(c.usage)))
  }

  /** What a part of tool call `t` carries. */
  function ToolMark(t: int, p: ToolPart, m: Mark): Option<Held> {
    match m
    case ToolId(u) => OnlyIf(t == u, NonBlank(p.id))
    case ToolKind(u) => OnlyIf(t == u, NonBlank(p.kind))
    case HasToolCall(u) => OnlyIf(t == u, Present(p.function_))
    case _ => None
  }

  /** What tool parts with an index carry, the last one first. */
  function ToolsMark(parts: seq<Option<ToolPart>>, m: Mark): Option<Held> {
    if parts == [] then None
    else
      Later(if parts[0].None? || parts[0].value.index.None? then None
            else ToolMark(parts[0].value.index.value, parts[0].value, m),
            ToolsMark(parts[1..], m))
  }

  function DeltaMark(d: Delta, m: Mark): Option<Held> {
    match m
    case Role => NonBlank(d.role)
    case HasCall => Present(d.functionCall)
    case _ => ToolsMark(d.toolCalls, m)
  }

  function PartMark(p: ChoicePart, m: Mark): Option<Held> {
    match m
    case Finish => OnlyIf(p.finishReason.Value?, Some(Json(p.finishReason)))
    case Logprobs => OnlyIf(!p.logprobs.Absent?, Some(Json(p.logprobs)))
    case _ => if p.delta.Some? then DeltaMark(p.delta.value, m) else None
  }

  /** A part without an index is one of choice 0. */
  predicate ForChoice(p: ChoicePart, i: int) {
    p.index == Some(i) || (p.index.None? && i == 0)
  }

  function PartsMark(parts: seq<Option<ChoicePart>>, i: int, m: Mark): Option<Held> {
    if parts == [] then None
    else
      Later(if parts[0].None? || !ForChoice(parts[0].value, i) then None else PartMark(parts[0].value, m),
            PartsMark(parts[1..], i, m))
  }

  /** The last value that a chunk carries for something of the stream. */
  function EventsHeader(es: seq<Event>, h: Header): Option<Held> {
    if es == [] then None
    else Later(if es[0].Decoded? then ChunkHeader(es[0].chunk, h) else None, EventsHeader(es[1..], h))
  }

  /** The last value that a chunk carries for something of choice `i`. */
  function EventsMark(es: seq<Event>, i: int, m: Mark): Option<Held> {
    if es == [] then None
    else Later(if es[0].Decoded? then PartsMark(es[0].chunk.choices, i, m) else None, EventsMark(es[1..], i, m))
  }

  // ---------------------------------------------------------------- in terms of edits

  function HeaderEdit(e: MetaEdit, h: Header): Option<Held> {
    match (e, h)
    case (SetId(s), Id) => Some(Words(s))
    case (SetModel(s), Model) => Some(Words(s))
    case (SetCreated(n), Created) => Some(Number(n))
    case (SetFingerprint(s), Fingerprint) => Some(Words(s))
    case (SetTier(f), Tier) => Some(Json(f))
    case (SetUsage(f), Usage) => Some(Json(f))
    case _ => None
  }

  function ToolEditMark(t: int, e: ToolEdit, m: Mark): Option<Held> {
    match (e, m)
    case (SetToolId(s), ToolId(u)) => OnlyIf(t == u, Some(Words(s)))
    case (SetKind(s), ToolKind(u)) => OnlyIf(t == u, Some(Words(s)))
    case (OnFunction(_), HasToolCall(u)) => OnlyIf(t == u, Some(Flag(true)))
    case _ => None
  }

  function EditMark(e: ChoiceEdit, m: Mark): Option<Held> {
    match e
    case SetRole(s) => OnlyIf(m.Role?, Some(Words(s)))
    case SetFinish(f) => OnlyIf(m.Finish?, Some(Json(f)))
    case SetLogprobs(f) => OnlyIf(m.Logprobs?, Some(Json(f)))
    case OnCall(_) => OnlyIf(m.HasCall?, Some(Flag(true)))
    case OnTool(t, tool) => ToolEditMark(t, tool, m)
    case _ => None
  }

  function OpMark(op: Op, i: int, m: Mark): Option<Held> {
    if op.OnChoice? && op.i == i then EditMark(op.edit, m) else None
  }

  function LogMark(ops: seq<Op>, i: int, m: Mark): Option<Held> {
    if ops == [] then None else Later(OpMark(ops[0], i, m), LogMark(ops[1..], i, m))
  }

  lemma {:induction false} LogMarkConcat(a: seq<Op>, b: seq<Op>, i: int, m: Mark)
    ensures LogMark(a + b, i, m) == Later(LogMark(a, i, m), LogMark(b, i, m))
    decreases a
  {
    if a == [] {
      assert a + b == b;
    } else {
      assert (a + b)[1..] == a[1..] + b;
      LogMarkConcat(a[1..], b, i, m);
    }
  }

  lemma ToolMarked(tools: map<int, Tool>, t: int, e: ToolEdit, u: int)
    ensures ToolAt(tools[t := EditTool(ToolAt(tools, t), e)], u) ==
            if u == t then EditTool(ToolAt(tools, t), e) else ToolAt(tools, u)
  {
  }

  lemma EditMarked(c: Choice, e: ChoiceEdit, m: Mark)
    ensures MarkAt(EditChoice(c, e), m) == Or(EditMark(e, m), MarkAt(c, m))
  {
    if e.OnTool? {
      match m
      case ToolId(u) => ToolMarked(c.tools, e.t, e.tool, u);
      case ToolKind(u) => ToolMarked(c.tools, e.t, e.tool, u);
      case HasToolCall(u) => ToolMarked(c.tools, e.t, e.tool, u);
      case _ =>
    }
  }

  lemma OpMarked(st: State, op: Op, i: int, m: Mark)
    ensures MarkAt(ChoiceAt(Apply(st, op).choices, i), m) == Or(OpMark(op, i, m), MarkAt(ChoiceAt(st.choices, i), m))
  {
    if op.OnChoice? && op.i == i {
      EditMarked(ChoiceAt(st.choices, i), op.edit, m);
    } else {
      assert ChoiceAt(Apply(st, op).choices, i) == ChoiceAt(st.choices, i);
    }
  }

  lemma {:induction false} RunMarked(st: State, ops: seq<Op>, i: int, m: Mark)
    requires st.status.Fine? && Run(st, ops).status.Fine?
    ensures MarkAt(ChoiceAt(Run(st, ops).choices, i), m) == Or(LogMark(ops, i, m), MarkAt(ChoiceAt(st.choices, i), m))
    decreases ops
  {
    if ops != [] {
      var next := RunOp(st, ops[0]);
      if !next.status.Fine? { RunAfterError(next, ops[1..]); }
      OpMarked(st, ops[0], i, m);
      RunMarked(next, ops[1..], i, m);
    }
  }

  // ---------------------------------------------------------------- the edits of a chunk

  lemma OneMark(op: Op, i: int, m: Mark)
    ensures LogMark([op], i, m) == OpMark(op, i, m)
  {
    assert [op][1..] == [];
  }

  lemma WhenMark(log: seq<Op>, b: bool, op: Op, i: int, m: Mark)
    ensures LogMark(log + When(b, op), i, m) == Later(LogMark(log, i, m), OnlyIf(b, OpMark(op, i, m)))
  {
    LogMarkConcat(log, When(b, op), i, m);
    if b { OneMark(op, i, m); }
  }

  /** Edits of another choice, and edits of the stream, say nothing. */
  lemma {:induction false} ElsewhereMark(ops: seq<Op>, i: int, j: int, m: Mark)
    requires AllOn(ops, j) && i != j
    ensures LogMark(ops, i, m) == None
    decreases ops
  {
    if ops != [] { ElsewhereMark(ops[1..], i, j, m); }
  }

  lemma {:induction false} MetaMark(ops: seq<Op>, i: int, m: Mark)
    requires MetaOnly(ops)
    ensures LogMark(ops, i, m) == None
    decreases ops
  {
    if ops != [] { MetaMark(ops[1..], i, m); }
  }

  lemma CallLogMark(i: int, tool: Option<int>, f: FunctionPart, m: Mark)
    ensures LogMark(CallLog(i, tool, f), i, m) ==
            OnlyIf(if tool.None? then m.HasCall? else m == HasToolCall(tool.value), Some(Flag(true)))
  {
    var touch, name, arguments :=
      Target(i, tool, TouchCall), Target(i, tool, AddName(f.name)), Target(i, tool, AddArguments(f.arguments));
    OneMark(touch, i, m);
    WhenMark([touch], f.name != "", name, i, m);
    WhenMark([touch] + When(f.name != "", name), f.arguments != "", arguments, i, m);
    assert OpMark(name, i, m) == OpMark(touch, i, m) == OpMark(arguments, i, m);
  }

  lemma OptionalCallMark(log: seq<Op>, i: int, tool: Option<int>, f: Option<FunctionPart>, m: Mark)
    ensures LogMark(log + (if f.Some? then CallLog(i, tool, f.value) else []), i, m) ==
            Later(LogMark(log, i, m),
                  OnlyIf(if tool.None? then m.HasCall? else m == HasToolCall(tool.value), Present(f)))
  {
    if f.Some? {
      CallLogMark(i, tool, f.value, m);
      LogMarkConcat(log, CallLog(i, tool, f.value), i, m);
    } else {
      assert log + [] == log;
    }
  }

  lemma NamedToolMark(i: int, t: int, p: ToolPart, m: Mark)
    ensures LogMark([OnChoice(i, OnTool(t, TouchTool))]
                    + When(TrimSpace(p.id) != "", OnChoice(i, OnTool(t, SetToolId(TrimSpace(p.id)))))
                    + When(TrimSpace(p.kind) != "", OnChoice(i, OnTool(t, SetKind(TrimSpace(p.kind))))), i, m) ==
            if m.HasToolCall? then None else ToolMark(t, p, m)
  {
    var touch := OnChoice(i, OnTool(t, TouchTool));
    var id := OnChoice(i, OnTool(t, SetToolId(TrimSpace(p.id))));
    var kind := OnChoice(i, OnTool(t, SetKind(TrimSpace(p.kind))));
    OneMark(touch, i, m);
    WhenMark([touch], TrimSpace(p.id) != "", id, i, m);
    WhenMark([touch] + When(TrimSpace(p.id) != "", id), TrimSpace(p.kind) != "", kind, i, m);
  }

  lemma ToolLogMark(i: int, t: int, p: ToolPart, m: Mark)
    ensures LogMark(ToolLog(i, t, p), i, m) == ToolMark(t, p, m)
  {
    NamedToolMark(i, t, p, m);
    OptionalCallMark([OnChoice(i, OnTool(t, TouchTool))]
                     + When(TrimSpace(p.id) != "", OnChoice(i, OnTool(t, SetToolId(TrimSpace(p.id)))))
                     + When(TrimSpace(p.kind) != "", OnChoice(i, OnTool(t, SetKind(TrimSpace(p.kind))))),
                     i, Some(t), p.function_, m);
  }

  lemma {:induction false} ToolsOpsMark(i: int, parts: seq<Option<ToolPart>>, m: Mark)
    requires ExplicitTools(parts)
    ensures LogMark(ToolsOps(i, parts), i, m) == ToolsMark(parts, m)
    decreases parts
  {
    if parts != [] {
      ToolsOpsMark(i, parts[1..], m);
      if parts[0].Some? {
        var p := parts[0].value;
        ToolLogMark(i, p.index.value, p, m);
        LogMarkConcat(ToolLog(i, p.index.value, p), ToolsOps(i, parts[1..]), i, m);
      }
    }
  }

  lemma TextLogMark(i: int, d: Delta, m: Mark)
    ensures LogMark(TextLog(i, d), i, m) ==
            if m.Role? then NonBlank(d.role) else if m.HasCall? then Present(d.functionCall) else None
  {
    var role := OnChoice(i, SetRole(TrimSpace(d.role)));
    var content, refusal := OnChoice(i, AddContent(d.content)), OnChoice(i, AddRefusal(d.refusal));
    var a := When(TrimSpace(d.role) != "", role);
    WhenMark([], TrimSpace(d.role) != "", role, i, m);
    assert [] + a == a;
    WhenMark(a, d.content != "", content, i, m);
    WhenMark(a + When(d.content != "", content), d.refusal != "", refusal, i, m);
    OptionalCallMark(a + When(d.content != "", content) + When(d.refusal != "", refusal), i, None, d.functionCall, m);
  }

  lemma {:induction false} ToolsMarkOnly(parts: seq<Option<ToolPart>>, m: Mark)
    requires !m.ToolId? && !m.ToolKind? && !m.HasToolCall?
    ensures ToolsMark(parts, m) == None
    decreases parts
  {
    if parts != [] { ToolsMarkOnly(parts[1..], m); }
  }

  lemma DeltaOpsMark(i: int, d: Delta, m: Mark)
    requires ExplicitTools(d.toolCalls)
    ensures LogMark(DeltaOps(i, d), i, m) == DeltaMark(d, m)
  {
    TextLogMark(i, d, m);
    ToolsOpsMark(i, d.toolCalls, m);
    LogMarkConcat(TextLog(i, d), ToolsOps(i, d.toolCalls), i, m);
    if !m.ToolId? && !m.ToolKind? && !m.HasToolCall? { ToolsMarkOnly(d.toolCalls, m); }
  }

  lemma HeadLogMark(p: ChoicePart, m: Mark)
    ensures LogMark(HeadLog(p), PartIndex(p), m) == if m.Finish? || m.Logprobs? then PartMark(p, m) else None
  {
    var i := PartIndex(p);
    var touch := OnChoice(i, TouchChoice);
    var finish, logprobs := OnChoice(i, SetFinish(p.finishReason)), OnChoice(i, SetLogprobs(p.logprobs));
    OneMark(touch, i, m);
    WhenMark([touch], p.finishReason.Value?, finish, i, m);
    WhenMark([touch] + When(p.finishReason.Value?, finish), !p.logprobs.Absent?, logprobs, i, m);
  }

  lemma PartOpsMark(p: ChoicePart, m: Mark)
    requires ExplicitPart(p)
    ensures LogMark(PartOps(p), PartIndex(p), m) == PartMark(p, m)
  {
    HeadLogMark(p, m);
    if p.delta.Some? {
      var i, d := PartIndex(p), p.delta.value;
      DeltaOpsMark(i, d, m);
      LogMarkConcat(HeadLog(p), DeltaOps(i, d), i, m);
      if m.Finish? || m.Logprobs? { ToolsMarkOnly(d.toolCalls, m); }
    } else {
      assert HeadLog(p) + [] == HeadLog(p);
    }
  }

  lemma PartOpsElsewhere(p: ChoicePart, i: int, m: Mark)
    requires ExplicitPart(p) && i != PartIndex(p)
    ensures LogMark(PartOps(p), i, m) == None
  {
    PartLogOn(NEW_STATE, p);
    PartLogOps(NEW_STATE, p);
    ElsewhereMark(PartOps(p), i, PartIndex(p), m);
  }

  lemma {:induction false} PartsOpsMark(parts: seq<Option<ChoicePart>>, i: int, m: Mark)
    requires ExplicitParts(parts)
    ensures LogMark(PartsOps(parts), i, m) == PartsMark(parts, i, m)
    decreases parts
  {
    if parts != [] {
      PartsOpsMark(parts[1..], i, m);
      if parts[0].Some? {
        var p := parts[0].value;
        if PartIndex(p) == i { PartOpsMark(p, m); } else { PartOpsElsewhere(p, i, m); }
        LogMarkConcat(PartOps(p), PartsOps(parts[1..]), i, m);
      }
    }
  }

  lemma ChunkMarked(st: State, c: Chunk, i: int, m: Mark)
    requires st.status.Fine? && RunChunk(st, c).status.Fine? && ExplicitParts(c.choices)
    ensures MarkAt(ChoiceAt(RunChunk(st, c).choices, i), m) ==
            Or(PartsMark(c.choices, i, m), MarkAt(ChoiceAt(st.choices, i), m))
  {
    ChunkLogOps(st, c);
    RunMarked(st, ChunkOps(c), i, m);
    MetaLogShape(c);
    MetaMark(MetaLog(c), i, m);
    PartsOpsMark(c.choices, i, m);
    LogMarkConcat(MetaLog(c), PartsOps(c.choices), i, m);
  }

  lemma EventMarked(st: State, e: Event, i: int, m: Mark)
    requires st.status.Fine? && RunEvent(st, e).status.Fine? && (e.Decoded? ==> ExplicitParts(e.chunk.choices))
    ensures MarkAt(ChoiceAt(RunEvent(st, e).choices, i), m) ==
            Or(if e.Decoded? then PartsMark(e.chunk.choices, i, m) else None, MarkAt(ChoiceAt(st.choices, i), m))
  {
    if e.Decoded? { ChunkMarked(st, e.chunk, i, m); }
  }

  lemma {:induction false} EventsMarked(st: State, es: seq<Event>, i: int, m: Mark)
    requires st.status.Fine? && RunEvents(st, es).status.Fine? && Explicit(es)
    ensures MarkAt(ChoiceAt(RunEvents(st, es).choices, i), m) ==
            Or(EventsMark(es, i, m), MarkAt(ChoiceAt(st.choices, i), m))
    decreases es
  {
    if es != [] {
      var next := RunEvent(st, es[0]);
      if !next.status.Fine? { EventsAfterError(next, es[1..]); }
      EventMarked(st, es[0], i, m);
      EventsMarked(next, es[1..], i, m);
    }
  }

  /**
    For every stream captured without error: role, finish reason, log probabilities, the id and the
    kind of each tool call, and whether there is a function call at all, are the last values carried.
   */
  lemma MarksAreLast(es: seq<Event>, i: int, m: Mark)
    requires RunEvents(NEW_STATE, es).status.Fine?
    ensures MarkAt(ChoiceAt(RunEvents(NEW_STATE, es).choices, i), m) ==
            Or(EventsMark(ResolvedEvents(map[], es), i, m), MarkAt(NEW_CHOICE, m))
  {
    ResolvingChangesNothing(es);
    EventsExplicit(map[], es);
    EventsMarked(NEW_STATE, ResolvedEvents(map[], es), i, m);
  }

  // ---------------------------------------------------------------- the stream's own fields

  function LogHeader(ops: seq<Op>, h: Header): Option<Held> {
    if ops == [] then None
    else Later(if ops[0].OnMeta? then HeaderEdit(ops[0].meta, h) else None, LogHeader(ops[1..], h))
  }

  lemma {:induction false} LogHeaderConcat(a: seq<Op>, b: seq<Op>, h: Header)
    ensures LogHeader(a + b, h) == Later(LogHeader(a, h), LogHeader(b, h))
    decreases a
  {
    if a == [] {
      assert a + b == b;
    } else {
      assert (a + b)[1..] == a[1..] + b;
      LogHeaderConcat(a[1..], b, h);
    }
  }

  lemma {:induction false} RunHeader(st: State, ops: seq<Op>, h: Header)
    requires st.status.Fine? && Run(st, ops).status.Fine?
    ensures HeaderAt(Run(st, ops).meta, h) == Or(LogHeader(ops, h), HeaderAt(st.meta, h))
    decreases ops
  {
    if ops != [] {
      var next := RunOp(st, ops[0]);
      if !next.status.Fine? { RunAfterError(next, ops[1..]); }
      RunHeader(next, ops[1..], h);
    }
  }

  lemma WhenHeader(log: seq<Op>, b: bool, e: MetaEdit, h: Header)
    ensures LogHeader(log + When(b, OnMeta(e)), h) == Later(LogHeader(log, h), OnlyIf(b, HeaderEdit(e, h)))
  {
    LogHeaderConcat(log, When(b, OnMeta(e)), h);
    if b { assert [OnMeta(e)][1..] == []; }
  }

  lemma ThreeHeaders(log: seq<Op>, b0: bool, e0: MetaEdit, b1: bool, e1: MetaEdit, b2: bool, e2: MetaEdit, h: Header)
    ensures LogHeader(log + When(b0, OnMeta(e0)) + When(b1, OnMeta(e1)) + When(b2, OnMeta(e2)), h) ==
            Later(LogHeader(log, h), Later(Later(OnlyIf(b0, HeaderEdit(e0, h)), OnlyIf(b1, HeaderEdit(e1, h))),
                                           OnlyIf(b2, HeaderEdit(e2, h))))
  {
    WhenHeader(log, b0, e0, h);
    WhenHeader(log + When(b0, OnMeta(e0)), b1, e1, h);
    WhenHeader(log + When(b0, OnMeta(e0)) + When(b1, OnMeta(e1)), b2, e2, h);
  }

  function FirstMeta(c: Chunk): seq<Op> {
    When(TrimSpace(c.id) != "", OnMeta(SetId(TrimSpace(c.id))))
    + When(TrimSpace(c.model) != "", OnMeta(SetModel(TrimSpace(c.model))))
    + When(c.created.Some?, OnMeta(SetCreated(if c.created.Some? then c.created.value else 0)))
  }

  lemma FirstHeaders(c: Chunk, h: Header)
    ensures LogHeader(FirstMeta(c), h) == if h.Id? || h.Model? || h.Created? then ChunkHeader(c, h) else None
  {
    var id := SetId(TrimSpace(c.id));
    var created := SetCreated(if c.created.Some? then c.created.value else 0);
    ThreeHeaders([], TrimSpace(c.id) != "", id, TrimSpace(c.model) != "", SetModel(TrimSpace(c.model)),
                 c.created.Some?, created, h);
    assert [] + When(TrimSpace(c.id) != "", OnMeta(id)) == When(TrimSpace(c.id) != "", OnMeta(id));
  }

  function RestMeta(c: Chunk): seq<Op> {
    When(TrimSpace(c.fingerprint) != "", OnMeta(SetFingerprint(TrimSpace(c.fingerprint))))
    + When(!c.serviceTier.Absent?, OnMeta(SetTier(c.serviceTier)))
    + When(c.usage.Value?, OnMeta(SetUsage(c.usage)))
  }

  lemma RestHeaders(c: Chunk, h: Header)
    ensures LogHeader(RestMeta(c), h) == if h.Id? || h.Model? || h.Created? then None else ChunkHeader(c, h)
  {
    var fingerprint := SetFingerprint(TrimSpace(c.fingerprint));
    ThreeHeaders([], TrimSpace(c.fingerprint) != "", fingerprint, !c.serviceTier.Absent?, SetTier(c.serviceTier),
                 c.usage.Value?, SetUsage(c.usage), h);
    var first := When(TrimSpace(c.fingerprint) != "", OnMeta(fingerprint));
    assert [] + first == first;
  }

  lemma MetaLogHeader(c: Chunk, h: Header)
    ensures LogHeader(MetaLog(c), h) == ChunkHeader(c, h)
  {
    FirstHeaders(c, h);
    RestHeaders(c, h);
    LogHeaderConcat(FirstMeta(c), RestMeta(c), h);
    MetaParts(c);
  }

  lemma MetaParts(c: Chunk)
    ensures MetaLog(c) == FirstMeta(c) + RestMeta(c)
  {
  }

  lemma {:induction false} NoHeader(ops: seq<Op>, h: Header)
    requires forall k :: 0 <= k < |ops| ==> ops[k].OnChoice?
    ensures LogHeader(ops, h) == None
    decreases ops
  {
    if ops != [] { NoHeader(ops[1..], h); }
  }

  lemma ChunkHeaded(st: State, c: Chunk, h: Header)
    requires st.status.Fine? && RunChunk(st, c).status.Fine?
    ensures HeaderAt(RunChunk(st, c).meta, h) == Or(ChunkHeader(c, h), HeaderAt(st.meta, h))
  {
    var log := PartsLog(Run(st, MetaLog(c)), c.choices);
    RunHeader(st, ChunkLog(st, c), h);
    MetaLogHeader(c, h);
    PartsLogNoMeta(Run(st, MetaLog(c)), c.choices);
    NoHeader(log, h);
    LogHeaderConcat(MetaLog(c), log, h);
  }

  lemma EventHeaded(st: State, e: Event, h: Header)
    requires st.status.Fine? && RunEvent(st, e).status.Fine?
    ensures HeaderAt(RunEvent(st, e).meta, h) ==
            Or(if e.Decoded? then ChunkHeader(e.chunk, h) else None, HeaderAt(st.meta, h))
  {
    if e.Decoded? { ChunkHeaded(st, e.chunk, h); }
  }

  lemma {:induction false} EventsHeaded(st: State, es: seq<Event>, h: Header)
    requires st.status.Fine? && RunEvents(st, es).status.Fine?
    ensures HeaderAt(RunEvents(st, es).meta, h) == Or(EventsHeader(es, h), HeaderAt(st.meta, h))
    decreases es
  {
    if es != [] {
      var next := RunEvent(st, es[0]);
      if !next.status.Fine? { EventsAfterError(next, es[1..]); }
      EventHeaded(st, es[0], h);
      EventsHeaded(next, es[1..], h);
    }
  }

  /**
    For every stream captured without error: id, model, creation time, fingerprint, service tier and
    usage are the last values carried.
   */
  lemma HeadersAreLast(es: seq<Event>, h: Header)
    requires RunEvents(NEW_STATE, es).status.Fine?
    ensures HeaderAt(RunEvents(NEW_STATE, es).meta, h) == Or(EventsHeader(es, h), HeaderAt(NEW_META, h))
  {
    EventsHeaded(NEW_STATE, es, h);
  }

  // ---------------------------------------------------------------- which choices there are, and the end

  predicate Carries(parts: seq<Option<ChoicePart>>, i: int) {
    exists k :: 0 <= k < |parts| && parts[k].Some? && ForChoice(parts[k].value, i)
  }

  predicate CarriesChoice(es: seq<Event>, i: int) {
    exists k :: 0 <= k < |es| && es[k].Decoded? && Carries(es[k].chunk.choices, i)
  }

  predicate Ends(es: seq<Event>) {
    exists k :: 0 <= k < |es| && es[k].Done?
  }

  lemma {:induction false} TouchedOne(ops: seq<Op>, i: int)
    requires AllOn(ops, i)
    ensures Touched(ops) == if ops == [] then {} else {i}
  {
    if ops != [] { TouchedOne(ops[1..], i); }
  }

  lemma {:induction false} PartsTouch(st: State, parts: seq<Option<ChoicePart>>, i: int)
    ensures i in Touched(PartsLog(st, parts)) <==> Carries(parts, i)
    decreases parts
  {
    if parts != [] {
      var rest := parts[1..];
      CarriesStep(parts, i);
      if parts[0].None? {
        PartsTouch(st, rest, i);
      } else {
        var log := PartLog(st, parts[0].value);
        PartLogOn(st, parts[0].value);
        TouchedOne(log, PartIndex(parts[0].value));
        PartsTouch(Run(st, log), rest, i);
        MetaEditsConcat(log, PartsLog(Run(st, log), rest));
      }
    }
  }

  lemma CarriesStep(parts: seq<Option<ChoicePart>>, i: int)
    requires parts != []
    ensures Carries(parts, i) <==> (parts[0].Some? && ForChoice(parts[0].value, i)) || Carries(parts[1..], i)
  {
    if Carries(parts[1..], i) {
      var k :| 0 <= k < |parts[1..]| && parts[1..][k].Some? && ForChoice(parts[1..][k].value, i);
      assert parts[k + 1] == parts[1..][k];
    }
    if Carries(parts, i) {
      var k :| 0 <= k < |parts| && parts[k].Some? && ForChoice(parts[k].value, i);
      assert k > 0 ==> parts[1..][k - 1] == parts[k];
    }
  }

  lemma {:induction false} MetaTouchesNone(ops: seq<Op>)
    requires MetaOnly(ops)
    ensures Touched(ops) == {}
  {
    if ops != [] { MetaTouchesNone(ops[1..]); }
  }

  lemma ChunkKeys(st: State, c: Chunk, i: int)
    requires st.status.Fine? && RunChunk(st, c).status.Fine?
    ensures RunChunk(st, c).done == st.done
    ensures i in RunChunk(st, c).choices <==> i in st.choices || Carries(c.choices, i)
  {
    RunAssembles(st, ChunkLog(st, c));
    MetaLogShape(c);
    MetaTouchesNone(MetaLog(c));
    MetaEditsConcat(MetaLog(c), PartsLog(Run(st, MetaLog(c)), c.choices));
    PartsTouch(Run(st, MetaLog(c)), c.choices, i);
  }

  lemma CarryStep(es: seq<Event>, i: int)
    requires es != []
    ensures CarriesChoice(es, i) <==> (es[0].Decoded? && Carries(es[0].chunk.choices, i)) || CarriesChoice(es[1..], i)
    ensures Ends(es) <==> es[0].Done? || Ends(es[1..])
  {
    if CarriesChoice(es[1..], i) {
      var k :| 0 <= k < |es[1..]| && es[1..][k].Decoded? && Carries(es[1..][k].chunk.choices, i);
      assert es[k + 1] == es[1..][k];
    }
    if CarriesChoice(es, i) {
      var k :| 0 <= k < |es| && es[k].Decoded? && Carries(es[k].chunk.choices, i);
      assert k > 0 ==> es[1..][k - 1] == es[k];
    }
    if Ends(es[1..]) {
      var k :| 0 <= k < |es[1..]| && es[1..][k].Done?;
      assert es[k + 1] == es[1..][k];
    }
    if Ends(es) {
      var k :| 0 <= k < |es| && es[k].Done?;
      assert k > 0 ==> es[1..][k - 1] == es[k];
    }
  }

  /** The choices captured are those that a chunk carries a part of; the end is seen where it was sent. */
  lemma {:induction false} ChoicesAreCarried(st: State, es: seq<Event>, i: int)
    requires st.status.Fine? && RunEvents(st, es).status.Fine?
    ensures i in RunEvents(st, es).choices <==> i in st.choices || CarriesChoice(es, i)
    ensures RunEvents(st, es).done <==> st.done || Ends(es)
    decreases es
  {
    if es != [] {
      var next := RunEvent(st, es[0]);
      if !next.status.Fine? { EventsAfterError(next, es[1..]); }
      if es[0].Decoded? { ChunkKeys(st, es[0].chunk, i); }
      CarryStep(es, i);
      ChoicesAreCarried(next, es[1..], i);
    }
  }
}
