/**
  What a capture of a streamed chat completion holds, and the elementary edits its chunks
  amount to (internal/httpapi/chat_completion_stream_store.go).
 */
module StreamState {
  import opened Wrappers
  import opened Text

  /** A JSON member that may be missing, null, or hold something. */
  datatype Field = Absent | Null | Value(json: string)

  // ---------------------------------------------------------------- chunks

  datatype FunctionPart = FunctionPart(name: string, arguments: string)

  datatype ToolPart = ToolPart(index: Option<int>, id: string, kind: string, function_: Option<FunctionPart>)

  datatype Delta = Delta(
    role: string,
    content: string,
    refusal: string,
    functionCall: Option<FunctionPart>,
    toolCalls: seq<Option<ToolPart>>)

  datatype ChoicePart = ChoicePart(index: Option<int>, finishReason: Field, logprobs: Field, delta: Option<Delta>)

  /** A decoded chunk; entries of its lists that are not objects are `None`. */
  datatype Chunk = Chunk(
    id: string,
    model: string,
    created: Option<int>,
    fingerprint: string,
    serviceTier: Field,
    usage: Field,
    choices: seq<Option<ChoicePart>>)

  // ---------------------------------------------------------------- state

  datatype Call = Call(name: string, arguments: string)

  datatype Tool = Tool(id: string, kind: string, call: Option<Call>)

  datatype Choice = Choice(
    role: string,
    content: string,
    refusal: string,
    finishReason: Field,
    logprobs: Field,
    call: Option<Call>,
    tools: map<int, Tool>)

  datatype Meta = Meta(id: string, model: string, created: int, fingerprint: string, serviceTier: Field, usage: Field)

  datatype Status = Fine | Undecodable | TooLarge

  datatype State = State(status: Status, done: bool, bytes: nat, meta: Meta, choices: map<int, Choice>)

  const NEW_CALL := Call("", "")
  const NEW_TOOL := Tool("", "", None)
  const NEW_CHOICE := Choice("", "", "", Absent, Absent, None, map[])
  const NEW_META := Meta("", "", 0, "", Absent, Absent)
  const NEW_STATE := State(Fine, false, 0, NEW_META, map[])

  const MAX_BYTES := 8 * 1024 * 1024

  // ---------------------------------------------------------------- edits

  datatype MetaEdit = SetId(s: string) | SetModel(s: string) | SetCreated(n: int) | SetFingerprint(s: string)
                    | SetTier(f: Field) | SetUsage(f: Field)

  datatype CallEdit = TouchCall | AddName(s: string) | AddArguments(s: string)

  datatype ToolEdit = TouchTool | SetToolId(s: string) | SetKind(s: string) | OnFunction(call: CallEdit)

  datatype ChoiceEdit = TouchChoice | SetFinish(f: Field) | SetLogprobs(f: Field) | SetRole(s: string)
                      | AddContent(s: string) | AddRefusal(s: string) | OnCall(call: CallEdit)
                      | OnTool(t: int, tool: ToolEdit)

  datatype Op = OnMeta(meta: MetaEdit) | OnChoice(i: int, edit: ChoiceEdit)

  function EditMeta(m: Meta, e: MetaEdit): Meta {
    match e
    case SetId(s) => m.(id := s)
    case SetModel(s) => m.(model := s)
    case SetCreated(n) => m.(created := n)
    case SetFingerprint(s) => m.(fingerprint := s)
    case SetTier(f) => m.(serviceTier := f)
    case SetUsage(f) => m.(usage := f)
  }

  function CallOf(c: Option<Call>): Call {
    if c.None? then NEW_CALL else c.value
  }

  function EditCall(c: Option<Call>, e: CallEdit): Option<Call> {
    var call := CallOf(c);
    match e
    case TouchCall => Some(call)
    case AddName(s) => Some(call.(name := call.name + s))
    case AddArguments(s) => Some(call.(arguments := call.arguments + s))
  }

  function EditTool(t: Tool, e: ToolEdit): Tool {
    match e
    case TouchTool => t
    case SetToolId(s) => t.(id := s)
    case SetKind(s) => t.(kind := s)
    case OnFunction(call) => t.(call := EditCall(t.call, call))
  }

  function ToolAt(tools: map<int, Tool>, t: int): Tool {
    if t in tools then tools[t] else NEW_TOOL
  }

  function EditChoice(c: Choice, e: ChoiceEdit): Choice {
    match e
    case TouchChoice => c
    case SetFinish(f) => c.(finishReason := f)
    case SetLogprobs(f) => c.(logprobs := f)
    case SetRole(s) => c.(role := s)
    case AddContent(s) => c.(content := c.content + s)
    case AddRefusal(s) => c.(refusal := c.refusal + s)
    case OnCall(call) => c.(call := EditCall(c.call, call))
    case OnTool(t, tool) => c.(tools := c.tools[t := EditTool(ToolAt(c.tools, t), tool)])
  }

  function ChoiceAt(choices: map<int, Choice>, i: int): Choice {
    if i in choices then choices[i] else NEW_CHOICE
  }

  // ---------------------------------------------------------------- the byte budget

  function CallBytes(e: CallEdit): nat {
    match e
    case TouchCall => 0
    case AddName(s) => ByteLen(s)
    case AddArguments(s) => ByteLen(s)
  }

  function EditBytes(e: ChoiceEdit): nat {
    match e
    case AddContent(s) => ByteLen(s)
    case AddRefusal(s) => ByteLen(s)
    case OnCall(call) => CallBytes(call)
    case OnTool(_, OnFunction(call)) => CallBytes(call)
    case _ => 0
  }

  function OpBytes(op: Op): nat {
    match op
    case OnMeta(_) => 0
    case OnChoice(_, e) => EditBytes(e)
  }

  function Apply(st: State, op: Op): State {
    match op
    case OnMeta(e) => st.(meta := EditMeta(st.meta, e))
    case OnChoice(i, e) =>
      st.(choices := st.choices[i := EditChoice(ChoiceAt(st.choices, i), e)], bytes := st.bytes + EditBytes(e))
  }

  /** One edit: nothing after an error, an error instead of a fragment beyond the limit. */
  function RunOp(st: State, op: Op): State {
    if !st.status.Fine? then st
    else if OpBytes(op) > 0 && st.bytes + OpBytes(op) > MAX_BYTES then st.(status := TooLarge)
    else Apply(st, op)
  }

  function Run(st: State, ops: seq<Op>): State
    decreases ops
  {
    if ops == [] then st else Run(RunOp(st, ops[0]), ops[1..])
  }

  lemma {:induction false} RunConcat(st: State, a: seq<Op>, b: seq<Op>)
    ensures Run(st, a + b) == Run(Run(st, a), b)
    decreases a
  {
    if a == [] {
      assert a + b == b;
    } else {
      assert (a + b)[1..] == a[1..] + b;
      RunConcat(RunOp(st, a[0]), a[1..], b);
    }
  }

  /** An error is final. */
  lemma {:induction false} RunAfterError(st: State, ops: seq<Op>)
    requires !st.status.Fine?
    ensures Run(st, ops) == st
    decreases ops
  {
    if ops != [] { RunAfterError(st, ops[1..]); }
  }

  // ---------------------------------------------------------------- what a chunk does

  function When(b: bool, op: Op): seq<Op> {
    if b then [op] else []
  }

  /** The edits of the metadata a chunk carries. */
  function MetaLog(c: Chunk): seq<Op> {
    When(TrimSpace(c.id) != "", OnMeta(SetId(TrimSpace(c.id))))
    + When(TrimSpace(c.model) != "", OnMeta(SetModel(TrimSpace(c.model))))
    + When(c.created.Some?, OnMeta(SetCreated(if c.created.Some? then c.created.value else 0)))
    + When(TrimSpace(c.fingerprint) != "", OnMeta(SetFingerprint(TrimSpace(c.fingerprint))))
    + When(!c.serviceTier.Absent?, OnMeta(SetTier(c.serviceTier)))
    + When(c.usage.Value?, OnMeta(SetUsage(c.usage)))
  }

  predicate MetaOnly(ops: seq<Op>) {
    forall k :: 0 <= k < |ops| ==> ops[k].OnMeta?
  }

  lemma MetaWhen(ops: seq<Op>, b: bool, e: MetaEdit)
    requires MetaOnly(ops)
    ensures MetaOnly(ops + When(b, OnMeta(e)))
  {
  }

  lemma MetaLogShape(c: Chunk)
    ensures MetaOnly(MetaLog(c))
  {
    var id := When(TrimSpace(c.id) != "", OnMeta(SetId(TrimSpace(c.id))));
    MetaWhen(id, TrimSpace(c.model) != "", SetModel(TrimSpace(c.model)));
    MetaRest(id + When(TrimSpace(c.model) != "", OnMeta(SetModel(TrimSpace(c.model)))), c);
  }

  lemma MetaRest(ops: seq<Op>, c: Chunk)
    requires MetaOnly(ops)
    ensures MetaOnly(ops
                     + When(c.created.Some?, OnMeta(SetCreated(if c.created.Some? then c.created.value else 0)))
                     + When(TrimSpace(c.fingerprint) != "", OnMeta(SetFingerprint(TrimSpace(c.fingerprint))))
                     + When(!c.serviceTier.Absent?, OnMeta(SetTier(c.serviceTier)))
                     + When(c.usage.Value?, OnMeta(SetUsage(c.usage))))
  {
    var created := SetCreated(if c.created.Some? then c.created.value else 0);
    MetaWhen(ops, c.created.Some?, created);
    var a := ops + When(c.created.Some?, OnMeta(created));
    MetaWhen(a, TrimSpace(c.fingerprint) != "", SetFingerprint(TrimSpace(c.fingerprint)));
    var b := a + When(TrimSpace(c.fingerprint) != "", OnMeta(SetFingerprint(TrimSpace(c.fingerprint))));
    MetaWhen(b, !c.serviceTier.Absent?, SetTier(c.serviceTier));
    MetaWhen(b + When(!c.serviceTier.Absent?, OnMeta(SetTier(c.serviceTier))), c.usage.Value?, SetUsage(c.usage));
  }

  /** An edit of the function call of a choice, or of that of one of its tools. */
  function Target(i: int, tool: Option<int>, e: CallEdit): Op {
    OnChoice(i, if tool.None? then OnCall(e) else OnTool(tool.value, OnFunction(e)))
  }

  function CallLog(i: int, tool: Option<int>, f: FunctionPart): seq<Op> {
    [Target(i, tool, TouchCall)]
    + When(f.name != "", Target(i, tool, AddName(f.name)))
    + When(f.arguments != "", Target(i, tool, AddArguments(f.arguments)))
  }

  function ToolLog(i: int, t: int, p: ToolPart): seq<Op> {
    [OnChoice(i, OnTool(t, TouchTool))]
    + When(TrimSpace(p.id) != "", OnChoice(i, OnTool(t, SetToolId(TrimSpace(p.id)))))
    + When(TrimSpace(p.kind) != "", OnChoice(i, OnTool(t, SetKind(TrimSpace(p.kind)))))
    + (if p.function_.Some? then CallLog(i, Some(t), p.function_.value) else [])
  }

  /** A tool call without an index is the next one: its index is the number of those known. */
  function ToolIndex(st: State, i: int, p: ToolPart): int {
    if p.index.Some? then p.index.value else |ChoiceAt(st.choices, i).tools|
  }

  function ToolsLog(st: State, i: int, parts: seq<Option<ToolPart>>): seq<Op>
    decreases parts
  {
    if parts == [] then []
    else if parts[0].None? then ToolsLog(st, i, parts[1..])
    else
      var log := ToolLog(i, ToolIndex(st, i, parts[0].value), parts[0].value);
      log + ToolsLog(Run(st, log), i, parts[1..])
  }

  /** The part of a delta that does not concern tool calls. */
  function TextLog(i: int, d: Delta): seq<Op> {
    When(TrimSpace(d.role) != "", OnChoice(i, SetRole(TrimSpace(d.role))))
    + When(d.content != "", OnChoice(i, AddContent(d.content)))
    + When(d.refusal != "", OnChoice(i, AddRefusal(d.refusal)))
    + (if d.functionCall.Some? then CallLog(i, None, d.functionCall.value) else [])
  }

  function DeltaLog(st: State, i: int, d: Delta): seq<Op> {
    TextLog(i, d) + ToolsLog(Run(st, TextLog(i, d)), i, d.toolCalls)
  }

  /** A choice without an index is choice 0. */
  function PartIndex(p: ChoicePart): int {
    if p.index.Some? then p.index.value else 0
  }

  function HeadLog(p: ChoicePart): seq<Op> {
    var i := PartIndex(p);
    [OnChoice(i, TouchChoice)]
    + When(p.finishReason.Value?, OnChoice(i, SetFinish(p.finishReason)))
    + When(!p.logprobs.Absent?, OnChoice(i, SetLogprobs(p.logprobs)))
  }

  function PartLog(st: State, p: ChoicePart): seq<Op> {
    HeadLog(p) + if p.delta.Some? then DeltaLog(Run(st, HeadLog(p)), PartIndex(p), p.delta.value) else []
  }

  function PartsLog(st: State, parts: seq<Option<ChoicePart>>): seq<Op>
    decreases parts
  {
    if parts == [] then []
    else if parts[0].None? then PartsLog(st, parts[1..])
    else
      var log := PartLog(st, parts[0].value);
      log + PartsLog(Run(st, log), parts[1..])
  }

  /** Everything a chunk does, in order, as elementary edits. */
  function ChunkLog(st: State, c: Chunk): seq<Op> {
    MetaLog(c) + PartsLog(Run(st, MetaLog(c)), c.choices)
  }

  function RunChunk(st: State, c: Chunk): State {
    Run(st, ChunkLog(st, c))
  }

  // ---------------------------------------------------------------- lines

  datatype Event = Ignored | Done | Broken | Decoded(chunk: Chunk)

  function EventOf(decode: string -> Option<Chunk>, line: string): Event {
    if !("data:" <= line) then Ignored
    else
      var payload := TrimSpace(line[5..]);
      if payload == "" then Ignored
      else if payload == "[DONE]" then Done
      else match decode(payload)
        case None => Broken
        case Some(c) => Decoded(c)
  }

  function RunEvent(st: State, e: Event): State {
    if !st.status.Fine? then st
    else match e
      case Ignored => st
      case Done => st.(done := true)
      case Broken => st.(status := Undecodable)
      case Decoded(c) => RunChunk(st, c)
  }

  function RunEvents(st: State, es: seq<Event>): State
    decreases es
  {
    if es == [] then st else RunEvents(RunEvent(st, es[0]), es[1..])
  }
}
