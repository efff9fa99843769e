/** The capture object: lines come in, choices are assembled in place under a byte budget. */
module StreamCapture {
  import opened Wrappers
  import opened Text
  import opened StreamState

  class Capture {
    var status: Status
    var done: bool
    var capturedBytes: nat
    var meta: Meta
    var choices: map<int, Choice>
    const requestID: string

    constructor (requestID: string)
      ensures View() == NEW_STATE && this.requestID == TrimSpace(requestID)
    {
      status, done, capturedBytes := Fine, false, 0;
      meta, choices := NEW_META, map[];
      this.requestID := TrimSpace(requestID);
    }

    /** The captured state as a value. */
    function View(): State
      reads this
    {
      State(status, done, capturedBytes, meta, choices)
    }

    method CaptureLine(decode: string -> Option<Chunk>, line: string)
      modifies this
      ensures View() == RunEvent(old(View()), EventOf(decode, line))
    {
      if !status.Fine? {
        return;
      }
      if !("data:" <= line) {
        return;
      }
      var payload := TrimSpace(line[5..]);
      if payload == "" {
        return;
      }
      if payload == "[DONE]" {
        done := true;
        return;
      }
      var chunk := decode(payload);
      if chunk.None? {
        status := Undecodable;
        return;
      }
      CaptureChunk(chunk.value);
    }

    method CaptureChunk(chunk: Chunk)
      requires status.Fine?
      modifies this
      ensures View() == RunChunk(old(View()), chunk)
    {
      CaptureMeta(chunk);
      ghost var start := View();
      RunConcat(old(View()), MetaLog(chunk), PartsLog(start, chunk.choices));
      for k := 0 to |chunk.choices|
        invariant Run(start, PartsLog(start, chunk.choices)) == Run(View(), PartsLog(View(), chunk.choices[k..]))
        invariant status.Fine?
      {
        ghost var rest := chunk.choices[k..];
        assert rest[0] == chunk.choices[k] && rest[1..] == chunk.choices[k + 1..];
        if chunk.choices[k].None? {
          continue;
        }
        ghost var before := View();
        CapturePart(chunk.choices[k].value);
        RunConcat(before, PartLog(before, rest[0].value), PartsLog(View(), rest[1..]));
        if !status.Fine? {
          RunAfterError(View(), PartsLog(View(), rest[1..]));
          return;
        }
      }
    }

    method CaptureMeta(chunk: Chunk)
      requires status.Fine?
      modifies this
      ensures View() == Run(old(View()), MetaLog(chunk)) && status.Fine?
    {
      var id, model, fingerprint := TrimSpace(chunk.id), TrimSpace(chunk.model), TrimSpace(chunk.fingerprint);
      var m := meta;
      if id != "" {
        m := m.(id := id);
      }
      if model != "" {
        m := m.(model := model);
      }
      if chunk.created.Some? {
        m := m.(created := chunk.created.value);
      }
      if fingerprint != "" {
        m := m.(fingerprint := fingerprint);
      }
      if !chunk.serviceTier.Absent? {
        m := m.(serviceTier := chunk.serviceTier);
      }
      if chunk.usage.Value? {
        m := m.(usage := chunk.usage);
      }
      meta := m;
      MetaRun(old(View()), chunk);
    }

    /** Store an edit of a choice that writes no text, creating the choice if need be. */
    method Store(op: Op)
      requires status.Fine? && op.OnChoice? && OpBytes(op) == 0
      modifies this
      ensures View() == RunOp(old(View()), op) && status.Fine?
    {
      choices := choices[op.i := EditChoice(ChoiceAt(choices, op.i), op.edit)];
    }

    /** Append to one of the builders of a choice, within the budget. */
    method WriteString(op: Op)
      requires status.Fine? && op.OnChoice? && OpBytes(op) > 0
      modifies this
      ensures View() == RunOp(old(View()), op)
    {
      var next := capturedBytes + OpBytes(op);
      if next > MAX_BYTES {
        status := TooLarge;
        return;
      }
      choices := choices[op.i := EditChoice(ChoiceAt(choices, op.i), op.edit)];
      capturedBytes := next;
    }

    method CapturePart(part: ChoicePart)
      requires status.Fine?
      modifies this
      ensures View() == Run(old(View()), PartLog(old(View()), part))
    {
      var i := PartIndex(part);
      HeadRun(old(View()), part);
      Store(OnChoice(i, TouchChoice));
      if part.finishReason.Value? {
        Store(OnChoice(i, SetFinish(part.finishReason)));
      }
      if !part.logprobs.Absent? {
        Store(OnChoice(i, SetLogprobs(part.logprobs)));
      }
      if part.delta.None? {
        assert HeadLog(part) + [] == HeadLog(part);
        return;
      }
      RunConcat(old(View()), HeadLog(part), DeltaLog(View(), i, part.delta.value));
      CaptureDelta(i, part.delta.value);
    }

    method CaptureDelta(i: int, d: Delta)
      requires status.Fine?
      modifies this
      ensures View() == Run(old(View()), DeltaLog(old(View()), i, d))
    {
      CaptureText(i, d);
      RunConcat(old(View()), TextLog(i, d), ToolsLog(View(), i, d.toolCalls));
      if !status.Fine? {
        RunAfterError(View(), ToolsLog(View(), i, d.toolCalls));
        return;
      }
      CaptureTools(i, d.toolCalls);
    }

    method CaptureText(i: int, d: Delta)
      requires status.Fine?
      modifies this
      ensures View() == Run(old(View()), TextLog(i, d))
    {
      TextRun(old(View()), i, d);
      if TrimSpace(d.role) != "" {
        Store(OnChoice(i, SetRole(TrimSpace(d.role))));
      }
      if d.content != "" {
        WriteString(OnChoice(i, AddContent(d.content)));
        if !status.Fine? {
          RunCallAfterError(View(), i, None, d.functionCall);
          return;
        }
      }
      if d.refusal != "" {
        WriteString(OnChoice(i, AddRefusal(d.refusal)));
        if !status.Fine? {
          RunCallAfterError(View(), i, None, d.functionCall);
          return;
        }
      }
      if d.functionCall.Some? {
        CallRun(View(), i, None, d.functionCall.value);
        MergeFunctionCall(i, None, d.functionCall.value);
      }
    }

    method CaptureTools(i: int, parts: seq<Option<ToolPart>>)
      requires status.Fine?
      modifies this
      ensures View() == Run(old(View()), ToolsLog(old(View()), i, parts))
    {
      ghost var start := View();
      for k := 0 to |parts|
        invariant status.Fine?
        invariant Run(start, ToolsLog(start, i, parts)) == Run(View(), ToolsLog(View(), i, parts[k..]))
      {
        ghost var rest := parts[k..];
        assert rest[0] == parts[k] && rest[1..] == parts[k + 1..];
        if parts[k].None? {
          continue;
        }
        var part := parts[k].value;
        var t := if part.index.Some? then part.index.value else |ChoiceAt(choices, i).tools|;
        ghost var before := View();
        CaptureTool(i, t, part);
        RunConcat(before, ToolLog(i, t, part), ToolsLog(View(), i, rest[1..]));
        if !status.Fine? {
          RunAfterError(View(), ToolsLog(View(), i, rest[1..]));
          return;
        }
      }
    }

    method CaptureTool(i: int, t: int, part: ToolPart)
      requires status.Fine?
      modifies this
      ensures View() == Run(old(View()), ToolLog(i, t, part))
    {
      ToolRun(old(View()), i, t, part);
      Store(OnChoice(i, OnTool(t, TouchTool)));
      if TrimSpace(part.id) != "" {
        Store(OnChoice(i, OnTool(t, SetToolId(TrimSpace(part.id)))));
      }
      if TrimSpace(part.kind) != "" {
        Store(OnChoice(i, OnTool(t, SetKind(TrimSpace(part.kind)))));
      }
      if part.function_.Some? {
        CallRun(View(), i, Some(t), part.function_.value);
        MergeFunctionCall(i, Some(t), part.function_.value);
      }
    }

    /** Append name and arguments to the call of a choice, or to that of one of its tools. */
    method MergeFunctionCall(i: int, tool: Option<int>, f: FunctionPart)
      requires status.Fine?
      modifies this
      ensures View() == Run(old(View()), CallLog(i, tool, f))
    {
      CallRun(old(View()), i, tool, f);
      Store(Target(i, tool, TouchCall));
      if f.name != "" {
        WriteString(Target(i, tool, AddName(f.name)));
        if !status.Fine? {
          return;
        }
      }
      if f.arguments != "" {
        WriteString(Target(i, tool, AddArguments(f.arguments)));
      }
    }
  }

  // ---------------------------------------------------------------- short logs, step by step

  function Maybe(st: State, b: bool, op: Op): State {
    if b then RunOp(st, op) else st
  }

  lemma RunWhen(st: State, log: seq<Op>, b: bool, op: Op)
    ensures Run(st, log + When(b, op)) == Maybe(Run(st, log), b, op)
  {
    RunConcat(st, log, When(b, op));
    if b { assert [op][1..] == []; }
  }

  lemma RunOne(st: State, op: Op)
    ensures Run(st, [op]) == RunOp(st, op)
  {
    assert [op][1..] == [];
  }

  function RunCall(st: State, i: int, tool: Option<int>, f: Option<FunctionPart>): State {
    if f.None? then st
    else
      Maybe(Maybe(RunOp(st, Target(i, tool, TouchCall)),
                  f.value.name != "", Target(i, tool, AddName(f.value.name))),
            f.value.arguments != "", Target(i, tool, AddArguments(f.value.arguments)))
  }

  lemma CallRun(st: State, i: int, tool: Option<int>, f: FunctionPart)
    ensures Run(st, CallLog(i, tool, f)) == RunCall(st, i, tool, Some(f))
  {
    var touch := [Target(i, tool, TouchCall)];
    RunOne(st, touch[0]);
    RunWhen(st, touch, f.name != "", Target(i, tool, AddName(f.name)));
    RunWhen(st, touch + When(f.name != "", Target(i, tool, AddName(f.name))),
            f.arguments != "", Target(i, tool, AddArguments(f.arguments)));
  }

  lemma RunCallAfterError(st: State, i: int, tool: Option<int>, f: Option<FunctionPart>)
    requires !st.status.Fine?
    ensures RunCall(st, i, tool, f) == st
  {
  }

  lemma RunOptionalCall(st: State, log: seq<Op>, i: int, tool: Option<int>, f: Option<FunctionPart>)
    ensures Run(st, log + (if f.Some? then CallLog(i, tool, f.value) else [])) == RunCall(Run(st, log), i, tool, f)
  {
    if f.Some? {
      RunConcat(st, log, CallLog(i, tool, f.value));
      CallRun(Run(st, log), i, tool, f.value);
    } else {
      assert log + [] == log;
    }
  }

  lemma ToolRun(st: State, i: int, t: int, p: ToolPart)
    ensures Run(st, ToolLog(i, t, p)) ==
            RunCall(Maybe(Maybe(RunOp(st, OnChoice(i, OnTool(t, TouchTool))),
                                TrimSpace(p.id) != "", OnChoice(i, OnTool(t, SetToolId(TrimSpace(p.id))))),
                          TrimSpace(p.kind) != "", OnChoice(i, OnTool(t, SetKind(TrimSpace(p.kind))))),
                    i, Some(t), p.function_)
  {
    var touch := [OnChoice(i, OnTool(t, TouchTool))];
    var id := When(TrimSpace(p.id) != "", OnChoice(i, OnTool(t, SetToolId(TrimSpace(p.id)))));
    var kind := When(TrimSpace(p.kind) != "", OnChoice(i, OnTool(t, SetKind(TrimSpace(p.kind)))));
    RunOne(st, touch[0]);
    RunWhen(st, touch, TrimSpace(p.id) != "", OnChoice(i, OnTool(t, SetToolId(TrimSpace(p.id)))));
    RunWhen(st, touch + id, TrimSpace(p.kind) != "", OnChoice(i, OnTool(t, SetKind(TrimSpace(p.kind)))));
    RunOptionalCall(st, touch + id + kind, i, Some(t), p.function_);
  }

  lemma TextRun(st: State, i: int, d: Delta)
    ensures Run(st, TextLog(i, d)) ==
            RunCall(Maybe(Maybe(Maybe(st, TrimSpace(d.role) != "", OnChoice(i, SetRole(TrimSpace(d.role)))),
                                d.content != "", OnChoice(i, AddContent(d.content))),
                          d.refusal != "", OnChoice(i, AddRefusal(d.refusal))),
                    i, None, d.functionCall)
  {
    var role := When(TrimSpace(d.role) != "", OnChoice(i, SetRole(TrimSpace(d.role))));
    var content := When(d.content != "", OnChoice(i, AddContent(d.content)));
    var refusal := When(d.refusal != "", OnChoice(i, AddRefusal(d.refusal)));
    RunWhen(st, [], TrimSpace(d.role) != "", OnChoice(i, SetRole(TrimSpace(d.role))));
    assert [] + role == role;
    RunWhen(st, role, d.content != "", OnChoice(i, AddContent(d.content)));
    RunWhen(st, role + content, d.refusal != "", OnChoice(i, AddRefusal(d.refusal)));
    RunOptionalCall(st, role + content + refusal, i, None, d.functionCall);
  }

  lemma HeadRun(st: State, p: ChoicePart)
    ensures var i := PartIndex(p);
            Run(st, HeadLog(p)) ==
            Maybe(Maybe(RunOp(st, OnChoice(i, TouchChoice)), p.finishReason.Value?,
                        OnChoice(i, SetFinish(p.finishReason))),
                  !p.logprobs.Absent?, OnChoice(i, SetLogprobs(p.logprobs)))
  {
    var i := PartIndex(p);
    var touch := [OnChoice(i, TouchChoice)];
    RunOne(st, touch[0]);
    RunWhen(st, touch, p.finishReason.Value?, OnChoice(i, SetFinish(p.finishReason)));
    RunWhen(st, touch + When(p.finishReason.Value?, OnChoice(i, SetFinish(p.finishReason))),
            !p.logprobs.Absent?, OnChoice(i, SetLogprobs(p.logprobs)));
  }

  lemma MetaRun(st: State, c: Chunk)
    ensures Run(st, MetaLog(c)) ==
            Maybe(Maybe(Maybe(Maybe(Maybe(Maybe(st,
              TrimSpace(c.id) != "", OnMeta(SetId(TrimSpace(c.id)))),
              TrimSpace(c.model) != "", OnMeta(SetModel(TrimSpace(c.model)))),
              c.created.Some?, OnMeta(SetCreated(if c.created.Some? then c.created.value else 0))),
              TrimSpace(c.fingerprint) != "", OnMeta(SetFingerprint(TrimSpace(c.fingerprint)))),
              !c.serviceTier.Absent?, OnMeta(SetTier(c.serviceTier))),
              c.usage.Value?, OnMeta(SetUsage(c.usage)))
  {
    var created := OnMeta(SetCreated(if c.created.Some? then c.created.value else 0));
    var a := When(TrimSpace(c.id) != "", OnMeta(SetId(TrimSpace(c.id))));
    var b := When(TrimSpace(c.model) != "", OnMeta(SetModel(TrimSpace(c.model))));
    var d := When(c.created.Some?, created);
    var e := When(TrimSpace(c.fingerprint) != "", OnMeta(SetFingerprint(TrimSpace(c.fingerprint))));
    var f := When(!c.serviceTier.Absent?, OnMeta(SetTier(c.serviceTier)));
    RunWhen(st, [], TrimSpace(c.id) != "", OnMeta(SetId(TrimSpace(c.id))));
    assert [] + a == a;
    RunWhen(st, a, TrimSpace(c.model) != "", OnMeta(SetModel(TrimSpace(c.model))));
    RunWhen(st, a + b, c.created.Some?, created);
    RunWhen(st, a + b + d, TrimSpace(c.fingerprint) != "", OnMeta(SetFingerprint(TrimSpace(c.fingerprint))));
    RunWhen(st, a + b + d + e, !c.serviceTier.Absent?, OnMeta(SetTier(c.serviceTier)));
    RunWhen(st, a + b + d + e + f, c.usage.Value?, OnMeta(SetUsage(c.usage)));
  }
}
