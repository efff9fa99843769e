/** The rebuilt response, read off the stream: what each of its fields is in terms of the chunks' fields. */
module StreamResult {
  import opened Wrappers
  import opened Text
  import opened StreamState
  import opened StreamBudget
  import opened StreamText
  import opened StreamResolve
  import opened StreamMarks
  import opened StreamResponse

  // ---------------------------------------------------------------- lines

  /** White space around a payload does not matter; a line with another field name does nothing. */
  lemma FramedLine(decode: string -> Option<Chunk>, a: string, payload: string, b: string, line: string)
    requires AllSpace(a) && AllSpace(b) && IsTrimmed(payload)
    ensures EventOf(decode, "data:" + a + payload + b) ==
            if payload == "" then Ignored
            else if payload == "[DONE]" then Done
            else if decode(payload).None? then Broken
            else Decoded(decode(payload).value)
    ensures !("data:" <= line) ==> EventOf(decode, line) == Ignored
  {
    var framed := "data:" + a + payload + b;
    assert framed == "data:" + (a + payload + b) && framed[5..] == a + payload + b;
    TrimAround(a, payload, b);
  }

  // ---------------------------------------------------------------- values of their own kind

  function WordsIn(o: Option<Held>): string {
    if o.Some? && o.value.Words? then o.value.s else ""
  }

  function FieldIn(o: Option<Held>): Field {
    if o.Some? && o.value.Json? then o.value.f else Absent
  }

  predicate IsWord(o: Option<Held>) {
    o.Some? ==> o.value.Words? && o.value.s != "" && TrimSpace(o.value.s) == o.value.s
  }

  /** A mark holds a value of its own kind; words are never blank. */
  predicate Suits(m: Mark, o: Option<Held>) {
    match m
    case Finish => o.Some? ==> o.value.Json?
    case Logprobs => o.Some? ==> o.value.Json?
    case HasCall => o.Some? ==> o.value == Flag(true)
    case HasToolCall(_) => o.Some? ==> o.value == Flag(true)
    case _ => IsWord(o)
  }

  predicate SuitsHeader(h: Header, o: Option<Held>) {
    match h
    case Created => o.Some? ==> o.value.Number?
    case Tier => o.Some? ==> o.value.Json?
    case Usage => o.Some? ==> o.value.Json? && o.value.f.Value?
    case _ => IsWord(o)
  }

  lemma NonBlankIsWord(s: string)
    ensures IsWord(NonBlank(s))
  {
    TrimTwice(s);
  }

  lemma {:induction false} ToolsSuit(parts: seq<Option<ToolPart>>, m: Mark)
    ensures Suits(m, ToolsMark(parts, m))
    decreases parts
  {
    if parts != [] {
      ToolsSuit(parts[1..], m);
      if parts[0].Some? {
        NonBlankIsWord(parts[0].value.id);
        NonBlankIsWord(parts[0].value.kind);
      }
    }
  }

  lemma PartSuits(p: ChoicePart, m: Mark)
    ensures Suits(m, PartMark(p, m))
  {
    if p.delta.Some? {
      NonBlankIsWord(p.delta.value.role);
      ToolsSuit(p.delta.value.toolCalls, m);
    }
  }

  lemma {:induction false} PartsSuit(parts: seq<Option<ChoicePart>>, i: int, m: Mark)
    ensures Suits(m, PartsMark(parts, i, m))
    decreases parts
  {
    if parts != [] {
      PartsSuit(parts[1..], i, m);
      if parts[0].Some? { PartSuits(parts[0].value, m); }
    }
  }

  lemma {:induction false} MarkSuits(es: seq<Event>, i: int, m: Mark)
    ensures Suits(m, EventsMark(es, i, m))
    decreases es
  {
    if es != [] {
      MarkSuits(es[1..], i, m);
      if es[0].Decoded? { PartsSuit(es[0].chunk.choices, i, m); }
    }
  }

  lemma {:induction false} HeaderSuits(es: seq<Event>, h: Header)
    ensures SuitsHeader(h, EventsHeader(es, h))
    decreases es
  {
    if es != [] {
      HeaderSuits(es[1..], h);
      if es[0].Decoded? {
        NonBlankIsWord(es[0].chunk.id);
        NonBlankIsWord(es[0].chunk.model);
        NonBlankIsWord(es[0].chunk.fingerprint);
      }
    }
  }

  // ---------------------------------------------------------------- what the stream says

  /** A call is told where one was carried and its name or its arguments hold more than white space. */
  function CallTold(es: seq<Event>, i: int, carried: bool, name: Slot, arguments: Slot): Option<Call> {
    var call := Call(EventsText(es, i, name), EventsText(es, i, arguments));
    if carried && (TrimSpace(call.name) != "" || TrimSpace(call.arguments) != "") then Some(call) else None
  }

  function ToolTold(es: seq<Event>, i: int, t: int): ToolOut {
    var kind := EventsMark(es, i, ToolKind(t));
    ToolOut(WordsIn(EventsMark(es, i, ToolId(t))), if kind.Some? then WordsIn(kind) else "function",
            CallTold(es, i, EventsMark(es, i, HasToolCall(t)).Some?, ToolName(t), ToolArguments(t)))
  }

  ghost predicate ToolsTold(es: seq<Event>, i: int, tools: set<int>, out: Option<seq<ToolOut>>) {
    if tools == {} then out.None?
    else
      out.Some? && exists xs :: Lists(xs, tools) && |xs| == |out.value| &&
                                forall k :: 0 <= k < |xs| ==> out.value[k] == ToolTold(es, i, xs[k])
  }

  /** `out` is what chunks whose tool calls bear their index tell of a choice with the given tool calls. */
  ghost predicate ChoiceTold(es: seq<Event>, tools: set<int>, out: ChoiceOut) {
    var i := out.index;
    var role, content := EventsMark(es, i, Role), EventsText(es, i, Content);
    var refusal := TrimSpace(EventsText(es, i, Refusal));
    var called := EventsMark(es, i, HasCall).Some?;
    && out.role == (if role.Some? then WordsIn(role) else "assistant")
    && out.content == (if content == "" && (called || tools != {}) then None else Some(content))
    && out.refusal == (if refusal != "" then Some(refusal) else None)
    && ToolsTold(es, i, tools, out.toolCalls)
    && out.functionCall == CallTold(es, i, called, CallName, CallArguments)
    && out.finishReason == FieldIn(EventsMark(es, i, Finish))
    && out.logprobs == FieldIn(EventsMark(es, i, StreamMarks.Logprobs))
  }

  function ModelTold(es: seq<Event>, request: Request): string {
    var model := EventsHeader(es, Model);
    if model.Some? then WordsIn(model) else TrimSpace(request.model)
  }

  /**
    A stream leads to a response exactly when every line decodes, the fragments stay within the limit,
    the end was sent, some chunk carries an id, the last creation time is not zero, the request can be
    read, and the stream or else the request names a model.
   */
  predicate Answers(es: seq<Event>, request: Option<Request>) {
    && NoBroken(es) && TotalBytes(es) <= 8_388_608 && Ends(es)
    && EventsHeader(es, Id).Some?
    && EventsHeader(es, Created).Some? && EventsHeader(es, Created) != Some(Number(0))
    && request.Some? && request.value.metadata.Some? && ModelTold(es, request.value) != ""
  }

  ghost predicate ChoicesTold(es: seq<Event>, out: seq<ChoiceOut>) {
    && (forall k, l :: 0 <= k < l < |out| ==> out[k].index < out[l].index)
    && (forall i :: CarriesChoice(es, i) <==> exists k :: 0 <= k < |out| && out[k].index == i)
    && (forall k :: 0 <= k < |out| ==>
          ChoiceTold(ResolvedEvents(map[], es), SeenAt(SeenAfter(map[], es), out[k].index), out[k]))
  }

  ghost predicate Told(es: seq<Event>, requestID: string, request: Request, r: Response) {
    var fingerprint, tier := EventsHeader(es, Fingerprint), FieldIn(EventsHeader(es, Tier));
    var usage := FieldIn(EventsHeader(es, Usage));
    && r.id == WordsIn(EventsHeader(es, Id)) && Some(Number(r.created)) == EventsHeader(es, Created)
    && r.model == ModelTold(es, request)
    && ChoicesTold(es, r.choices)
    && r.usage == (if usage.Value? then Some(usage.json) else None)
    && Some(r.metadata) == request.metadata
    && r.fingerprint == (if fingerprint.Some? then Some(WordsIn(fingerprint)) else None)
    && r.requestID == (if TrimSpace(requestID) != "" then Some(requestID) else None)
    && r.serviceTier == (if tier.Value? then Some(tier.json) else None)
  }

  // ---------------------------------------------------------------- and what is shown

  lemma MarkShown(es: seq<Event>, i: int, m: Mark)
    requires RunEvents(NEW_STATE, es).status.Fine?
    ensures var o := EventsMark(ResolvedEvents(map[], es), i, m);
            Suits(m, o) && MarkAt(ChoiceAt(RunEvents(NEW_STATE, es).choices, i), m) == Or(o, MarkAt(NEW_CHOICE, m))
  {
    MarksAreLast(es, i, m);
    MarkSuits(ResolvedEvents(map[], es), i, m);
  }

  lemma CallShown(es: seq<Event>, i: int)
    requires RunEvents(NEW_STATE, es).status.Fine?
    ensures var rs := ResolvedEvents(map[], es);
            ShownCall(ChoiceAt(RunEvents(NEW_STATE, es).choices, i).call) ==
            CallTold(rs, i, EventsMark(rs, i, HasCall).Some?, CallName, CallArguments)
  {
    MarkShown(es, i, HasCall);
    TextsAreConcatenations(es, i, CallName);
    TextsAreConcatenations(es, i, CallArguments);
  }

  lemma ToolCallShown(es: seq<Event>, i: int, t: int)
    requires RunEvents(NEW_STATE, es).status.Fine?
    ensures var rs := ResolvedEvents(map[], es);
            ShownCall(ToolAt(ChoiceAt(RunEvents(NEW_STATE, es).choices, i).tools, t).call) ==
            CallTold(rs, i, EventsMark(rs, i, HasToolCall(t)).Some?, ToolName(t), ToolArguments(t))
  {
    MarkShown(es, i, HasToolCall(t));
    TextsAreConcatenations(es, i, ToolName(t));
    TextsAreConcatenations(es, i, ToolArguments(t));
  }

  lemma ToolShown(es: seq<Event>, i: int, t: int)
    requires RunEvents(NEW_STATE, es).status.Fine?
    ensures ShownTool(ToolAt(ChoiceAt(RunEvents(NEW_STATE, es).choices, i).tools, t)) ==
            ToolTold(ResolvedEvents(map[], es), i, t)
  {
    MarkShown(es, i, ToolId(t));
    MarkShown(es, i, ToolKind(t));
    ToolCallShown(es, i, t);
    assert TrimSpace("") == "";
  }

  lemma ToolsShown(es: seq<Event>, i: int, out: Option<seq<ToolOut>>)
    requires RunEvents(NEW_STATE, es).status.Fine?
    requires ShowsTools(ChoiceAt(RunEvents(NEW_STATE, es).choices, i).tools, out)
    ensures ToolsTold(ResolvedEvents(map[], es), i, SeenAt(SeenAfter(map[], es), i), out)
  {
    var tools := ChoiceAt(RunEvents(NEW_STATE, es).choices, i).tools;
    KeysAreSeen(es, i);
    assert tools.Keys == SeenAt(SeenAfter(map[], es), i);
    if tools != map[] {
      var xs :| InOrder(tools, xs, out.value);
      forall k | 0 <= k < |xs| ensures out.value[k] == ToolTold(ResolvedEvents(map[], es), i, xs[k]) {
        ToolShown(es, i, xs[k]);
      }
    }
  }

  lemma ChoiceShown(es: seq<Event>, i: int, out: ChoiceOut)
    requires RunEvents(NEW_STATE, es).status.Fine? && Shows(i, ChoiceAt(RunEvents(NEW_STATE, es).choices, i), out)
    ensures ChoiceTold(ResolvedEvents(map[], es), SeenAt(SeenAfter(map[], es), i), out)
  {
    MarkShown(es, i, Role);
    MarkShown(es, i, Finish);
    MarkShown(es, i, StreamMarks.Logprobs);
    MarkShown(es, i, HasCall);
    CallShown(es, i);
    ToolsShown(es, i, out.toolCalls);
    KeysAreSeen(es, i);
    TextsAreConcatenations(es, i, Content);
    TextsAreConcatenations(es, i, Refusal);
    assert TrimSpace("") == "";
  }

  lemma ChoicesShown(es: seq<Event>, out: seq<ChoiceOut>)
    requires RunEvents(NEW_STATE, es).status.Fine? && ShowsChoices(RunEvents(NEW_STATE, es).choices, out)
    ensures ChoicesTold(es, out)
  {
    forall i ensures CarriesChoice(es, i) <==> i in RunEvents(NEW_STATE, es).choices {
      ChoicesAreCarried(NEW_STATE, es, i);
    }
    forall k | 0 <= k < |out|
      ensures ChoiceTold(ResolvedEvents(map[], es), SeenAt(SeenAfter(map[], es), out[k].index), out[k])
    {
      ChoiceShown(es, out[k].index, out[k]);
    }
  }

  lemma HeaderShown(es: seq<Event>, h: Header)
    requires RunEvents(NEW_STATE, es).status.Fine?
    ensures SuitsHeader(h, EventsHeader(es, h))
    ensures HeaderAt(RunEvents(NEW_STATE, es).meta, h) == Or(EventsHeader(es, h), HeaderAt(NEW_META, h))
  {
    HeadersAreLast(es, h);
    HeaderSuits(es, h);
  }

  lemma ModelShown(es: seq<Event>, request: Request)
    requires RunEvents(NEW_STATE, es).status.Fine?
    ensures ModelOf(RunEvents(NEW_STATE, es), request) == ModelTold(es, request)
  {
    HeaderShown(es, Model);
    assert TrimSpace("") == "";
  }

  lemma CompleteIff(es: seq<Event>, request: Option<Request>)
    ensures IsComplete(RunEvents(NEW_STATE, es), request) <==> Answers(es, request)
  {
    FineIff(NEW_STATE, es);
    if RunEvents(NEW_STATE, es).status.Fine? {
      HeaderShown(es, Id);
      HeaderShown(es, Created);
      ChoicesAreCarried(NEW_STATE, es, 0);
      assert TrimSpace("") == "";
      if request.Some? { ModelShown(es, request.value); }
    }
  }

  /** For every stream: whether there is a response, and every field of it, in terms of the chunks. */
  lemma ResponseTellsStream(es: seq<Event>, requestID: string, request: Option<Request>, r: Option<Response>)
    requires Rebuilds(RunEvents(NEW_STATE, es), requestID, request, r)
    ensures r.Some? <==> Answers(es, request)
    ensures r.Some? ==> Told(es, requestID, request.value, r.value)
  {
    CompleteIff(es, request);
    if r.Some? {
      HeaderShown(es, Id);
      HeaderShown(es, Created);
      ModelShown(es, request.value);
      ChoicesShown(es, r.value.choices);
      HeaderShown(es, Usage);
      HeaderShown(es, Fingerprint);
      HeaderShown(es, Tier);
      assert TrimSpace("") == "";
    }
  }
}
