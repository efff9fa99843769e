/** The response rebuilt from a capture (ReconstructedResponse and what it calls). */
module StreamResponse {
  import opened Wrappers
  import opened Text
  import opened StreamState
  import opened StreamCapture
  import opened StreamBudget
  import opened StreamText
  import opened StreamResolve
  import opened StreamReorder
  import opened StreamHoles
  import opened StreamAppend
  import opened StreamSplit
  import opened Collections

  // ---------------------------------------------------------------- indexes in order

  predicate Increasing(xs: seq<int>) {
    forall i, j :: 0 <= i < j < |xs| ==> xs[i] < xs[j]
  }

  ghost predicate Lists(xs: seq<int>, s: set<int>) {
    Increasing(xs) && forall x :: x in xs <==> x in s
  }

  /** An increasing list is determined by its elements, whatever order they were met in. */
  lemma {:induction false} ListsUnique(xs: seq<int>, ys: seq<int>, s: set<int>)
    requires Lists(xs, s) && Lists(ys, s)
    ensures xs == ys
    decreases |xs|
  {
    assert ys != [] ==> ys[0] in ys && ys[0] in xs;
    if xs != [] {
      assert xs[0] in xs && xs[0] in ys;
      var i :| 0 <= i < |xs| && xs[i] == ys[0];
      var j :| 0 <= j < |ys| && ys[j] == xs[0];
      assert xs[0] == ys[0];
      var rest := s - {xs[0]};
      assert Lists(xs[1..], rest) by { DropFirst(xs, s); }
      assert Lists(ys[1..], rest) by { DropFirst(ys, s); }
      ListsUnique(xs[1..], ys[1..], rest);
      assert xs == [xs[0]] + xs[1..] && ys == [ys[0]] + ys[1..];
    }
  }

  lemma DropFirst(xs: seq<int>, s: set<int>)
    requires Lists(xs, s) && xs != []
    ensures Lists(xs[1..], s - {xs[0]})
  {
    assert xs == [xs[0]] + xs[1..];
    forall x | x in xs[1..]
      ensures x != xs[0] && x in s
    {
      var k :| 0 <= k < |xs[1..]| && xs[1..][k] == x;
      assert xs[k + 1] == x;
    }
  }

  /** Collect the keys in whatever order the map yields them, and sort. */
  method SortedIndexes(keys: set<int>) returns (xs: seq<int>)
    ensures Lists(xs, keys)
  {
    xs := [];
    var rest := keys;
    while rest != {}
      invariant rest <= keys && Lists(xs, keys - rest)
      decreases rest
    {
      NotEmpty(rest);
      var k :| k in rest;
      xs := InsertSorted(xs, k);
      rest := rest - {k};
    }
  }

  method InsertSorted(xs: seq<int>, x: int) returns (ys: seq<int>)
    requires Increasing(xs) && x !in xs
    ensures Increasing(ys) && forall y :: y in ys <==> y in xs || y == x
  {
    var i := 0;
    while i < |xs| && xs[i] < x
      invariant 0 <= i <= |xs|
      invariant forall k :: 0 <= k < i ==> xs[k] < x
    {
      i := i + 1;
    }
    ys := xs[..i] + [x] + xs[i..];
    assert i < |xs| ==> xs[i] in xs;
    InsertedIncreases(xs, i, x);
  }

  lemma InsertedIncreases(xs: seq<int>, i: nat, x: int)
    requires Increasing(xs) && i <= |xs| && (forall k :: 0 <= k < i ==> xs[k] < x) && (i < |xs| ==> x < xs[i])
    ensures Increasing(xs[..i] + [x] + xs[i..])
    ensures forall y :: y in xs[..i] + [x] + xs[i..] <==> y in xs || y == x
  {
    var ys := xs[..i] + [x] + xs[i..];
    assert forall k :: 0 <= k < |ys| ==> ys[k] == if k < i then xs[k] else if k == i then x else xs[k - 1];
    forall y ensures y in ys <==> y in xs || y == x {
      assert xs == xs[..i] + xs[i..];
    }
  }

  // ---------------------------------------------------------------- one choice

  datatype ToolOut = ToolOut(id: string, kind: string, function_: Option<Call>)

  datatype ChoiceOut = ChoiceOut(
    index: int,
    role: string,
    content: Option<string>,
    refusal: Option<string>,
    toolCalls: Option<seq<ToolOut>>,
    functionCall: Option<Call>,
    finishReason: Field,
    logprobs: Field)

  /** A call that holds nothing but white space is not shown. */
  function ShownCall(c: Option<Call>): Option<Call> {
    if c.None? || (TrimSpace(c.value.name) == "" && TrimSpace(c.value.arguments) == "") then None else c
  }

  function ShownTool(t: Tool): ToolOut {
    ToolOut(t.id, if TrimSpace(t.kind) != "" then t.kind else "function", ShownCall(t.call))
  }

  function ShownContent(c: Choice): Option<string> {
    if c.content != "" then Some(c.content)
    else if c.tools != map[] || c.call.Some? then None
    else Some("")
  }

  ghost predicate InOrder(tools: map<int, Tool>, xs: seq<int>, out: seq<ToolOut>) {
    Lists(xs, tools.Keys) && |xs| == |out| && forall k :: 0 <= k < |xs| ==> out[k] == ShownTool(ToolAt(tools, xs[k]))
  }

  /** `out` shows the tools in the order of their indexes. */
  ghost predicate ShowsTools(tools: map<int, Tool>, out: Option<seq<ToolOut>>) {
    if tools == map[] then out.None?
    else out.Some? && exists xs :: InOrder(tools, xs, out.value)
  }

  ghost predicate Shows(i: int, c: Choice, out: ChoiceOut) {
    && out.index == i
    && out.role == (if TrimSpace(c.role) == "" then "assistant" else c.role)
    && out.content == ShownContent(c)
    && out.refusal == (if TrimSpace(c.refusal) == "" then None else Some(TrimSpace(c.refusal)))
    && ShowsTools(c.tools, out.toolCalls)
    && out.functionCall == ShownCall(c.call)
    && out.finishReason == c.finishReason && out.logprobs == c.logprobs
  }

  method ReconstructToolCalls(tools: map<int, Tool>) returns (out: Option<seq<ToolOut>>)
    ensures ShowsTools(tools, out)
  {
    if tools == map[] {
      return None;
    }
    var indexes := SortedIndexes(tools.Keys);
    var shown: seq<ToolOut> := [];
    for k := 0 to |indexes|
      invariant |shown| == k && forall j :: 0 <= j < k ==>
                indexes[j] in tools && shown[j] == ShownTool(tools[indexes[j]])
    {
      assert indexes[k] in indexes;
      shown := shown + [ShownTool(tools[indexes[k]])];
    }
    assert InOrder(tools, indexes, shown);
    return Some(shown);
  }

  /** `out` shows the choices in the order of their indexes. */
  ghost predicate ShowsChoices(choices: map<int, Choice>, out: seq<ChoiceOut>) {
    && (forall k, l :: 0 <= k < l < |out| ==> out[k].index < out[l].index)
    && (forall i :: i in choices <==> exists k :: 0 <= k < |out| && out[k].index == i)
    && (forall k :: 0 <= k < |out| ==> out[k].index in choices && Shows(out[k].index, choices[out[k].index], out[k]))
  }

  method ReconstructChoices(choices: map<int, Choice>) returns (out: seq<ChoiceOut>)
    ensures ShowsChoices(choices, out)
  {
    var indexes := SortedIndexes(choices.Keys);
    out := [];
    for k := 0 to |indexes|
      invariant |out| == k
      invariant forall j :: 0 <= j < k ==>
                  out[j].index == indexes[j] && indexes[j] in choices && Shows(indexes[j], choices[indexes[j]], out[j])
    {
      var i := indexes[k];
      assert i in indexes;
      var c := choices[i];
      var toolCalls := ReconstructToolCalls(c.tools);
      var shown := ChoiceOut(
        i,
        if TrimSpace(c.role) == "" then "assistant" else c.role,
        ShownContent(c),
        if TrimSpace(c.refusal) == "" then None else Some(TrimSpace(c.refusal)),
        toolCalls,
        ShownCall(c.call),
        c.finishReason,
        c.logprobs);
      out := out + [shown];
    }
    forall i | i in choices
      ensures exists k :: 0 <= k < |out| && out[k].index == i
    {
      assert i in indexes;
      var k :| 0 <= k < |indexes| && indexes[k] == i;
      assert out[k].index == i;
    }
  }

  /** What is shown is determined by what was captured. */
  lemma ShownUnique(i: int, c: Choice, a: ChoiceOut, b: ChoiceOut)
    requires Shows(i, c, a) && Shows(i, c, b)
    ensures a == b
  {
    ShownToolsUnique(c.tools, a.toolCalls, b.toolCalls);
  }

  lemma ShownToolsUnique(tools: map<int, Tool>, a: Option<seq<ToolOut>>, b: Option<seq<ToolOut>>)
    requires ShowsTools(tools, a) && ShowsTools(tools, b)
    ensures a == b
  {
    if tools != map[] {
      var xs :| InOrder(tools, xs, a.value);
      var ys :| InOrder(tools, ys, b.value);
      ListsUnique(xs, ys, tools.Keys);
      assert a.value == b.value;
    }
  }

  function Indexes(out: seq<ChoiceOut>): seq<int> {
    seq(|out|, k requires 0 <= k < |out| => out[k].index)
  }

  lemma IndexesAreKeys(choices: map<int, Choice>, out: seq<ChoiceOut>)
    requires ShowsChoices(choices, out)
    ensures Lists(Indexes(out), choices.Keys)
  {
    var xs := Indexes(out);
    forall i ensures i in xs <==> i in choices {
      if i in xs {
        var k :| 0 <= k < |xs| && xs[k] == i;
        assert out[k].index == i;
      }
      if i in choices {
        var k :| 0 <= k < |out| && out[k].index == i;
        assert xs[k] == i;
      }
    }
  }

  lemma ChoicesUnique(choices: map<int, Choice>, a: seq<ChoiceOut>, b: seq<ChoiceOut>)
    requires ShowsChoices(choices, a) && ShowsChoices(choices, b)
    ensures a == b
  {
    IndexesAreKeys(choices, a);
    IndexesAreKeys(choices, b);
    ListsUnique(Indexes(a), Indexes(b), choices.Keys);
    assert |a| == |Indexes(a)| == |Indexes(b)| == |b|;
    forall k | 0 <= k < |a| ensures a[k] == b[k] {
      assert a[k].index == Indexes(a)[k] == Indexes(b)[k] == b[k].index;
      ShownUnique(a[k].index, choices[a[k].index], a[k], b[k]);
    }
  }

  // ---------------------------------------------------------------- the response

  /** What the response takes from the request; metadata that is refused is `None`. */
  datatype Request = Request(model: string, metadata: Option<string>)

  datatype Response = Response(
    id: string,
    created: int,
    model: string,
    choices: seq<ChoiceOut>,
    usage: Option<string>,
    metadata: string,
    fingerprint: Option<string>,
    requestID: Option<string>,
    serviceTier: Option<string>)

  function ModelOf(st: State, request: Request): string {
    if TrimSpace(st.meta.model) != "" then TrimSpace(st.meta.model) else TrimSpace(request.model)
  }

  function ShownJson(f: Field): Option<string> {
    if f.Value? then Some(f.json) else None
  }

  function ShownText(s: string): Option<string> {
    if TrimSpace(s) == "" then None else Some(s)
  }

  /** The stream ended, without error, and named itself; the request can be read. */
  predicate IsComplete(st: State, request: Option<Request>) {
    && st.status.Fine? && st.done && TrimSpace(st.meta.id) != "" && st.meta.created != 0
    && request.Some? && request.value.metadata.Some? && ModelOf(st, request.value) != ""
  }

  /** `r` is the response to rebuild: none unless the capture is complete, else all that was captured. */
  ghost predicate Rebuilds(st: State, requestID: string, request: Option<Request>, r: Option<Response>) {
    && (r.Some? <==> IsComplete(st, request))
    && (r.Some? ==>
          && r.value.id == st.meta.id && r.value.created == st.meta.created
          && r.value.model == ModelOf(st, request.value)
          && ShowsChoices(st.choices, r.value.choices)
          && r.value.usage == ShownJson(st.meta.usage)
          && Some(r.value.metadata) == request.value.metadata
          && r.value.fingerprint == ShownText(st.meta.fingerprint)
          && r.value.requestID == ShownText(requestID)
          && r.value.serviceTier == ShownJson(st.meta.serviceTier))
  }

  method ReconstructResponse(capture: Capture, request: Option<Request>) returns (r: Option<Response>)
    ensures Rebuilds(capture.View(), capture.requestID, request, r)
  {
    if !capture.status.Fine? || !capture.done {
      return None;
    }
    var meta := capture.meta;
    if TrimSpace(meta.id) == "" || meta.created == 0 {
      return None;
    }
    if request.None? || request.value.metadata.None? {
      return None;
    }
    var model := TrimSpace(meta.model);
    if model == "" {
      model := TrimSpace(request.value.model);
    }
    if model == "" {
      return None;
    }
    var choices := ReconstructChoices(capture.choices);
    var response := Response(meta.id, meta.created, model, choices, None, request.value.metadata.value, None, None,
                             None);
    if meta.usage.Value? {
      response := response.(usage := Some(meta.usage.json));
    }
    if TrimSpace(meta.fingerprint) != "" {
      response := response.(fingerprint := Some(meta.fingerprint));
    }
    if TrimSpace(capture.requestID) != "" {
      response := response.(requestID := Some(capture.requestID));
    }
    if meta.serviceTier.Value? {
      response := response.(serviceTier := Some(meta.serviceTier.json));
    }
    return Some(response);
  }

  // ---------------------------------------------------------------- what the framing leaves alone

  /** The response is determined by the capture and the request. */
  lemma RebuiltUnique(st: State, requestID: string, request: Option<Request>, a: Option<Response>, b: Option<Response>)
    requires Rebuilds(st, requestID, request, a) && Rebuilds(st, requestID, request, b)
    ensures a == b
  {
    if a.Some? { ChoicesUnique(st.choices, a.value.choices, b.value.choices); }
  }

  lemma SameRebuilt(x: State, y: State, requestID: string, request: Option<Request>, a: Option<Response>,
                    b: Option<Response>)
    requires SameOutcome(x, y) && Rebuilds(x, requestID, request, a) && Rebuilds(y, requestID, request, b)
    ensures a == b
  {
    if x.status.Fine? { RebuiltUnique(x, requestID, request, a, b); }
  }

  /** Swapping chunks of different choices leaves the response as it is. */
  lemma SwapRebuilds(before: seq<Event>, a: Chunk, b: Chunk, after: seq<Event>, requestID: string,
                     request: Option<Request>,
                     p: Option<Response>, q: Option<Response>)
    requires Indices(a.choices) !! Indices(b.choices) && MetaLog(a) == MetaLog(b)
    requires Rebuilds(RunEvents(NEW_STATE, before + ([Decoded(a), Decoded(b)] + after)), requestID, request, p)
    requires Rebuilds(RunEvents(NEW_STATE, before + ([Decoded(b), Decoded(a)] + after)), requestID, request, q)
    ensures p == q
  {
    StreamSwap(before, a, b, after);
    SameRebuilt(RunEvents(NEW_STATE, before + ([Decoded(a), Decoded(b)] + after)),
                RunEvents(NEW_STATE, before + ([Decoded(b), Decoded(a)] + after)), requestID, request, p, q);
  }

  /** Cutting a fragment in two, the rest arriving later, leaves the response as it is. */
  lemma SplitRebuilds(before: seq<Event>, c: Chunk, k: nat, h: Hole, s: string, t: string, between: seq<Event>,
                      head: Chunk, after: seq<Event>, requestID: string, request: Option<Request>,
                      p: Option<Response>, q: Option<Response>)
    requires Fits(c.choices, k, h) && LastHoleIn(SeenAfter(map[], before), c, k, h)
    requires var seen := SeenAfter(map[], before);
             EventsText(ResolvedEvents(SeenAfterParts(seen, c.choices), between), HoleIndex(c, k, h),
                        SlotIn(seen, c, k, h)) == ""
    requires InForce(head, RunEvents(NEW_STATE, before + ([Decoded(Fill(c, k, h, s))] + between)).meta)
    requires Rebuilds(RunEvents(NEW_STATE, Uncut(before, Fill(c, k, h, s + t), between, after)), requestID, request, p)
    requires var rest := Rest(head, HoleIndex(c, k, h), SlotIn(SeenAfter(map[], before), c, k, h), t);
             Rebuilds(RunEvents(NEW_STATE, Cut(before, Fill(c, k, h, s), between, rest, after)), requestID, request, q)
    ensures p == q
  {
    var rest := Rest(head, HoleIndex(c, k, h), SlotIn(SeenAfter(map[], before), c, k, h), t);
    StreamSplit.StreamSplit(before, c, k, h, s, t, between, head, after);
    SameRebuilt(RunEvents(NEW_STATE, Uncut(before, Fill(c, k, h, s + t), between, after)),
                RunEvents(NEW_STATE, Cut(before, Fill(c, k, h, s), between, rest, after)), requestID, request, p, q);
  }
}
