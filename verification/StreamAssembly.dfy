/** What a capture assembles, as a function of the fragments alone. */
module StreamAssembly {
  import opened Wrappers
  import opened Text
  import opened StreamState
  import opened StreamBudget

  // ---------------------------------------------------------------- choices are independent

  /** The edits of one choice, in order. */
  function EditsOf(ops: seq<Op>, i: int): seq<ChoiceEdit> {
    if ops == [] then []
    else (if ops[0].OnChoice? && ops[0].i == i then [ops[0].edit] else []) + EditsOf(ops[1..], i)
  }

  function MetaEditsOf(ops: seq<Op>): seq<MetaEdit> {
    if ops == [] then []
    else (if ops[0].OnMeta? then [ops[0].meta] else []) + MetaEditsOf(ops[1..])
  }

  function Touched(ops: seq<Op>): set<int> {
    if ops == [] then {}
    else (if ops[0].OnChoice? then {ops[0].i} else {}) + Touched(ops[1..])
  }

  function FoldChoice(c: Choice, es: seq<ChoiceEdit>): Choice
    decreases es
  {
    if es == [] then c else FoldChoice(EditChoice(c, es[0]), es[1..])
  }

  function FoldMeta(m: Meta, es: seq<MetaEdit>): Meta
    decreases es
  {
    if es == [] then m else FoldMeta(EditMeta(m, es[0]), es[1..])
  }

  function FoldTool(t: Tool, es: seq<ToolEdit>): Tool
    decreases es
  {
    if es == [] then t else FoldTool(EditTool(t, es[0]), es[1..])
  }

  lemma {:induction false} EditsConcat(a: seq<Op>, b: seq<Op>, i: int)
    ensures EditsOf(a + b, i) == EditsOf(a, i) + EditsOf(b, i)
    decreases a
  {
    if a == [] {
      assert a + b == b;
    } else {
      assert (a + b)[1..] == a[1..] + b;
      EditsConcat(a[1..], b, i);
    }
  }

  lemma {:induction false} MetaEditsConcat(a: seq<Op>, b: seq<Op>)
    ensures MetaEditsOf(a + b) == MetaEditsOf(a) + MetaEditsOf(b) && Touched(a + b) == Touched(a) + Touched(b)
    decreases a
  {
    if a == [] {
      assert a + b == b;
    } else {
      assert (a + b)[1..] == a[1..] + b;
      MetaEditsConcat(a[1..], b);
    }
  }

  /** The choices of a run: each the result of its own edits alone. */
  function Assembled(choices: map<int, Choice>, ops: seq<Op>): map<int, Choice> {
    map i | i in choices.Keys + Touched(ops) :: FoldChoice(ChoiceAt(choices, i), EditsOf(ops, i))
  }

  lemma {:induction false} RunAssembles(st: State, ops: seq<Op>)
    requires st.status.Fine? && Run(st, ops).status.Fine?
    ensures Run(st, ops) ==
            State(Fine, st.done, st.bytes + LogBytes(ops), FoldMeta(st.meta, MetaEditsOf(ops)),
                  Assembled(st.choices, ops))
    decreases ops
  {
    if ops == [] {
      assert Assembled(st.choices, ops) == st.choices;
    } else {
      var st' := RunOp(st, ops[0]);
      if !st'.status.Fine? { RunAfterError(st', ops[1..]); }
      RunAssembles(st', ops[1..]);
      AssembledStep(st.choices, ops);
      MetaStep(st.meta, ops);
    }
  }

  lemma MetaStep(m: Meta, ops: seq<Op>)
    requires ops != []
    ensures FoldMeta(m, MetaEditsOf(ops)) ==
            FoldMeta(if ops[0].OnMeta? then EditMeta(m, ops[0].meta) else m, MetaEditsOf(ops[1..]))
  {
    if ops[0].OnMeta? {
      assert ([ops[0].meta] + MetaEditsOf(ops[1..]))[1..] == MetaEditsOf(ops[1..]);
    } else {
      assert [] + MetaEditsOf(ops[1..]) == MetaEditsOf(ops[1..]);
    }
  }

  lemma AssembledStep(choices: map<int, Choice>, ops: seq<Op>)
    requires ops != []
    ensures var op := ops[0];
            var next := if op.OnChoice? then choices[op.i := EditChoice(ChoiceAt(choices, op.i), op.edit)] else choices;
            Assembled(choices, ops) == Assembled(next, ops[1..])
  {
    var op := ops[0];
    var next := if op.OnChoice? then choices[op.i := EditChoice(ChoiceAt(choices, op.i), op.edit)] else choices;
    var a, b := Assembled(choices, ops), Assembled(next, ops[1..]);
    assert a.Keys == b.Keys;
    forall i | i in a
      ensures a[i] == b[i]
    {
      FoldStep(ChoiceAt(choices, i), ops, i);
      var c := ChoiceAt(choices, i);
      assert ChoiceAt(next, i) == if op.OnChoice? && op.i == i then EditChoice(c, op.edit) else c;
    }
  }

  lemma FoldStep(c: Choice, ops: seq<Op>, i: int)
    requires ops != []
    ensures FoldChoice(c, EditsOf(ops, i)) ==
            FoldChoice(if ops[0].OnChoice? && ops[0].i == i then EditChoice(c, ops[0].edit) else c,
                       EditsOf(ops[1..], i))
  {
    var op, rest := ops[0], EditsOf(ops[1..], i);
    if op.OnChoice? && op.i == i {
      assert EditsOf(ops, i) == [op.edit] + rest && ([op.edit] + rest)[1..] == rest;
    } else {
      assert EditsOf(ops, i) == rest;
    }
  }

  // ---------------------------------------------------------------- a choice is its fragments

  function ContentOf(es: seq<ChoiceEdit>): string {
    if es == [] then "" else (if es[0].AddContent? then es[0].s else "") + ContentOf(es[1..])
  }

  function RefusalOf(es: seq<ChoiceEdit>): string {
    if es == [] then "" else (if es[0].AddRefusal? then es[0].s else "") + RefusalOf(es[1..])
  }

  function RoleAfter(role: string, es: seq<ChoiceEdit>): string
    decreases es
  {
    if es == [] then role else RoleAfter(if es[0].SetRole? then es[0].s else role, es[1..])
  }

  function FinishAfter(f: Field, es: seq<ChoiceEdit>): Field
    decreases es
  {
    if es == [] then f else FinishAfter(if es[0].SetFinish? then es[0].f else f, es[1..])
  }

  function LogprobsAfter(f: Field, es: seq<ChoiceEdit>): Field
    decreases es
  {
    if es == [] then f else LogprobsAfter(if es[0].SetLogprobs? then es[0].f else f, es[1..])
  }

  function CallsOf(es: seq<ChoiceEdit>): seq<CallEdit> {
    if es == [] then [] else (if es[0].OnCall? then [es[0].call] else []) + CallsOf(es[1..])
  }

  function ToolsOf(es: seq<ChoiceEdit>): set<int> {
    if es == [] then {} else (if es[0].OnTool? then {es[0].t} else {}) + ToolsOf(es[1..])
  }

  function ToolEditsOf(es: seq<ChoiceEdit>, t: int): seq<ToolEdit> {
    if es == [] then [] else (if es[0].OnTool? && es[0].t == t then [es[0].tool] else []) + ToolEditsOf(es[1..], t)
  }

  function NamesOf(es: seq<CallEdit>): string {
    if es == [] then "" else (if es[0].AddName? then es[0].s else "") + NamesOf(es[1..])
  }

  function ArgumentsOf(es: seq<CallEdit>): string {
    if es == [] then "" else (if es[0].AddArguments? then es[0].s else "") + ArgumentsOf(es[1..])
  }

  /** A function call: present once touched, its name and arguments the fragments in order. */
  function JoinCall(c: Option<Call>, es: seq<CallEdit>): Option<Call> {
    if es == [] then c else Some(Call(CallOf(c).name + NamesOf(es), CallOf(c).arguments + ArgumentsOf(es)))
  }

  lemma {:induction false} JoinCallStep(c: Option<Call>, es: seq<CallEdit>)
    requires es != []
    ensures JoinCall(EditCall(c, es[0]), es[1..]) == JoinCall(c, es)
  {
    var call, n, a := CallOf(c), NamesOf(es[1..]), ArgumentsOf(es[1..]);
    assert call.name + "" == call.name && call.arguments + "" == call.arguments && "" + n == n && "" + a == a;
    match es[0]
    case TouchCall =>
    case AddName(s) =>
      assert call.name + s + n == call.name + (s + n);
      assert call.name + s + "" == call.name + s;
    case AddArguments(s) =>
      assert call.arguments + s + a == call.arguments + (s + a);
      assert call.arguments + s + "" == call.arguments + s;
  }

  function FunctionsOf(es: seq<ToolEdit>): seq<CallEdit> {
    if es == [] then [] else (if es[0].OnFunction? then [es[0].call] else []) + FunctionsOf(es[1..])
  }

  function IdAfter(id: string, es: seq<ToolEdit>): string
    decreases es
  {
    if es == [] then id else IdAfter(if es[0].SetToolId? then es[0].s else id, es[1..])
  }

  function KindAfter(kind: string, es: seq<ToolEdit>): string
    decreases es
  {
    if es == [] then kind else KindAfter(if es[0].SetKind? then es[0].s else kind, es[1..])
  }

  function JoinTool(t: Tool, es: seq<ToolEdit>): Tool {
    Tool(IdAfter(t.id, es), KindAfter(t.kind, es), JoinCall(t.call, FunctionsOf(es)))
  }

  lemma {:induction false} ToolIsItsFragments(t: Tool, es: seq<ToolEdit>)
    ensures FoldTool(t, es) == JoinTool(t, es)
    decreases es
  {
    if es != [] {
      ToolIsItsFragments(EditTool(t, es[0]), es[1..]);
      var rest := FunctionsOf(es[1..]);
      if es[0].OnFunction? {
        var all := [es[0].call] + rest;
        assert all[1..] == rest;
        JoinCallStep(t.call, all);
      } else {
        assert [] + rest == rest;
      }
    }
  }

  function JoinTools(tools: map<int, Tool>, es: seq<ChoiceEdit>): map<int, Tool> {
    map t | t in tools.Keys + ToolsOf(es) :: JoinTool(ToolAt(tools, t), ToolEditsOf(es, t))
  }

  function JoinChoice(c: Choice, es: seq<ChoiceEdit>): Choice {
    Choice(RoleAfter(c.role, es), c.content + ContentOf(es), c.refusal + RefusalOf(es),
           FinishAfter(c.finishReason, es), LogprobsAfter(c.logprobs, es),
           JoinCall(c.call, CallsOf(es)), JoinTools(c.tools, es))
  }

  lemma JoinToolStep(t: Tool, es: seq<ToolEdit>)
    requires es != []
    ensures JoinTool(EditTool(t, es[0]), es[1..]) == JoinTool(t, es)
  {
    ToolIsItsFragments(t, es);
    ToolIsItsFragments(EditTool(t, es[0]), es[1..]);
  }

  lemma JoinToolsStep(tools: map<int, Tool>, es: seq<ChoiceEdit>)
    requires es != []
    ensures var e := es[0];
            var next := if e.OnTool? then tools[e.t := EditTool(ToolAt(tools, e.t), e.tool)] else tools;
            JoinTools(next, es[1..]) == JoinTools(tools, es)
  {
    var e := es[0];
    var next := if e.OnTool? then tools[e.t := EditTool(ToolAt(tools, e.t), e.tool)] else tools;
    var a, b := JoinTools(tools, es), JoinTools(next, es[1..]);
    assert a.Keys == b.Keys;
    forall t | t in a
      ensures a[t] == b[t]
    {
      JoinToolNext(ToolAt(tools, t), es, t);
      assert ToolAt(next, t) == if e.OnTool? && e.t == t then EditTool(ToolAt(tools, t), e.tool) else ToolAt(tools, t);
    }
  }

  lemma JoinToolNext(tool: Tool, es: seq<ChoiceEdit>, t: int)
    requires es != []
    ensures JoinTool(tool, ToolEditsOf(es, t)) ==
            JoinTool(if es[0].OnTool? && es[0].t == t then EditTool(tool, es[0].tool) else tool,
                     ToolEditsOf(es[1..], t))
  {
    var e, rest := es[0], ToolEditsOf(es[1..], t);
    if e.OnTool? && e.t == t {
      var all := [e.tool] + rest;
      assert all[1..] == rest;
      JoinToolStep(tool, all);
    } else {
      assert [] + rest == rest;
    }
  }

  /** What an edit adds to the two texts and the call of a choice. */
  lemma EditFields(c: Choice, e: ChoiceEdit)
    ensures EditChoice(c, e).content == c.content + (if e.AddContent? then e.s else "")
    ensures EditChoice(c, e).refusal == c.refusal + (if e.AddRefusal? then e.s else "")
    ensures EditChoice(c, e).call == if e.OnCall? then EditCall(c.call, e.call) else c.call
  {
    assert c.content + "" == c.content && c.refusal + "" == c.refusal;
  }

  lemma JoinCallsStep(call: Option<Call>, es: seq<ChoiceEdit>)
    requires es != []
    ensures JoinCall(if es[0].OnCall? then EditCall(call, es[0].call) else call, CallsOf(es[1..])) ==
            JoinCall(call, CallsOf(es))
  {
    var rest := CallsOf(es[1..]);
    if es[0].OnCall? {
      var all := [es[0].call] + rest;
      assert all[1..] == rest && all[0] == es[0].call;
      assert CallsOf(es) == all;
      JoinCallStep(call, all);
    } else {
      assert CallsOf(es) == [] + rest == rest;
    }
  }

  /**
    A choice is determined by its fragments: each text the in-order concatenation of the
    pieces for it, each other member the last value set, its tool calls likewise per index.
   */
  lemma {:induction false} ChoiceIsItsFragments(c: Choice, es: seq<ChoiceEdit>)
    ensures FoldChoice(c, es) == JoinChoice(c, es)
    decreases es
  {
    if es == [] {
      assert c.content + "" == c.content && c.refusal + "" == c.refusal;
      assert JoinTools(c.tools, es) == c.tools;
    } else {
      ChoiceIsItsFragments(EditChoice(c, es[0]), es[1..]);
      EditFields(c, es[0]);
      Associative(c.content, if es[0].AddContent? then es[0].s else "", ContentOf(es[1..]));
      Associative(c.refusal, if es[0].AddRefusal? then es[0].s else "", RefusalOf(es[1..]));
      JoinCallsStep(c.call, es);
      JoinToolsStep(c.tools, es);
    }
  }
}
