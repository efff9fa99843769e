/**
  Tool calls without an index are numbered by the tool calls captured so far for their choice.
  The numbers follow from the chunks alone: writing them in leaves the capture as it is.
 */
module StreamResolve {
  import opened Wrappers
  import opened Text
  import opened StreamState
  import opened StreamExplicit
  import opened StreamBudget
  import opened StreamText

  // ---------------------------------------------------------------- the tool calls seen so far

  /** For each choice the tool indexes met so far. */
  type Seen = map<int, set<int>>

  function SeenAt(seen: Seen, i: int): set<int> {
    if i in seen then seen[i] else {}
  }

  function Resolved(known: set<int>, p: ToolPart): int {
    if p.index.Some? then p.index.value else |known|
  }

  function KnownAfter(known: set<int>, parts: seq<Option<ToolPart>>): set<int>
    decreases parts
  {
    if parts == [] then known
    else KnownAfter(if parts[0].None? then known else known + {Resolved(known, parts[0].value)}, parts[1..])
  }

  function ResolvedTools(known: set<int>, parts: seq<Option<ToolPart>>): seq<Option<ToolPart>>
    decreases parts
  {
    if parts == [] then []
    else if parts[0].None? then [None] + ResolvedTools(known, parts[1..])
    else
      var t := Resolved(known, parts[0].value);
      [Some(parts[0].value.(index := Some(t)))] + ResolvedTools(known + {t}, parts[1..])
  }

  function ToolsIn(p: ChoicePart): seq<Option<ToolPart>> {
    if p.delta.None? then [] else p.delta.value.toolCalls
  }

  function SeenAfterPart(seen: Seen, p: ChoicePart): Seen {
    var i := PartIndex(p);
    seen[i := KnownAfter(SeenAt(seen, i), ToolsIn(p))]
  }

  function ResolvedPart(seen: Seen, p: ChoicePart): ChoicePart {
    if p.delta.None? then p
    else p.(delta := Some(p.delta.value.(toolCalls := ResolvedTools(SeenAt(seen, PartIndex(p)), ToolsIn(p)))))
  }

  function SeenAfterParts(seen: Seen, parts: seq<Option<ChoicePart>>): Seen
    decreases parts
  {
    if parts == [] then seen
    else SeenAfterParts(if parts[0].None? then seen else SeenAfterPart(seen, parts[0].value), parts[1..])
  }

  function ResolvedParts(seen: Seen, parts: seq<Option<ChoicePart>>): seq<Option<ChoicePart>>
    decreases parts
  {
    if parts == [] then []
    else if parts[0].None? then [None] + ResolvedParts(seen, parts[1..])
    else [Some(ResolvedPart(seen, parts[0].value))] + ResolvedParts(SeenAfterPart(seen, parts[0].value), parts[1..])
  }

  function ResolvedChunk(seen: Seen, c: Chunk): Chunk {
    c.(choices := ResolvedParts(seen, c.choices))
  }

  function SeenAfter(seen: Seen, es: seq<Event>): Seen
    decreases es
  {
    if es == [] then seen
    else SeenAfter(if es[0].Decoded? then SeenAfterParts(seen, es[0].chunk.choices) else seen, es[1..])
  }

  /** The stream with every tool index written in. */
  function ResolvedEvents(seen: Seen, es: seq<Event>): seq<Event>
    decreases es
  {
    if es == [] then []
    else if es[0].Decoded? then
      [Decoded(ResolvedChunk(seen, es[0].chunk))] + ResolvedEvents(SeenAfterParts(seen, es[0].chunk.choices), es[1..])
    else [es[0]] + ResolvedEvents(seen, es[1..])
  }

  lemma {:induction false} ToolsExplicit(known: set<int>, parts: seq<Option<ToolPart>>)
    ensures ExplicitTools(ResolvedTools(known, parts))
    decreases parts
  {
    if parts != [] {
      ToolsExplicit(known, parts[1..]);
      if parts[0].Some? { ToolsExplicit(known + {Resolved(known, parts[0].value)}, parts[1..]); }
    }
  }

  lemma {:induction false} PartsExplicit(seen: Seen, parts: seq<Option<ChoicePart>>)
    ensures ExplicitParts(ResolvedParts(seen, parts))
    decreases parts
  {
    if parts != [] {
      PartsExplicit(seen, parts[1..]);
      if parts[0].Some? {
        PartsExplicit(SeenAfterPart(seen, parts[0].value), parts[1..]);
        ToolsExplicit(SeenAt(seen, PartIndex(parts[0].value)), ToolsIn(parts[0].value));
      }
    }
  }

  lemma {:induction false} EventsExplicit(seen: Seen, es: seq<Event>)
    ensures Explicit(ResolvedEvents(seen, es))
    decreases es
  {
    if es != [] {
      EventsExplicit(seen, es[1..]);
      if es[0].Decoded? {
        PartsExplicit(seen, es[0].chunk.choices);
        EventsExplicit(SeenAfterParts(seen, es[0].chunk.choices), es[1..]);
      }
    }
  }

  // ---------------------------------------------------------------- the tool calls captured

  function ToolKeys(st: State, i: int): set<int> {
    ChoiceAt(st.choices, i).tools.Keys
  }

  ghost predicate Matches(st: State, seen: Seen) {
    forall i :: ToolKeys(st, i) == SeenAt(seen, i)
  }

  /** The tools of choice `i` that the edits touch. */
  function Touches(ops: seq<Op>, i: int): set<int> {
    if ops == [] then {}
    else
      (if ops[0].OnChoice? && ops[0].i == i && ops[0].edit.OnTool? then {ops[0].edit.t} else {}) + Touches(ops[1..], i)
  }

  lemma {:induction false} TouchesConcat(a: seq<Op>, b: seq<Op>, i: int)
    ensures Touches(a + b, i) == Touches(a, i) + Touches(b, i)
    decreases a
  {
    if a == [] {
      assert a + b == b;
    } else {
      assert (a + b)[1..] == a[1..] + b;
      TouchesConcat(a[1..], b, i);
    }
  }

  lemma {:induction false} KeysAfter(st: State, ops: seq<Op>, i: int)
    requires st.status.Fine? && Run(st, ops).status.Fine?
    ensures ToolKeys(Run(st, ops), i) == ToolKeys(st, i) + Touches(ops, i)
    decreases ops
  {
    if ops != [] {
      var st' := RunOp(st, ops[0]);
      if !st'.status.Fine? { RunAfterError(st', ops[1..]); }
      KeysAfter(st', ops[1..], i);
    }
  }

  lemma FineBefore(st: State, a: seq<Op>, b: seq<Op>)
    requires Run(st, a + b).status.Fine?
    ensures Run(st, a).status.Fine? && Run(Run(st, a), b).status.Fine?
  {
    RunConcat(st, a, b);
    if !Run(st, a).status.Fine? { RunAfterError(Run(st, a), b); }
  }

  lemma WhenTouches(log: seq<Op>, b: bool, op: Op, i: int)
    requires op.OnChoice? ==> op.edit.OnTool? ==> op.edit.t in Touches(log, op.i)
    ensures Touches(log + When(b, op), i) == Touches(log, i)
  {
    TouchesConcat(log, When(b, op), i);
    if b { assert [op][1..] == []; }
  }

  lemma CallTouches(j: int, tool: Option<int>, f: FunctionPart, i: int)
    ensures Touches(CallLog(j, tool, f), i) == if tool.Some? && i == j then {tool.value} else {}
  {
    var touch := [Target(j, tool, TouchCall)];
    assert touch[1..] == [];
    WhenTouches(touch, f.name != "", Target(j, tool, AddName(f.name)), j);
    WhenTouches(touch, f.name != "", Target(j, tool, AddName(f.name)), i);
    WhenTouches(touch + When(f.name != "", Target(j, tool, AddName(f.name))),
                f.arguments != "", Target(j, tool, AddArguments(f.arguments)), i);
  }

  lemma ToolTouches(j: int, t: int, p: ToolPart, i: int)
    ensures Touches(ToolLog(j, t, p), i) == if i == j then {t} else {}
  {
    var id := OnChoice(j, OnTool(t, SetToolId(TrimSpace(p.id))));
    var kind := OnChoice(j, OnTool(t, SetKind(TrimSpace(p.kind))));
    var a := [OnChoice(j, OnTool(t, TouchTool))];
    assert a[1..] == [];
    assert Touches(a, i) == if i == j then {t} else {};
    forall k ensures Touches(a + When(TrimSpace(p.id) != "", id), k) == Touches(a, k) {
      WhenTouches(a, TrimSpace(p.id) != "", id, k);
    }
    var b := a + When(TrimSpace(p.id) != "", id);
    WhenTouches(b, TrimSpace(p.kind) != "", kind, i);
    var c := b + When(TrimSpace(p.kind) != "", kind);
    if p.function_.Some? {
      TouchesConcat(c, CallLog(j, Some(t), p.function_.value), i);
      CallTouches(j, Some(t), p.function_.value, i);
    } else {
      assert ToolLog(j, t, p) == c;
    }
  }

  predicate NoTools(ops: seq<Op>) {
    forall k :: 0 <= k < |ops| ==> !(ops[k].OnChoice? && ops[k].edit.OnTool?)
  }

  lemma {:induction false} NothingTouched(ops: seq<Op>, i: int)
    requires NoTools(ops)
    ensures Touches(ops, i) == {}
    decreases ops
  {
    if ops != [] { NothingTouched(ops[1..], i); }
  }

  lemma TextTouches(j: int, d: Delta, i: int)
    ensures Touches(TextLog(j, d), i) == {}
  {
    var a := When(TrimSpace(d.role) != "", OnChoice(j, SetRole(TrimSpace(d.role))))
             + When(d.content != "", OnChoice(j, AddContent(d.content)));
    var b := a + When(d.refusal != "", OnChoice(j, AddRefusal(d.refusal)));
    NothingTouched(b, i);
    if d.functionCall.Some? {
      TouchesConcat(b, CallLog(j, None, d.functionCall.value), i);
      CallTouches(j, None, d.functionCall.value, i);
    } else {
      assert b + [] == b;
    }
  }

  lemma HeadTouches(p: ChoicePart, i: int)
    ensures Touches(HeadLog(p), i) == {}
  {
    NothingTouched(HeadLog(p), i);
  }

  // ---------------------------------------------------------------- writing the indexes in changes nothing

  lemma {:induction false} ToolsLogResolved(st: State, j: int, parts: seq<Option<ToolPart>>)
    requires st.status.Fine? && Run(st, ToolsLog(st, j, parts)).status.Fine?
    ensures ToolsLog(st, j, parts) == ToolsOps(j, ResolvedTools(ToolKeys(st, j), parts))
    ensures forall i :: ToolKeys(Run(st, ToolsLog(st, j, parts)), i) ==
                        if i == j then KnownAfter(ToolKeys(st, j), parts) else ToolKeys(st, i)
    decreases parts
  {
    if parts != [] {
      var known, rest := ToolKeys(st, j), parts[1..];
      if parts[0].None? {
        ToolsLogResolved(st, j, rest);
        assert ResolvedTools(known, parts)[1..] == ResolvedTools(known, rest);
      } else {
        var p := parts[0].value;
        var t := ToolIndex(st, j, p);
        assert t == Resolved(known, p);
        var log := ToolLog(j, t, p);
        var st' := Run(st, log);
        FineBefore(st, log, ToolsLog(st', j, rest));
        RunConcat(st, log, ToolsLog(st', j, rest));
        forall i ensures ToolKeys(st', i) == if i == j then known + {t} else ToolKeys(st, i) {
          KeysAfter(st, log, i);
          ToolTouches(j, t, p, i);
        }
        ToolsLogResolved(st', j, rest);
        var q := p.(index := Some(t));
        assert ResolvedTools(known, parts)[1..] == ResolvedTools(known + {t}, rest);
        assert ToolLog(j, t, q) == log;
      }
    }
  }

  lemma PartLogResolved(st: State, seen: Seen, p: ChoicePart)
    requires st.status.Fine? && Run(st, PartLog(st, p)).status.Fine? && Matches(st, seen)
    ensures PartLog(st, p) == PartOps(ResolvedPart(seen, p))
    ensures Matches(Run(st, PartLog(st, p)), SeenAfterPart(seen, p))
  {
    if p.delta.None? {
      BarePartResolved(st, seen, p);
    } else {
      FullPartResolved(st, seen, p, p.delta.value);
    }
  }

  lemma BarePartResolved(st: State, seen: Seen, p: ChoicePart)
    requires p.delta.None? && st.status.Fine? && Run(st, PartLog(st, p)).status.Fine? && Matches(st, seen)
    ensures PartLog(st, p) == PartOps(ResolvedPart(seen, p))
    ensures Matches(Run(st, PartLog(st, p)), SeenAfterPart(seen, p))
  {
    assert PartLog(st, p) == HeadLog(p) by { assert HeadLog(p) + [] == HeadLog(p); }
    HeadKeys(st, p);
    KeysMatch(st, Run(st, HeadLog(p)), seen, p);
  }

  lemma FullPartResolved(st: State, seen: Seen, p: ChoicePart, d: Delta)
    requires p.delta == Some(d) && st.status.Fine? && Run(st, PartLog(st, p)).status.Fine? && Matches(st, seen)
    ensures PartLog(st, p) == PartOps(ResolvedPart(seen, p))
    ensures Matches(Run(st, PartLog(st, p)), SeenAfterPart(seen, p))
  {
    var j := PartIndex(p);
    var a := Run(st, HeadLog(p));
    FineBefore(st, HeadLog(p), DeltaLog(a, j, d));
    RunConcat(st, HeadLog(p), DeltaLog(a, j, d));
    HeadKeys(st, p);
    DeltaLogResolved(a, j, d);
    KeysMatch(st, Run(a, DeltaLog(a, j, d)), seen, p);
    SamePartOps(p, d, ResolvedTools(ToolKeys(st, j), d.toolCalls));
  }

  lemma SamePartOps(p: ChoicePart, d: Delta, tools: seq<Option<ToolPart>>)
    requires p.delta == Some(d)
    ensures PartOps(p.(delta := Some(d.(toolCalls := tools)))) ==
            HeadLog(p) + DeltaOps(PartIndex(p), d.(toolCalls := tools))
  {
  }

  lemma KeysMatch(st: State, after: State, seen: Seen, p: ChoicePart)
    requires Matches(st, seen)
    requires forall i :: ToolKeys(after, i) ==
                         if i == PartIndex(p) then KnownAfter(ToolKeys(st, i), ToolsIn(p)) else ToolKeys(st, i)
    ensures Matches(after, SeenAfterPart(seen, p))
  {
  }

  lemma HeadKeys(st: State, p: ChoicePart)
    requires st.status.Fine? && Run(st, HeadLog(p)).status.Fine?
    ensures forall i :: ToolKeys(Run(st, HeadLog(p)), i) == ToolKeys(st, i)
  {
    forall i ensures ToolKeys(Run(st, HeadLog(p)), i) == ToolKeys(st, i) {
      HeadTouches(p, i);
      KeysAfter(st, HeadLog(p), i);
    }
  }

  lemma DeltaLogResolved(st: State, j: int, d: Delta)
    requires st.status.Fine? && Run(st, DeltaLog(st, j, d)).status.Fine?
    ensures DeltaLog(st, j, d) == DeltaOps(j, d.(toolCalls := ResolvedTools(ToolKeys(st, j), d.toolCalls)))
    ensures forall i :: ToolKeys(Run(st, DeltaLog(st, j, d)), i) ==
                        if i == j then KnownAfter(ToolKeys(st, j), d.toolCalls) else ToolKeys(st, i)
  {
    var b := Run(st, TextLog(j, d));
    FineBefore(st, TextLog(j, d), ToolsLog(b, j, d.toolCalls));
    RunConcat(st, TextLog(j, d), ToolsLog(b, j, d.toolCalls));
    forall i ensures ToolKeys(b, i) == ToolKeys(st, i) {
      TextTouches(j, d, i);
      KeysAfter(st, TextLog(j, d), i);
    }
    ToolsLogResolved(b, j, d.toolCalls);
    SameTextLog(j, d, ResolvedTools(ToolKeys(st, j), d.toolCalls));
  }

  lemma SameTextLog(j: int, d: Delta, tools: seq<Option<ToolPart>>)
    ensures TextLog(j, d.(toolCalls := tools)) == TextLog(j, d)
  {
  }

  lemma {:induction false} PartsLogResolved(st: State, seen: Seen, parts: seq<Option<ChoicePart>>)
    requires st.status.Fine? && Run(st, PartsLog(st, parts)).status.Fine? && Matches(st, seen)
    ensures PartsLog(st, parts) == PartsOps(ResolvedParts(seen, parts))
    ensures Matches(Run(st, PartsLog(st, parts)), SeenAfterParts(seen, parts))
    decreases parts
  {
    if parts != [] {
      var rest := parts[1..];
      if parts[0].None? {
        PartsLogResolved(st, seen, rest);
        assert ResolvedParts(seen, parts)[1..] == ResolvedParts(seen, rest);
      } else {
        var p := parts[0].value;
        var log := PartLog(st, p);
        var st' := Run(st, log);
        FineBefore(st, log, PartsLog(st', rest));
        RunConcat(st, log, PartsLog(st', rest));
        PartLogResolved(st, seen, p);
        PartsLogResolved(st', SeenAfterPart(seen, p), rest);
        assert ResolvedParts(seen, parts)[1..] == ResolvedParts(SeenAfterPart(seen, p), rest);
      }
    }
  }

  lemma ChunkLogResolved(st: State, seen: Seen, c: Chunk)
    requires st.status.Fine? && RunChunk(st, c).status.Fine? && Matches(st, seen)
    ensures ChunkLog(st, c) == ChunkOps(ResolvedChunk(seen, c))
    ensures Matches(RunChunk(st, c), SeenAfterParts(seen, c.choices))
  {
    var meta := MetaLog(c);
    var st' := Run(st, meta);
    FineBefore(st, meta, PartsLog(st', c.choices));
    RunConcat(st, meta, PartsLog(st', c.choices));
    MetaLogShape(c);
    forall i ensures ToolKeys(st', i) == ToolKeys(st, i) {
      NothingTouched(meta, i);
      KeysAfter(st, meta, i);
    }
    PartsLogResolved(st', seen, c.choices);
  }

  lemma ChunkResolved(st: State, seen: Seen, c: Chunk)
    requires st.status.Fine? && RunChunk(st, c).status.Fine? && Matches(st, seen)
    ensures RunChunk(st, c) == RunChunk(st, ResolvedChunk(seen, c))
    ensures Matches(RunChunk(st, c), SeenAfterParts(seen, c.choices))
  {
    ChunkLogResolved(st, seen, c);
    PartsExplicit(seen, c.choices);
    ChunkLogOps(st, ResolvedChunk(seen, c));
  }

  lemma {:induction false} EventsResolved(st: State, seen: Seen, es: seq<Event>)
    requires RunEvents(st, es).status.Fine? && Matches(st, seen)
    ensures RunEvents(st, ResolvedEvents(seen, es)) == RunEvents(st, es)
    ensures Matches(RunEvents(st, es), SeenAfter(seen, es))
    decreases es
  {
    if es != [] {
      if !st.status.Fine? { EventsAfterError(st, es); }
      var st' := RunEvent(st, es[0]);
      if !st'.status.Fine? { EventsAfterError(st', es[1..]); }
      var all := ResolvedEvents(seen, es);
      if es[0].Decoded? {
        var next := SeenAfterParts(seen, es[0].chunk.choices);
        ChunkResolved(st, seen, es[0].chunk);
        EventsResolved(st', next, es[1..]);
        assert all[1..] == ResolvedEvents(next, es[1..]);
      } else {
        assert Matches(st', seen) by { assert forall i :: ToolKeys(st', i) == ToolKeys(st, i); }
        EventsResolved(st', seen, es[1..]);
        assert all[1..] == ResolvedEvents(seen, es[1..]);
      }
    }
  }

  /** For every stream without error the tool calls captured for a choice are those seen for it. */
  lemma KeysAreSeen(es: seq<Event>, i: int)
    requires RunEvents(NEW_STATE, es).status.Fine?
    ensures ToolKeys(RunEvents(NEW_STATE, es), i) == SeenAt(SeenAfter(map[], es), i)
  {
    EventsResolved(NEW_STATE, map[], es);
  }

  /** Writing the indexes in leaves the capture as it is. */
  lemma ResolvingChangesNothing(es: seq<Event>)
    requires RunEvents(NEW_STATE, es).status.Fine?
    ensures RunEvents(NEW_STATE, ResolvedEvents(map[], es)) == RunEvents(NEW_STATE, es)
  {
    EventsResolved(NEW_STATE, map[], es);
  }

  /**
    For every stream that is captured without error, each text of each choice, those of its tool calls
    included, is the in-order concatenation of the fragments for it, where a tool call without an
    index counts for the number of tool indexes seen before it in its choice.
   */
  lemma TextsAreConcatenations(es: seq<Event>, i: int, slot: Slot)
    requires RunEvents(NEW_STATE, es).status.Fine?
    ensures TextAt(ChoiceAt(RunEvents(NEW_STATE, es).choices, i), slot) ==
            EventsText(ResolvedEvents(map[], es), i, slot)
  {
    ResolvingChangesNothing(es);
    EventsExplicit(map[], es);
    ExplicitTexts(ResolvedEvents(map[], es), i, slot);
  }
}
