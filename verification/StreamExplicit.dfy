/** Streams whose tool calls bear their index: what a chunk does then depends on the chunk alone. */
module StreamExplicit {
  import opened Wrappers
  import opened StreamState

  predicate ExplicitTools(parts: seq<Option<ToolPart>>) {
    forall k :: 0 <= k < |parts| && parts[k].Some? ==> parts[k].value.index.Some?
  }

  predicate ExplicitPart(p: ChoicePart) {
    p.delta.Some? ==> ExplicitTools(p.delta.value.toolCalls)
  }

  predicate ExplicitParts(parts: seq<Option<ChoicePart>>) {
    forall k :: 0 <= k < |parts| && parts[k].Some? ==> ExplicitPart(parts[k].value)
  }

  /** Every tool call of every chunk bears its index. */
  predicate Explicit(es: seq<Event>) {
    forall k :: 0 <= k < |es| && es[k].Decoded? ==> ExplicitParts(es[k].chunk.choices)
  }

  // ---------------------------------------------------------------- edits without a state

  function ToolsOps(i: int, parts: seq<Option<ToolPart>>): seq<Op> {
    if parts == [] then []
    else if parts[0].None? then ToolsOps(i, parts[1..])
    else
      var p := parts[0].value;
      ToolLog(i, if p.index.Some? then p.index.value else 0, p) + ToolsOps(i, parts[1..])
  }

  function DeltaOps(i: int, d: Delta): seq<Op> {
    TextLog(i, d) + ToolsOps(i, d.toolCalls)
  }

  function PartOps(p: ChoicePart): seq<Op> {
    HeadLog(p) + if p.delta.Some? then DeltaOps(PartIndex(p), p.delta.value) else []
  }

  function PartsOps(parts: seq<Option<ChoicePart>>): seq<Op> {
    if parts == [] then []
    else if parts[0].None? then PartsOps(parts[1..])
    else PartOps(parts[0].value) + PartsOps(parts[1..])
  }

  function ChunkOps(c: Chunk): seq<Op> {
    MetaLog(c) + PartsOps(c.choices)
  }

  lemma {:induction false} ToolsLogOps(st: State, i: int, parts: seq<Option<ToolPart>>)
    requires ExplicitTools(parts)
    ensures ToolsLog(st, i, parts) == ToolsOps(i, parts)
    decreases parts
  {
    if parts != [] {
      if parts[0].None? {
        ToolsLogOps(st, i, parts[1..]);
      } else {
        ToolsLogOps(Run(st, ToolLog(i, parts[0].value.index.value, parts[0].value)), i, parts[1..]);
      }
    }
  }

  lemma PartLogOps(st: State, p: ChoicePart)
    requires ExplicitPart(p)
    ensures PartLog(st, p) == PartOps(p)
  {
    if p.delta.Some? {
      var i, d := PartIndex(p), p.delta.value;
      ToolsLogOps(Run(Run(st, HeadLog(p)), TextLog(i, d)), i, d.toolCalls);
    }
  }

  lemma {:induction false} PartsLogOps(st: State, parts: seq<Option<ChoicePart>>)
    requires ExplicitParts(parts)
    ensures PartsLog(st, parts) == PartsOps(parts)
    decreases parts
  {
    if parts != [] {
      if parts[0].None? {
        PartsLogOps(st, parts[1..]);
      } else {
        PartLogOps(st, parts[0].value);
        PartsLogOps(Run(st, PartLog(st, parts[0].value)), parts[1..]);
      }
    }
  }

  /** With explicit tool indexes, what a chunk does does not depend on what came before. */
  lemma ChunkLogOps(st: State, c: Chunk)
    requires ExplicitParts(c.choices)
    ensures ChunkLog(st, c) == ChunkOps(c)
  {
    PartsLogOps(Run(st, MetaLog(c)), c.choices);
  }
}
