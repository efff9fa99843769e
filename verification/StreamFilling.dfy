/** Filling a hole of a chunk and writing its tool indexes in are independent of each other. */
module StreamFilling {
  import opened Wrappers
  import opened Text
  import opened StreamState
  import opened StreamBudget
  import opened StreamResolve
  import opened StreamHoles

  // ---------------------------------------------------------------- filling and resolving

  lemma {:induction false} ToolsFill(known: set<int>, parts: seq<Option<ToolPart>>, m: nat, named: bool, s: string)
    requires FitsTools(parts, m)
    ensures FitsTools(ResolvedTools(known, parts), m)
    ensures ResolvedTools(known, FillTools(parts, m, named, s)) == FillTools(ResolvedTools(known, parts), m, named, s)
    ensures KnownAfter(known, FillTools(parts, m, named, s)) == KnownAfter(known, parts)
    decreases parts
  {
    var full := FillTools(parts, m, named, s);
    if m == 0 {
      assert full[1..] == parts[1..];
    } else {
      assert full[1..] == FillTools(parts[1..], m - 1, named, s);
      var next := if parts[0].None? then known else known + {Resolved(known, parts[0].value)};
      ToolsFill(next, parts[1..], m - 1, named, s);
    }
  }

  lemma DeltaFill(known: set<int>, d: Delta, h: Hole, s: string)
    requires FitsDelta(d, h)
    ensures var r := d.(toolCalls := ResolvedTools(known, d.toolCalls));
            && FitsDelta(r, h)
            && var f := FillDelta(d, h, s);
               && f.(toolCalls := ResolvedTools(known, f.toolCalls)) == FillDelta(r, h, s)
               && KnownAfter(known, f.toolCalls) == KnownAfter(known, d.toolCalls)
  {
    if h.InTool? { ToolsFill(known, d.toolCalls, h.m, h.named, s); }
  }

  lemma PartFill(seen: Seen, p: ChoicePart, h: Hole, s: string)
    requires p.delta.Some? && FitsDelta(p.delta.value, h)
    ensures ResolvedPart(seen, p).delta.Some? && FitsDelta(ResolvedPart(seen, p).delta.value, h)
    ensures ResolvedPart(seen, FillPart(p, h, s)) == FillPart(ResolvedPart(seen, p), h, s)
    ensures SeenAfterPart(seen, FillPart(p, h, s)) == SeenAfterPart(seen, p)
  {
    DeltaFill(SeenAt(seen, PartIndex(p)), p.delta.value, h, s);
  }

  lemma FirstFill(seen: Seen, parts: seq<Option<ChoicePart>>, h: Hole, s: string)
    requires Fits(parts, 0, h)
    ensures Fits(ResolvedParts(seen, parts), 0, h)
    ensures ResolvedParts(seen, FillParts(parts, 0, h, s)) == FillParts(ResolvedParts(seen, parts), 0, h, s)
    ensures SeenAfterParts(seen, FillParts(parts, 0, h, s)) == SeenAfterParts(seen, parts)
  {
    var p, rest := parts[0].value, parts[1..];
    var full := FillParts(parts, 0, h, s);
    PartFill(seen, p, h, s);
    assert full[0] == Some(FillPart(p, h, s)) && full[1..] == rest;
    assert ResolvedParts(seen, full) ==
           [Some(ResolvedPart(seen, FillPart(p, h, s)))] + ResolvedParts(SeenAfterPart(seen, p), rest);
  }

  lemma {:induction false} PartsFill(seen: Seen, parts: seq<Option<ChoicePart>>, k: nat, h: Hole, s: string)
    requires Fits(parts, k, h)
    ensures Fits(ResolvedParts(seen, parts), k, h)
    ensures ResolvedParts(seen, FillParts(parts, k, h, s)) == FillParts(ResolvedParts(seen, parts), k, h, s)
    ensures SeenAfterParts(seen, FillParts(parts, k, h, s)) == SeenAfterParts(seen, parts)
    decreases parts
  {
    if k == 0 {
      FirstFill(seen, parts, h, s);
    } else {
      var first, rest := parts[0], parts[1..];
      var next := if first.None? then seen else SeenAfterPart(seen, first.value);
      PartsFill(next, rest, k - 1, h, s);
      Later(first, rest, k, h, s);
      Later(if first.None? then first else Some(ResolvedPart(seen, first.value)), ResolvedParts(next, rest), k, h, s);
    }
  }

  lemma Later(first: Option<ChoicePart>, rest: seq<Option<ChoicePart>>, k: nat, h: Hole, s: string)
    requires k > 0 && Fits(rest, k - 1, h)
    ensures Fits([first] + rest, k, h) && FillParts([first] + rest, k, h, s) == [first] + FillParts(rest, k - 1, h, s)
  {
  }

  lemma {:induction false} ResolvedIndex(seen: Seen, parts: seq<Option<ChoicePart>>, k: nat)
    requires k < |parts| && parts[k].Some?
    ensures k < |ResolvedParts(seen, parts)| && ResolvedParts(seen, parts)[k].Some?
    ensures PartIndex(ResolvedParts(seen, parts)[k].value) == PartIndex(parts[k].value)
    decreases parts
  {
    if k > 0 {
      ResolvedIndex(if parts[0].None? then seen else SeenAfterPart(seen, parts[0].value), parts[1..], k - 1);
    }
  }

  lemma {:induction false} ToolsFillBytes(parts: seq<Option<ToolPart>>, m: nat, named: bool, s: string)
    requires FitsTools(parts, m)
    ensures ToolPartsBytes(FillTools(parts, m, named, s)) == ToolPartsBytes(FillTools(parts, m, named, "")) + ByteLen(s)
    decreases parts
  {
    var a, b := FillTools(parts, m, named, s), FillTools(parts, m, named, "");
    if m == 0 {
      assert a[1..] == parts[1..] && b[1..] == parts[1..];
    } else {
      assert a[1..] == FillTools(parts[1..], m - 1, named, s) && b[1..] == FillTools(parts[1..], m - 1, named, "");
      ToolsFillBytes(parts[1..], m - 1, named, s);
    }
  }

  lemma {:induction false} FillBytes(parts: seq<Option<ChoicePart>>, k: nat, h: Hole, s: string)
    requires Fits(parts, k, h)
    ensures PartsBytes(FillParts(parts, k, h, s)) == PartsBytes(FillParts(parts, k, h, "")) + ByteLen(s)
    decreases parts
  {
    var a, b := FillParts(parts, k, h, s), FillParts(parts, k, h, "");
    if k == 0 {
      assert a[1..] == parts[1..] && b[1..] == parts[1..];
      if h.InTool? { ToolsFillBytes(parts[0].value.delta.value.toolCalls, h.m, h.named, s); }
    } else {
      assert a[1..] == FillParts(parts[1..], k - 1, h, s) && b[1..] == FillParts(parts[1..], k - 1, h, "");
      FillBytes(parts[1..], k - 1, h, s);
    }
  }
}
