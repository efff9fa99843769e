/** The state a compaction carries: normalising, encoding, decoding and rendering it (internal/domain/compaction.go). */
module CompactionState {
  import opened Wrappers
  import opened Text
  import opened Gathering

  datatype State = State(summary: string, keyFacts: seq<string>, constraints: seq<string>, openLoops: seq<string>,
                         toolState: seq<string>)

  const ELLIPSIS: string := [0x2026 as char]
  const NO_CONTEXT := "No prior context was provided."
  const HEADING := "Compacted prior context summary:\n"

  // ---------------------------------------------------------------- truncation

  function TruncateRunes(s: string, limit: int): (r: string)
    ensures |r| <= limit || r == ""
    ensures 0 < limit < |s| ==> |r| == limit
  {
    if limit <= 0 then ""
    else if |s| <= limit then s
    else if limit == 1 then s[..1]
    else s[..limit - 1] + ELLIPSIS
  }

  /** Trim, then truncate; a blank value is dropped. */
  function Clean(s: string, limit: int): Option<string> {
    var t := TruncateRunes(TrimSpace(s), limit);
    if t == "" then None else Some(t)
  }

  /** What is short enough stays; of a longer text as much is kept as leaves room for an ellipsis. */
  lemma TruncatedIs(s: string, limit: int)
    ensures limit <= 0 ==> TruncateRunes(s, limit) == ""
    ensures |s| <= limit ==> TruncateRunes(s, limit) == s
    ensures 1 < limit < |s| ==> TruncateRunes(s, limit) == s[..limit - 1] + ['\U{2026}']
    ensures 1 == limit < |s| ==> TruncateRunes(s, limit) == [s[0]]
  {
  }

  lemma TruncatedStaysTrimmed(s: string, limit: int)
    requires IsTrimmed(s)
    ensures IsTrimmed(TruncateRunes(s, limit))
    ensures limit > 0 ==> (TruncateRunes(s, limit) == "" <==> s == "")
  {
  }

  /** What cleaning keeps, cleaning again leaves alone. */
  lemma CleanTwice(s: string, limit: int)
    ensures TruncateRunes(TrimSpace(TruncateRunes(TrimSpace(s), limit)), limit) == TruncateRunes(TrimSpace(s), limit)
  {
    var a, b := TrimParts(s);
    var t := TruncateRunes(TrimSpace(s), limit);
    TruncatedStaysTrimmed(TrimSpace(s), limit);
    TrimOfTrimmed(t);
  }

  // ---------------------------------------------------------------- normalisation

  function Cleaner(limit: int): string -> Option<string> {
    (v: string) => Clean(v, limit)
  }

  function NormalizeList(values: seq<string>, maxItems: nat, maxRunes: int): seq<string> {
    First(Gather(Cleaner(maxRunes), values), if maxItems == 0 then 1 else maxItems)
  }

  method NormalizedList(values: seq<string>, maxItems: nat, maxRunes: int) returns (out: seq<string>)
    ensures out == NormalizeList(values, maxItems, maxRunes)
  {
    out := Collect(Cleaner(maxRunes), values, maxItems);
  }

  /** What a normalised list holds: few enough entries, each trimmed, not blank and short enough. */
  predicate IsNormalList(values: seq<string>, maxItems: nat, maxRunes: int) {
    && |values| <= (if maxItems == 0 then 1 else maxItems)
    && forall v :: v in values ==> v != "" && IsTrimmed(v) && |v| <= maxRunes
  }

  lemma CleanIsNormal(v: string, maxRunes: int)
    ensures Clean(v, maxRunes).Some? ==>
              var w := Clean(v, maxRunes).value; w != "" && IsTrimmed(w) && |w| <= maxRunes
  {
    var a, b := TrimParts(v);
    TruncatedStaysTrimmed(TrimSpace(v), maxRunes);
  }

  lemma NormalizeListNormal(values: seq<string>, maxItems: nat, maxRunes: int)
    ensures IsNormalList(NormalizeList(values, maxItems, maxRunes), maxItems, maxRunes)
  {
    var f := Cleaner(maxRunes);
    forall v | v in NormalizeList(values, maxItems, maxRunes) ensures v != "" && IsTrimmed(v) && |v| <= maxRunes {
      assert v in Gather(f, values);
      GatherMembers(f, values, v);
      var u :| u in values && f(u) == Some(v);
      CleanIsNormal(u, maxRunes);
    }
  }

  /** A list is left alone exactly when it is normal. */
  lemma NormalListIff(values: seq<string>, maxItems: nat, maxRunes: int)
    ensures NormalizeList(values, maxItems, maxRunes) == values <==> IsNormalList(values, maxItems, maxRunes)
  {
    NormalizeListNormal(values, maxItems, maxRunes);
    if IsNormalList(values, maxItems, maxRunes) {
      var f := Cleaner(maxRunes);
      forall v | v in values ensures f(v) == Some(v) { TrimOfTrimmed(v); }
      GatherAll(f, values);
    }
  }

  /** Of entries that are not blank the first are kept, as many as there may be, each trimmed and cut. */
  lemma NormalizeKeeps(values: seq<string>, maxItems: nat, maxRunes: int)
    requires maxRunes > 0 && forall k :: 0 <= k < |values| ==> TrimSpace(values[k]) != ""
    ensures |NormalizeList(values, maxItems, maxRunes)| ==
            var most := if maxItems == 0 then 1 else maxItems; if |values| < most then |values| else most
    ensures forall k :: 0 <= k < |NormalizeList(values, maxItems, maxRunes)| ==>
              NormalizeList(values, maxItems, maxRunes)[k] == TruncateRunes(TrimSpace(values[k]), maxRunes)
  {
    AllGathered(Cleaner(maxRunes), values);
  }

  /** A blank entry changes nothing. */
  lemma NormalizeSkips(before: seq<string>, blank: string, after: seq<string>, maxItems: nat, maxRunes: int)
    requires TrimSpace(blank) == ""
    ensures NormalizeList(before + [blank] + after, maxItems, maxRunes) ==
            NormalizeList(before + after, maxItems, maxRunes)
  {
    GatherSkips(Cleaner(maxRunes), before, blank, after);
  }

  function Normalize(s: State): State {
    State(TruncateRunes(TrimSpace(s.summary), 4096), NormalizeList(s.keyFacts, 16, 512),
          NormalizeList(s.constraints, 16, 512),
          NormalizeList(s.openLoops, 16, 512), NormalizeList(s.toolState, 16, 512))
  }

  /** A state is left alone exactly when its summary and its lists are within their bounds. */
  lemma NormalStateIff(s: State)
    ensures Normalize(s) == s <==>
            && IsTrimmed(s.summary) && |s.summary| <= 4096
            && IsNormalList(s.keyFacts, 16, 512) && IsNormalList(s.constraints, 16, 512)
            && IsNormalList(s.openLoops, 16, 512) && IsNormalList(s.toolState, 16, 512)
  {
    var a, b := TrimParts(s.summary);
    TruncatedStaysTrimmed(TrimSpace(s.summary), 4096);
    if IsTrimmed(s.summary) { TrimOfTrimmed(s.summary); }
    NormalListIff(s.keyFacts, 16, 512);
    NormalListIff(s.constraints, 16, 512);
    NormalListIff(s.openLoops, 16, 512);
    NormalListIff(s.toolState, 16, 512);
  }

  /** Normalising twice is normalising once. */
  lemma NormalizeTwice(s: State)
    ensures Normalize(Normalize(s)) == Normalize(s)
  {
    CleanTwice(s.summary, 4096);
    ListTwice(s.keyFacts);
    ListTwice(s.constraints);
    ListTwice(s.openLoops);
    ListTwice(s.toolState);
  }

  lemma ListTwice(values: seq<string>)
    ensures NormalizeList(NormalizeList(values, 16, 512), 16, 512) == NormalizeList(values, 16, 512)
  {
    NormalizeListNormal(values, 16, 512);
    NormalListIff(NormalizeList(values, 16, 512), 16, 512);
  }

  predicate IsEmpty(s: State) {
    TrimSpace(s.summary) == "" && s.keyFacts == [] && s.constraints == [] && s.openLoops == [] && s.toolState == []
  }

  predicate AllBlank(values: seq<string>) {
    forall v :: v in values ==> AllSpace(v)
  }

  lemma BlankCleaned(v: string, limit: int)
    requires limit > 0
    ensures Clean(v, limit).None? <==> AllSpace(v)
  {
    var a, b := TrimParts(v);
    TruncatedStaysTrimmed(TrimSpace(v), limit);
    AllSpaceIffBlank(v);
  }

  lemma BlankListIff(values: seq<string>)
    ensures NormalizeList(values, 16, 512) == [] <==> AllBlank(values)
  {
    var f := Cleaner(512);
    forall v ensures f(v).None? <==> AllSpace(v) { BlankCleaned(v, 512); }
    GatherEmpty(f, values);
  }

  /** A state is not stored exactly when nothing in it is more than white space. */
  lemma EmptyIffBlank(s: State)
    ensures IsEmpty(Normalize(s)) <==>
            && AllSpace(s.summary) && AllBlank(s.keyFacts) && AllBlank(s.constraints) && AllBlank(s.openLoops)
            && AllBlank(s.toolState)
  {
    BlankListIff(s.keyFacts);
    BlankListIff(s.constraints);
    BlankListIff(s.openLoops);
    BlankListIff(s.toolState);
    var a, b := TrimParts(s.summary);
    TruncatedStaysTrimmed(TrimSpace(s.summary), 4096);
    TrimOfTrimmed(TruncateRunes(TrimSpace(s.summary), 4096));
    AllSpaceIffBlank(s.summary);
  }

  // ---------------------------------------------------------------- payloads

  /** A payload whose retained items are of type `R`. */
  datatype Payload<R> = Payload(version: int, summary: string, itemCount: int, mode: string, state: Option<State>,
                                retained: seq<R>)

  function Encode<R>(summary: string, itemCount: int, mode: string, state: State, retained: seq<R>): Payload<R> {
    var normal := Normalize(state);
    Payload(1, TrimSpace(summary), itemCount, TrimSpace(mode), if IsEmpty(normal) then None else Some(normal), retained)
  }

  /** `sealed` is what the codec makes of the content: nothing when it is foreign or damaged. */
  function Decode<R>(sealed: Option<Payload<R>>): Option<Payload<R>> {
    if sealed.None? || sealed.value.version != 1 then None
    else
      var p := sealed.value;
      Some(p.(summary := TrimSpace(p.summary), state := if p.state.None? then None else Some(Normalize(p.state.value))))
  }

  /** Decoding what was encoded gives back exactly what was encoded, and that is what was given, normalised. */
  lemma EncodeDecode<R>(summary: string, itemCount: int, mode: string, state: State, retained: seq<R>)
    ensures var p := Encode(summary, itemCount, mode, state, retained); Decode(Some(p)) == Some(p)
    ensures var p := Encode(summary, itemCount, mode, state, retained);
            && p.summary == TrimSpace(summary) && p.itemCount == itemCount && p.mode == TrimSpace(mode)
            && p.retained == retained && p.state == if IsEmpty(Normalize(state)) then None else Some(Normalize(state))
  {
    NormalizeTwice(state);
    TrimTwice(summary);
  }

  /** Decoding is settled after one time, and only the version can fail it. */
  lemma DecodeSettles<R>(p: Payload<R>)
    ensures Decode(Some(p)).Some? <==> p.version == 1
    ensures Decode(Some(p)).Some? ==> Decode(Decode(Some(p))) == Decode(Some(p))
    ensures Decode(Some(p)).Some? ==>
              var q := Decode(Some(p)).value;
              && q.summary == TrimSpace(p.summary) && q.itemCount == p.itemCount && q.mode == p.mode
              && q.retained == p.retained && (q.state.Some? <==> p.state.Some?)
              && (q.state.Some? ==> q.state.value == Normalize(p.state.value))
  {
    TrimTwice(p.summary);
    if p.state.Some? {
      NormalizeTwice(p.state.value);
    }
  }

  // ---------------------------------------------------------------- rendering

  function WriteEntries(values: seq<string>): string {
    if values == [] then ""
    else
      var n := |values| - 1;
      var trimmed := TrimSpace(values[n]);
      WriteEntries(values[..n]) + if trimmed == "" then "" else "- " + trimmed + "\n"
  }

  function WriteList(title: string, values: seq<string>): string {
    if values == [] then "" else "\n\n" + title + ":\n" + WriteEntries(values)
  }

  method WrittenList(before: string, title: string, values: seq<string>) returns (builder: string)
    ensures builder == before + WriteList(title, values)
  {
    builder := before;
    if |values| == 0 {
      return;
    }
    builder := builder + ("\n\n" + title + ":\n");
    var entries := WrittenEntries(values);
    builder := builder + entries;
  }

  method WrittenEntries(values: seq<string>) returns (entries: string)
    ensures entries == WriteEntries(values)
  {
    entries := "";
    for k := 0 to |values|
      invariant entries == WriteEntries(values[..k])
    {
      assert values[..k + 1][..k] == values[..k];
      var trimmed := TrimSpace(values[k]);
      if trimmed == "" {
        continue;
      }
      entries := entries + ("- " + trimmed + "\n");
    }
    assert values[..|values|] == values;
  }

  function OrDefault(s: string): string {
    if s == "" then NO_CONTEXT else s
  }

  function SummaryMessage(summary: string): string {
    HEADING + OrDefault(TrimSpace(summary))
  }

  function Lists(s: State): string {
    WriteList("Key facts", s.keyFacts) + WriteList("Constraints", s.constraints)
    + WriteList("Open loops", s.openLoops) + WriteList("Recent tool state", s.toolState)
  }

  function Render<R>(p: Payload<R>): string {
    if p.state.None? || IsEmpty(p.state.value) then SummaryMessage(p.summary)
    else
      var state := Normalize(p.state.value);
      var summary := TrimSpace(state.summary);
      HEADING + OrDefault(if summary == "" then TrimSpace(p.summary) else summary) + Lists(state)
  }

  lemma EmptyLists(s: State)
    requires IsEmpty(s)
    ensures Lists(s) == ""
  {
  }

  /** Rendering sees only the normalised state, also where normalising empties it. */
  lemma RenderNormalized<R>(p: Payload<R>, state: State)
    ensures Render(p.(state := Some(Normalize(state)))) == Render(p.(state := Some(state)))
  {
    NormalizeTwice(state);
    TrimTwice(state.summary);
    var a, b := TrimParts(state.summary);
    TruncatedStaysTrimmed(TrimSpace(state.summary), 4096);
    if IsEmpty(state) {
      assert Normalize(state) == State("", [], [], [], []);
      assert TrimSpace("") == "";
    } else if IsEmpty(Normalize(state)) {
      EmptyLists(Normalize(state));
    }
  }

  /** What is encoded, decoded and rendered is the rendering of the state that was given. */
  lemma RoundTripRenders<R>(summary: string, itemCount: int, mode: string, state: State, retained: seq<R>)
    ensures var p := Encode(summary, itemCount, mode, state, retained);
            && Decode(Some(p)).Some?
            && Render(Decode(Some(p)).value) == Render(Payload(1, summary, itemCount, mode, Some(state), retained))
  {
    EncodeDecode(summary, itemCount, mode, state, retained);
    var given := Payload(1, TrimSpace(summary), itemCount, TrimSpace(mode), Some(state), retained);
    RenderNormalized(given, state);
    TrimTwice(summary);
    EmptyRenders(given, Normalize(state));
  }

  lemma EmptyRenders<R>(p: Payload<R>, state: State)
    requires p.state.Some?
    ensures IsEmpty(state) ==> Render(p.(state := None)) == Render(p.(state := Some(state)))
  {
  }

  /** Every entry of a normalised list is shown on a line of its own. */
  lemma {:induction false} EntriesShown(values: seq<string>, k: nat) returns (a: string, b: string)
    requires k < |values| && IsTrimmed(values[k]) && values[k] != ""
    ensures WriteEntries(values) == a + ("- " + values[k] + "\n") + b
    decreases values
  {
    var n := |values| - 1;
    TrimOfTrimmed(values[k]);
    if k == n {
      a, b := WriteEntries(values[..n]), "";
      assert WriteEntries(values) == a + ("- " + values[k] + "\n");
    } else {
      a, b := EntriesShown(values[..n], k);
      var last := if TrimSpace(values[n]) == "" then "" else "- " + TrimSpace(values[n]) + "\n";
      assert WriteEntries(values) == WriteEntries(values[..n]) + last;
      b := b + last;
    }
  }
}
