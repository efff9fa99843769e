/**
  Recording each transform of a request once (internal/httpapi/debug_trace.go,
  internal/upstreamcompat/chat_completions.go).
 */
module TraceTransforms {
  import opened Wrappers
  import opened Text
  import opened StringOrder
  import opened Gathering

  datatype Transform = Transform(stage: string, class_: string, hook: string, fields: seq<string>, decision: string)

  // ---------------------------------------------------------------- names

  function Name(v: string): Option<string> {
    if TrimSpace(v) == "" then None else Some(TrimSpace(v))
  }

  /** Trimmed, without blanks or repetitions, in order. */
  function Names(values: seq<string>): seq<string> {
    Arrange(Uniq(Gather(Name, values)))
  }

  method NormalizeHookNames(values: seq<string>) returns (out: seq<string>)
    ensures out == Names(values)
  {
    out := [];
    var seen: set<string> := {};
    for k := 0 to |values|
      invariant out == Uniq(Gather(Name, values[..k]))
      invariant forall x :: x in seen <==> x in out
    {
      GatherNext(Name, values, k);
      var value := TrimSpace(values[k]);
      if value == "" {
        assert Gather(Name, values[..k + 1]) == Gather(Name, values[..k]);
        continue;
      }
      assert Kept(Name(values[k])) == [value];
      UniqKept(Gather(Name, values[..k]), Some(value));
      if value in seen {
        continue;
      }
      seen := seen + {value};
      out := out + [value];
    }
    assert values[..|values|] == values;
    out := Sort(out);
  }

  /** What a normalised list of names is. */
  predicate AreNames(xs: seq<string>) {
    Sorted(xs) && Distinct(xs) && forall x :: x in xs ==> x != "" && IsTrimmed(x)
  }

  lemma NamesAreNames(values: seq<string>)
    ensures AreNames(Names(values))
  {
    var given := Uniq(Gather(Name, values));
    ArrangeSorts(given);
    DistinctArrange(given);
    forall x | x in Names(values) ensures x != "" && IsTrimmed(x) {
      GatherMembers(Name, values, x);
      var v :| v in values && Name(v) == Some(x);
      var a, b := TrimParts(v);
    }
  }

  /** `x` is given, but for white space around it. */
  predicate Gives(values: seq<string>, x: string) {
    x != "" && exists v :: v in values && TrimSpace(v) == x
  }

  /** The names are those given; blank ones are none. */
  lemma NamesGiven(values: seq<string>, x: string)
    ensures x in Names(values) <==> Gives(values, x)
  {
    var given := Uniq(Gather(Name, values));
    ArrangeSorts(given);
    assert x in multiset(Names(values)) <==> x in multiset(given);
    GatherMembers(Name, values, x);
    if x != "" {
      forall v | v in values && TrimSpace(v) == x ensures Name(v) == Some(x) {}
    }
  }

  /** A list of names is left alone exactly when it already is one; so normalising twice is normalising once. */
  lemma NamesIff(values: seq<string>)
    ensures Names(values) == values <==> AreNames(values)
  {
    NamesAreNames(values);
    if AreNames(values) {
      forall v | v in values ensures Name(v) == Some(v) { TrimOfTrimmed(v); }
      GatherAll(Name, values);
      UniqDistinct(values);
      ArrangeSorts(values);
      SortedUnique(values, Arrange(values));
    }
  }

  // ---------------------------------------------------------------- transforms

  function Clean(t: Transform): Transform {
    Transform(TrimSpace(t.stage), TrimSpace(t.class_), TrimSpace(t.hook), Names(t.fields), TrimSpace(t.decision))
  }

  lemma CleanTwice(t: Transform)
    ensures Clean(Clean(t)) == Clean(t)
  {
    TrimTwice(t.stage);
    TrimTwice(t.class_);
    TrimTwice(t.hook);
    TrimTwice(t.decision);
    NamesAreNames(t.fields);
    NamesIff(Names(t.fields));
  }

  predicate Same(a: Transform, b: Transform) {
    Clean(a) == Clean(b)
  }

  ghost predicate SameNames(a: seq<string>, b: seq<string>) {
    forall x :: Gives(a, x) <==> Gives(b, x)
  }

  lemma SameNamesIff(a: seq<string>, b: seq<string>)
    ensures Names(a) == Names(b) <==> SameNames(a, b)
  {
    forall x ensures x in Names(a) <==> Gives(a, x) { NamesGiven(a, x); }
    forall x ensures x in Names(b) <==> Gives(b, x) { NamesGiven(b, x); }
    NamesAreNames(a);
    NamesAreNames(b);
    if SameNames(a, b) {
      SameElements(Names(a), Names(b));
      SortedUnique(Names(a), Names(b));
    }
  }

  lemma SameElements(xs: seq<string>, ys: seq<string>)
    requires Distinct(xs) && Distinct(ys) && forall x :: x in xs <==> x in ys
    ensures multiset(xs) == multiset(ys)
  {
    forall x ensures multiset(xs)[x] == multiset(ys)[x] {
      if x in xs {
        DistinctOnce(xs, x);
        DistinctOnce(ys, x);
      }
    }
  }

  /**
    Two transforms are the same exactly when stage, class, hook and decision agree but for white space around
    them, and their fields have the same names.
   */
  lemma SameIff(a: Transform, b: Transform)
    ensures Same(a, b) <==>
            && TrimSpace(a.stage) == TrimSpace(b.stage) && TrimSpace(a.class_) == TrimSpace(b.class_)
            && TrimSpace(a.hook) == TrimSpace(b.hook) && TrimSpace(a.decision) == TrimSpace(b.decision)
            && SameNames(a.fields, b.fields)
  {
    SameNamesIff(a.fields, b.fields);
  }

  /** What is recorded: nothing without a stage and a class. */
  function Recorded(t: Transform): Option<Transform> {
    if TrimSpace(t.stage) == "" || TrimSpace(t.class_) == "" then None else Some(Clean(t))
  }

  predicate Holds(transforms: seq<Transform>, t: Transform) {
    exists k :: 0 <= k < |transforms| && Same(transforms[k], t)
  }

  function AppendOnce(transforms: seq<Transform>, t: Transform): seq<Transform> {
    if Recorded(t).None? || Holds(transforms, t) then transforms else transforms + [Recorded(t).value]
  }

  /** A transform is recorded exactly when it has a stage and a class and none like it is there yet. */
  lemma RecordedIff(transforms: seq<Transform>, t: Transform)
    ensures |AppendOnce(transforms, t)| == |transforms| + 1 <==>
            && !AllSpace(t.stage) && !AllSpace(t.class_)
            && forall k :: 0 <= k < |transforms| ==> !Same(transforms[k], t)
    ensures |AppendOnce(transforms, t)| == |transforms| + 1 ==>
            AppendOnce(transforms, t)[..|transforms|] == transforms && Same(AppendOnce(transforms, t)[|transforms|], t)
    ensures |AppendOnce(transforms, t)| != |transforms| + 1 ==> AppendOnce(transforms, t) == transforms
  {
    AllSpaceIffBlank(t.stage);
    AllSpaceIffBlank(t.class_);
    CleanTwice(t);
  }

  method AppendTransformOnce(transforms: seq<Transform>, t: Transform) returns (r: seq<Transform>)
    ensures r == AppendOnce(transforms, t)
  {
    var stage, class_ := TrimSpace(t.stage), TrimSpace(t.class_);
    if stage == "" || class_ == "" {
      return transforms;
    }
    var clean := Clean(t);
    HoldsClean(transforms, t);
    var held := FindSame(transforms, clean);
    return if held then transforms else transforms + [clean];
  }

  method FindSame(transforms: seq<Transform>, t: Transform) returns (held: bool)
    ensures held <==> Holds(transforms, t)
  {
    for k := 0 to |transforms|
      invariant forall j :: 0 <= j < k ==> !Same(transforms[j], t)
    {
      if Same(transforms[k], t) {
        return true;
      }
    }
    return false;
  }

  lemma HoldsClean(transforms: seq<Transform>, t: Transform)
    ensures Holds(transforms, Clean(t)) <==> Holds(transforms, t)
  {
    CleanTwice(t);
    assert forall a :: Same(a, Clean(t)) <==> Same(a, t);
  }

  function AppendAll(ts: seq<Transform>): seq<Transform> {
    if ts == [] then [] else AppendOnce(AppendAll(ts[..|ts| - 1]), ts[|ts| - 1])
  }

  ghost predicate AllClean(ts: seq<Transform>) {
    forall t :: t in ts ==> Clean(t) == t
  }

  lemma HoldsIff(ts: seq<Transform>, t: Transform)
    requires AllClean(ts)
    ensures Holds(ts, t) <==> Clean(t) in ts
  {
    CleanTwice(t);
    if Holds(ts, t) {
      var k :| 0 <= k < |ts| && Same(ts[k], t);
      assert ts[k] in ts && Clean(ts[k]) == ts[k];
    }
    if Clean(t) in ts {
      var k :| 0 <= k < |ts| && ts[k] == Clean(t);
      assert Same(ts[k], t);
    }
  }

  /** On a clean list, recording adds what is new. */
  lemma OnceIff(ts: seq<Transform>, t: Transform, x: Option<Transform>)
    requires AllClean(ts) && x == Recorded(t)
    ensures AppendOnce(ts, t) == if x.None? || x.value in ts then ts else ts + [x.value]
    ensures AllClean(AppendOnce(ts, t))
  {
    HoldsIff(ts, t);
    CleanTwice(t);
  }

  /** However transforms are recorded, the list is that of their clean forms, each at its first occurrence. */
  lemma {:induction false} AppendedAreUnique(ts: seq<Transform>)
    ensures AppendAll(ts) == Uniq(Gather(Recorded, ts)) && AllClean(AppendAll(ts))
    decreases ts
  {
    if ts != [] {
      var n := |ts| - 1;
      var x := Recorded(ts[n]);
      AppendedAreUnique(ts[..n]);
      OnceIff(AppendAll(ts[..n]), ts[n], x);
      UniqKept(Gather(Recorded, ts[..n]), x);
    }
  }

  /** Recording the same transform again changes nothing, whatever was there. */
  lemma AppendTwice(transforms: seq<Transform>, t: Transform)
    ensures AppendOnce(AppendOnce(transforms, t), t) == AppendOnce(transforms, t)
    ensures transforms <= AppendOnce(transforms, t)
  {
    CleanTwice(t);
    var r := AppendOnce(transforms, t);
    if r != transforms {
      assert Same(r[|transforms|], t);
    }
  }
}
