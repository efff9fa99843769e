/** Collecting the results of a partial function along a list of names. */
module Gathering {
  import opened Wrappers

  predicate Distinct<T(==)>(ids: seq<T>) {
    forall i, j :: 0 <= i < j < |ids| ==> ids[i] != ids[j]
  }

  function Kept<T>(x: Option<T>): seq<T> {
    if x.Some? then [x.value] else []
  }

  function Gather<I, T>(f: I -> Option<T>, ids: seq<I>): seq<T> {
    if ids == [] then [] else Gather(f, ids[..|ids| - 1]) + Kept(f(ids[|ids| - 1]))
  }

  lemma GatherSnoc<I, T>(f: I -> Option<T>, ids: seq<I>, id: I)
    ensures Gather(f, ids + [id]) == Gather(f, ids) + Kept(f(id))
  {
    assert (ids + [id])[..|ids|] == ids;
  }

  ghost function Givers<T>(f: string -> Option<T>, ids: seq<string>): set<string> {
    set id | id in ids && f(id).Some?
  }

  ghost function GiversOf<T(!new)>(f: string -> Option<T>, ids: seq<string>, x: T): set<string> {
    set id | id in ids && f(id) == Some(x)
  }

  lemma Last(ids: seq<string>)
    requires ids != [] && Distinct(ids)
    ensures var n := |ids| - 1;
            Distinct(ids[..n]) && ids[n] !in ids[..n] && forall id :: id in ids <==> id in ids[..n] || id == ids[n]
  {
    var n := |ids| - 1;
    assert ids == ids[..n] + [ids[n]];
  }

  lemma {:induction false} GatherSize<T>(f: string -> Option<T>, ids: seq<string>)
    requires Distinct(ids)
    ensures |Gather(f, ids)| == |Givers(f, ids)|
    decreases ids
  {
    if ids != [] {
      var n := |ids| - 1;
      Last(ids);
      GatherSize(f, ids[..n]);
      assert Givers(f, ids) == Givers(f, ids[..n]) + if f(ids[n]).Some? then {ids[n]} else {};
    }
  }

  lemma {:induction false} GatherCount<T(!new)>(f: string -> Option<T>, ids: seq<string>, x: T)
    requires Distinct(ids)
    ensures multiset(Gather(f, ids))[x] == |GiversOf(f, ids, x)|
    decreases ids
  {
    if ids != [] {
      var n := |ids| - 1;
      Last(ids);
      GatherCount(f, ids[..n], x);
      assert GiversOf(f, ids, x) == GiversOf(f, ids[..n], x) + if f(ids[n]) == Some(x) then {ids[n]} else {};
    }
  }

  lemma {:induction false} GatherMembers<I(!new), T>(f: I -> Option<T>, ids: seq<I>, x: T)
    ensures x in Gather(f, ids) <==> exists id :: id in ids && f(id) == Some(x)
    decreases ids
  {
    if ids != [] {
      var n := |ids| - 1;
      assert ids == ids[..n] + [ids[n]];
      GatherMembers(f, ids[..n], x);
      if x in Gather(f, ids) && x !in Gather(f, ids[..n]) {
        assert f(ids[n]) == Some(x);
      }
    }
  }

  lemma {:induction false} GatherEmpty<I(!new), T>(f: I -> Option<T>, ids: seq<I>)
    ensures Gather(f, ids) == [] <==> forall id :: id in ids ==> f(id).None?
    decreases ids
  {
    if ids != [] {
      var n := |ids| - 1;
      assert ids == ids[..n] + [ids[n]];
      GatherEmpty(f, ids[..n]);
    }
  }

  function Then<I, S, T>(f: I -> Option<S>, g: S -> Option<T>): I -> Option<T> {
    id => if f(id).Some? then g(f(id).value) else None
  }

  /** Gathering from what was gathered is gathering once. */
  lemma {:induction false} GatherThen<I, S, T>(f: I -> Option<S>, g: S -> Option<T>, ids: seq<I>)
    ensures Gather(g, Gather(f, ids)) == Gather(Then(f, g), ids)
    decreases ids
  {
    if ids != [] {
      var n := |ids| - 1;
      var inner := Gather(f, ids[..n]);
      GatherThen(f, g, ids[..n]);
      if f(ids[n]).Some? {
        GatherSnoc(g, inner, f(ids[n]).value);
      } else {
        assert Gather(f, ids) == inner;
      }
    }
  }

  lemma {:induction false} GatherConcat<I, T>(f: I -> Option<T>, a: seq<I>, b: seq<I>)
    ensures Gather(f, a + b) == Gather(f, a) + Gather(f, b)
    decreases b
  {
    if b == [] {
      assert a + b == a;
    } else {
      var n := |b| - 1;
      assert (a + b)[..|a| + n] == a + b[..n];
      GatherConcat(f, a, b[..n]);
    }
  }

  lemma {:induction false} GatherAll<T>(f: T -> Option<T>, xs: seq<T>)
    requires forall x :: x in xs ==> f(x) == Some(x)
    ensures Gather(f, xs) == xs
    decreases xs
  {
    if xs != [] {
      var n := |xs| - 1;
      assert xs == xs[..n] + [xs[n]];
      GatherAll(f, xs[..n]);
    }
  }

  lemma {:induction false} AllGathered<I, T>(f: I -> Option<T>, ids: seq<I>)
    requires forall k :: 0 <= k < |ids| ==> f(ids[k]).Some?
    ensures |Gather(f, ids)| == |ids|
    ensures forall k :: 0 <= k < |ids| ==> Some(Gather(f, ids)[k]) == f(ids[k])
    decreases ids
  {
    if ids != [] { AllGathered(f, ids[..|ids| - 1]); }
  }

  lemma GatherSkips<I, T>(f: I -> Option<T>, before: seq<I>, id: I, after: seq<I>)
    requires f(id).None?
    ensures Gather(f, before + [id] + after) == Gather(f, before + after)
  {
    GatherConcat(f, before + [id], after);
    GatherSnoc(f, before, id);
    GatherConcat(f, before, after);
    assert Gather(f, before) + [] == Gather(f, before);
  }

  function First<T>(xs: seq<T>, n: nat): seq<T> {
    if |xs| <= n then xs else xs[..n]
  }

  /** Once enough results are there, the rest of the list cannot change them. */
  lemma FirstReached<I, T>(f: I -> Option<T>, ids: seq<I>, k: nat)
    requires k <= |ids|
    ensures First(Gather(f, ids), |Gather(f, ids[..k])|) == Gather(f, ids[..k])
  {
    assert ids == ids[..k] + ids[k..];
    GatherConcat(f, ids[..k], ids[k..]);
  }

  lemma GatherNext<I, T>(f: I -> Option<T>, ids: seq<I>, k: nat)
    requires k < |ids|
    ensures Gather(f, ids[..k + 1]) == Gather(f, ids[..k]) + Kept(f(ids[k]))
  {
    assert ids[..k + 1] == ids[..k] + [ids[k]];
    GatherSnoc(f, ids[..k], ids[k]);
  }

  /** Results up to a number of them: one is added before the number is looked at. */
  method Collect<I, T>(f: I -> Option<T>, ids: seq<I>, limit: nat) returns (out: seq<T>)
    ensures out == First(Gather(f, ids), if limit == 0 then 1 else limit)
  {
    out := [];
    for k := 0 to |ids|
      invariant out == Gather(f, ids[..k])
      invariant |out| < limit || out == []
    {
      GatherNext(f, ids, k);
      var x := f(ids[k]);
      if x.None? {
        continue;
      }
      out := out + [x.value];
      if |out| >= limit {
        FirstReached(f, ids, k + 1);
        return;
      }
    }
    assert ids[..|ids|] == ids;
  }

  // ---------------------------------------------------------------- first occurrences

  function Uniq<T(==, !new)>(xs: seq<T>): (r: seq<T>)
    ensures Distinct(r) && forall x :: x in r <==> x in xs
  {
    if xs == [] then []
    else
      var n := |xs| - 1;
      assert xs == xs[..n] + [xs[n]];
      var r := Uniq(xs[..n]);
      if xs[n] in r then r else r + [xs[n]]
  }

  lemma UniqKept<T(!new)>(xs: seq<T>, x: Option<T>)
    ensures Uniq(xs + Kept(x)) == if x.None? || x.value in Uniq(xs) then Uniq(xs) else Uniq(xs) + [x.value]
  {
    if x.None? {
      assert xs + Kept(x) == xs;
    } else {
      assert (xs + [x.value])[..|xs|] == xs;
    }
  }

  lemma {:induction false} UniqDistinct<T(!new)>(xs: seq<T>)
    requires Distinct(xs)
    ensures Uniq(xs) == xs
    decreases xs
  {
    if xs != [] {
      var n := |xs| - 1;
      UniqDistinct(xs[..n]);
      assert xs == xs[..n] + [xs[n]];
    }
  }
}
