/** Count maps, as the evaluation reports keep them: a missing key counts zero. */
module Tallies {
  import opened Collections

  function Get<K>(m: map<K, nat>, k: K): nat {
    if k in m then m[k] else 0
  }

  function Bump<K>(m: map<K, nat>, k: K): map<K, nat> {
    m[k := Get(m, k) + 1]
  }

  /** `m` says how often each value occurs in `xs`. */
  ghost predicate Counts<K(!new)>(m: map<K, nat>, xs: seq<K>) {
    forall k :: Get(m, k) == multiset(xs)[k]
  }

  lemma BumpCounts<K(!new)>(m: map<K, nat>, xs: seq<K>, x: K)
    requires Counts(m, xs)
    ensures Counts(Bump(m, x), xs + [x])
  {
  }

  function Identity(n: nat): nat { n }

  ghost function Places<K(!new)>(xs: seq<K>, x: K): set<int> {
    set k | 0 <= k < |xs| && xs[k] == x
  }

  lemma {:induction false} CountIsPlaces<K(!new)>(xs: seq<K>, x: K)
    ensures multiset(xs)[x] == |Places(xs, x)|
    decreases xs
  {
    if xs != [] {
      var n := |xs| - 1;
      CountIsPlaces(xs[..n], x);
      assert xs == xs[..n] + [xs[n]];
      assert Places(xs, x) == Places(xs[..n], x) + if xs[n] == x then {n} else {};
    }
  }

  /** The entries of a tally add up to the number of things counted. */
  lemma {:induction false} CountsTotal<K(!new)>(m: map<K, nat>, xs: seq<K>)
    requires Counts(m, xs)
    ensures Sum(m, Identity) == |xs|
    decreases xs
  {
    if xs == [] {
      forall k | k in m ensures m[k] == 0 { assert Get(m, k) == multiset(xs)[k]; }
      AllZero(m);
    } else {
      var n := |xs| - 1;
      var x := xs[n];
      assert xs == xs[..n] + [x];
      assert x in multiset(xs);
      assert Get(m, x) == multiset(xs)[x];
      var less: nat := Get(m, x) - 1;
      var before: map<K, nat> := m[x := less];
      forall k ensures Get(before, k) == multiset(xs[..n])[k] {
        assert multiset(xs)[k] == Get(m, k);
      }
      CountsTotal(before, xs[..n]);
      SumUpdate<K, nat>(m, Identity, x, less);
    }
  }

  lemma {:induction false} AllZero<K>(m: map<K, nat>)
    requires forall k :: k in m ==> m[k] == 0
    ensures Sum(m, Identity) == 0
    decreases m.Keys
  {
    if m.Keys != {} {
      var k := Member(m.Keys);
      SumWithout(m, Identity, k);
      AllZero(m - {k});
    }
  }

  /** A value is counted as often as there are elements exactly when it is the only one. */
  lemma {:induction false} CountsAll<K>(xs: seq<K>, x: K)
    ensures multiset(xs)[x] <= |xs|
    ensures multiset(xs)[x] == |xs| <==> forall k :: 0 <= k < |xs| ==> xs[k] == x
    decreases xs
  {
    if xs != [] {
      var n := |xs| - 1;
      assert xs == xs[..n] + [xs[n]];
      CountsAll(xs[..n], x);
      if multiset(xs)[x] == |xs| {
        forall k | 0 <= k < |xs| ensures xs[k] == x { assert k < n ==> xs[..n][k] == x; }
      }
    }
  }

  /** Add the counts of one map into another, key by key. */
  method Merge<K(!new)>(m: map<K, nat>, n: map<K, nat>) returns (r: map<K, nat>)
    ensures forall k :: Get(r, k) == Get(m, k) + Get(n, k)
  {
    r := m;
    var keys := n.Keys;
    while keys != {}
      invariant keys <= n.Keys
      invariant forall k :: Get(r, k) == Get(m, k) + if k in n && k !in keys then n[k] else 0
      decreases keys
    {
      var k :| k in keys;
      r := r[k := Get(r, k) + n[k]];
      keys := keys - {k};
    }
  }

  lemma MergeCounts<K(!new)>(m: map<K, nat>, n: map<K, nat>, r: map<K, nat>, xs: seq<K>, ys: seq<K>)
    requires Counts(m, xs) && Counts(n, ys)
    requires forall k :: Get(r, k) == Get(m, k) + Get(n, k)
    ensures Counts(r, xs + ys)
  {
  }
}
