/** Strings in byte order, and sorting them. */
module StringOrder {
  import opened Gathering

  predicate AtMost(a: string, b: string) {
    a == "" || (b != "" && (a[0] < b[0] || (a[0] == b[0] && AtMost(a[1..], b[1..]))))
  }

  predicate Sorted(xs: seq<string>) {
    forall i, j :: 0 <= i < j < |xs| ==> AtMost(xs[i], xs[j])
  }

  lemma {:induction false} Total(a: string, b: string)
    ensures AtMost(a, b) || AtMost(b, a)
    decreases a
  {
    if a != "" && b != "" && a[0] == b[0] {
      Total(a[1..], b[1..]);
    }
  }

  lemma {:induction false} Transitive(a: string, b: string, c: string)
    requires AtMost(a, b) && AtMost(b, c)
    ensures AtMost(a, c)
    decreases a
  {
    if a != "" && a[0] == b[0] && b[0] == c[0] {
      Transitive(a[1..], b[1..], c[1..]);
    }
  }

  lemma {:induction false} Antisymmetric(a: string, b: string)
    requires AtMost(a, b) && AtMost(b, a)
    ensures a == b
    decreases a
  {
    if a != "" && b != "" {
      Antisymmetric(a[1..], b[1..]);
      assert a == [a[0]] + a[1..] && b == [b[0]] + b[1..];
    }
  }

  lemma FirstIsLeast(xs: seq<string>, y: string)
    requires Sorted(xs) && y in xs
    ensures AtMost(xs[0], y)
  {
    Reflexive(y);
  }

  lemma WithoutFirst(xs: seq<string>)
    requires xs != []
    ensures multiset(xs[1..]) == multiset(xs) - multiset{xs[0]}
  {
    assert xs == [xs[0]] + xs[1..];
  }

  lemma FirstsAgree(xs: seq<string>, ys: seq<string>)
    requires Sorted(xs) && Sorted(ys) && multiset(xs) == multiset(ys) && xs != []
    ensures ys != [] && xs[0] == ys[0]
  {
    assert |multiset(xs)| == |xs| && |multiset(ys)| == |ys|;
    assert xs[0] in multiset(ys) && ys[0] in multiset(xs);
    FirstIsLeast(xs, ys[0]);
    FirstIsLeast(ys, xs[0]);
    Antisymmetric(xs[0], ys[0]);
  }

  /** Only one arrangement of the same strings is sorted. */
  lemma {:induction false} SortedUnique(xs: seq<string>, ys: seq<string>)
    requires Sorted(xs) && Sorted(ys) && multiset(xs) == multiset(ys)
    ensures xs == ys
    decreases xs
  {
    assert |multiset(xs)| == |xs| && |multiset(ys)| == |ys|;
    if xs != [] {
      FirstsAgree(xs, ys);
      WithoutFirst(xs);
      WithoutFirst(ys);
      SortedUnique(xs[1..], ys[1..]);
      assert xs == [xs[0]] + xs[1..] && ys == [ys[0]] + ys[1..];
    }
  }

  lemma {:induction false} Reflexive(a: string)
    ensures AtMost(a, a)
    decreases a
  {
    if a != "" {
      Reflexive(a[1..]);
    }
  }

  function Place(ys: seq<string>, x: string): seq<string> {
    if ys == [] then [x]
    else if AtMost(x, ys[0]) then [x] + ys
    else [ys[0]] + Place(ys[1..], x)
  }

  /** The sorted arrangement, by insertion. */
  function Arrange(xs: seq<string>): seq<string> {
    if xs == [] then [] else Place(Arrange(xs[..|xs| - 1]), xs[|xs| - 1])
  }

  lemma SortedCons(y: string, rest: seq<string>)
    requires Sorted(rest) && forall z :: z in rest ==> AtMost(y, z)
    ensures Sorted([y] + rest)
  {
  }

  lemma {:induction false} PlaceKeeps(ys: seq<string>, x: string)
    ensures multiset(Place(ys, x)) == multiset(ys) + multiset{x}
    decreases ys
  {
    if ys != [] {
      assert ys == [ys[0]] + ys[1..];
      PlaceKeeps(ys[1..], x);
    }
  }

  lemma {:induction false} PlaceSorts(ys: seq<string>, x: string)
    requires Sorted(ys)
    ensures Sorted(Place(ys, x))
    decreases ys
  {
    if ys != [] {
      if AtMost(x, ys[0]) {
        forall z | z in ys ensures AtMost(x, z) {
          FirstIsLeast(ys, z);
          Transitive(x, ys[0], z);
        }
        SortedCons(x, ys);
      } else {
        PlaceSorts(ys[1..], x);
        forall z | z in Place(ys[1..], x) ensures AtMost(ys[0], z) {
          Total(x, ys[0]);
          PlaceKeeps(ys[1..], x);
          assert z in multiset(Place(ys[1..], x));
        }
        SortedCons(ys[0], Place(ys[1..], x));
      }
    }
  }

  lemma {:induction false} ArrangeSorts(xs: seq<string>)
    ensures Sorted(Arrange(xs)) && multiset(Arrange(xs)) == multiset(xs)
    decreases xs
  {
    if xs != [] {
      var n := |xs| - 1;
      assert xs == xs[..n] + [xs[n]];
      ArrangeSorts(xs[..n]);
      PlaceSorts(Arrange(xs[..n]), xs[n]);
      PlaceKeeps(Arrange(xs[..n]), xs[n]);
    }
  }

  lemma DistinctArrange(xs: seq<string>)
    requires Distinct(xs)
    ensures Distinct(Arrange(xs)) && forall x :: x in Arrange(xs) <==> x in xs
  {
    var ys := Arrange(xs);
    ArrangeSorts(xs);
    forall x ensures x in ys <==> x in xs { assert x in multiset(ys) <==> x in multiset(xs); }
    forall i, j | 0 <= i < j < |ys| ensures ys[i] != ys[j] {
      DistinctOnce(xs, ys[i]);
      if ys[i] == ys[j] {
        Twice(ys, i, j);
      }
    }
  }

  lemma {:induction false} DistinctOnce(xs: seq<string>, x: string)
    requires Distinct(xs)
    ensures multiset(xs)[x] <= 1
    decreases xs
  {
    if xs != [] {
      assert xs == [xs[0]] + xs[1..];
      DistinctOnce(xs[1..], x);
      assert xs[0] !in xs[1..];
    }
  }

  lemma Twice(ys: seq<string>, i: nat, j: nat)
    requires i < j < |ys| && ys[i] == ys[j]
    ensures multiset(ys)[ys[i]] >= 2
  {
    assert ys == ys[..i] + [ys[i]] + ys[i + 1..j] + [ys[j]] + ys[j + 1..];
  }

  method Sort(xs: seq<string>) returns (ys: seq<string>)
    ensures Sorted(ys) && multiset(ys) == multiset(xs)
    ensures ys == Arrange(xs)
  {
    ys := [];
    for k := 0 to |xs|
      invariant Sorted(ys) && multiset(ys) == multiset(xs[..k])
    {
      assert xs[..k + 1] == xs[..k] + [xs[k]];
      ys := Insert(ys, xs[k]);
    }
    assert xs[..|xs|] == xs;
    ArrangeSorts(xs);
    SortedUnique(ys, Arrange(xs));
  }

  method Insert(ys: seq<string>, x: string) returns (zs: seq<string>)
    requires Sorted(ys)
    ensures Sorted(zs) && multiset(zs) == multiset(ys + [x])
  {
    var p := |ys|;
    while p > 0 && !AtMost(ys[p - 1], x)
      invariant 0 <= p <= |ys|
      invariant forall j :: p <= j < |ys| ==> AtMost(x, ys[j])
    {
      Total(ys[p - 1], x);
      p := p - 1;
    }
    zs := ys[..p] + [x] + ys[p..];
    forall i | 0 <= i < p ensures AtMost(ys[i], x) {
      if i < p - 1 {
        Transitive(ys[i], ys[p - 1], x);
      }
    }
    InsertedSorted(ys, p, x);
    InsertedContents(ys, p, x);
  }

  lemma InsertedSorted(ys: seq<string>, p: nat, x: string)
    requires Sorted(ys) && p <= |ys|
    requires (forall i :: 0 <= i < p ==> AtMost(ys[i], x)) && (forall j :: p <= j < |ys| ==> AtMost(x, ys[j]))
    ensures Sorted(ys[..p] + [x] + ys[p..])
  {
    var zs := ys[..p] + [x] + ys[p..];
    forall i, j | 0 <= i < j < |zs| ensures AtMost(zs[i], zs[j]) {
      assert zs[i] == if i < p then ys[i] else if i == p then x else ys[i - 1];
      assert zs[j] == if j < p then ys[j] else if j == p then x else ys[j - 1];
    }
  }

  lemma InsertedContents(ys: seq<string>, p: nat, x: string)
    requires p <= |ys|
    ensures multiset(ys[..p] + [x] + ys[p..]) == multiset(ys + [x])
  {
    assert ys == ys[..p] + ys[p..];
  }
}
