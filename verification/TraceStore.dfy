/** The bounded store of debug traces (internal/httpapi/debug_trace.go). */
module TraceStore {
  import opened Wrappers
  import opened Text
  import opened Gathering

  const DEFAULT_MAX := 256

  /** What the store holds for a request; `facts` stands for the recorded metadata. */
  datatype Trace = Trace(requestId: string, facts: map<string, string>)

  // ---------------------------------------------------------------- the store as a value

  datatype Store = Store(max: nat, order: seq<string>, entries: map<string, Trace>)

  function Fresh(maxEntries: int): Store {
    Store(if maxEntries <= 0 then DEFAULT_MAX else maxEntries, [], map[])
  }

  /** Drop the oldest requests until the queue fits. */
  function Evict(s: Store): Store
    decreases |s.order|
  {
    if |s.order| <= s.max then s
    else Evict(s.(order := s.order[1..], entries := s.entries - {s.order[0]}))
  }

  function Put(s: Store, id: string, t: Trace): Store {
    Evict(s.(order := s.order + [id], entries := s.entries[id := t]))
  }

  function Change(s: Store, id: string, apply: Trace -> Trace): Store {
    if id in s.entries then s.(entries := s.entries[id := apply(s.entries[id])]) else s
  }

  function EffectiveLimit(max: nat, limit: int): nat {
    if limit <= 0 || limit > max then (if max < 20 then max else 20) else limit
  }

  function Reversed<T>(xs: seq<T>): seq<T> {
    seq(|xs|, k requires 0 <= k < |xs| => xs[|xs| - 1 - k])
  }

  function Lookup(entries: map<string, Trace>): string -> Option<Trace> {
    (id: string) => if id in entries then Some(entries[id]) else None
  }

  /** The stored traces, newest first, up to the limit. */
  function Recent(s: Store, limit: int): seq<Trace> {
    First(Gather(Lookup(s.entries), Reversed(s.order)), EffectiveLimit(s.max, limit))
  }

  // ---------------------------------------------------------------- the store as an object

  class DebugTraceStore {
    const maxEntries: nat
    var order: seq<string>
    var entries: map<string, Trace>

    constructor (max: int)
      ensures View() == Fresh(max)
    {
      maxEntries := if max <= 0 then DEFAULT_MAX else max;
      order := [];
      entries := map[];
    }

    function View(): Store
      reads this
    {
      Store(maxEntries, order, entries)
    }

    /** Start a trace; the result is the handle later updates go through. */
    method Begin(id: string, facts: map<string, string>) returns (handle: Option<string>)
      modifies this
      ensures handle == if TrimSpace(id) == "" then None else Some(TrimSpace(id))
      ensures View() == if handle.None? then old(View()) else Put(old(View()), handle.value, Trace(handle.value, facts))
    {
      var requestId := TrimSpace(id);
      if requestId == "" {
        return None;
      }
      entries := entries[requestId := Trace(requestId, facts)];
      order := order + [requestId];
      ghost var full := View();
      while |order| > maxEntries
        invariant Evict(View()) == Evict(full)
        decreases |order|
      {
        var oldest := order[0];
        order := order[1..];
        entries := entries - {oldest};
      }
      return Some(requestId);
    }

    method Get(id: string) returns (trace: Option<Trace>)
      ensures trace == Lookup(entries)(TrimSpace(id))
    {
      var key := TrimSpace(id);
      if key !in entries {
        return None;
      }
      return Some(entries[key]);
    }

    method List(limit: int) returns (out: seq<Trace>)
      ensures out == Recent(View(), limit)
    {
      var bound := EffectiveLimit(maxEntries, limit);
      var newest := Reversed(order);
      ghost var f := Lookup(entries);
      out := [];
      var k := 0;
      while k < |order| && |out| < bound
        invariant 0 <= k <= |order|
        invariant out == Gather(f, newest[..k]) && |out| <= bound
      {
        GatherNext(f, newest, k);
        var id := order[|order| - 1 - k];
        if id in entries {
          out := out + [entries[id]];
        }
        k := k + 1;
      }
      assert k == |order| ==> newest[..k] == newest;
      FirstReached(f, newest, k);
    }

    method Update(handle: Option<string>, apply: Trace -> Trace)
      modifies this
      ensures View() ==
              if handle.None? || TrimSpace(handle.value) == "" then old(View())
              else Change(old(View()), handle.value, apply)
    {
      if handle.None? || TrimSpace(handle.value) == "" || handle.value !in entries {
        return;
      }
      entries := entries[handle.value := apply(entries[handle.value])];
    }
  }

  // ---------------------------------------------------------------- runs

  datatype Op = Begun(id: string, trace: Trace) | Updated(id: string, apply: Trace -> Trace)

  function Step(s: Store, op: Op): Store {
    match op
    case Begun(id, t) => Put(s, id, t)
    case Updated(id, apply) => Change(s, id, apply)
  }

  function Run(max: int, ops: seq<Op>): Store {
    if ops == [] then Fresh(max) else Step(Run(max, ops[..|ops| - 1]), ops[|ops| - 1])
  }

  /** The ids of the traces begun in a run, in order. */
  function BegunIds(ops: seq<Op>): seq<string> {
    if ops == [] then []
    else
      var n := |ops| - 1;
      BegunIds(ops[..n]) + if ops[n].Begun? then [ops[n].id] else []
  }

  predicate IsValid(s: Store) {
    s.max >= 1 && |s.order| <= s.max && s.entries.Keys <= set id | id in s.order
  }

  lemma PutOnce(s: Store, id: string, t: Trace)
    requires s.max >= 1 && |s.order| <= s.max
    ensures |s.order| < s.max ==> Put(s, id, t) == Store(s.max, s.order + [id], s.entries[id := t])
    ensures |s.order| == s.max ==> Put(s, id, t) == Store(s.max, s.order[1..] + [id], s.entries[id := t] - {s.order[0]})
  {
    var full := s.(order := s.order + [id], entries := s.entries[id := t]);
    if |s.order| == s.max {
      assert (s.order + [id])[1..] == s.order[1..] + [id];
      var next := full.(order := full.order[1..], entries := full.entries - {full.order[0]});
      assert Evict(next) == next;
      assert Evict(full) == Evict(next);
    } else {
      assert Evict(full) == full;
    }
  }

  lemma StepValid(s: Store, op: Op)
    requires IsValid(s)
    ensures IsValid(Step(s, op)) && Step(s, op).max == s.max
  {
    if op.Begun? {
      PutOnce(s, op.id, op.trace);
      var after := Put(s, op.id, op.trace);
      forall x | x in after.entries ensures x in after.order {
        if x != op.id {
          assert x in s.order;
          if |s.order| == s.max {
            var k :| 0 <= k < |s.order| && s.order[k] == x;
            assert x == s.order[1..][k - 1];
          }
        }
      }
    }
  }

  /** Over every run the queue stays within its maximum and every stored key is queued. */
  lemma {:induction false} RunValid(max: int, ops: seq<Op>)
    ensures IsValid(Run(max, ops)) && Run(max, ops).max == Fresh(max).max
    decreases ops
  {
    if ops != [] {
      RunValid(max, ops[..|ops| - 1]);
      StepValid(Run(max, ops[..|ops| - 1]), ops[|ops| - 1]);
    }
  }

  function Latest<T>(xs: seq<T>, n: nat): seq<T> {
    if |xs| <= n then xs else xs[|xs| - n..]
  }

  /** The queue holds the most recently begun ids, repeated or not. */
  lemma {:induction false} QueueIsLatest(max: int, ops: seq<Op>)
    ensures Run(max, ops).order == Latest(BegunIds(ops), Run(max, ops).max)
    decreases ops
  {
    if ops != [] {
      var n := |ops| - 1;
      var s, begun := Run(max, ops[..n]), BegunIds(ops[..n]);
      QueueIsLatest(max, ops[..n]);
      RunValid(max, ops[..n]);
      if ops[n].Begun? {
        PutOnce(s, ops[n].id, ops[n].trace);
        LatestNext(begun, ops[n].id, s.max);
      } else {
        assert BegunIds(ops) == begun;
      }
    }
  }

  lemma LatestNext(xs: seq<string>, x: string, n: nat)
    requires n >= 1
    ensures Latest(xs + [x], n) == (if |Latest(xs, n)| < n then Latest(xs, n) else Latest(xs, n)[1..]) + [x]
  {
  }

  // ---------------------------------------------------------------- what is stored

  /** The last place an id was begun at is `p`. */
  predicate LastAt(begun: seq<string>, id: string, p: int) {
    0 <= p < |begun| && begun[p] == id && forall q :: p < q < |begun| ==> begun[q] != id
  }

  /** No place evicted since then, or by that very begin, held the same id. */
  predicate Untouched(begun: seq<string>, max: nat, id: string, p: int) {
    forall j :: 0 <= j < |begun| - max && p - max <= j ==> begun[j] != id
  }

  ghost predicate Survives(begun: seq<string>, max: nat, id: string) {
    exists p :: LastAt(begun, id, p) && Untouched(begun, max, id, p)
  }

  lemma SurvivesNext(begun: seq<string>, max: nat, id: string, x: string)
    requires max >= 1
    ensures Survives(begun + [x], max, id) <==>
              (id == x || Survives(begun, max, id)) && (|begun| >= max ==> begun[|begun| - max] != id)
  {
    var more := begun + [x];
    var n := |begun|;
    assert forall j :: 0 <= j < n ==> more[j] == begun[j];
    if id == x {
      assert LastAt(more, id, n);
      if Survives(more, max, id) {
        var p :| LastAt(more, id, p) && Untouched(more, max, id, p);
        assert p == n;
      }
      if |begun| >= max && begun[n - max] != id {
        assert Untouched(more, max, id, n);
      }
      if |begun| < max {
        assert Untouched(more, max, id, n);
      }
    } else {
      if Survives(more, max, id) {
        var p :| LastAt(more, id, p) && Untouched(more, max, id, p);
        assert LastAt(begun, id, p) && Untouched(begun, max, id, p);
        assert p < n;
      }
      if Survives(begun, max, id) && (|begun| >= max ==> begun[n - max] != id) {
        var p :| LastAt(begun, id, p) && Untouched(begun, max, id, p);
        assert LastAt(more, id, p) && Untouched(more, max, id, p);
      }
    }
  }

  /**
    For every run, also with repeated ids: a trace is stored exactly when its id was begun and
    no eviction since its last begin hit an earlier occurrence of the same id.
   */
  lemma {:induction false} StoredIff(max: int, ops: seq<Op>, id: string)
    ensures id in Run(max, ops).entries <==> Survives(BegunIds(ops), Run(max, ops).max, id)
    decreases ops
  {
    if ops != [] {
      var n := |ops| - 1;
      var s, begun := Run(max, ops[..n]), BegunIds(ops[..n]);
      StoredIff(max, ops[..n], id);
      RunValid(max, ops[..n]);
      QueueIsLatest(max, ops[..n]);
      if ops[n].Begun? {
        PutOnce(s, ops[n].id, ops[n].trace);
        SurvivesNext(begun, s.max, id, ops[n].id);
      } else {
        assert BegunIds(ops) == begun;
      }
    }
  }

  /** With fresh ids the store holds exactly the most recently begun traces. */
  lemma FreshIdsStored(max: int, ops: seq<Op>, id: string)
    requires Distinct(BegunIds(ops))
    ensures id in Run(max, ops).entries <==> id in Latest(BegunIds(ops), Run(max, ops).max)
  {
    var begun, m := BegunIds(ops), Run(max, ops).max;
    StoredIff(max, ops, id);
    RunValid(max, ops);
    if Survives(begun, m, id) {
      var p :| LastAt(begun, id, p) && Untouched(begun, m, id, p);
      assert |begun| > m ==> p >= |begun| - m;
      assert |begun| > m ==> Latest(begun, m)[p - (|begun| - m)] == id;
    }
    if id in Latest(begun, m) {
      var k :| 0 <= k < |Latest(begun, m)| && Latest(begun, m)[k] == id;
      var p := if |begun| <= m then k else k + (|begun| - m);
      assert begun[p] == id && LastAt(begun, id, p);
      assert Untouched(begun, m, id, p);
    }
  }

  /** A begin is lost at once exactly when it evicts an earlier trace of its own id. */
  lemma BeginKeepsIff(s: Store, id: string, t: Trace)
    requires IsValid(s)
    ensures id in Put(s, id, t).entries <==> |s.order| < s.max || s.order[0] != id
    ensures id in Put(s, id, t).entries ==> Put(s, id, t).entries[id] == t
  {
    PutOnce(s, id, t);
  }

  /** A request id used twice can leave its own newest trace out: a store of one entry forgets it. */
  lemma RepeatedIdLost(t: Trace)
    ensures "a" !in Run(1, [Begun("a", t), Begun("a", t)]).entries
  {
    var first, both := [Begun("a", t)], [Begun("a", t), Begun("a", t)];
    assert both[..1] == first && first[..0] == [];
    RunValid(1, []);
    RunValid(1, first);
    PutOnce(Run(1, []), "a", t);
    assert Run(1, first).order == ["a"];
    BeginKeepsIff(Run(1, first), "a", t);
  }

  // ---------------------------------------------------------------- what it says

  /** The trace of the last begin of `id`, with the updates that came after it. */
  function ValueOf(ops: seq<Op>, id: string): Option<Trace> {
    if ops == [] then None
    else
      var n := |ops| - 1;
      var before := ValueOf(ops[..n], id);
      match ops[n]
      case Begun(i, t) => if i == id then Some(t) else before
      case Updated(i, apply) => if i == id && before.Some? then Some(apply(before.value)) else before
  }

  lemma {:induction false} StoredValue(max: int, ops: seq<Op>, id: string)
    requires id in Run(max, ops).entries
    ensures ValueOf(ops, id) == Some(Run(max, ops).entries[id])
    decreases ops
  {
    if ops != [] {
      var n := |ops| - 1;
      var s := Run(max, ops[..n]);
      RunValid(max, ops[..n]);
      if ops[n].Begun? {
        PutOnce(s, ops[n].id, ops[n].trace);
      }
      if id in s.entries {
        StoredValue(max, ops[..n], id);
      }
    }
  }

  /** Updating what is not stored changes nothing. */
  lemma EvictedUpdateIgnored(max: int, ops: seq<Op>, id: string, apply: Trace -> Trace)
    ensures id !in Run(max, ops).entries ==> Run(max, ops + [Updated(id, apply)]) == Run(max, ops)
    ensures Run(max, ops + [Updated(id, apply)]).order == Run(max, ops).order
    ensures Run(max, ops + [Updated(id, apply)]).entries.Keys == Run(max, ops).entries.Keys
  {
    assert (ops + [Updated(id, apply)])[..|ops|] == ops;
  }

  // ---------------------------------------------------------------- listing

  lemma {:induction false} GatherFull(f: string -> Option<Trace>, ids: seq<string>)
    requires forall id :: id in ids ==> f(id).Some?
    ensures |Gather(f, ids)| == |ids|
    ensures forall k :: 0 <= k < |ids| ==> Some(Gather(f, ids)[k]) == f(ids[k])
    decreases ids
  {
    if ids != [] {
      var n := |ids| - 1;
      assert ids == ids[..n] + [ids[n]];
      GatherFull(f, ids[..n]);
      assert Gather(f, ids) == Gather(f, ids[..n]) + [f(ids[n]).value];
    }
  }

  function Least(a: nat, b: nat): nat { if a < b then a else b }

  /** With fresh ids every queued request is stored. */
  lemma QueuedAreStored(max: int, ops: seq<Op>)
    requires Distinct(BegunIds(ops))
    ensures forall id :: id in Run(max, ops).order ==> id in Run(max, ops).entries
  {
    QueueIsLatest(max, ops);
    forall id | id in Run(max, ops).order ensures id in Run(max, ops).entries {
      FreshIdsStored(max, ops, id);
    }
  }

  lemma ListingOfAll(s: Store, limit: int)
    requires forall id :: id in s.order ==> id in s.entries
    ensures var out := Recent(s, limit);
            && |out| == Least(EffectiveLimit(s.max, limit), |s.order|)
            && forall k :: 0 <= k < |out| ==> out[k] == s.entries[s.order[|s.order| - 1 - k]]
  {
    var newest, f := Reversed(s.order), Lookup(s.entries);
    forall id | id in newest ensures f(id).Some? {
      var k :| 0 <= k < |newest| && newest[k] == id;
      assert s.order[|s.order| - 1 - k] == id;
    }
    GatherFull(f, newest);
    var out := Recent(s, limit);
    forall k | 0 <= k < |out| ensures out[k] == s.entries[s.order[|s.order| - 1 - k]] {
      assert Some(Gather(f, newest)[k]) == f(newest[k]);
    }
  }

  lemma LatestFromEnd(xs: seq<string>, n: nat, k: nat)
    requires k < |Latest(xs, n)|
    ensures k < |xs| && Latest(xs, n)[|Latest(xs, n)| - 1 - k] == xs[|xs| - 1 - k]
  {
  }

  /** With fresh ids a listing shows the latest traces, newest first, as many as the limit and the store allow. */
  lemma FreshIdsListed(max: int, ops: seq<Op>, limit: int)
    requires Distinct(BegunIds(ops))
    ensures var s, begun, out := Run(max, ops), BegunIds(ops), Recent(Run(max, ops), limit);
            && s.max == (if max > 0 then max else 256)
            && (1 <= limit <= s.max ==> |out| == Least(limit, |begun|))
            && (limit < 1 || limit > s.max ==> |out| == Least(Least(20, s.max), |begun|))
            && forall k :: 0 <= k < |out| ==> ValueOf(ops, begun[|begun| - 1 - k]) == Some(out[k])
  {
    var s, out := Run(max, ops), Recent(Run(max, ops), limit);
    QueuedAreStored(max, ops);
    ListingOfAll(s, limit);
    QueueSize(max, ops, limit);
    RunValid(max, ops);
    forall k | 0 <= k < |out| ensures ValueOf(ops, BegunIds(ops)[|BegunIds(ops)| - 1 - k]) == Some(out[k]) {
      QueuedValue(max, ops, k);
    }
  }

  lemma QueueSize(max: int, ops: seq<Op>, limit: int)
    ensures var s := Run(max, ops);
            Least(EffectiveLimit(s.max, limit), |s.order|) == Least(EffectiveLimit(s.max, limit), |BegunIds(ops)|)
    ensures |Run(max, ops).order| <= |BegunIds(ops)|
  {
    QueueIsLatest(max, ops);
  }

  lemma QueuedValue(max: int, ops: seq<Op>, k: nat)
    requires k < |Run(max, ops).order| <= |BegunIds(ops)|
    requires forall id :: id in Run(max, ops).order ==> id in Run(max, ops).entries
    ensures var s := Run(max, ops);
            ValueOf(ops, BegunIds(ops)[|BegunIds(ops)| - 1 - k]) == Some(s.entries[s.order[|s.order| - 1 - k]])
  {
    var s := Run(max, ops);
    QueueIsLatest(max, ops);
    LatestFromEnd(BegunIds(ops), s.max, k);
    StoredValue(max, ops, s.order[|s.order| - 1 - k]);
  }
}
