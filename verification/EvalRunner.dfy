/** Running evaluation tasks with retries, and counting their outcomes (internal/codexeval/runner.go). */
module EvalRunner {
  import opened Tallies

  datatype Status =
    | Passed | FailedChecker | FailedCodexExit | FailedTransport | FailedNoToolEvent | FailedNoFinal
    | FailedRawTool | FailedContextLeak | FailedTimeout | FailedSetup | Skipped | Quarantined
    | OtherStatus(name: string)

  datatype Bucket =
    | NoBucket | CodexConfig | ShimAuth | ShimTransport | UpstreamHTTP | UpstreamStream | ModelNoTool | ModelBadToolArgs
    | CodexToolMissing | CodexToolExec | CheckerDiff | CheckerTests | RawToolMarkup | ContextLeak | Timeout | HarnessBug
    | OtherBucket(name: string)

  datatype Attempt = Attempt(status: Status, bucket: Bucket)

  datatype TaskResult = TaskResult(id: string, status: Status, bucket: Bucket, attempts: seq<Attempt>)

  // ---------------------------------------------------------------- the attempt loop

  /** The override goes before the manifest, and a setting counts only where it is positive. */
  function AttemptsFor(manifest: int, override: int): (r: int)
    ensures r >= 1
    ensures override > 0 ==> r == override
    ensures override <= 0 && manifest > 0 ==> r == manifest
    ensures override <= 0 && manifest <= 0 ==> r == 1
  {
    if override > 0 then override else if manifest > 0 then manifest else 1
  }

  /** Failures, and after them at most one pass. */
  predicate PassOnlyLast(attempts: seq<Attempt>) {
    forall k :: 0 <= k < |attempts| - 1 ==> !attempts[k].status.Passed?
  }

  /** The result is that of its last attempt; a task without attempts was quarantined. */
  predicate IsRunnerMade(t: TaskResult) {
    && PassOnlyLast(t.attempts)
    && (t.attempts == [] ==> t.status.Quarantined?)
    && (t.attempts != [] ==>
          var last := t.attempts[|t.attempts| - 1];
          t.status == last.status && t.bucket == if last.status.Passed? then NoBucket else last.bucket)
  }

  /**
    Attempt until one passes or the number is used up.  `outcome(k)` is what the k-th attempt
    would give; the attempts made are the outcomes in order, cut at the first pass.
   */
  method RunTask(id: string, quarantined: bool, manifest: int, override: int, outcome: int -> Attempt)
    returns (r: TaskResult)
    ensures r.id == id && IsRunnerMade(r)
    ensures quarantined ==> r.attempts == [] && r.bucket == ModelNoTool
    ensures !quarantined ==>
              && 1 <= |r.attempts| <= AttemptsFor(manifest, override)
              && (forall k :: 0 <= k < |r.attempts| ==> r.attempts[k] == outcome(k + 1))
              && (r.status.Passed? <==>
                  exists k :: 1 <= k <= AttemptsFor(manifest, override) && outcome(k).status.Passed?)
              && (!r.status.Passed? ==> |r.attempts| == AttemptsFor(manifest, override))
  {
    r := TaskResult(id, FailedSetup, NoBucket, []);
    if quarantined {
      r := r.(status := Quarantined, bucket := ModelNoTool);
      return;
    }
    var attempts := AttemptsFor(manifest, override);
    var attempt := 1;
    while attempt <= attempts
      invariant 1 <= attempt <= attempts + 1
      invariant r.id == id && |r.attempts| == attempt - 1
      invariant forall k :: 0 <= k < |r.attempts| ==> r.attempts[k] == outcome(k + 1) && !r.attempts[k].status.Passed?
      invariant attempt > 1 ==> r.status == outcome(attempt - 1).status && r.bucket == outcome(attempt - 1).bucket
    {
      var result := outcome(attempt);
      r := r.(attempts := r.attempts + [result]);
      if result.status.Passed? {
        r := r.(status := Passed, bucket := NoBucket);
        assert outcome(attempt).status.Passed?;
        return;
      }
      r := r.(status := result.status, bucket := result.bucket);
      attempt := attempt + 1;
    }
    forall k | 1 <= k <= attempts
      ensures !outcome(k).status.Passed?
    {
      assert r.attempts[k - 1] == outcome(k - 1 + 1);
    }
  }

  // ---------------------------------------------------------------- counting

  datatype Summary = Summary(runId: string, tasks: seq<TaskResult>, counts: map<Status, nat>, buckets: map<Bucket, nat>)

  function Statuses(tasks: seq<TaskResult>): seq<Status> {
    seq(|tasks|, k requires 0 <= k < |tasks| => tasks[k].status)
  }

  /** The failure buckets in task order; a task without one contributes nothing. */
  function Buckets(tasks: seq<TaskResult>): seq<Bucket> {
    if tasks == [] then []
    else
      var n := |tasks| - 1;
      Buckets(tasks[..n]) + if tasks[n].bucket.NoBucket? then [] else [tasks[n].bucket]
  }

  predicate AllPassed(tasks: seq<TaskResult>) {
    forall k :: 0 <= k < |tasks| ==> tasks[k].status.Passed?
  }

  predicate Complete(s: Summary) {
    Get(s.counts, Passed) == |s.tasks|
  }

  /** The counts are those of its results. */
  ghost predicate IsCounted(s: Summary) {
    Counts(s.counts, Statuses(s.tasks)) && Counts(s.buckets, Buckets(s.tasks))
  }

  predicate AllRunnerMade(tasks: seq<TaskResult>) {
    forall k :: 0 <= k < |tasks| ==> IsRunnerMade(tasks[k])
  }

  /** Collect the results of a run, counting statuses and failure buckets. */
  method Summarize(runId: string, results: seq<TaskResult>) returns (s: Summary, ok: bool)
    ensures s.runId == runId && s.tasks == results && IsCounted(s)
    ensures ok <==> AllPassed(results)
  {
    s := Summary(runId, [], map[], map[]);
    for k := 0 to |results|
      invariant s.runId == runId && s.tasks == results[..k] && IsCounted(s)
    {
      var t := results[k];
      assert results[..k + 1] == results[..k] + [t];
      assert Statuses(results[..k + 1]) == Statuses(results[..k]) + [t.status];
      assert results[..k + 1][..k] == results[..k];
      BumpCounts(s.counts, Statuses(s.tasks), t.status);
      if !t.bucket.NoBucket? {
        BumpCounts(s.buckets, Buckets(s.tasks), t.bucket);
      }
      var buckets := if t.bucket.NoBucket? then s.buckets else Bump(s.buckets, t.bucket);
      s := Summary(runId, s.tasks + [t], Bump(s.counts, t.status), buckets);
    }
    assert results[..|results|] == results;
    CompleteIffAllPassed(s);
    ok := Complete(s);
  }

  lemma CompleteIffAllPassed(s: Summary)
    requires IsCounted(s)
    ensures Complete(s) <==> AllPassed(s.tasks)
  {
    CountsAll(Statuses(s.tasks), Passed);
    assert Get(s.counts, Passed) == multiset(Statuses(s.tasks))[Passed];
    if Complete(s) {
      forall k | 0 <= k < |s.tasks| ensures s.tasks[k].status.Passed? { assert Statuses(s.tasks)[k] == Passed; }
    }
  }

  ghost function WithStatus(tasks: seq<TaskResult>, x: Status): set<int> {
    set k | 0 <= k < |tasks| && tasks[k].status == x
  }

  ghost function WithBucket(tasks: seq<TaskResult>, x: Bucket): set<int> {
    set k | 0 <= k < |tasks| && tasks[k].bucket == x
  }

  lemma StatusesCount(tasks: seq<TaskResult>, x: Status)
    ensures multiset(Statuses(tasks))[x] == |WithStatus(tasks, x)|
  {
    CountIsPlaces(Statuses(tasks), x);
    assert Places(Statuses(tasks), x) == WithStatus(tasks, x);
  }

  lemma {:induction false} BucketsKept(tasks: seq<TaskResult>, x: Bucket)
    ensures multiset(Buckets(tasks))[x] == if x.NoBucket? then 0 else multiset(EveryBucket(tasks))[x]
    decreases tasks
  {
    if tasks != [] {
      var n := |tasks| - 1;
      BucketsKept(tasks[..n], x);
      assert EveryBucket(tasks) == EveryBucket(tasks[..n]) + [tasks[n].bucket];
    }
  }

  function EveryBucket(tasks: seq<TaskResult>): seq<Bucket> {
    seq(|tasks|, k requires 0 <= k < |tasks| => tasks[k].bucket)
  }

  lemma BucketsCount(tasks: seq<TaskResult>, x: Bucket)
    ensures multiset(Buckets(tasks))[x] == if x.NoBucket? then 0 else |WithBucket(tasks, x)|
  {
    BucketsKept(tasks, x);
    CountIsPlaces(EveryBucket(tasks), x);
    assert Places(EveryBucket(tasks), x) == WithBucket(tasks, x);
  }

  /** Each count of a summary is the number of its tasks with that status or failure bucket. */
  lemma SummaryCounts(s: Summary, status: Status, bucket: Bucket)
    requires IsCounted(s)
    ensures Get(s.counts, status) == |WithStatus(s.tasks, status)|
    ensures Get(s.buckets, bucket) == if bucket.NoBucket? then 0 else |WithBucket(s.tasks, bucket)|
  {
    StatusesCount(s.tasks, status);
    BucketsCount(s.tasks, bucket);
  }

  // ---------------------------------------------------------------- three notions of a retry

  /** compare.go: a failure was seen before the first pass. */
  predicate IsRetryDependent(t: TaskResult) {
    && t.status.Passed? && |t.attempts| >= 2
    && !t.attempts[0].status.Passed? && exists k :: 0 <= k < |t.attempts| && t.attempts[k].status.Passed?
  }

  /** matrix.go: it passed, and some attempt did not. */
  predicate HasFailedAttempt(t: TaskResult) {
    t.status.Passed? && exists k :: 0 <= k < |t.attempts| && !t.attempts[k].status.Passed?
  }

  /** auto_report.go: it passed, with more than one attempt. */
  predicate PassedLate(t: TaskResult) {
    t.status.Passed? && |t.attempts| > 1
  }

  method RetryDependent(t: TaskResult) returns (r: bool)
    ensures r <==> IsRetryDependent(t)
  {
    if !t.status.Passed? || |t.attempts| < 2 {
      return false;
    }
    var sawFailure := false;
    for k := 0 to |t.attempts|
      invariant forall j :: 0 <= j < k ==> !t.attempts[j].status.Passed?
      invariant sawFailure <==> k > 0
    {
      if !t.attempts[k].status.Passed? {
        sawFailure := true;
      } else {
        assert t.attempts[k].status.Passed?;
        return sawFailure;
      }
    }
    return false;
  }

  function CountRetries(tasks: seq<TaskResult>): nat {
    if tasks == [] then 0
    else CountRetries(tasks[..|tasks| - 1]) + if HasFailedAttempt(tasks[|tasks| - 1]) then 1 else 0
  }

  method MatrixRetryCount(tasks: seq<TaskResult>) returns (retries: nat)
    ensures retries == CountRetries(tasks)
  {
    retries := 0;
    for i := 0 to |tasks|
      invariant retries == CountRetries(tasks[..i])
    {
      assert tasks[..i + 1][..i] == tasks[..i];
      var task := tasks[i];
      if !task.status.Passed? {
        continue;
      }
      var k := 0;
      while k < |task.attempts|
        invariant 0 <= k <= |task.attempts|
        invariant retries == CountRetries(tasks[..i])
        invariant forall j :: 0 <= j < k ==> task.attempts[j].status.Passed?
      {
        if !task.attempts[k].status.Passed? {
          retries := retries + 1;
          break;
        }
        k := k + 1;
      }
    }
    assert tasks[..|tasks|] == tasks;
  }

  /** On what the runner makes, the three notions of a retry are one. */
  lemma RetriesCoincide(t: TaskResult)
    requires IsRunnerMade(t)
    ensures IsRetryDependent(t) <==> PassedLate(t)
    ensures HasFailedAttempt(t) <==> PassedLate(t)
  {
    if PassedLate(t) {
      assert t.attempts[|t.attempts| - 1].status.Passed?;
      assert !t.attempts[0].status.Passed?;
    }
  }

  predicate SomePassed(attempts: seq<Attempt>) {
    exists k :: 0 <= k < |attempts| && attempts[k].status.Passed?
  }

  predicate SomeFailed(attempts: seq<Attempt>) {
    exists k :: 0 <= k < |attempts| && !attempts[k].status.Passed?
  }

  /** For a summary read from elsewhere they need not be: a pass with a failure behind it, or no pass at all. */
  lemma RetriesDiffer()
    ensures var t := TaskResult("t", Passed, NoBucket,
                                [Attempt(Passed, NoBucket), Attempt(FailedChecker, CheckerDiff)]);
            !IsRetryDependent(t) && HasFailedAttempt(t) && PassedLate(t)
    ensures var t := TaskResult("t", Passed, NoBucket, [Attempt(FailedChecker, CheckerDiff)]);
            !IsRetryDependent(t) && HasFailedAttempt(t) && !PassedLate(t)
  {
    var t := TaskResult("t", Passed, NoBucket, [Attempt(Passed, NoBucket), Attempt(FailedChecker, CheckerDiff)]);
    var u := TaskResult("t", Passed, NoBucket, [Attempt(FailedChecker, CheckerDiff)]);
    assert !t.attempts[1].status.Passed? && !u.attempts[0].status.Passed?;
  }

  /**
    Exactly when the tests of the comparison and of the matrix agree, on any stored result: unless
    a passed task has a failed attempt while its first attempt passed or none did.
   */
  lemma RetriesAgreeIff(t: TaskResult)
    ensures (IsRetryDependent(t) <==> HasFailedAttempt(t)) <==>
            !(t.status.Passed? && SomeFailed(t.attempts) && (t.attempts[0].status.Passed? || !SomePassed(t.attempts)))
  {
    if t.status.Passed? && SomeFailed(t.attempts) && !t.attempts[0].status.Passed? && SomePassed(t.attempts) {
      assert IsRetryDependent(t) && HasFailedAttempt(t);
    }
  }

  /** The same for the report's test, against either of the others. */
  lemma LateAgreesIff(t: TaskResult)
    ensures (IsRetryDependent(t) <==> PassedLate(t)) <==>
            !(t.status.Passed? && |t.attempts| > 1 && (t.attempts[0].status.Passed? || !SomePassed(t.attempts)))
    ensures (HasFailedAttempt(t) <==> PassedLate(t)) <==>
            !(t.status.Passed? && t.attempts != [] && (SomeFailed(t.attempts) <==> |t.attempts| == 1))
  {
    if t.status.Passed? && |t.attempts| > 1 && !t.attempts[0].status.Passed? && SomePassed(t.attempts) {
      assert IsRetryDependent(t);
    }
  }
}
