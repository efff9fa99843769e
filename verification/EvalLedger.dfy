/** What the comparison's counts and rows add up to. */
module EvalLedger {
  import opened Wrappers
  import opened Collections
  import opened Tallies
  import opened Gathering
  import opened EvalRunner
  import opened EvalCompare

  // ---------------------------------------------------------------- counts

  ghost function Diagnosed(p: Pair, ids: seq<string>, d: Diagnosis): set<string> {
    set id | id in ids && p.Counted(id) == Some(d)
  }

  ghost function InCandidate(p: Pair, ids: seq<string>): set<string> {
    set id | id in ids && id in p.candidate
  }

  lemma CountedIff(p: Pair, id: string)
    ensures p.Counted(id).Some? <==> id in p.candidate
  {
  }

  /** Each diagnosis is counted once per id it was given to. */
  lemma CountsAreIds(p: Pair, ids: seq<string>, d: Diagnosis)
    requires Distinct(ids)
    ensures multiset(Diagnoses(p, ids))[d] == |Diagnosed(p, ids, d)|
  {
    var f := (id: string) => p.Counted(id);
    GatherCount(f, ids, d);
    assert GiversOf(f, ids, d) == Diagnosed(p, ids, d);
  }

  lemma DiagnosesSize(p: Pair, ids: seq<string>)
    requires Distinct(ids)
    ensures |Diagnoses(p, ids)| == |InCandidate(p, ids)|
  {
    var f := (id: string) => p.Counted(id);
    GatherSize(f, ids);
    forall id ensures f(id).Some? <==> id in p.candidate { CountedIff(p, id); }
    assert Givers(f, ids) == InCandidate(p, ids);
  }

  lemma OneDiagnosisEach(control: Summary, candidate: Summary)
    ensures |DiagnosesOf(control, candidate)| == |IdsOf(candidate.tasks)|
  {
    var p, ids := PairOf(control, candidate), CompareIds(control.tasks, candidate.tasks);
    CompareIdsCover(control.tasks, candidate.tasks);
    DiagnosesSize(p, ids);
    assert InCandidate(p, ids) == IdsOf(candidate.tasks);
  }

  /** Every identified task of the candidate is counted under exactly one diagnosis. */
  lemma CountsConserved(control: Summary, candidate: Summary, c: Comparison)
    requires Compares(control, candidate, c)
    ensures Sum(c.counts, Identity) == |IdsOf(candidate.tasks)|
  {
    OneDiagnosisEach(control, candidate);
    CountsTotal(c.counts, DiagnosesOf(control, candidate));
  }

  // ---------------------------------------------------------------- rows

  ghost function RowIds(rows: seq<TaskCompare>): set<string> {
    set r | r in rows :: r.id
  }

  ghost predicate IsNamed(p: Pair) {
    && (forall id :: id in p.control ==> p.control[id].id == id)
    && (forall id :: id in p.candidate ==> p.candidate[id].id == id)
  }

  ghost function Filed(p: Pair, ids: seq<string>, shared: bool): set<string> {
    set id | id in ids && p.Shared(id) == shared
  }

  lemma RowNamed(p: Pair, id: string)
    requires IsNamed(p) && (id in p.control || id in p.candidate)
    ensures p.Row(id).id == id
  {
  }

  lemma RowsAreIds(p: Pair, ids: seq<string>, shared: bool)
    requires Distinct(ids) && IsNamed(p)
    requires forall id :: id in ids ==> id in p.control || id in p.candidate
    ensures RowIds(Rows(p, ids, shared)) == Filed(p, ids, shared)
    ensures |Rows(p, ids, shared)| == |Filed(p, ids, shared)|
  {
    var f := (id: string) => if p.Shared(id) == shared then Some(p.Row(id)) else None;
    GatherSize(f, ids);
    assert Givers(f, ids) == Filed(p, ids, shared);
    forall id | id in Filed(p, ids, shared) ensures id in RowIds(Gather(f, ids)) {
      RowNamed(p, id);
      GatherMembers(f, ids, p.Row(id));
      assert f(id) == Some(p.Row(id));
    }
    forall r: TaskCompare | r in Gather(f, ids) ensures r.id in Filed(p, ids, shared) {
      GatherMembers(f, ids, r);
      var id :| id in ids && f(id) == Some(r);
      RowNamed(p, id);
    }
  }

  lemma PairNamed(control: Summary, candidate: Summary)
    ensures var p := PairOf(control, candidate);
            && IsNamed(p) && p.control.Keys == IdsOf(control.tasks) && p.candidate.Keys == IdsOf(candidate.tasks)
  {
  }

  /** Shared tasks go to the table, the others to coverage; none is lost and none is listed twice. */
  lemma RowsPartition(control: Summary, candidate: Summary, c: Comparison)
    requires Compares(control, candidate, c)
    ensures RowIds(c.tasks) == IdsOf(control.tasks) * IdsOf(candidate.tasks)
    ensures RowIds(c.coverage) == IdsOf(control.tasks) + IdsOf(candidate.tasks) - RowIds(c.tasks)
    ensures |c.tasks| == |RowIds(c.tasks)| && |c.coverage| == |RowIds(c.coverage)|
  {
    var p, ids := PairOf(control, candidate), CompareIds(control.tasks, candidate.tasks);
    CompareIdsCover(control.tasks, candidate.tasks);
    PairNamed(control, candidate);
    FiledPartition(p, ids);
    RowsAreIds(p, ids, true);
    RowsAreIds(p, ids, false);
  }

  lemma FiledPartition(p: Pair, ids: seq<string>)
    requires forall id :: id in ids <==> id in p.control.Keys + p.candidate.Keys
    ensures Filed(p, ids, true) == p.control.Keys * p.candidate.Keys
    ensures Filed(p, ids, false) == p.control.Keys + p.candidate.Keys - Filed(p, ids, true)
  {
  }

  // ---------------------------------------------------------------- the matrix's retry count

  predicate UniqueIds(tasks: seq<TaskResult>) {
    && (forall k :: 0 <= k < |tasks| ==> tasks[k].id != "")
    && (forall i, j :: 0 <= i < j < |tasks| ==> tasks[i].id != tasks[j].id)
  }

  ghost function Retried(tasks: seq<TaskResult>): set<string> {
    set t | t in tasks && HasFailedAttempt(t) :: t.id
  }

  /** No two tasks with a failed attempt bear the same id. */
  predicate DistinctRetried(tasks: seq<TaskResult>) {
    forall i, j :: 0 <= i < j < |tasks| && HasFailedAttempt(tasks[i]) && HasFailedAttempt(tasks[j]) ==>
      tasks[i].id != tasks[j].id
  }

  lemma RetriedSnoc(tasks: seq<TaskResult>, t: TaskResult)
    ensures Retried(tasks + [t]) == Retried(tasks) + if HasFailedAttempt(t) then {t.id} else {}
    ensures DistinctRetried(tasks + [t]) <==>
            DistinctRetried(tasks) && (HasFailedAttempt(t) ==> t.id !in Retried(tasks))
  {
    var all := tasks + [t];
    if DistinctRetried(all) {
      forall i, j | 0 <= i < j < |tasks| && HasFailedAttempt(tasks[i]) && HasFailedAttempt(tasks[j])
        ensures tasks[i].id != tasks[j].id
      {
        assert all[i] == tasks[i] && all[j] == tasks[j];
      }
      forall u | u in tasks && HasFailedAttempt(u) && HasFailedAttempt(t) ensures u.id != t.id {
        var i :| 0 <= i < |tasks| && tasks[i] == u;
        assert all[i] == u && all[|tasks|] == t;
      }
    }
  }

  /** The matrix counts at least as many tasks as there are ids, and as many exactly when no id repeats. */
  lemma {:induction false} RetriedSize(tasks: seq<TaskResult>)
    ensures |Retried(tasks)| <= CountRetries(tasks)
    ensures |Retried(tasks)| == CountRetries(tasks) <==> DistinctRetried(tasks)
    decreases tasks
  {
    if tasks != [] {
      var n := |tasks| - 1;
      assert tasks == tasks[..n] + [tasks[n]];
      RetriedSize(tasks[..n]);
      RetriedSnoc(tasks[..n], tasks[n]);
    }
  }

  /** What the comparison shows as retried: a retried result whose control, if there is one, passed. */
  predicate ShowsRetry(p: Pair, id: string) {
    id in p.candidate && IsRetryDependent(p.candidate[id]) && (id in p.control ==> p.control[id].status.Passed?)
  }

  /** Nothing in the control speaks against the candidate's result. */
  predicate FairControl(p: Pair, id: string) {
    id in p.control ==> p.control[id].status.Passed?
  }

  /** What the comparison makes of a candidate's result, said on statuses, attempts and buckets. */
  predicate Deserves(p: Pair, id: string, d: Diagnosis) {
    id in p.candidate &&
    var t := p.candidate[id];
    match d
    case DiagnosisOK => FairControl(p, id) && t.status.Passed? && !IsRetryDependent(t)
    case DiagnosisRetry => ShowsRetry(p, id)
    case ControlFailed => !FairControl(p, id)
    case MissingTask => false
    case OnlyTask => false
    case _ => FairControl(p, id) && !t.status.Passed? && Blames(t, d)
  }

  lemma DeservedIsCounted(p: Pair, id: string, d: Diagnosis)
    ensures p.Counted(id) == Some(d) <==> Deserves(p, id, d)
  {
    if id in p.candidate { DiagnosisBlames(p.candidate[id], d); }
  }

  ghost function Deserving(p: Pair, d: Diagnosis): set<string> {
    set id | id in p.candidate && Deserves(p, id, d)
  }

  /** For any control and candidate, each count is the number of ids whose result deserves that diagnosis. */
  lemma EachCount(control: Summary, candidate: Summary, c: Comparison, d: Diagnosis)
    requires Compares(control, candidate, c)
    ensures Get(c.counts, d) == |Deserving(PairOf(control, candidate), d)|
  {
    var p, ids := PairOf(control, candidate), CompareIds(control.tasks, candidate.tasks);
    CompareIdsCover(control.tasks, candidate.tasks);
    CountsAreIds(p, ids, d);
    PairNamed(control, candidate);
    var a, b := Diagnosed(p, ids, d), Deserving(p, d);
    forall id ensures id in a <==> id in b {
      DeservedIsCounted(p, id, d);
    }
    assert a == b;
    assert Get(c.counts, d) == multiset(Diagnoses(p, ids))[d];
  }

  /** What the comparison counts as retried. */
  lemma RetryCount(control: Summary, candidate: Summary, c: Comparison)
    requires Compares(control, candidate, c)
    ensures Get(c.counts, DiagnosisRetry) == |ShownRetries(PairOf(control, candidate))|
  {
    EachCount(control, candidate, c, DiagnosisRetry);
    var p := PairOf(control, candidate);
    assert Deserving(p, DiagnosisRetry) == ShownRetries(p);
  }

  // ---------------------------------------------------------------- what a row says

  /** The row for `id` shows the two results, and files it as shared, missing or the candidate's own. */
  predicate RowSays(p: Pair, id: string, row: TaskCompare) {
    && row.id == id
    && (id in p.control ==> row.controlStatus == p.control[id].status && row.controlBucket == p.control[id].bucket)
    && (id !in p.control ==> row.controlStatus == OtherStatus("") && row.controlBucket == NoBucket)
    && (id in p.candidate ==>
          var t := p.candidate[id];
          && row.candidateStatus == t.status && row.candidateBucket == t.bucket
          && row.attempts == |t.attempts| && row.retryDependent == IsRetryDependent(t))
    && (id !in p.candidate ==>
          && row.candidateStatus == OtherStatus("") && row.candidateBucket == NoBucket
          && row.attempts == 0 && !row.retryDependent)
    && (p.Shared(id) ==> Deserves(p, id, row.diagnosis))
    && (id !in p.control ==> row.diagnosis == OnlyTask)
    && (id in p.control && id !in p.candidate ==> row.diagnosis == MissingTask)
  }

  lemma RowOf(p: Pair, id: string)
    requires IsNamed(p) && (id in p.control || id in p.candidate)
    ensures RowSays(p, id, p.Row(id))
  {
    if p.Shared(id) {
      DeservedIsCounted(p, id, p.Row(id).diagnosis);
    }
  }

  /** Every row of the comparison says what the two runs hold under its id. */
  lemma RowsSay(control: Summary, candidate: Summary, c: Comparison, row: TaskCompare)
    requires Compares(control, candidate, c) && (row in c.tasks || row in c.coverage)
    ensures RowSays(PairOf(control, candidate), row.id, row)
  {
    var p, ids := PairOf(control, candidate), CompareIds(control.tasks, candidate.tasks);
    CompareIdsCover(control.tasks, candidate.tasks);
    PairNamed(control, candidate);
    var shared := row in c.tasks;
    var f := (id: string) => if p.Shared(id) == shared then Some(p.Row(id)) else None;
    GatherMembers(f, ids, row);
    var id :| id in ids && f(id) == Some(row);
    RowOf(p, id);
  }

  // ---------------------------------------------------------------- the comparison and the matrix

  ghost function ShownRetries(p: Pair): set<string> {
    set id | id in p.candidate && ShowsRetry(p, id)
  }

  /** Every task that the matrix counts shows as retried. */
  ghost predicate AllShown(p: Pair, tasks: seq<TaskResult>) {
    forall t :: t in tasks && HasFailedAttempt(t) ==> ShowsRetry(p, t.id)
  }

  lemma ShownWithin(p: Pair, tasks: seq<TaskResult>)
    requires p.candidate == ById(tasks)
    ensures ShownRetries(p) <= Retried(tasks)
  {
    forall id | id in ShownRetries(p) ensures id in Retried(tasks) {
      var t := p.candidate[id];
      assert t in tasks && t.id == id && HasFailedAttempt(t);
    }
  }

  lemma AllShownIff(p: Pair, tasks: seq<TaskResult>)
    requires ShownRetries(p) <= Retried(tasks)
    ensures ShownRetries(p) == Retried(tasks) <==> AllShown(p, tasks)
  {
    if AllShown(p, tasks) {
      forall id | id in Retried(tasks) ensures id in ShownRetries(p) {
        var t :| t in tasks && HasFailedAttempt(t) && t.id == id;
      }
    }
    if ShownRetries(p) == Retried(tasks) {
      forall t | t in tasks && HasFailedAttempt(t) ensures ShowsRetry(p, t.id) {
        assert t.id in Retried(tasks);
      }
    }
  }

  /**
    The comparison never counts more retries than the matrix.  It counts as many exactly when each task
    that the matrix counts has an id of its own, is retried by the comparison's test too, and has no
    failed control.
   */
  lemma MatrixAgreesIff(control: Summary, candidate: Summary, c: Comparison)
    requires Compares(control, candidate, c)
    ensures Get(c.counts, DiagnosisRetry) <= CountRetries(candidate.tasks)
    ensures Get(c.counts, DiagnosisRetry) == CountRetries(candidate.tasks) <==>
            AllShown(PairOf(control, candidate), candidate.tasks) && DistinctRetried(candidate.tasks)
  {
    var p := PairOf(control, candidate);
    RetryCount(control, candidate, c);
    RetriedSize(candidate.tasks);
    ShownWithin(p, candidate.tasks);
    AllShownIff(p, candidate.tasks);
    SubsetSize(ShownRetries(p), Retried(candidate.tasks));
  }

  lemma SubsetSize<T>(a: set<T>, b: set<T>)
    requires a <= b
    ensures |a| <= |b| && (|a| == |b| <==> a == b)
  {
    assert b == a + (b - a) && |b| == |a| + |b - a|;
  }

  /** Against a control that passed everything, what the runner makes is counted alike. */
  lemma MatrixAgrees(control: Summary, candidate: Summary, c: Comparison)
    requires Compares(control, candidate, c) && AllPassed(control.tasks)
    requires UniqueIds(candidate.tasks) && AllRunnerMade(candidate.tasks)
    ensures Get(c.counts, DiagnosisRetry) == CountRetries(candidate.tasks)
  {
    var p := PairOf(control, candidate);
    MatrixAgreesIff(control, candidate, c);
    MadeAreShown(p, candidate.tasks);
  }

  lemma MadeAreShown(p: Pair, tasks: seq<TaskResult>)
    requires PassedPair(p) && p.candidate == ById(tasks) && UniqueIds(tasks) && AllRunnerMade(tasks)
    ensures AllShown(p, tasks)
  {
    forall t | t in tasks && HasFailedAttempt(t) ensures ShowsRetry(p, t.id) {
      var k :| 0 <= k < |tasks| && tasks[k] == t;
      ByIdUnique(tasks, k);
      RetriesCoincide(t);
    }
  }

  ghost predicate PassedPair(p: Pair) {
    forall id :: id in p.control ==> p.control[id].status.Passed?
  }

  // ---------------------------------------------------------------- the whole report

  function AllDiagnoses(control: Summary, candidates: seq<Summary>): seq<Diagnosis> {
    if candidates == [] then []
    else
      var n := |candidates| - 1;
      AllDiagnoses(control, candidates[..n]) + DiagnosesOf(control, candidates[n])
  }

  function TotalIds(candidates: seq<Summary>): nat {
    if candidates == [] then 0
    else
      var n := |candidates| - 1;
      TotalIds(candidates[..n]) + |IdsOf(candidates[n].tasks)|
  }

  ghost predicate Reports(control: Summary, candidates: seq<Summary>, r: Report) {
    && r.control == RunRefOf(control)
    && |r.candidates| == |candidates|
    && (forall k :: 0 <= k < |candidates| ==> Compares(control, candidates[k], r.candidates[k]))
    && Counts(r.counts, AllDiagnoses(control, candidates))
  }

  lemma NoReports(control: Summary)
    ensures Reports(control, [], Report(RunRefOf(control), [], map[]))
  {
  }

  method BuildCompareReport(control: Summary, candidates: seq<Summary>) returns (r: Option<Report>)
    ensures r.None? <==> candidates == []
    ensures r.Some? ==> Reports(control, candidates, r.value)
  {
    if candidates == [] {
      return None;
    }
    var report := Report(RunRefOf(control), [], map[]);
    NoReports(control);
    ghost var done: seq<Summary> := [];
    for k := 0 to |candidates|
      invariant done == candidates[..k] && Reports(control, done, report)
    {
      report := AddCandidate(control, done, report, candidates[k]);
      done := done + [candidates[k]];
    }
    assert done == candidates;
    return Some(report);
  }

  method AddCandidate(control: Summary, ghost done: seq<Summary>, before: Report, candidate: Summary)
    returns (r: Report)
    requires Reports(control, done, before)
    ensures Reports(control, done + [candidate], r)
  {
    var comparison := CompareCandidate(control, candidate);
    var counts := Merge(before.counts, comparison.counts);
    ReportsSnoc(control, done, before, candidate, comparison, counts);
    r := Report(before.control, before.candidates + [comparison], counts);
  }

  lemma ReportsSnoc(control: Summary, candidates: seq<Summary>, r: Report, candidate: Summary, c: Comparison,
                    counts: map<Diagnosis, nat>)
    requires Reports(control, candidates, r) && Compares(control, candidate, c)
    requires forall d :: Get(counts, d) == Get(r.counts, d) + Get(c.counts, d)
    ensures Reports(control, candidates + [candidate], Report(r.control, r.candidates + [c], counts))
  {
    MergeCounts(r.counts, c.counts, counts, AllDiagnoses(control, candidates), DiagnosesOf(control, candidate));
    assert (candidates + [candidate])[..|candidates|] == candidates;
  }

  lemma {:induction false} TotalDiagnoses(control: Summary, candidates: seq<Summary>)
    ensures |AllDiagnoses(control, candidates)| == TotalIds(candidates)
    decreases candidates
  {
    if candidates != [] {
      var n := |candidates| - 1;
      TotalDiagnoses(control, candidates[..n]);
      OneDiagnosisEach(control, candidates[n]);
    }
  }

  /** The report's counts add up to the identified tasks of all candidates. */
  lemma ReportConserved(control: Summary, candidates: seq<Summary>, r: Report)
    requires Reports(control, candidates, r)
    ensures Sum(r.counts, Identity) == TotalIds(candidates)
  {
    CountsTotal(r.counts, AllDiagnoses(control, candidates));
    TotalDiagnoses(control, candidates);
  }
}
