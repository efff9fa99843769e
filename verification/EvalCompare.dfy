/** Comparing a candidate run with a control run, task by task (internal/codexeval/compare.go). */
module EvalCompare {
  import opened Wrappers
  import opened Tallies
  import opened StringOrder
  import opened Gathering
  import opened EvalRunner

  datatype Diagnosis =
    | DiagnosisOK | DiagnosisRetry | ControlFailed
    | CandidateTransport | CandidateToolContract | CandidateModel | CandidateHarness
    | MissingTask | OnlyTask

  datatype TaskCompare = TaskCompare(
    id: string,
    controlStatus: Status, controlBucket: Bucket,
    candidateStatus: Status, candidateBucket: Bucket,
    attempts: nat, retryDependent: bool, diagnosis: Diagnosis)

  datatype RunRef = RunRef(runId: string, passed: nat, total: nat)

  datatype Comparison = Comparison(run: RunRef, counts: map<Diagnosis, nat>, tasks: seq<TaskCompare>,
                                   coverage: seq<TaskCompare>)

  datatype Report = Report(control: RunRef, candidates: seq<Comparison>, counts: map<Diagnosis, nat>)

  function RunRefOf(s: Summary): RunRef {
    RunRef(s.runId, Get(s.counts, Passed), |s.tasks|)
  }

  /** What is shown of a run: its id, how many of its tasks passed, and how many there are. */
  lemma RunRefSays(s: Summary)
    requires IsCounted(s)
    ensures var run := RunRefOf(s);
            run.runId == s.runId && run.passed == |WithStatus(s.tasks, Passed)| && run.total == |s.tasks|
  {
    SummaryCounts(s, Passed, NoBucket);
  }

  // ---------------------------------------------------------------- tasks by id

  function IdsOf(tasks: seq<TaskResult>): set<string> {
    set t | t in tasks && t.id != "" :: t.id
  }

  /** Each non-empty id with its last result. */
  function ById(tasks: seq<TaskResult>): (m: map<string, TaskResult>)
    ensures m.Keys == IdsOf(tasks)
    ensures forall id :: id in m ==> m[id] in tasks && m[id].id == id
  {
    if tasks == [] then map[]
    else
      var n := |tasks| - 1;
      var t := tasks[n];
      assert tasks == tasks[..n] + [t];
      if t.id == "" then ById(tasks[..n]) else ById(tasks[..n])[t.id := t]
  }

  method TaskResultById(tasks: seq<TaskResult>) returns (byId: map<string, TaskResult>)
    ensures byId == ById(tasks)
  {
    byId := map[];
    for i := 0 to |tasks|
      invariant byId == ById(tasks[..i])
    {
      assert tasks[..i + 1][..i] == tasks[..i];
      if tasks[i].id != "" {
        byId := byId[tasks[i].id := tasks[i]];
      }
    }
    assert tasks[..|tasks|] == tasks;
  }

  /** An id that occurs several times stands for its last result. */
  lemma {:induction false} LastById(tasks: seq<TaskResult>, id: string) returns (k: nat)
    requires id in ById(tasks)
    ensures LastAt(tasks, id, k) && ById(tasks)[id] == tasks[k]
    decreases tasks
  {
    k := |tasks| - 1;
    ByIdStep(tasks, id);
    if tasks[k].id != id {
      var n := k;
      k := LastById(tasks[..n], id);
      LastAtMore(tasks, n, id, k);
    }
  }

  predicate LastAt(tasks: seq<TaskResult>, id: string, k: nat) {
    k < |tasks| && tasks[k].id == id && forall j :: k < j < |tasks| ==> tasks[j].id != id
  }

  lemma LastAtMore(tasks: seq<TaskResult>, n: nat, id: string, k: nat)
    requires n + 1 == |tasks| && tasks[n].id != id && LastAt(tasks[..n], id, k)
    ensures LastAt(tasks, id, k) && tasks[k] == tasks[..n][k]
  {
    forall j | k < j < |tasks| ensures tasks[j].id != id {
      if j < n { assert tasks[..n][j] == tasks[j]; }
    }
  }

  lemma ByIdStep(tasks: seq<TaskResult>, id: string)
    requires id in ById(tasks)
    ensures tasks != []
    ensures var n := |tasks| - 1;
            if tasks[n].id == id then ById(tasks)[id] == tasks[n]
            else id in ById(tasks[..n]) && ById(tasks[..n])[id] == ById(tasks)[id]
  {
  }

  /** With unique ids every identified task is found under its own id. */
  lemma {:induction false} ByIdUnique(tasks: seq<TaskResult>, k: nat)
    requires k < |tasks| && tasks[k].id != ""
    requires forall i, j :: 0 <= i < j < |tasks| ==> tasks[i].id != tasks[j].id
    ensures tasks[k].id in ById(tasks) && ById(tasks)[tasks[k].id] == tasks[k]
  {
    var n := |tasks| - 1;
    if k < n {
      assert tasks[..n][k] == tasks[k];
      ByIdUnique(tasks[..n], k);
    }
  }

  // ---------------------------------------------------------------- the ids to compare

  /** The non-empty ids outside `seen`, each at its first occurrence. */
  function Fresh(tasks: seq<TaskResult>, seen: set<string>): (ids: seq<string>)
    ensures Distinct(ids)
    ensures forall id :: id in ids <==> id in IdsOf(tasks) && id !in seen
  {
    if tasks == [] then []
    else
      var n := |tasks| - 1;
      var id := tasks[n].id;
      assert tasks == tasks[..n] + [tasks[n]];
      var ids := Fresh(tasks[..n], seen);
      if id == "" || id in seen || id in ids then ids else ids + [id]
  }

  /** The control's ids as first seen, then the candidate's other ids in order. */
  function CompareIds(control: seq<TaskResult>, candidate: seq<TaskResult>): seq<string> {
    Fresh(control, {}) + Arrange(Fresh(candidate, IdsOf(control)))
  }

  /** Every identified task of either run is compared exactly once. */
  lemma CompareIdsCover(control: seq<TaskResult>, candidate: seq<TaskResult>)
    ensures Distinct(CompareIds(control, candidate))
    ensures forall id :: id in CompareIds(control, candidate) <==> id in IdsOf(control) + IdsOf(candidate)
  {
    DistinctArrange(Fresh(candidate, IdsOf(control)));
    DistinctConcat(Fresh(control, {}), Arrange(Fresh(candidate, IdsOf(control))));
  }

  /** Where an id occurs first. */
  predicate FirstAt(tasks: seq<TaskResult>, id: string, k: nat) {
    k < |tasks| && tasks[k].id == id && forall j :: 0 <= j < k ==> tasks[j].id != id
  }

  /** The ids stand as they first occur. */
  predicate AsTheyOccur(tasks: seq<TaskResult>, ids: seq<string>, at: seq<nat>) {
    && |at| == |ids| && (forall k :: 0 <= k < |at| ==> FirstAt(tasks, ids[k], at[k]))
    && forall k, l :: 0 <= k < l < |at| ==> at[k] < at[l]
  }

  lemma {:induction false} FreshInOrder(tasks: seq<TaskResult>, seen: set<string>) returns (at: seq<nat>)
    ensures AsTheyOccur(tasks, Fresh(tasks, seen), at)
    decreases tasks
  {
    at := [];
    if tasks != [] {
      var n := |tasks| - 1;
      var id := tasks[n].id;
      var ids := Fresh(tasks[..n], seen);
      at := FreshInOrder(tasks[..n], seen);
      OccurMore(tasks, n, ids, at);
      if !(id == "" || id in seen || id in ids) {
        FirstHere(tasks, seen);
        OccurSnoc(tasks, ids, at, id, n);
        at := at + [n];
      }
    }
  }

  lemma OccurSnoc(tasks: seq<TaskResult>, ids: seq<string>, at: seq<nat>, id: string, n: nat)
    requires AsTheyOccur(tasks, ids, at) && FirstAt(tasks, id, n) && forall k :: 0 <= k < |at| ==> at[k] < n
    ensures AsTheyOccur(tasks, ids + [id], at + [n])
  {
  }

  lemma OccurMore(tasks: seq<TaskResult>, n: nat, ids: seq<string>, at: seq<nat>)
    requires n <= |tasks| && AsTheyOccur(tasks[..n], ids, at)
    ensures AsTheyOccur(tasks, ids, at) && forall k :: 0 <= k < |at| ==> at[k] < n
  {
    forall k | 0 <= k < |at| ensures FirstAt(tasks, ids[k], at[k]) { FirstAtMore(tasks, n, ids[k], at[k]); }
  }

  lemma FirstAtMore(tasks: seq<TaskResult>, n: nat, id: string, k: nat)
    requires n <= |tasks| && FirstAt(tasks[..n], id, k)
    ensures FirstAt(tasks, id, k)
  {
    forall j | 0 <= j < k ensures tasks[j].id != id { assert tasks[..n][j] == tasks[j]; }
  }

  lemma FirstHere(tasks: seq<TaskResult>, seen: set<string>)
    requires tasks != []
    requires var n := |tasks| - 1;
             tasks[n].id != "" && tasks[n].id !in seen && tasks[n].id !in Fresh(tasks[..n], seen)
    ensures FirstAt(tasks, tasks[|tasks| - 1].id, |tasks| - 1)
  {
    var n := |tasks| - 1;
    forall j | 0 <= j < n ensures tasks[j].id != tasks[n].id {
      assert tasks[..n][j] in tasks[..n];
    }
  }

  /** The ids of the control come first, as they first occur in it; then the others, sorted. */
  lemma CompareIdsOrder(control: seq<TaskResult>, candidate: seq<TaskResult>) returns (at: seq<nat>,
                                                                                      others: seq<string>)
    ensures var ids := CompareIds(control, candidate);
            |at| <= |ids| && AsTheyOccur(control, ids[..|at|], at) && ids[|at|..] == others
    ensures Sorted(others) && forall id :: id in others <==> id in IdsOf(candidate) && id !in IdsOf(control)
  {
    at := FreshInOrder(control, {});
    assert CompareIds(control, candidate)[..|at|] == Fresh(control, {});
    var extra := Fresh(candidate, IdsOf(control));
    others := Arrange(extra);
    ArrangeSorts(extra);
    forall id ensures id in others <==> id in extra {
      assert id in multiset(others) <==> id in multiset(extra);
    }
  }

  lemma DistinctConcat(a: seq<string>, b: seq<string>)
    requires Distinct(a) && Distinct(b) && forall x :: x in a ==> x !in b
    ensures Distinct(a + b)
  {
    forall i, j | 0 <= i < j < |a + b| ensures (a + b)[i] != (a + b)[j] {
      assert i < |a| <= j ==> a[i] in a && b[j - |a|] in b;
    }
  }

  method CompareTaskIds(control: seq<TaskResult>, candidate: seq<TaskResult>) returns (ids: seq<string>)
    ensures ids == CompareIds(control, candidate)
  {
    var seen: set<string> := {};
    ids := [];
    for i := 0 to |control|
      invariant ids == Fresh(control[..i], {})
      invariant forall id :: id in seen <==> id in ids
    {
      assert control[..i + 1][..i] == control[..i];
      var id := control[i].id;
      if id == "" || id in seen {
        continue;
      }
      seen := seen + {id};
      ids := ids + [id];
    }
    assert control[..|control|] == control;
    var extra := [];
    for i := 0 to |candidate|
      invariant extra == Fresh(candidate[..i], IdsOf(control))
      invariant forall id :: id in seen <==> id in IdsOf(control) || id in extra
    {
      assert candidate[..i + 1][..i] == candidate[..i];
      var id := candidate[i].id;
      if id == "" || id in seen {
        continue;
      }
      seen := seen + {id};
      extra := extra + [id];
    }
    assert candidate[..|candidate|] == candidate;
    extra := Sort(extra);
    ids := ids + extra;
  }

  // ---------------------------------------------------------------- one task

  predicate HasAnyBucket(attempts: seq<Attempt>, buckets: set<Bucket>) {
    exists k :: 0 <= k < |attempts| && attempts[k].bucket in buckets
  }

  const TRANSPORT := {ShimAuth, ShimTransport, UpstreamHTTP, UpstreamStream, Timeout}
  const TOOL_CONTRACT := {RawToolMarkup, ModelBadToolArgs, CodexToolMissing, CodexToolExec}
  const MODEL := {ModelNoTool, CheckerDiff, CheckerTests}
  const HARNESS := {CodexConfig, HarnessBug}

  function CandidateDiagnosis(t: TaskResult): (d: Diagnosis)
    ensures d in {CandidateTransport, CandidateToolContract, CandidateModel, CandidateHarness}
  {
    if t.bucket.Timeout? && HasAnyBucket(t.attempts, TOOL_CONTRACT) then CandidateToolContract
    else if t.bucket.Timeout? && HasAnyBucket(t.attempts, MODEL) then CandidateModel
    else if t.bucket in TRANSPORT then CandidateTransport
    else if t.bucket in TOOL_CONTRACT then CandidateToolContract
    else if t.bucket in MODEL then CandidateModel
    else if t.bucket in HARNESS then CandidateHarness
    else
      match t.status
      case FailedTransport | FailedTimeout => CandidateTransport
      case FailedRawTool | FailedNoToolEvent => CandidateToolContract
      case FailedSetup => CandidateHarness
      case _ => CandidateModel
  }

  /** The class of a failure bucket; none for a bucket that says nothing. */
  function ClassOf(b: Bucket): Option<Diagnosis> {
    match b
    case ShimAuth => Some(CandidateTransport)
    case ShimTransport => Some(CandidateTransport)
    case UpstreamHTTP => Some(CandidateTransport)
    case UpstreamStream => Some(CandidateTransport)
    case Timeout => Some(CandidateTransport)
    case RawToolMarkup => Some(CandidateToolContract)
    case ModelBadToolArgs => Some(CandidateToolContract)
    case CodexToolMissing => Some(CandidateToolContract)
    case CodexToolExec => Some(CandidateToolContract)
    case ModelNoTool => Some(CandidateModel)
    case CheckerDiff => Some(CandidateModel)
    case CheckerTests => Some(CandidateModel)
    case CodexConfig => Some(CandidateHarness)
    case HarnessBug => Some(CandidateHarness)
    case _ => None
  }

  predicate SomeAttemptIn(attempts: seq<Attempt>, d: Diagnosis) {
    exists a :: a in attempts && ClassOf(a.bucket) == Some(d)
  }

  /** The failure is blamed on `d`: by its bucket, for a timeout by its attempts, and else by its status. */
  predicate Blames(t: TaskResult, d: Diagnosis) {
    if t.bucket.Timeout? then
      match d
      case CandidateToolContract => SomeAttemptIn(t.attempts, CandidateToolContract)
      case CandidateModel =>
        SomeAttemptIn(t.attempts, CandidateModel) && !SomeAttemptIn(t.attempts, CandidateToolContract)
      case CandidateTransport =>
        !SomeAttemptIn(t.attempts, CandidateModel) && !SomeAttemptIn(t.attempts, CandidateToolContract)
      case _ => false
    else if ClassOf(t.bucket).Some? then ClassOf(t.bucket) == Some(d)
    else
      match d
      case CandidateTransport => t.status.FailedTransport? || t.status.FailedTimeout?
      case CandidateToolContract => t.status.FailedRawTool? || t.status.FailedNoToolEvent?
      case CandidateHarness => t.status.FailedSetup?
      case CandidateModel =>
        !(t.status.FailedTransport? || t.status.FailedTimeout? || t.status.FailedRawTool?
          || t.status.FailedNoToolEvent? || t.status.FailedSetup?)
      case _ => false
  }

  lemma AttemptsInClass(attempts: seq<Attempt>)
    ensures HasAnyBucket(attempts, TOOL_CONTRACT) <==> SomeAttemptIn(attempts, CandidateToolContract)
    ensures HasAnyBucket(attempts, MODEL) <==> SomeAttemptIn(attempts, CandidateModel)
  {
    forall a | a in attempts
      ensures a.bucket in TOOL_CONTRACT <==> ClassOf(a.bucket) == Some(CandidateToolContract)
      ensures a.bucket in MODEL <==> ClassOf(a.bucket) == Some(CandidateModel)
    {
    }
    if k :| 0 <= k < |attempts| && attempts[k].bucket in TOOL_CONTRACT { assert attempts[k] in attempts; }
    if k :| 0 <= k < |attempts| && attempts[k].bucket in MODEL { assert attempts[k] in attempts; }
  }

  /** Every failure is blamed on exactly one class: that of the diagnosis. */
  lemma DiagnosisBlames(t: TaskResult, d: Diagnosis)
    ensures CandidateDiagnosis(t) == d <==> Blames(t, d)
  {
    AttemptsInClass(t.attempts);
  }

  function CompareTask(control: Option<TaskResult>, candidate: Option<TaskResult>): TaskCompare {
    var retry := candidate.Some? && IsRetryDependent(candidate.value);
    var diagnosis :=
      if control.None? then OnlyTask
      else if candidate.None? then MissingTask
      else if !control.value.status.Passed? then ControlFailed
      else if candidate.value.status.Passed? && retry then DiagnosisRetry
      else if candidate.value.status.Passed? then DiagnosisOK
      else CandidateDiagnosis(candidate.value);
    TaskCompare(
      if candidate.Some? then candidate.value.id else if control.Some? then control.value.id else "",
      if control.Some? then control.value.status else OtherStatus(""),
      if control.Some? then control.value.bucket else NoBucket,
      if candidate.Some? then candidate.value.status else OtherStatus(""),
      if candidate.Some? then candidate.value.bucket else NoBucket,
      if candidate.Some? then |candidate.value.attempts| else 0,
      retry, diagnosis)
  }

  /** What the row adds to the counts: nothing when the candidate has no such id. */
  function CountDiagnosis(control: Option<TaskResult>, candidate: Option<TaskResult>,
                          row: TaskCompare): Option<Diagnosis> {
    if candidate.None? then None
    else if control.Some? then Some(row.diagnosis)
    else if candidate.value.status.Passed? && row.retryDependent then Some(DiagnosisRetry)
    else if candidate.value.status.Passed? then Some(DiagnosisOK)
    else Some(CandidateDiagnosis(candidate.value))
  }

  // ---------------------------------------------------------------- one candidate

  /** The two runs' results under each id. */
  datatype Pair = Pair(control: map<string, TaskResult>, candidate: map<string, TaskResult>) {
    function Control(id: string): Option<TaskResult> { if id in control then Some(control[id]) else None }
    function Candidate(id: string): Option<TaskResult> { if id in candidate then Some(candidate[id]) else None }
    function Row(id: string): TaskCompare { CompareTask(Control(id), Candidate(id)) }
    function Counted(id: string): Option<Diagnosis> { CountDiagnosis(Control(id), Candidate(id), Row(id)) }
    predicate Shared(id: string) { id in control && id in candidate }
  }

  function PairOf(control: Summary, candidate: Summary): Pair {
    Pair(ById(control.tasks), ById(candidate.tasks))
  }

  /** The rows for ids both runs have, or those for ids only one has. */
  function Rows(p: Pair, ids: seq<string>, shared: bool): seq<TaskCompare> {
    Gather((id: string) => if p.Shared(id) == shared then Some(p.Row(id)) else None, ids)
  }

  function Diagnoses(p: Pair, ids: seq<string>): seq<Diagnosis> {
    Gather((id: string) => p.Counted(id), ids)
  }

  lemma RowsSnoc(p: Pair, ids: seq<string>, id: string, shared: bool)
    ensures Rows(p, ids + [id], shared) == Rows(p, ids, shared) + if p.Shared(id) == shared then [p.Row(id)] else []
  {
    GatherSnoc((id: string) => if p.Shared(id) == shared then Some(p.Row(id)) else None, ids, id);
  }

  lemma DiagnosesSnoc(p: Pair, ids: seq<string>, id: string)
    ensures Diagnoses(p, ids + [id]) == Diagnoses(p, ids) + Kept(p.Counted(id))
  {
    GatherSnoc((id: string) => p.Counted(id), ids, id);
  }

  function DiagnosesOf(control: Summary, candidate: Summary): seq<Diagnosis> {
    Diagnoses(PairOf(control, candidate), CompareIds(control.tasks, candidate.tasks))
  }

  /** `c` holds the rows and the counts of `ids`. */
  ghost predicate Covers(p: Pair, ids: seq<string>, c: Comparison) {
    && c.tasks == Rows(p, ids, true)
    && c.coverage == Rows(p, ids, false)
    && Counts(c.counts, Diagnoses(p, ids))
  }

  /** `c` is the comparison of the two runs. */
  ghost predicate Compares(control: Summary, candidate: Summary, c: Comparison) {
    && c.run == RunRefOf(candidate)
    && Covers(PairOf(control, candidate), CompareIds(control.tasks, candidate.tasks), c)
  }

  method CompareCandidate(control: Summary, candidate: Summary) returns (c: Comparison)
    ensures Compares(control, candidate, c)
  {
    var controlTasks := TaskResultById(control.tasks);
    var candidateTasks := TaskResultById(candidate.tasks);
    var ids := CompareTaskIds(control.tasks, candidate.tasks);
    c := CompareAll(Pair(controlTasks, candidateTasks), ids, RunRefOf(candidate));
  }

  method CompareAll(p: Pair, ids: seq<string>, run: RunRef) returns (c: Comparison)
    ensures c.run == run && Covers(p, ids, c)
  {
    c := Comparison(run, map[], [], []);
    for i := 0 to |ids|
      invariant c.run == run && Covers(p, ids[..i], c)
    {
      c := CompareId(p, ids[..i], ids[i], c);
      assert ids[..i + 1] == ids[..i] + [ids[i]];
    }
    assert ids[..|ids|] == ids;
  }

  /** One round of the loop: compare, count, and file the row. */
  method CompareId(p: Pair, ghost ids: seq<string>, id: string, before: Comparison) returns (c: Comparison)
    requires Covers(p, ids, before)
    ensures c.run == before.run && Covers(p, ids + [id], c)
  {
    c := before;
    var controlTask, candidateTask := p.Control(id), p.Candidate(id);
    var row := CompareTask(controlTask, candidateTask);
    var diagnosis := CountDiagnosis(controlTask, candidateTask, row);
    RowsSnoc(p, ids, id, true);
    RowsSnoc(p, ids, id, false);
    DiagnosesSnoc(p, ids, id);
    if diagnosis.Some? {
      BumpCounts(c.counts, Diagnoses(p, ids), diagnosis.value);
      c := c.(counts := Bump(c.counts, diagnosis.value));
    }
    if controlTask.None? || candidateTask.None? {
      c := c.(coverage := c.coverage + [row]);
    } else {
      c := c.(tasks := c.tasks + [row]);
    }
  }
}
