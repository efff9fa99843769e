/** Turning a comparison report into a verdict (internal/codexeval/auto_report.go). */
module EvalProfile {
  import opened Wrappers
  import opened Tallies
  import opened StringOrder
  import opened Gathering
  import opened EvalRunner
  import opened EvalCompare

  datatype Finding = Finding(candidate: string, task: string, diagnosis: Diagnosis, status: Status, bucket: Bucket,
                             attempts: nat)

  datatype Verdict = Verdict(passed: bool, strictClean: bool, retryTasks: seq<Finding>, failedTasks: seq<Finding>,
                             coverage: seq<Finding>)

  datatype Profile = Profile(
    name: string, retryDependent: nat, counts: map<Diagnosis, nat>,
    control: RunRef, candidates: seq<RunRef>, verdict: Verdict)

  predicate Finished(run: RunRef) {
    run.passed == run.total
  }

  // ---------------------------------------------------------------- what each row leads to

  function FindingOf(run: RunRef, row: TaskCompare): Finding {
    Finding(run.runId, row.id, row.diagnosis, row.candidateStatus, row.candidateBucket, row.attempts)
  }

  function TaskRetry(run: RunRef, row: TaskCompare): Option<Finding> {
    if row.diagnosis.DiagnosisRetry? then Some(FindingOf(run, row)) else None
  }

  function TaskFailure(run: RunRef, row: TaskCompare): Option<Finding> {
    if row.diagnosis.DiagnosisOK? || row.diagnosis.DiagnosisRetry? then None else Some(FindingOf(run, row))
  }

  predicate IsNote(row: TaskCompare) {
    row.diagnosis in {DiagnosisOK, DiagnosisRetry, OnlyTask, MissingTask}
  }

  function CoverageNote(run: RunRef, row: TaskCompare): Option<Finding> {
    if IsNote(row) then Some(FindingOf(run, row)) else None
  }

  function CoverageFailure(run: RunRef, row: TaskCompare): Option<Finding> {
    if IsNote(row) then None else Some(FindingOf(run, row))
  }

  function CoverageRetry(run: RunRef, row: TaskCompare): Option<Finding> {
    if row.diagnosis.DiagnosisRetry? || (row.candidateStatus.Passed? && row.attempts > 1) then
      Some(FindingOf(run, row).(diagnosis := DiagnosisRetry))
    else None
  }

  function TaskRetries(run: RunRef, rows: seq<TaskCompare>): seq<Finding> {
    Gather((row: TaskCompare) => TaskRetry(run, row), rows)
  }

  function TaskFailures(run: RunRef, rows: seq<TaskCompare>): seq<Finding> {
    Gather((row: TaskCompare) => TaskFailure(run, row), rows)
  }

  function CoverageNotes(run: RunRef, rows: seq<TaskCompare>): seq<Finding> {
    Gather((row: TaskCompare) => CoverageNote(run, row), rows)
  }

  function CoverageFailures(run: RunRef, rows: seq<TaskCompare>): seq<Finding> {
    Gather((row: TaskCompare) => CoverageFailure(run, row), rows)
  }

  function CoverageRetries(run: RunRef, rows: seq<TaskCompare>): seq<Finding> {
    Gather((row: TaskCompare) => CoverageRetry(run, row), rows)
  }

  function Retries(c: Comparison): seq<Finding> { TaskRetries(c.run, c.tasks) + CoverageRetries(c.run, c.coverage) }
  function Failures(c: Comparison): seq<Finding> { TaskFailures(c.run, c.tasks) + CoverageFailures(c.run, c.coverage) }

  function AllRetries(cs: seq<Comparison>): seq<Finding> {
    if cs == [] then [] else AllRetries(cs[..|cs| - 1]) + Retries(cs[|cs| - 1])
  }

  function AllFailures(cs: seq<Comparison>): seq<Finding> {
    if cs == [] then [] else AllFailures(cs[..|cs| - 1]) + Failures(cs[|cs| - 1])
  }

  function AllNotes(cs: seq<Comparison>): seq<Finding> {
    if cs == [] then [] else AllNotes(cs[..|cs| - 1]) + CoverageNotes(cs[|cs| - 1].run, cs[|cs| - 1].coverage)
  }

  /** The finding shows a row of a run. */
  predicate Tells(f: Finding, run: RunRef, row: TaskCompare) {
    && f.candidate == run.runId && f.task == row.id && f.status == row.candidateStatus
    && f.bucket == row.candidateBucket && f.attempts == row.attempts
  }

  predicate TellsFailure(f: Finding, c: Comparison, row: TaskCompare) {
    && Tells(f, c.run, row) && f.diagnosis == row.diagnosis
    && (|| (row in c.tasks && row.diagnosis !in {DiagnosisOK, DiagnosisRetry})
        || (row in c.coverage && row.diagnosis !in {DiagnosisOK, DiagnosisRetry, OnlyTask, MissingTask}))
  }

  predicate TellsRetry(f: Finding, c: Comparison, row: TaskCompare) {
    && Tells(f, c.run, row) && f.diagnosis == DiagnosisRetry
    && (|| (row in c.tasks && row.diagnosis == DiagnosisRetry)
        || (row in c.coverage
            && (row.diagnosis == DiagnosisRetry || (row.candidateStatus == Passed && row.attempts > 1))))
  }

  predicate TellsNote(f: Finding, c: Comparison, row: TaskCompare) {
    && Tells(f, c.run, row) && f.diagnosis == row.diagnosis && row in c.coverage
    && row.diagnosis in {DiagnosisOK, DiagnosisRetry, OnlyTask, MissingTask}
  }

  lemma FailureTold(c: Comparison, f: Finding)
    ensures f in Failures(c) <==> exists row :: TellsFailure(f, c, row)
  {
    GatherMembers((row: TaskCompare) => TaskFailure(c.run, row), c.tasks, f);
    GatherMembers((row: TaskCompare) => CoverageFailure(c.run, row), c.coverage, f);
    forall row ensures TaskFailure(c.run, row) == Some(f) && row in c.tasks ==> TellsFailure(f, c, row) {}
    forall row ensures CoverageFailure(c.run, row) == Some(f) && row in c.coverage ==> TellsFailure(f, c, row) {}
    forall row | TellsFailure(f, c, row)
      ensures (row in c.tasks && TaskFailure(c.run, row) == Some(f))
           || (row in c.coverage && CoverageFailure(c.run, row) == Some(f))
    {
    }
  }

  lemma RetryTold(c: Comparison, f: Finding)
    ensures f in Retries(c) <==> exists row :: TellsRetry(f, c, row)
  {
    GatherMembers((row: TaskCompare) => TaskRetry(c.run, row), c.tasks, f);
    GatherMembers((row: TaskCompare) => CoverageRetry(c.run, row), c.coverage, f);
    forall row ensures TaskRetry(c.run, row) == Some(f) && row in c.tasks ==> TellsRetry(f, c, row) {}
    forall row ensures CoverageRetry(c.run, row) == Some(f) && row in c.coverage ==> TellsRetry(f, c, row) {}
    forall row | TellsRetry(f, c, row)
      ensures (row in c.tasks && TaskRetry(c.run, row) == Some(f))
           || (row in c.coverage && CoverageRetry(c.run, row) == Some(f))
    {
    }
  }

  lemma NoteTold(c: Comparison, f: Finding)
    ensures f in CoverageNotes(c.run, c.coverage) <==> exists row :: TellsNote(f, c, row)
  {
    GatherMembers((row: TaskCompare) => CoverageNote(c.run, row), c.coverage, f);
    forall row ensures CoverageNote(c.run, row) == Some(f) && row in c.coverage <==> TellsNote(f, c, row) {}
  }

  /** The findings of a verdict are exactly the rows that fail, were retried, or only tell of coverage. */
  lemma {:induction false} FindingsTold(cs: seq<Comparison>, f: Finding)
    ensures f in AllFailures(cs) <==> exists c, row :: c in cs && TellsFailure(f, c, row)
    ensures f in AllRetries(cs) <==> exists c, row :: c in cs && TellsRetry(f, c, row)
    ensures f in AllNotes(cs) <==> exists c, row :: c in cs && TellsNote(f, c, row)
    decreases cs
  {
    if cs != [] {
      var n := |cs| - 1;
      assert cs == cs[..n] + [cs[n]];
      FindingsTold(cs[..n], f);
      FailureTold(cs[n], f);
      RetryTold(cs[n], f);
      NoteTold(cs[n], f);
    }
  }

  predicate AllFinished(cs: seq<Comparison>) {
    forall k :: 0 <= k < |cs| ==> Finished(cs[k].run)
  }

  // ---------------------------------------------------------------- the classification loops

  /** `v` with more findings; failures cost the pass, failures and retries the clean mark. */
  function With(v: Verdict, retries: seq<Finding>, failures: seq<Finding>, notes: seq<Finding>): Verdict {
    Verdict(v.passed && failures == [], v.strictClean && failures == [] && retries == [],
            v.retryTasks + retries, v.failedTasks + failures, v.coverage + notes)
  }

  lemma WithTwice(v: Verdict, r: seq<Finding>, f: seq<Finding>, n: seq<Finding>, r': seq<Finding>, f': seq<Finding>,
                  n': seq<Finding>)
    ensures With(With(v, r, f, n), r', f', n') == With(v, r + r', f + f', n + n')
  {
    assert v.retryTasks + r + r' == v.retryTasks + (r + r');
    assert v.failedTasks + f + f' == v.failedTasks + (f + f');
    assert v.coverage + n + n' == v.coverage + (n + n');
  }

  lemma WithNothing(v: Verdict)
    ensures With(v, [], [], []) == v
  {
  }

  method FileTask(before: Verdict, run: RunRef, row: TaskCompare) returns (v: Verdict)
    ensures v == With(before, Kept(TaskRetry(run, row)), Kept(TaskFailure(run, row)), [])
  {
    v := before;
    var finding := FindingOf(run, row);
    match row.diagnosis
    case DiagnosisOK =>
    case DiagnosisRetry =>
      v := v.(strictClean := false, retryTasks := v.retryTasks + [finding]);
    case _ =>
      v := v.(passed := false, strictClean := false, failedTasks := v.failedTasks + [finding]);
  }

  method FileTasks(before: Verdict, run: RunRef, rows: seq<TaskCompare>) returns (v: Verdict)
    ensures v == With(before, TaskRetries(run, rows), TaskFailures(run, rows), [])
  {
    v := before;
    WithNothing(v);
    for k := 0 to |rows|
      invariant v == With(before, TaskRetries(run, rows[..k]), TaskFailures(run, rows[..k]), [])
    {
      v := FileTask(v, run, rows[k]);
      TasksSnoc(before, run, rows[..k], rows[k]);
      assert rows[..k + 1] == rows[..k] + [rows[k]];
    }
    assert rows[..|rows|] == rows;
  }

  lemma TasksSnoc(v: Verdict, run: RunRef, rows: seq<TaskCompare>, row: TaskCompare)
    ensures With(v, TaskRetries(run, rows + [row]), TaskFailures(run, rows + [row]), [])
         == With(With(v, TaskRetries(run, rows), TaskFailures(run, rows), []), Kept(TaskRetry(run, row)),
                 Kept(TaskFailure(run, row)), [])
  {
    GatherSnoc((row: TaskCompare) => TaskRetry(run, row), rows, row);
    GatherSnoc((row: TaskCompare) => TaskFailure(run, row), rows, row);
    WithTwice(v, TaskRetries(run, rows), TaskFailures(run, rows), [], Kept(TaskRetry(run, row)),
              Kept(TaskFailure(run, row)), []);
  }

  method FileCovered(before: Verdict, run: RunRef, row: TaskCompare) returns (v: Verdict)
    ensures v ==
            With(before, Kept(CoverageRetry(run, row)), Kept(CoverageFailure(run, row)), Kept(CoverageNote(run, row)))
  {
    v := before;
    var finding := FindingOf(run, row);
    match row.diagnosis {
      case DiagnosisOK | DiagnosisRetry | OnlyTask | MissingTask =>
        v := v.(coverage := v.coverage + [finding]);
      case _ =>
        v := v.(passed := false, strictClean := false, failedTasks := v.failedTasks + [finding]);
    }
    if row.diagnosis.DiagnosisRetry? || (row.candidateStatus.Passed? && row.attempts > 1) {
      v := v.(strictClean := false, retryTasks := v.retryTasks + [finding.(diagnosis := DiagnosisRetry)]);
    }
  }

  method FileCoverage(before: Verdict, run: RunRef, rows: seq<TaskCompare>) returns (v: Verdict)
    ensures v == With(before, CoverageRetries(run, rows), CoverageFailures(run, rows), CoverageNotes(run, rows))
  {
    v := before;
    WithNothing(v);
    for k := 0 to |rows|
      invariant v ==
                With(before, CoverageRetries(run, rows[..k]), CoverageFailures(run, rows[..k]),
                     CoverageNotes(run, rows[..k]))
    {
      v := FileCovered(v, run, rows[k]);
      CoverageSnoc(before, run, rows[..k], rows[k]);
      assert rows[..k + 1] == rows[..k] + [rows[k]];
    }
    assert rows[..|rows|] == rows;
  }

  lemma CoverageSnoc(v: Verdict, run: RunRef, rows: seq<TaskCompare>, row: TaskCompare)
    ensures With(v, CoverageRetries(run, rows + [row]), CoverageFailures(run, rows + [row]),
                 CoverageNotes(run, rows + [row]))
         == With(With(v, CoverageRetries(run, rows), CoverageFailures(run, rows), CoverageNotes(run, rows)),
                 Kept(CoverageRetry(run, row)), Kept(CoverageFailure(run, row)), Kept(CoverageNote(run, row)))
  {
    GatherSnoc((row: TaskCompare) => CoverageRetry(run, row), rows, row);
    GatherSnoc((row: TaskCompare) => CoverageFailure(run, row), rows, row);
    GatherSnoc((row: TaskCompare) => CoverageNote(run, row), rows, row);
    WithTwice(v, CoverageRetries(run, rows), CoverageFailures(run, rows), CoverageNotes(run, rows),
              Kept(CoverageRetry(run, row)), Kept(CoverageFailure(run, row)), Kept(CoverageNote(run, row)));
  }

  /** The lists and marks after the candidates `cs`. */
  ghost predicate Judges(v: Verdict, control: RunRef, cs: seq<Comparison>) {
    && v.retryTasks == AllRetries(cs) && v.failedTasks == AllFailures(cs) && v.coverage == AllNotes(cs)
    && (v.passed <==> Finished(control) && AllFinished(cs) && AllFailures(cs) == [])
    && (v.strictClean <==> v.passed && AllRetries(cs) == [])
  }

  method FileCandidate(before: Verdict, control: RunRef, ghost done: seq<Comparison>, c: Comparison)
    returns (v: Verdict)
    requires Judges(before, control, done)
    ensures Judges(v, control, done + [c])
  {
    v := before;
    if c.run.passed != c.run.total {
      v := v.(passed := false, strictClean := false);
    }
    ghost var start := v;
    v := FileTasks(v, c.run, c.tasks);
    v := FileCoverage(v, c.run, c.coverage);
    WithTwice(start, TaskRetries(c.run, c.tasks), TaskFailures(c.run, c.tasks), [],
              CoverageRetries(c.run, c.coverage), CoverageFailures(c.run, c.coverage),
              CoverageNotes(c.run, c.coverage));
    assert v == With(start, Retries(c), Failures(c), CoverageNotes(c.run, c.coverage));
    JudgesSnoc(before, start, control, done, c);
  }

  lemma JudgesSnoc(before: Verdict, start: Verdict, control: RunRef, cs: seq<Comparison>, c: Comparison)
    requires Judges(before, control, cs)
    requires start ==
             before.(passed := before.passed && Finished(c.run), strictClean := before.strictClean && Finished(c.run))
    ensures Judges(With(start, Retries(c), Failures(c), CoverageNotes(c.run, c.coverage)), control, cs + [c])
  {
    var more := cs + [c];
    assert more[..|cs|] == cs && more[|cs|] == c;
    assert AllRetries(more) == AllRetries(cs) + Retries(c);
    assert AllFailures(more) == AllFailures(cs) + Failures(c);
    assert AllNotes(more) == AllNotes(cs) + CoverageNotes(c.run, c.coverage);
    FinishedSnoc(cs, c);
  }

  lemma FinishedSnoc(cs: seq<Comparison>, c: Comparison)
    ensures AllFinished(cs + [c]) <==> AllFinished(cs) && Finished(c.run)
  {
    assert forall k :: 0 <= k < |cs| ==> (cs + [c])[k] == cs[k];
    assert (cs + [c])[|cs|] == c;
  }

  /** Passing takes finished runs and no failed finding; the clean mark also no retry, listed or counted. */
  ghost predicate IsProfile(p: Profile, r: Report) {
    && p.control == r.control && p.counts == r.counts && p.retryDependent == Get(r.counts, DiagnosisRetry)
    && |p.candidates| == |r.candidates| &&
       (forall k :: 0 <= k < |r.candidates| ==> p.candidates[k] == r.candidates[k].run)
    && p.verdict.retryTasks == AllRetries(r.candidates)
    && p.verdict.failedTasks == AllFailures(r.candidates)
    && p.verdict.coverage == AllNotes(r.candidates)
    && (p.verdict.passed <==> Finished(r.control) && AllFinished(r.candidates) && AllFailures(r.candidates) == [])
    && (p.verdict.strictClean <==> p.verdict.passed && AllRetries(r.candidates) == [] && p.retryDependent == 0)
  }

  method FileCandidates(control: RunRef, cs: seq<Comparison>) returns (verdict: Verdict)
    ensures Judges(verdict, control, cs)
  {
    verdict := Verdict(true, true, [], [], []);
    if control.passed != control.total {
      verdict := verdict.(passed := false, strictClean := false);
    }
    for k := 0 to |cs|
      invariant Judges(verdict, control, cs[..k])
    {
      verdict := FileCandidate(verdict, control, cs[..k], cs[k]);
      assert cs[..k + 1] == cs[..k] + [cs[k]];
    }
    assert cs[..|cs|] == cs;
  }

  method LoadAutoProfile(name: string, r: Report) returns (p: Profile)
    ensures p.name == name && IsProfile(p, r)
  {
    var verdict := FileCandidates(r.control, r.candidates);
    var runs := seq(|r.candidates|, k requires 0 <= k < |r.candidates| => r.candidates[k].run);
    if Get(r.counts, DiagnosisRetry) > 0 {
      verdict := verdict.(strictClean := false);
    }
    p := Profile(name, Get(r.counts, DiagnosisRetry), r.counts, r.control, runs, verdict);
  }

  // ---------------------------------------------------------------- several profiles

  datatype Strict = StrictNone | StrictBaseline | StrictAll

  predicate AllProfilesPass(ps: seq<Profile>) {
    forall k :: 0 <= k < |ps| ==> ps[k].verdict.passed
  }

  function ProfileTotal(ps: seq<Profile>, d: Diagnosis): nat {
    if ps == [] then 0 else ProfileTotal(ps[..|ps| - 1], d) + Get(ps[|ps| - 1].counts, d)
  }

  // ---------------------------------------------------------------- the profiles in order

  function SortKey(name: string): string {
    match name
    case "baseline" => "00-" + name
    case "expanded" => "01-" + name
    case "bench-lite" => "02-" + name
    case _ => "99-" + name
  }

  function Rank(name: string): nat {
    match name
    case "baseline" => 0
    case "expanded" => 1
    case "bench-lite" => 2
    case _ => 3
  }

  function Mark(rank: nat): char {
    if rank == 0 then '0' else if rank == 1 then '1' else if rank == 2 then '2' else '9'
  }

  lemma KeyParts(name: string)
    ensures SortKey(name) == [if Rank(name) == 3 then '9' else '0', Mark(Rank(name)), '-'] + name
  {
  }

  lemma SameMarks(a: char, b: char, x: string, y: string)
    ensures AtMost([a, b, '-'] + x, [a, b, '-'] + y) <==> AtMost(x, y)
  {
    var p, q := [a, b, '-'] + x, [a, b, '-'] + y;
    var p1, q1, p2, q2 := p[1..], q[1..], p[2..], q[2..];
    assert p1[1..] == p2 && q1[1..] == q2 && p2[1..] == x && q2[1..] == y;
    assert p2[0] == '-' == q2[0] && (AtMost(p2, q2) <==> AtMost(x, y));
    assert p1[0] == b == q1[0] && (AtMost(p1, q1) <==> AtMost(p2, q2));
  }

  lemma OtherMarks(a: char, b: char, x: string, c: char, d: char, y: string)
    requires a < c || (a == c && b < d)
    ensures AtMost([a, b, '-'] + x, [c, d, '-'] + y) && !AtMost([c, d, '-'] + y, [a, b, '-'] + x)
  {
    var p, q := [a, b, '-'] + x, [c, d, '-'] + y;
    assert p[1..] == [b, '-'] + x && q[1..] == [d, '-'] + y;
  }

  /** The baseline comes first, then the expanded profile, then the short benchmark, then the others by name. */
  lemma KeyOrder(a: string, b: string)
    ensures AtMost(SortKey(a), SortKey(b)) <==> Rank(a) < Rank(b) || (Rank(a) == Rank(b) && AtMost(a, b))
  {
    KeyParts(a);
    KeyParts(b);
    var m, n := if Rank(a) == 3 then '9' else '0', if Rank(b) == 3 then '9' else '0';
    if Rank(a) == Rank(b) {
      SameMarks(m, Mark(Rank(a)), a, b);
    } else if Rank(a) < Rank(b) {
      OtherMarks(m, Mark(Rank(a)), a, n, Mark(Rank(b)), b);
    } else {
      OtherMarks(n, Mark(Rank(b)), b, m, Mark(Rank(a)), a);
    }
  }

  /** The profiles with a key, in order. */
  function Under(ps: seq<Profile>, key: string): seq<Profile> {
    if ps == [] then []
    else
      var n := |ps| - 1;
      Under(ps[..n], key) + if SortKey(ps[n].name) == key then [ps[n]] else []
  }

  predicate InKeyOrder(ps: seq<Profile>) {
    forall i, j :: 0 <= i < j < |ps| ==> AtMost(SortKey(ps[i].name), SortKey(ps[j].name))
  }

  /** `out` is `ps` ordered by key, and profiles with the same key stay in their order. */
  ghost predicate SortsStably(ps: seq<Profile>, out: seq<Profile>) {
    InKeyOrder(out) && multiset(out) == multiset(ps) && forall key :: Under(out, key) == Under(ps, key)
  }

  lemma {:induction false} UnderConcat(a: seq<Profile>, b: seq<Profile>, key: string)
    ensures Under(a + b, key) == Under(a, key) + Under(b, key)
    decreases b
  {
    if b == [] {
      assert a + b == a;
    } else {
      var n := |b| - 1;
      assert (a + b)[..|a + b| - 1] == a + b[..n];
      UnderConcat(a, b[..n], key);
    }
  }

  lemma {:induction false} NoneUnder(ps: seq<Profile>, key: string)
    requires forall k :: 0 <= k < |ps| ==> SortKey(ps[k].name) != key
    ensures Under(ps, key) == []
    decreases ps
  {
    if ps != [] { NoneUnder(ps[..|ps| - 1], key); }
  }

  lemma UnderInserted(front: seq<Profile>, p: Profile, back: seq<Profile>, key: string)
    requires forall k :: 0 <= k < |back| ==> SortKey(back[k].name) != SortKey(p.name)
    ensures Under(front + [p] + back, key) == Under(front + back + [p], key)
  {
    UnderConcat(front + [p], back, key);
    UnderConcat(front, [p], key);
    UnderConcat(front + back, [p], key);
    UnderConcat(front, back, key);
    if SortKey(p.name) == key {
      NoneUnder(back, key);
    } else {
      NoneUnder([p], key);
      Plain(Under(front, key), Under(back, key));
    }
  }

  lemma Plain(a: seq<Profile>, b: seq<Profile>)
    ensures a + [] + b == a + b + []
  {
  }

  method InsertProfile(ps: seq<Profile>, p: Profile) returns (out: seq<Profile>)
    requires InKeyOrder(ps)
    ensures SortsStably(ps + [p], out)
  {
    var i := |ps|;
    while i > 0 && !AtMost(SortKey(ps[i - 1].name), SortKey(p.name))
      invariant 0 <= i <= |ps|
      invariant forall k :: i <= k < |ps| ==> !AtMost(SortKey(ps[k].name), SortKey(p.name))
    {
      i := i - 1;
    }
    out := ps[..i] + [p] + ps[i..];
    InsertedInOrder(ps, i, p);
  }

  lemma InsertedInOrder(ps: seq<Profile>, i: nat, p: Profile)
    requires InKeyOrder(ps) && i <= |ps|
    requires forall k :: i <= k < |ps| ==> !AtMost(SortKey(ps[k].name), SortKey(p.name))
    requires i > 0 ==> AtMost(SortKey(ps[i - 1].name), SortKey(p.name))
    ensures SortsStably(ps + [p], ps[..i] + [p] + ps[i..])
  {
    var front, back := ps[..i], ps[i..];
    assert ps == front + back;
    KeysAround(ps, i, SortKey(p.name));
    InsertedKeys(ps, i, p);
    StableAround(front, p, back);
  }

  lemma StableAround(front: seq<Profile>, p: Profile, back: seq<Profile>)
    requires InKeyOrder(front + [p] + back)
    requires forall k :: 0 <= k < |back| ==> SortKey(back[k].name) != SortKey(p.name)
    ensures SortsStably(front + back + [p], front + [p] + back)
  {
    assert multiset(front + [p] + back) == multiset(front + back + [p]);
    forall key ensures Under(front + [p] + back, key) == Under(front + back + [p], key) {
      UnderInserted(front, p, back, key);
    }
  }

  lemma KeysAround(ps: seq<Profile>, i: nat, key: string)
    requires InKeyOrder(ps) && i <= |ps|
    requires forall k :: i <= k < |ps| ==> !AtMost(SortKey(ps[k].name), key)
    requires i > 0 ==> AtMost(SortKey(ps[i - 1].name), key)
    ensures forall k :: 0 <= k < i ==> AtMost(SortKey(ps[k].name), key)
    ensures forall k :: i <= k < |ps| ==> AtMost(key, SortKey(ps[k].name)) && SortKey(ps[k].name) != key
  {
    Reflexive(key);
    forall k | 0 <= k < i ensures AtMost(SortKey(ps[k].name), key) {
      if k < i - 1 { Transitive(SortKey(ps[k].name), SortKey(ps[i - 1].name), key); }
    }
    forall k | i <= k < |ps| ensures AtMost(key, SortKey(ps[k].name)) {
      Total(key, SortKey(ps[k].name));
    }
  }

  lemma InsertedKeys(ps: seq<Profile>, i: nat, p: Profile)
    requires InKeyOrder(ps) && i <= |ps|
    requires forall k :: 0 <= k < i ==> AtMost(SortKey(ps[k].name), SortKey(p.name))
    requires forall k :: i <= k < |ps| ==> AtMost(SortKey(p.name), SortKey(ps[k].name))
    ensures InKeyOrder(ps[..i] + [p] + ps[i..])
  {
    var out := ps[..i] + [p] + ps[i..];
    assert forall k :: 0 <= k < |out| ==> out[k] == if k < i then ps[k] else if k == i then p else ps[k - 1];
  }

  lemma SortedSnoc(a: seq<Profile>, b: seq<Profile>, p: Profile, out: seq<Profile>)
    requires SortsStably(a, b) && SortsStably(b + [p], out)
    ensures SortsStably(a + [p], out)
  {
    assert multiset(a + [p]) == multiset(b + [p]);
    forall key ensures Under(out, key) == Under(a + [p], key) {
      UnderConcat(a, [p], key);
      UnderConcat(b, [p], key);
    }
  }

  // ---------------------------------------------------------------- the report

  datatype AutoReport = AutoReport(profiles: seq<Profile>, passed: bool, counts: map<Diagnosis, nat>)

  predicate AllLoaded(loaded: seq<Option<Profile>>) {
    forall k :: 0 <= k < |loaded| ==> loaded[k].Some?
  }

  function Loaded(loaded: seq<Option<Profile>>): seq<Profile>
    requires AllLoaded(loaded)
  {
    seq(|loaded|, k requires 0 <= k < |loaded| => loaded[k].value)
  }

  /** The profiles in order; passed when every one of them is; the counts are their sums. */
  ghost predicate IsAutoReport(ps: seq<Profile>, r: AutoReport) {
    && SortsStably(ps, r.profiles)
    && (r.passed <==> AllProfilesPass(ps))
    && forall d :: Get(r.counts, d) == ProfileTotal(ps, d)
  }

  /** `loaded` holds what each path gave; no path at all, or one that cannot be loaded, is an error. */
  method BuildAutoReport(loaded: seq<Option<Profile>>) returns (r: Option<AutoReport>)
    ensures r.Some? <==> loaded != [] && AllLoaded(loaded)
    ensures r.Some? ==> IsAutoReport(Loaded(loaded), r.value)
  {
    if loaded == [] {
      return None;
    }
    var report := AutoReport([], true, map[]);
    for k := 0 to |loaded|
      invariant AllLoaded(loaded[..k]) && IsAutoReport(Loaded(loaded[..k]), report)
    {
      if loaded[k].None? {
        assert !AllLoaded(loaded);
        return None;
      }
      var done := Loaded(loaded[..k]);
      assert Loaded(loaded[..k + 1]) == done + [loaded[k].value];
      report := AddProfile(done, report, loaded[k].value);
    }
    assert loaded[..|loaded|] == loaded;
    return Some(report);
  }

  method AddProfile(ghost done: seq<Profile>, before: AutoReport, p: Profile) returns (r: AutoReport)
    requires IsAutoReport(done, before)
    ensures IsAutoReport(done + [p], r)
  {
    var profiles := InsertProfile(before.profiles, p);
    SortedSnoc(done, before.profiles, p, profiles);
    var counts := Merge(before.counts, p.counts);
    r := AutoReport(profiles, before.passed && p.verdict.passed, counts);
    assert (done + [p])[..|done|] == done;
    assert AllProfilesPass(done + [p]) <==> AllProfilesPass(done) && p.verdict.passed by {
      assert forall k :: 0 <= k < |done| ==> (done + [p])[k] == done[k];
      assert (done + [p])[|done|] == p;
    }
  }

  predicate IsFirstBaseline(ps: seq<Profile>, k: int) {
    0 <= k < |ps| && ps[k].name == "baseline" && forall j :: 0 <= j < k ==> ps[j].name != "baseline"
  }

  method ShouldFail(ps: seq<Profile>, passed: bool, strict: Strict) returns (fail: bool)
    ensures strict.StrictNone? ==> !fail
    ensures strict.StrictAll? ==> (fail <==> !passed || !AllProfilesPass(ps))
    ensures strict.StrictBaseline? && (forall k :: 0 <= k < |ps| ==> ps[k].name != "baseline") ==> (fail <==> !passed)
    ensures forall k :: strict.StrictBaseline? && IsFirstBaseline(ps, k) ==> (fail <==> !ps[k].verdict.passed)
  {
    match strict
    case StrictAll =>
      if !passed {
        return true;
      }
      for k := 0 to |ps|
        invariant forall j :: 0 <= j < k ==> ps[j].verdict.passed
      {
        if !ps[k].verdict.passed {
          return true;
        }
      }
      return false;
    case StrictBaseline =>
      for k := 0 to |ps|
        invariant forall j :: 0 <= j < k ==> ps[j].name != "baseline"
      {
        if ps[k].name == "baseline" {
          return !ps[k].verdict.passed;
        }
      }
      return !passed;
    case StrictNone =>
      return false;
  }
}
