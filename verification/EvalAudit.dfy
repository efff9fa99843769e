/** What a profile's verdict says about the runs it was made from, through runner, comparison and report. */
module EvalAudit {
  import opened Wrappers
  import opened Tallies
  import opened Gathering
  import opened EvalRunner
  import opened EvalCompare
  import opened EvalLedger
  import opened EvalProfile

  // ---------------------------------------------------------------- passing

  /** Every task that both runs have passed in both. */
  ghost predicate SharedPassed(p: Pair) {
    forall id :: p.Shared(id) ==> p.control[id].status.Passed? && p.candidate[id].status.Passed?
  }

  lemma SharedRowFails(p: Pair, id: string, run: RunRef)
    requires p.Shared(id)
    ensures TaskFailure(run, p.Row(id)).None? <==> p.control[id].status.Passed? && p.candidate[id].status.Passed?
  {
  }

  lemma UnsharedRowNoted(p: Pair, id: string, run: RunRef)
    requires !p.Shared(id)
    ensures CoverageFailure(run, p.Row(id)).None?
  {
  }

  /** Coverage rows never fail a profile: the failing branch of the coverage loop is never taken. */
  lemma CoverageNeverFails(p: Pair, ids: seq<string>, run: RunRef)
    ensures CoverageFailures(run, Rows(p, ids, false)) == []
  {
    forall row | row in Rows(p, ids, false) ensures CoverageFailure(run, row).None? {
      GatherMembers((id: string) => if p.Shared(id) == false then Some(p.Row(id)) else None, ids, row);
      var id :| id in ids && !p.Shared(id) && p.Row(id) == row;
      UnsharedRowNoted(p, id, run);
    }
    GatherEmpty((row: TaskCompare) => CoverageFailure(run, row), Rows(p, ids, false));
  }

  lemma NoTaskFailsIff(p: Pair, ids: seq<string>, run: RunRef)
    requires forall id :: p.Shared(id) ==> id in ids
    ensures TaskFailures(run, Rows(p, ids, true)) == [] <==> SharedPassed(p)
  {
    var f := (id: string) => if p.Shared(id) == true then Some(p.Row(id)) else None;
    var g := (row: TaskCompare) => TaskFailure(run, row);
    var rows := Rows(p, ids, true);
    forall id | p.Shared(id)
      ensures p.Row(id) in rows
      ensures g(p.Row(id)).None? <==> p.control[id].status.Passed? && p.candidate[id].status.Passed?
    {
      SharedRowFails(p, id, run);
      assert f(id) == Some(p.Row(id));
      GatherMembers(f, ids, p.Row(id));
    }
    GatherEmpty(g, rows);
    forall row | row in rows ensures exists id :: p.Shared(id) && p.Row(id) == row {
      GatherMembers(f, ids, row);
    }
  }

  lemma NoFailureIff(control: Summary, candidate: Summary, c: Comparison)
    requires Compares(control, candidate, c)
    ensures Failures(c) == [] <==> SharedPassed(PairOf(control, candidate))
  {
    var p, ids := PairOf(control, candidate), CompareIds(control.tasks, candidate.tasks);
    CompareIdsCover(control.tasks, candidate.tasks);
    NoTaskFailsIff(p, ids, c.run);
    CoverageNeverFails(p, ids, c.run);
  }

  lemma {:induction false} NoFailuresAnywhere(cs: seq<Comparison>)
    ensures AllFailures(cs) == [] <==> forall k :: 0 <= k < |cs| ==> Failures(cs[k]) == []
    decreases cs
  {
    if cs != [] {
      var n := |cs| - 1;
      NoFailuresAnywhere(cs[..n]);
      assert cs == cs[..n] + [cs[n]];
      if AllFailures(cs) == [] {
        forall k | 0 <= k < |cs| ensures Failures(cs[k]) == [] {
          assert k < n ==> Failures(cs[..n][k]) == [];
        }
      }
    }
  }

  /** The stored counts say that every task passed, and those that both runs have did so in both. */
  ghost predicate CandidatePasses(control: Summary, candidate: Summary) {
    Complete(candidate) && SharedPassed(PairOf(control, candidate))
  }

  /** For any stored summaries, exactly when a profile passes. */
  lemma StoredPassesIff(control: Summary, candidates: seq<Summary>, r: Report, profile: Profile)
    requires Reports(control, candidates, r) && IsProfile(profile, r)
    ensures profile.verdict.passed <==>
              Complete(control) && forall k :: 0 <= k < |candidates| ==> CandidatePasses(control, candidates[k])
  {
    NoFailuresAnywhere(r.candidates);
    forall k | 0 <= k < |candidates|
      ensures Finished(r.candidates[k].run) <==> Complete(candidates[k])
      ensures Failures(r.candidates[k]) == [] <==> SharedPassed(PairOf(control, candidates[k]))
    {
      assert Compares(control, candidates[k], r.candidates[k]);
      NoFailureIff(control, candidates[k], r.candidates[k]);
    }
  }

  ghost predicate AllCounted(candidates: seq<Summary>) {
    forall k :: 0 <= k < |candidates| ==> IsCounted(candidates[k])
  }

  /** Where the counts are those of the results: exactly when every task of every run passed. */
  lemma ProfilePassesIff(control: Summary, candidates: seq<Summary>, r: Report, profile: Profile)
    requires Reports(control, candidates, r) && IsProfile(profile, r)
    requires IsCounted(control) && AllCounted(candidates)
    ensures profile.verdict.passed <==>
              AllPassed(control.tasks) && forall k :: 0 <= k < |candidates| ==> AllPassed(candidates[k].tasks)
  {
    StoredPassesIff(control, candidates, r, profile);
    CompleteIffAllPassed(control);
    forall k | 0 <= k < |candidates| && AllPassed(control.tasks)
      ensures CandidatePasses(control, candidates[k]) <==> AllPassed(candidates[k].tasks)
    {
      CompleteIffAllPassed(candidates[k]);
      if AllPassed(candidates[k].tasks) { PassedPairs(control, candidates[k]); }
    }
  }

  lemma PassedPairs(control: Summary, candidate: Summary)
    requires AllPassed(control.tasks) && AllPassed(candidate.tasks)
    ensures SharedPassed(PairOf(control, candidate))
  {
  }

  /** Counts that are not those of the results: without a common task the profile passes, whatever the results. */
  lemma MiscountedPasses(control: Summary, candidate: Summary, r: Report, profile: Profile)
    requires Reports(control, [candidate], r) && IsProfile(profile, r)
    requires Complete(control) && Complete(candidate) && IdsOf(control.tasks) !! IdsOf(candidate.tasks)
    ensures profile.verdict.passed
  {
    StoredPassesIff(control, [candidate], r, profile);
    var p := PairOf(control, candidate);
    assert forall id :: !p.Shared(id);
  }

  // ---------------------------------------------------------------- retries

  /** Tasks only the candidate has, that passed late though no failure came before the first pass. */
  ghost function Unnoticed(p: Pair, ids: seq<string>): set<string> {
    set id | id in ids && IsUnnoticed(p, id)
  }

  predicate IsUnnoticed(p: Pair, id: string) {
    id !in p.control && id in p.candidate && PassedLate(p.candidate[id]) && !IsRetryDependent(p.candidate[id])
  }

  ghost function Listed(p: Pair, run: RunRef, id: string): bool {
    || (p.Shared(id) && TaskRetry(run, p.Row(id)).Some?)
    || (!p.Shared(id) && CoverageRetry(run, p.Row(id)).Some?)
  }

  lemma ListedIff(p: Pair, run: RunRef, id: string)
    requires id in p.control || id in p.candidate
    ensures Listed(p, run, id) <==> p.Counted(id) == Some(DiagnosisRetry) || IsUnnoticed(p, id)
    ensures !(p.Counted(id) == Some(DiagnosisRetry) && IsUnnoticed(p, id))
  {
    if id in p.candidate && IsRetryDependent(p.candidate[id]) {
      assert PassedLate(p.candidate[id]);
    }
  }

  ghost function ListedIds(p: Pair, run: RunRef, ids: seq<string>, shared: bool): set<string> {
    set id | id in ids && p.Shared(id) == shared && Listed(p, run, id)
  }

  lemma SameIds<T>(f: string -> Option<T>, ids: seq<string>, listed: set<string>)
    requires forall id :: id in listed <==> id in ids && f(id).Some?
    ensures Givers(f, ids) == listed
  {
  }

  lemma TaskRetriesSize(p: Pair, run: RunRef, ids: seq<string>)
    requires Distinct(ids)
    ensures |TaskRetries(run, Rows(p, ids, true))| == |ListedIds(p, run, ids, true)|
  {
    var f := (id: string) => if p.Shared(id) == true then Some(p.Row(id)) else None;
    var g := (row: TaskCompare) => TaskRetry(run, row);
    GatherThen(f, g, ids);
    GatherSize(Then(f, g), ids);
    forall id ensures Then(f, g)(id).Some? <==> p.Shared(id) && Listed(p, run, id) {}
    SameIds(Then(f, g), ids, ListedIds(p, run, ids, true));
  }

  lemma CoverageRetriesSize(p: Pair, run: RunRef, ids: seq<string>)
    requires Distinct(ids)
    ensures |CoverageRetries(run, Rows(p, ids, false))| == |ListedIds(p, run, ids, false)|
  {
    var f := (id: string) => if p.Shared(id) == false then Some(p.Row(id)) else None;
    var g := (row: TaskCompare) => CoverageRetry(run, row);
    GatherThen(f, g, ids);
    GatherSize(Then(f, g), ids);
    forall id ensures Then(f, g)(id).Some? <==> !p.Shared(id) && Listed(p, run, id) {}
    SameIds(Then(f, g), ids, ListedIds(p, run, ids, false));
  }

  lemma ListedIdsSplit(p: Pair, run: RunRef, ids: seq<string>)
    requires forall id :: id in ids ==> id in p.control || id in p.candidate
    ensures |ListedIds(p, run, ids, true)| + |ListedIds(p, run, ids, false)|
         == |Diagnosed(p, ids, DiagnosisRetry)| + |Unnoticed(p, ids)|
  {
    var a, b := ListedIds(p, run, ids, true), ListedIds(p, run, ids, false);
    var c, d := Diagnosed(p, ids, DiagnosisRetry), Unnoticed(p, ids);
    forall id ensures (id in a || id in b <==> id in c || id in d) && !(id in a && id in b) && !(id in c && id in d) {
      MemberSplit(p, run, ids, id);
    }
    SizesAgree(a, b, c, d);
  }

  lemma MemberSplit(p: Pair, run: RunRef, ids: seq<string>, id: string)
    requires forall i :: i in ids ==> i in p.control || i in p.candidate
    ensures id in ListedIds(p, run, ids, true) || id in ListedIds(p, run, ids, false)
            <==> id in Diagnosed(p, ids, DiagnosisRetry) || id in Unnoticed(p, ids)
    ensures !(id in ListedIds(p, run, ids, true) && id in ListedIds(p, run, ids, false))
    ensures !(id in Diagnosed(p, ids, DiagnosisRetry) && id in Unnoticed(p, ids))
  {
    if id in ids {
      ListedIff(p, run, id);
    }
  }

  lemma SizesAgree(a: set<string>, b: set<string>, c: set<string>, d: set<string>)
    requires forall id :: (id in a || id in b <==> id in c || id in d) && !(id in a && id in b) && !(id in c && id in d)
    ensures |a| + |b| == |c| + |d|
  {
    assert a + b == c + d && a !! b && c !! d;
  }

  function UnnoticedIn(control: Summary, candidate: Summary): nat {
    |set id | id in IdsOf(candidate.tasks) && IsUnnoticed(PairOf(control, candidate), id)|
  }

  /** The retries a candidate lists are those it counts, and the unnoticed ones. */
  lemma RetriesListed(control: Summary, candidate: Summary, c: Comparison)
    requires Compares(control, candidate, c)
    ensures |Retries(c)| == Get(c.counts, DiagnosisRetry) + UnnoticedIn(control, candidate)
  {
    var p, ids := PairOf(control, candidate), CompareIds(control.tasks, candidate.tasks);
    CompareIdsCover(control.tasks, candidate.tasks);
    PairNamed(control, candidate);
    TaskRetriesSize(p, c.run, ids);
    CoverageRetriesSize(p, c.run, ids);
    ListedIdsSplit(p, c.run, ids);
    CountsAreIds(p, ids, DiagnosisRetry);
    assert Get(c.counts, DiagnosisRetry) == multiset(Diagnoses(p, ids))[DiagnosisRetry];
    assert Unnoticed(p, ids) == set id | id in IdsOf(candidate.tasks) && IsUnnoticed(p, id);
  }

  function UnnoticedTotal(control: Summary, candidates: seq<Summary>): nat {
    if candidates == [] then 0
    else
      var n := |candidates| - 1;
      UnnoticedTotal(control, candidates[..n]) + UnnoticedIn(control, candidates[n])
  }

  lemma {:induction false} RetriesListedAll(control: Summary, candidates: seq<Summary>, cs: seq<Comparison>)
    requires |cs| == |candidates| && forall k :: 0 <= k < |cs| ==> Compares(control, candidates[k], cs[k])
    ensures |AllRetries(cs)| ==
            multiset(AllDiagnoses(control, candidates))[DiagnosisRetry] + UnnoticedTotal(control, candidates)
    decreases cs
  {
    if cs != [] {
      var n := |cs| - 1;
      RetriesListedAll(control, candidates[..n], cs[..n]);
      RetriesListed(control, candidates[n], cs[n]);
      assert Get(cs[n].counts, DiagnosisRetry) == multiset(DiagnosesOf(control, candidates[n]))[DiagnosisRetry];
    }
  }

  /**
    On any report, however its summaries were made: the retry list is as long as the retry count
    exactly when no task was retried unnoticed, and the clean mark is a pass with an empty retry list.
   */
  lemma RetryListIff(control: Summary, candidates: seq<Summary>, r: Report, profile: Profile)
    requires Reports(control, candidates, r) && IsProfile(profile, r)
    ensures |profile.verdict.retryTasks| == profile.retryDependent <==> UnnoticedTotal(control, candidates) == 0
    ensures profile.verdict.strictClean <==> profile.verdict.passed && profile.verdict.retryTasks == []
  {
    RetriesListedAll(control, candidates, r.candidates);
    assert Get(r.counts, DiagnosisRetry) == multiset(AllDiagnoses(control, candidates))[DiagnosisRetry];
  }

  ghost predicate RunnerMade(candidates: seq<Summary>) {
    forall k :: 0 <= k < |candidates| ==> AllRunnerMade(candidates[k].tasks)
  }

  lemma {:induction false} RunnersNotice(control: Summary, candidates: seq<Summary>)
    requires RunnerMade(candidates)
    ensures UnnoticedTotal(control, candidates) == 0
    decreases candidates
  {
    if candidates != [] {
      var n := |candidates| - 1;
      RunnersNotice(control, candidates[..n]);
      var p := PairOf(control, candidates[n]);
      forall id | id in IdsOf(candidates[n].tasks) ensures !IsUnnoticed(p, id) {
        assert ById(candidates[n].tasks)[id] in candidates[n].tasks;
        RetriesCoincide(p.candidate[id]);
      }
      assert (set id | id in IdsOf(candidates[n].tasks) && IsUnnoticed(p, id)) == {};
    }
  }

  /** For runs the runner made, the retry list has the counted length and strictly clean is passed without retries. */
  lemma RunnerProfile(control: Summary, candidates: seq<Summary>, r: Report, profile: Profile)
    requires Reports(control, candidates, r) && IsProfile(profile, r) && RunnerMade(candidates)
    ensures |profile.verdict.retryTasks| == profile.retryDependent
    ensures profile.verdict.strictClean <==> profile.verdict.passed && profile.retryDependent == 0
  {
    RetryListIff(control, candidates, r, profile);
    RunnersNotice(control, candidates);
  }

  /** A stored summary with a pass before a failure, in a task the control lacks, is listed but not counted. */
  lemma UnnoticedExample()
    ensures var late := TaskResult("t", Passed, NoBucket,
                                   [Attempt(Passed, NoBucket), Attempt(FailedChecker, CheckerDiff)]);
            UnnoticedTotal(Summary("c", [], map[], map[]), [Summary("r", [late], map[Passed := 1], map[])]) == 1
  {
    var late := TaskResult("t", Passed, NoBucket, [Attempt(Passed, NoBucket), Attempt(FailedChecker, CheckerDiff)]);
    var control, candidate := Summary("c", [], map[], map[]), Summary("r", [late], map[Passed := 1], map[]);
    var p := PairOf(control, candidate);
    assert ById([late]) == map["t" := late] by {
      assert [late][..0] == [];
    }
    assert IsUnnoticed(p, "t");
    assert IdsOf([late]) == {"t"} by {
      assert late in [late];
    }
    assert (set id | id in IdsOf(candidate.tasks) && IsUnnoticed(p, id)) == {"t"};
    assert [candidate][..0] == [];
  }
}
