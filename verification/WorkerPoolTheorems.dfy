/** What the worker pool's invariant gives over whole runs: one report per job, one stop token per
    thread, no deadlock exactly when there is a worker for the jobs, and the meaning of the verdict. */
module WorkerPoolTheorems {
  import opened WorkerPool

  predicate IsRun(s: Pool, es: seq<Event>)
    decreases |es|
  {
    es == [] || (Enabled(s, es[0]) && IsRun(Next(s, es[0]), es[1..]))
  }

  function After(s: Pool, es: seq<Event>): Pool
    requires IsRun(s, es)
    decreases |es|
  {
    if es == [] then s else After(Next(s, es[0]), es[1..])
  }

  lemma {:induction false} RunKeepsInv(s: Pool, es: seq<Event>)
    requires Inv(s) && IsRun(s, es)
    ensures Inv(After(s, es))
    ensures After(s, es).skip == s.skip && |After(s, es).threads| == |s.threads|
    decreases |es|
  {
    if es != [] {
      StepKeeps(s, es[0]);
      RunKeepsInv(Next(s, es[0]), es[1..]);
    }
  }

  // ---- termination

  ghost function Weight(s: Pool): int {
    6 * (|s.skip| - s.dispatched) + 3 * (|s.threads| - s.stopsSent) + QueueWeight(s.input)
    + ThreadWeight(s.threads) + 2 * |s.output| + (|s.threads| - s.joined) + if s.interrupted then 0 else 1
  }

  lemma ThreadStepShrinks(s: Pool, e: Event)
    requires Enabled(s, e) && (e.Decide? || e.Finish?)
    ensures Weight(Next(s, e)) < Weight(s)
  {
    WeightUpdate(s.threads, e.w, Next(s, e).threads[e.w]);
  }

  lemma QueueStepShrinks(s: Pool, e: Event)
    requires Enabled(s, e) && (e.Dispatch? || e.SendStop? || e.Get?)
    ensures Weight(Next(s, e)) < Weight(s)
  {
    if e.Get? {
      WeightUpdate(s.threads, e.w, Taken(s.input[0]));
    } else {
      QueueAppend(s.input, if e.Dispatch? then Work(s.dispatched) else Stop);
    }
  }

  lemma WeightNat(s: Pool)
    requires Counters(s)
    ensures Weight(s) >= 0
  {
  }

  /** Every event makes the weight smaller, so no schedule goes on forever. */
  lemma StepShrinks(s: Pool, e: Event)
    requires Inv(s) && Enabled(s, e)
    ensures 0 <= Weight(Next(s, e)) < Weight(s)
  {
    StepKeeps(s, e);
    WeightNat(Next(s, e));
    if e.Decide? || e.Finish? {
      ThreadStepShrinks(s, e);
    } else if e.Dispatch? || e.SendStop? || e.Get? {
      QueueStepShrinks(s, e);
    }
  }

  lemma {:induction false} RunIsShort(s: Pool, es: seq<Event>)
    requires Inv(s) && IsRun(s, es)
    ensures |es| + Weight(After(s, es)) <= Weight(s) && Weight(After(s, es)) >= 0
    decreases |es|
  {
    if es != [] {
      StepShrinks(s, es[0]);
      StepKeeps(s, es[0]);
      RunIsShort(Next(s, es[0]), es[1..]);
    }
  }

  // ---- no deadlock

  lemma {:induction false} NoneBusy(ts: seq<Thread>)
    requires forall w :: 0 <= w < |ts| ==> ts[w].Waiting? || ts[w].Exited?
    ensures BusyCount(ts) == 0
  {
    if ts != [] {
      NoneBusy(ts[1..]);
    }
  }

  lemma {:induction false} AllExited(ts: seq<Thread>)
    ensures ExitedCount(ts) <= |ts|
    ensures ExitedCount(ts) == |ts| <==> forall w :: 0 <= w < |ts| ==> ts[w].Exited?
  {
    if ts != [] {
      AllExited(ts[1..]);
      assert (forall w :: 0 <= w < |ts| ==> ts[w].Exited?)
        <==> ts[0].Exited? && (forall w :: 0 <= w < |ts[1..]| ==> ts[1..][w].Exited?) by {
        if ts[0].Exited? && (forall w :: 0 <= w < |ts[1..]| ==> ts[1..][w].Exited?) {
          forall w | 0 <= w < |ts| ensures ts[w].Exited? {
            assert w > 0 ==> ts[w] == ts[1..][w - 1];
          }
        }
        if forall w :: 0 <= w < |ts| ==> ts[w].Exited? {
          assert ts[0].Exited?;
        }
      }
    }
  }

  // The thread that can go on once everything has been queued, if there is one.
  ghost predicate CanMove(s: Pool, w: nat) {
    w < |s.threads| && !s.threads[w].Exited? && (s.threads[w].Waiting? ==> s.input != [])
  }

  function MoveOf(s: Pool, w: nat): Event
    requires w < |s.threads|
  {
    match s.threads[w]
    case Holding(_) => Decide(w)
    case Running(_) => Finish(w, 0)
    case _ => Get(w)
  }

  lemma MoveEnabled(s: Pool, w: nat)
    requires Inv(s) && CanMove(s, w)
    ensures Enabled(s, MoveOf(s, w)) && !MoveOf(s, w).Interrupt?
  {
    assert ThreadOk(s.skip, s.threads[w]);
  }

  // With all tokens queued and no thread able to move, every thread has exited and nothing is queued.
  lemma Quiet(s: Pool)
    requires Inv(s) && s.stopsSent == |s.threads| && s.dispatched == |s.skip|
    requires forall w: nat :: !CanMove(s, w)
    requires |s.threads| > 0 || |s.skip| == 0
    ensures s.input == [] && (forall w :: 0 <= w < |s.threads| ==> s.threads[w].Exited?)
    ensures |s.output| + |s.collected| == |s.skip|
  {
    forall w | 0 <= w < |s.threads| ensures s.threads[w].Waiting? || s.threads[w].Exited? {
      assert !CanMove(s, w);
    }
    NoneBusy(s.threads);
    AllExited(s.threads);
    AllStops(s.input);
    if s.input != [] {
      forall w | 0 <= w < |s.threads| ensures s.threads[w].Exited? {
        assert !CanMove(s, w);
      }
    }
  }

  /** A pool that has at least one worker, or nothing to do, can always take a step other than the
      interrupt until everything is collected and joined: collection and join never block forever. */
  lemma NeverStuck(s: Pool) returns (e: Event)
    requires Inv(s) && !Done(s)
    requires |s.threads| > 0 || |s.skip| == 0
    ensures Enabled(s, e) && !e.Interrupt?
  {
    if s.dispatched < |s.skip| {
      e := Dispatch;
    } else if s.stopsSent < |s.threads| {
      e := SendStop;
    } else if w: nat :| CanMove(s, w) {
      MoveEnabled(s, w);
      e := MoveOf(s, w);
    } else {
      Quiet(s);
      e := if |s.collected| < |s.skip| then Collect else Join;
    }
  }

  /** From every reachable state some continuation ends with everything collected and joined; with
      StepShrinks, every schedule that keeps going gets there. */
  lemma {:induction false} CanFinish(s: Pool) returns (es: seq<Event>)
    requires Inv(s)
    requires |s.threads| > 0 || |s.skip| == 0
    ensures IsRun(s, es) && Done(After(s, es)) && |es| <= Weight(s)
    decreases Weight(s)
  {
    if Done(s) {
      es := [];
      RunIsShort(s, es);
      WeightNat(s);
    } else {
      var e := NeverStuck(s);
      StepShrinks(s, e);
      StepKeeps(s, e);
      var rest := CanFinish(Next(s, e));
      es := [e] + rest;
      assert es[1..] == rest;
      RunIsShort(s, es);
      assert Inv(After(s, es)) by { RunKeepsInv(s, es); }
      WeightNat(After(s, es));
    }
  }

  // Without workers nothing ever leaves the queue.
  lemma {:induction false} NoWorkersNothingCollected(s: Pool, es: seq<Event>)
    requires s.threads == [] && s.output == [] && s.collected == [] && IsRun(s, es)
    ensures After(s, es).collected == [] && After(s, es).skip == s.skip
    decreases |es|
  {
    if es != [] {
      NoWorkersNothingCollected(Next(s, es[0]), es[1..]);
    }
  }

  predicate Ends(s: Pool, es: seq<Event>) {
    IsRun(s, es) && Done(After(s, es))
  }

  /** A run can end exactly when there is a worker or there are no jobs; a negative process limit
      leaves the main thread waiting for the first report forever. */
  lemma FinishesIffWorkers(skip: seq<bool>, p: nat)
    ensures (exists es :: Ends(Start(skip, p), es)) <==> (p > 0 || skip == [])
  {
    var s := Start(skip, p);
    StartInv(skip, p);
    if p > 0 || skip == [] {
      var es := CanFinish(s);
      assert Ends(s, es);
    } else {
      forall es | IsRun(s, es) ensures !Ends(s, es) {
        NoWorkersNothingCollected(s, es);
      }
    }
  }

  // ---- what a finished run has delivered

  lemma {:induction false} ReportExists(rs: seq<Report>, j: nat)
    requires InReports(rs, j) > 0
    ensures exists i :: 0 <= i < |rs| && rs[i].job == j
  {
    if rs[0].job == j {
    } else {
      ReportExists(rs[1..], j);
      var i :| 0 <= i < |rs[1..]| && rs[1..][i].job == j;
      assert rs[i + 1].job == j;
    }
  }

  lemma {:induction false} ReportCounted(rs: seq<Report>, i: nat)
    requires i < |rs|
    ensures InReports(rs, rs[i].job) > 0
  {
    if i > 0 {
      ReportCounted(rs[1..], i - 1);
    }
  }

  lemma {:induction false} ReportUnique(rs: seq<Report>, i: nat, k: nat)
    requires i < k < |rs| && rs[i].job == rs[k].job
    ensures InReports(rs, rs[i].job) > 1
  {
    if i == 0 {
      ReportCounted(rs[1..], k - 1);
    } else {
      ReportUnique(rs[1..], i - 1, k - 1);
    }
  }

  // Every job has exactly one report, made the way the job's skip flag and the interrupt allow.
  ghost predicate Delivered(s: Pool) {
    && |s.collected| == |s.skip|
    && (forall j: nat :: InReports(s.collected, j) == if j < |s.skip| then 1 else 0)
    && ReportsOk(s.skip, s.interrupted, s.collected)
    && s.input == [] && s.output == []
    && forall w :: 0 <= w < |s.threads| ==> s.threads[w].Exited?
  }

  lemma DoneDelivers(s: Pool)
    requires Inv(s) && Done(s)
    ensures Delivered(s)
  {
    AllExited(s.threads);
    AllStops(s.input);
    assert s.input == [] by {
      assert Stops(s.input) == 0;
      if |s.threads| > 0 {
        assert ExitedCount(s.threads) > 0;
      }
    }
    forall j: nat ensures InReports(s.collected, j) == if j < |s.skip| then 1 else 0 {
      assert Places(s, j) == if j < s.dispatched then 1 else 0;
      NoneHeld(s.threads, j);
      assert s.output == [];
    }
  }

  lemma {:induction false} NoneHeld(ts: seq<Thread>, j: nat)
    requires forall w :: 0 <= w < |ts| ==> ts[w].Exited?
    ensures HeldIn(ts, j) == 0
  {
    if ts != [] {
      NoneHeld(ts[1..], j);
    }
  }

  /** For every number of workers and jobs, every schedule and every moment of interrupt: a run that
      has ended delivered exactly one report per job, left both queues empty and ended every thread
      with one stop token each. */
  lemma EveryRunDelivers(skip: seq<bool>, p: nat, es: seq<Event>)
    requires Ends(Start(skip, p), es)
    ensures Delivered(After(Start(skip, p), es))
    ensures After(Start(skip, p), es).stopsSent == p
  {
    StartInv(skip, p);
    RunKeepsInv(Start(skip, p), es);
    DoneDelivers(After(Start(skip, p), es));
  }

  // ---- the verdict

  predicate Good(r: Report) {
    r.result.Skipped? || r.result == Exit(0)
  }

  predicate AllGood(rs: seq<Report>) {
    forall i :: 0 <= i < |rs| ==> Good(rs[i])
  }

  datatype Status = Interrupted | Skip | Pass | Fail | Valgrind | Crash

  function StatusOf(r: Result): Status {
    match r
    case Broken => Interrupted
    case Skipped => Skip
    case Exit(c) => if c == 0 then Pass else if c == 1 then Fail else if c == 2 then Valgrind else Crash
  }

  /** How many of the first n reports have the status k. */
  function CountOf(rs: seq<Report>, n: nat, k: Status): (c: nat)
    requires n <= |rs|
    ensures c <= n
  {
    if n == 0 then 0 else CountOf(rs, n - 1, k) + if StatusOf(rs[n - 1].result) == k then 1 else 0
  }

  lemma {:induction false} AllCounted(rs: seq<Report>, n: nat)
    requires n <= |rs|
    ensures CountOf(rs, n, Pass) + CountOf(rs, n, Skip) <= n
    ensures CountOf(rs, n, Pass) + CountOf(rs, n, Skip) == n <==> forall i :: 0 <= i < n ==> Good(rs[i])
  {
    if n > 0 {
      AllCounted(rs, n - 1);
      assert Good(rs[n - 1]) <==> StatusOf(rs[n - 1].result) in {Pass, Skip};
    }
  }

  /** A collected job: its report, whether it is a test suite, and whether the XML file a suite left
      says PASS or SKIP. */
  datatype Outcome = Outcome(report: Report, suite: bool, xmlGood: bool)

  function Reports(os: seq<Outcome>): seq<Report> {
    seq(|os|, i requires 0 <= i < |os| => os[i].report)
  }

  /** How often the loop leaves a job among the failed ones: once for a bad exit code, and for a suite
      once more unless it ended with 0, 1 or 2 and its XML is good. */
  function Copies(o: Outcome): nat {
    if !o.report.result.Exit? then 0
    else
      var code := o.report.result.code;
      (if code != 0 then 1 else 0)
      + (if o.suite && !(0 <= code <= 2 && o.xmlGood) then 1 else 0)
  }

  /** By kind of job and exit code. */
  lemma CopiesTable(j: nat, code: int, xmlGood: bool)
    ensures Copies(Outcome(Report(j, Exit(code)), false, xmlGood)) == if code == 0 then 0 else 1
    ensures Copies(Outcome(Report(j, Exit(code)), true, true)) == if code == 0 then 0 else if code == 1 || code == 2 then 1 else 2
    ensures Copies(Outcome(Report(j, Exit(code)), true, false)) == if code == 0 then 1 else 2
    ensures forall suite: bool :: Copies(Outcome(Report(j, Skipped), suite, xmlGood)) == Copies(Outcome(Report(j, Broken), suite, xmlGood)) == 0
  {
  }

  function Repeated(r: Report, n: nat): seq<Report> { seq(n, i => r) }

  /** The failed jobs after the first n outcomes, in the order collected. */
  function Kept(os: seq<Outcome>, n: nat): seq<Report>
    requires n <= |os|
  {
    if n == 0 then [] else Kept(os, n - 1) + Repeated(os[n - 1].report, Copies(os[n - 1]))
  }

  lemma {:induction false} RepeatedCount(r: Report, n: nat, j: nat)
    ensures InReports(Repeated(r, n), j) == if r.job == j then n else 0
  {
    if n > 0 {
      assert Repeated(r, n) == [r] + Repeated(r, n - 1);
      assert ([r] + Repeated(r, n - 1))[1..] == Repeated(r, n - 1);
      RepeatedCount(r, n - 1, j);
    }
  }

  lemma {:induction false} CountConcat(a: seq<Report>, b: seq<Report>, j: nat)
    ensures InReports(a + b, j) == InReports(a, j) + InReports(b, j)
  {
    if a == [] {
      assert a + b == b;
    } else {
      assert (a + b)[1..] == a[1..] + b;
      CountConcat(a[1..], b, j);
    }
  }

  lemma {:induction false} KeptNone(os: seq<Outcome>, n: nat, j: nat)
    requires n <= |os| && forall i :: 0 <= i < n ==> os[i].report.job != j
    ensures InReports(Kept(os, n), j) == 0
  {
    if n > 0 {
      KeptNone(os, n - 1, j);
      RepeatedCount(os[n - 1].report, Copies(os[n - 1]), j);
      CountConcat(Kept(os, n - 1), Repeated(os[n - 1].report, Copies(os[n - 1])), j);
    }
  }

  /** With one report per job, a job is among the failed ones exactly as often as its own outcome
      says: a failing suite without good XML twice, one that exited 0 without good XML once. */
  lemma {:induction false} FailedExactly(os: seq<Outcome>, n: nat, i: nat)
    requires i < n <= |os|
    requires forall a, b :: 0 <= a < b < |os| ==> os[a].report.job != os[b].report.job
    ensures InReports(Kept(os, n), os[i].report.job) == Copies(os[i])
  {
    var j := os[i].report.job;
    RepeatedCount(os[n - 1].report, Copies(os[n - 1]), j);
    CountConcat(Kept(os, n - 1), Repeated(os[n - 1].report, Copies(os[n - 1])), j);
    if i == n - 1 {
      KeptNone(os, n - 1, j);
    } else {
      FailedExactly(os, n - 1, i);
    }
  }

  function Results(rs: seq<Report>): seq<Result> {
    seq(|rs|, i requires 0 <= i < |rs| => rs[i].result)
  }

  lemma {:induction false} CountIs(rs: seq<Report>, n: nat, k: Status, r: Result)
    requires n <= |rs| && forall x: Result :: StatusOf(x) == k <==> x == r
    ensures CountOf(rs, n, k) == multiset(Results(rs)[..n])[r]
  {
    if n > 0 {
      CountIs(rs, n - 1, k, r);
      assert Results(rs)[..n] == Results(rs)[..n - 1] + [Results(rs)[n - 1]];
    }
  }

  lemma {:induction false} CountsAddUp(rs: seq<Report>, n: nat)
    requires n <= |rs|
    ensures CountOf(rs, n, Pass) + CountOf(rs, n, Fail) + CountOf(rs, n, Valgrind) + CountOf(rs, n, Crash)
          + CountOf(rs, n, Skip) + CountOf(rs, n, Interrupted) == n
  {
    if n > 0 {
      CountsAddUp(rs, n - 1);
    }
  }

  /** The counts by what was reported: exit code 0 passes, 1 fails, 2 is a valgrind error, and a crash
      is any other exit code. */
  lemma CountsMean(rs: seq<Report>)
    ensures var m := multiset(Results(rs)); var n := |rs|;
      && CountOf(rs, n, Pass) == m[Exit(0)]
      && CountOf(rs, n, Fail) == m[Exit(1)]
      && CountOf(rs, n, Valgrind) == m[Exit(2)]
      && CountOf(rs, n, Skip) == m[Skipped]
      && CountOf(rs, n, Crash) == n - m[Exit(0)] - m[Exit(1)] - m[Exit(2)] - m[Skipped] - m[Broken]
  {
    var n := |rs|;
    assert Results(rs)[..n] == Results(rs);
    CountIs(rs, n, Pass, Exit(0));
    CountIs(rs, n, Fail, Exit(1));
    CountIs(rs, n, Valgrind, Exit(2));
    CountIs(rs, n, Skip, Skipped);
    CountIs(rs, n, Interrupted, Broken);
    CountsAddUp(rs, n);
  }

  /** The collection loop over the jobs in the order they came off the output queue. */
  method Summarise(outcomes: seq<Outcome>)
    returns (passed: nat, failed: nat, valgrind: nat, crashed: nat, skipped: nat, failedJobs: seq<Report>, verdict: int)
    ensures var rs := Reports(outcomes);
      && passed == CountOf(rs, |rs|, Pass)
      && failed == CountOf(rs, |rs|, Fail)
      && valgrind == CountOf(rs, |rs|, Valgrind)
      && crashed == CountOf(rs, |rs|, Crash)
      && skipped == CountOf(rs, |rs|, Skip)
      && verdict == (if AllGood(rs) then 0 else 1)
    ensures failedJobs == Kept(outcomes, |outcomes|)
  {
    passed, failed, valgrind, crashed, skipped, failedJobs := 0, 0, 0, 0, 0, [];
    var total := |outcomes|;
    ghost var rs := Reports(outcomes);
    var i := 0;
    while i < total
      invariant 0 <= i <= total
      invariant passed == CountOf(rs, i, Pass) && failed == CountOf(rs, i, Fail)
      invariant valgrind == CountOf(rs, i, Valgrind) && crashed == CountOf(rs, i, Crash)
      invariant skipped == CountOf(rs, i, Skip)
      invariant failedJobs == Kept(outcomes, i)
    {
      var job := outcomes[i].report;
      if job.result.Skipped? {
        skipped := skipped + 1;
      } else if job.result.Exit? {
        if job.result.code == 0 {
          passed := passed + 1;
        } else if job.result.code == 1 {
          failed := failed + 1;
        } else if job.result.code == 2 {
          valgrind := valgrind + 1;
        } else {
          crashed := crashed + 1;
        }
      }
      failedJobs := KeepFailed(failedJobs, outcomes[i]);
      i := i + 1;
    }
    AllCounted(rs, total);
    verdict := if passed + skipped == total then 0 else 1;
  }

  // The two appends, each of which may be taken back.
  method KeepFailed(before: seq<Report>, o: Outcome) returns (failedJobs: seq<Report>)
    ensures failedJobs == before + Repeated(o.report, Copies(o))
  {
    failedJobs := before;
    if !o.report.result.Exit? {
      return;
    }
    var code := o.report.result.code;
    failedJobs := failedJobs + [o.report];
    if code == 0 {
      failedJobs := failedJobs[..|failedJobs| - 1];
    }
    if o.suite {
      failedJobs := failedJobs + [o.report];
      if (code == 0 || code == 1 || code == 2) && o.xmlGood {
        failedJobs := failedJobs[..|failedJobs| - 1];
      }
    }
  }

  /** A job came out well: its one report says skipped, or an exit code of zero. */
  ghost predicate CameOutWell(rs: seq<Report>, j: nat) {
    exists i :: 0 <= i < |rs| && rs[i].job == j && Good(rs[i])
  }

  /** The run's reports are all good exactly when every job came out well; without an interrupt that
      means every job not marked as skipped exited with zero. */
  lemma VerdictOfRun(skip: seq<bool>, p: nat, es: seq<Event>)
    requires Ends(Start(skip, p), es)
    ensures var s := After(Start(skip, p), es);
      && (AllGood(s.collected) <==> forall j: nat :: j < |skip| ==> CameOutWell(s.collected, j))
      && (!s.interrupted ==>
           forall i :: 0 <= i < |s.collected| ==>
             s.collected[i].job < |skip| && (s.collected[i].result.Skipped? <==> skip[s.collected[i].job]))
  {
    var s := After(Start(skip, p), es);
    EveryRunDelivers(skip, p, es);
    StartInv(skip, p);
    RunKeepsInv(Start(skip, p), es);
    if AllGood(s.collected) {
      forall j: nat | j < |skip| ensures CameOutWell(s.collected, j) {
        ReportExists(s.collected, j);
      }
    }
    if forall j: nat :: j < |skip| ==> CameOutWell(s.collected, j) {
      forall i | 0 <= i < |s.collected| ensures Good(s.collected[i]) {
        WellIsOnly(s, i);
      }
    }
  }

  lemma WellIsOnly(s: Pool, i: nat)
    requires Delivered(s) && i < |s.collected| && CameOutWell(s.collected, s.collected[i].job)
    ensures Good(s.collected[i])
  {
    var k :| 0 <= k < |s.collected| && s.collected[k].job == s.collected[i].job && Good(s.collected[k]);
    assert InReports(s.collected, s.collected[i].job) <= 1;
    if k < i {
      ReportUnique(s.collected, k, i);
    } else if i < k {
      ReportUnique(s.collected, i, k);
    }
  }

  /** No job is reported as broken in a run without an interrupt. */
  lemma BrokenOnlyAfterInterrupt(skip: seq<bool>, p: nat, es: seq<Event>, i: nat)
    requires IsRun(Start(skip, p), es) && i < |After(Start(skip, p), es).collected|
    requires After(Start(skip, p), es).collected[i].result.Broken?
    ensures Interrupt in es
  {
    StartInv(skip, p);
    RunKeepsInv(Start(skip, p), es);
    NotInterrupted(Start(skip, p), es);
  }

  lemma {:induction false} NotInterrupted(s: Pool, es: seq<Event>)
    requires IsRun(s, es)
    ensures Interrupt !in es ==> After(s, es).interrupted == s.interrupted
    decreases |es|
  {
    if es != [] {
      NotInterrupted(Next(s, es[0]), es[1..]);
    }
  }

  ghost predicate RunningIn(s: Pool, j: nat) {
    exists w :: 0 <= w < |s.threads| && s.threads[w] == Running(j)
  }

  // A report in t that is not broken was already made, or its job already running, in s.
  ghost predicate FromBefore(s: Pool, r: Report) {
    r.result.Broken? || r in s.output || r in s.collected || RunningIn(s, r.job)
  }

  ghost predicate NothingNew(s: Pool, t: Pool) {
    && t.interrupted
    && (forall i :: 0 <= i < |t.output| ==> FromBefore(s, t.output[i]))
    && (forall i :: 0 <= i < |t.collected| ==> FromBefore(s, t.collected[i]))
    && (forall w :: 0 <= w < |t.threads| && t.threads[w].Running? ==> RunningIn(s, t.threads[w].job))
  }

  lemma NothingNewStep(s: Pool, t: Pool, e: Event)
    requires NothingNew(s, t) && Enabled(t, e)
    ensures NothingNew(s, Next(t, e))
  {
    if e.Get? {
      assert !Taken(t.input[0]).Running?;
    }
  }

  lemma {:induction false} NothingNewRun(s: Pool, t: Pool, es: seq<Event>)
    requires NothingNew(s, t) && IsRun(t, es)
    ensures NothingNew(s, After(t, es))
    decreases |es|
  {
    if es != [] {
      NothingNewStep(s, t, es[0]);
      NothingNewRun(s, Next(t, es[0]), es[1..]);
    }
  }

  /** After an interrupt no further job is run or skipped: whatever is reported later is broken, was
      reported before, or belongs to a job that was already running. */
  lemma InterruptStopsWork(s: Pool, es: seq<Event>, r: Report)
    requires s.interrupted && IsRun(s, es)
    requires r in After(s, es).output || r in After(s, es).collected
    ensures r.result.Broken? || r in s.output || r in s.collected || RunningIn(s, r.job)
  {
    NothingNewRun(s, s, es);
    assert FromBefore(s, r);
  }
}
