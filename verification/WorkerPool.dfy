/** The test runner's worker pool (test.py): P threads share one input and one output queue, the
    main thread dispatches J jobs, sends P stop tokens, collects J reports and joins the threads,
    and an interrupt may set the exit flag at any moment. */
module WorkerPool {

  datatype Token = Work(job: nat) | Stop

  datatype Result = Broken | Skipped | Exit(code: int)

  datatype Report = Report(job: nat, result: Result)

  datatype Thread = Waiting | Holding(job: nat) | Running(job: nat) | Exited

  /** The main thread runs through four loops; the counters say how far each has come. */
  datatype Pool = Pool(
    skip: seq<bool>,          // is_skip of each job
    input: seq<Token>,
    output: seq<Report>,
    threads: seq<Thread>,
    interrupted: bool,
    dispatched: nat,
    stopsSent: nat,
    collected: seq<Report>,
    joined: nat)

  datatype Event =
    | Dispatch
    | SendStop
    | Get(w: nat)
    | Decide(w: nat)
    | Finish(w: nat, code: int)
    | Collect
    | Join
    | Interrupt

  function Start(skip: seq<bool>, p: nat): Pool {
    Pool(skip, [], [], seq(p, i => Waiting), false, 0, 0, [], 0)
  }

  predicate Done(s: Pool) {
    s.stopsSent == |s.threads| && |s.collected| == |s.skip| && s.joined == |s.threads|
  }

  predicate Enabled(s: Pool, e: Event) {
    match e
    case Dispatch => s.dispatched < |s.skip|
    case SendStop => s.dispatched == |s.skip| && s.stopsSent < |s.threads|
    case Get(w) => w < |s.threads| && s.threads[w].Waiting? && s.input != []
    case Decide(w) => w < |s.threads| && s.threads[w].Holding? && s.threads[w].job < |s.skip|
    case Finish(w, _) => w < |s.threads| && s.threads[w].Running?
    case Collect =>
      s.dispatched == |s.skip| && s.stopsSent == |s.threads| && |s.collected| < |s.skip| && s.output != []
    case Join =>
      && s.dispatched == |s.skip| && s.stopsSent == |s.threads| && |s.collected| == |s.skip|
      && s.joined < |s.threads| && s.threads[s.joined].Exited?
    case Interrupt => !s.interrupted
  }

  // worker_thread.run after the job has been taken: the exit flag, then the skip flag.
  function DecideStep(s: Pool, w: nat): Pool
    requires Enabled(s, Decide(w))
  {
    var j := s.threads[w].job;
    if s.interrupted then s.(threads := s.threads[w := Waiting], output := s.output + [Report(j, Broken)])
    else if s.skip[j] then s.(threads := s.threads[w := Waiting], output := s.output + [Report(j, Skipped)])
    else s.(threads := s.threads[w := Running(j)])
  }

  function Next(s: Pool, e: Event): Pool
    requires Enabled(s, e)
  {
    match e
    case Dispatch => s.(input := s.input + [Work(s.dispatched)], dispatched := s.dispatched + 1)
    case SendStop => s.(input := s.input + [Stop], stopsSent := s.stopsSent + 1)
    case Get(w) =>
      var t := s.input[0];
      s.(input := s.input[1..], threads := s.threads[w := if t.Stop? then Exited else Holding(t.job)])
    case Decide(w) => DecideStep(s, w)
    case Finish(w, code) =>
      s.(threads := s.threads[w := Waiting], output := s.output + [Report(s.threads[w].job, Exit(code))])
    case Collect => s.(output := s.output[1..], collected := s.collected + [s.output[0]])
    case Join => s.(joined := s.joined + 1)
    case Interrupt => s.(interrupted := true)
  }

  // ---- where the jobs and the stop tokens are

  ghost function InQueue(q: seq<Token>, j: nat): nat {
    if q == [] then 0 else (if q[0] == Work(j) then 1 else 0) + InQueue(q[1..], j)
  }

  ghost function Holds(t: Thread, j: nat): nat {
    if (t.Holding? || t.Running?) && t.job == j then 1 else 0
  }

  ghost function HeldIn(ts: seq<Thread>, j: nat): nat {
    if ts == [] then 0 else Holds(ts[0], j) + HeldIn(ts[1..], j)
  }

  function InReports(rs: seq<Report>, j: nat): nat {
    if rs == [] then 0 else (if rs[0].job == j then 1 else 0) + InReports(rs[1..], j)
  }

  ghost function Stops(q: seq<Token>): nat {
    if q == [] then 0 else (if q[0].Stop? then 1 else 0) + Stops(q[1..])
  }

  ghost function ExitedCount(ts: seq<Thread>): nat {
    if ts == [] then 0 else (if ts[0].Exited? then 1 else 0) + ExitedCount(ts[1..])
  }

  ghost function BusyCount(ts: seq<Thread>): nat {
    if ts == [] then 0 else (if ts[0].Holding? || ts[0].Running? then 1 else 0) + BusyCount(ts[1..])
  }

  ghost function QueueWeight(q: seq<Token>): nat {
    if q == [] then 0 else (if q[0].Stop? then 2 else 5) + QueueWeight(q[1..])
  }

  ghost function WeightOf(t: Thread): nat {
    match t case Holding(_) => 4 case Running(_) => 3 case _ => 0
  }

  ghost function ThreadWeight(ts: seq<Thread>): nat {
    if ts == [] then 0 else WeightOf(ts[0]) + ThreadWeight(ts[1..])
  }

  lemma {:induction false} QueueAppend(q: seq<Token>, t: Token)
    ensures Stops(q + [t]) == Stops(q) + if t.Stop? then 1 else 0
    ensures QueueWeight(q + [t]) == QueueWeight(q) + if t.Stop? then 2 else 5
  {
    if q == [] {
      assert q + [t] == [t];
    } else {
      assert (q + [t])[1..] == q[1..] + [t];
      QueueAppend(q[1..], t);
    }
  }

  lemma {:induction false} InQueueAppend(q: seq<Token>, t: Token, j: nat)
    ensures InQueue(q + [t], j) == InQueue(q, j) + if t == Work(j) then 1 else 0
  {
    if q == [] {
      assert q + [t] == [t];
    } else {
      assert (q + [t])[1..] == q[1..] + [t];
      InQueueAppend(q[1..], t, j);
    }
  }

  lemma {:induction false} ReportsAppend(rs: seq<Report>, r: Report, j: nat)
    ensures InReports(rs + [r], j) == InReports(rs, j) + if r.job == j then 1 else 0
  {
    if rs == [] {
      assert rs + [r] == [r];
    } else {
      assert (rs + [r])[1..] == rs[1..] + [r];
      ReportsAppend(rs[1..], r, j);
    }
  }

  lemma {:induction false} HeldUpdate(ts: seq<Thread>, w: nat, t: Thread, j: nat)
    requires w < |ts|
    ensures HeldIn(ts[w := t], j) + Holds(ts[w], j) == HeldIn(ts, j) + Holds(t, j)
  {
    if w == 0 {
      assert ts[0 := t][1..] == ts[1..];
    } else {
      assert ts[w := t][1..] == ts[1..][w - 1 := t];
      HeldUpdate(ts[1..], w - 1, t, j);
    }
  }

  lemma {:induction false} CountsUpdate(ts: seq<Thread>, w: nat, t: Thread)
    requires w < |ts|
    ensures ExitedCount(ts[w := t]) + (if ts[w].Exited? then 1 else 0) == ExitedCount(ts) + (if t.Exited? then 1 else 0)
    ensures BusyCount(ts[w := t]) + (if ts[w].Holding? || ts[w].Running? then 1 else 0)
         == BusyCount(ts) + (if t.Holding? || t.Running? then 1 else 0)
  {
    if w == 0 {
      assert ts[0 := t][1..] == ts[1..];
    } else {
      assert ts[w := t][1..] == ts[1..][w - 1 := t];
      CountsUpdate(ts[1..], w - 1, t);
    }
  }

  lemma {:induction false} WeightUpdate(ts: seq<Thread>, w: nat, t: Thread)
    requires w < |ts|
    ensures ThreadWeight(ts[w := t]) + WeightOf(ts[w]) == ThreadWeight(ts) + WeightOf(t)
  {
    if w == 0 {
      assert ts[0 := t][1..] == ts[1..];
    } else {
      assert ts[w := t][1..] == ts[1..][w - 1 := t];
      WeightUpdate(ts[1..], w - 1, t);
    }
  }

  // ---- the invariant

  ghost function Places(s: Pool, j: nat): nat {
    InQueue(s.input, j) + HeldIn(s.threads, j) + InReports(s.output, j) + InReports(s.collected, j)
  }

  /** Every dispatched job is in exactly one place, and no other job is anywhere. */
  ghost predicate JobsOnce(s: Pool) {
    forall j: nat :: Places(s, j) == if j < s.dispatched then 1 else 0
  }

  /** As numbers: tokens queued, threads busy and reports made add up to the jobs dispatched, and
      every stop token sent is still queued or has ended one thread. */
  ghost predicate Accounted(s: Pool) {
    && |s.input| - Stops(s.input) + BusyCount(s.threads) + |s.output| + |s.collected| == s.dispatched
    && Stops(s.input) + ExitedCount(s.threads) == s.stopsSent
  }

  ghost predicate Counters(s: Pool) {
    && s.dispatched <= |s.skip| && s.stopsSent <= |s.threads| && s.joined <= |s.threads|
    && (s.stopsSent > 0 ==> s.dispatched == |s.skip|)
    && (s.joined > 0 ==> |s.collected| == |s.skip| && s.stopsSent == |s.threads|)
    && (forall w :: 0 <= w < s.joined ==> s.threads[w].Exited?)
  }

  // The queue is first in first out and the stop tokens went in last.
  ghost predicate StopsLast(q: seq<Token>, anyExited: bool) {
    && (forall i, j :: 0 <= i < j < |q| && q[i].Stop? ==> q[j].Stop?)
    && (anyExited ==> forall i :: 0 <= i < |q| ==> q[i].Stop?)
  }

  ghost predicate TokensOk(q: seq<Token>, jobs: nat) {
    forall i :: 0 <= i < |q| && q[i].Work? ==> q[i].job < jobs
  }

  ghost predicate ThreadOk(skip: seq<bool>, t: Thread) {
    (t.Holding? || t.Running? ==> t.job < |skip|) && (t.Running? ==> !skip[t.job])
  }

  ghost predicate ThreadsOk(skip: seq<bool>, ts: seq<Thread>) {
    forall w :: 0 <= w < |ts| ==> ThreadOk(skip, ts[w])
  }

  ghost predicate ReportOk(skip: seq<bool>, interrupted: bool, r: Report) {
    && r.job < |skip|
    && (r.result.Broken? ==> interrupted)
    && (r.result.Skipped? ==> skip[r.job])
    && (r.result.Exit? ==> !skip[r.job])
  }

  ghost predicate ReportsOk(skip: seq<bool>, interrupted: bool, rs: seq<Report>) {
    forall i :: 0 <= i < |rs| ==> ReportOk(skip, interrupted, rs[i])
  }

  ghost predicate ItemsOk(s: Pool) {
    && StopsLast(s.input, ExitedCount(s.threads) > 0)
    && TokensOk(s.input, |s.skip|)
    && ThreadsOk(s.skip, s.threads)
    && ReportsOk(s.skip, s.interrupted, s.output)
    && ReportsOk(s.skip, s.interrupted, s.collected)
  }

  ghost predicate Inv(s: Pool) {
    Counters(s) && JobsOnce(s) && Accounted(s) && ItemsOk(s)
  }

  lemma {:induction false} AllWaiting(ts: seq<Thread>)
    requires forall w :: 0 <= w < |ts| ==> ts[w].Waiting?
    ensures ExitedCount(ts) == 0 && BusyCount(ts) == 0 && ThreadWeight(ts) == 0
    ensures forall j: nat :: HeldIn(ts, j) == 0
  {
    if ts != [] {
      AllWaiting(ts[1..]);
    }
  }

  lemma StartInv(skip: seq<bool>, p: nat)
    ensures Inv(Start(skip, p))
  {
    AllWaiting(Start(skip, p).threads);
  }

  lemma {:induction false} StopInQueue(q: seq<Token>, i: nat)
    requires i < |q| && Stops(q) == 0
    ensures q[i].Work?
  {
    if i > 0 {
      StopInQueue(q[1..], i - 1);
    }
  }

  lemma {:induction false} AllStops(q: seq<Token>)
    ensures Stops(q) <= |q|
    ensures (forall i :: 0 <= i < |q| ==> q[i].Stop?) ==> Stops(q) == |q|
  {
    if q != [] {
      AllStops(q[1..]);
    }
  }

  // One lemma per kind of step and part of the invariant; s' is the state after the step.

  lemma EnqueueOnce(s: Pool, t: Token, s': Pool)
    requires JobsOnce(s) && (t.Work? ==> t.job == s.dispatched)
    requires s'.input == s.input + [t] && s'.dispatched == s.dispatched + (if t.Work? then 1 else 0)
    requires s'.threads == s.threads && s'.output == s.output && s'.collected == s.collected
    ensures JobsOnce(s')
  {
    forall j: nat ensures Places(s', j) == if j < s'.dispatched then 1 else 0 {
      InQueueAppend(s.input, t, j);
      assert Places(s, j) == if j < s.dispatched then 1 else 0;
    }
  }

  lemma EnqueueItems(q: seq<Token>, t: Token, jobs: nat, anyExited: bool)
    requires StopsLast(q, anyExited) && TokensOk(q, jobs)
    requires t.Work? ==> t.job < jobs && !anyExited && Stops(q) == 0
    ensures StopsLast(q + [t], anyExited) && TokensOk(q + [t], jobs)
  {
    if t.Work? {
      forall i | 0 <= i < |q| ensures q[i].Work? {
        StopInQueue(q, i);
      }
    }
  }

  lemma EnqueueKeeps(s: Pool, t: Token, s': Pool)
    requires Inv(s)
    requires if t.Work? then t.job == s.dispatched && s.dispatched < |s.skip|
             else s.dispatched == |s.skip| && s.stopsSent < |s.threads|
    requires s' == s.(input := s.input + [t], dispatched := s.dispatched + (if t.Work? then 1 else 0),
                      stopsSent := s.stopsSent + (if t.Work? then 0 else 1))
    ensures Inv(s')
  {
    QueueAppend(s.input, t);
    EnqueueOnce(s, t, s');
    EnqueueItems(s.input, t, |s.skip|, ExitedCount(s.threads) > 0);
  }

  function Taken(t: Token): Thread {
    if t.Stop? then Exited else Holding(t.job)
  }

  lemma GetOnce(s: Pool, w: nat)
    requires JobsOnce(s) && Enabled(s, Get(w))
    ensures JobsOnce(Next(s, Get(w)))
  {
    var s' := Next(s, Get(w));
    forall j: nat ensures Places(s', j) == if j < s'.dispatched then 1 else 0 {
      HeldUpdate(s.threads, w, Taken(s.input[0]), j);
      assert Places(s, j) == if j < s.dispatched then 1 else 0;
    }
  }

  lemma GetQueue(q: seq<Token>, anyExited: bool, jobs: nat)
    requires q != [] && StopsLast(q, anyExited) && TokensOk(q, jobs)
    ensures StopsLast(q[1..], anyExited || q[0].Stop?) && TokensOk(q[1..], jobs)
    ensures q[0].Work? ==> q[0].job < jobs
  {
  }

  lemma SetThread(skip: seq<bool>, ts: seq<Thread>, w: nat, t: Thread)
    requires ThreadsOk(skip, ts) && w < |ts| && ThreadOk(skip, t)
    ensures ThreadsOk(skip, ts[w := t])
  {
  }

  lemma AddReport(skip: seq<bool>, interrupted: bool, rs: seq<Report>, r: Report)
    requires ReportsOk(skip, interrupted, rs) && ReportOk(skip, interrupted, r)
    ensures ReportsOk(skip, interrupted, rs + [r])
  {
  }

  lemma GetKeeps(s: Pool, w: nat)
    requires Inv(s) && Enabled(s, Get(w))
    ensures Inv(Next(s, Get(w)))
  {
    GetOnce(s, w);
    CountsUpdate(s.threads, w, Taken(s.input[0]));
    GetQueue(s.input, ExitedCount(s.threads) > 0, |s.skip|);
    SetThread(s.skip, s.threads, w, Taken(s.input[0]));
  }

  lemma ReportOnce(s: Pool, w: nat, r: Report, s': Pool)
    requires JobsOnce(s) && w < |s.threads| && (s.threads[w].Holding? || s.threads[w].Running?) && r.job == s.threads[w].job
    requires s' == s.(threads := s.threads[w := Waiting], output := s.output + [r])
    ensures JobsOnce(s')
  {
    forall j: nat ensures Places(s', j) == if j < s'.dispatched then 1 else 0 {
      HeldUpdate(s.threads, w, Waiting, j);
      ReportsAppend(s.output, r, j);
      assert Places(s, j) == if j < s.dispatched then 1 else 0;
    }
  }

  lemma ReportKeeps(s: Pool, w: nat, r: Report, s': Pool)
    requires Inv(s) && w < |s.threads| && (s.threads[w].Holding? || s.threads[w].Running?) && r.job == s.threads[w].job
    requires ReportOk(s.skip, s.interrupted, r)
    requires s' == s.(threads := s.threads[w := Waiting], output := s.output + [r])
    ensures Inv(s')
  {
    ReportOnce(s, w, r, s');
    CountsUpdate(s.threads, w, Waiting);
    SetThread(s.skip, s.threads, w, Waiting);
    AddReport(s.skip, s.interrupted, s.output, r);
  }

  lemma RunKeeps(s: Pool, w: nat, s': Pool)
    requires Inv(s) && w < |s.threads| && s.threads[w].Holding?
    requires s.threads[w].job < |s.skip| && !s.skip[s.threads[w].job]
    requires s' == s.(threads := s.threads[w := Running(s.threads[w].job)])
    ensures Inv(s')
  {
    var t := Running(s.threads[w].job);
    assert JobsOnce(s') by {
      forall j: nat ensures Places(s', j) == if j < s'.dispatched then 1 else 0 {
        HeldUpdate(s.threads, w, t, j);
        assert Places(s, j) == if j < s.dispatched then 1 else 0;
      }
    }
    CountsUpdate(s.threads, w, t);
    SetThread(s.skip, s.threads, w, t);
  }

  lemma CollectKeeps(s: Pool)
    requires Inv(s) && Enabled(s, Collect)
    ensures Inv(Next(s, Collect))
  {
    var s' := Next(s, Collect);
    assert JobsOnce(s') by {
      forall j: nat ensures Places(s', j) == if j < s'.dispatched then 1 else 0 {
        ReportsAppend(s.collected, s.output[0], j);
        assert Places(s, j) == if j < s.dispatched then 1 else 0;
      }
    }
    AddReport(s.skip, s.interrupted, s.collected, s.output[0]);
  }

  lemma RestKeeps(s: Pool, e: Event)
    requires Inv(s) && Enabled(s, e) && (e.Join? || e.Interrupt?)
    ensures Inv(Next(s, e))
  {
    var s' := Next(s, e);
    forall j: nat ensures Places(s', j) == if j < s'.dispatched then 1 else 0 {
      assert Places(s, j) == if j < s.dispatched then 1 else 0;
    }
  }

  lemma DecideKeeps(s: Pool, w: nat)
    requires Inv(s) && Enabled(s, Decide(w))
    ensures Inv(DecideStep(s, w))
  {
    var j := s.threads[w].job;
    if s.interrupted {
      ReportKeeps(s, w, Report(j, Broken), DecideStep(s, w));
    } else if s.skip[j] {
      ReportKeeps(s, w, Report(j, Skipped), DecideStep(s, w));
    } else {
      RunKeeps(s, w, DecideStep(s, w));
    }
  }

  lemma FinishKeeps(s: Pool, w: nat, code: int)
    requires Inv(s) && Enabled(s, Finish(w, code))
    ensures Inv(Next(s, Finish(w, code)))
  {
    assert ThreadOk(s.skip, s.threads[w]);
    ReportKeeps(s, w, Report(s.threads[w].job, Exit(code)), Next(s, Finish(w, code)));
  }

  /** Every step of every schedule keeps the invariant. */
  lemma StepKeeps(s: Pool, e: Event)
    requires Inv(s) && Enabled(s, e)
    ensures Inv(Next(s, e))
  {
    match e
    case Dispatch => EnqueueKeeps(s, Work(s.dispatched), Next(s, e));
    case SendStop => EnqueueKeeps(s, Stop, Next(s, e));
    case Get(w) => GetKeeps(s, w);
    case Decide(w) => DecideKeeps(s, w);
    case Finish(w, code) => FinishKeeps(s, w, code);
    case Collect => CollectKeeps(s);
    case Join => RestKeeps(s, e);
    case Interrupt => RestKeeps(s, e);
  }
}
