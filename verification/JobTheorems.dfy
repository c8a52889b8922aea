/** What the job service promises over whole runs: safety, permanence of finished records
    across crashes and restarts, the meaning of an accepted cancel, and progress. */
module JobTheorems {
  import opened Wrappers
  import opened Sequences
  import opened JobProtocol
  import opened JobInvariant

  // ---- runs

  ghost predicate Runs(s: State, es: seq<Event>)
    decreases |es|
  {
    es == [] || (Enabled(s, es[0]) && Runs(Next(s, es[0]), es[1..]))
  }

  ghost function After(s: State, es: seq<Event>): State
    requires Runs(s, es)
    decreases |es|
  {
    if es == [] then s else After(Next(s, es[0]), es[1..])
  }

  lemma {:induction false} RunKeeps(s: State, es: seq<Event>)
    requires Inv(s) && Runs(s, es)
    ensures Inv(After(s, es))
    decreases |es|
  {
    if es != [] {
      StepKeeps(s, es[0]);
      RunKeeps(Next(s, es[0]), es[1..]);
    }
  }

  // ---- safety

  predicate Occupying(j: Job) { j.status.Running? || j.status.Cancelling? }

  /** The promises about a single moment, in the service's own terms. */
  ghost predicate Safe(s: State) {
    // one worker: at most one job is running or being cancelled
    && (forall a, b :: a in s.jobs && b in s.jobs && Occupying(s.jobs[a]) && Occupying(s.jobs[b]) ==> a == b)
    // back-pressure
    && |Pending(s.jobs)| <= 16
    // a queued job is in the queue exactly once and has never had a process
    && (forall id :: id in s.jobs && s.jobs[id].status.Queued? ==> multiset(s.queue)[id] == 1 && id !in s.spawned)
    && (forall id :: id in s.jobs && s.jobs[id].status.Cancelling? ==> id in s.cancelled)
    // jobs start in submission order, and whatever was submitted before a started job has left the queue
    && Subsequence(s.launched, s.popped) && s.popped <= s.submitted
    // finished means terminal and saved as it is
    && (forall id :: id in s.jobs && s.jobs[id].finished ==>
          Terminal(s.jobs[id].status) && id in s.disk && s.disk[id] == s.jobs[id])
    // results, in memory and on disk
    && (forall id :: id in s.jobs ==> ResultMatches(s.jobs[id]))
    && (forall id :: id in s.disk ==> ResultMatches(s.disk[id]))
    // processes belong to the one job being executed
    && (forall id :: id in s.processes ==> IsActive(s.worker, id))
  }

  lemma OnceInQueue(q: seq<Id>, id: Id)
    requires NoRepeats(q) && id in q
    ensures multiset(q)[id] == 1
  {
    var i :| 0 <= i < |q| && q[i] == id;
    assert q == q[..i] + [id] + q[i + 1..];
    assert id !in q[..i] && id !in q[i + 1..];
  }

  lemma QueueNoRepeats(s: State)
    requires QueueOk(s)
    ensures NoRepeats(s.queue)
  {
    var n := |s.popped|;
    forall i, j | 0 <= i < j < |s.queue| ensures s.queue[i] != s.queue[j] {
      assert s.queue[i] == s.submitted[n + i] && s.queue[j] == s.submitted[n + j];
    }
  }

  lemma QueuedOnce(s: State, id: Id)
    requires QueueOk(s) && JobsOk(s) && id in s.jobs && s.jobs[id].status.Queued?
    ensures multiset(s.queue)[id] == 1 && id !in s.spawned
  {
    assert JobOk(s, id);
    QueueNoRepeats(s);
    OnceInQueue(s.queue, id);
  }

  lemma OneOccupying(s: State, a: Id, b: Id)
    requires JobsOk(s) && a in s.jobs && b in s.jobs && Occupying(s.jobs[a]) && Occupying(s.jobs[b])
    ensures a == b
  {
    assert JobOk(s, a) && JobOk(s, b);
  }

  lemma InvSafe(s: State)
    requires Inv(s)
    ensures Safe(s)
  {
    forall a, b | a in s.jobs && b in s.jobs && Occupying(s.jobs[a]) && Occupying(s.jobs[b]) ensures a == b {
      OneOccupying(s, a, b);
    }
    forall id | id in s.jobs && s.jobs[id].status.Queued? ensures multiset(s.queue)[id] == 1 && id !in s.spawned {
      QueuedOnce(s, id);
    }
    forall id | id in s.jobs ensures JobOk(s, id) {
    }
  }

  /** Every state of every run of the service, crashes and restarts included, is safe. */
  lemma AlwaysSafe(es: seq<Event>)
    requires Runs(EmptyState(), es)
    ensures Inv(After(EmptyState(), es)) && Safe(After(EmptyState(), es))
  {
    EmptyInv();
    RunKeeps(EmptyState(), es);
    InvSafe(After(EmptyState(), es));
  }

  // ---- permanence

  // What the invariant says of one job, in memory and on disk.
  predicate LocalOk(s: State, id: Id) {
    && (id in s.jobs ==> JobOk(s, id))
    && (id in s.disk ==> RecordOk(s.disk[id]))
  }

  lemma InvLocal(s: State, id: Id)
    requires Inv(s)
    ensures LocalOk(s, id)
  {
  }

  predicate Withdrawn(status: Status) {
    status.Cancelled? || status.Failed? || status.Interrupted?
  }

  // How one step other than a restart may treat one job.
  predicate Evolves(s: State, s': State, id: Id) {
    && (id in s.disk ==> id in s'.disk)
    && (id in s.jobs ==> id in s'.jobs && id in s'.disk && s'.jobs[id].timeout == s.jobs[id].timeout)
    && (id !in s.jobs && id in s.disk ==> id !in s'.jobs && s'.disk[id] == s.disk[id])
    && (id in s.jobs && s.jobs[id].finished ==> s'.jobs[id] == s.jobs[id] && s'.disk[id] == s.jobs[id])
    && (id in s.jobs && s.jobs[id].status.Cancelling? ==>
          && (s'.jobs[id].status.Cancelling? || (s'.jobs[id].finished && Withdrawn(s'.jobs[id].status)))
          && ((id in s.disk && s'.disk[id] == s.disk[id]) || s'.disk[id] == s'.jobs[id]))
  }

  lemma EvolvesByRequest(s: State, e: Event, id: Id)
    requires LocalOk(s, id) && Enabled(s, e)
    requires e.Submit? || e.Cancel? || e.CancelResume? || e.ProcessExit? || e.Close?
    ensures Evolves(s, Next(s, e), id)
  {
  }

  lemma EvolvesByClose(s: State, id: Id)
    requires LocalOk(s, id) && s.worker.Gone?
    ensures Evolves(s, CloseFinishStep(s), id)
  {
  }

  lemma EvolvesByFinish(s: State, t: Id, status: Status, next: Worker, id: Id)
    requires LocalOk(s, id) && t in s.jobs && IsActive(s.worker, t) && Withdrawn(status)
    ensures Evolves(s, Finish(s, t, status, next), id)
  {
  }

  lemma EvolvesByConclude(s: State, t: Id, parsed: Option<RunResult>, id: Id)
    requires LocalOk(s, id) && t in s.jobs && IsActive(s.worker, t) && t in s.processes && s.processes[t].Some?
    ensures Evolves(s, Conclude(s, t, parsed), id)
  {
  }

  lemma EvolvesByLoop(s: State, t: Id, elapsed: nat, logFull: bool, id: Id)
    requires LocalOk(s, id) && t in s.jobs && IsActive(s.worker, t)
    ensures Evolves(s, LoopTop(s, t, elapsed, logFull), id)
  {
  }

  lemma EvolvesByPop(s: State, binaryFound: bool, id: Id)
    requires LocalOk(s, id) && Enabled(s, Pop(binaryFound))
    ensures Evolves(s, PopStep(s, binaryFound), id)
  {
  }

  function Created(s: State, ended: Option<int>): State
    requires s.worker.Spawning?
  {
    s.(processes := s.processes[s.worker.id := ended], spawned := s.spawned + {s.worker.id})
  }

  lemma CreatedLocal(s: State, ended: Option<int>, id: Id)
    requires LocalOk(s, id) && s.worker.Spawning?
    ensures LocalOk(Created(s, ended), id)
  {
  }

  lemma EvolvesFrom(s: State, s1: State, s': State, id: Id)
    requires s1.jobs == s.jobs && s1.disk == s.disk && Evolves(s1, s', id)
    ensures Evolves(s, s', id)
  {
  }

  lemma EvolvesBySpawn(s: State, ended: Option<int>, elapsed: nat, logFull: bool, parsed: Option<RunResult>, id: Id)
    requires LocalOk(s, id) && Enabled(s, SpawnOk(ended, elapsed, logFull, parsed))
    ensures Evolves(s, SpawnOkStep(s, ended, elapsed, logFull, parsed), id)
  {
    var t := s.worker.id;
    var s1 := Created(s, ended);
    CreatedLocal(s, ended, id);
    if ended.Some? {
      EvolvesByConclude(s1, t, parsed, id);
      EvolvesFrom(s, s1, Conclude(s1, t, parsed), id);
    } else {
      EvolvesByLoop(s1, t, elapsed, logFull, id);
      EvolvesFrom(s, s1, LoopTop(s1, t, elapsed, logFull), id);
    }
  }

  lemma EvolvesByPoll(s: State, elapsed: nat, logFull: bool, parsed: Option<RunResult>, id: Id)
    requires LocalOk(s, id) && Enabled(s, PollWake(elapsed, logFull, parsed))
    ensures Evolves(s, PollWakeStep(s, elapsed, logFull, parsed), id)
  {
    var t := s.worker.id;
    if s.processes[t].Some? {
      EvolvesByConclude(s, t, parsed, id);
    } else {
      EvolvesByLoop(s, t, elapsed, logFull, id);
    }
  }

  lemma EvolvesByWorker(s: State, e: Event, id: Id)
    requires LocalOk(s, id) && Enabled(s, e)
    requires e.SpawnFails? || e.SpawnOk? || e.PollWake? || e.StopDone? || e.Interrupt? || e.AbortDone?
    ensures Evolves(s, Next(s, e), id)
  {
    if e.Interrupt? && (s.worker.Idle? || (HasProcess(s.worker) && s.processes[s.worker.id].None?)) {
      return;
    }
    var t := s.worker.id;
    match e
    case SpawnFails => EvolvesByFinish(s, t, Failed, Idle, id);
    case SpawnOk(ended, elapsed, logFull, parsed) => EvolvesBySpawn(s, ended, elapsed, logFull, parsed, id);
    case PollWake(elapsed, logFull, parsed) => EvolvesByPoll(s, elapsed, logFull, parsed, id);
    case StopDone(parsed) => EvolvesByConclude(s, t, parsed, id);
    case Interrupt => EvolvesByFinish(s, t, Interrupted, Gone, id);
    case AbortDone => EvolvesByFinish(s, t, Interrupted, Gone, id);
  }

  lemma EvolvesByStep(s: State, e: Event, id: Id)
    requires LocalOk(s, id) && Enabled(s, e) && !e.Restart?
    ensures Evolves(s, Next(s, e), id)
  {
    match e
    case Submit(_, _, _, _) => EvolvesByRequest(s, e, id);
    case Cancel(_) => EvolvesByRequest(s, e, id);
    case CancelResume(_) => EvolvesByRequest(s, e, id);
    case ProcessExit(_, _) => EvolvesByRequest(s, e, id);
    case Close => EvolvesByRequest(s, e, id);
    case CloseFinish => EvolvesByClose(s, id);
    case Pop(binaryFound) => EvolvesByPop(s, binaryFound, id);
    case _ => EvolvesByWorker(s, e, id);
  }

  lemma FinishedStep(s: State, e: Event, id: Id)
    requires Inv(s) && Enabled(s, e) && id in s.disk && s.disk[id].finished
    ensures id in Next(s, e).disk && Next(s, e).disk[id] == s.disk[id]
  {
    InvLocal(s, id);
    if !e.Restart? {
      EvolvesByStep(s, e, id);
    }
  }

  /** Once finished_at is saved, no later step changes the record: not a second cancel, not
      shutdown, not a crash at any point followed by restarts. */
  lemma {:induction false} FinishedForever(s: State, es: seq<Event>, id: Id)
    requires Inv(s) && Runs(s, es) && id in s.disk && s.disk[id].finished
    ensures id in After(s, es).disk && After(s, es).disk[id] == s.disk[id]
    ensures id in After(s, es).jobs ==> After(s, es).jobs[id] == s.disk[id]
    decreases |es|
  {
    if es == [] {
      if id in s.jobs {
        assert JobOk(s, id);
      }
    } else {
      FinishedStep(s, es[0], id);
      StepKeeps(s, es[0]);
      FinishedForever(Next(s, es[0]), es[1..], id);
    }
  }

  /** A restart leaves no loaded job unfinished, keeps the finished ones as they were saved,
      and turns the others into interrupted ones. */
  lemma RestartFinishesAll(s: State, loaded: set<Id>, id: Id)
    requires Inv(s) && Enabled(s, Restart(loaded)) && id in loaded
    ensures var s' := Next(s, Restart(loaded));
      && id in s'.jobs && s'.jobs[id].finished && Terminal(s'.jobs[id].status) && s'.disk[id] == s'.jobs[id]
      && s'.jobs[id] ==
           (if s.disk[id].finished then s.disk[id] else s.disk[id].(status := Interrupted, finished := true))
  {
    assert RecordOk(s.disk[id]);
  }

  // ---- the meaning of a cancel

  lemma NeverSpawnedStep(s: State, e: Event, id: Id)
    requires LocalOk(s, id) && Enabled(s, e) && id in s.disk && s.disk[id].finished && id !in s.spawned
    ensures id !in Next(s, e).spawned
  {
  }

  lemma {:induction false} FinishedNeverSpawns(s: State, es: seq<Event>, id: Id)
    requires Inv(s) && Runs(s, es) && id in s.disk && s.disk[id].finished && id !in s.spawned
    ensures id !in After(s, es).spawned
    decreases |es|
  {
    if es != [] {
      InvLocal(s, id);
      NeverSpawnedStep(s, es[0], id);
      FinishedStep(s, es[0], id);
      StepKeeps(s, es[0]);
      FinishedNeverSpawns(Next(s, es[0]), es[1..], id);
    }
  }

  /** A cancel accepted while the job is queued: it is cancelled for ever and no process is
      ever started for it. */
  lemma CancelQueued(s: State, id: Id, es: seq<Event>)
    requires Inv(s) && id in s.jobs && s.jobs[id].status.Queued? && Runs(s, [Cancel(id)] + es)
    ensures var t := After(s, [Cancel(id)] + es);
      && id !in t.spawned
      && id in t.disk && t.disk[id].status.Cancelled? && t.disk[id].finished
      && (id in t.jobs ==> t.jobs[id].status.Cancelled?)
  {
    assert ([Cancel(id)] + es)[1..] == es;
    assert JobOk(s, id);
    var s' := Next(s, Cancel(id));
    assert id in s'.disk && s'.disk[id].finished && s'.disk[id].status.Cancelled?;
    StepKeeps(s, Cancel(id));
    FinishedForever(s', es, id);
    FinishedNeverSpawns(s', es, id);
  }

  // The job is being cancelled, or it ended without a result and without a time-out.
  ghost predicate Doomed(s: State, id: Id) {
    && id in s.disk
    && (Terminal(s.disk[id].status) ==> Withdrawn(s.disk[id].status))
    && (id in s.jobs ==>
          || s.jobs[id].status.Cancelling?
          || (s.jobs[id].finished && Withdrawn(s.jobs[id].status)))
  }

  lemma DoomedStep(s: State, e: Event, id: Id)
    requires LocalOk(s, id) && Enabled(s, e) && Doomed(s, id)
    ensures Doomed(Next(s, e), id)
  {
    if !e.Restart? {
      EvolvesByStep(s, e, id);
    }
  }

  lemma {:induction false} DoomedForever(s: State, es: seq<Event>, id: Id)
    requires Inv(s) && Runs(s, es) && Doomed(s, id)
    ensures Doomed(After(s, es), id)
    decreases |es|
  {
    if es != [] {
      InvLocal(s, id);
      DoomedStep(s, es[0], id);
      StepKeeps(s, es[0]);
      DoomedForever(Next(s, es[0]), es[1..], id);
    }
  }

  // The job has no completed, incomplete or timed-out record.
  ghost predicate NoOutcome(s: State, id: Id) {
    && id in s.disk && !s.disk[id].status.Completed? && !s.disk[id].status.Incomplete? && !s.disk[id].status.TimedOut?
    && (id in s.jobs ==>
          !s.jobs[id].status.Completed? && !s.jobs[id].status.Incomplete? && !s.jobs[id].status.TimedOut?)
  }

  lemma DoomedOutcome(s: State, es: seq<Event>, id: Id)
    requires Inv(s) && Runs(s, es) && Doomed(s, id)
    ensures NoOutcome(After(s, es), id)
  {
    DoomedForever(s, es, id);
  }

  lemma CancelDooms(s: State, id: Id)
    requires id in s.jobs && LocalOk(s, id) && Occupying(s.jobs[id])
    ensures Doomed(Next(s, Cancel(id)), id)
  {
  }

  /** A cancel accepted while the job is running: however the run goes on, it never ends
      completed, incomplete or timed out, in memory or on disk. */
  lemma CancelRunning(s: State, id: Id, es: seq<Event>)
    requires Inv(s) && id in s.jobs && Occupying(s.jobs[id]) && Runs(s, [Cancel(id)] + es)
    ensures NoOutcome(After(s, [Cancel(id)] + es), id)
  {
    assert ([Cancel(id)] + es)[1..] == es;
    InvLocal(s, id);
    CancelDooms(s, id);
    StepKeeps(s, Cancel(id));
    DoomedOutcome(Next(s, Cancel(id)), es, id);
  }

  // ---- progress

  // Steps of the worker, of its process and of shutdown.
  predicate Progressing(e: Event) {
    e.Pop? || e.SpawnFails? || e.SpawnOk? || e.PollWake? || e.StopDone? || e.ProcessExit?
    || e.Close? || e.Interrupt? || e.AbortDone? || e.CloseFinish?
  }

  function Cost(s: State, id: Id): nat {
    if id in s.jobs then 9 + s.jobs[id].timeout else 9
  }

  function QueueCost(s: State, q: seq<Id>): nat {
    if q == [] then 0 else Cost(s, q[0]) + QueueCost(s, q[1..])
  }

  function Alive(s: State, id: Id): nat {
    if id in s.processes && s.processes[id].None? then 1 else 0
  }

  function WorkerCost(s: State): nat {
    match s.worker
    case Gone => 0
    case Idle => 1
    case Aborting(id) => 1 + Alive(s, id)
    case Stopping(id) => 3 + Alive(s, id)
    case Polling(id, elapsed) =>
      5 + Alive(s, id) + (if id in s.jobs && elapsed <= s.jobs[id].timeout then s.jobs[id].timeout - elapsed else 0)
    case Spawning(id) => Cost(s, id) - 1
  }

  /** The number of steps the service can still take on its own: queue, then ticks left, then phase. */
  function Measure(s: State): nat {
    QueueCost(s, s.queue) + WorkerCost(s) + (if s.service.Open? then 2 else if s.service.Closing? then 1 else 0)
  }

  ghost predicate SameTimeouts(s: State, s': State) {
    s.jobs.Keys <= s'.jobs.Keys && forall id :: id in s.jobs ==> s'.jobs[id].timeout == s.jobs[id].timeout
  }

  lemma QueueCostFrame(s: State, s': State, q: seq<Id>)
    requires SameTimeouts(s, s') && forall id :: id in q ==> id in s.jobs
    ensures QueueCost(s', q) == QueueCost(s, q)
  {
  }

  lemma StepTimeouts(s: State, e: Event)
    requires Inv(s) && Enabled(s, e) && !e.Restart?
    ensures SameTimeouts(s, Next(s, e))
  {
    forall id | id in s.jobs
      ensures id in Next(s, e).jobs && Next(s, e).jobs[id].timeout == s.jobs[id].timeout
    {
      InvLocal(s, id);
      EvolvesByStep(s, e, id);
    }
  }

  lemma QueueKnown(s: State)
    requires Inv(s)
    ensures forall id :: id in s.queue ==> id in s.jobs
  {
    assert forall id :: id in s.queue ==> id in s.submitted;
  }

  // A polling worker has not reached the time-out of its job.
  ghost predicate ClockOk(s: State) {
    s.worker.Polling? && s.worker.id in s.jobs ==> s.worker.elapsed <= s.jobs[s.worker.id].timeout
  }

  lemma ClockInv(s: State)
    requires Inv(s)
    ensures ClockOk(s)
  {
    if s.worker.Polling? && s.worker.id in s.jobs {
      assert JobOk(s, s.worker.id);
    }
  }

  lemma PopDecreases(s: State, binaryFound: bool)
    requires Inv(s) && Enabled(s, Pop(binaryFound))
    ensures Measure(Next(s, Pop(binaryFound))) < Measure(s)
  {
    var s' := Next(s, Pop(binaryFound));
    QueueKnown(s);
    StepTimeouts(s, Pop(binaryFound));
    assert s'.queue == s.queue[1..];
    QueueCostFrame(s, s', s.queue[1..]);
  }

  // A step of the worker leaves the queue, the service and the set of jobs alone and ends at cost c or below.
  ghost predicate Settles(s: State, s': State, c: nat) {
    WorkerCost(s') <= c && s'.queue == s.queue && s'.service == s.service && s'.jobs.Keys == s.jobs.Keys
  }

  lemma FinishSettles(s: State, id: Id, status: Status, next: Worker)
    requires id in s.jobs && (next.Idle? || next.Gone?)
    ensures Settles(s, Finish(s, id, status, next), 1)
  {
  }

  lemma ConcludeSettles(s: State, id: Id, parsed: Option<RunResult>)
    requires id in s.jobs && id in s.processes && s.processes[id].Some?
    ensures Settles(s, Conclude(s, id, parsed), 1)
  {
    var j := s.jobs[id].(exitCode := s.processes[id]);
    var s1 := Put(s, id, j);
    var s2 := Put(s, id, j.(result := parsed));
    assert s1.jobs.Keys == s.jobs.Keys && s2.jobs.Keys == s.jobs.Keys;
    if id in s.cancelled {
      FinishSettles(s1, id, Cancelled, Idle);
    } else if j.status.TimedOut? || j.status.Failed? {
      FinishSettles(s1, id, j.status, Idle);
    } else if s.processes[id].value != 0 || parsed.None? {
      FinishSettles(s1, id, Failed, Idle);
    } else {
      FinishSettles(s2, id, if parsed.value.complete then Completed else Incomplete, Idle);
    }
  }

  lemma LoopSettles(s: State, id: Id, elapsed: nat, logFull: bool)
    requires id in s.jobs
    ensures var c := if elapsed <= s.jobs[id].timeout then 6 + s.jobs[id].timeout - elapsed else 4;
      Settles(s, LoopTop(s, id, elapsed, logFull), c)
  {
  }

  lemma InterruptDecreases(s: State)
    requires Enabled(s, Interrupt)
    ensures WorkerCost(s) > 0 && Settles(s, InterruptStep(s), WorkerCost(s) - 1)
  {
    if s.worker.Spawning? || (HasProcess(s.worker) && s.processes[s.worker.id].Some?) {
      FinishSettles(s, s.worker.id, Interrupted, Gone);
    }
  }

  lemma SpawnDecreases(s: State, ended: Option<int>, elapsed: nat, logFull: bool, parsed: Option<RunResult>)
    requires Enabled(s, SpawnOk(ended, elapsed, logFull, parsed))
    ensures WorkerCost(s) > 0 && Settles(s, SpawnOkStep(s, ended, elapsed, logFull, parsed), WorkerCost(s) - 1)
  {
    var t := s.worker.id;
    var s1 := s.(processes := s.processes[t := ended], spawned := s.spawned + {t});
    if ended.Some? {
      ConcludeSettles(s1, t, parsed);
    } else {
      LoopSettles(s1, t, elapsed, logFull);
    }
  }

  lemma PollDecreases(s: State, elapsed: nat, logFull: bool, parsed: Option<RunResult>)
    requires Enabled(s, PollWake(elapsed, logFull, parsed)) && ClockOk(s)
    ensures WorkerCost(s) > 0 && Settles(s, PollWakeStep(s, elapsed, logFull, parsed), WorkerCost(s) - 1)
  {
    if s.processes[s.worker.id].Some? {
      ConcludeSettles(s, s.worker.id, parsed);
    } else {
      LoopSettles(s, s.worker.id, elapsed, logFull);
    }
  }

  lemma WorkerDecreases(s: State, e: Event)
    requires ClockOk(s) && Enabled(s, e)
    requires e.SpawnFails? || e.SpawnOk? || e.PollWake? || e.StopDone? || e.Interrupt? || e.AbortDone?
    ensures WorkerCost(s) > 0 && Settles(s, Next(s, e), WorkerCost(s) - 1)
  {
    match e
    case SpawnFails => FinishSettles(s, s.worker.id, Failed, Idle);
    case SpawnOk(ended, elapsed, logFull, parsed) => SpawnDecreases(s, ended, elapsed, logFull, parsed);
    case PollWake(elapsed, logFull, parsed) => PollDecreases(s, elapsed, logFull, parsed);
    case StopDone(parsed) => ConcludeSettles(s, s.worker.id, parsed);
    case Interrupt => InterruptDecreases(s);
    case AbortDone => FinishSettles(s, s.worker.id, Interrupted, Gone);
  }

  lemma ExitDecreases(s: State, id: Id, code: int)
    requires Enabled(s, ProcessExit(id, code)) && s.processes.Keys == (if HasProcess(s.worker) then {s.worker.id} else {})
    ensures WorkerCost(Next(s, ProcessExit(id, code))) < WorkerCost(s)
  {
    assert id in s.processes.Keys;
  }

  lemma ServiceDecreases(s: State, e: Event)
    requires Enabled(s, e) && (e.Close? || e.CloseFinish?)
    ensures var s' := Next(s, e);
      s'.queue == s.queue && WorkerCost(s') <= WorkerCost(s) && s'.service != s.service && !s'.service.Open?
      && (s'.service.Closed? <==> s.service.Closing?) && (s'.service.Closing? <==> s.service.Open?)
  {
  }

  lemma QueueCostKept(s: State, e: Event)
    requires Inv(s) && Enabled(s, e) && !e.Restart?
    ensures QueueCost(Next(s, e), s.queue) == QueueCost(s, s.queue)
  {
    QueueKnown(s);
    StepTimeouts(s, e);
    QueueCostFrame(s, Next(s, e), s.queue);
  }

  lemma ProgressDecreases(s: State, e: Event)
    requires Inv(s) && Enabled(s, e) && Progressing(e)
    ensures Measure(Next(s, e)) < Measure(s)
  {
    ClockInv(s);
    if e.Pop? {
      PopDecreases(s, e.binaryFound);
    } else {
      QueueCostKept(s, e);
      if e.Close? || e.CloseFinish? {
        ServiceDecreases(s, e);
      } else if e.ProcessExit? {
        ExitDecreases(s, e.id, e.code);
      } else {
        WorkerDecreases(s, e);
      }
    }
  }

  lemma CancelLeavesWorker(s: State, id: Id)
    ensures var s' := CancelStep(s, id);
      s'.queue == s.queue && s'.service == s.service && s'.worker == s.worker && s'.processes == s.processes
  {
  }

  lemma SameWorkerCost(s: State, s': State)
    requires s'.worker == s.worker && s'.processes == s.processes && SameTimeouts(s, s') && s'.jobs.Keys == s.jobs.Keys
    ensures WorkerCost(s') == WorkerCost(s)
  {
  }

  lemma CancelCosts(s: State, e: Event)
    requires Inv(s) && Enabled(s, e) && (e.Cancel? || e.CancelResume?)
    ensures Measure(Next(s, e)) == Measure(s)
  {
    QueueCostKept(s, e);
    if e.Cancel? {
      CancelLeavesWorker(s, e.id);
    }
    StepTimeouts(s, e);
    SameWorkerCost(s, Next(s, e));
  }

  ghost predicate AllFinished(s: State) {
    forall id :: id in s.jobs ==> s.jobs[id].finished
  }

  // No job was submitted to a service that had already shut down.
  ghost predicate NoLateSubmission(s: State) {
    s.service.Closed? ==> AllFinished(s)
  }

  /** While a job is unfinished the service can always take a step of its own. */
  lemma NeverStuck(s: State) returns (e: Event)
    requires Inv(s) && NoLateSubmission(s) && !AllFinished(s)
    ensures Progressing(e) && Enabled(s, e)
  {
    var id :| id in s.jobs && !s.jobs[id].finished;
    assert JobOk(s, id);
    QueueKnown(s);
    match s.worker
    case Gone => e := CloseFinish;
    case Idle => e := Pop(true);
    case Spawning(_) => e := SpawnFails;
    case Polling(w, elapsed) =>
      e := PollWake(elapsed + 1, false, None);
    case Stopping(w) =>
      e := if s.processes[w].Some? then StopDone(None) else ProcessExit(w, 0);
    case Aborting(w) =>
      e := if s.processes[w].Some? then AbortDone else ProcessExit(w, 0);
  }

  predicate NoNewWork(es: seq<Event>) {
    forall i :: 0 <= i < |es| ==> !es[i].Submit? && !es[i].Restart?
  }

  function ProgressCount(es: seq<Event>): nat {
    if es == [] then 0 else (if Progressing(es[0]) then 1 else 0) + ProgressCount(es[1..])
  }

  lemma QuietJob(s: State, e: Event, id: Id)
    requires LocalOk(s, id) && ClockOk(s) && Enabled(s, e) && !e.Submit? && !e.Restart? && id in Next(s, e).jobs
    requires (id in s.jobs ==> s.jobs[id].finished) || e.CloseFinish?
    ensures Next(s, e).jobs[id].finished
  {
    if id in s.jobs && s.jobs[id].finished {
      EvolvesByStep(s, e, id);
    } else if !e.CloseFinish? {
      NoNewJob(s, e, id);
    }
  }

  lemma NoNewJob(s: State, e: Event, id: Id)
    requires Enabled(s, e) && !e.Submit? && !e.Restart? && id !in s.jobs && ClockOk(s)
    ensures id !in Next(s, e).jobs
  {
    if e.SpawnFails? || e.SpawnOk? || e.PollWake? || e.StopDone? || e.Interrupt? || e.AbortDone? {
      WorkerDecreases(s, e);
    }
  }

  lemma ClosedBefore(s: State, e: Event)
    requires Enabled(s, e) && ClockOk(s) && Next(s, e).service.Closed?
    ensures s.service.Closed? || e.CloseFinish?
  {
    if e.SpawnFails? || e.SpawnOk? || e.PollWake? || e.StopDone? || e.Interrupt? || e.AbortDone? {
      WorkerDecreases(s, e);
    }
  }

  lemma QuietStep(s: State, e: Event)
    requires Inv(s) && NoLateSubmission(s) && Enabled(s, e) && !e.Submit? && !e.Restart?
    ensures NoLateSubmission(Next(s, e))
  {
    if Next(s, e).service.Closed? {
      ClosedBefore(s, e);
      ClockInv(s);
      forall id | id in Next(s, e).jobs ensures Next(s, e).jobs[id].finished {
        InvLocal(s, id);
        QuietJob(s, e, id);
      }
    }
  }

  /** Without new submissions every run, cancels interleaved at will, takes at most
      `Measure` steps of its own; one that takes them all, or can take no more, has finished
      every job. */
  lemma {:induction false} EventuallyFinished(s: State, es: seq<Event>)
    requires Inv(s) && NoLateSubmission(s) && Runs(s, es) && NoNewWork(es)
    ensures ProgressCount(es) + Measure(After(s, es)) <= Measure(s)
    ensures (forall e :: Progressing(e) ==> !Enabled(After(s, es), e)) ==> AllFinished(After(s, es))
    ensures ProgressCount(es) == Measure(s) ==> AllFinished(After(s, es))
    decreases |es|
  {
    if es == [] {
      if !AllFinished(s) {
        var e := NeverStuck(s);
        ProgressDecreases(s, e);
      }
    } else {
      var s' := Next(s, es[0]);
      StepKeeps(s, es[0]);
      QuietStep(s, es[0]);
      if Progressing(es[0]) {
        ProgressDecreases(s, es[0]);
      } else {
        CancelCosts(s, es[0]);
      }
      assert NoNewWork(es[1..]);
      EventuallyFinished(s', es[1..]);
    }
  }
}
