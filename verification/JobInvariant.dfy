/** What every step of the job service keeps. */
module JobInvariant {
  import opened Wrappers
  import opened Sequences
  import opened JobProtocol

  // A result is present exactly when the status says so, the two agree, and the process ended well.
  predicate ResultMatches(j: Job) {
    && (j.result.Some? <==> j.status.Completed? || j.status.Incomplete?)
    && (j.result.Some? ==> (j.status.Completed? <==> j.result.value.complete) && j.exitCode == Some(0))
  }

  predicate RecordOk(j: Job) {
    ResultMatches(j) && (Terminal(j.status) <==> j.finished)
  }

  predicate PhaseOk(w: Worker, status: Status) {
    match w
    case Spawning(_) => status.Running? || status.Cancelling?
    case Polling(_, _) => status.Running? || status.Cancelling?
    case Stopping(_) => status.Cancelling? || status.TimedOut? || status.Failed?
    case Aborting(_) => status.Running? || status.Cancelling? || status.TimedOut? || status.Failed?
    case _ => false
  }

  predicate JobOk(s: State, id: Id)
    requires id in s.jobs
  {
    var j := s.jobs[id];
    var active := IsActive(s.worker, id);
    && ResultMatches(j)
    && id in s.disk
    && (j.finished ==> Terminal(j.status) && s.disk[id] == j && !active)
    && (s.disk[id].finished ==> j.finished)
    && (!j.finished ==> j.status.Queued? || active)
    && (j.status.Queued? ==> !j.finished && id in s.queue && !active)
    && (id in s.queue ==> j.status.Queued? || j.finished)
    && (active ==> PhaseOk(s.worker, j.status))
    && (active && s.worker.Polling? ==> s.worker.elapsed <= j.timeout)
    && (id in s.cancelled ==> j.finished || j.status.Cancelling?)
    && (j.status.Cancelling? ==> id in s.cancelled)
    && (id in s.waiting ==> j.finished || j.status.Cancelling?)
    && (j.status.Queued? ==> id !in s.spawned)
  }

  ghost predicate JobsOk(s: State) {
    forall id :: id in s.jobs ==> JobOk(s, id)
  }

  ghost predicate DiskOk(s: State) {
    forall id :: id in s.disk ==> RecordOk(s.disk[id])
  }

  ghost predicate WorkerOk(s: State) {
    && (forall id :: IsActive(s.worker, id) ==> id in s.jobs)
    && s.processes.Keys == (if HasProcess(s.worker) then {s.worker.id} else {})
    && (s.worker.Gone? || s.worker.Aborting? ==> !s.service.Open?)
    && (s.service.Closed? ==> s.worker.Gone?)
  }

  ghost predicate QueueOk(s: State) {
    && NoRepeats(s.submitted)
    && s.submitted == s.popped + s.queue
    && (forall id :: id in s.submitted ==> id in s.jobs)
    && Subsequence(s.launched, s.popped)
  }

  // a is b with some elements left out.
  predicate Subsequence(a: seq<Id>, b: seq<Id>)
    decreases |b|
  {
    if a == [] then true
    else if b == [] then false
    else if a[|a| - 1] == b[|b| - 1] then Subsequence(a[..|a| - 1], b[..|b| - 1])
    else Subsequence(a, b[..|b| - 1])
  }

  ghost predicate Inv(s: State) {
    && s.cancelled <= s.jobs.Keys && s.spawned <= s.disk.Keys
    && (forall id :: id in s.waiting ==> id in s.jobs)
    && WorkerOk(s)
    && QueueOk(s)
    && JobsOk(s)
    && DiskOk(s)
    && |Pending(s.jobs)| <= MAX_PENDING
  }

  lemma EmptyInv()
    ensures Inv(EmptyState())
  {
    assert Pending(map[]) == {};
  }

  // ---- queue bookkeeping

  lemma SubsequenceAppendRight(a: seq<Id>, b: seq<Id>, id: Id)
    requires Subsequence(a, b)
    ensures Subsequence(a, b + [id])
    decreases |b|, 1
  {
    assert (b + [id])[..|b|] == b;
    if a != [] && a[|a| - 1] == id {
      SubsequenceDropLast(a, b);
    }
  }

  lemma SubsequenceDropLast(a: seq<Id>, b: seq<Id>)
    requires Subsequence(a, b) && a != []
    ensures Subsequence(a[..|a| - 1], b)
    decreases |b|, 0
  {
    var a', b' := a[..|a| - 1], b[..|b| - 1];
    assert b == b' + [b[|b| - 1]];
    if a[|a| - 1] == b[|b| - 1] {
      SubsequenceAppendRight(a', b', b[|b| - 1]);
    } else {
      SubsequenceDropLast(a, b');
      SubsequenceAppendRight(a', b', b[|b| - 1]);
    }
  }

  lemma SubsequenceAppendBoth(a: seq<Id>, b: seq<Id>, id: Id)
    requires Subsequence(a, b)
    ensures Subsequence(a + [id], b + [id])
  {
    assert (a + [id])[..|a|] == a;
    assert (b + [id])[..|b|] == b;
  }

  // ---- one job changes

  // A job that nothing touched stays in order.
  lemma JobFrame(s: State, s': State, o: Id)
    requires o in s.jobs && JobOk(s, o)
    requires o in s'.jobs && s'.jobs[o] == s.jobs[o] && o in s'.disk && s'.disk[o] == s.disk[o]
    requires o in s'.queue <==> o in s.queue
    requires o in s'.cancelled <==> o in s.cancelled
    requires o in s'.waiting <==> o in s.waiting
    requires o in s'.spawned ==> o in s.spawned
    requires IsActive(s'.worker, o) <==> IsActive(s.worker, o)
    requires IsActive(s'.worker, o) ==> s'.worker == s.worker
    ensures JobOk(s', o)
  {
  }

  // The invariant for every job but `id`.
  ghost predicate InvBut(s: State, id: Id) {
    && id in s.jobs
    && s.cancelled <= s.jobs.Keys && s.spawned <= s.disk.Keys
    && (forall o :: o in s.waiting ==> o in s.jobs)
    && (forall o :: IsActive(s.worker, o) ==> o == id)
    && s.processes.Keys <= {id}
    && !s.service.Closed?
    && QueueOk(s)
    && id !in s.queue
    && (forall o :: o in s.jobs && o != id ==> JobOk(s, o))
    && DiskOk(s)
    && |Pending(s.jobs)| <= MAX_PENDING
  }

  lemma ActiveInvBut(s: State, id: Id)
    requires Inv(s) && IsActive(s.worker, id)
    ensures InvBut(s, id)
  {
    assert JobOk(s, id);
  }

  lemma PendingShrinks(jobs: map<Id, Job>, id: Id, j: Job)
    requires id in jobs && (Terminal(j.status) || !Terminal(jobs[id].status))
    ensures |Pending(jobs[id := j])| <= |Pending(jobs)|
  {
    assert Pending(jobs[id := j]) <= Pending(jobs);
    SubsetSize(Pending(jobs[id := j]), Pending(jobs));
  }

  lemma SubsetSize<T>(a: set<T>, b: set<T>)
    requires a <= b
    ensures |a| <= |b|
  {
    assert b == a + (b - a);
  }

  // The job ends: it gets a terminal, finished record, saved, and the worker moves on.
  lemma EndJob(s: State, id: Id, j: Job, next: Worker, s': State)
    requires InvBut(s, id)
    requires RecordOk(j) && j.finished && (next.Idle? || (next.Gone? && s.service.Closing?))
    requires s' == s.(jobs := s.jobs[id := j], disk := s.disk[id := j], processes := s.processes - {id},
                      cancelled := s.cancelled - {id}, worker := next)
    ensures Inv(s')
  {
    forall o | o in s'.jobs ensures JobOk(s', o) {
      assert o != id ==> JobOk(s, o);
    }
    PendingShrinks(s.jobs, id, j);
  }

  // The job stays with the worker, in memory only.
  lemma StepJob(s: State, id: Id, j: Job, s': State)
    requires InvBut(s, id)
    requires IsActive(s'.worker, id) && PhaseOk(s'.worker, j.status) && !j.finished && j.result.None?
    requires id in s.disk && !s.disk[id].finished
    requires Terminal(j.status) || !Terminal(s.jobs[id].status)
    requires j.status.Cancelling? <==> id in s.cancelled
    requires id in s.waiting ==> j.status.Cancelling?
    requires s'.processes.Keys == (if HasProcess(s'.worker) then {id} else {})
    requires s' == s.(jobs := s.jobs[id := j], processes := s'.processes, worker := s'.worker)
    requires s'.worker.Aborting? ==> s.service.Closing?
    requires s'.worker.Polling? ==> s'.worker.elapsed <= j.timeout
    ensures Inv(s')
  {
    forall o | o in s'.jobs ensures JobOk(s', o) {
      assert o != id ==> JobOk(s, o);
    }
    PendingShrinks(s.jobs, id, j);
  }

  lemma FinishKeeps(s: State, id: Id, status: Status, next: Worker)
    requires InvBut(s, id) && (next.Idle? || (next.Gone? && s.service.Closing?))
    requires RecordOk(s.jobs[id].(status := status, finished := true))
    ensures Inv(Finish(s, id, status, next))
  {
    EndJob(s, id, s.jobs[id].(status := status, finished := true), next, Finish(s, id, status, next));
  }

  lemma PutInvBut(s: State, id: Id, j: Job)
    requires InvBut(s, id) && (Terminal(j.status) || !Terminal(s.jobs[id].status))
    ensures InvBut(Put(s, id, j), id)
  {
    var s' := Put(s, id, j);
    forall o | o in s'.jobs && o != id ensures JobOk(s', o) {
      assert JobOk(s, o);
    }
    PendingShrinks(s.jobs, id, j);
  }

  lemma ConcludeKeeps(s: State, id: Id, parsed: Option<RunResult>)
    requires InvBut(s, id) && id in s.processes && s.processes[id].Some?
    requires s.jobs[id].result.None?
    ensures Inv(Conclude(s, id, parsed))
  {
    var code := s.processes[id].value;
    var j := s.jobs[id].(exitCode := Some(code));
    PutInvBut(s, id, j);
    var s1 := Put(s, id, j);
    if id in s.cancelled {
      FinishKeeps(s1, id, Cancelled, Idle);
    } else if j.status.TimedOut? || j.status.Failed? {
      FinishKeeps(s1, id, j.status, Idle);
    } else if code != 0 || parsed.None? {
      FinishKeeps(s1, id, Failed, Idle);
    } else {
      PutInvBut(s, id, j.(result := parsed));
      FinishKeeps(Put(s, id, j.(result := parsed)), id, if parsed.value.complete then Completed else Incomplete, Idle);
    }
  }

  lemma LoopTopKeeps(s: State, id: Id, elapsed: nat, logFull: bool)
    requires InvBut(s, id) && id in s.disk && !s.disk[id].finished
    requires var j := s.jobs[id];
      && (j.status.Running? || j.status.Cancelling?) && !j.finished && j.result.None?
      && (j.status.Cancelling? <==> id in s.cancelled)
      && (id in s.waiting ==> j.status.Cancelling?)
    requires s.processes.Keys == {id}
    ensures Inv(LoopTop(s, id, elapsed, logFull))
  {
    var s' := LoopTop(s, id, elapsed, logFull);
    assert s.jobs[id := s.jobs[id]] == s.jobs;
    StepJob(s, id, s'.jobs[id], s');
  }

  lemma SubmitQueue(s: State, id: Id, s': State)
    requires QueueOk(s) && id !in s.jobs && id in s'.jobs && s.jobs.Keys <= s'.jobs.Keys
    requires s'.submitted == s.submitted + [id] && s'.queue == s.queue + [id]
    requires s'.popped == s.popped && s'.launched == s.launched
    ensures QueueOk(s')
  {
    assert s'.submitted == s'.popped + s'.queue;
  }

  lemma SubmitJobs(s: State, id: Id, j: Job, s': State)
    requires JobsOk(s) && id !in s.disk && id !in s.jobs && j.status.Queued? && !j.finished && j.result.None?
    requires s.cancelled <= s.jobs.Keys && id !in s.waiting && !IsActive(s.worker, id) && id !in s.spawned
    requires s' == s.(jobs := s.jobs[id := j], disk := s.disk[id := j],
                      queue := s.queue + [id], submitted := s.submitted + [id])
    ensures JobsOk(s')
  {
    forall o | o in s'.jobs ensures JobOk(s', o) {
      if o != id {
        JobFrame(s, s', o);
      }
    }
  }

  lemma SubmitPending(jobs: map<Id, Job>, id: Id, j: Job)
    requires id !in jobs
    ensures |Pending(jobs[id := j])| <= |Pending(jobs)| + 1
  {
    SubsetSize(Pending(jobs[id := j]), Pending(jobs) + {id});
  }

  lemma SubmitAccepted(s: State, id: Id, j: Job, s': State)
    requires Inv(s) && id !in s.disk && id !in s.jobs && j == NewJob(j.timeout)
    requires |Pending(s.jobs)| < MAX_PENDING
    requires s' == s.(jobs := s.jobs[id := j], disk := s.disk[id := j],
                      queue := s.queue + [id], submitted := s.submitted + [id])
    ensures Inv(s')
  {
    SubmitJobs(s, id, j, s');
    SubmitPending(s.jobs, id, j);
    SubmitQueue(s, id, s');
  }

  lemma SubmitKeeps(s: State, id: Id, timeout: nat, binaryFound: bool, prepared: bool)
    requires Inv(s) && id !in s.disk && id !in s.jobs
    ensures Inv(SubmitStep(s, id, timeout, binaryFound, prepared))
  {
    if binaryFound && |Pending(s.jobs)| < MAX_PENDING && prepared {
      SubmitAccepted(s, id, NewJob(timeout), SubmitStep(s, id, timeout, binaryFound, prepared));
    }
  }

  lemma QueueFrame(s: State, s': State)
    requires QueueOk(s) && s'.jobs.Keys >= s.jobs.Keys
    requires s'.submitted == s.submitted && s'.popped == s.popped && s'.queue == s.queue && s'.launched == s.launched
    ensures QueueOk(s')
  {
  }

  // Cancelling touches one job; the three accepted cases.
  ghost predicate CancelsJob(s: State, id: Id, j: Job, s': State)
    requires id in s.jobs
  {
    && !Terminal(s.jobs[id].status)
    && s' == s.(jobs := s.jobs[id := j], cancelled := s.cancelled + {id}, waiting := s'.waiting, disk := s'.disk)
    && (s'.disk == s.disk || s'.disk == s.disk[id := j])
    && (s'.waiting == s.waiting || s'.waiting == s.waiting + multiset{id})
    && (if s.jobs[id].status.Queued?
        then j == s.jobs[id].(status := Cancelled, finished := true) && s'.disk == s.disk[id := j] && s'.waiting == s.waiting
        else j == s.jobs[id].(status := Cancelling))
  }

  lemma CancelJobs(s: State, id: Id, j: Job, s': State)
    requires JobsOk(s) && id in s.jobs && CancelsJob(s, id, j, s')
    ensures JobsOk(s')
  {
    assert JobOk(s, id);
    forall o | o in s'.jobs ensures JobOk(s', o) {
      if o != id {
        JobFrame(s, s', o);
      }
    }
  }

  lemma CancelDisk(s: State, id: Id, j: Job, s': State)
    requires JobsOk(s) && DiskOk(s) && id in s.jobs && CancelsJob(s, id, j, s')
    ensures DiskOk(s')
  {
    assert JobOk(s, id);
  }

  lemma CancelJob(s: State, id: Id, j: Job, s': State)
    requires Inv(s) && id in s.jobs && CancelsJob(s, id, j, s')
    ensures Inv(s')
  {
    CancelJobs(s, id, j, s');
    CancelDisk(s, id, j, s');
    QueueFrame(s, s');
    PendingShrinks(s.jobs, id, j);
  }

  lemma CancelKeeps(s: State, id: Id)
    requires Inv(s)
    ensures Inv(CancelStep(s, id))
  {
    if id in s.jobs && !Terminal(s.jobs[id].status) {
      var s' := CancelStep(s, id);
      CancelJob(s, id, s'.jobs[id], s');
    }
  }

  lemma CancelResumeJobs(s: State, id: Id, s': State)
    requires JobsOk(s) && id in s.jobs && id in s.waiting
    requires s' == s.(disk := s.disk[id := s.jobs[id]], waiting := s.waiting - multiset{id})
    ensures JobsOk(s') && RecordOk(s.jobs[id])
  {
    assert JobOk(s, id);
    forall o | o in s'.jobs ensures JobOk(s', o) {
      if o != id {
        JobFrame(s, s', o);
      }
    }
  }

  lemma CancelResumeKeeps(s: State, id: Id)
    requires Inv(s) && Enabled(s, CancelResume(id))
    ensures Inv(Next(s, CancelResume(id)))
  {
    var s' := Next(s, CancelResume(id));
    CancelResumeJobs(s, id, s');
    QueueFrame(s, s');
  }

  lemma PopSkips(s: State, s': State)
    requires Inv(s) && s.queue != [] && !s.jobs[s.queue[0]].status.Queued?
    requires s' == s.(queue := s.queue[1..], popped := s.popped + [s.queue[0]])
    ensures Inv(s')
  {
    PoppedQueue(s);
    SubsequenceAppendRight(s.launched, s.popped, s.queue[0]);
    forall o | o in s'.jobs ensures JobOk(s', o) {
      assert JobOk(s, o);
      if o != s.queue[0] {
        JobFrame(s, s', o);
      }
    }
  }

  lemma PopStarts(s: State, j: Job, s2: State)
    requires Inv(s) && s.worker.Idle? && s.queue != [] && s.jobs[s.queue[0]].status.Queued?
    requires j == s.jobs[s.queue[0]].(status := Running, started := true)
    requires s2 == s.(jobs := s.jobs[s.queue[0] := j], queue := s.queue[1..],
                      popped := s.popped + [s.queue[0]], launched := s.launched + [s.queue[0]])
    ensures InvBut(s2, s.queue[0])
  {
    var id := s.queue[0];
    PoppedQueue(s);
    SubsequenceAppendBoth(s.launched, s.popped, id);
    forall o | o in s2.jobs && o != id ensures JobOk(s2, o) {
      JobFrame(s, s2, o);
    }
    PendingShrinks(s.jobs, id, j);
  }

  lemma PopRuns(s2: State, id: Id, s': State)
    requires InvBut(s2, id) && s2.worker.Idle? && s2.jobs[id].status.Running?
    requires !s2.jobs[id].finished && s2.jobs[id].result.None? && id !in s2.cancelled && id !in s2.waiting
    requires s2.processes == map[]
    requires s' == s2.(worker := Spawning(id), disk := s2.disk[id := s2.jobs[id]])
    ensures Inv(s')
  {
    forall o | o in s'.jobs ensures JobOk(s', o) {
      if o != id {
        JobFrame(s2, s', o);
      }
    }
  }

  lemma PopKeeps(s: State, binaryFound: bool)
    requires Inv(s) && Enabled(s, Pop(binaryFound))
    ensures Inv(PopStep(s, binaryFound))
  {
    var id := s.queue[0];
    var s' := PopStep(s, binaryFound);
    assert JobOk(s, id);
    if !s.jobs[id].status.Queued? {
      PopSkips(s, s');
    } else {
      var j := s.jobs[id].(status := Running, started := true);
      var s2 := s.(jobs := s.jobs[id := j], queue := s.queue[1..],
                   popped := s.popped + [id], launched := s.launched + [id]);
      PopStarts(s, j, s2);
      if binaryFound {
        PopRuns(s2, id, s');
      } else {
        FinishKeeps(s2, id, Failed, Idle);
      }
    }
  }

  // Taking the head off the queue.
  lemma PoppedQueue(s: State)
    requires QueueOk(s) && s.queue != []
    ensures s.submitted == (s.popped + [s.queue[0]]) + s.queue[1..]
    ensures s.queue[0] !in s.queue[1..]
    ensures forall o :: o in s.queue ==> o == s.queue[0] || o in s.queue[1..]
  {
    var n := |s.popped|;
    forall i | 1 <= i < |s.queue| ensures s.queue[i] != s.queue[0] {
      assert s.submitted[n] == s.queue[0] && s.submitted[n + i] == s.queue[i];
    }
  }

  lemma CloseJob(s: State, o: Id)
    requires Inv(s) && s.worker.Gone? && o in s.jobs
    ensures JobOk(CloseFinishStep(s), o)
  {
    assert JobOk(s, o);
    var s' := CloseFinishStep(s);
    assert s'.jobs[o] == Recover(s.jobs[o]);
    assert s'.disk[o] == if Terminal(s.jobs[o].status) then s.disk[o] else Recover(s.jobs[o]);
  }

  lemma CloseJobs(s: State)
    requires Inv(s) && s.worker.Gone?
    ensures JobsOk(CloseFinishStep(s))
  {
    forall o | o in CloseFinishStep(s).jobs ensures JobOk(CloseFinishStep(s), o) {
      CloseJob(s, o);
    }
  }

  lemma NothingPending(jobs: map<Id, Job>)
    requires forall o :: o in jobs ==> Terminal(jobs[o].status)
    ensures |Pending(jobs)| == 0
  {
    assert Pending(jobs) == {};
  }

  lemma CloseDisk(s: State)
    requires JobsOk(s) && DiskOk(s)
    ensures DiskOk(CloseFinishStep(s))
  {
    var s' := CloseFinishStep(s);
    forall o | o in s'.disk ensures RecordOk(s'.disk[o]) {
      if o in s.jobs {
        assert JobOk(s, o);
      }
    }
  }

  lemma CloseFinishKeeps(s: State)
    requires Inv(s) && s.worker.Gone?
    ensures Inv(CloseFinishStep(s))
  {
    var s' := CloseFinishStep(s);
    assert s'.jobs.Keys == s.jobs.Keys;
    CloseJobs(s);
    CloseDisk(s);
    QueueFrame(s, s');
    NothingPending(s'.jobs);
  }

  lemma RestartJobs(s: State, loaded: set<Id>)
    requires DiskOk(s) && loaded <= s.disk.Keys
    ensures JobsOk(RestartStep(s, loaded)) && DiskOk(RestartStep(s, loaded))
  {
    var s' := RestartStep(s, loaded);
    forall o | o in s'.jobs ensures JobOk(s', o) {
      assert RecordOk(s.disk[o]);
      assert s'.jobs[o] == Recover(s.disk[o]) == s'.disk[o];
    }
  }

  lemma RestartKeeps(s: State, loaded: set<Id>)
    requires Inv(s) && loaded <= s.disk.Keys
    ensures Inv(RestartStep(s, loaded))
  {
    RestartJobs(s, loaded);
    NothingPending(RestartStep(s, loaded).jobs);
  }

  lemma IdleGone(s: State)
    requires Inv(s) && s.worker.Idle? && s.service.Closing?
    ensures Inv(s.(worker := Gone))
  {
    var s' := s.(worker := Gone);
    forall o | o in s'.jobs ensures JobOk(s', o) {
      JobFrame(s, s', o);
    }
  }

  lemma SpawnOkKeeps(s: State, ended: Option<int>, elapsed: nat, logFull: bool, parsed: Option<RunResult>)
    requires Inv(s) && s.worker.Spawning?
    ensures Inv(SpawnOkStep(s, ended, elapsed, logFull, parsed))
  {
    var id := s.worker.id;
    ActiveInvBut(s, id);
    assert JobOk(s, id);
    var s1 := s.(processes := s.processes[id := ended], spawned := s.spawned + {id});
    forall o | o in s1.jobs && o != id ensures JobOk(s1, o) {
      JobFrame(s, s1, o);
    }
    if ended.Some? {
      ConcludeKeeps(s1, id, parsed);
    } else {
      LoopTopKeeps(s1, id, elapsed, logFull);
    }
  }

  lemma InterruptKeeps(s: State)
    requires Inv(s) && Enabled(s, Interrupt)
    ensures Inv(InterruptStep(s))
  {
    if s.worker.Idle? {
      IdleGone(s);
    } else {
      var id := s.worker.id;
      ActiveInvBut(s, id);
      assert JobOk(s, id);
      if s.worker.Spawning? || s.processes[id].Some? {
        FinishKeeps(s, id, Interrupted, Gone);
      } else {
        assert s.jobs[id := s.jobs[id]] == s.jobs;
        StepJob(s, id, s.jobs[id], s.(worker := Aborting(id)));
      }
    }
  }

  lemma WorkerKeeps(s: State, e: Event)
    requires Inv(s) && Enabled(s, e)
    requires e.SpawnFails? || e.PollWake? || e.StopDone? || e.AbortDone?
    ensures Inv(Next(s, e))
  {
    var id := s.worker.id;
    ActiveInvBut(s, id);
    assert JobOk(s, id);
    match e
    case SpawnFails =>
      FinishKeeps(s, id, Failed, Idle);
    case PollWake(elapsed, logFull, parsed) =>
      if s.processes[id].Some? {
        ConcludeKeeps(s, id, parsed);
      } else {
        LoopTopKeeps(s, id, elapsed, logFull);
      }
    case StopDone(parsed) =>
      ConcludeKeeps(s, id, parsed);
    case AbortDone =>
      FinishKeeps(s, id, Interrupted, Gone);
  }

  lemma OtherKeeps(s: State, e: Event)
    requires Inv(s) && Enabled(s, e) && (e.ProcessExit? || e.Close?)
    ensures Inv(Next(s, e))
  {
    var s' := Next(s, e);
    forall o | o in s'.jobs ensures JobOk(s', o) {
      assert JobOk(s, o);
    }
  }

  /** Every step of every interleaving keeps the invariant. */
  lemma StepKeeps(s: State, e: Event)
    requires Inv(s) && Enabled(s, e)
    ensures Inv(Next(s, e))
  {
    match e
    case Submit(newId, timeout, binaryFound, prepared) => SubmitKeeps(s, newId, timeout, binaryFound, prepared);
    case Cancel(id) => CancelKeeps(s, id);
    case CancelResume(id) => CancelResumeKeeps(s, id);
    case Pop(binaryFound) => PopKeeps(s, binaryFound);
    case ProcessExit(_, _) => OtherKeeps(s, e);
    case Close => OtherKeeps(s, e);
    case CloseFinish => CloseFinishKeeps(s);
    case SpawnOk(ended, elapsed, logFull, parsed) => SpawnOkKeeps(s, ended, elapsed, logFull, parsed);
    case Interrupt => InterruptKeeps(s);
    case Restart(loaded) => RestartKeeps(s, loaded);
    case _ => WorkerKeeps(s, e);
  }
}
