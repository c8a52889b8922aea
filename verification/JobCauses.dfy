/** Why a job's status changes: each status is entered only by the events that mean it. */
module JobCauses {
  import opened Wrappers
  import opened JobProtocol
  import opened JobInvariant
  import opened JobTheorems

  // The return code the worker is about to see for the job, if its process has ended.
  function EndCode(s: State, e: Event, id: Id): Option<int> {
    if e.SpawnOk? && s.worker == Spawning(id) then e.ended
    else if ((e.PollWake? && s.worker.Polling?) || (e.StopDone? && s.worker.Stopping?)) && s.worker.id == id
            && id in s.processes then s.processes[id]
    else None
  }

  predicate EndSeen(s: State, e: Event, id: Id) { EndCode(s, e, id).Some? }

  function ParsedBy(e: Event): Option<RunResult> {
    if e.PollWake? || e.StopDone? || e.SpawnOk? then e.parsed else None
  }

  // The worker is at the top of the polling loop of a running job nobody has cancelled.
  predicate Watched(s: State, e: Event, id: Id)
    requires id in s.jobs
  {
    && (e.SpawnOk? || e.PollWake?) && IsActive(s.worker, id) && id !in s.cancelled
    && !EndSeen(s, e, id) && s.jobs[id].status.Running?
  }

  // The worker's task is cancelled where nothing is left to wait for.
  predicate CutShort(s: State, e: Event, id: Id) {
    && IsActive(s.worker, id)
    && (e.AbortDone? || (e.Interrupt? && (s.worker.Spawning? || (id in s.processes && s.processes[id].Some?))))
  }

  function ElapsedBy(e: Event): nat {
    if e.SpawnOk? || e.PollWake? then e.elapsed else 0
  }

  predicate LogFull(e: Event) { (e.SpawnOk? || e.PollWake?) && e.logFull }

  /** What must happen for the job to enter the status. */
  predicate Cause(s: State, e: Event, id: Id, status: Status)
    requires id in s.jobs
  {
    var was := s.jobs[id].status;
    match status
    case Queued => false
    case Running => e.Pop? && e.binaryFound && s.queue != [] && s.queue[0] == id && was.Queued?
    case Cancelling => e == Cancel(id) && was.Running?
    case Completed =>
      && id !in s.cancelled && was.Running? && EndCode(s, e, id) == Some(0)
      && ParsedBy(e).Some? && ParsedBy(e).value.complete
    case Incomplete =>
      && id !in s.cancelled && was.Running? && EndCode(s, e, id) == Some(0)
      && ParsedBy(e).Some? && !ParsedBy(e).value.complete
    case TimedOut => Watched(s, e, id) && ElapsedBy(e) > s.jobs[id].timeout
    case Cancelled =>
      || (e == Cancel(id) && was.Queued?)
      || (EndSeen(s, e, id) && id in s.cancelled)
    case Failed =>
      || (e.Pop? && !e.binaryFound && s.queue != [] && s.queue[0] == id && was.Queued?)
      || (e.SpawnFails? && IsActive(s.worker, id))
      || (Watched(s, e, id) && ElapsedBy(e) <= s.jobs[id].timeout && LogFull(e))
      || (EndSeen(s, e, id) && id !in s.cancelled && was.Running? && (EndCode(s, e, id) != Some(0) || ParsedBy(e).None?))
    case Interrupted =>
      || (e.CloseFinish? && !Terminal(was))
      || CutShort(s, e, id)
  }

  /** The status changes exactly for its causes; an ended run leaves its exit code, a parsed one its
      result, a started one its mark, and the time-out never changes. */
  ghost predicate Explained(s: State, e: Event, s': State, id: Id)
    requires id in s.jobs
  {
    && id in s'.jobs
    && (s'.jobs[id].status == s.jobs[id].status || Cause(s, e, id, s'.jobs[id].status))
    && (forall x: Status :: Cause(s, e, id, x) ==> s'.jobs[id].status == x)
    && (EndSeen(s, e, id) ==> s'.jobs[id].exitCode == EndCode(s, e, id) && s'.jobs[id].finished)
    && (Cause(s, e, id, Completed) || Cause(s, e, id, Incomplete) ==> s'.jobs[id].result == ParsedBy(e))
    && (Cause(s, e, id, Running) ==> s'.jobs[id].started)
    && s'.jobs[id].timeout == s.jobs[id].timeout
  }

  // One lemma per event, each about any one job.

  lemma SpawnOkExplained(s: State, e: Event, id: Id)
    requires id in s.jobs && JobOk(s, id) && Enabled(s, e) && e.SpawnOk?
    ensures Explained(s, e, SpawnOkStep(s, e.ended, e.elapsed, e.logFull, e.parsed), id)
  {
    var t := s.worker.id;
    var s1 := s.(processes := s.processes[t := e.ended], spawned := s.spawned + {t});
    if e.ended.Some? {
      ConcludeExplained(s, s1, e, t, id);
    } else {
      LoopExplained(s, s1, e, t, id);
    }
  }

  predicate WorkerEvent(e: Event) {
    e.SpawnOk? || e.PollWake? || e.StopDone?
  }

  // A step of the worker is about the job it executes and about no other.
  lemma OtherExplained(s: State, e: Event, s': State, t: Id, id: Id)
    requires id in s.jobs && WorkerEvent(e) && IsActive(s.worker, t) && t != id
    requires id in s'.jobs && s'.jobs[id] == s.jobs[id]
    ensures Explained(s, e, s', id)
  {
  }

  // s1 is s, possibly with the process just created.
  lemma ConcludeExplained(s: State, s1: State, e: Event, t: Id, id: Id)
    requires id in s.jobs && JobOk(s, id) && t in s.jobs && EndSeen(s, e, t) && Enabled(s, e)
    requires s1.jobs == s.jobs && s1.cancelled == s.cancelled && t in s1.processes && s1.processes[t] == EndCode(s, e, t)
    ensures Explained(s, e, Conclude(s1, t, ParsedBy(e)), id)
  {
    if id == t {
      ConcludeOwn(s, s1, e, id);
    } else {
      OtherExplained(s, e, Conclude(s1, t, ParsedBy(e)), t, id);
    }
  }

  lemma ConcludeOwn(s: State, s1: State, e: Event, id: Id)
    requires id in s.jobs && JobOk(s, id) && EndSeen(s, e, id)
    requires s1.jobs == s.jobs && s1.cancelled == s.cancelled && id in s1.processes && s1.processes[id] == EndCode(s, e, id)
    ensures Explained(s, e, Conclude(s1, id, ParsedBy(e)), id)
  {
    if id in s.cancelled {
      assert s.jobs[id].status.Cancelling?;
      ConcludedAs(s, s1, e, id, Cancelled);
    } else if s.jobs[id].status.Running? {
      ConcludedAs(s, s1, e, id,
        if EndCode(s, e, id) != Some(0) || ParsedBy(e).None? then Failed
        else if ParsedBy(e).value.complete then Completed else Incomplete);
    } else {
      assert s.jobs[id].status.TimedOut? || s.jobs[id].status.Failed?;
    }
  }

  lemma ConcludedAs(s: State, s1: State, e: Event, id: Id, status: Status)
    requires id in s.jobs && JobOk(s, id) && EndSeen(s, e, id)
    requires s1.jobs == s.jobs && s1.cancelled == s.cancelled && id in s1.processes && s1.processes[id] == EndCode(s, e, id)
    requires if id in s.cancelled then status.Cancelled?
      else s.jobs[id].status.Running? && status == (if EndCode(s, e, id) != Some(0) || ParsedBy(e).None? then Failed
        else if ParsedBy(e).value.complete then Completed else Incomplete)
    ensures Explained(s, e, Conclude(s1, id, ParsedBy(e)), id)
  {
    var s' := Conclude(s1, id, ParsedBy(e));
    assert s'.jobs[id].status == status && s'.jobs[id].exitCode == EndCode(s, e, id) && s'.jobs[id].finished;
    assert Cause(s, e, id, status);
    assert forall x: Status :: Cause(s, e, id, x) ==> x == status;
  }

  lemma LoopExplained(s: State, s1: State, e: Event, t: Id, id: Id)
    requires id in s.jobs && JobOk(s, id) && t in s.jobs && (e.SpawnOk? || e.PollWake?) && Enabled(s, e)
    requires IsActive(s.worker, t) && !EndSeen(s, e, t)
    requires s1.jobs == s.jobs && s1.cancelled == s.cancelled
    ensures Explained(s, e, LoopTop(s1, t, e.elapsed, e.logFull), id)
  {
    if id == t {
      LoopOwn(s, s1, e, id);
    } else {
      OtherExplained(s, e, LoopTop(s1, t, e.elapsed, e.logFull), t, id);
    }
  }

  lemma LoopOwn(s: State, s1: State, e: Event, id: Id)
    requires id in s.jobs && JobOk(s, id) && (e.SpawnOk? || e.PollWake?) && Enabled(s, e)
    requires IsActive(s.worker, id) && !EndSeen(s, e, id)
    requires s1.jobs == s.jobs && s1.cancelled == s.cancelled
    ensures Explained(s, e, LoopTop(s1, id, e.elapsed, e.logFull), id)
  {
    assert s.jobs[id].status.Running? || s.jobs[id].status.Cancelling?;
    assert id in s.cancelled <==> s.jobs[id].status.Cancelling?;
  }

  lemma EndExplained(s: State, e: Event, id: Id)
    requires id in s.jobs && JobOk(s, id) && Enabled(s, e) && (e.SpawnFails? || e.AbortDone?)
    ensures Explained(s, e, Finish(s, s.worker.id, if e.SpawnFails? then Failed else Interrupted,
                                   if e.SpawnFails? then Idle else Gone), id)
  {
  }

  lemma InterruptExplained(s: State, e: Event, id: Id)
    requires id in s.jobs && JobOk(s, id) && Enabled(s, e) && e.Interrupt?
    ensures Explained(s, e, InterruptStep(s), id)
  {
  }

  lemma PopExplained(s: State, e: Event, id: Id)
    requires id in s.jobs && JobOk(s, id) && Enabled(s, e) && e.Pop?
    ensures Explained(s, e, PopStep(s, e.binaryFound), id)
  {
  }

  lemma CancelExplained(s: State, e: Event, id: Id)
    requires id in s.jobs && e.Cancel? && JobOk(s, id)
    ensures Explained(s, e, CancelStep(s, e.id), id)
  {
  }

  lemma CloseExplained(s: State, e: Event, id: Id)
    requires id in s.jobs && JobOk(s, id) && s.worker.Gone? && e.CloseFinish?
    ensures Explained(s, e, CloseFinishStep(s), id)
  {
  }

  lemma RequestExplained(s: State, e: Event, s': State, id: Id)
    requires id in s.jobs && (e.Submit? || e.CancelResume? || e.ProcessExit? || e.Close?)
    requires id in s'.jobs && s'.jobs[id] == s.jobs[id]
    ensures Explained(s, e, s', id)
  {
  }

  /** In every reachable state, whatever step comes next: a job enters a status exactly for the
      reason that the status names. */
  lemma StatusExplained(s: State, e: Event, id: Id)
    requires Inv(s) && Enabled(s, e) && !e.Restart? && id in s.jobs
    ensures Explained(s, e, Next(s, e), id)
  {
    assert JobOk(s, id);
    JobExplained(s, e, id);
  }

  lemma JobExplained(s: State, e: Event, id: Id)
    requires Enabled(s, e) && !e.Restart? && id in s.jobs && JobOk(s, id)
    ensures Explained(s, e, Next(s, e), id)
  {
    if e.Submit? || e.CancelResume? || e.ProcessExit? || e.Close? {
      RequestExplained(s, e, Next(s, e), id);
      return;
    }
    match e
    case Cancel(_) => CancelExplained(s, e, id);
    case Pop(_) => PopExplained(s, e, id);
    case SpawnOk(_, _, _, _) => SpawnOkExplained(s, e, id);
    case SpawnFails => EndExplained(s, e, id);
    case AbortDone => EndExplained(s, e, id);
    case Interrupt => InterruptExplained(s, e, id);
    case StopDone(_) => ConcludeExplained(s, s, e, s.worker.id, id);
    case PollWake(_, _, _) =>
      if s.processes[s.worker.id].Some? {
        ConcludeExplained(s, s, e, s.worker.id, id);
      } else {
        LoopExplained(s, s, e, s.worker.id, id);
      }
    case CloseFinish => CloseExplained(s, e, id);
    case _ =>
  }

  // ---- over whole runs

  /** Some step of the run was the cause of the status: the state before it is reached by the events
      before it. */
  ghost predicate CausedIn(s: State, es: seq<Event>, id: Id, status: Status)
    requires Runs(s, es)
    decreases |es|
  {
    es != []
    && ((id in s.jobs && Cause(s, es[0], id, status)) || CausedIn(Next(s, es[0]), es[1..], id, status))
  }

  predicate NoRestart(es: seq<Event>) {
    forall i :: 0 <= i < |es| ==> !es[i].Restart?
  }

  lemma NewlyQueued(s: State, e: Event, id: Id)
    requires Inv(s) && Enabled(s, e) && !e.Restart? && id !in s.jobs && id in Next(s, e).jobs
    ensures Next(s, e).jobs[id].status.Queued?
  {
    ClockInv(s);
    if !e.Submit? {
      NoNewJob(s, e, id);
    }
  }

  /** Whatever status a job has at the end of a run without a restart, it had it at the start, or it
      is still queued after its submission, or some step of the run caused exactly that status. */
  lemma {:induction false} StatusHasCause(s: State, es: seq<Event>, id: Id)
    requires Inv(s) && Runs(s, es) && NoRestart(es) && id in After(s, es).jobs
    ensures var status := After(s, es).jobs[id].status;
      (id in s.jobs && s.jobs[id].status == status) || status.Queued? || CausedIn(s, es, id, status)
    decreases |es|
  {
    if es != [] {
      StepKeeps(s, es[0]);
      if id in s.jobs {
        StatusExplained(s, es[0], id);
      } else if id in Next(s, es[0]).jobs {
        NewlyQueued(s, es[0], id);
      }
      StatusHasCause(Next(s, es[0]), es[1..], id);
    }
  }

  // ---- the submitted time-out, over whole runs

  /** Some step of the run found the job running at an elapsed time above the limit. */
  ghost predicate LateIn(s: State, es: seq<Event>, id: Id, limit: nat)
    requires Runs(s, es)
    decreases |es|
  {
    es != []
    && ((id in s.jobs && Watched(s, es[0], id) && ElapsedBy(es[0]) > limit) || LateIn(Next(s, es[0]), es[1..], id, limit))
  }

  lemma TimeoutStep(s: State, e: Event, id: Id)
    requires Inv(s) && Enabled(s, e) && !e.Restart? && id in s.jobs
    ensures id in Next(s, e).jobs && Next(s, e).jobs[id].timeout == s.jobs[id].timeout
    ensures Next(s, e).jobs[id].status.TimedOut? && !s.jobs[id].status.TimedOut? ==>
      Watched(s, e, id) && ElapsedBy(e) > s.jobs[id].timeout
  {
    StatusExplained(s, e, id);
    ExplainedTimeout(s, e, Next(s, e), id);
  }

  lemma ExplainedTimeout(s: State, e: Event, s': State, id: Id)
    requires id in s.jobs && Explained(s, e, s', id)
    ensures id in s'.jobs && s'.jobs[id].timeout == s.jobs[id].timeout
    ensures s'.jobs[id].status.TimedOut? && !s.jobs[id].status.TimedOut? ==>
      Watched(s, e, id) && ElapsedBy(e) > s.jobs[id].timeout
  {
  }

  lemma {:induction false} TimedOutOnlyLate(s: State, es: seq<Event>, id: Id)
    requires Inv(s) && Runs(s, es) && NoRestart(es) && id in s.jobs
    ensures id in After(s, es).jobs && After(s, es).jobs[id].timeout == s.jobs[id].timeout
    ensures After(s, es).jobs[id].status.TimedOut? && !s.jobs[id].status.TimedOut? ==>
      LateIn(s, es, id, s.jobs[id].timeout)
    decreases |es|
  {
    if es != [] {
      StepKeeps(s, es[0]);
      TimeoutStep(s, es[0], id);
      TimedOutOnlyLate(Next(s, es[0]), es[1..], id);
    }
  }

  /** A job submitted with a time-out is timed out only after that time: whatever happens after the
      accepted submission, some step has seen it running longer. */
  lemma SubmittedTimeout(s: State, id: Id, timeout: nat, es: seq<Event>)
    requires Inv(s) && Enabled(s, Submit(id, timeout, true, true)) && |Pending(s.jobs)| < 16
    requires var s' := Next(s, Submit(id, timeout, true, true)); Runs(s', es) && NoRestart(es)
    ensures var s' := Next(s, Submit(id, timeout, true, true));
      && id in After(s', es).jobs
      && (After(s', es).jobs[id].status.TimedOut? ==> LateIn(s', es, id, timeout))
  {
    StepKeeps(s, Submit(id, timeout, true, true));
    TimedOutOnlyLate(Next(s, Submit(id, timeout, true, true)), es, id);
  }

  // ---- exit codes, over whole runs

  // Nothing but these entries of the process table is left.
  ghost predicate Kept(s: State, s': State) {
    forall o :: o in s'.processes ==> o in s.processes && s'.processes[o] == s.processes[o]
  }

  lemma FinishKept(s: State, s1: State, t: Id, status: Status, next: Worker)
    requires t in s1.jobs && s1.processes == s.processes
    ensures Kept(s, Finish(s1, t, status, next))
  {
  }

  lemma ConcludeKept(s: State, t: Id, parsed: Option<RunResult>)
    requires t in s.jobs && t in s.processes && s.processes[t].Some?
    ensures Kept(s, Conclude(s, t, parsed)) && t !in Conclude(s, t, parsed).processes
  {
  }

  lemma LoopKept(s: State, t: Id, elapsed: nat, logFull: bool)
    requires t in s.jobs
    ensures LoopTop(s, t, elapsed, logFull).processes == s.processes
  {
  }

  lemma SpawnCode(s: State, e: Event, id: Id, code: int)
    requires Enabled(s, e) && e.SpawnOk? && id in Next(s, e).processes && Next(s, e).processes[id] == Some(code)
    ensures id in s.processes && s.processes[id] == Some(code)
  {
    var t := s.worker.id;
    var s1 := s.(processes := s.processes[t := e.ended], spawned := s.spawned + {t});
    if e.ended.Some? {
      ConcludeKept(s1, t, e.parsed);
    } else {
      LoopKept(s1, t, e.elapsed, e.logFull);
    }
  }

  lemma OtherKept(s: State, e: Event)
    requires Enabled(s, e) && !e.SpawnOk? && !e.ProcessExit? && !e.Restart?
    ensures Kept(s, Next(s, e))
  {
    if e.PollWake? {
      if s.processes[s.worker.id].Some? {
        ConcludeKept(s, s.worker.id, e.parsed);
      } else {
        LoopKept(s, s.worker.id, e.elapsed, e.logFull);
      }
    } else if e.StopDone? {
      ConcludeKept(s, s.worker.id, e.parsed);
    }
  }

  lemma CodeStep(s: State, e: Event, id: Id, code: int)
    requires Enabled(s, e) && id in Next(s, e).processes && Next(s, e).processes[id] == Some(code)
    ensures (id in s.processes && s.processes[id] == Some(code)) || e == ProcessExit(id, code)
  {
    if e.SpawnOk? {
      SpawnCode(s, e, id, code);
    } else if !e.ProcessExit? && !e.Restart? {
      OtherKept(s, e);
    }
  }

  /** An exit code the service knows is the one the process ended with. */
  lemma {:induction false} CodeIsReal(s: State, es: seq<Event>, id: Id, code: int)
    requires Inv(s) && Runs(s, es) && id in After(s, es).processes && After(s, es).processes[id] == Some(code)
    ensures (id in s.processes && s.processes[id] == Some(code)) || ProcessExit(id, code) in es
    decreases |es|
  {
    if es != [] {
      StepKeeps(s, es[0]);
      CodeIsReal(Next(s, es[0]), es[1..], id, code);
      if id in Next(s, es[0]).processes && Next(s, es[0]).processes[id] == Some(code) {
        CodeStep(s, es[0], id, code);
      }
    }
  }

  // ---- what is saved

  /** A submission, the start of a run, a cancel that need not wait and the end of a wait leave the
      job's record saved as it is in memory. */
  lemma SavedAt(s: State, e: Event, id: Id)
    requires Inv(s) && Enabled(s, e) && id in Next(s, e).jobs
    requires
      || (e.Submit? && e.newId == id)
      || (e.Pop? && IsActive(Next(s, e).worker, id))
      || (e == Cancel(id) && id in s.jobs && !Terminal(s.jobs[id].status) && Next(s, e).waiting == s.waiting)
      || e == CancelResume(id)
    ensures id in Next(s, e).disk && Next(s, e).disk[id] == Next(s, e).jobs[id]
  {
  }

  /** Start-up reads the 500 newest records, or all if there are fewer. */
  lemma RestartReads(s: State, loaded: set<Id>)
    requires Enabled(s, Restart(loaded))
    ensures loaded <= s.disk.Keys && |loaded| == if |s.disk| < 500 then |s.disk| else 500
  {
  }
}
