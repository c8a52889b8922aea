/** The job service as the object the web lab runs: fields updated in place, one method per
    stretch of code between two `await`s.  Every method is proved to take exactly the step of
    the protocol it stands for, so the invariant and the theorems about runs are about this object. */
module JobService {
  import opened Wrappers
  import opened JobProtocol

  class SimulationService {
    var jobs: map<Id, Job>
    var queue: seq<Id>
    var cancelled: set<Id>
    var processes: map<Id, Option<int>>
    var worker: Worker
    var waiting: multiset<Id>
    var service: Service
    var disk: map<Id, Job>
    ghost var submitted: seq<Id>
    ghost var popped: seq<Id>
    ghost var launched: seq<Id>
    ghost var spawned: set<Id>

    ghost function Snapshot(): State
      reads this
    {
      State(jobs, queue, cancelled, processes, worker, waiting, service, disk, submitted, popped, launched, spawned)
    }

    constructor ()
      ensures Snapshot() == EmptyState()
    {
      jobs, queue, cancelled, processes, worker := map[], [], {}, map[], Idle;
      waiting, service, disk := multiset{}, Open, map[];
      submitted, popped, launched, spawned := [], [], [], {};
    }

    method Save(id: Id)
      requires id in jobs
      modifies this`disk
      ensures Snapshot() == JobProtocol.Save(old(Snapshot()), id)
    {
      disk := disk[id := jobs[id]];
    }

    // start(): a new process loads the newest saved records, oldest first.
    method Start(paths: seq<Id>)
      requires Ids(paths) <= disk.Keys
      modifies this
      ensures Snapshot() == RestartStep(old(Snapshot()), Ids(paths))
    {
      Reset();
      LoadAll(paths);
    }

    // __init__: nothing is remembered but what is on disk.
    method Reset()
      modifies this
      ensures Snapshot() == EmptyState().(disk := old(disk), spawned := old(spawned))
    {
      jobs, queue, cancelled, processes, waiting := map[], [], {}, map[], multiset{};
      submitted, popped, launched := [], [], [];
      worker, service := Idle, Open;
    }

    method LoadAll(paths: seq<Id>)
      requires jobs == map[] && Ids(paths) <= disk.Keys
      modifies this`jobs, this`disk
      ensures jobs == Loaded(old(disk), Ids(paths))
      ensures disk == old(disk) + jobs
    {
      ghost var done: set<Id> := {};
      for k := 0 to |paths|
        invariant done == Ids(paths[..k])
        invariant done <= old(disk).Keys
        invariant jobs == Loaded(old(disk), done)
        invariant disk == old(disk) + jobs
      {
        var id := paths[k];
        assert id in Ids(paths);
        LoadOne(old(disk), done, id);
        LoadRecord(id);
        done := done + {id};
      }
      assert paths[..|paths|] == paths;
    }

    // One record: kept if terminal, interrupted and saved otherwise.
    method LoadRecord(id: Id)
      requires id in disk
      modifies this`jobs, this`disk
      ensures jobs == old(jobs)[id := Recover(old(disk)[id])]
      ensures disk == old(disk)[id := Recover(old(disk)[id])]
    {
      var job := disk[id];
      jobs := jobs[id := job];
      if !Terminal(job.status) {
        jobs := jobs[id := job.(status := Interrupted, finished := true)];
        Save(id);
      }
    }

    method Submit(id: Id, timeout: nat, binaryFound: bool, prepared: bool) returns (accepted: bool)
      requires id !in disk && id !in jobs
      modifies this
      ensures Snapshot() == SubmitStep(old(Snapshot()), id, timeout, binaryFound, prepared)
      ensures accepted <==> binaryFound && |Pending(old(jobs))| < 16 && prepared
      ensures accepted ==>
        && id in jobs && jobs[id].timeout == timeout && jobs[id].status.Queued?
        && !jobs[id].started && !jobs[id].finished && jobs[id].result.None? && jobs[id].exitCode.None?
        && id in disk && disk[id] == jobs[id] && queue == old(queue) + [id]
        && jobs == old(jobs)[id := jobs[id]] && disk == old(disk)[id := disk[id]]
      ensures !accepted ==> Snapshot() == old(Snapshot())
    {
      accepted := binaryFound && |Pending(jobs)| < MAX_PENDING && prepared;
      if accepted {
        jobs := jobs[id := NewJob(timeout)];
        Save(id);
        queue := queue + [id];
        submitted := submitted + [id];
      }
    }

    // cancel(), up to its await; `pending` tells whether the caller is left waiting for the process.
    method Cancel(id: Id) returns (pending: bool)
      modifies this
      ensures Snapshot() == CancelStep(old(Snapshot()), id)
      ensures pending <==> id in jobs && jobs[id].status.Cancelling? && id in processes && processes[id].None?
    {
      pending := false;
      if id !in jobs || Terminal(jobs[id].status) {
        return;
      }
      cancelled := cancelled + {id};
      if jobs[id].status.Queued? {
        jobs := jobs[id := jobs[id].(status := Cancelled, finished := true)];
      } else {
        jobs := jobs[id := jobs[id].(status := Cancelling)];
        if id in processes && processes[id].None? {
          waiting := waiting + multiset{id};
          return true;
        }
      }
      Save(id);
    }

    method CancelResume(id: Id)
      requires Enabled(Snapshot(), Event.CancelResume(id))
      modifies this
      ensures Snapshot() == Next(old(Snapshot()), Event.CancelResume(id))
    {
      waiting := waiting - multiset{id};
      Save(id);
    }

    // The `finally` block of _execute.
    method Finish(id: Id, status: Status, next: Worker)
      requires id in jobs
      modifies this
      ensures Snapshot() == JobProtocol.Finish(old(Snapshot()), id, status, next)
    {
      jobs := jobs[id := jobs[id].(status := status, finished := true)];
      processes := processes - {id};
      cancelled := cancelled - {id};
      worker := next;
      Save(id);
    }

    // _work, from the return of queue.get() to the next await.
    method Pop(binaryFound: bool)
      requires worker.Idle? && queue != []
      requires queue[0] in jobs
      modifies this
      ensures Snapshot() == PopStep(old(Snapshot()), binaryFound)
    {
      var id := queue[0];
      queue := queue[1..];
      popped := popped + [id];
      if !jobs[id].status.Queued? {
        return;
      }
      launched := launched + [id];
      Execute(id, binaryFound);
    }

    // _execute, up to the creation of the process.
    method Execute(id: Id, binaryFound: bool)
      requires id in jobs
      modifies this
      ensures var s := Put(old(Snapshot()), id, old(jobs)[id].(status := Running, started := true));
        Snapshot() == if binaryFound then JobProtocol.Save(s.(worker := Spawning(id)), id)
                      else JobProtocol.Finish(s, id, Failed, Idle)
    {
      jobs := jobs[id := jobs[id].(status := Running, started := true)];
      if binaryFound {
        worker := Spawning(id);
        Save(id);
      } else {
        Finish(id, Failed, Idle);
      }
    }

    method SpawnFails()
      requires Enabled(Snapshot(), Event.SpawnFails)
      modifies this
      ensures Snapshot() == Next(old(Snapshot()), Event.SpawnFails)
    {
      Finish(worker.id, Failed, Idle);
    }

    // One round of the polling loop while the process runs.
    method LoopTop(id: Id, elapsed: nat, logFull: bool)
      requires id in jobs
      modifies this`jobs, this`worker
      ensures Snapshot() == JobProtocol.LoopTop(old(Snapshot()), id, elapsed, logFull)
    {
      if id in cancelled {
        worker := Stopping(id);
      } else if elapsed > jobs[id].timeout {
        jobs := jobs[id := jobs[id].(status := TimedOut)];
        worker := Stopping(id);
      } else if logFull {
        jobs := jobs[id := jobs[id].(status := Failed)];
        worker := Stopping(id);
      } else {
        worker := Polling(id, elapsed);
      }
    }

    // From the end of the polling loop to the end of _execute.
    method Conclude(id: Id, parsed: Option<RunResult>)
      requires id in jobs && id in processes && processes[id].Some?
      modifies this
      ensures Snapshot() == JobProtocol.Conclude(old(Snapshot()), id, parsed)
    {
      var code := processes[id].value;
      jobs := jobs[id := jobs[id].(exitCode := Some(code))];
      if id in cancelled {
        Finish(id, Cancelled, Idle);
      } else if jobs[id].status.TimedOut? || jobs[id].status.Failed? {
        Finish(id, jobs[id].status, Idle);
      } else if code != 0 || parsed.None? {
        Finish(id, Failed, Idle);
      } else {
        jobs := jobs[id := jobs[id].(result := parsed)];
        Finish(id, if parsed.value.complete then Completed else Incomplete, Idle);
      }
    }

    method SpawnOk(ended: Option<int>, elapsed: nat, logFull: bool, parsed: Option<RunResult>)
      requires Enabled(Snapshot(), Event.SpawnOk(ended, elapsed, logFull, parsed))
      modifies this
      ensures Snapshot() == Next(old(Snapshot()), Event.SpawnOk(ended, elapsed, logFull, parsed))
    {
      var id := worker.id;
      processes := processes[id := ended];
      spawned := spawned + {id};
      if ended.Some? {
        Conclude(id, parsed);
      } else {
        LoopTop(id, elapsed, logFull);
      }
    }

    method PollWake(elapsed: nat, logFull: bool, parsed: Option<RunResult>)
      requires Enabled(Snapshot(), Event.PollWake(elapsed, logFull, parsed))
      modifies this
      ensures Snapshot() == Next(old(Snapshot()), Event.PollWake(elapsed, logFull, parsed))
    {
      var id := worker.id;
      if processes[id].Some? {
        Conclude(id, parsed);
      } else {
        LoopTop(id, elapsed, logFull);
      }
    }

    method StopDone(parsed: Option<RunResult>)
      requires Enabled(Snapshot(), Event.StopDone(parsed))
      modifies this
      ensures Snapshot() == Next(old(Snapshot()), Event.StopDone(parsed))
    {
      Conclude(worker.id, parsed);
    }

    // The worker is cancelled at its await.
    method Interrupt()
      requires Enabled(Snapshot(), Event.Interrupt)
      modifies this
      ensures Snapshot() == Next(old(Snapshot()), Event.Interrupt)
    {
      if worker.Idle? {
        worker := Gone;
      } else if worker.Spawning? || processes[worker.id].Some? {
        Finish(worker.id, Interrupted, Gone);
      } else {
        worker := Aborting(worker.id);
      }
    }

    method AbortDone()
      requires Enabled(Snapshot(), Event.AbortDone)
      modifies this
      ensures Snapshot() == Next(old(Snapshot()), Event.AbortDone)
    {
      Finish(worker.id, Interrupted, Gone);
    }

    // close(), up to the end of the worker.
    method Close()
      requires service.Open?
      modifies this
      ensures Snapshot() == Next(old(Snapshot()), Event.Close)
    {
      service := Closing;
    }

    // close(), after the worker has ended: every job that is not terminal is interrupted and saved.
    method CloseFinish()
      requires service.Closing? && worker.Gone?
      modifies this
      ensures Snapshot() == CloseFinishStep(old(Snapshot()))
    {
      InterruptAll();
      service := Closed;
    }

    method InterruptAll()
      modifies this`jobs, this`disk
      ensures jobs == old(jobs) + ShutDown(old(jobs), old(jobs).Keys)
      ensures disk == old(disk) + ShutDown(old(jobs), old(jobs).Keys)
    {
      var todo := jobs.Keys;
      ghost var done: set<Id> := {};
      while todo != {}
        invariant todo + done == old(jobs).Keys && todo !! done
        invariant jobs == old(jobs) + ShutDown(old(jobs), done)
        invariant disk == old(disk) + ShutDown(old(jobs), done)
      {
        var id :| id in todo;
        CloseOne(old(jobs), old(jobs), done, id);
        CloseOne(old(jobs), old(disk), done, id);
        if !Terminal(jobs[id].status) {
          jobs := jobs[id := jobs[id].(status := Interrupted, finished := true)];
          Save(id);
        }
        todo, done := todo - {id}, done + {id};
      }
    }
  }

  lemma LoadOne(disk: map<Id, Job>, done: set<Id>, id: Id)
    requires done <= disk.Keys && id in disk
    ensures Recover((disk + Loaded(disk, done))[id]) == Recover(disk[id])
    ensures Loaded(disk, done)[id := Recover(disk[id])] == Loaded(disk, done + {id})
    ensures (disk + Loaded(disk, done))[id := Recover(disk[id])] == disk + Loaded(disk, done + {id})
  {
  }

  lemma CloseOne(jobs: map<Id, Job>, base: map<Id, Job>, done: set<Id>, id: Id)
    requires id in jobs && id !in done
    ensures base + ShutDown(jobs, done + {id})
         == if Terminal(jobs[id].status) then base + ShutDown(jobs, done)
            else (base + ShutDown(jobs, done))[id := Recover(jobs[id])]
  {
    var c, c' := ShutDown(jobs, done), ShutDown(jobs, done + {id});
    if Terminal(jobs[id].status) {
      assert c' == c;
    } else {
      assert c' == c[id := Recover(jobs[id])];
    }
  }
}
