/** The test runner's shared state and the code of its threads (test.py), one method per stretch of
    code between two blocking queue operations; each method does exactly the pool's step. */
module TestRunner {
  import opened WorkerPool

  class Runner {
    const skip: seq<bool>
    var inputQueue: seq<Token>
    var outputQueue: seq<Report>
    var threads: seq<Thread>
    var threadExit: bool
    var dispatched: nat
    var stopsSent: nat
    var collected: seq<Report>
    var joined: nat

    function Snapshot(): Pool
      reads this
    {
      Pool(skip, inputQueue, outputQueue, threads, threadExit, dispatched, stopsSent, collected, joined)
    }

    constructor (isSkip: seq<bool>, processors: nat)
      ensures Snapshot() == Start(isSkip, processors) && Inv(Snapshot())
    {
      skip := isSkip;
      inputQueue, outputQueue, threadExit := [], [], false;
      dispatched, stopsSent, collected, joined := 0, 0, [], 0;
      threads := seq(processors, i => Waiting);
      new;
      StartInv(isSkip, processors);
    }

    /** Puts the next job on the input queue. */
    method DispatchJob()
      requires Inv(Snapshot()) && Enabled(Snapshot(), Dispatch)
      modifies this
      ensures Snapshot() == Next(old(Snapshot()), Dispatch) && Inv(Snapshot())
    {
      StepKeeps(Snapshot(), Dispatch);
      inputQueue := inputQueue + [Work(dispatched)];
      dispatched := dispatched + 1;
    }

    /** Puts one stop token on the input queue. */
    method SendOneStop()
      requires Inv(Snapshot()) && Enabled(Snapshot(), SendStop)
      modifies this
      ensures Snapshot() == Next(old(Snapshot()), SendStop) && Inv(Snapshot())
    {
      StepKeeps(Snapshot(), SendStop);
      inputQueue := inputQueue + [Stop];
      stopsSent := stopsSent + 1;
    }

    /** A waiting worker takes the token at the head of the input queue; a stop token ends it. */
    method Take(w: nat)
      requires Inv(Snapshot()) && Enabled(Snapshot(), Get(w))
      modifies this
      ensures Snapshot() == Next(old(Snapshot()), Get(w)) && Inv(Snapshot())
    {
      StepKeeps(Snapshot(), Get(w));
      var token := inputQueue[0];
      inputQueue := inputQueue[1..];
      if token.Stop? {
        threads := threads[w := Exited];
        return;
      }
      threads := threads[w := Holding(token.job)];
    }

    /** A worker with a job looks at the exit flag and then at the job's skip flag. */
    method Consider(w: nat)
      requires Inv(Snapshot()) && Enabled(Snapshot(), Decide(w))
      modifies this
      ensures Snapshot() == Next(old(Snapshot()), Decide(w)) && Inv(Snapshot())
    {
      StepKeeps(Snapshot(), Decide(w));
      var job := threads[w].job;
      if threadExit {
        outputQueue := outputQueue + [Report(job, Broken)];
        threads := threads[w := Waiting];
        return;
      }
      if skip[job] {
        outputQueue := outputQueue + [Report(job, Skipped)];
        threads := threads[w := Waiting];
        return;
      }
      threads := threads[w := Running(job)];
    }

    /** The job a worker runs ends with an exit code. */
    method Complete(w: nat, returncode: int)
      requires Inv(Snapshot()) && Enabled(Snapshot(), Finish(w, returncode))
      modifies this
      ensures Snapshot() == Next(old(Snapshot()), Finish(w, returncode)) && Inv(Snapshot())
    {
      StepKeeps(Snapshot(), Finish(w, returncode));
      outputQueue := outputQueue + [Report(threads[w].job, Exit(returncode))];
      threads := threads[w := Waiting];
    }

    /** The main thread takes the next report. */
    method CollectOne() returns (r: Report)
      requires Inv(Snapshot()) && Enabled(Snapshot(), Collect)
      modifies this
      ensures Snapshot() == Next(old(Snapshot()), Collect) && Inv(Snapshot())
      ensures r == old(outputQueue[0])
    {
      StepKeeps(Snapshot(), Collect);
      r := outputQueue[0];
      outputQueue := outputQueue[1..];
      collected := collected + [r];
    }

    /** The main thread waits for the next worker to have exited. */
    method JoinOne()
      requires Inv(Snapshot()) && Enabled(Snapshot(), Join)
      modifies this
      ensures Snapshot() == Next(old(Snapshot()), Join) && Inv(Snapshot())
    {
      StepKeeps(Snapshot(), Join);
      joined := joined + 1;
    }

    /** The signal handler. */
    method SignalHandler()
      requires Inv(Snapshot())
      modifies this
      ensures threadExit && Inv(Snapshot())
      ensures Snapshot() == old(Snapshot()).(interrupted := true)
    {
      if !threadExit {
        StepKeeps(Snapshot(), Interrupt);
      }
      threadExit := true;
    }
  }
}
