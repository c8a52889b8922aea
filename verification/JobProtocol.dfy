/** The job lifecycle of the web lab (webui/simulation.py) as a step function.

    The service is one asyncio loop, so everything between two `await`s is one atomic step.
    An event names the step and carries what the environment decides: fresh identifiers,
    exit codes, the parsed output, the clock, whether the binary exists or the log is full. */
module JobProtocol {
  import opened Wrappers

  type Id = nat

  const MAX_PENDING: nat := 16
  const MAX_LOADED: nat := 500

  datatype Status =
    | Queued | Running | Cancelling
    | Completed | Incomplete | Failed | Cancelled | TimedOut | Interrupted

  predicate Terminal(s: Status) {
    s.Completed? || s.Incomplete? || s.Failed? || s.Cancelled? || s.TimedOut? || s.Interrupted?
  }

  /** A parsed RESULT block. */
  datatype RunResult = RunResult(complete: bool, simTimeNs: nat)

  datatype Job = Job(
    status: Status,
    timeout: nat,             // in polling ticks
    started: bool,            // started_at is set
    finished: bool,           // finished_at is set
    exitCode: Option<int>,
    result: Option<RunResult>)

  /** Where the worker task is suspended. */
  datatype Worker =
    | Idle                           // queue.get()
    | Spawning(id: Id)               // create_subprocess_exec
    | Polling(id: Id, elapsed: nat)  // wait_for(process.wait(), 0.1)
    | Stopping(id: Id)               // _terminate inside the polling loop
    | Aborting(id: Id)               // _terminate after the worker was cancelled
    | Gone

  datatype Service = Open | Closing | Closed

  datatype State = State(
    jobs: map<Id, Job>,
    queue: seq<Id>,
    cancelled: set<Id>,
    processes: map<Id, Option<int>>,  // return code, None while the process runs
    worker: Worker,
    waiting: multiset<Id>,            // cancel requests awaiting the end of a process
    service: Service,
    disk: map<Id, Job>,               // the saved records
    // history
    submitted: seq<Id>,               // in this session
    popped: seq<Id>,                  // taken from the queue in this session
    launched: seq<Id>,                // set running in this session
    spawned: set<Id>)                 // every job that ever had a process

  datatype Event =
    | Submit(newId: Id, timeout: nat, binaryFound: bool, prepared: bool)
    | Cancel(id: Id)
    | CancelResume(id: Id)
    | Pop(binaryFound: bool)
    | SpawnFails
    | SpawnOk(ended: Option<int>, elapsed: nat, logFull: bool, parsed: Option<RunResult>)
    | PollWake(elapsed: nat, logFull: bool, parsed: Option<RunResult>)
    | StopDone(parsed: Option<RunResult>)
    | ProcessExit(id: Id, code: int)
    | Close
    | Interrupt
    | AbortDone
    | CloseFinish
    | Restart(loaded: set<Id>)

  function EmptyState(): State {
    State(map[], [], {}, map[], Idle, multiset{}, Open, map[], [], [], [], {})
  }

  predicate IsActive(w: Worker, id: Id) {
    (w.Spawning? || w.Polling? || w.Stopping? || w.Aborting?) && w.id == id
  }

  predicate HasProcess(w: Worker) {
    w.Polling? || w.Stopping? || w.Aborting?
  }

  function Pending(jobs: map<Id, Job>): set<Id> {
    set id | id in jobs && !Terminal(jobs[id].status)
  }

  // save(job)
  function Save(s: State, id: Id): State
    requires id in s.jobs
  {
    s.(disk := s.disk[id := s.jobs[id]])
  }

  function Put(s: State, id: Id, j: Job): State {
    s.(jobs := s.jobs[id := j])
  }

  // The `finally` block of _execute, for a process that has ended or never existed.
  function Finish(s: State, id: Id, status: Status, next: Worker): State
    requires id in s.jobs
  {
    var s1 := Put(s, id, s.jobs[id].(status := status, finished := true));
    Save(s1.(processes := s1.processes - {id}, cancelled := s1.cancelled - {id}, worker := next), id)
  }

  // From the end of the polling loop to the end of _execute.
  function Conclude(s: State, id: Id, parsed: Option<RunResult>): State
    requires id in s.jobs && id in s.processes && s.processes[id].Some?
  {
    var code := s.processes[id].value;
    var j := s.jobs[id].(exitCode := Some(code));
    if id in s.cancelled then
      Finish(Put(s, id, j), id, Cancelled, Idle)
    else if j.status.TimedOut? || j.status.Failed? then
      Finish(Put(s, id, j), id, j.status, Idle)
    else if code != 0 || parsed.None? then
      Finish(Put(s, id, j), id, Failed, Idle)
    else
      Finish(Put(s, id, j.(result := parsed)), id, if parsed.value.complete then Completed else Incomplete, Idle)
  }

  // The checks at the top of the polling loop while the process runs.
  function LoopTop(s: State, id: Id, elapsed: nat, logFull: bool): State
    requires id in s.jobs
  {
    var j := s.jobs[id];
    if id in s.cancelled then s.(worker := Stopping(id))
    else if elapsed > j.timeout then Put(s, id, j.(status := TimedOut)).(worker := Stopping(id))
    else if logFull then Put(s, id, j.(status := Failed)).(worker := Stopping(id))
    else s.(worker := Polling(id, elapsed))
  }

  function NewJob(timeout: nat): Job {
    Job(Queued, timeout, false, false, None, None)
  }

  // `prepared` tells whether the catalogue accepts the request.
  function SubmitStep(s: State, id: Id, timeout: nat, binaryFound: bool, prepared: bool): State {
    if !binaryFound || |Pending(s.jobs)| >= MAX_PENDING || !prepared then s
    else Save(Put(s, id, NewJob(timeout)), id).(queue := s.queue + [id], submitted := s.submitted + [id])
  }

  function CancelStep(s: State, id: Id): State {
    if id !in s.jobs || Terminal(s.jobs[id].status) then s
    else
      var j := s.jobs[id];
      var s1 := s.(cancelled := s.cancelled + {id});
      if j.status.Queued? then
        Save(Put(s1, id, j.(status := Cancelled, finished := true)), id)
      else
        var s2 := Put(s1, id, j.(status := Cancelling));
        if id in s.processes && s.processes[id].None? then s2.(waiting := s2.waiting + multiset{id})
        else Save(s2, id)
  }

  // queue.get() returns and the loop runs up to the next await.
  function PopStep(s: State, binaryFound: bool): State
    requires s.queue != [] && s.queue[0] in s.jobs
  {
    var id := s.queue[0];
    var s1 := s.(queue := s.queue[1..], popped := s.popped + [id]);
    if !s.jobs[id].status.Queued? then s1
    else
      var s2 := Put(s1, id, s.jobs[id].(status := Running, started := true)).(launched := s.launched + [id]);
      if binaryFound then Save(s2.(worker := Spawning(id)), id)
      else Finish(s2, id, Failed, Idle)
  }

  // The process has been created; it may have ended before its return code is first looked at.
  function SpawnOkStep(s: State, ended: Option<int>, elapsed: nat, logFull: bool, parsed: Option<RunResult>): State
    requires s.worker.Spawning? && s.worker.id in s.jobs
  {
    var id := s.worker.id;
    var s1 := s.(processes := s.processes[id := ended], spawned := s.spawned + {id});
    if ended.Some? then Conclude(s1, id, parsed) else LoopTop(s1, id, elapsed, logFull)
  }

  function PollWakeStep(s: State, elapsed: nat, logFull: bool, parsed: Option<RunResult>): State
    requires s.worker.Polling? && s.worker.id in s.jobs && s.worker.id in s.processes
  {
    if s.processes[s.worker.id].Some? then Conclude(s, s.worker.id, parsed)
    else LoopTop(s, s.worker.id, elapsed, logFull)
  }

  // CancelledError is raised at the await where the worker is suspended.
  function InterruptStep(s: State): State
    requires s.worker.Spawning? || HasProcess(s.worker) ==> s.worker.id in s.jobs
    requires HasProcess(s.worker) ==> s.worker.id in s.processes
  {
    if s.worker.Idle? then s.(worker := Gone)
    else if s.worker.Spawning? then Finish(s, s.worker.id, Interrupted, Gone)
    else if HasProcess(s.worker) then
      if s.processes[s.worker.id].Some? then Finish(s, s.worker.id, Interrupted, Gone)
      else s.(worker := Aborting(s.worker.id))
    else s
  }

  // An unfinished record becomes interrupted, at shutdown and at start-up.
  function Recover(j: Job): Job {
    if Terminal(j.status) then j else j.(status := Interrupted, finished := true)
  }

  // The jobs among `ids` that shutdown changes.
  function ShutDown(jobs: map<Id, Job>, ids: set<Id>): map<Id, Job> {
    map id | id in jobs && id in ids && !Terminal(jobs[id].status) :: Recover(jobs[id])
  }

  function Ids(q: seq<Id>): set<Id> { set id | id in q }

  // The saved records of `ids` as start-up leaves them.
  function Loaded(disk: map<Id, Job>, ids: set<Id>): map<Id, Job>
    requires ids <= disk.Keys
  {
    map id | id in ids :: Recover(disk[id])
  }

  // The loop of close() after the worker has ended.
  function CloseFinishStep(s: State): State {
    var changed := ShutDown(s.jobs, s.jobs.Keys);
    s.(jobs := s.jobs + changed, disk := s.disk + changed, service := Closed)
  }

  // A crash or an exit, then start() over the saved records.
  function RestartStep(s: State, loaded: set<Id>): State
    requires loaded <= s.disk.Keys
  {
    var jobs := Loaded(s.disk, loaded);
    State(jobs, [], {}, map[], Idle, multiset{}, Open, s.disk + jobs, [], [], [], s.spawned)
  }

  predicate Enabled(s: State, e: Event) {
    match e
    case Submit(newId, _, _, _) => newId !in s.disk && newId !in s.jobs
    case Cancel(id) => true
    case CancelResume(id) =>
      id in s.waiting && id in s.jobs && (id in s.processes ==> s.processes[id].Some?)
    case Pop(_) => s.worker.Idle? && s.queue != [] && s.queue[0] in s.jobs
    case SpawnFails => s.worker.Spawning? && s.worker.id in s.jobs
    case SpawnOk(_, _, _, _) => s.worker.Spawning? && s.worker.id in s.jobs
    case PollWake(elapsed, _, _) =>
      && s.worker.Polling? && s.worker.id in s.jobs && s.worker.id in s.processes
      && (s.processes[s.worker.id].None? ==> elapsed > s.worker.elapsed)
    case StopDone(_) =>
      && s.worker.Stopping? && s.worker.id in s.jobs
      && s.worker.id in s.processes && s.processes[s.worker.id].Some?
    case ProcessExit(id, _) => id in s.processes && s.processes[id].None?
    case Close => s.service.Open?
    case Interrupt =>
      && s.service.Closing? && (s.worker.Idle? || s.worker.Spawning? || s.worker.Polling? || s.worker.Stopping?)
      && (s.worker.Idle? || s.worker.id in s.jobs)
      && (HasProcess(s.worker) ==> s.worker.id in s.processes)
    case AbortDone =>
      && s.worker.Aborting? && s.worker.id in s.jobs
      && s.worker.id in s.processes && s.processes[s.worker.id].Some?
    case CloseFinish => s.service.Closing? && s.worker.Gone?
    case Restart(loaded) =>
      loaded <= s.disk.Keys && |loaded| == if |s.disk| < MAX_LOADED then |s.disk| else MAX_LOADED
  }

  function Next(s: State, e: Event): State
    requires Enabled(s, e)
  {
    match e
    case Submit(newId, timeout, binaryFound, prepared) => SubmitStep(s, newId, timeout, binaryFound, prepared)
    case Cancel(id) => CancelStep(s, id)
    case CancelResume(id) => Save(s.(waiting := s.waiting - multiset{id}), id)
    case Pop(binaryFound) => PopStep(s, binaryFound)
    case SpawnFails => Finish(s, s.worker.id, Failed, Idle)
    case SpawnOk(ended, elapsed, logFull, parsed) => SpawnOkStep(s, ended, elapsed, logFull, parsed)
    case PollWake(elapsed, logFull, parsed) => PollWakeStep(s, elapsed, logFull, parsed)
    case StopDone(parsed) => Conclude(s, s.worker.id, parsed)
    case ProcessExit(id, code) => s.(processes := s.processes[id := Some(code)])
    case Close => s.(service := Closing)
    case Interrupt => InterruptStep(s)
    case AbortDone => Finish(s, s.worker.id, Interrupted, Gone)
    case CloseFinish => CloseFinishStep(s)
    case Restart(loaded) => RestartStep(s, loaded)
  }
}
