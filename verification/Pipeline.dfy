/**
 The publish pipeline (internal/service/publish_pipeline.go): callers put jobs on a bounded
 queue, one worker batches them into a Redis pipeline and answers each job on a one-slot
 channel. The model is a state machine whose steps are the atomic actions of callers and
 worker; a select with several ready cases is a choice carried by the step.
 */
module Pipeline {
  import opened Common

  // ---------------------------------------------------------------------------
  // State
  // ---------------------------------------------------------------------------

  /** Who issued an XADD: the worker for a job, a caller publishing directly, or a WAL replay. */
  datatype Source = Worker(job: nat) | Direct(call: nat) | Replay(tag: nat)

  /** The Redis log is append-only; an entry's ID is its position. */
  datatype Entry = Entry(req: Request, source: Source)

  datatype Result = Ok(id: nat) | Err

  /** How `Publish` returned for a job. */
  datatype Outcome = FromWorker(result: Result) | Cancelled | Stopped | QueueFull

  datatype Phase = Created | Waiting | Returned(outcome: Outcome)

  /** Who made a job: which call, for which of its requests, and whether in the pass that
      publishes event by event. */
  datatype Caller = Caller(call: nat, part: nat, perEvent: bool)

  /** `slot` is the content of the one-slot result channel and `sent` how often it was sent to. */
  datatype Job = Job(
    req: Request,
    caller: Caller,
    bytes: nat,
    ctxDone: bool,
    slot: seq<Result>,
    sent: nat,
    phase: Phase)

  /** Where the worker goroutine is. `exiting` marks the last drain and flush. */
  datatype Pc =
    | Select
    | Draining(exiting: bool)
    | Building(todo: seq<nat>, built: seq<nat>, exiting: bool)
    | Sending(unsent: seq<nat>, replies: seq<(nat, Result)>, exiting: bool)
    | Delivering(results: seq<(nat, Result)>, exiting: bool)
    | Exited

  /** `taken`, `examined`, `issued` and `skipped` are histories: jobs dequeued, jobs looked at
      while building a batch, jobs whose XADD was sent, and jobs dropped as cancelled. */
  datatype State = State(
    log: seq<Entry>,
    jobs: seq<Job>,
    queue: seq<nat>,
    stopping: bool,
    pc: Pc,
    buffer: seq<nat>,
    bufferBytes: int,
    taken: seq<nat>,
    examined: seq<nat>,
    issued: seq<nat>,
    skipped: set<nat>)

  datatype Config = Config(queueSize: nat, maxBatch: nat, maxBytes: nat, flushInterval: nat)

  ghost predicate ValidConfig(c: Config) {
    c.queueSize > 0 && c.maxBatch > 0 && c.maxBytes > 0
  }

  const INIT := State([], [], [], false, Select, [], 0, [], [], [], {})

  /** What became of one XADD of a pipeline: applied and reported, applied but reported as an
      error, or not applied. */
  datatype Cmd = Applied | LostReply | NotApplied

  datatype Choice = SeeDone | SeeCancel | Proceed

  datatype Step =
    | Create(req: Request, caller: Caller)
    | CancelCtx(job: nat)
    | TryEnqueue(job: nat, choice: Choice)
    | Await(job: nat, choice: Choice)
    | CloseStop
    | WorkerStop
    | WorkerTick
    | WorkerTake
    | WorkerDrain
    | WorkerBuild
    | WorkerSend
    | WorkerXadd(cmd: Cmd)
    | WorkerExec(failed: bool)
    | WorkerDeliver
    | External(entry: Entry)

  // ---------------------------------------------------------------------------
  // Steps
  // ---------------------------------------------------------------------------

  /** `estimatePublishRequestBytes`. */
  function EstimateBytes(req: Request): (n: nat)
    ensures n >= 128
  {
    var size := |req.stream| + |req.eventType| + |req.sender| + |req.recipient| + |req.priority|
                + |req.payload| + (if req.ttlSec > 0 then 8 else 0);
    if size < 128 then 128 else size
  }

  function SetPhase(s: State, j: nat, phase: Phase): State
    requires j < |s.jobs|
  {
    s.(jobs := s.jobs[j := s.jobs[j].(phase := phase)])
  }

  predicate InRange(s: State, js: seq<nat>) {
    forall i :: 0 <= i < |js| ==> js[i] < |s.jobs|
  }

  /** The worker has returned, so `doneCh` is closed. */
  predicate Done(s: State) {
    s.pc.Exited?
  }

  /** The first select of `Publish`; its default case needs every other case not ready. */
  function Enqueue(c: Config, s: State, j: nat, choice: Choice): State
    requires j < |s.jobs| && s.jobs[j].phase.Created?
  {
    match choice
    case SeeDone => if Done(s) then SetPhase(s, j, Returned(Stopped)) else s
    case SeeCancel => if s.jobs[j].ctxDone then SetPhase(s, j, Returned(Cancelled)) else s
    case Proceed =>
      if |s.queue| < c.queueSize then SetPhase(s, j, Waiting).(queue := s.queue + [j])
      else if !Done(s) && !s.jobs[j].ctxDone then SetPhase(s, j, Returned(QueueFull))
      else s
  }

  function Receive(s: State, j: nat): State
    requires j < |s.jobs| && s.jobs[j].slot != []
  {
    var r := s.jobs[j].slot[0];
    s.(jobs := s.jobs[j := s.jobs[j].(slot := s.jobs[j].slot[1..], phase := Returned(FromWorker(r)))])
  }

  /** The second select of `Publish`: result, cancellation, or `doneCh` with a last look at the slot. */
  function AwaitResult(s: State, j: nat, choice: Choice): State
    requires j < |s.jobs| && s.jobs[j].phase.Waiting?
  {
    match choice
    case Proceed => if s.jobs[j].slot != [] then Receive(s, j) else s
    case SeeCancel => if s.jobs[j].ctxDone then SetPhase(s, j, Returned(Cancelled)) else s
    case SeeDone =>
      if !Done(s) then s
      else if s.jobs[j].slot != [] then Receive(s, j)
      else SetPhase(s, j, Returned(Stopped))
  }

  function TakeJob(s: State, exiting: bool): State
    requires s.queue != [] && s.queue[0] < |s.jobs|
  {
    var j := s.queue[0];
    s.(queue := s.queue[1..], buffer := s.buffer + [j], bufferBytes := s.bufferBytes + s.jobs[j].bytes,
       taken := s.taken + [j], pc := Draining(exiting))
  }

  function Finish(s: State, exiting: bool): State {
    s.(pc := if exiting then Exited else Select)
  }

  /** `flush`: the buffer becomes a batch; an empty one is skipped. */
  function StartFlush(s: State, exiting: bool): State {
    if s.buffer == [] then Finish(s, exiting)
    else s.(buffer := [], bufferBytes := 0, pc := Building(s.buffer, [], exiting))
  }

  predicate FlushDue(c: Config, s: State) {
    c.flushInterval == 0 || |s.buffer| >= c.maxBatch || s.bufferBytes >= c.maxBytes
  }

  /** A send on a job's result channel. */
  function Send(s: State, j: nat, r: Result): State
    requires j < |s.jobs|
  {
    s.(jobs := s.jobs[j := s.jobs[j].(slot := s.jobs[j].slot + [r], sent := s.jobs[j].sent + 1)])
  }

  /** One job of `flushBatch`'s first loop: a cancelled one is answered at once. */
  function BuildNext(s: State): State
    requires s.pc.Building? && s.pc.todo != [] && s.pc.todo[0] < |s.jobs|
  {
    var j := s.pc.todo[0];
    var s1 := s.(examined := s.examined + [j]);
    if s.jobs[j].ctxDone then
      Send(s1, j, Err).(skipped := s.skipped + {j}, pc := Building(s.pc.todo[1..], s.pc.built, s.pc.exiting))
    else
      s1.(pc := Building(s.pc.todo[1..], s.pc.built + [j], s.pc.exiting))
  }

  /** One XADD of the pipeline reaches Redis, or not; other clients' commands may fall between
      two of them. */
  function SendXadd(s: State, cmd: Cmd): State
    requires s.pc.Sending? && s.pc.unsent != [] && s.pc.unsent[0] < |s.jobs|
  {
    var j := s.pc.unsent[0];
    var r := if cmd.Applied? then Ok(|s.log|) else Err;
    s.(log := if cmd.NotApplied? then s.log else s.log + [Entry(s.jobs[j].req, Worker(j))],
       issued := s.issued + [j],
       pc := Sending(s.pc.unsent[1..], s.pc.replies + [(j, r)], s.pc.exiting))
  }

  /** What each job of the batch is told: an error for all when Exec fails, otherwise the reply
      to the job's own command. */
  function BatchResults(replies: seq<(nat, Result)>, failed: bool): seq<(nat, Result)> {
    seq(|replies|, i requires 0 <= i < |replies| => if failed then (replies[i].0, Err) else replies[i])
  }

  /** A step that is not enabled leaves the state as it is. */
  function Apply(c: Config, s: State, step: Step): State {
    match step
    case Create(req, caller) =>
      s.(jobs := s.jobs + [Job(req, caller, EstimateBytes(req), false, [], 0, Created)])
    case CancelCtx(j) =>
      if j < |s.jobs| then s.(jobs := s.jobs[j := s.jobs[j].(ctxDone := true)]) else s
    case TryEnqueue(j, choice) =>
      if j < |s.jobs| && s.jobs[j].phase.Created? then Enqueue(c, s, j, choice) else s
    case Await(j, choice) =>
      if j < |s.jobs| && s.jobs[j].phase.Waiting? then AwaitResult(s, j, choice) else s
    case CloseStop => s.(stopping := true)
    case WorkerStop =>
      if s.pc.Select? && s.stopping then s.(pc := Draining(true)) else s
    case WorkerTick =>
      if s.pc.Select? && c.flushInterval > 0 then StartFlush(s, false) else s
    case WorkerTake =>
      if s.pc.Select? && s.queue != [] && InRange(s, s.queue) then TakeJob(s, false) else s
    case WorkerDrain =>
      if !s.pc.Draining? then s
      else if s.queue != [] then (if InRange(s, s.queue) then TakeJob(s, s.pc.exiting) else s)
      else if s.pc.exiting || FlushDue(c, s) then StartFlush(s, s.pc.exiting)
      else s.(pc := Select)
    case WorkerBuild =>
      if s.pc.Building? && s.pc.todo != [] && InRange(s, s.pc.todo) then BuildNext(s) else s
    case WorkerSend =>
      if !s.pc.Building? || s.pc.todo != [] then s
      else if s.pc.built == [] then Finish(s, s.pc.exiting)
      else s.(pc := Sending(s.pc.built, [], s.pc.exiting))
    case WorkerXadd(cmd) =>
      if s.pc.Sending? && s.pc.unsent != [] && InRange(s, s.pc.unsent) then SendXadd(s, cmd) else s
    case WorkerExec(failed) =>
      if s.pc.Sending? && s.pc.unsent == [] then
        s.(pc := Delivering(BatchResults(s.pc.replies, failed), s.pc.exiting))
      else s
    case WorkerDeliver =>
      if !s.pc.Delivering? then s
      else if s.pc.results == [] then Finish(s, s.pc.exiting)
      else
        var (j, r) := s.pc.results[0];
        if j < |s.jobs| then Send(s, j, r).(pc := Delivering(s.pc.results[1..], s.pc.exiting)) else s
    case External(entry) =>
      if entry.source.Worker? then s else s.(log := s.log + [entry])
  }

  function RunFrom(c: Config, s: State, steps: seq<Step>): State {
    if steps == [] then s else Apply(c, RunFrom(c, s, steps[..|steps| - 1]), steps[|steps| - 1])
  }

  function Run(c: Config, steps: seq<Step>): State {
    RunFrom(c, INIT, steps)
  }
}
