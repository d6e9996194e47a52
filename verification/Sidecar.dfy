/**
 The publish side of the sidecar as one machine: single publishes and batches routed through
 the pipeline, to Redis directly, or to the write-ahead log, interleaved with the pipeline
 worker, its stop, and WAL replays, with arbitrary Redis, scan, append and rewrite failures
 (internal/service/service.go, PublishBatch in internal/service/grpc.go).

 Every line of the WAL carries the number of the record it belongs to (its tag), so that "not
 lost" speaks of this very record and not of another one with equal content.
 */
module Sidecar {
  import opened Common
  import P = Pipeline
  import W = Wal

  // ---------------------------------------------------------------------------
  // State
  // ---------------------------------------------------------------------------

  /** A WAL line; `req` is None for a line that does not decode. */
  datatype Line = Line(tag: nat, req: Option<Request>)

  /** A replay in progress; it holds the WAL's lock. */
  datatype Replaying = Replaying(read: seq<Line>, unread: seq<Line>, progress: W.Progress<Line>)

  datatype WalState = WalState(file: seq<Line>, records: seq<Option<Request>>, replay: Option<Replaying>)

  /** One slot of a reply: an entry ID, or queued in the WAL (an empty ID on the wire). */
  datatype Slot = Id(id: nat) | Queued(tag: nat)

  /** `First`: the loop of publishBatchToRedis. `PerEvent`: publishInternal. */
  datatype Mode = First | PerEvent

  datatype Pc =
    | Route(mode: Mode, slots: seq<Slot>)
    | InPipeline(mode: Mode, slots: seq<Slot>, job: nat)
    | PublishDirect(mode: Mode, slots: seq<Slot>, fallback: Option<nat>)
    | Failed(mode: Mode, slots: seq<Slot>)
    | ManyEnqueue(jobs: seq<nat>)
    | ManyCollect(jobs: seq<nat>, results: seq<P.Result>)
    | ManyDirect(slots: seq<Slot>)
    | BatchFailed(slots: seq<Slot>)
    | Replied(slots: seq<Slot>)
    | Rejected

  /** A Publish (one request) or PublishBatch call, with the requests after normalisation. */
  datatype Call = Call(reqs: seq<Request>, pc: Pc)

  datatype State = State(pipe: P.State, wal: WalState, calls: seq<Call>)

  datatype Config = Config(
    pipeline: P.Config,
    usePipeline: bool,
    adaptive: bool,
    replayBatch: nat,
    normal: Request -> Request)

  datatype Step =
    | StartPublish(req: Request)
    | StartBatch(reqs: seq<Request>)
    | RouteDirect(call: nat)
    | RoutePipeline(call: nat, ctxDone: bool, choice: P.Choice)
    | AwaitPipeline(call: nat, choice: P.Choice)
    | DirectPublish(call: nat, out: P.Cmd)
    | EndFirst(call: nat)
    | SkipWal(call: nat)
    | WriteWal(call: nat, ok: bool)
    | EnqueueMany(call: nat, ctxDone: bool, choice: P.Choice)
    | CollectMany(call: nat, choice: P.Choice)
    | EndBatch(call: nat, skip: bool)
    | PipelineStep(step: P.Step)
    | ReplayStart
    | ReplayNext(out: P.Cmd)
    | ReplayFinish(rewritten: bool)

  // ---------------------------------------------------------------------------
  // Steps
  // ---------------------------------------------------------------------------

  function Decode(cfg: Config): Line -> Option<Request> {
    (line: Line) => if line.req.Some? then Some(cfg.normal(line.req.value)) else None
  }

  function SetPc(s: State, c: nat, pc: Pc): State
    requires c < |s.calls|
  {
    s.(calls := s.calls[c := s.calls[c].(pc := pc)])
  }

  /** One more slot filled: reply when every request has one, otherwise go on to the next. */
  function Advance(reqs: seq<Request>, mode: Mode, slots: seq<Slot>): Pc {
    if |slots| < |reqs| then Route(mode, slots) else Replied(slots)
  }

  /** A job for `req` created and its first select taken, as in Pipeline.Publish. */
  function Submit(
    cfg: Config, pipe: P.State, caller: P.Caller, req: Request, ctxDone: bool, choice: P.Choice): P.State {
    var j := |pipe.jobs|;
    var created := P.Apply(cfg.pipeline, pipe, P.Create(req, caller));
    var ready := if ctxDone then P.Apply(cfg.pipeline, created, P.CancelCtx(j)) else created;
    P.Apply(cfg.pipeline, ready, P.TryEnqueue(j, choice))
  }

  function AfterSubmit(mode: Mode, slots: seq<Slot>, j: nat, phase: P.Phase): Pc {
    match phase
    case Returned(Cancelled) => Failed(mode, slots)
    case Returned(_) => PublishDirect(mode, slots, Some(j))
    case _ => InPipeline(mode, slots, j)
  }

  function AfterAwait(reqs: seq<Request>, mode: Mode, slots: seq<Slot>, j: nat, outcome: P.Outcome): Pc {
    match outcome
    case FromWorker(Ok(id)) => Advance(reqs, mode, slots + [Id(id)])
    case FromWorker(Err) => Failed(mode, slots)
    case Cancelled => Failed(mode, slots)
    case _ => PublishDirect(mode, slots, Some(j))
  }

  /** The IDs before the first failed result. */
  function GoodPrefix(results: seq<P.Result>): (slots: seq<Slot>)
    ensures |slots| <= |results|
    ensures forall i :: 0 <= i < |slots| ==> results[i].Ok? && slots[i] == Id(results[i].id)
    ensures |slots| < |results| ==> results[|slots|].Err?
  {
    if results == [] || results[0].Err? then [] else [Id(results[0].id)] + GoodPrefix(results[1..])
  }

  function AfterCollect(reqs: seq<Request>, jobs: seq<nat>, results: seq<P.Result>): Pc {
    if |results| < |reqs| then ManyCollect(jobs, results)
    else
      var slots := GoodPrefix(results);
      if |slots| == |results| then Replied(slots) else BatchFailed(slots)
  }

  /** The log after one direct XADD with the given fate. */
  function Xadd(log: seq<P.Entry>, entry: P.Entry, out: P.Cmd): seq<P.Entry> {
    if out.NotApplied? then log else log + [entry]
  }

  function DirectSlots(s: State, slots: seq<Slot>): seq<Slot> {
    slots + [Id(|s.pipe.log|)]
  }

  predicate Replays(cfg: Config, p: W.Progress<Line>, line: Line) {
    p.processing && |p.replayed| < cfg.replayBatch && line.req.Some?
  }

  /** A step that is not enabled leaves the state as it is. */
  function Apply(cfg: Config, s: State, step: Step): State {
    match step
    case StartPublish(req) =>
      s.(calls := s.calls + [Call([req], Route(PerEvent, []))])
    case StartBatch(reqs) =>
      if reqs == [] then s
      else if cfg.usePipeline && |reqs| > 1 then s.(calls := s.calls + [Call(reqs, ManyEnqueue([]))])
      else s.(calls := s.calls + [Call(reqs, Route(First, []))])
    case PipelineStep(step) =>
      if step.Create? || step.TryEnqueue? || step.Await? || step.External? then s
      else s.(pipe := P.Apply(cfg.pipeline, s.pipe, step))
    case ReplayStart => ApplyReplayStart(cfg, s)
    case ReplayNext(out) => ApplyReplayNext(cfg, s, out)
    case ReplayFinish(rewritten) => ApplyReplayFinish(s, rewritten)
    case _ => if step.call < |s.calls| then ApplyCall(cfg, s, step.call, step) else s
  }

  function ApplyCall(cfg: Config, s: State, c: nat, step: Step): State
    requires c < |s.calls|
  {
    match (step, s.calls[c].pc)
    case (RouteDirect(_), Route(mode, slots)) =>
      if !cfg.usePipeline || cfg.adaptive then SetPc(s, c, PublishDirect(mode, slots, None)) else s
    case (RoutePipeline(_, ctxDone, choice), Route(mode, slots)) =>
      if cfg.usePipeline then DoSubmit(cfg, s, c, mode, slots, ctxDone, choice) else s
    case (AwaitPipeline(_, choice), InPipeline(mode, slots, j)) => DoAwait(cfg, s, c, mode, slots, j, choice)
    case (DirectPublish(_, out), PublishDirect(mode, slots, _)) => DoDirect(s, c, mode, slots, out)
    case (DirectPublish(_, out), ManyDirect(slots)) => DoManyDirect(s, c, slots, out)
    case (EndFirst(_), Failed(First, slots)) => SetPc(s, c, BatchFailed(slots))
    case (SkipWal(_), Failed(PerEvent, _)) => SetPc(s, c, Rejected)
    case (WriteWal(_, ok), Failed(PerEvent, slots)) => DoWriteWal(s, c, slots, ok)
    case (EnqueueMany(_, ctxDone, choice), ManyEnqueue(jobs)) => DoEnqueueMany(cfg, s, c, jobs, ctxDone, choice)
    case (CollectMany(_, choice), ManyCollect(jobs, results)) => DoCollectMany(cfg, s, c, jobs, results, choice)
    case (EndBatch(_, skip), BatchFailed(slots)) =>
      SetPc(s, c, if slots != [] || skip then Rejected else Route(PerEvent, []))
    case _ => s
  }

  /** publishToRedis through the pipeline: the first half of Pipeline.Publish. */
  function DoSubmit(cfg: Config, s: State, c: nat, mode: Mode, slots: seq<Slot>, ctxDone: bool, choice: P.Choice): State
    requires c < |s.calls|
  {
    if |slots| >= |s.calls[c].reqs| then s
    else
      var j := |s.pipe.jobs|;
      var caller := P.Caller(c, |slots|, mode.PerEvent?);
      var pipe := Submit(cfg, s.pipe, caller, s.calls[c].reqs[|slots|], ctxDone, choice);
      if |pipe.jobs| <= j || pipe.jobs[j].phase.Created? then s
      else SetPc(s, c, AfterSubmit(mode, slots, j, pipe.jobs[j].phase)).(pipe := pipe)
  }

  /** A call waiting for job `j` stops waiting. */
  predicate Returns(pipe: P.State, pipe': P.State, j: nat) {
    && j < |pipe.jobs| && pipe.jobs[j].phase.Waiting?
    && j < |pipe'.jobs| && pipe'.jobs[j].phase.Returned?
  }

  /** The second half of Pipeline.Publish. */
  function DoAwait(cfg: Config, s: State, c: nat, mode: Mode, slots: seq<Slot>, j: nat, choice: P.Choice): State
    requires c < |s.calls|
  {
    var pipe := P.Apply(cfg.pipeline, s.pipe, P.Await(j, choice));
    if !Returns(s.pipe, pipe, j) then s
    else SetPc(s, c, AfterAwait(s.calls[c].reqs, mode, slots, j, pipe.jobs[j].phase.outcome)).(pipe := pipe)
  }

  function XaddFor(s: State, c: nat, slots: seq<Slot>, out: P.Cmd): P.State
    requires c < |s.calls| && |slots| < |s.calls[c].reqs|
  {
    s.pipe.(log := Xadd(s.pipe.log, P.Entry(s.calls[c].reqs[|slots|], P.Direct(c)), out))
  }

  /** publisher.Publish for the next request of the call. */
  function DoDirect(s: State, c: nat, mode: Mode, slots: seq<Slot>, out: P.Cmd): State
    requires c < |s.calls|
  {
    if |slots| >= |s.calls[c].reqs| then s
    else
      var pc := if out.Applied? then Advance(s.calls[c].reqs, mode, DirectSlots(s, slots)) else Failed(mode, slots);
      SetPc(s, c, pc).(pipe := XaddFor(s, c, slots, out))
  }

  /** The direct loop publishBatchToRedis falls back to after PublishMany gave up. */
  function DoManyDirect(s: State, c: nat, slots: seq<Slot>, out: P.Cmd): State
    requires c < |s.calls|
  {
    if |slots| >= |s.calls[c].reqs| then s
    else
      var slots' := DirectSlots(s, slots);
      var pc := if !out.Applied? then BatchFailed(slots)
                else if |slots'| < |s.calls[c].reqs| then ManyDirect(slots') else Replied(slots');
      SetPc(s, c, pc).(pipe := XaddFor(s, c, slots, out))
  }

  /** publishInternal's append; it waits while a replay holds the WAL's lock. */
  function DoWriteWal(s: State, c: nat, slots: seq<Slot>, ok: bool): State
    requires c < |s.calls|
  {
    if s.wal.replay.Some? || |slots| >= |s.calls[c].reqs| then s
    else if !ok then SetPc(s, c, Rejected)
    else
      var tag, req := |s.wal.records|, Some(s.calls[c].reqs[|slots|]);
      SetPc(s, c, Advance(s.calls[c].reqs, PerEvent, slots + [Queued(tag)]))
        .(wal := WalState(s.wal.file + [Line(tag, req)], s.wal.records + [req], None))
  }

  function AfterSubmitMany(reqs: seq<Request>, jobs: seq<nat>, j: nat, phase: P.Phase): Pc {
    match phase
    case Returned(Cancelled) => BatchFailed([])
    case Returned(_) => ManyDirect([])
    case _ => if |jobs| + 1 < |reqs| then ManyEnqueue(jobs + [j]) else ManyCollect(jobs + [j], [])
  }

  /** PublishMany's enqueueing loop. */
  function DoEnqueueMany(cfg: Config, s: State, c: nat, jobs: seq<nat>, ctxDone: bool, choice: P.Choice): State
    requires c < |s.calls|
  {
    if |jobs| >= |s.calls[c].reqs| then s
    else
      var j := |s.pipe.jobs|;
      var pipe := Submit(cfg, s.pipe, P.Caller(c, |jobs|, false), s.calls[c].reqs[|jobs|], ctxDone, choice);
      if |pipe.jobs| <= j || pipe.jobs[j].phase.Created? then s
      else SetPc(s, c, AfterSubmitMany(s.calls[c].reqs, jobs, j, pipe.jobs[j].phase)).(pipe := pipe)
  }

  function AfterAwaitMany(reqs: seq<Request>, jobs: seq<nat>, results: seq<P.Result>, outcome: P.Outcome): Pc {
    match outcome
    case FromWorker(r) => AfterCollect(reqs, jobs, results + [r])
    case Cancelled => BatchFailed([])
    case _ => ManyDirect([])
  }

  /** PublishMany's collecting loop. */
  function DoCollectMany(cfg: Config, s: State, c: nat, jobs: seq<nat>, results: seq<P.Result>, choice: P.Choice): State
    requires c < |s.calls|
  {
    if |results| >= |jobs| then s
    else
      var j := jobs[|results|];
      var pipe := P.Apply(cfg.pipeline, s.pipe, P.Await(j, choice));
      if !Returns(s.pipe, pipe, j) then s
      else SetPc(s, c, AfterAwaitMany(s.calls[c].reqs, jobs, results, pipe.jobs[j].phase.outcome)).(pipe := pipe)
  }

  function ApplyReplayStart(cfg: Config, s: State): State {
    if s.wal.replay.Some? || cfg.replayBatch == 0 then s
    else s.(wal := s.wal.(replay := Some(Replaying([], s.wal.file, W.Start()))))
  }

  /** The next line of a replay: published when its turn comes, otherwise retained. */
  function ApplyReplayNext(cfg: Config, s: State, out: P.Cmd): State {
    if s.wal.replay.None? || s.wal.replay.value.unread == [] then s
    else
      var rp := s.wal.replay.value;
      var line := rp.unread[0];
      var progress := W.ReplayLine(Decode(cfg), cfg.replayBatch, rp.progress, line, out.Applied?);
      var log := if Replays(cfg, rp.progress, line)
                 then Xadd(s.pipe.log, P.Entry(cfg.normal(line.req.value), P.Replay(line.tag)), out)
                 else s.pipe.log;
      s.(pipe := s.pipe.(log := log),
         wal := s.wal.(replay := Some(Replaying(rp.read + [line], rp.unread[1..], progress))))
  }

  /** A replay ends by rewriting the file, or by a scan or rewrite error that leaves it as it was. */
  function ApplyReplayFinish(s: State, rewritten: bool): State {
    if s.wal.replay.None? then s
    else
      var rp := s.wal.replay.value;
      if rewritten then
        if rp.unread != [] then s
        else s.(wal := s.wal.(file := rp.progress.remaining, replay := None))
      else s.(wal := s.wal.(replay := None))
  }

  /** Starting with whatever lines the WAL file holds. */
  function Init(found: seq<Option<Request>>): State {
    State(P.INIT, WalState(seq(|found|, i requires 0 <= i < |found| => Line(i, found[i])), found, None), [])
  }

  function RunFrom(cfg: Config, s: State, steps: seq<Step>): State {
    if steps == [] then s else Apply(cfg, RunFrom(cfg, s, steps[..|steps| - 1]), steps[|steps| - 1])
  }

  function Run(cfg: Config, found: seq<Option<Request>>, steps: seq<Step>): State {
    RunFrom(cfg, Init(found), steps)
  }
}
