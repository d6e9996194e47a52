/**
 Exactly what each step of the publish pipeline decides (internal/service/publish_pipeline.go):
 when a job is queued, refused or given up on, what its caller is told, and when the worker
 flushes and ends.
 */
module PipelineExact {
  import opened Common
  import opened Pipeline
  import opened PipelineRuns

  // ---------------------------------------------------------------------------
  // Callers
  // ---------------------------------------------------------------------------

  /** The first select of `Publish`: queued at the end exactly when there is room, refused as full
      exactly when there is none and nothing else is ready, stopped only after the worker's end,
      cancelled only when its own context is. */
  lemma EnqueueExactly(c: Config, s: State, j: nat, choice: Choice)
    requires j < |s.jobs| && s.jobs[j].phase.Created?
    ensures var s' := Apply(c, s, TryEnqueue(j, choice));
            var phase := s'.jobs[j].phase;
            && (phase == Waiting <==> choice.Proceed? && |s.queue| < c.queueSize)
            && (phase == Waiting ==> s'.queue == s.queue + [j])
            && (phase != Waiting ==> s'.queue == s.queue)
            && (phase == Returned(QueueFull) <==>
                  choice.Proceed? && |s.queue| >= c.queueSize && !s.pc.Exited? && !s.jobs[j].ctxDone)
            && (phase == Returned(Stopped) <==> choice.SeeDone? && s.pc.Exited?)
            && (phase == Returned(Cancelled) <==> choice.SeeCancel? && s.jobs[j].ctxDone)
            && !(phase.Returned? && phase.outcome.FromWorker?)
            && s'.log == s.log
  {
  }

  /** The second select: a result that is there is what the caller gets, also when the worker has
      ended; without one, stopped only after the worker's end, cancelled only when cancelled. */
  lemma AwaitExactly(c: Config, s: State, j: nat, choice: Choice)
    requires j < |s.jobs| && s.jobs[j].phase.Waiting?
    ensures var phase := Apply(c, s, Await(j, choice)).jobs[j].phase;
            && (s.jobs[j].slot != [] && (choice.Proceed? || (choice.SeeDone? && s.pc.Exited?)) ==>
                  phase == Returned(FromWorker(s.jobs[j].slot[0])))
            && (phase.Returned? && phase.outcome.FromWorker? ==>
                  s.jobs[j].slot != [] && phase.outcome.result == s.jobs[j].slot[0])
            && (phase == Returned(Stopped) <==> choice.SeeDone? && s.pc.Exited? && s.jobs[j].slot == [])
            && (phase == Returned(Cancelled) <==> choice.SeeCancel? && s.jobs[j].ctxDone)
            && phase != Returned(QueueFull)
  {
  }

  /** A new job is not cancelled and not answered; cancelling touches that job's context only. */
  lemma JobsExactly(c: Config, s: State, req: Request, caller: Caller, j: nat)
    ensures var s' := Apply(c, s, Create(req, caller));
            && |s'.jobs| == |s.jobs| + 1 && s'.jobs[..|s.jobs|] == s.jobs && s'.queue == s.queue
            && var job := s'.jobs[|s.jobs|];
               && job.req == req && job.caller == caller && job.phase.Created? && !job.ctxDone
               && job.slot == [] && job.sent == 0
    ensures j < |s.jobs| ==>
              Apply(c, s, CancelCtx(j)) == s.(jobs := s.jobs[j := s.jobs[j].(ctxDone := true)])
  {
  }

  lemma StepBounded(c: Config, s: State, step: Step)
    requires |s.queue| <= c.queueSize
    ensures |Apply(c, s, step).queue| <= c.queueSize
  {
  }

  /** The queue never holds more jobs than it was made for. */
  lemma {:induction false} QueueBounded(c: Config, steps: seq<Step>)
    ensures |Run(c, steps).queue| <= c.queueSize
  {
    if steps != [] {
      QueueBounded(c, steps[..|steps| - 1]);
      StepBounded(c, Run(c, steps[..|steps| - 1]), steps[|steps| - 1]);
    }
  }

  // ---------------------------------------------------------------------------
  // The worker
  // ---------------------------------------------------------------------------

  /** A cancelled job is told so and left out of the batch; any other joins it. */
  lemma BuildExactly(c: Config, s: State)
    requires s.pc.Building? && s.pc.todo != [] && InRange(s, s.pc.todo)
    ensures var s', j := Apply(c, s, WorkerBuild), s.pc.todo[0];
            && s'.pc.Building? && [j] + s'.pc.todo == s.pc.todo && s'.pc.exiting == s.pc.exiting
            && (s.jobs[j].ctxDone ==>
                  s'.pc.built == s.pc.built && s'.jobs[j].slot == s.jobs[j].slot + [Err] && j in s'.skipped)
            && (!s.jobs[j].ctxDone ==>
                  s'.pc.built == s.pc.built + [j] && s'.jobs == s.jobs && s'.skipped == s.skipped)
  {
  }

  /** A command that took effect adds the job's own entry at the end of the log; a reply is an ID
      exactly when it took effect and answered, and then the ID of that entry. */
  lemma XaddExactly(c: Config, s: State, cmd: Cmd)
    requires s.pc.Sending? && s.pc.unsent != [] && InRange(s, s.pc.unsent)
    ensures var s', j := Apply(c, s, WorkerXadd(cmd)), s.pc.unsent[0];
            var r := if cmd == Applied then Ok(|s.log|) else Err;
            && s'.pc.Sending? && [j] + s'.pc.unsent == s.pc.unsent && s'.pc.replies == s.pc.replies + [(j, r)]
            && s'.log == if cmd == NotApplied then s.log else s.log + [Entry(s.jobs[j].req, Worker(j))]
  {
  }

  /** Exec's outcome settles every reply of the batch: its own when Exec succeeded, an error when
      it failed, for the same jobs in the same order. */
  lemma ExecExactly(c: Config, s: State, failed: bool)
    requires s.pc.Sending? && s.pc.unsent == []
    ensures var s' := Apply(c, s, WorkerExec(failed));
            && s'.pc.Delivering? && |s'.pc.results| == |s.pc.replies| && s'.pc.exiting == s.pc.exiting
            && (!failed ==> s'.pc.results == s.pc.replies)
            && forall i :: 0 <= i < |s.pc.replies| ==>
                 s'.pc.results[i].0 == s.pc.replies[i].0 && (failed ==> s'.pc.results[i].1 == Err)
  {
  }

  /** Results are sent one at a time, each to its job. */
  lemma DeliverExactly(c: Config, s: State)
    requires s.pc.Delivering? && s.pc.results != [] && s.pc.results[0].0 < |s.jobs|
    ensures var s', j := Apply(c, s, WorkerDeliver), s.pc.results[0].0;
            && s'.jobs[j].slot == s.jobs[j].slot + [s.pc.results[0].1]
            && s'.pc.Delivering? && [s.pc.results[0]] + s'.pc.results == s.pc.results
  {
  }

  ghost predicate Keeps(job: Job, r: Result) {
    job.slot == [r] || job.phase == Returned(FromWorker(r))
  }

  /** The worker is about to answer job `j`. */
  ghost predicate AnswersNext(s: State, step: Step, j: nat) {
    || (step.WorkerBuild? && s.pc.Building? && s.pc.todo != [] && s.pc.todo[0] == j)
    || (step.WorkerDeliver? && s.pc.Delivering? && s.pc.results != [] && s.pc.results[0].0 == j)
  }

  lemma AnsweredAlready(c: Config, s: State, step: Step, j: nat)
    requires Inv(c, s) && j < |s.jobs| && s.jobs[j].slot != []
    ensures !AnswersNext(s, step, j)
  {
    assert JobGood(s.jobs[j], s.log, j, j in s.taken, j in s.queue, s.pc.Exited?, Answered(s, j));
    if s.pc.Building? && s.pc.todo != [] {
      NextIsNew(s);
    } else if s.pc.Delivering? && s.pc.results != [] {
      NextResultIsNew(s);
    }
  }

  /** Nobody but the worker answering and the caller returning touches a job's channel. */
  lemma ChannelUntouched(c: Config, s: State, step: Step, j: nat)
    requires j < |s.jobs| && !AnswersNext(s, step, j) && !(step.Await? && step.job == j)
    ensures j < |Apply(c, s, step).jobs| && Apply(c, s, step).jobs[j].slot == s.jobs[j].slot
  {
  }

  lemma AwaitKeepsResult(c: Config, s: State, j: nat, choice: Choice, r: Result)
    requires j < |s.jobs| && s.jobs[j].slot == [r]
    ensures j < |Apply(c, s, Await(j, choice)).jobs| && Keeps(Apply(c, s, Await(j, choice)).jobs[j], r)
  {
  }

  lemma StepKeepsResult(c: Config, s: State, step: Step, j: nat, r: Result)
    requires ValidConfig(c) && Inv(c, s) && j < |s.jobs| && Keeps(s.jobs[j], r)
    ensures j < |Apply(c, s, step).jobs| && Keeps(Apply(c, s, step).jobs[j], r)
  {
    if s.jobs[j].phase == Returned(FromWorker(r)) {
      StepExtends(c, s, step);
    } else if step.Await? && step.job == j {
      AwaitKeepsResult(c, s, j, step.choice, r);
    } else {
      AnsweredAlready(c, s, step, j);
      ChannelUntouched(c, s, step, j);
    }
  }

  /** A result once sent is the one its caller gets, however the run goes on: it stays in the
      job's channel until the caller returns with it. */
  lemma {:induction false} ResultReachesCaller(c: Config, s: State, later: seq<Step>, j: nat, r: Result)
    requires ValidConfig(c) && Reachable(c, s) && j < |s.jobs| && s.jobs[j].slot == [r]
    ensures j < |RunFrom(c, s, later).jobs| && Keeps(RunFrom(c, s, later).jobs[j], r)
  {
    RunExtends(c, s, later);
    if later != [] {
      var pre := later[..|later| - 1];
      ResultReachesCaller(c, s, pre, j, r);
      RunExtends(c, s, pre);
      ReachableInv(c, s);
      RunFromInv(c, s, pre);
      StepKeepsResult(c, RunFrom(c, s, pre), later[|later| - 1], j, r);
    }
  }

  // ---------------------------------------------------------------------------
  // When the worker flushes and when it ends
  // ---------------------------------------------------------------------------

  /** After draining, the buffer becomes a batch exactly when it is not empty and the worker is
      ending, has no flush interval, or has reached a limit; otherwise the worker goes back to
      waiting, or ends. */
  lemma FlushesWhenDue(c: Config, s: State)
    requires s.pc.Draining? && s.queue == []
    ensures var s' := Apply(c, s, WorkerDrain);
            var due := s.pc.exiting || c.flushInterval == 0 || |s.buffer| >= c.maxBatch || s.bufferBytes >= c.maxBytes;
            && (due && s.buffer != [] ==> s'.pc == Building(s.buffer, [], s.pc.exiting) && s'.buffer == [])
            && (due && s.buffer == [] ==> s'.pc == if s.pc.exiting then Exited else Select)
            && (!due ==> s'.pc == Select && s'.buffer == s.buffer)
  {
  }

  /** The ticker flushes whatever is buffered; being stopped drains first and then ends. */
  lemma WakesFor(c: Config, s: State)
    requires s.pc.Select?
    ensures c.flushInterval > 0 && s.buffer != [] ==> Apply(c, s, WorkerTick).pc == Building(s.buffer, [], false)
    ensures Apply(c, s, WorkerStop).pc == if s.stopping then Draining(true) else Select
    ensures Apply(c, s, CloseStop) == s.(stopping := true)
    ensures s.queue != [] && InRange(s, s.queue) ==>
              var s' := Apply(c, s, WorkerTake);
              s'.pc == Draining(false) && s'.buffer == s.buffer + [s.queue[0]] && [s.queue[0]] + s'.queue == s.queue
  {
  }

  /** A batch without live jobs, or with all results sent, is over; so is the worker if it was
      ending. */
  lemma BatchEnds(c: Config, s: State)
    ensures s.pc.Building? && s.pc.todo == [] && s.pc.built == [] ==>
              Apply(c, s, WorkerSend).pc == if s.pc.exiting then Exited else Select
    ensures s.pc.Building? && s.pc.todo == [] && s.pc.built != [] ==>
              Apply(c, s, WorkerSend).pc == Sending(s.pc.built, [], s.pc.exiting)
    ensures s.pc.Delivering? && s.pc.results == [] ==>
              Apply(c, s, WorkerDeliver).pc == if s.pc.exiting then Exited else Select
  {
  }

  ghost predicate Ending(pc: Pc) {
    match pc
    case Select => false
    case Draining(exiting) => exiting
    case Building(_, _, exiting) => exiting
    case Sending(_, _, exiting) => exiting
    case Delivering(_, exiting) => exiting
    case Exited => true
  }

  lemma StepEnding(c: Config, s: State, step: Step)
    requires Ending(s.pc) ==> s.stopping
    ensures Ending(Apply(c, s, step).pc) ==> Apply(c, s, step).stopping
    ensures Ending(s.pc) ==> Ending(Apply(c, s, step).pc)
  {
  }

  /** The worker ends only after `Close`. */
  lemma {:induction false} EndsOnlyWhenStopped(c: Config, steps: seq<Step>)
    ensures Ending(Run(c, steps).pc) ==> Run(c, steps).stopping
  {
    if steps != [] {
      EndsOnlyWhenStopped(c, steps[..|steps| - 1]);
      StepEnding(c, Run(c, steps[..|steps| - 1]), steps[|steps| - 1]);
    }
  }

  /** A job's size is that of its fields laid end to end, 8 more with a time to live, and at
      least 128. */
  lemma EstimateIsSize(req: Request)
    ensures var size := |req.stream + req.eventType + req.sender + req.recipient + req.priority + req.payload|;
            var total := if req.ttlSec > 0 then size + 8 else size;
            EstimateBytes(req) >= 128 && EstimateBytes(req) >= total &&
            (EstimateBytes(req) == 128 || EstimateBytes(req) == total)
  {
  }
}
