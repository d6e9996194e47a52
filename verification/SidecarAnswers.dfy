/**
 What a publish is answered with (publishInternal, publishToRedis, publishBatchToRedis in
 internal/service/service.go and PublishBatch in internal/service/grpc.go): every outcome of
 every attempt decides the next step of the call, a success is always answered with its ID, and
 "queued" is only said when no attempt that counts succeeded.
 */
module SidecarAnswers {
  import opened Common
  import P = Pipeline
  import PR = PipelineRuns
  import opened Sidecar
  import opened SidecarRuns
  import opened SidecarSlots

  // ---------------------------------------------------------------------------
  // What each outcome leads to
  // ---------------------------------------------------------------------------

  /** The call has one answer more: it replies if that was the last, or goes on in the same pass. */
  ghost predicate Answered(reqs: seq<Request>, mode: Mode, slots: seq<Slot>, slot: Slot, pc: Pc) {
    if |slots| + 1 == |reqs| then pc == Replied(slots + [slot]) else pc == Route(mode, slots + [slot])
  }

  /** A call waiting for its job: a success is the call's next answer; an error or a cancelled
      context fails the attempt; queue-full or stopped leads to a direct publish. */
  lemma AwaitAnswers(cfg: Config, s: State, c: nat, choice: P.Choice)
    requires ValidConfig(cfg) && Inv(cfg, s) && c < |s.calls| && s.calls[c].pc.InPipeline?
    ensures var s', pc := Apply(cfg, s, AwaitPipeline(c, choice)), s.calls[c].pc;
            && pc.job < |s'.pipe.jobs|
            && (s'.pipe.jobs[pc.job].phase.Returned? && s.pipe.jobs[pc.job].phase.Waiting? ==>
                  match s'.pipe.jobs[pc.job].phase.outcome
                  case FromWorker(Ok(id)) => Answered(s.calls[c].reqs, pc.mode, pc.slots, Id(id), s'.calls[c].pc)
                  case FromWorker(Err) => s'.calls[c].pc == Failed(pc.mode, pc.slots)
                  case Cancelled => s'.calls[c].pc == Failed(pc.mode, pc.slots)
                  case _ => s'.calls[c].pc == PublishDirect(pc.mode, pc.slots, Some(pc.job)))
  {
    assert CallGood(s, c, s.calls[c]);
    AwaitGood(cfg, s.pipe, s.calls[c].pc.job, choice);
  }

  /** A call going to the pipeline makes a job for its next request; refused as full or stopped
      it publishes directly, cancelled it fails, accepted it waits. */
  lemma SubmitAnswers(cfg: Config, s: State, c: nat, ctxDone: bool, choice: P.Choice)
    requires ValidConfig(cfg) && Inv(cfg, s) && cfg.usePipeline && c < |s.calls| && s.calls[c].pc.Route?
    ensures var s', pc, j := Apply(cfg, s, RoutePipeline(c, ctxDone, choice)), s.calls[c].pc, |s.pipe.jobs|;
            s' == s ||
            (|s'.pipe.jobs| == j + 1 && s'.pipe.jobs[j].req == s.calls[c].reqs[|pc.slots|] &&
             match s'.pipe.jobs[j].phase
             case Waiting => s'.calls[c].pc == InPipeline(pc.mode, pc.slots, j) && s'.pipe.queue == s.pipe.queue + [j]
             case Returned(Cancelled) => s'.calls[c].pc == Failed(pc.mode, pc.slots)
             case Returned(QueueFull) => s'.calls[c].pc == PublishDirect(pc.mode, pc.slots, Some(j))
             case Returned(Stopped) => s'.calls[c].pc == PublishDirect(pc.mode, pc.slots, Some(j))
             case _ => false)
  {
    assert CallGood(s, c, s.calls[c]);
    var slots := s.calls[c].pc.slots;
    var caller := P.Caller(c, |slots|, s.calls[c].pc.mode.PerEvent?);
    SubmitExactly(cfg, s.pipe, caller, s.calls[c].reqs[|slots|], ctxDone, choice);
  }

  /** Submitting adds one job at the end and touches no other. */
  lemma SubmitExactly(
    cfg: Config, pipe: P.State, caller: P.Caller, req: Request, ctxDone: bool, choice: P.Choice)
    ensures var pipe', j := Submit(cfg, pipe, caller, req, ctxDone, choice), |pipe.jobs|;
            && |pipe'.jobs| == j + 1 && pipe'.jobs[..j] == pipe.jobs
            && pipe'.jobs[j].req == req && pipe'.jobs[j].caller == caller
            && (pipe'.jobs[j].phase.Waiting? ==> pipe'.queue == pipe.queue + [j])
            && (pipe'.jobs[j].phase.Returned? ==> !pipe'.jobs[j].phase.outcome.FromWorker?)
  {
  }

  /** A direct publish: applied and answered, its entry's ID is the call's next answer; otherwise
      the attempt fails, the entry being there or not. */
  lemma DirectAnswers(cfg: Config, s: State, c: nat, out: P.Cmd)
    requires Inv(cfg, s) && c < |s.calls| && (s.calls[c].pc.PublishDirect? || s.calls[c].pc.ManyDirect?)
    ensures var s', pc, reqs := Apply(cfg, s, DirectPublish(c, out)), s.calls[c].pc, s.calls[c].reqs;
            var slots, id := pc.slots, |s.pipe.log|;
            && |slots| < |reqs|
            && s'.pipe.log == (if out == P.NotApplied then s.pipe.log
                               else s.pipe.log + [P.Entry(reqs[|slots|], P.Direct(c))])
            && (out == P.Applied && pc.PublishDirect? ==> Answered(reqs, pc.mode, slots, Id(id), s'.calls[c].pc))
            && (out != P.Applied && pc.PublishDirect? ==> s'.calls[c].pc == Failed(pc.mode, slots))
            && (out == P.Applied && pc.ManyDirect? ==>
                  s'.calls[c].pc == if |slots| + 1 == |reqs| then Replied(slots + [Id(id)])
                                    else ManyDirect(slots + [Id(id)]))
            && (out != P.Applied && pc.ManyDirect? ==> s'.calls[c].pc == BatchFailed(slots))
  {
    assert CallGood(s, c, s.calls[c]);
  }

  /** Routing: directly without a pipeline or when adaptive routing says so, else to the pipeline. */
  lemma RouteAnswers(cfg: Config, s: State, c: nat)
    requires c < |s.calls| && s.calls[c].pc.Route?
    ensures var pc := s.calls[c].pc;
            Apply(cfg, s, RouteDirect(c)).calls[c].pc ==
            if cfg.usePipeline && !cfg.adaptive then pc else PublishDirect(pc.mode, pc.slots, None)
    ensures !cfg.usePipeline ==> forall ctxDone, choice :: Apply(cfg, s, RoutePipeline(c, ctxDone, choice)) == s
  {
  }

  /** A failed attempt: in the pass over single events the request is rejected or written to the
      log, and written means queued, with a new record of this request at the end of the file; in
      the first pass of a batch it ends the pass. */
  lemma FailureAnswers(cfg: Config, s: State, c: nat)
    requires Inv(cfg, s) && c < |s.calls| && s.calls[c].pc.Failed?
    ensures var pc, reqs, tag := s.calls[c].pc, s.calls[c].reqs, |s.wal.records|;
            && |pc.slots| < |reqs|
            && (pc.mode.First? ==> Apply(cfg, s, EndFirst(c)).calls[c].pc == BatchFailed(pc.slots))
            && (pc.mode.PerEvent? ==>
                  && Apply(cfg, s, SkipWal(c)).calls[c].pc == Rejected
                  && (s.wal.replay.None? ==> Apply(cfg, s, WriteWal(c, false)).calls[c].pc == Rejected)
                  && (s.wal.replay.None? ==>
                        var s' := Apply(cfg, s, WriteWal(c, true));
                        && Answered(reqs, PerEvent, pc.slots, Queued(tag), s'.calls[c].pc)
                        && s'.wal.file == s.wal.file + [Line(tag, Some(reqs[|pc.slots|]))]
                        && s'.wal.records == s.wal.records + [Some(reqs[|pc.slots|])]))
  {
    assert CallGood(s, c, s.calls[c]);
  }

  /** A failed batch is rejected if some of it was answered or the error says so; otherwise every
      event is published again by itself. */
  lemma BatchFailureAnswers(cfg: Config, s: State, c: nat, skip: bool)
    requires c < |s.calls| && s.calls[c].pc.BatchFailed?
    ensures Apply(cfg, s, EndBatch(c, skip)).calls[c].pc
            == if s.calls[c].pc.slots == [] && !skip then Route(PerEvent, []) else Rejected
  {
  }

  /** Calls start with nothing answered; a batch of several goes to the pipeline together. */
  lemma StartAnswers(cfg: Config, s: State, req: Request, reqs: seq<Request>)
    ensures Apply(cfg, s, StartPublish(req)).calls == s.calls + [Call([req], Route(PerEvent, []))]
    ensures reqs != [] ==>
              Apply(cfg, s, StartBatch(reqs)).calls
              == s.calls + [Call(reqs, if cfg.usePipeline && |reqs| > 1 then ManyEnqueue([]) else Route(First, []))]
  {
  }

  /** Putting a batch on the queue: a job per request in order; full or stopped sends the whole
      batch directly, cancelled fails it. */
  lemma EnqueueManyAnswers(cfg: Config, s: State, c: nat, ctxDone: bool, choice: P.Choice)
    requires ValidConfig(cfg) && Inv(cfg, s) && c < |s.calls| && s.calls[c].pc.ManyEnqueue?
    ensures var s', jobs, reqs := Apply(cfg, s, EnqueueMany(c, ctxDone, choice)), s.calls[c].pc.jobs, s.calls[c].reqs;
            var j := |s.pipe.jobs|;
            s' == s ||
            (|s'.pipe.jobs| == j + 1 && s'.pipe.jobs[j].req == reqs[|jobs|] &&
             match s'.pipe.jobs[j].phase
             case Waiting =>
               && s'.pipe.queue == s.pipe.queue + [j]
               && s'.calls[c].pc == if |jobs| + 1 == |reqs| then ManyCollect(jobs + [j], [])
                                    else ManyEnqueue(jobs + [j])
             case Returned(Cancelled) => s'.calls[c].pc == BatchFailed([])
             case Returned(QueueFull) => s'.calls[c].pc == ManyDirect([])
             case Returned(Stopped) => s'.calls[c].pc == ManyDirect([])
             case _ => false)
  {
    assert CallGood(s, c, s.calls[c]);
    var jobs := s.calls[c].pc.jobs;
    SubmitExactly(cfg, s.pipe, P.Caller(c, |jobs|, false), s.calls[c].reqs[|jobs|], ctxDone, choice);
  }

  /** Collecting a batch's results, in order: with the last one in, the reply is all the IDs if
      there is no error, and otherwise the batch failed with the IDs before the first error. */
  lemma CollectAnswers(cfg: Config, s: State, c: nat, choice: P.Choice)
    requires ValidConfig(cfg) && Inv(cfg, s) && c < |s.calls| && s.calls[c].pc.ManyCollect?
    ensures var s', pc := Apply(cfg, s, CollectMany(c, choice)), s.calls[c].pc;
            && |pc.results| < |pc.jobs| == |s.calls[c].reqs|
            && var j := pc.jobs[|pc.results|];
            && j < |s'.pipe.jobs|
            && (s'.pipe.jobs[j].phase.Returned? && s.pipe.jobs[j].phase.Waiting? ==>
                  match s'.pipe.jobs[j].phase.outcome
                  case FromWorker(r) => Collected(pc.jobs, pc.results + [r], s'.calls[c].pc)
                  case Cancelled => s'.calls[c].pc == BatchFailed([])
                  case _ => s'.calls[c].pc == ManyDirect([]))
  {
    assert CallGood(s, c, s.calls[c]);
    var pc := s.calls[c].pc;
    assert JobFor(s, P.Caller(c, |pc.results|, false), pc.jobs[|pc.results|], s.calls[c].reqs[|pc.results|]);
    AwaitGood(cfg, s.pipe, pc.jobs[|pc.results|], choice);
  }

  ghost predicate Collected(jobs: seq<nat>, results: seq<P.Result>, pc: Pc) {
    if |results| < |jobs| then pc == ManyCollect(jobs, results)
    else if forall i :: 0 <= i < |results| ==> results[i].Ok? then
      pc.Replied? && |pc.slots| == |results| && forall i :: 0 <= i < |results| ==> pc.slots[i] == Id(results[i].id)
    else
      && pc.BatchFailed? && |pc.slots| < |results| && results[|pc.slots|] == P.Err
      && forall i :: 0 <= i < |pc.slots| ==> results[i].Ok? && pc.slots[i] == Id(results[i].id)
  }

  /** One line of a replay: it is published when the pass is still on, the limit is not reached
      and it decodes; it leaves the log only if that publish was answered; the first failure or
      the limit ends the pass, and then every further line stays. */
  lemma ReplayNextExactly(cfg: Config, s: State, out: P.Cmd)
    requires s.wal.replay.Some? && s.wal.replay.value.unread != []
    ensures var s', rp := Apply(cfg, s, ReplayNext(out)), s.wal.replay.value;
            var p, line := rp.progress, rp.unread[0];
            var going := p.processing && |p.replayed| < cfg.replayBatch;
            var tried := going && line.req.Some?;
            && s'.wal.replay.Some? && s'.wal.file == s.wal.file && s'.wal.records == s.wal.records
            && s'.wal.replay.value.unread == rp.unread[1..]
            && s'.pipe.log == (if tried && out != P.NotApplied
                               then s.pipe.log + [P.Entry(cfg.normal(line.req.value), P.Replay(line.tag))]
                               else s.pipe.log)
            && var p' := s'.wal.replay.value.progress;
            && p'.remaining == (if tried && out == P.Applied then p.remaining else p.remaining + [line])
            && |p'.replayed| == (if tried && out == P.Applied then |p.replayed| + 1 else |p.replayed|)
            && (p'.processing <==> going && (line.req.None? || out == P.Applied))
  {
  }

  /** A replay reads the whole file; having read it, it leaves exactly what it retained, or, on an
      error, the file as it was. */
  lemma ReplayEdges(cfg: Config, s: State)
    ensures s.wal.replay.None? && cfg.replayBatch > 0 ==>
              var wal := Apply(cfg, s, ReplayStart).wal;
              && wal.file == s.wal.file && wal.replay.Some? && wal.replay.value.unread == s.wal.file
              && wal.replay.value.progress.remaining == [] && wal.replay.value.progress.replayed == []
              && wal.replay.value.progress.processing
    ensures s.wal.replay.Some? && s.wal.replay.value.unread == [] ==>
              var wal := Apply(cfg, s, ReplayFinish(true)).wal;
              wal.replay.None? && wal.file == s.wal.replay.value.progress.remaining
    ensures s.wal.replay.Some? ==>
              var wal := Apply(cfg, s, ReplayFinish(false)).wal; wal.replay.None? && wal.file == s.wal.file
  {
  }

  // ---------------------------------------------------------------------------
  // Over all runs: a success is answered with its ID
  // ---------------------------------------------------------------------------

  ghost predicate ManyPc(pc: Pc) {
    pc.ManyEnqueue? || pc.ManyCollect? || pc.ManyDirect?
  }

  /** In the pass over single events, or at the end. */
  ghost predicate PerEventPc(pc: Pc) {
    match pc
    case Route(mode, _) => mode.PerEvent?
    case InPipeline(mode, _, _) => mode.PerEvent?
    case PublishDirect(mode, _, _) => mode.PerEvent?
    case Failed(mode, _) => mode.PerEvent?
    case Replied(_) => true
    case Rejected => true
    case _ => false
  }

  /** Jobs whose success the call must answer: those of the pass over single events, and all jobs
      of a call with one request. */
  ghost predicate Counts(calls: seq<Call>, caller: P.Caller) {
    caller.call < |calls| && (caller.perEvent || |calls[caller.call].reqs| == 1)
  }

  ghost predicate JobAnswered(calls: seq<Call>, job: P.Job) {
    && job.caller.call < |calls|
    && var pc := calls[job.caller.call].pc;
    && (job.caller.perEvent ==> PerEventPc(pc))
    && forall id: nat :: Counts(calls, job.caller) && job.phase == P.Returned(P.FromWorker(P.Ok(id))) ==>
         pc.Rejected? || HeldAt(pc, job.caller.part) == Some(Id(id))
  }

  ghost predicate AllAnswered(s: State) {
    && (forall j :: 0 <= j < |s.pipe.jobs| ==> JobAnswered(s.calls, s.pipe.jobs[j]))
    && (forall c :: 0 <= c < |s.calls| && ManyPc(s.calls[c].pc) ==> |s.calls[c].reqs| > 1)
  }

  /** A call's place changed so that its jobs stay answered. */
  ghost predicate Follows(reqs: seq<Request>, pc: Pc, pc': Pc) {
    && (PerEventPc(pc) ==> PerEventPc(pc'))
    && (ManyPc(pc') ==> |reqs| > 1)
    && (PerEventPc(pc) || |reqs| == 1 ==>
          pc'.Rejected? || forall i: nat :: HeldAt(pc, i).Some? ==> HeldAt(pc', i) == HeldAt(pc, i))
  }

  /** Every job is as before, or was made or returned for call `c` and is answered. */
  ghost predicate JobsFollow(s: State, s': State) {
    && |s.pipe.jobs| <= |s'.pipe.jobs|
    && (forall j :: 0 <= j < |s.pipe.jobs| ==>
          || (s'.pipe.jobs[j].caller == s.pipe.jobs[j].caller && s'.pipe.jobs[j].phase == s.pipe.jobs[j].phase)
          || JobAnswered(s'.calls, s'.pipe.jobs[j]))
    && (forall j :: |s.pipe.jobs| <= j < |s'.pipe.jobs| ==> JobAnswered(s'.calls, s'.pipe.jobs[j]))
  }

  lemma OneCallFollows(s: State, s': State, c: nat)
    requires AllAnswered(s) && c < |s.calls| && JobsFollow(s, s')
    requires |s'.calls| == |s.calls| && s'.calls == s.calls[c := s.calls[c].(pc := s'.calls[c].pc)]
    requires Follows(s.calls[c].reqs, s.calls[c].pc, s'.calls[c].pc)
    requires s.calls[c].pc.Rejected? ==> s'.calls[c].pc.Rejected?
    ensures AllAnswered(s')
  {
    forall j | 0 <= j < |s'.pipe.jobs|
      ensures JobAnswered(s'.calls, s'.pipe.jobs[j])
    {
      if j < |s.pipe.jobs| {
        assert JobAnswered(s.calls, s.pipe.jobs[j]);
      }
    }
  }

  lemma CallsFollow(s: State, s': State)
    requires AllAnswered(s) && JobsFollow(s, s') && s.calls <= s'.calls
    requires forall c :: |s.calls| <= c < |s'.calls| && ManyPc(s'.calls[c].pc) ==> |s'.calls[c].reqs| > 1
    ensures AllAnswered(s')
  {
    forall j | 0 <= j < |s'.pipe.jobs|
      ensures JobAnswered(s'.calls, s'.pipe.jobs[j])
    {
      if j < |s.pipe.jobs| {
        assert JobAnswered(s.calls, s.pipe.jobs[j]);
      }
    }
  }

  /** An await touches its own job only. */
  lemma AwaitOnly(c: P.Config, pipe: P.State, j: nat, choice: P.Choice)
    ensures var pipe' := P.Apply(c, pipe, P.Await(j, choice));
            |pipe'.jobs| == |pipe.jobs| && forall i :: 0 <= i < |pipe.jobs| && i != j ==> pipe'.jobs[i] == pipe.jobs[i]
  {
  }

  /** The worker's steps and cancellations leave every job's caller and phase alone. */
  lemma PhasesStay(c: P.Config, pipe: P.State, step: P.Step)
    requires !step.Create? && !step.TryEnqueue? && !step.Await?
    ensures var pipe' := P.Apply(c, pipe, step);
            |pipe'.jobs| == |pipe.jobs| &&
            forall j :: 0 <= j < |pipe.jobs| ==>
              pipe'.jobs[j].caller == pipe.jobs[j].caller && pipe'.jobs[j].phase == pipe.jobs[j].phase
  {
    match step {
      case CancelCtx(_) =>
      case WorkerBuild =>
      case WorkerDeliver =>
        var pipe' := P.Apply(c, pipe, step);
        if pipe.pc.Delivering? && pipe.pc.results != [] && pipe.pc.results[0].0 < |pipe.jobs| {
          assert pipe'.jobs == P.Send(pipe, pipe.pc.results[0].0, pipe.pc.results[0].1).jobs;
        } else {
          assert pipe'.jobs == pipe.jobs;
        }
      case _ =>
    }
  }

  lemma AwaitFollows(cfg: Config, s: State, c: nat, choice: P.Choice)
    requires ValidConfig(cfg) && Inv(cfg, s) && AllAnswered(s) && c < |s.calls| && s.calls[c].pc.InPipeline?
    ensures AllAnswered(Apply(cfg, s, AwaitPipeline(c, choice)))
  {
    var s', pc := Apply(cfg, s, AwaitPipeline(c, choice)), s.calls[c].pc;
    assert CallGood(s, c, s.calls[c]);
    if s' != s {
      AwaitOnly(cfg.pipeline, s.pipe, pc.job, choice);
      AwaitAnswers(cfg, s, c, choice);
      PR.StepExtends(cfg.pipeline, s.pipe, P.Await(pc.job, choice));
      assert JobAnswered(s.calls, s.pipe.jobs[pc.job]);
      assert JobAnswered(s'.calls, s'.pipe.jobs[pc.job]);
      OneCallFollows(s, s', c);
    }
  }

  lemma CollectFollows(cfg: Config, s: State, c: nat, choice: P.Choice)
    requires ValidConfig(cfg) && Inv(cfg, s) && AllAnswered(s) && c < |s.calls| && s.calls[c].pc.ManyCollect?
    ensures AllAnswered(Apply(cfg, s, CollectMany(c, choice)))
  {
    var s', pc := Apply(cfg, s, CollectMany(c, choice)), s.calls[c].pc;
    assert CallGood(s, c, s.calls[c]);
    if s' != s {
      var j := pc.jobs[|pc.results|];
      assert JobFor(s, P.Caller(c, |pc.results|, false), j, s.calls[c].reqs[|pc.results|]);
      AwaitOnly(cfg.pipeline, s.pipe, j, choice);
      PR.StepExtends(cfg.pipeline, s.pipe, P.Await(j, choice));
      assert JobAnswered(s'.calls, s'.pipe.jobs[j]);
      OneCallFollows(s, s', c);
    }
  }

  /** A job was just made for a call that is waiting for it, gave up on it or failed. */
  lemma MadeFollows(
    cfg: Config, s: State, s': State, c: nat, caller: P.Caller, part: nat, ctxDone: bool, choice: P.Choice)
    requires AllAnswered(s) && c < |s.calls| && part < |s.calls[c].reqs| && caller.call == c
    requires s'.pipe == Submit(cfg, s.pipe, caller, s.calls[c].reqs[part], ctxDone, choice)
    requires |s'.calls| == |s.calls| && s'.calls == s.calls[c := s.calls[c].(pc := s'.calls[c].pc)]
    requires caller.perEvent ==> PerEventPc(s'.calls[c].pc)
    requires Follows(s.calls[c].reqs, s.calls[c].pc, s'.calls[c].pc) && !s.calls[c].pc.Rejected?
    ensures AllAnswered(s')
  {
    SubmitExactly(cfg, s.pipe, caller, s.calls[c].reqs[part], ctxDone, choice);
    assert forall i :: 0 <= i < |s.pipe.jobs| ==> s'.pipe.jobs[i] == s'.pipe.jobs[..|s.pipe.jobs|][i];
    assert JobAnswered(s'.calls, s'.pipe.jobs[|s.pipe.jobs|]);
    OneCallFollows(s, s', c);
  }

  lemma RouteFollows(cfg: Config, s: State, c: nat, ctxDone: bool, choice: P.Choice)
    requires ValidConfig(cfg) && Inv(cfg, s) && AllAnswered(s) && c < |s.calls| && s.calls[c].pc.Route?
    ensures AllAnswered(Apply(cfg, s, RoutePipeline(c, ctxDone, choice)))
  {
    var s', pc := Apply(cfg, s, RoutePipeline(c, ctxDone, choice)), s.calls[c].pc;
    assert CallGood(s, c, s.calls[c]);
    if s' != s {
      MadeFollows(cfg, s, s', c, P.Caller(c, |pc.slots|, pc.mode.PerEvent?), |pc.slots|, ctxDone, choice);
    }
  }

  lemma EnqueueFollows(cfg: Config, s: State, c: nat, ctxDone: bool, choice: P.Choice)
    requires ValidConfig(cfg) && Inv(cfg, s) && AllAnswered(s) && c < |s.calls| && s.calls[c].pc.ManyEnqueue?
    ensures AllAnswered(Apply(cfg, s, EnqueueMany(c, ctxDone, choice)))
  {
    var s', jobs := Apply(cfg, s, EnqueueMany(c, ctxDone, choice)), s.calls[c].pc.jobs;
    assert CallGood(s, c, s.calls[c]);
    if s' != s {
      MadeFollows(cfg, s, s', c, P.Caller(c, |jobs|, false), |jobs|, ctxDone, choice);
    }
  }

  /** The other steps of a call touch no job. */
  lemma PlainFollows(cfg: Config, s: State, c: nat, step: Step)
    requires Inv(cfg, s) && AllAnswered(s) && c < |s.calls|
    requires !step.RoutePipeline? && !step.EnqueueMany? && !step.AwaitPipeline? && !step.CollectMany?
    ensures AllAnswered(ApplyCall(cfg, s, c, step))
  {
    var s' := ApplyCall(cfg, s, c, step);
    assert CallGood(s, c, s.calls[c]);
    assert s'.pipe.jobs == s.pipe.jobs;
    if s' != s {
      OneCallFollows(s, s', c);
    }
  }

  lemma CallFollows(cfg: Config, s: State, step: Step)
    requires ValidConfig(cfg) && Inv(cfg, s) && AllAnswered(s)
    requires !step.StartPublish? && !step.StartBatch? && !step.PipelineStep?
    requires !step.ReplayStart? && !step.ReplayNext? && !step.ReplayFinish?
    ensures AllAnswered(Apply(cfg, s, step))
  {
    if step.call < |s.calls| {
      var c := step.call;
      match step {
        case AwaitPipeline(_, choice) => if s.calls[c].pc.InPipeline? { AwaitFollows(cfg, s, c, choice); }
        case CollectMany(_, choice) => if s.calls[c].pc.ManyCollect? { CollectFollows(cfg, s, c, choice); }
        case RoutePipeline(_, ctxDone, choice) =>
          if s.calls[c].pc.Route? { RouteFollows(cfg, s, c, ctxDone, choice); }
        case EnqueueMany(_, ctxDone, choice) =>
          if s.calls[c].pc.ManyEnqueue? { EnqueueFollows(cfg, s, c, ctxDone, choice); }
        case _ => PlainFollows(cfg, s, c, step);
      }
    }
  }

  lemma StepFollows(cfg: Config, s: State, step: Step)
    requires ValidConfig(cfg) && Inv(cfg, s) && AllAnswered(s)
    ensures AllAnswered(Apply(cfg, s, step))
  {
    match step {
      case StartPublish(_) => CallsFollow(s, Apply(cfg, s, step));
      case StartBatch(_) => CallsFollow(s, Apply(cfg, s, step));
      case PipelineStep(ps) =>
        if !ps.Create? && !ps.TryEnqueue? && !ps.Await? { PhasesStay(cfg.pipeline, s.pipe, ps); }
        CallsFollow(s, Apply(cfg, s, step));
      case ReplayStart => CallsFollow(s, Apply(cfg, s, step));
      case ReplayNext(_) => CallsFollow(s, Apply(cfg, s, step));
      case ReplayFinish(_) => CallsFollow(s, Apply(cfg, s, step));
      case _ => CallFollows(cfg, s, step);
    }
  }

  lemma {:induction false} RunAnswered(cfg: Config, found: seq<Option<Request>>, steps: seq<Step>)
    requires ValidConfig(cfg)
    ensures AllAnswered(Run(cfg, found, steps))
  {
    if steps != [] {
      var pre := steps[..|steps| - 1];
      RunAnswered(cfg, found, pre);
      RunGood(cfg, found, pre);
      StepFollows(cfg, Run(cfg, found, pre), steps[|steps| - 1]);
    }
  }

  /** In every run: when a job came back with an ID, the call it was made for holds that ID for
      that request, unless the call was rejected. This is for every job of a single publish and
      for every job of the pass over single events of a batch. */
  lemma SuccessIsAnswered(cfg: Config, found: seq<Option<Request>>, steps: seq<Step>, j: nat, id: nat)
    requires ValidConfig(cfg) && j < |Run(cfg, found, steps).pipe.jobs|
    requires var s := Run(cfg, found, steps);
             Counts(s.calls, s.pipe.jobs[j].caller) && s.pipe.jobs[j].phase == P.Returned(P.FromWorker(P.Ok(id)))
    ensures var s := Run(cfg, found, steps);
            var caller := s.pipe.jobs[j].caller;
            var pc := s.calls[caller.call].pc;
            pc.Rejected? || HeldAt(pc, caller.part) == Some(Id(id))
  {
    RunAnswered(cfg, found, steps);
    var s := Run(cfg, found, steps);
    assert JobAnswered(s.calls, s.pipe.jobs[j]);
  }

  /** Hence a slot answered "queued" had no successful job: none at all for a call with one
      request, none in the pass over single events for a batch. */
  lemma QueuedMeansNoSuccess(
    cfg: Config, found: seq<Option<Request>>, steps: seq<Step>, c: nat, i: nat, tag: nat, j: nat)
    requires ValidConfig(cfg)
    requires var s := Run(cfg, found, steps);
             && c < |s.calls| && s.calls[c].pc.Replied? && i < |s.calls[c].pc.slots|
             && s.calls[c].pc.slots[i] == Queued(tag)
             && j < |s.pipe.jobs| && s.pipe.jobs[j].caller.call == c && s.pipe.jobs[j].caller.part == i
             && Counts(s.calls, s.pipe.jobs[j].caller)
    ensures var phase := Run(cfg, found, steps).pipe.jobs[j].phase;
            !(phase.Returned? && phase.outcome.FromWorker? && phase.outcome.result.Ok?)
  {
    var s := Run(cfg, found, steps);
    var phase := s.pipe.jobs[j].phase;
    if phase.Returned? && phase.outcome.FromWorker? && phase.outcome.result.Ok? {
      SuccessIsAnswered(cfg, found, steps, j, phase.outcome.result.id);
      assert false;
    }
  }
}
