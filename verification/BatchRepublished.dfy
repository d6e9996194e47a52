/**
 For a batch of several requests "queued" can be said of a request a job already published: the
 pipeline's results are dropped as a whole when the first one is an error, and every event is
 published again (publishBatchToRedis in internal/service/service.go, PublishBatch in
 internal/service/grpc.go). This is the run; `SidecarAnswers.QueuedMeansNoSuccess` says where it
 cannot happen.
 */
module BatchRepublished {
  import opened Common
  import P = Pipeline
  import opened Sidecar

  const REQ := Request("s", "e", "", "", "", "p", 0)
  const CFG := Config(P.Config(2, 10, 1000000, 0), true, true, 1, (r: Request) => r)

  function MadeJob(part: nat, slot: seq<P.Result>, sent: nat, phase: P.Phase): P.Job {
    P.Job(REQ, P.Caller(0, part, false), 128, false, slot, sent, phase)
  }

  const WAITING := [MadeJob(0, [], 0, P.Waiting), MadeJob(1, [], 0, P.Waiting)]
  const TOLD := [MadeJob(0, [P.Err], 1, P.Waiting), MadeJob(1, [P.Ok(0)], 1, P.Waiting)]
  const DONE := [
    MadeJob(0, [], 1, P.Returned(P.FromWorker(P.Err))), MadeJob(1, [], 1, P.Returned(P.FromWorker(P.Ok(0))))]

  /** The pipeline: both jobs queued; buffered; a batch; sent; answered; both callers back. */
  const FIRST := P.INIT.(jobs := [MadeJob(0, [], 0, P.Waiting)], queue := [0])
  const QUEUED := P.INIT.(jobs := WAITING, queue := [0, 1])
  const BUFFERED := QUEUED.(queue := [], buffer := [0, 1], bufferBytes := 256, taken := [0, 1], pc := P.Draining(false))
  const BATCH := BUFFERED.(buffer := [], bufferBytes := 0, examined := [0, 1], pc := P.Building([], [0, 1], false))
  const SENT := BATCH.(
    log := [P.Entry(REQ, P.Worker(1))], issued := [0, 1], pc := P.Sending([], [(0, P.Err), (1, P.Ok(0))], false))
  const ANSWERED := SENT.(jobs := TOLD, pc := P.Delivering([], false))
  const RETURNED := ANSWERED.(jobs := DONE)

  function At(pipe: P.State, wal: WalState, pc: Pc): State {
    State(pipe, wal, [Call([REQ, REQ], pc)])
  }

  const EMPTY := WalState([], [], None)
  const ONE := WalState([Line(0, Some(REQ))], [Some(REQ)], None)
  const BOTH := WalState([Line(0, Some(REQ)), Line(1, Some(REQ))], [Some(REQ), Some(REQ)], None)

  /** Some run from an empty log reaches this state. */
  ghost predicate Reached(s: State) {
    exists steps :: Run(CFG, [], steps) == s
  }

  lemma OneStep(s: State, step: Step)
    requires Reached(s)
    ensures Reached(Apply(CFG, s, step))
  {
    var steps :| Run(CFG, [], steps) == s;
    assert (steps + [step])[..|steps|] == steps;
    assert Run(CFG, [], steps + [step]) == Apply(CFG, s, step);
  }

  /** Steps of the pipeline alone, while the call collects its results. */
  function Collecting(pipe: P.State): State {
    At(pipe, EMPTY, ManyCollect([0, 1], []))
  }

  lemma PipeStep(pipe: P.State, step: P.Step)
    requires Reached(Collecting(pipe)) && !step.Create? && !step.TryEnqueue? && !step.Await? && !step.External?
    ensures Reached(Collecting(P.Apply(CFG.pipeline, pipe, step)))
  {
    OneStep(Collecting(pipe), PipelineStep(step));
  }

  lemma Submitted(pipe: P.State, part: nat)
    requires |pipe.queue| < 2
    ensures Submit(CFG, pipe, P.Caller(0, part, false), REQ, false, P.Proceed)
            == pipe.(jobs := pipe.jobs + [MadeJob(part, [], 0, P.Waiting)], queue := pipe.queue + [|pipe.jobs|])
  {
    assert P.EstimateBytes(REQ) == 128;
    var created := P.Apply(CFG.pipeline, pipe, P.Create(REQ, P.Caller(0, part, false)));
    assert created.jobs == pipe.jobs + [MadeJob(part, [], 0, P.Created)];
    assert created.jobs[|pipe.jobs| := MadeJob(part, [], 0, P.Waiting)]
        == pipe.jobs + [MadeJob(part, [], 0, P.Waiting)];
  }

  lemma Started()
    ensures Apply(CFG, Init([]), StartBatch([REQ, REQ])) == At(P.INIT, EMPTY, ManyEnqueue([]))
  {
    assert Init([]).wal.file == [];
  }

  lemma EnqueuedOne()
    ensures Apply(CFG, At(P.INIT, EMPTY, ManyEnqueue([])), EnqueueMany(0, false, P.Proceed))
            == At(FIRST, EMPTY, ManyEnqueue([0]))
  {
    Submitted(P.INIT, 0);
    assert P.INIT.jobs + [MadeJob(0, [], 0, P.Waiting)] == FIRST.jobs && P.INIT.queue + [0] == FIRST.queue;
    var none: seq<nat> := [];
    assert none + [0] == [0];
  }

  lemma EnqueuedBoth()
    ensures Apply(CFG, At(FIRST, EMPTY, ManyEnqueue([0])), EnqueueMany(0, false, P.Proceed)) == Collecting(QUEUED)
  {
    Submitted(FIRST, 1);
    assert FIRST.jobs + [MadeJob(1, [], 0, P.Waiting)] == WAITING && FIRST.queue + [1] == [0, 1];
    assert [0] + [1] == [0, 1];
  }

  lemma Taken()
    ensures P.Apply(CFG.pipeline, P.Apply(CFG.pipeline, QUEUED, P.WorkerTake), P.WorkerDrain) == BUFFERED
  {
    var one := P.Apply(CFG.pipeline, QUEUED, P.WorkerTake);
    assert [0, 1][1..] == [1] && [1][1..] == [];
    assert one.queue == [1] && one.buffer == [0] && one.taken == [0] && one.bufferBytes == 128;
    var two := P.Apply(CFG.pipeline, one, P.WorkerDrain);
    assert two.buffer == [0, 1] && two.taken == [0, 1];
  }

  lemma Built()
    ensures var b0 := P.Apply(CFG.pipeline, BUFFERED, P.WorkerDrain);
            P.Apply(CFG.pipeline, P.Apply(CFG.pipeline, b0, P.WorkerBuild), P.WorkerBuild) == BATCH
  {
    var b0 := P.Apply(CFG.pipeline, BUFFERED, P.WorkerDrain);
    assert b0.pc == P.Building([0, 1], [], false);
    var b1 := P.Apply(CFG.pipeline, b0, P.WorkerBuild);
    assert [0, 1][1..] == [1] && [1][1..] == [];
    assert b1.pc == P.Building([1], [0], false) && b1.examined == [0];
    var b2 := P.Apply(CFG.pipeline, b1, P.WorkerBuild);
    assert b2.examined == [0, 1];
  }

  lemma SentBoth()
    ensures var x0 := P.Apply(CFG.pipeline, BATCH, P.WorkerSend);
            var x1 := P.Apply(CFG.pipeline, x0, P.WorkerXadd(P.NotApplied));
            P.Apply(CFG.pipeline, x1, P.WorkerXadd(P.Applied)) == SENT
  {
    var x0 := P.Apply(CFG.pipeline, BATCH, P.WorkerSend);
    assert x0.pc == P.Sending([0, 1], [], false);
    var x1 := P.Apply(CFG.pipeline, x0, P.WorkerXadd(P.NotApplied));
    assert [0, 1][1..] == [1] && [1][1..] == [];
    assert x1.pc == P.Sending([1], [(0, P.Err)], false) && x1.issued == [0];
    var x2 := P.Apply(CFG.pipeline, x1, P.WorkerXadd(P.Applied));
    assert x2.issued == [0, 1] && x2.log == [P.Entry(REQ, P.Worker(1))];
    assert x2.pc.replies == [(0, P.Err), (1, P.Ok(0))];
  }

  lemma AnsweredBoth()
    ensures var d0 := P.Apply(CFG.pipeline, SENT, P.WorkerExec(false));
            P.Apply(CFG.pipeline, P.Apply(CFG.pipeline, d0, P.WorkerDeliver), P.WorkerDeliver) == ANSWERED
  {
    var d0 := P.Apply(CFG.pipeline, SENT, P.WorkerExec(false));
    assert d0.pc.results == [(0, P.Err), (1, P.Ok(0))];
    var d1 := P.Apply(CFG.pipeline, d0, P.WorkerDeliver);
    assert WAITING[0].slot + [P.Err] == [P.Err] && WAITING[1].slot + [P.Ok(0)] == [P.Ok(0)];
    assert d0.pc.results[1..] == [(1, P.Ok(0))];
    assert d1.jobs == [TOLD[0], WAITING[1]];
    var d2 := P.Apply(CFG.pipeline, d1, P.WorkerDeliver);
    assert d1.pc.results[1..] == [];
    assert d2.jobs == TOLD;
  }

  /** The whole batch fails, though its second job has an ID. */
  lemma CollectedBoth()
    ensures var s1 := Apply(CFG, At(ANSWERED, EMPTY, ManyCollect([0, 1], [])), CollectMany(0, P.Proceed));
            Apply(CFG, s1, CollectMany(0, P.Proceed)) == At(RETURNED, EMPTY, BatchFailed([]))
  {
    var s0 := At(ANSWERED, EMPTY, ManyCollect([0, 1], []));
    var s1 := Apply(CFG, s0, CollectMany(0, P.Proceed));
    assert TOLD[0].slot[1..] == [] && TOLD[1].slot[1..] == [];
    assert s1.pipe.jobs == [DONE[0], TOLD[1]];
    var none: seq<P.Result> := [];
    assert none + [P.Err] == [P.Err];
    assert s1.calls == [Call([REQ, REQ], ManyCollect([0, 1], [P.Err]))];
    assert s1 == At(ANSWERED.(jobs := [DONE[0], TOLD[1]]), EMPTY, ManyCollect([0, 1], [P.Err]));
    var s2 := Apply(CFG, s1, CollectMany(0, P.Proceed));
    assert s2.pipe.jobs == DONE;
    assert [P.Err] + [P.Ok(0)] == [P.Err, P.Ok(0)];
    assert GoodPrefix([P.Err, P.Ok(0)]) == [];
  }

  /** One event by itself, with Redis down: queued. */
  lemma QueuedOne(wal: WalState, wal': WalState, slots: seq<Slot>)
    requires wal.replay.None? && |slots| < 2
    requires var tag := |wal.records|;
             wal' == WalState(wal.file + [Line(tag, Some(REQ))], wal.records + [Some(REQ)], None)
    ensures var s0 := At(RETURNED, wal, Route(PerEvent, slots));
            var s1 := Apply(CFG, Apply(CFG, s0, RouteDirect(0)), DirectPublish(0, P.NotApplied));
            var slots' := slots + [Queued(|wal.records|)];
            Apply(CFG, s1, WriteWal(0, true))
            == At(RETURNED, wal', if |slots'| == 2 then Replied(slots') else Route(PerEvent, slots'))
  {
    var s0 := At(RETURNED, wal, Route(PerEvent, slots));
    var s1 := Apply(CFG, s0, RouteDirect(0));
    assert s1 == At(RETURNED, wal, PublishDirect(PerEvent, slots, None));
    var s2 := Apply(CFG, s1, DirectPublish(0, P.NotApplied));
    assert s2 == At(RETURNED, wal, Failed(PerEvent, slots));
  }

  lemma ReachedQueued()
    ensures Reached(Collecting(QUEUED))
  {
    assert Run(CFG, [], []) == Init([]);
    Started();
    EnqueuedOne();
    EnqueuedBoth();
    OneStep(Init([]), StartBatch([REQ, REQ]));
    OneStep(At(P.INIT, EMPTY, ManyEnqueue([])), EnqueueMany(0, false, P.Proceed));
    OneStep(At(FIRST, EMPTY, ManyEnqueue([0])), EnqueueMany(0, false, P.Proceed));
  }

  lemma ReachedBatch()
    ensures Reached(Collecting(BATCH))
  {
    ReachedQueued();
    Taken();
    PipeStep(QUEUED, P.WorkerTake);
    PipeStep(P.Apply(CFG.pipeline, QUEUED, P.WorkerTake), P.WorkerDrain);
    Built();
    var b0 := P.Apply(CFG.pipeline, BUFFERED, P.WorkerDrain);
    PipeStep(BUFFERED, P.WorkerDrain);
    PipeStep(b0, P.WorkerBuild);
    PipeStep(P.Apply(CFG.pipeline, b0, P.WorkerBuild), P.WorkerBuild);
  }

  lemma ReachedAnswered()
    ensures Reached(Collecting(ANSWERED))
  {
    ReachedBatch();
    SentBoth();
    var x0, d0 := P.Apply(CFG.pipeline, BATCH, P.WorkerSend), P.Apply(CFG.pipeline, SENT, P.WorkerExec(false));
    PipeStep(BATCH, P.WorkerSend);
    PipeStep(x0, P.WorkerXadd(P.NotApplied));
    PipeStep(P.Apply(CFG.pipeline, x0, P.WorkerXadd(P.NotApplied)), P.WorkerXadd(P.Applied));
    AnsweredBoth();
    PipeStep(SENT, P.WorkerExec(false));
    PipeStep(d0, P.WorkerDeliver);
    PipeStep(P.Apply(CFG.pipeline, d0, P.WorkerDeliver), P.WorkerDeliver);
  }

  lemma ReachedRetry()
    ensures Reached(At(RETURNED, EMPTY, Route(PerEvent, [])))
  {
    ReachedFailed();
    OneStep(At(RETURNED, EMPTY, BatchFailed([])), EndBatch(0, false));
  }

  lemma ReachedFailed()
    ensures Reached(At(RETURNED, EMPTY, BatchFailed([])))
  {
    ReachedAnswered();
    CollectedBoth();
    var s0 := Collecting(ANSWERED);
    var s1 := Apply(CFG, s0, CollectMany(0, P.Proceed));
    OneStep(s0, CollectMany(0, P.Proceed));
    OneStep(s1, CollectMany(0, P.Proceed));
  }

  lemma ReachedQueuedOne(wal: WalState, wal': WalState, slots: seq<Slot>)
    requires wal.replay.None? && |slots| < 2 && Reached(At(RETURNED, wal, Route(PerEvent, slots)))
    requires var tag := |wal.records|;
             wal' == WalState(wal.file + [Line(tag, Some(REQ))], wal.records + [Some(REQ)], None)
    ensures var slots' := slots + [Queued(|wal.records|)];
            Reached(At(RETURNED, wal', if |slots'| == 2 then Replied(slots') else Route(PerEvent, slots')))
  {
    var s0 := At(RETURNED, wal, Route(PerEvent, slots));
    QueuedOne(wal, wal', slots);
    OneStep(s0, RouteDirect(0));
    OneStep(Apply(CFG, s0, RouteDirect(0)), DirectPublish(0, P.NotApplied));
    OneStep(Apply(CFG, Apply(CFG, s0, RouteDirect(0)), DirectPublish(0, P.NotApplied)), WriteWal(0, true));
  }

  const FINAL := At(RETURNED, BOTH, Replied([Queued(0), Queued(1)]))

  /** A run ends with a reply that says both events are queued, though the second one's job came
      back with ID 0 and its entry is in Redis; the next replay adds it again. */
  lemma QueuedThoughPublished()
    ensures Reached(FINAL)
    ensures FINAL.calls[0].pc == Replied([Queued(0), Queued(1)])
    ensures FINAL.pipe.jobs[1].caller == P.Caller(0, 1, false)
    ensures FINAL.pipe.jobs[1].phase == P.Returned(P.FromWorker(P.Ok(0)))
    ensures FINAL.pipe.log == [P.Entry(REQ, P.Worker(1))] && Line(1, Some(REQ)) in FINAL.wal.file
  {
    ReachedRetry();
    assert [] + [Line(0, Some(REQ))] == ONE.file && [] + [Some(REQ)] == ONE.records;
    ReachedQueuedOne(EMPTY, ONE, []);
    assert [] + [Queued(0)] == [Queued(0)];
    assert ONE.file + [Line(1, Some(REQ))] == BOTH.file && ONE.records + [Some(REQ)] == BOTH.records;
    ReachedQueuedOne(ONE, BOTH, [Queued(0)]);
    assert [Queued(0)] + [Queued(1)] == [Queued(0), Queued(1)];
    assert BOTH.file[1] == Line(1, Some(REQ));
  }
}
