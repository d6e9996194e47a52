/**
 End-to-end: no accepted publish is lost. In every interleaving, a slot answered with an ID
 names a Redis entry holding that very request, and a slot answered "queued" names a WAL
 record that is still in the file or has been replayed into Redis.
 */
module SidecarRuns {
  import opened Common
  import P = Pipeline
  import PR = PipelineRuns
  import opened Sidecar

  ghost predicate ValidConfig(cfg: Config) {
    P.ValidConfig(cfg.pipeline)
  }

  // ---------------------------------------------------------------------------
  // What is promised
  // ---------------------------------------------------------------------------

  /** The WAL record is in the file, or its request is in Redis as a replay of that record. */
  ghost predicate Durable(cfg: Config, s: State, tag: nat)
    requires tag < |s.wal.records|
  {
    || Line(tag, s.wal.records[tag]) in s.wal.file
    || (s.wal.records[tag].Some? && P.Entry(cfg.normal(s.wal.records[tag].value), P.Replay(tag)) in s.pipe.log)
  }

  /** Call `c` added the entry itself, or it is the XADD of a job call `c` made and got the
      result of. */
  ghost predicate OwnEntry(pipe: P.State, c: nat, id: nat) {
    && id < |pipe.log|
    && match pipe.log[id].source
       case Direct(d) => d == c
       case Worker(j) =>
         j < |pipe.jobs| && pipe.jobs[j].caller.call == c && pipe.jobs[j].phase == P.Returned(P.FromWorker(P.Ok(id)))
       case Replay(_) => false
  }

  ghost predicate SlotGood(s: State, c: nat, req: Request, slot: Slot) {
    match slot
    case Id(id) => OwnEntry(s.pipe, c, id) && s.pipe.log[id].req == req
    case Queued(tag) => tag < |s.wal.records| && s.wal.records[tag] == Some(req)
  }

  ghost predicate SlotsGood(s: State, c: nat, reqs: seq<Request>, slots: seq<Slot>) {
    && |slots| <= |reqs|
    && forall i :: 0 <= i < |slots| ==> SlotGood(s, c, reqs[i], slots[i])
  }

  ghost predicate JobFor(s: State, caller: P.Caller, j: nat, req: Request) {
    j < |s.pipe.jobs| && s.pipe.jobs[j].req == req && s.pipe.jobs[j].caller == caller
  }

  ghost predicate GaveUp(s: State, j: nat) {
    && j < |s.pipe.jobs|
    && (s.pipe.jobs[j].phase == P.Returned(P.QueueFull) || s.pipe.jobs[j].phase == P.Returned(P.Stopped))
  }

  ghost predicate CallGood(s: State, c: nat, call: Call) {
    var reqs := call.reqs;
    match call.pc
    case Route(_, slots) => |slots| < |reqs| && SlotsGood(s, c, reqs, slots)
    case InPipeline(mode, slots, j) =>
      && |slots| < |reqs| && SlotsGood(s, c, reqs, slots)
      && JobFor(s, P.Caller(c, |slots|, mode.PerEvent?), j, reqs[|slots|])
    case PublishDirect(_, slots, fallback) =>
      |slots| < |reqs| && SlotsGood(s, c, reqs, slots) && (fallback.Some? ==> GaveUp(s, fallback.value))
    case Failed(_, slots) => |slots| < |reqs| && SlotsGood(s, c, reqs, slots)
    case ManyEnqueue(jobs) =>
      |jobs| < |reqs| && forall i :: 0 <= i < |jobs| ==> JobFor(s, P.Caller(c, i, false), jobs[i], reqs[i])
    case ManyCollect(jobs, results) =>
      && |results| < |jobs| == |reqs|
      && (forall i :: 0 <= i < |jobs| ==> JobFor(s, P.Caller(c, i, false), jobs[i], reqs[i]))
      && (forall i :: 0 <= i < |results| && results[i].Ok? ==> SlotGood(s, c, reqs[i], Id(results[i].id)))
    case ManyDirect(slots) => |slots| < |reqs| && SlotsGood(s, c, reqs, slots)
    case BatchFailed(slots) => reqs != [] && SlotsGood(s, c, reqs, slots)
    case Replied(slots) => |slots| == |reqs| && SlotsGood(s, c, reqs, slots)
    case Rejected => true
  }

  /** The lines read so far by a replay are retained or already published. */
  ghost predicate Accounted(cfg: Config, log: seq<P.Entry>, line: Line, remaining: seq<Line>) {
    || line in remaining
    || (line.req.Some? && P.Entry(cfg.normal(line.req.value), P.Replay(line.tag)) in log)
  }

  ghost predicate WalGood(cfg: Config, s: State) {
    && (forall i :: 0 <= i < |s.wal.file| ==>
          s.wal.file[i].tag < |s.wal.records| && s.wal.records[s.wal.file[i].tag] == s.wal.file[i].req)
    && (forall tag: nat :: tag < |s.wal.records| ==> Durable(cfg, s, tag))
    && (s.wal.replay.Some? ==>
          var rp := s.wal.replay.value;
          && rp.read + rp.unread == s.wal.file
          && (forall line :: line in rp.progress.remaining ==> line in rp.read)
          && (forall line :: line in rp.read ==> Accounted(cfg, s.pipe.log, line, rp.progress.remaining)))
  }

  ghost predicate CallsGood(s: State) {
    forall c :: 0 <= c < |s.calls| ==> CallGood(s, c, s.calls[c])
  }

  /** What the service has promised its callers so far. */
  ghost predicate Promises(cfg: Config, s: State) {
    WalGood(cfg, s) && CallsGood(s)
  }

  ghost predicate Inv(cfg: Config, s: State) {
    PR.Reachable(cfg.pipeline, s.pipe) && Promises(cfg, s)
  }

  // ---------------------------------------------------------------------------
  // Stability: promises once made survive every other step
  // ---------------------------------------------------------------------------

  ghost predicate Extends(s: State, s': State) {
    PR.Extends(s.pipe, s'.pipe) && s.wal.records <= s'.wal.records
  }

  lemma SlotsStable(s: State, s': State, c: nat, reqs: seq<Request>, slots: seq<Slot>)
    requires Extends(s, s') && SlotsGood(s, c, reqs, slots)
    ensures SlotsGood(s', c, reqs, slots)
  {
  }

  lemma CallStable(s: State, s': State, c: nat, call: Call)
    requires Extends(s, s') && CallGood(s, c, call)
    ensures CallGood(s', c, call)
  {
    match call.pc {
      case Route(_, slots) => SlotsStable(s, s', c, call.reqs, slots);
      case InPipeline(_, slots, _) => SlotsStable(s, s', c, call.reqs, slots);
      case PublishDirect(_, slots, _) => SlotsStable(s, s', c, call.reqs, slots);
      case Failed(_, slots) => SlotsStable(s, s', c, call.reqs, slots);
      case ManyDirect(slots) => SlotsStable(s, s', c, call.reqs, slots);
      case BatchFailed(slots) => SlotsStable(s, s', c, call.reqs, slots);
      case Replied(slots) => SlotsStable(s, s', c, call.reqs, slots);
      case _ =>
    }
  }

  /** A step of one call: the others keep what they were promised. */
  lemma OneCallMoves(s: State, s': State, c: nat, pc: Pc)
    requires CallsGood(s) && Extends(s, s') && c < |s.calls|
    requires s'.calls == s.calls[c := s.calls[c].(pc := pc)]
    requires CallGood(s', c, s.calls[c].(pc := pc))
    ensures CallsGood(s')
  {
    forall i | 0 <= i < |s'.calls|
      ensures CallGood(s', i, s'.calls[i])
    {
      if i != c { CallStable(s, s', i, s.calls[i]); }
    }
  }

  lemma NoCallMoves(s: State, s': State)
    requires CallsGood(s) && Extends(s, s') && s'.calls == s.calls
    ensures CallsGood(s')
  {
    forall i | 0 <= i < |s'.calls|
      ensures CallGood(s', i, s'.calls[i])
    {
      CallStable(s, s', i, s.calls[i]);
    }
  }

  /** The WAL invariant only needs the log to keep its entries. */
  lemma WalStable(cfg: Config, s: State, s': State)
    requires WalGood(cfg, s) && s'.wal == s.wal && s.pipe.log <= s'.pipe.log
    ensures WalGood(cfg, s')
  {
    assert forall e :: e in s.pipe.log ==> e in s'.pipe.log;
    forall tag: nat | tag < |s'.wal.records|
      ensures Durable(cfg, s', tag)
    {
      assert Durable(cfg, s, tag);
    }
    if s.wal.replay.Some? {
      var rp := s.wal.replay.value;
      forall line | line in rp.read
        ensures Accounted(cfg, s'.pipe.log, line, rp.progress.remaining)
      {
        assert Accounted(cfg, s.pipe.log, line, rp.progress.remaining);
      }
    }
  }

  // ---------------------------------------------------------------------------
  // Pipeline and direct publishes
  // ---------------------------------------------------------------------------

  lemma ExtendsTransitive(a: P.State, b: P.State, c: P.State)
    requires PR.Extends(a, b) && PR.Extends(b, c)
    ensures PR.Extends(a, c)
  {
  }

  /** A job for `req` was just created; if its call returned already, it was not with a result. */
  ghost predicate SubmittedJob(pipe: P.State, pipe': P.State, caller: P.Caller, req: Request) {
    && |pipe'.jobs| > |pipe.jobs|
    && pipe'.jobs[|pipe.jobs|].req == req && pipe'.jobs[|pipe.jobs|].caller == caller
    && (pipe'.jobs[|pipe.jobs|].phase.Returned? ==> !pipe'.jobs[|pipe.jobs|].phase.outcome.FromWorker?)
  }

  /** A call returned; a success is the job's own entry. */
  ghost predicate ReturnedJob(pipe: P.State, j: nat, outcome: P.Outcome) {
    && j < |pipe.jobs|
    && pipe.jobs[j].phase == P.Returned(outcome)
    && (outcome.FromWorker? ==> PR.Truthful(pipe.log, j, pipe.jobs[j].req, outcome.result))
  }

  lemma SubmitGood(
    cfg: Config, pipe: P.State, caller: P.Caller, req: Request, ctxDone: bool, choice: P.Choice)
    requires ValidConfig(cfg) && PR.Reachable(cfg.pipeline, pipe)
    ensures var pipe' := Submit(cfg, pipe, caller, req, ctxDone, choice);
            PR.Reachable(cfg.pipeline, pipe') && PR.Extends(pipe, pipe') && SubmittedJob(pipe, pipe', caller, req)
  {
    var j := |pipe.jobs|;
    var created := P.Apply(cfg.pipeline, pipe, P.Create(req, caller));
    PR.ReachableStep(cfg.pipeline, pipe, P.Create(req, caller));
    PR.StepExtends(cfg.pipeline, pipe, P.Create(req, caller));
    var ready := if ctxDone then P.Apply(cfg.pipeline, created, P.CancelCtx(j)) else created;
    if ctxDone {
      PR.ReachableStep(cfg.pipeline, created, P.CancelCtx(j));
      PR.StepExtends(cfg.pipeline, created, P.CancelCtx(j));
      ExtendsTransitive(pipe, created, ready);
    }
    assert ready.jobs[j].phase.Created? && ready.jobs[j].req == req && ready.jobs[j].caller == caller;
    PR.ReachableStep(cfg.pipeline, ready, P.TryEnqueue(j, choice));
    PR.StepExtends(cfg.pipeline, ready, P.TryEnqueue(j, choice));
    ExtendsTransitive(pipe, ready, Submit(cfg, pipe, caller, req, ctxDone, choice));
  }

  lemma AwaitGood(cfg: Config, pipe: P.State, j: nat, choice: P.Choice)
    requires ValidConfig(cfg) && PR.Reachable(cfg.pipeline, pipe) && j < |pipe.jobs|
    ensures var pipe' := P.Apply(cfg.pipeline, pipe, P.Await(j, choice));
            && PR.Reachable(cfg.pipeline, pipe') && PR.Extends(pipe, pipe')
            && (pipe'.jobs[j].phase.Returned? ==> ReturnedJob(pipe', j, pipe'.jobs[j].phase.outcome))
  {
    PR.ReachableStep(cfg.pipeline, pipe, P.Await(j, choice));
    PR.StepExtends(cfg.pipeline, pipe, P.Await(j, choice));
    var s := P.Apply(cfg.pipeline, pipe, P.Await(j, choice));
    PR.ReachableInv(cfg.pipeline, s);
    assert PR.JobGood(s.jobs[j], s.log, j, j in s.taken, j in s.queue, s.pc.Exited?, PR.Answered(s, j));
  }

  lemma XaddGood(cfg: Config, pipe: P.State, entry: P.Entry, out: P.Cmd)
    requires PR.Reachable(cfg.pipeline, pipe) && !entry.source.Worker?
    ensures PR.Reachable(cfg.pipeline, pipe.(log := Xadd(pipe.log, entry, out)))
    ensures PR.Extends(pipe, pipe.(log := Xadd(pipe.log, entry, out)))
  {
    if !out.NotApplied? {
      PR.ReachableStep(cfg.pipeline, pipe, P.External(entry));
    }
  }

  lemma SlotAdded(s: State, c: nat, reqs: seq<Request>, slots: seq<Slot>, slot: Slot)
    requires SlotsGood(s, c, reqs, slots) && |slots| < |reqs| && SlotGood(s, c, reqs[|slots|], slot)
    ensures SlotsGood(s, c, reqs, slots + [slot])
  {
  }

  // ---------------------------------------------------------------------------
  // Steps of calls, given what the pipeline did
  // ---------------------------------------------------------------------------

  /** A call step that leaves the WAL alone. */
  lemma CallStep(cfg: Config, s: State, c: nat, pc: Pc, pipe: P.State)
    requires Promises(cfg, s) && c < |s.calls| && PR.Extends(s.pipe, pipe)
    requires CallGood(SetPc(s, c, pc).(pipe := pipe), c, Call(s.calls[c].reqs, pc))
    ensures Promises(cfg, SetPc(s, c, pc).(pipe := pipe))
  {
    var s' := SetPc(s, c, pc).(pipe := pipe);
    WalStable(cfg, s, s');
    OneCallMoves(s, s', c, pc);
  }

  lemma Submitted(cfg: Config, s: State, c: nat, mode: Mode, slots: seq<Slot>, pipe: P.State)
    requires Promises(cfg, s) && c < |s.calls| && PR.Extends(s.pipe, pipe)
    requires |slots| < |s.calls[c].reqs| && SlotsGood(s, c, s.calls[c].reqs, slots)
    requires SubmittedJob(s.pipe, pipe, P.Caller(c, |slots|, mode.PerEvent?), s.calls[c].reqs[|slots|])
    ensures var j := |s.pipe.jobs|;
            Promises(cfg, SetPc(s, c, AfterSubmit(mode, slots, j, pipe.jobs[j].phase)).(pipe := pipe))
  {
    var pc := AfterSubmit(mode, slots, |s.pipe.jobs|, pipe.jobs[|s.pipe.jobs|].phase);
    SlotsStable(s, SetPc(s, c, pc).(pipe := pipe), c, s.calls[c].reqs, slots);
    CallStep(cfg, s, c, pc, pipe);
  }

  lemma SubmittedMany(cfg: Config, s: State, c: nat, pipe: P.State)
    requires Promises(cfg, s) && c < |s.calls| && PR.Extends(s.pipe, pipe)
    requires s.calls[c].pc.ManyEnqueue? && CallGood(s, c, s.calls[c])
    requires SubmittedJob(s.pipe, pipe, P.Caller(c, |s.calls[c].pc.jobs|, false), s.calls[c].reqs[|s.calls[c].pc.jobs|])
    ensures var j := |s.pipe.jobs|;
            var pc := AfterSubmitMany(s.calls[c].reqs, s.calls[c].pc.jobs, j, pipe.jobs[j].phase);
            Promises(cfg, SetPc(s, c, pc).(pipe := pipe))
  {
    var j := |s.pipe.jobs|;
    var pc := AfterSubmitMany(s.calls[c].reqs, s.calls[c].pc.jobs, j, pipe.jobs[j].phase);
    CallStable(s, SetPc(s, c, pc).(pipe := pipe), c, s.calls[c]);
    CallStep(cfg, s, c, pc, pipe);
  }

  lemma Awaited(cfg: Config, s: State, c: nat, pipe: P.State, outcome: P.Outcome)
    requires Promises(cfg, s) && c < |s.calls| && PR.Extends(s.pipe, pipe)
    requires s.calls[c].pc.InPipeline? && CallGood(s, c, s.calls[c])
    requires ReturnedJob(pipe, s.calls[c].pc.job, outcome)
    ensures var call := s.calls[c];
            var pc := AfterAwait(call.reqs, call.pc.mode, call.pc.slots, call.pc.job, outcome);
            Promises(cfg, SetPc(s, c, pc).(pipe := pipe))
  {
    var reqs, mode, slots, j := s.calls[c].reqs, s.calls[c].pc.mode, s.calls[c].pc.slots, s.calls[c].pc.job;
    var pc := AfterAwait(reqs, mode, slots, j, outcome);
    var s' := SetPc(s, c, pc).(pipe := pipe);
    SlotsStable(s, s', c, reqs, slots);
    if outcome.FromWorker? && outcome.result.Ok? {
      SlotAdded(s', c, reqs, slots, Id(outcome.result.id));
    }
    CallStep(cfg, s, c, pc, pipe);
  }

  lemma CollectedGood(s: State, c: nat, reqs: seq<Request>, jobs: seq<nat>, results: seq<P.Result>)
    requires |results| <= |jobs| == |reqs| && reqs != []
    requires forall i :: 0 <= i < |jobs| ==> JobFor(s, P.Caller(c, i, false), jobs[i], reqs[i])
    requires forall i :: 0 <= i < |results| && results[i].Ok? ==> SlotGood(s, c, reqs[i], Id(results[i].id))
    ensures CallGood(s, c, Call(reqs, AfterCollect(reqs, jobs, results)))
  {
  }

  lemma AwaitedMany(cfg: Config, s: State, c: nat, pipe: P.State, outcome: P.Outcome)
    requires Promises(cfg, s) && c < |s.calls| && PR.Extends(s.pipe, pipe)
    requires s.calls[c].pc.ManyCollect? && CallGood(s, c, s.calls[c])
    requires ReturnedJob(pipe, s.calls[c].pc.jobs[|s.calls[c].pc.results|], outcome)
    ensures var call := s.calls[c];
            Promises(cfg, SetPc(s, c, AfterAwaitMany(call.reqs, call.pc.jobs, call.pc.results, outcome)).(pipe := pipe))
  {
    var reqs, jobs, results := s.calls[c].reqs, s.calls[c].pc.jobs, s.calls[c].pc.results;
    var pc := AfterAwaitMany(reqs, jobs, results, outcome);
    var s' := SetPc(s, c, pc).(pipe := pipe);
    CallStable(s, s', c, s.calls[c]);
    assert JobFor(s, P.Caller(c, |results|, false), jobs[|results|], reqs[|results|]);
    if outcome.FromWorker? {
      CollectedGood(s', c, reqs, jobs, results + [outcome.result]);
    }
    CallStep(cfg, s, c, pc, pipe);
  }

  lemma Published(cfg: Config, s: State, c: nat, slots: seq<Slot>, out: P.Cmd, pc: Pc)
    requires Promises(cfg, s) && c < |s.calls| && |slots| < |s.calls[c].reqs| && SlotsGood(s, c, s.calls[c].reqs, slots)
    requires PR.Extends(s.pipe, XaddFor(s, c, slots, out))
    requires var reqs, slots' := s.calls[c].reqs, DirectSlots(s, slots);
             || (!out.Applied? && (pc.Failed? || pc.BatchFailed?) && pc.slots == slots)
             || (out.Applied? && (pc.Route? || pc.ManyDirect?) && pc.slots == slots' && |slots'| < |reqs|)
             || (out.Applied? && pc.Replied? && pc.slots == slots' && |slots'| == |reqs|)
    ensures Promises(cfg, SetPc(s, c, pc).(pipe := XaddFor(s, c, slots, out)))
  {
    var reqs, s' := s.calls[c].reqs, SetPc(s, c, pc).(pipe := XaddFor(s, c, slots, out));
    SlotsStable(s, s', c, reqs, slots);
    if out.Applied? {
      SlotAdded(s', c, reqs, slots, Id(|s.pipe.log|));
    }
    CallStep(cfg, s, c, pc, XaddFor(s, c, slots, out));
  }

  lemma WriteWalGood(cfg: Config, s: State, s': State, req: Request)
    requires WalGood(cfg, s) && s.wal.replay.None? && s'.pipe == s.pipe
    requires var tag := |s.wal.records|;
             s'.wal == WalState(s.wal.file + [Line(tag, Some(req))], s.wal.records + [Some(req)], None)
    ensures WalGood(cfg, s')
  {
    forall tag: nat | tag < |s'.wal.records|
      ensures Durable(cfg, s', tag)
    {
      if tag < |s.wal.records| {
        assert Durable(cfg, s, tag);
      }
    }
  }

  lemma WriteWalPromises(cfg: Config, s: State, c: nat, ok: bool)
    requires Promises(cfg, s) && c < |s.calls| && s.calls[c].pc.Failed? && s.calls[c].pc.mode.PerEvent?
    ensures Promises(cfg, DoWriteWal(s, c, s.calls[c].pc.slots, ok))
  {
    var reqs, slots := s.calls[c].reqs, s.calls[c].pc.slots;
    var s' := DoWriteWal(s, c, slots, ok);
    assert CallGood(s, c, s.calls[c]);
    if s.wal.replay.None? {
      if ok {
        SlotsStable(s, s', c, reqs, slots);
        WriteWalGood(cfg, s, s', reqs[|slots|]);
        SlotAdded(s', c, reqs, slots, Queued(|s.wal.records|));
        OneCallMoves(s, s', c, s'.calls[c].pc);
      } else {
        CallStep(cfg, s, c, Rejected, s.pipe);
      }
    }
  }

  /** Steps that only change where the call is. */
  lemma LocalStep(cfg: Config, s: State, c: nat, pc: Pc)
    requires Promises(cfg, s) && c < |s.calls| && CallGood(s, c, Call(s.calls[c].reqs, pc))
    ensures Promises(cfg, SetPc(s, c, pc))
  {
    CallStable(s, SetPc(s, c, pc), c, Call(s.calls[c].reqs, pc));
    CallStep(cfg, s, c, pc, s.pipe);
  }

  // ---------------------------------------------------------------------------
  // Steps of calls
  // ---------------------------------------------------------------------------

  ghost predicate StepGood(cfg: Config, s: State, s': State) {
    PR.Reachable(cfg.pipeline, s'.pipe) && Extends(s, s') && Promises(cfg, s')
  }

  lemma Quiet(cfg: Config, s: State, s': State)
    requires Inv(cfg, s) && s'.pipe == s.pipe && s.wal.records <= s'.wal.records && Promises(cfg, s')
    ensures StepGood(cfg, s, s')
  {
  }

  lemma SubmitKeeps(cfg: Config, s: State, c: nat, ctxDone: bool, choice: P.Choice)
    requires ValidConfig(cfg) && Inv(cfg, s) && c < |s.calls| && s.calls[c].pc.Route? && CallGood(s, c, s.calls[c])
    ensures StepGood(cfg, s, DoSubmit(cfg, s, c, s.calls[c].pc.mode, s.calls[c].pc.slots, ctxDone, choice))
  {
    var mode, slots := s.calls[c].pc.mode, s.calls[c].pc.slots;
    var caller, req := P.Caller(c, |slots|, mode.PerEvent?), s.calls[c].reqs[|slots|];
    SubmitGood(cfg, s.pipe, caller, req, ctxDone, choice);
    Submitted(cfg, s, c, mode, slots, Submit(cfg, s.pipe, caller, req, ctxDone, choice));
  }

  lemma EnqueueManyKeeps(cfg: Config, s: State, c: nat, ctxDone: bool, choice: P.Choice)
    requires ValidConfig(cfg) && Inv(cfg, s) && c < |s.calls|
    requires s.calls[c].pc.ManyEnqueue? && CallGood(s, c, s.calls[c])
    ensures StepGood(cfg, s, DoEnqueueMany(cfg, s, c, s.calls[c].pc.jobs, ctxDone, choice))
  {
    var req := s.calls[c].reqs[|s.calls[c].pc.jobs|];
    var caller := P.Caller(c, |s.calls[c].pc.jobs|, false);
    SubmitGood(cfg, s.pipe, caller, req, ctxDone, choice);
    SubmittedMany(cfg, s, c, Submit(cfg, s.pipe, caller, req, ctxDone, choice));
  }

  lemma AwaitKeeps(cfg: Config, s: State, c: nat, choice: P.Choice)
    requires ValidConfig(cfg) && Inv(cfg, s) && c < |s.calls| && s.calls[c].pc.InPipeline? && CallGood(s, c, s.calls[c])
    ensures StepGood(cfg, s, DoAwait(cfg, s, c, s.calls[c].pc.mode, s.calls[c].pc.slots, s.calls[c].pc.job, choice))
  {
    var j := s.calls[c].pc.job;
    var pipe := P.Apply(cfg.pipeline, s.pipe, P.Await(j, choice));
    AwaitGood(cfg, s.pipe, j, choice);
    if pipe.jobs[j].phase.Returned? {
      Awaited(cfg, s, c, pipe, pipe.jobs[j].phase.outcome);
    }
  }

  lemma CollectManyKeeps(cfg: Config, s: State, c: nat, choice: P.Choice)
    requires ValidConfig(cfg) && Inv(cfg, s) && c < |s.calls|
    requires s.calls[c].pc.ManyCollect? && CallGood(s, c, s.calls[c])
    ensures StepGood(cfg, s, DoCollectMany(cfg, s, c, s.calls[c].pc.jobs, s.calls[c].pc.results, choice))
  {
    var j := s.calls[c].pc.jobs[|s.calls[c].pc.results|];
    assert JobFor(s, P.Caller(c, |s.calls[c].pc.results|, false), j, s.calls[c].reqs[|s.calls[c].pc.results|]);
    var pipe := P.Apply(cfg.pipeline, s.pipe, P.Await(j, choice));
    AwaitGood(cfg, s.pipe, j, choice);
    if pipe.jobs[j].phase.Returned? {
      AwaitedMany(cfg, s, c, pipe, pipe.jobs[j].phase.outcome);
    }
  }

  lemma DirectKeeps(cfg: Config, s: State, c: nat, out: P.Cmd)
    requires Inv(cfg, s) && c < |s.calls| && s.calls[c].pc.PublishDirect? && CallGood(s, c, s.calls[c])
    ensures StepGood(cfg, s, DoDirect(s, c, s.calls[c].pc.mode, s.calls[c].pc.slots, out))
  {
    var slots, s' := s.calls[c].pc.slots, DoDirect(s, c, s.calls[c].pc.mode, s.calls[c].pc.slots, out);
    XaddGood(cfg, s.pipe, P.Entry(s.calls[c].reqs[|slots|], P.Direct(c)), out);
    Published(cfg, s, c, slots, out, s'.calls[c].pc);
  }

  lemma ManyDirectKeeps(cfg: Config, s: State, c: nat, out: P.Cmd)
    requires Inv(cfg, s) && c < |s.calls| && s.calls[c].pc.ManyDirect? && CallGood(s, c, s.calls[c])
    ensures StepGood(cfg, s, DoManyDirect(s, c, s.calls[c].pc.slots, out))
  {
    var slots, s' := s.calls[c].pc.slots, DoManyDirect(s, c, s.calls[c].pc.slots, out);
    XaddGood(cfg, s.pipe, P.Entry(s.calls[c].reqs[|slots|], P.Direct(c)), out);
    Published(cfg, s, c, slots, out, s'.calls[c].pc);
  }

  lemma PipelineCallKeeps(cfg: Config, s: State, c: nat, step: Step, s': State)
    requires ValidConfig(cfg) && Inv(cfg, s) && c < |s.calls| && s' == ApplyCall(cfg, s, c, step) && s' != s
    requires CallGood(s, c, s.calls[c])
    requires step.RoutePipeline? || step.AwaitPipeline? || step.EnqueueMany? || step.CollectMany?
    ensures StepGood(cfg, s, s')
  {
    match step {
      case RoutePipeline(_, ctxDone, choice) => SubmitKeeps(cfg, s, c, ctxDone, choice);
      case AwaitPipeline(_, choice) => AwaitKeeps(cfg, s, c, choice);
      case EnqueueMany(_, ctxDone, choice) => EnqueueManyKeeps(cfg, s, c, ctxDone, choice);
      case CollectMany(_, choice) => CollectManyKeeps(cfg, s, c, choice);
    }
  }

  lemma CallKeeps(cfg: Config, s: State, c: nat, step: Step, s': State)
    requires ValidConfig(cfg) && Inv(cfg, s) && c < |s.calls| && s' == ApplyCall(cfg, s, c, step)
    ensures StepGood(cfg, s, s')
  {
    var pc := s.calls[c].pc;
    assert CallGood(s, c, s.calls[c]);
    if s' == s {
      Quiet(cfg, s, s);
    } else if step.RoutePipeline? || step.AwaitPipeline? || step.EnqueueMany? || step.CollectMany? {
      PipelineCallKeeps(cfg, s, c, step, s');
    } else {
      match step {
        case DirectPublish(_, out) =>
          if pc.PublishDirect? { DirectKeeps(cfg, s, c, out); } else { ManyDirectKeeps(cfg, s, c, out); }
        case WriteWal(_, ok) => WriteWalKeeps(cfg, s, c, ok);
        case RouteDirect(_) => LocalKeeps(cfg, s, c, s'.calls[c].pc);
        case EndFirst(_) => LocalKeeps(cfg, s, c, s'.calls[c].pc);
        case SkipWal(_) => LocalKeeps(cfg, s, c, s'.calls[c].pc);
        case EndBatch(_, _) => LocalKeeps(cfg, s, c, s'.calls[c].pc);
        case _ =>
      }
    }
  }

  lemma LocalKeeps(cfg: Config, s: State, c: nat, pc: Pc)
    requires Inv(cfg, s) && c < |s.calls| && CallGood(s, c, Call(s.calls[c].reqs, pc))
    ensures StepGood(cfg, s, SetPc(s, c, pc))
  {
    LocalStep(cfg, s, c, pc);
    Quiet(cfg, s, SetPc(s, c, pc));
  }

  lemma WriteWalKeeps(cfg: Config, s: State, c: nat, ok: bool)
    requires Inv(cfg, s) && c < |s.calls| && s.calls[c].pc.Failed? && s.calls[c].pc.mode.PerEvent?
    ensures StepGood(cfg, s, DoWriteWal(s, c, s.calls[c].pc.slots, ok))
  {
    WriteWalPromises(cfg, s, c, ok);
    Quiet(cfg, s, DoWriteWal(s, c, s.calls[c].pc.slots, ok));
  }

  // ---------------------------------------------------------------------------
  // Replay
  // ---------------------------------------------------------------------------

  lemma ReplayNextWal(cfg: Config, s: State, out: P.Cmd)
    requires WalGood(cfg, s) && s.wal.replay.Some? && s.wal.replay.value.unread != []
    requires s.pipe.log <= ApplyReplayNext(cfg, s, out).pipe.log
    ensures WalGood(cfg, ApplyReplayNext(cfg, s, out))
  {
    var s' := ApplyReplayNext(cfg, s, out);
    var rp, rp' := s.wal.replay.value, s'.wal.replay.value;
    var line := rp.unread[0];
    WalStable(cfg, s, s'.(wal := s.wal));
    assert forall tag: nat :: tag < |s'.wal.records| ==> Durable(cfg, s'.(wal := s.wal), tag) ==> Durable(cfg, s', tag);
    assert rp.unread == [line] + rp'.unread;
    assert rp'.read + rp'.unread == rp.read + rp.unread;
    forall l | l in rp'.read
      ensures Accounted(cfg, s'.pipe.log, l, rp'.progress.remaining)
    {
      if l in rp.read {
        assert Accounted(cfg, s.pipe.log, l, rp.progress.remaining);
        assert forall e :: e in s.pipe.log ==> e in s'.pipe.log;
      }
    }
  }

  lemma ReplayNextKeeps(cfg: Config, s: State, out: P.Cmd)
    requires Inv(cfg, s)
    ensures StepGood(cfg, s, ApplyReplayNext(cfg, s, out))
  {
    var s' := ApplyReplayNext(cfg, s, out);
    if s.wal.replay.Some? && s.wal.replay.value.unread != [] {
      var line := s.wal.replay.value.unread[0];
      if Replays(cfg, s.wal.replay.value.progress, line) {
        XaddGood(cfg, s.pipe, P.Entry(cfg.normal(line.req.value), P.Replay(line.tag)), out);
      }
      ReplayNextWal(cfg, s, out);
      NoCallMoves(s, s');
    }
  }

  lemma ReplayFinishPromises(cfg: Config, s: State, rewritten: bool)
    requires Promises(cfg, s)
    ensures Promises(cfg, ApplyReplayFinish(s, rewritten))
  {
    var s' := ApplyReplayFinish(s, rewritten);
    if s.wal.replay.Some? {
      var rp := s.wal.replay.value;
      NoCallMoves(s, s');
      if rewritten && rp.unread == [] {
        assert rp.read + [] == rp.read;
        assert forall i :: 0 <= i < |s'.wal.file| ==> s'.wal.file[i] in rp.read && s'.wal.file[i] in s.wal.file;
        forall tag: nat | tag < |s'.wal.records|
          ensures Durable(cfg, s', tag)
        {
          assert Durable(cfg, s, tag);
          var line := Line(tag, s.wal.records[tag]);
          if line in s.wal.file {
            assert Accounted(cfg, s.pipe.log, line, rp.progress.remaining);
          }
        }
      } else {
        assert forall tag: nat :: tag < |s'.wal.records| ==> Durable(cfg, s, tag) ==> Durable(cfg, s', tag);
      }
    }
  }

  lemma ReplayStartPromises(cfg: Config, s: State)
    requires Promises(cfg, s)
    ensures Promises(cfg, ApplyReplayStart(cfg, s))
  {
    var s' := ApplyReplayStart(cfg, s);
    if s.wal.replay.None? && cfg.replayBatch > 0 {
      assert [] + s.wal.file == s.wal.file;
      assert forall tag: nat :: tag < |s'.wal.records| ==> Durable(cfg, s, tag) ==> Durable(cfg, s', tag);
      NoCallMoves(s, s');
    }
  }

  // ---------------------------------------------------------------------------
  // Whole runs
  // ---------------------------------------------------------------------------

  lemma StartPromises(cfg: Config, s: State, call: Call)
    requires Promises(cfg, s) && CallGood(s, |s.calls|, call)
    ensures Promises(cfg, s.(calls := s.calls + [call]))
  {
    var s' := s.(calls := s.calls + [call]);
    WalStable(cfg, s, s');
    forall i | 0 <= i < |s'.calls|
      ensures CallGood(s', i, s'.calls[i])
    {
      CallStable(s, s', i, s'.calls[i]);
    }
  }

  lemma PipelineKeeps(cfg: Config, s: State, step: P.Step)
    requires ValidConfig(cfg) && Inv(cfg, s)
    ensures StepGood(cfg, s, Apply(cfg, s, PipelineStep(step)))
  {
    Quiet(cfg, s, s);
    PR.ReachableStep(cfg.pipeline, s.pipe, step);
    PR.StepExtends(cfg.pipeline, s.pipe, step);
    PipelinePromises(cfg, s, P.Apply(cfg.pipeline, s.pipe, step));
  }

  lemma PipelinePromises(cfg: Config, s: State, pipe: P.State)
    requires Promises(cfg, s) && PR.Extends(s.pipe, pipe)
    ensures Promises(cfg, s.(pipe := pipe))
  {
    WalStable(cfg, s, s.(pipe := pipe));
    NoCallMoves(s, s.(pipe := pipe));
  }

  lemma StartKeeps(cfg: Config, s: State, call: Call)
    requires Inv(cfg, s) && CallGood(s, |s.calls|, call)
    ensures StepGood(cfg, s, s.(calls := s.calls + [call]))
  {
    StartPromises(cfg, s, call);
    Quiet(cfg, s, s.(calls := s.calls + [call]));
  }

  lemma ReplayEdgeKeeps(cfg: Config, s: State, rewritten: bool)
    requires Inv(cfg, s)
    ensures StepGood(cfg, s, ApplyReplayStart(cfg, s))
    ensures StepGood(cfg, s, ApplyReplayFinish(s, rewritten))
  {
    ReplayStartPromises(cfg, s);
    Quiet(cfg, s, ApplyReplayStart(cfg, s));
    ReplayFinishPromises(cfg, s, rewritten);
    Quiet(cfg, s, ApplyReplayFinish(s, rewritten));
  }

  lemma StepKeeps(cfg: Config, s: State, step: Step, s': State)
    requires ValidConfig(cfg) && Inv(cfg, s) && s' == Apply(cfg, s, step)
    ensures StepGood(cfg, s, s')
  {
    match step {
      case StartPublish(req) => StartKeeps(cfg, s, Call([req], Route(PerEvent, [])));
      case StartBatch(reqs) => StartBatchKeeps(cfg, s, reqs);
      case PipelineStep(ps) => PipelineKeeps(cfg, s, ps);
      case ReplayStart => ReplayEdgeKeeps(cfg, s, false);
      case ReplayNext(out) => ReplayNextKeeps(cfg, s, out);
      case ReplayFinish(rewritten) => ReplayEdgeKeeps(cfg, s, rewritten);
      case _ =>
        if step.call < |s.calls| { CallKeeps(cfg, s, step.call, step, s'); } else { Quiet(cfg, s, s); }
    }
  }

  lemma StartBatchKeeps(cfg: Config, s: State, reqs: seq<Request>)
    requires Inv(cfg, s)
    ensures StepGood(cfg, s, Apply(cfg, s, StartBatch(reqs)))
  {
    if reqs == [] {
      Quiet(cfg, s, s);
    } else {
      StartKeeps(cfg, s, Call(reqs, if cfg.usePipeline && |reqs| > 1 then ManyEnqueue([]) else Route(First, [])));
    }
  }

  lemma InitGood(cfg: Config, found: seq<Option<Request>>)
    requires ValidConfig(cfg)
    ensures Inv(cfg, Init(found))
  {
    PR.ReachableInit(cfg.pipeline);
    var s := Init(found);
    forall tag: nat | tag < |s.wal.records|
      ensures Durable(cfg, s, tag)
    {
      assert s.wal.file[tag] == Line(tag, found[tag]);
    }
  }

  lemma {:induction false} RunFromGood(cfg: Config, s: State, steps: seq<Step>)
    requires ValidConfig(cfg) && Inv(cfg, s)
    ensures StepGood(cfg, s, RunFrom(cfg, s, steps))
  {
    if steps != [] {
      var mid := RunFrom(cfg, s, steps[..|steps| - 1]);
      RunFromGood(cfg, s, steps[..|steps| - 1]);
      var end := RunFrom(cfg, s, steps);
      StepKeeps(cfg, mid, steps[|steps| - 1], end);
      ExtendsTransitive(s.pipe, mid.pipe, end.pipe);
    }
  }

  lemma RunGood(cfg: Config, found: seq<Option<Request>>, steps: seq<Step>)
    requires ValidConfig(cfg)
    ensures StepGood(cfg, Init(found), Run(cfg, found, steps))
  {
    InitGood(cfg, found);
    RunFromGood(cfg, Init(found), steps);
  }

  /** No accepted publish is lost: every successful reply has one slot per request, in order;
      a slot with an ID names a Redis entry holding that request that this very call added,
      directly or through a job of its own, and a queued slot names a WAL record of that request
      which is in the file or has been replayed into Redis. */
  lemma NoAcceptedPublishLost(cfg: Config, found: seq<Option<Request>>, steps: seq<Step>, c: nat, i: nat)
    requires ValidConfig(cfg)
    requires c < |Run(cfg, found, steps).calls| && Run(cfg, found, steps).calls[c].pc.Replied?
    requires i < |Run(cfg, found, steps).calls[c].reqs|
    ensures ReplyHonoured(cfg, Run(cfg, found, steps), c, i)
  {
    RunGood(cfg, found, steps);
    PromisesHonoured(cfg, Run(cfg, found, steps), c, i);
  }

  ghost predicate ReplyHonoured(cfg: Config, s: State, c: nat, i: nat)
    requires c < |s.calls| && s.calls[c].pc.Replied? && i < |s.calls[c].reqs|
  {
    var reqs, slots := s.calls[c].reqs, s.calls[c].pc.slots;
    && |slots| == |reqs|
    && match slots[i]
       case Id(id) => OwnEntry(s.pipe, c, id) && s.pipe.log[id].req == reqs[i]
       case Queued(tag) =>
         || Line(tag, Some(reqs[i])) in s.wal.file
         || P.Entry(cfg.normal(reqs[i]), P.Replay(tag)) in s.pipe.log
  }

  lemma PromisesHonoured(cfg: Config, s: State, c: nat, i: nat)
    requires Promises(cfg, s) && c < |s.calls| && s.calls[c].pc.Replied? && i < |s.calls[c].reqs|
    ensures ReplyHonoured(cfg, s, c, i)
  {
    assert CallGood(s, c, s.calls[c]);
    var slot := s.calls[c].pc.slots[i];
    assert SlotGood(s, c, s.calls[c].reqs[i], slot);
    if slot.Queued? {
      assert Durable(cfg, s, slot.tag);
    }
  }

  /** What the WAL held at start-up is not lost either: an undecodable line stays in the file
      for ever, a decodable one stays or is replayed. */
  lemma FoundRecordsKept(cfg: Config, found: seq<Option<Request>>, steps: seq<Step>, tag: nat)
    requires ValidConfig(cfg) && tag < |found|
    ensures var s := Run(cfg, found, steps);
            Line(tag, found[tag]) in s.wal.file ||
            (found[tag].Some? && P.Entry(cfg.normal(found[tag].value), P.Replay(tag)) in s.pipe.log)
  {
    RunGood(cfg, found, steps);
    var s := Run(cfg, found, steps);
    assert Init(found).wal.records == found;
    RecordKept(cfg, s, found, tag);
  }

  lemma RecordKept(cfg: Config, s: State, found: seq<Option<Request>>, tag: nat)
    requires Promises(cfg, s) && found <= s.wal.records && tag < |found|
    ensures Line(tag, found[tag]) in s.wal.file ||
            (found[tag].Some? && P.Entry(cfg.normal(found[tag].value), P.Replay(tag)) in s.pipe.log)
  {
    assert Durable(cfg, s, tag);
  }

  /** End-to-end safe fallback: once a call has fallen back from the pipeline to a direct
      publish, the job it gave up on never reaches Redis, however the run goes on. */
  lemma FallbackNeverDuplicates(cfg: Config, found: seq<Option<Request>>, steps: seq<Step>, later: seq<Step>, c: nat)
    requires ValidConfig(cfg)
    requires c < |Run(cfg, found, steps).calls| && Run(cfg, found, steps).calls[c].pc.PublishDirect?
    requires Run(cfg, found, steps).calls[c].pc.fallback.Some?
    ensures var j := Run(cfg, found, steps).calls[c].pc.fallback.value;
            var log := RunFrom(cfg, Run(cfg, found, steps), later).pipe.log;
            forall i :: 0 <= i < |log| ==> log[i].source != P.Worker(j)
  {
    RunGood(cfg, found, steps);
    var s := Run(cfg, found, steps);
    assert CallGood(s, c, s.calls[c]);
    RunFromGood(cfg, s, later);
    GivenUpNeverSent(cfg, RunFrom(cfg, s, later), s.calls[c].pc.fallback.value);
  }

  lemma GivenUpNeverSent(cfg: Config, s: State, j: nat)
    requires ValidConfig(cfg) && PR.Reachable(cfg.pipeline, s.pipe) && GaveUp(s, j)
    ensures forall i :: 0 <= i < |s.pipe.log| ==> s.pipe.log[i].source != P.Worker(j)
  {
    var pipe := s.pipe;
    PR.ReachableInv(cfg.pipeline, pipe);
    assert PR.JobGood(pipe.jobs[j], pipe.log, j, j in pipe.taken, j in pipe.queue, pipe.pc.Exited?,
                      PR.Answered(pipe, j));
    PR.IssuedDistinct(pipe);
    assert j in pipe.issued ==> j in pipe.issued + PR.Built(pipe.pc);
  }
}
