/**
 Every accepted publish has a Redis entry or a WAL record to itself: the slots of all replies,
 of all calls together, name different entries and different records, even when requests are
 equal (internal/service/service.go, internal/service/grpc.go).
 */
module SidecarSlots {
  import opened Common
  import P = Pipeline
  import PR = PipelineRuns
  import opened Sidecar
  import opened SidecarRuns

  /** What a call has been promised for its `i`th request so far. */
  function HeldAt(pc: Pc, i: nat): Option<Slot> {
    match pc
    case Route(_, slots) => SlotAt(slots, i)
    case InPipeline(_, slots, _) => SlotAt(slots, i)
    case PublishDirect(_, slots, _) => SlotAt(slots, i)
    case Failed(_, slots) => SlotAt(slots, i)
    case ManyCollect(_, results) => if i < |results| && results[i].Ok? then Some(Id(results[i].id)) else None
    case ManyDirect(slots) => SlotAt(slots, i)
    case BatchFailed(slots) => SlotAt(slots, i)
    case Replied(slots) => SlotAt(slots, i)
    case _ => None
  }

  function SlotAt(slots: seq<Slot>, i: nat): Option<Slot> {
    if i < |slots| then Some(slots[i]) else None
  }

  /** No two promises, of the same call or of two, are the same entry or the same record. */
  ghost predicate AllDistinct(s: State) {
    forall c: nat, d: nat, i: nat, k: nat ::
      c < |s.calls| && d < |s.calls| && (c != d || i != k) && HeldAt(s.calls[c].pc, i).Some? ==>
        HeldAt(s.calls[c].pc, i) != HeldAt(s.calls[d].pc, k)
  }

  ghost predicate Fresh(s: State, slot: Slot) {
    forall d: nat, k: nat :: d < |s.calls| ==> HeldAt(s.calls[d].pc, k) != Some(slot)
  }

  /** One call moved on: it holds what it held, or less, and possibly one fresh promise. */
  ghost predicate Moves(s: State, s': State, c: nat, k: nat, added: Option<Slot>) {
    && c < |s.calls| && |s'.calls| == |s.calls|
    && (forall d :: 0 <= d < |s.calls| && d != c ==> s'.calls[d] == s.calls[d])
    && (forall i: nat ::
          || HeldAt(s'.calls[c].pc, i).None?
          || HeldAt(s'.calls[c].pc, i) == HeldAt(s.calls[c].pc, i)
          || (i == k && HeldAt(s'.calls[c].pc, i) == added))
    && (added.Some? ==> Fresh(s, added.value))
  }

  lemma MovesKeep(s: State, s': State, c: nat, k: nat, added: Option<Slot>)
    requires AllDistinct(s) && Moves(s, s', c, k, added)
    ensures AllDistinct(s')
  {
    forall a: nat, b: nat, i: nat, j: nat
      | a < |s'.calls| && b < |s'.calls| && (a != b || i != j) && HeldAt(s'.calls[a].pc, i).Some?
      ensures HeldAt(s'.calls[a].pc, i) != HeldAt(s'.calls[b].pc, j)
    {
      assert HeldAt(s.calls[a].pc, i).Some? ==> HeldAt(s.calls[a].pc, i) != HeldAt(s.calls[b].pc, j);
    }
  }

  // ---------------------------------------------------------------------------
  // What is fresh
  // ---------------------------------------------------------------------------

  lemma HeldIsGood(s: State, d: nat, k: nat)
    requires CallsGood(s) && d < |s.calls|
    ensures var h := HeldAt(s.calls[d].pc, k);
            && (h.Some? && h.value.Id? ==> OwnEntry(s.pipe, d, h.value.id))
            && (h.Some? && h.value.Queued? ==> h.value.tag < |s.wal.records|)
  {
    var call := s.calls[d];
    assert CallGood(s, d, call);
    var h := HeldAt(call.pc, k);
    if h.Some? {
      assert SlotGood(s, d, call.reqs[k], h.value);
    }
  }

  lemma NextEntryFresh(s: State)
    requires CallsGood(s)
    ensures Fresh(s, Id(|s.pipe.log|)) && Fresh(s, Queued(|s.wal.records|))
  {
    forall d: nat, k: nat | d < |s.calls|
      ensures HeldAt(s.calls[d].pc, k) != Some(Id(|s.pipe.log|))
      ensures HeldAt(s.calls[d].pc, k) != Some(Queued(|s.wal.records|))
    {
      HeldIsGood(s, d, k);
    }
  }

  /** A job's entry is nobody's while its call is still waiting. */
  lemma ResultFresh(s: State, pipe: P.State, j: nat, id: nat)
    requires CallsGood(s) && PR.Extends(s.pipe, pipe) && j < |s.pipe.jobs| && s.pipe.jobs[j].phase.Waiting?
    requires id < |pipe.log| && pipe.log[id].source == P.Worker(j)
    ensures Fresh(s, Id(id))
  {
    forall d: nat, k: nat | d < |s.calls|
      ensures HeldAt(s.calls[d].pc, k) != Some(Id(id))
    {
      HeldIsGood(s, d, k);
    }
  }

  // ---------------------------------------------------------------------------
  // Steps
  // ---------------------------------------------------------------------------

  lemma AwaitMoves(cfg: Config, s: State, c: nat, choice: P.Choice)
    requires ValidConfig(cfg) && Inv(cfg, s) && AllDistinct(s) && c < |s.calls| && s.calls[c].pc.InPipeline?
    ensures var pc := s.calls[c].pc; AllDistinct(DoAwait(cfg, s, c, pc.mode, pc.slots, pc.job, choice))
  {
    var pc, reqs := s.calls[c].pc, s.calls[c].reqs;
    assert CallGood(s, c, s.calls[c]);
    var s' := DoAwait(cfg, s, c, pc.mode, pc.slots, pc.job, choice);
    var pipe := P.Apply(cfg.pipeline, s.pipe, P.Await(pc.job, choice));
    if Returns(s.pipe, pipe, pc.job) {
      AwaitGood(cfg, s.pipe, pc.job, choice);
      var outcome := pipe.jobs[pc.job].phase.outcome;
      if outcome.FromWorker? && outcome.result.Ok? {
        ResultFresh(s, pipe, pc.job, outcome.result.id);
        MovesKeep(s, s', c, |pc.slots|, Some(Id(outcome.result.id)));
      } else {
        MovesKeep(s, s', c, 0, None);
      }
    }
  }

  lemma CollectHolds(reqs: seq<Request>, jobs: seq<nat>, results: seq<P.Result>, r: P.Result, i: nat)
    ensures var pc, pc' := ManyCollect(jobs, results), AfterCollect(reqs, jobs, results + [r]);
            || HeldAt(pc', i).None?
            || HeldAt(pc', i) == HeldAt(pc, i)
            || (i == |results| && r.Ok? && HeldAt(pc', i) == Some(Id(r.id)))
  {
  }

  lemma CollectMoves(cfg: Config, s: State, c: nat, choice: P.Choice)
    requires ValidConfig(cfg) && Inv(cfg, s) && AllDistinct(s) && c < |s.calls| && s.calls[c].pc.ManyCollect?
    ensures var pc := s.calls[c].pc; AllDistinct(DoCollectMany(cfg, s, c, pc.jobs, pc.results, choice))
  {
    var jobs, results, reqs := s.calls[c].pc.jobs, s.calls[c].pc.results, s.calls[c].reqs;
    assert CallGood(s, c, s.calls[c]);
    var j := jobs[|results|];
    var s' := DoCollectMany(cfg, s, c, jobs, results, choice);
    var pipe := P.Apply(cfg.pipeline, s.pipe, P.Await(j, choice));
    if Returns(s.pipe, pipe, j) {
      AwaitGood(cfg, s.pipe, j, choice);
      var outcome := pipe.jobs[j].phase.outcome;
      if outcome.FromWorker? {
        forall i: nat { CollectHolds(reqs, jobs, results, outcome.result, i); }
        if outcome.result.Ok? {
          ResultFresh(s, pipe, j, outcome.result.id);
          MovesKeep(s, s', c, |results|, Some(Id(outcome.result.id)));
        } else {
          MovesKeep(s, s', c, 0, None);
        }
      } else {
        MovesKeep(s, s', c, 0, None);
      }
    }
  }

  lemma DirectMoves(s: State, c: nat, out: P.Cmd)
    requires CallsGood(s) && AllDistinct(s) && c < |s.calls|
    ensures s.calls[c].pc.PublishDirect? ==> AllDistinct(DoDirect(s, c, s.calls[c].pc.mode, s.calls[c].pc.slots, out))
    ensures s.calls[c].pc.ManyDirect? ==> AllDistinct(DoManyDirect(s, c, s.calls[c].pc.slots, out))
  {
    NextEntryFresh(s);
    var added := if out.Applied? then Some(Id(|s.pipe.log|)) else None;
    if s.calls[c].pc.PublishDirect? {
      MovesKeep(s, DoDirect(s, c, s.calls[c].pc.mode, s.calls[c].pc.slots, out), c, |s.calls[c].pc.slots|, added);
    } else if s.calls[c].pc.ManyDirect? {
      MovesKeep(s, DoManyDirect(s, c, s.calls[c].pc.slots, out), c, |s.calls[c].pc.slots|, added);
    }
  }

  lemma WriteWalMoves(s: State, c: nat, ok: bool)
    requires CallsGood(s) && AllDistinct(s) && c < |s.calls| && s.calls[c].pc.Failed?
    ensures AllDistinct(DoWriteWal(s, c, s.calls[c].pc.slots, ok))
  {
    NextEntryFresh(s);
    var slots := s.calls[c].pc.slots;
    MovesKeep(s, DoWriteWal(s, c, slots, ok), c, |slots|, Some(Queued(|s.wal.records|)));
  }

  /** The steps of a call that promise nothing new. */
  lemma PlainMoves(cfg: Config, s: State, c: nat, step: Step)
    requires AllDistinct(s) && c < |s.calls|
    requires !step.AwaitPipeline? && !step.CollectMany? && !step.DirectPublish? && !step.WriteWal?
    ensures AllDistinct(ApplyCall(cfg, s, c, step))
  {
    MovesKeep(s, ApplyCall(cfg, s, c, step), c, 0, None);
  }

  lemma CallMoves(cfg: Config, s: State, c: nat, step: Step)
    requires ValidConfig(cfg) && Inv(cfg, s) && AllDistinct(s) && c < |s.calls|
    ensures AllDistinct(ApplyCall(cfg, s, c, step))
  {
    var pc := s.calls[c].pc;
    match step {
      case AwaitPipeline(_, choice) => if pc.InPipeline? { AwaitMoves(cfg, s, c, choice); }
      case CollectMany(_, choice) => if pc.ManyCollect? { CollectMoves(cfg, s, c, choice); }
      case DirectPublish(_, out) => DirectMoves(s, c, out);
      case WriteWal(_, ok) => if pc.Failed? { WriteWalMoves(s, c, ok); }
      case _ => PlainMoves(cfg, s, c, step);
    }
  }

  lemma SameCallsDistinct(s: State, s': State)
    requires AllDistinct(s) && s'.calls == s.calls
    ensures AllDistinct(s')
  {
  }

  lemma StartDistinct(s: State, s': State, call: Call)
    requires AllDistinct(s) && s'.calls == s.calls + [call] && forall i: nat :: HeldAt(call.pc, i).None?
    ensures AllDistinct(s')
  {
    forall c: nat, d: nat, i: nat, k: nat
      | c < |s'.calls| && d < |s'.calls| && (c != d || i != k) && HeldAt(s'.calls[c].pc, i).Some?
      ensures HeldAt(s'.calls[c].pc, i) != HeldAt(s'.calls[d].pc, k)
    {
      assert c < |s.calls|;
      assert d < |s.calls| ==> HeldAt(s.calls[c].pc, i) != HeldAt(s.calls[d].pc, k);
    }
  }

  lemma StepDistinct(cfg: Config, s: State, step: Step)
    requires ValidConfig(cfg) && Inv(cfg, s) && AllDistinct(s)
    ensures AllDistinct(Apply(cfg, s, step))
  {
    var s' := Apply(cfg, s, step);
    match step {
      case StartPublish(_) => StartDistinct(s, s', s'.calls[|s.calls|]);
      case StartBatch(reqs) => if reqs != [] { StartDistinct(s, s', s'.calls[|s.calls|]); }
      case PipelineStep(_) => SameCallsDistinct(s, s');
      case ReplayStart => SameCallsDistinct(s, s');
      case ReplayNext(_) => SameCallsDistinct(s, s');
      case ReplayFinish(_) => SameCallsDistinct(s, s');
      case _ => if step.call < |s.calls| { CallMoves(cfg, s, step.call, step); }
    }
  }

  lemma {:induction false} RunDistinct(cfg: Config, found: seq<Option<Request>>, steps: seq<Step>)
    requires ValidConfig(cfg)
    ensures AllDistinct(Run(cfg, found, steps))
  {
    if steps != [] {
      var pre := steps[..|steps| - 1];
      RunDistinct(cfg, found, pre);
      RunGood(cfg, found, pre);
      StepDistinct(cfg, Run(cfg, found, pre), steps[|steps| - 1]);
    }
  }

  /** In every run, two slots of replies, of one call or of two, name different Redis entries
      and different WAL records: accepted publishes of equal content do not share one. */
  lemma SlotsNeverShared(cfg: Config, found: seq<Option<Request>>, steps: seq<Step>, c: nat, i: nat, d: nat, k: nat)
    requires ValidConfig(cfg) && (c != d || i != k)
    requires var s := Run(cfg, found, steps);
             && c < |s.calls| && s.calls[c].pc.Replied? && i < |s.calls[c].pc.slots|
             && d < |s.calls| && s.calls[d].pc.Replied? && k < |s.calls[d].pc.slots|
    ensures var s := Run(cfg, found, steps);
            s.calls[c].pc.slots[i] != s.calls[d].pc.slots[k]
  {
    RunDistinct(cfg, found, steps);
    var s := Run(cfg, found, steps);
    assert HeldAt(s.calls[c].pc, i) == Some(s.calls[c].pc.slots[i]);
    assert HeldAt(s.calls[d].pc, k) == Some(s.calls[d].pc.slots[k]);
  }
}
