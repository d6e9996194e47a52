/**
 The ack loop over whole runs: what a flush leaves pending, and conservation and accounting
 in every interleaving of acknowledgements, cancellation, draining and pipelines
 (internal/service/dispatcher.go).
 */
module AckRuns {
  import opened AckLoop

  // ---------------------------------------------------------------------------
  // Chunk lists
  // ---------------------------------------------------------------------------

  lemma {:induction false} FlattenAppend(xs: seq<seq<string>>, ys: seq<seq<string>>)
    ensures Flatten(xs + ys) == Flatten(xs) + Flatten(ys)
  {
    if xs == [] {
      assert xs + ys == ys;
    } else {
      FlattenAppend(xs[1..], ys);
      assert (xs + ys)[1..] == xs[1..] + ys;
      Regroup(xs[0], Flatten(xs[1..]), Flatten(ys));
    }
  }

  lemma Regroup(a: seq<string>, b: seq<string>, c: seq<string>)
    ensures a + b + c == a + (b + c)
  {
  }

  lemma FlattenOne(x: seq<string>)
    ensures Flatten([x]) == x
  {
    assert [x][1..] == [];
  }

  function IdsOf(chunks: seq<seq<string>>): set<string> {
    Elems(Flatten(chunks))
  }

  lemma IdsAppend(xs: seq<seq<string>>, ys: seq<seq<string>>)
    ensures IdsOf(xs + ys) == IdsOf(xs) + IdsOf(ys)
  {
    FlattenAppend(xs, ys);
  }

  lemma IdsSnoc(xs: seq<seq<string>>, x: seq<string>)
    ensures IdsOf(xs + [x]) == IdsOf(xs) + Elems(x)
  {
    IdsAppend(xs, [x]);
    FlattenOne(x);
  }

  lemma {:induction false} AppliedWithin(chunks: seq<seq<string>>, r: Reply, k: nat)
    requires k <= |chunks|
    ensures Answered(chunks, r, k) <= Applied(chunks, r, k) <= IdsOf(chunks[..k])
  {
    if k > 0 {
      AppliedWithin(chunks, r, k - 1);
      assert chunks[..k] == chunks[..k - 1] + [chunks[k - 1]];
      IdsSnoc(chunks[..k - 1], chunks[k - 1]);
    }
  }

  /** Without errors a pipeline clears all its chunks. */
  lemma {:induction false} CleanClears(chunks: seq<seq<string>>, r: Reply, k: nat)
    requires k <= |chunks| && Surfaces(r) && !r.execFails
    ensures Answered(chunks, r, k) == Applied(chunks, r, k) == IdsOf(chunks[..k])
  {
    if k > 0 {
      CleanClears(chunks, r, k - 1);
      assert chunks[..k] == chunks[..k - 1] + [chunks[k - 1]];
      IdsSnoc(chunks[..k - 1], chunks[k - 1]);
    }
  }

  lemma DistinctParts(a: seq<string>, b: seq<string>)
    requires Distinct(a + b)
    ensures Elems(a + b) - Elems(a) == Elems(b)
    ensures Elems(a + b) == Elems(a) + Elems(b)
    ensures Distinct(b)
  {
    forall i, j | 0 <= i < |a| && 0 <= j < |b| ensures a[i] != b[j] {
      assert (a + b)[i] == a[i] && (a + b)[|a| + j] == b[j];
    }
    forall i, j | 0 <= i < j < |b| ensures b[i] != b[j] {
      assert (a + b)[|a| + i] == b[i] && (a + b)[|a| + j] == b[j];
    }
  }

  /** The chunks from `j` on hold the IDs from position `j * size` on. */
  lemma {:induction false} ChunksFrom(items: seq<string>, size: nat, j: nat)
    requires size > 0 && j < |Chunks(items, size)|
    ensures 0 <= j * size < |items| && Flatten(Chunks(items, size)[j..]) == items[j * size..]
  {
    if j == 0 {
      ChunksCut(items, size);
    } else {
      var rest := items[Min(size, |items|)..];
      assert Chunks(items, size)[1..] == Chunks(rest, size);
      ChunksFrom(rest, size, j - 1);
      assert Chunks(items, size)[j..] == Chunks(rest, size)[j - 1..];
      assert j * size == (j - 1) * size + size;
      assert rest[(j - 1) * size..] == items[j * size..];
    }
  }

  // ---------------------------------------------------------------------------
  // Flush exactness
  // ---------------------------------------------------------------------------

  /** The loop is about to send the chunks from `i` on, which are just the pending IDs. */
  ghost predicate Poised(l: Loop, chunks: seq<seq<string>>, i: nat) {
    i <= |chunks| && Distinct(Flatten(chunks[i..])) && l.pending == IdsOf(chunks[i..])
  }

  lemma PoisedNext(l: Loop, chunks: seq<seq<string>>, i: nat, end: nat, r: Reply)
    requires Poised(l, chunks, i) && i <= end <= |chunks| && Surfaces(r) && !r.execFails
    ensures var l' := Pipelined(l, chunks[i..end], r);
            Poised(l', chunks, end) && l'.acked == l.acked + IdsOf(chunks[i..end])
  {
    var now, later := chunks[i..end], chunks[end..];
    assert chunks[i..] == now + later;
    FlattenAppend(now, later);
    DistinctParts(Flatten(now), Flatten(later));
    CleanClears(now, r, |now|);
    assert now[..|now|] == now;
  }

  ghost predicate AllClean(replies: seq<Reply>) {
    forall i :: 0 <= i < |replies| ==> Surfaces(replies[i]) && !replies[i].execFails
  }

  lemma FlushFromStep(
    l: Loop, chunks: seq<seq<string>>, i: nat, width: nat, replies: seq<Reply>, k: nat, end: nat, l': Loop)
    requires width > 0 && i < |chunks| && end == Min(i + width, |chunks|)
    requires l' == Pipelined(l, chunks[i..end], ReplyAt(replies, k))
    ensures FlushFrom(l, chunks, i, width, replies, k) ==
            if ReplyAt(replies, k).execFails then Flushed(l', false)
            else if end == |chunks| then Flushed(l', true)
            else FlushFrom(l', chunks, end, width, replies, k + 1)
  {
  }

  lemma {:induction false} CleanFlushFrom(
    l: Loop, chunks: seq<seq<string>>, i: nat, width: nat, replies: seq<Reply>, k: nat)
    requires width > 0 && Poised(l, chunks, i)
    requires AllClean(replies)
    ensures var f := FlushFrom(l, chunks, i, width, replies, k);
            && f.ok && f.loop == l.(pending := {}, acked := l.acked + IdsOf(chunks[i..]), sent := l.sent + chunks[i..])
    decreases |chunks| - i
  {
    if i == |chunks| {
      assert chunks[i..] == [] && l.sent + [] == l.sent;
    } else {
      var end := Min(i + width, |chunks|);
      var l' := Pipelined(l, chunks[i..end], ReplyAt(replies, k));
      PoisedNext(l, chunks, i, end, ReplyAt(replies, k));
      CleanFlushFrom(l', chunks, end, width, replies, k + 1);
      SplitTail(l.sent, chunks, i, end);
    }
  }

  lemma SplitTail(sent: seq<seq<string>>, chunks: seq<seq<string>>, i: nat, end: nat)
    requires i <= end <= |chunks|
    ensures IdsOf(chunks[i..]) == IdsOf(chunks[i..end]) + IdsOf(chunks[end..])
    ensures sent + chunks[i..] == sent + chunks[i..end] + chunks[end..]
  {
    assert chunks[i..] == chunks[i..end] + chunks[end..];
    IdsAppend(chunks[i..end], chunks[end..]);
  }

  /** The chunks a flush goes through. */
  ghost function ChunksOf(c: Config, l: Loop): seq<seq<string>> {
    Chunks(Ordered(l.pending), AtLeastOne(c.batchSize))
  }

  lemma ChunksOfPending(c: Config, l: Loop)
    ensures Lists(Flatten(ChunksOf(c, l)), l.pending) && IdsOf(ChunksOf(c, l)) == l.pending
    ensures forall i :: 0 <= i < |ChunksOf(c, l)| ==> 1 <= |ChunksOf(c, l)[i]| <= AtLeastOne(c.batchSize)
    ensures Poised(l, ChunksOf(c, l), 0)
  {
    OrderedLists(l.pending);
    ChunksCut(Ordered(l.pending), AtLeastOne(c.batchSize));
    assert ChunksOf(c, l)[0..] == ChunksOf(c, l);
  }

  lemma ChunkIds(c: Config, l: Loop)
    ensures IdsOf(ChunksOf(c, l)) == l.pending
    ensures l.pending != {} ==> |ChunksOf(c, l)| > 0
  {
    ChunksOfPending(c, l);
    assert IdsOf([]) == {};
  }

  /** A flush without errors sends the pending IDs, each in exactly one chunk of at most the
      batch size, and leaves nothing pending. */
  lemma FlushExact(c: Config, l: Loop, replies: seq<Reply>)
    requires l.pending != {} && AllClean(replies)
    ensures Lists(Flatten(ChunksOf(c, l)), l.pending)
    ensures forall i :: 0 <= i < |ChunksOf(c, l)| ==> 1 <= |ChunksOf(c, l)[i]| <= AtLeastOne(c.batchSize)
    ensures AfterFlush(c, l, replies)
            == Loop({}, 0, l.acked + l.pending, l.sent + ChunksOf(c, l), l.observed + l.pendingInput)
  {
    var chunks := ChunksOf(c, l);
    ChunksOfPending(c, l);
    CleanFlushFrom(l, chunks, 0, AtLeastOne(c.concurrency), replies, 0);
    assert chunks[0..] == chunks;
  }

  lemma NextMultiple(p: nat, width: nat)
    requires p > 0
    ensures p * width == (p - 1) * width + width && (p - 1) * width >= 0
  {
  }

  lemma {:induction false} FailedFlushFrom(
    l: Loop, chunks: seq<seq<string>>, i: nat, width: nat, replies: seq<Reply>, k: nat, p: nat)
    requires width > 0 && Poised(l, chunks, i) && i + p * width < |chunks|
    requires forall m :: k <= m < k + p ==> Surfaces(ReplyAt(replies, m)) && !ReplyAt(replies, m).execFails
    requires ReplyAt(replies, k + p).execFails
    ensures var f := FlushFrom(l, chunks, i, width, replies, k);
            && !f.ok
            && f.loop.pending == IdsOf(chunks[i + p * width..])
            && f.loop.pendingInput == l.pendingInput && f.loop.observed == l.observed
    decreases p
  {
    var end := Min(i + width, |chunks|);
    var l' := Pipelined(l, chunks[i..end], ReplyAt(replies, k));
    if p > 0 {
      NextMultiple(p, width);
      FlushFromStep(l, chunks, i, width, replies, k, end, l');
      PoisedNext(l, chunks, i, end, ReplyAt(replies, k));
      FailedFlushFrom(l', chunks, end, width, replies, k + 1, p - 1);
    } else {
      assert i + p * width == i;
    }
  }

  /** A flush whose pipeline `p` is the first to fail leaves exactly the IDs from that
      pipeline's first chunk on, whatever part of the failed pipeline took effect. */
  lemma FlushFailsAt(c: Config, l: Loop, replies: seq<Reply>, p: nat, at: nat)
    requires forall m :: 0 <= m < p ==> Surfaces(ReplyAt(replies, m)) && !ReplyAt(replies, m).execFails
    requires ReplyAt(replies, p).execFails
    requires at == p * AtLeastOne(c.concurrency) && at < |ChunksOf(c, l)|
    ensures var l' := AfterFlush(c, l, replies);
            && l'.pending == IdsOf(ChunksOf(c, l)[at..])
            && l'.pendingInput == l.pendingInput && l'.observed == l.observed
  {
    ChunksOfPending(c, l);
    FailedFlushFrom(l, ChunksOf(c, l), 0, AtLeastOne(c.concurrency), replies, 0, p);
  }

  // ---------------------------------------------------------------------------
  // The machine
  // ---------------------------------------------------------------------------

  /** What `runAckLoop` does once the queue is drained. */
  datatype Next = FlushIfFull | FlushNow | FlushAndExit

  datatype Pc =
    | Idle
    | Draining(next: Next)
    | Flushing(chunks: seq<seq<string>>, at: nat, exiting: bool)
    | Exited(flushed: bool)

  /** `accepted` and `drained` are the IDs accepted by `queueAck` and taken off the queue so
      far, `dequeued` how many were taken counting repeats, and `recounted` how many were
      still pending at the end of a completed flush and so are reported again. */
  datatype State = State(
    queue: seq<seq<string>>,
    cancelled: bool,
    loop: Loop,
    pc: Pc,
    accepted: set<string>,
    drained: set<string>,
    dequeued: nat,
    recounted: nat)

  const INIT := State([], false, START, Idle, {}, {}, 0, 0)

  datatype Step =
    | QueueAck(entryIds: seq<string>, pickDone: bool)
    | Cancel
    | SeeDone
    | SeeBatch
    | SeeTick
    | DrainOne
    | DrainEnd
    | Pipeline(reply: Reply)

  function TakeBatch(s: State): State
    requires s.queue != []
  {
    var ids := s.queue[0];
    s.(queue := s.queue[1..], loop := Added(s.loop, ids),
       drained := s.drained + Elems(ids), dequeued := s.dequeued + |ids|)
  }

  ghost function BeginFlush(c: Config, s: State, exiting: bool): State {
    if s.loop.pending == {} then s.(pc := if exiting then Exited(true) else Idle)
    else s.(pc := Flushing(ChunksOf(c, s.loop), 0, exiting))
  }

  function EndFlush(s: State, exiting: bool): State {
    s.(loop := Reported(s.loop), recounted := s.recounted + |s.loop.pending|,
       pc := if exiting then Exited(true) else Idle)
  }

  /** The next pipeline of a flush. */
  function SendPipeline(c: Config, s: State, r: Reply): State
    requires s.pc.Flushing?
  {
    if s.pc.at >= |s.pc.chunks| then s
    else
      var end := Min(s.pc.at + AtLeastOne(c.concurrency), |s.pc.chunks|);
      var s1 := s.(loop := Pipelined(s.loop, s.pc.chunks[s.pc.at..end], r));
      if r.execFails then s1.(pc := if s.pc.exiting then Exited(false) else Idle)
      else if end == |s.pc.chunks| then EndFlush(s1, s.pc.exiting)
      else s1.(pc := s.pc.(at := end))
  }

  /** A step that is not enabled leaves the state as it is. */
  ghost function Apply(c: Config, s: State, step: Step): State {
    match step
    case QueueAck(entryIds, pickDone) =>
      if AckOutcome(c, s.queue, s.cancelled, entryIds, pickDone).Accepted?
      then s.(queue := s.queue + [Cleaned(entryIds)], accepted := s.accepted + Elems(Cleaned(entryIds))) else s
    case Cancel => s.(cancelled := true)
    case SeeDone => if s.pc.Idle? && s.cancelled then s.(pc := Draining(FlushAndExit)) else s
    case SeeBatch => if s.pc.Idle? && s.queue != [] then TakeBatch(s).(pc := Draining(FlushIfFull)) else s
    case SeeTick => if s.pc.Idle? then s.(pc := Draining(FlushNow)) else s
    case DrainOne => if s.pc.Draining? && s.queue != [] then TakeBatch(s) else s
    case DrainEnd =>
      if !s.pc.Draining? || s.queue != [] then s
      else if s.pc.next.FlushIfFull? && |s.loop.pending| < c.batchSize then s.(pc := Idle)
      else BeginFlush(c, s, s.pc.next.FlushAndExit?)
    case Pipeline(r) => if s.pc.Flushing? then SendPipeline(c, s, r) else s
  }

  ghost function Run(c: Config, steps: seq<Step>): State {
    if steps == [] then INIT else Apply(c, Run(c, steps[..|steps| - 1]), steps[|steps| - 1])
  }

  // ---------------------------------------------------------------------------
  // The machine's flush is the method's flush
  // ---------------------------------------------------------------------------

  /** The pipelines of one flush, run to its end. */
  function RunPipelines(c: Config, s: State, replies: seq<Reply>, k: nat): State
    decreases if s.pc.Flushing? then |s.pc.chunks| - s.pc.at else -1
  {
    if s.pc.Flushing? && s.pc.at < |s.pc.chunks|
    then RunPipelines(c, SendPipeline(c, s, ReplyAt(replies, k)), replies, k + 1) else s
  }

  /** The loop state at the end of a flush. */
  function Finished(f: Flushed): Loop {
    if f.ok then Reported(f.loop) else f.loop
  }

  lemma {:induction false} PipelinesFlush(c: Config, s: State, replies: seq<Reply>, k: nat)
    requires s.pc.Flushing? && s.pc.at < |s.pc.chunks|
    ensures RunPipelines(c, s, replies, k).loop
            == Finished(FlushFrom(s.loop, s.pc.chunks, s.pc.at, AtLeastOne(c.concurrency), replies, k))
    decreases |s.pc.chunks| - s.pc.at
  {
    var end := Min(s.pc.at + AtLeastOne(c.concurrency), |s.pc.chunks|);
    var l' := Pipelined(s.loop, s.pc.chunks[s.pc.at..end], ReplyAt(replies, k));
    FlushFromStep(s.loop, s.pc.chunks, s.pc.at, AtLeastOne(c.concurrency), replies, k, end, l');
    var s' := SendPipeline(c, s, ReplyAt(replies, k));
    SendPipelineStep(c, s, ReplyAt(replies, k), end, l', s');
    if !ReplyAt(replies, k).execFails && end < |s.pc.chunks| {
      PipelinesFlush(c, s', replies, k + 1);
    }
  }

  lemma SendPipelineStep(c: Config, s: State, r: Reply, end: nat, l': Loop, s': State)
    requires s.pc.Flushing? && s.pc.at < |s.pc.chunks| && end == Min(s.pc.at + AtLeastOne(c.concurrency), |s.pc.chunks|)
    requires l' == Pipelined(s.loop, s.pc.chunks[s.pc.at..end], r) && s' == SendPipeline(c, s, r)
    ensures r.execFails ==> s'.loop == l' && !s'.pc.Flushing? && s'.pc != Exited(true) && s'.recounted == s.recounted
    ensures !r.execFails && end == |s.pc.chunks| ==>
              s'.loop == Reported(l') && !s'.pc.Flushing? && s'.recounted == s.recounted + |l'.pending|
    ensures !r.execFails && end < |s.pc.chunks| ==>
              s'.loop == l' && s'.pc == s.pc.(at := end) && s'.recounted == s.recounted
  {
  }

  /** Running a flush pipeline by pipeline gives what the `Flush` method gives in one call. */
  lemma FlushRefined(c: Config, s: State, exiting: bool, replies: seq<Reply>)
    ensures RunPipelines(c, BeginFlush(c, s, exiting), replies, 0).loop == AfterFlush(c, s.loop, replies)
  {
    if s.loop.pending != {} {
      ChunkIds(c, s.loop);
      PipelinesFlush(c, BeginFlush(c, s, exiting), replies, 0);
    }
  }

  // ---------------------------------------------------------------------------
  // Conservation
  // ---------------------------------------------------------------------------

  ghost predicate Conserved(s: State) {
    && s.accepted == IdsOf(s.queue) + s.drained
    && s.drained == s.loop.pending + s.loop.acked
    && IdsOf(s.loop.sent) <= s.drained
    && (s.pc.Flushing? ==> IdsOf(s.pc.chunks) <= s.drained)
  }

  lemma TakeConserves(s: State)
    requires Conserved(s) && s.queue != []
    ensures Conserved(TakeBatch(s))
  {
    IdsAppend([s.queue[0]], s.queue[1..]);
    FlattenOne(s.queue[0]);
    assert s.queue == [s.queue[0]] + s.queue[1..];
  }

  lemma LoopConserves(l: Loop, now: seq<seq<string>>, r: Reply, drained: set<string>)
    requires drained == l.pending + l.acked && IdsOf(l.sent) <= drained && IdsOf(now) <= drained
    ensures var l' := Pipelined(l, now, r);
            drained == l'.pending + l'.acked && IdsOf(l'.sent) <= drained
  {
    AppliedWithin(now, r, |now|);
    assert now[..|now|] == now;
    IdsAppend(l.sent, now);
  }

  lemma SliceIds(chunks: seq<seq<string>>, i: nat, j: nat)
    requires i <= j <= |chunks|
    ensures IdsOf(chunks[i..j]) <= IdsOf(chunks)
  {
    assert chunks == chunks[..i] + (chunks[i..j] + chunks[j..]);
    IdsAppend(chunks[i..j], chunks[j..]);
    IdsAppend(chunks[..i], chunks[i..j] + chunks[j..]);
  }

  lemma PipelineConserves(c: Config, s: State, r: Reply)
    requires Conserved(s) && s.pc.Flushing?
    ensures Conserved(SendPipeline(c, s, r))
  {
    if s.pc.at < |s.pc.chunks| {
      var end := Min(s.pc.at + AtLeastOne(c.concurrency), |s.pc.chunks|);
      SliceIds(s.pc.chunks, s.pc.at, end);
      LoopConserves(s.loop, s.pc.chunks[s.pc.at..end], r, s.drained);
    }
  }

  lemma BeginConserves(c: Config, s: State, exiting: bool)
    requires Conserved(s)
    ensures Conserved(BeginFlush(c, s, exiting))
  {
    ChunksOfPending(c, s.loop);
  }

  lemma StepConserves(c: Config, s: State, step: Step)
    requires Conserved(s)
    ensures Conserved(Apply(c, s, step))
  {
    match step {
      case QueueAck(entryIds, _) => IdsSnoc(s.queue, Cleaned(entryIds));
      case Pipeline(r) => if s.pc.Flushing? { PipelineConserves(c, s, r); }
      case DrainEnd => if s.pc.Draining? { BeginConserves(c, s, s.pc.next.FlushAndExit?); }
      case SeeBatch => if s.queue != [] { TakeConserves(s); }
      case DrainOne => if s.queue != [] { TakeConserves(s); }
      case _ =>
    }
  }

  /** Ack conservation: every accepted ID is queued, pending or XACKed, every ID ever put in an
      XACK was accepted, and so was every ID an XACK took effect on. */
  lemma {:induction false} AckConservation(c: Config, steps: seq<Step>)
    ensures var s := Run(c, steps);
            && s.accepted == IdsOf(s.queue) + s.loop.pending + s.loop.acked
            && s.drained == s.loop.pending + s.loop.acked
            && IdsOf(s.loop.sent) <= s.accepted
  {
    RunConserves(c, steps);
  }

  lemma {:induction false} RunConserves(c: Config, steps: seq<Step>)
    ensures Conserved(Run(c, steps))
  {
    if steps != [] {
      RunConserves(c, steps[..|steps| - 1]);
      StepConserves(c, Run(c, steps[..|steps| - 1]), steps[|steps| - 1]);
    }
  }

  /** The IDs a step's XACKs take effect on. */
  function Xacked(c: Config, s: State, step: Step): set<string> {
    if step.Pipeline? && s.pc.Flushing? && s.pc.at < |s.pc.chunks| then
      var end := Min(s.pc.at + AtLeastOne(c.concurrency), |s.pc.chunks|);
      Applied(s.pc.chunks[s.pc.at..end], step.reply, end - s.pc.at)
    else {}
  }

  /** XACKs only ever reach IDs accepted before. */
  lemma XackedWereAccepted(c: Config, s: State, step: Step)
    requires Conserved(s)
    ensures Xacked(c, s, step) <= s.accepted
  {
    if step.Pipeline? && s.pc.Flushing? && s.pc.at < |s.pc.chunks| {
      var end := Min(s.pc.at + AtLeastOne(c.concurrency), |s.pc.chunks|);
      var now := s.pc.chunks[s.pc.at..end];
      AppliedWithin(now, step.reply, |now|);
      assert now[..|now|] == now;
      SliceIds(s.pc.chunks, s.pc.at, end);
    }
  }

  /** The loop's record of XACKs is complete. */
  lemma XackedAreRecorded(c: Config, s: State, step: Step)
    ensures Apply(c, s, step).loop.acked == s.loop.acked + Xacked(c, s, step)
  {
    if step.Pipeline? && s.pc.Flushing? && s.pc.at < |s.pc.chunks| {
      var end := Min(s.pc.at + AtLeastOne(c.concurrency), |s.pc.chunks|);
      var l' := Pipelined(s.loop, s.pc.chunks[s.pc.at..end], step.reply);
      SendPipelineStep(c, s, step.reply, end, l', SendPipeline(c, s, step.reply));
    }
  }

  // ---------------------------------------------------------------------------
  // Accounting
  // ---------------------------------------------------------------------------

  ghost predicate Counted(s: State) {
    && |s.loop.pending| <= s.loop.pendingInput
    && s.loop.observed + s.loop.pendingInput == s.dequeued + s.recounted
  }

  lemma SubsetSize<T>(a: set<T>, b: set<T>)
    requires a <= b
    ensures |a| <= |b|
  {
    assert b == a + (b - a);
  }

  lemma {:induction false} ElemsSize(ids: seq<string>)
    ensures |Elems(ids)| <= |ids|
  {
    if ids != [] {
      ElemsSize(ids[..|ids| - 1]);
      assert ids == ids[..|ids| - 1] + [ids[|ids| - 1]];
      assert Elems(ids) == Elems(ids[..|ids| - 1]) + {ids[|ids| - 1]};
    }
  }

  lemma TakeCounts(s: State)
    requires Counted(s) && s.queue != []
    ensures Counted(TakeBatch(s))
  {
    ElemsSize(s.queue[0]);
  }

  lemma PipelineCounts(c: Config, s: State, r: Reply)
    requires Counted(s) && s.pc.Flushing?
    ensures Counted(SendPipeline(c, s, r))
  {
    if s.pc.at < |s.pc.chunks| {
      var end := Min(s.pc.at + AtLeastOne(c.concurrency), |s.pc.chunks|);
      SubsetSize(Pipelined(s.loop, s.pc.chunks[s.pc.at..end], r).pending, s.loop.pending);
    }
  }

  lemma {:induction false} RunCounts(c: Config, steps: seq<Step>)
    ensures Counted(Run(c, steps))
  {
    if steps != [] {
      var s, step := Run(c, steps[..|steps| - 1]), steps[|steps| - 1];
      RunCounts(c, steps[..|steps| - 1]);
      if step.Pipeline? && s.pc.Flushing? {
        PipelineCounts(c, s, step.reply);
      } else if (step.SeeBatch? || step.DrainOne?) && s.queue != [] {
        TakeCounts(s);
      }
    }
  }

  /** All replies of the run surface command errors through Exec. */
  ghost predicate AllSurface(steps: seq<Step>) {
    forall i :: 0 <= i < |steps| && steps[i].Pipeline? ==> Surfaces(steps[i].reply)
  }

  ghost predicate Exact(s: State) {
    && s.recounted == 0
    && (s.pc.Flushing? ==> Poised(s.loop, s.pc.chunks, s.pc.at))
    && (s.pc == Exited(true) ==> s.loop.pending == {})
  }

  lemma PoisedAtEnd(l: Loop, chunks: seq<seq<string>>, end: nat)
    requires Poised(l, chunks, end)
    ensures end == |chunks| ==> l.pending == {}
  {
  }

  lemma PipelineExact(c: Config, s: State, r: Reply)
    requires Exact(s) && s.pc.Flushing? && Surfaces(r)
    ensures Exact(SendPipeline(c, s, r))
  {
    if s.pc.at < |s.pc.chunks| {
      var chunks, at := s.pc.chunks, s.pc.at;
      var end := Min(at + AtLeastOne(c.concurrency), |chunks|);
      var l' := Pipelined(s.loop, chunks[at..end], r);
      SendPipelineStep(c, s, r, end, l', SendPipeline(c, s, r));
      if !r.execFails {
        PoisedNext(s.loop, chunks, at, end, r);
        PoisedAtEnd(l', chunks, end);
      }
    }
  }

  lemma StepExact(c: Config, s: State, step: Step)
    requires Exact(s) && (step.Pipeline? ==> Surfaces(step.reply))
    ensures Exact(Apply(c, s, step))
  {
    match step {
      case Pipeline(r) => if s.pc.Flushing? { PipelineExact(c, s, r); }
      case DrainEnd => if s.pc.Draining? { BeginExact(c, s, s.pc.next.FlushAndExit?); }
      case _ =>
    }
  }

  lemma BeginExact(c: Config, s: State, exiting: bool)
    requires Exact(s)
    ensures Exact(BeginFlush(c, s, exiting))
  {
    ChunksOfPending(c, s.loop);
  }

  lemma {:induction false} RunExact(c: Config, steps: seq<Step>)
    requires AllSurface(steps)
    ensures Exact(Run(c, steps))
  {
    if steps != [] {
      var pre, step := steps[..|steps| - 1], steps[|steps| - 1];
      RunExact(c, pre);
      StepExact(c, Run(c, pre), step);
    }
  }

  /** Accounting: in every run the input count covers the pending set and the reported input
      plus the input count is everything dequeued plus what was counted again; nothing is
      counted again when command errors surface through Exec. */
  lemma Accounting(c: Config, steps: seq<Step>)
    ensures var s := Run(c, steps);
            && s.loop.pendingInput >= |s.loop.pending|
            && s.loop.observed + s.loop.pendingInput == s.dequeued + s.recounted
            && (AllSurface(steps) ==> s.loop.observed + s.loop.pendingInput == s.dequeued)
  {
    RunCounts(c, steps);
    if AllSurface(steps) {
      RunExact(c, steps);
    }
  }

  /** A loop that exits after a successful final flush has XACKed everything it drained. */
  lemma ExitAcksDrained(c: Config, steps: seq<Step>)
    requires AllSurface(steps) && Run(c, steps).pc == Exited(true)
    ensures Run(c, steps).drained == Run(c, steps).loop.acked
  {
    RunConserves(c, steps);
    RunExact(c, steps);
  }
}
