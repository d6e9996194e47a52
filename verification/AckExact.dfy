/**
 Exactly what one acknowledgement, one pipeline and one turn of the ack loop do
 (internal/service/dispatcher.go), stated by IDs and positions.
 */
module AckExact {
  import opened Common
  import opened Positions
  import opened AckLoop
  import opened AckRuns

  // ---------------------------------------------------------------------------
  // One pipeline
  // ---------------------------------------------------------------------------

  /** Some of the first `k` chunks holds `id` and its command came back without an error. */
  ghost predicate AnsweredIn(chunks: seq<seq<string>>, r: Reply, k: nat, id: string) {
    exists i :: 0 <= i < k && i < |chunks| && id in chunks[i] && (i < |r.cmds| ==> r.cmds[i] == Acked)
  }

  /** Some of the first `k` chunks holds `id` and its command took effect. */
  ghost predicate AppliedIn(chunks: seq<seq<string>>, r: Reply, k: nat, id: string) {
    exists i :: 0 <= i < k && i < |chunks| && id in chunks[i] && (i < |r.cmds| ==> r.cmds[i] != Failed)
  }

  lemma {:induction false} ClearedExactly(chunks: seq<seq<string>>, r: Reply, k: nat)
    requires k <= |chunks|
    ensures forall id :: id in Answered(chunks, r, k) <==> AnsweredIn(chunks, r, k, id)
    ensures forall id :: id in Applied(chunks, r, k) <==> AppliedIn(chunks, r, k, id)
  {
    if k > 0 {
      ClearedExactly(chunks, r, k - 1);
      forall id
        ensures AnsweredIn(chunks, r, k, id) <==>
                AnsweredIn(chunks, r, k - 1, id) || (id in chunks[k - 1] && CmdAt(r, k - 1).Acked?)
        ensures AppliedIn(chunks, r, k, id) <==>
                AppliedIn(chunks, r, k - 1, id) || (id in chunks[k - 1] && !CmdAt(r, k - 1).Failed?)
      {
      }
    }
  }

  /** An ID leaves the pending set exactly when Exec succeeded and a command naming it did; it is
      XACKed exactly when a command naming it took effect, whatever came back. */
  lemma PipelineExactly(l: Loop, chunks: seq<seq<string>>, r: Reply, id: string)
    ensures var l' := Pipelined(l, chunks, r);
            && (id in l'.pending <==> id in l.pending && (r.execFails || !AnsweredIn(chunks, r, |chunks|, id)))
            && (id in l'.acked <==> id in l.acked || AppliedIn(chunks, r, |chunks|, id))
            && l'.sent == l.sent + chunks && l'.pendingInput == l.pendingInput && l'.observed == l.observed
  {
    ClearedExactly(chunks, r, |chunks|);
  }

  // ---------------------------------------------------------------------------
  // Accepting and taking batches
  // ---------------------------------------------------------------------------

  /** An accepted acknowledgement enters the queue at its end as one batch with every ID that is
      not blank; any other leaves the loop as it was. */
  lemma AckEntersQueue(c: Config, s: State, entryIds: seq<string>, pickDone: bool) returns (at: seq<nat>)
    ensures var s' := Apply(c, s, QueueAck(entryIds, pickDone));
            var r := AckOutcome(c, s.queue, s.cancelled, entryIds, pickDone);
            && (!r.Accepted? ==> s' == s)
            && (r.Accepted? ==>
                  && |s'.queue| == |s.queue| + 1 && s'.queue[..|s.queue|] == s.queue
                  && TrimmedAt(entryIds, at, s'.queue[|s.queue|]) && at != []
                  && (forall id :: id in s'.accepted <==> id in s.accepted || id in s'.queue[|s.queue|])
                  && s'.loop == s.loop && s'.pc == s.pc)
  {
    at := AckOutcomeExactly(c, s.queue, s.cancelled, entryIds, pickDone);
    TrimmedNone(entryIds, at, Cleaned(entryIds));
  }

  /** Taking a batch: the oldest one, all of it, counting repeats. */
  lemma TakesOldest(c: Config, s: State, step: Step)
    requires s.queue != []
    requires (step.SeeBatch? && s.pc.Idle?) || (step.DrainOne? && s.pc.Draining?)
    ensures var s' := Apply(c, s, step);
            && [s.queue[0]] + s'.queue == s.queue
            && (forall id :: id in s'.loop.pending <==> id in s.loop.pending || id in s.queue[0])
            && s'.loop.pendingInput == s.loop.pendingInput + |s.queue[0]|
            && s'.pc == (if step.SeeBatch? then Draining(FlushIfFull) else s.pc)
  {
  }

  /** Draining adds every ID of every queued batch and counts each of them. */
  lemma {:induction false} DrainExactly(l: Loop, queue: seq<seq<string>>)
    ensures var l' := AddedAll(l, queue);
            && (forall id :: id in l'.pending <==> id in l.pending || id in Flatten(queue))
            && l'.pendingInput == l.pendingInput + |Flatten(queue)|
            && l'.acked == l.acked && l'.sent == l.sent && l'.observed == l.observed
    decreases |queue|
  {
    if queue != [] {
      DrainExactly(Added(l, queue[0]), queue[1..]);
    }
  }

  /** The queue never holds more batches than it was made for. */
  lemma {:induction false} QueueBounded(c: Config, steps: seq<Step>)
    ensures |Run(c, steps).queue| <= c.queueSize
  {
    if steps != [] {
      QueueBounded(c, steps[..|steps| - 1]);
      StepBounded(c, Run(c, steps[..|steps| - 1]), steps[|steps| - 1]);
    }
  }

  lemma StepBounded(c: Config, s: State, step: Step)
    requires |s.queue| <= c.queueSize
    ensures |Apply(c, s, step).queue| <= c.queueSize
  {
  }

  // ---------------------------------------------------------------------------
  // When the loop flushes and when it ends
  // ---------------------------------------------------------------------------

  /** Once the queue is drained, the loop flushes exactly when something is pending and it was
      woken by the ticker or by cancellation, or a full batch is pending; the flush goes through
      all pending IDs. Otherwise it goes back to waiting, or ends if it was cancelled. */
  lemma FlushesWhenDue(c: Config, s: State)
    requires s.pc.Draining? && s.queue == []
    ensures var s' := Apply(c, s, DrainEnd);
            var due := s.loop.pending != {} && (!s.pc.next.FlushIfFull? || |s.loop.pending| >= c.batchSize);
            && s'.loop == s.loop && s'.queue == []
            && (due ==> s'.pc.Flushing? && IdsOf(s'.pc.chunks) == s.loop.pending && s'.pc.at == 0)
            && (due ==> (s'.pc.exiting <==> s.pc.next.FlushAndExit?))
            && (!due ==> s'.pc == if s.pc.next.FlushAndExit? then Exited(true) else Idle)
  {
    ChunkIds(c, s.loop);
  }

  /** What wakes a waiting loop decides what it does after draining. */
  lemma WakesFor(c: Config, s: State)
    requires s.pc.Idle?
    ensures Apply(c, s, SeeTick).pc == Draining(FlushNow)
    ensures Apply(c, s, SeeDone).pc == if s.cancelled then Draining(FlushAndExit) else Idle
    ensures Apply(c, s, SeeBatch).pc == if s.queue != [] then Draining(FlushIfFull) else Idle
    ensures Apply(c, s, Cancel) == s.(cancelled := true)
  {
  }

  /** A flush ends at the first Exec error or after its last chunk, and with it the loop if it
      was cancelled. */
  lemma FlushEnds(c: Config, s: State, r: Reply)
    requires s.pc.Flushing? && s.pc.at < |s.pc.chunks|
    ensures var s', end := Apply(c, s, Pipeline(r)), Min(s.pc.at + AtLeastOne(c.concurrency), |s.pc.chunks|);
            && s'.loop.sent == s.loop.sent + s.pc.chunks[s.pc.at..end]
            && (r.execFails ==> s'.pc == if s.pc.exiting then Exited(false) else Idle)
            && (!r.execFails && end == |s.pc.chunks| ==> s'.pc == if s.pc.exiting then Exited(true) else Idle)
            && (!r.execFails && end < |s.pc.chunks| ==> s'.pc == s.pc.(at := end))
  {
  }

  ghost predicate Leaving(s: State) {
    s.pc.Exited? || s.pc == Draining(FlushAndExit) || (s.pc.Flushing? && s.pc.exiting)
  }

  /** The loop only ends, or prepares to, after cancellation, and an ended loop does nothing more. */
  lemma {:induction false} EndsOnlyWhenCancelled(c: Config, steps: seq<Step>)
    ensures Leaving(Run(c, steps)) ==> Run(c, steps).cancelled
  {
    if steps != [] {
      EndsOnlyWhenCancelled(c, steps[..|steps| - 1]);
      LeavingStep(c, Run(c, steps[..|steps| - 1]), steps[|steps| - 1]);
    }
  }

  lemma LeavingStep(c: Config, s: State, step: Step)
    requires Leaving(s) ==> s.cancelled
    ensures Leaving(Apply(c, s, step)) ==> Apply(c, s, step).cancelled
    ensures s.pc.Exited? ==> Apply(c, s, step).loop == s.loop && Apply(c, s, step).pc == s.pc
  {
  }
}
