/**
 The pipeline worker's own code (internal/service/publish_pipeline.go): draining the queue into
 the buffer, deciding when to flush, and flushing a batch with one answer per job. Callers act
 only between these methods here; the interleaved runs are in PipelineRuns.
 */
module PipelineWorker {
  import opened Positions
  import opened Pipeline
  import opened PipelineRuns

  predicate JobsIn(jobs: seq<Job>, js: seq<nat>) {
    forall i :: 0 <= i < |js| ==> js[i] < |jobs|
  }

  /** The jobs of a batch that are not cancelled, in order. */
  function Live(jobs: seq<Job>, batch: seq<nat>): (live: seq<nat>)
    requires JobsIn(jobs, batch)
    ensures JobsIn(jobs, live) && forall j :: j in live <==> j in batch && !jobs[j].ctxDone
  {
    if batch == [] then []
    else
      var n := |batch| - 1;
      var rest := Live(jobs, batch[..n]);
      assert batch == batch[..n] + [batch[n]];
      if jobs[batch[n]].ctxDone then rest else rest + [batch[n]]
  }

  lemma {:induction false} LiveDistinct(jobs: seq<Job>, batch: seq<nat>)
    requires JobsIn(jobs, batch) && Distinct(batch)
    ensures Distinct(Live(jobs, batch))
  {
    if batch != [] {
      var n := |batch| - 1;
      LiveDistinct(jobs, batch[..n]);
      assert batch[n] !in batch[..n];
    }
  }

  /** The live jobs keep the order of the batch. */
  lemma {:induction false} LiveAt(jobs: seq<Job>, batch: seq<nat>) returns (at: seq<nat>)
    requires JobsIn(jobs, batch)
    ensures PicksAt(batch, Live(jobs, batch), at)
    ensures forall v: nat :: v in at <==> v < |batch| && !jobs[batch[v]].ctxDone
  {
    at := [];
    if batch != [] {
      var n := |batch| - 1;
      at := LiveAt(jobs, batch[..n]);
      PicksLonger(batch[..n], batch[n], Live(jobs, batch[..n]), at);
      assert batch == batch[..n] + [batch[n]];
      if !jobs[batch[n]].ctxDone {
        at := at + [n];
      }
    }
  }

  /** The job after one more result on its channel. */
  function Answer(job: Job, r: Result): Job {
    job.(slot := job.slot + [r], sent := job.sent + 1)
  }

  /** `jobs` is `was` with the first `k` jobs of `js` answered by `rs`. */
  ghost predicate AnsweredBy(was: seq<Job>, jobs: seq<Job>, js: seq<nat>, rs: seq<Result>, k: nat)
    requires k <= |js| == |rs| && JobsIn(was, js)
  {
    && |jobs| == |was|
    && (forall i :: 0 <= i < k ==> jobs[js[i]] == Answer(was[js[i]], rs[i]))
    && (forall j :: 0 <= j < |was| && j !in js[..k] ==> jobs[j] == was[j])
  }

  lemma AnswerNext(was: seq<Job>, jobs: seq<Job>, js: seq<nat>, rs: seq<Result>, k: nat)
    requires k < |js| == |rs| && JobsIn(was, js) && Distinct(js) && AnsweredBy(was, jobs, js, rs, k)
    ensures AnsweredBy(was, jobs[js[k] := Answer(jobs[js[k]], rs[k])], js, rs, k + 1)
  {
    assert js[k] !in js[..k];
    assert js[..k + 1] == js[..k] + [js[k]];
  }

  /** What each live job is told: an error for all when Exec failed, else its own reply. */
  function Told(replies: seq<Result>, failed: bool): seq<Result> {
    seq(|replies|, i requires 0 <= i < |replies| => if failed then Err else replies[i])
  }

  /** Log entries a pipeline of XADDs adds, in order, when nothing falls in between. */
  function NewEntries(jobs: seq<Job>, built: seq<nat>, cmds: seq<Cmd>): seq<Entry>
    requires |cmds| == |built| && JobsIn(jobs, built)
  {
    if built == [] then []
    else
      var n := |built| - 1;
      NewEntries(jobs, built[..n], cmds[..n]) +
      (if cmds[n].NotApplied? then [] else [Entry(jobs[built[n]].req, Pipeline.Worker(built[n]))])
  }

  /** The replies of a pipeline: the ID of the entry each command added, where it answered. */
  function Replies(jobs: seq<Job>, base: nat, built: seq<nat>, cmds: seq<Cmd>): (rs: seq<Result>)
    requires |cmds| == |built| && JobsIn(jobs, built)
    ensures |rs| == |built|
  {
    if built == [] then []
    else
      var n := |built| - 1;
      var r := if cmds[n].Applied? then Ok(base + |NewEntries(jobs, built[..n], cmds[..n])|) else Err;
      Replies(jobs, base, built[..n], cmds[..n]) + [r]
  }

  /** Each job of a batch gets one reply, in order, and a success points at the entry its own
      command added. */
  lemma {:induction false} RepliesTruthful(jobs: seq<Job>, log: seq<Entry>, built: seq<nat>, cmds: seq<Cmd>)
    requires |cmds| == |built| && JobsIn(jobs, built)
    ensures var rs := Replies(jobs, |log|, built, cmds);
            forall i :: 0 <= i < |built| ==>
              Truthful(log + NewEntries(jobs, built, cmds), built[i], jobs[built[i]].req, rs[i])
  {
    if built != [] {
      var n := |built| - 1;
      RepliesTruthful(jobs, log, built[..n], cmds[..n]);
      var before := log + NewEntries(jobs, built[..n], cmds[..n]);
      var after := log + NewEntries(jobs, built, cmds);
      assert before <= after;
      var rs := Replies(jobs, |log|, built, cmds);
      forall i | 0 <= i < |built|
        ensures Truthful(after, built[i], jobs[built[i]].req, rs[i])
      {
        if i < n {
          assert Truthful(before, built[i], jobs[built[i]].req, rs[i]);
        }
      }
    }
  }

  // ---------------------------------------------------------------------------
  // The machine's build steps, with nothing in between, are the method's
  // ---------------------------------------------------------------------------

  function Builds(n: nat): seq<Step> {
    seq(n, i => WorkerBuild)
  }

  /** `now` is `was` with the cancelled jobs of `batch` told so. */
  ghost predicate CancelledTold(was: seq<Job>, now: seq<Job>, batch: seq<nat>) {
    && |now| == |was|
    && forall j :: 0 <= j < |was| ==>
         now[j] == if j in batch && was[j].ctxDone then Answer(was[j], Err) else was[j]
  }

  lemma BuildOne(c: Config, was: seq<Job>, s: State, batch: seq<nat>, k: nat, exiting: bool)
    requires k < |batch| && JobsIn(was, batch) && Distinct(batch) && CancelledTold(was, s.jobs, batch[..k])
    requires s.pc == Building(batch[k..], Live(was, batch[..k]), exiting)
    ensures var s' := Apply(c, s, WorkerBuild);
            && s'.pc == Building(batch[k + 1..], Live(was, batch[..k + 1]), exiting)
            && CancelledTold(was, s'.jobs, batch[..k + 1]) && s'.log == s.log
  {
    NotTold(was, s.jobs, batch, k);
    BuildApplies(c, s, batch, k);
    BuildNextPc(s, batch, k);
    LiveSnoc(was, batch, k);
    ToldSnoc(was, s.jobs, BuildNext(s).jobs, batch, k);
  }

  lemma BuildApplies(c: Config, s: State, batch: seq<nat>, k: nat)
    requires s.pc.Building? && k < |batch| && s.pc.todo == batch[k..] && JobsIn(s.jobs, batch)
    ensures Apply(c, s, WorkerBuild) == BuildNext(s)
  {
    assert InRange(s, s.pc.todo);
  }

  /** The next job of a batch has not been told anything yet. */
  lemma NotTold(was: seq<Job>, now: seq<Job>, batch: seq<nat>, k: nat)
    requires k < |batch| && JobsIn(was, batch) && Distinct(batch) && CancelledTold(was, now, batch[..k])
    ensures batch[k] !in batch[..k] && batch[k] < |now| && now[batch[k]] == was[batch[k]] && JobsIn(now, batch)
  {
  }

  lemma BuildNextPc(s: State, batch: seq<nat>, k: nat)
    requires s.pc.Building? && k < |batch| && s.pc.todo == batch[k..] && batch[k] < |s.jobs|
    ensures var s', j := BuildNext(s), batch[k];
            && s'.pc.todo == batch[k + 1..] && s'.pc.exiting == s.pc.exiting && s'.log == s.log
            && s'.pc.built == s.pc.built + (if s.jobs[j].ctxDone then [] else [j])
            && s'.jobs == if s.jobs[j].ctxDone then s.jobs[j := Answer(s.jobs[j], Err)] else s.jobs
  {
    assert batch[k..][0] == batch[k] && batch[k..][1..] == batch[k + 1..];
  }

  lemma LiveSnoc(jobs: seq<Job>, batch: seq<nat>, k: nat)
    requires k < |batch| && JobsIn(jobs, batch)
    ensures Live(jobs, batch[..k + 1]) == Live(jobs, batch[..k]) + if jobs[batch[k]].ctxDone then [] else [batch[k]]
  {
    assert batch[..k + 1][..k] == batch[..k];
  }

  lemma ToldSnoc(was: seq<Job>, now: seq<Job>, next: seq<Job>, batch: seq<nat>, k: nat)
    requires k < |batch| && JobsIn(was, batch) && CancelledTold(was, now, batch[..k]) && batch[k] !in batch[..k]
    requires next == if was[batch[k]].ctxDone then now[batch[k] := Answer(now[batch[k]], Err)] else now
    ensures CancelledTold(was, next, batch[..k + 1])
  {
    assert batch[..k + 1] == batch[..k] + [batch[k]];
  }

  /** Run without interruption, the build steps leave the live jobs in batch order and tell the
      cancelled ones, as `Worker.Collect` does. */
  lemma {:induction false} BatchBuiltTogether(c: Config, s: State, batch: seq<nat>, k: nat, exiting: bool)
    requires k <= |batch| && JobsIn(s.jobs, batch) && Distinct(batch) && s.pc == Building(batch, [], exiting)
    ensures var s' := RunFrom(c, s, Builds(k));
            && s'.pc == Building(batch[k..], Live(s.jobs, batch[..k]), exiting)
            && CancelledTold(s.jobs, s'.jobs, batch[..k]) && s'.log == s.log
  {
    if k == 0 {
      assert batch[0..] == batch && batch[..0] == [];
    } else {
      BatchBuiltTogether(c, s, batch, k - 1, exiting);
      assert Builds(k)[..k - 1] == Builds(k - 1);
      BuildOne(c, s.jobs, RunFrom(c, s, Builds(k - 1)), batch, k - 1, exiting);
    }
  }

  // ---------------------------------------------------------------------------
  // The machine's XADDs, with nothing in between, are the method's
  // ---------------------------------------------------------------------------

  function Xadds(cmds: seq<Cmd>): seq<Step> {
    seq(|cmds|, i requires 0 <= i < |cmds| => WorkerXadd(cmds[i]))
  }

  function Pair(js: seq<nat>, rs: seq<Result>): seq<(nat, Result)>
    requires |js| == |rs|
  {
    seq(|js|, i requires 0 <= i < |js| => (js[i], rs[i]))
  }

  /** The machine after the first `k` XADDs of a batch. */
  function SentState(s: State, built: seq<nat>, cmds: seq<Cmd>, k: nat, exiting: bool): State
    requires k <= |built| == |cmds| && JobsIn(s.jobs, built)
  {
    s.(log := s.log + NewEntries(s.jobs, built[..k], cmds[..k]),
       issued := s.issued + built[..k],
       pc := Sending(built[k..], Pair(built[..k], Replies(s.jobs, |s.log|, built[..k], cmds[..k])), exiting))
  }

  lemma SentNext(c: Config, s: State, built: seq<nat>, cmds: seq<Cmd>, k: nat, exiting: bool)
    requires k < |built| == |cmds| && JobsIn(s.jobs, built)
    ensures Apply(c, SentState(s, built, cmds, k, exiting), WorkerXadd(cmds[k]))
            == SentState(s, built, cmds, k + 1, exiting)
  {
    var s1, s2 := SentState(s, built, cmds, k, exiting), SentState(s, built, cmds, k + 1, exiting);
    assert built[..k + 1][..k] == built[..k] && cmds[..k + 1][..k] == cmds[..k];
    var s' := SendXadd(s1, cmds[k]);
    assert s'.log == s2.log;
    assert s'.issued == s2.issued;
    assert s'.pc.unsent == s2.pc.unsent;
    assert s'.pc.replies == s2.pc.replies;
  }

  /** Run without interruption, the XADDs of a batch and Exec give the log, the jobs issued and
      the answers of `Worker.FlushBatch`. */
  lemma {:induction false} BatchSentTogether(
    c: Config, s: State, built: seq<nat>, cmds: seq<Cmd>, k: nat, exiting: bool)
    requires k <= |built| == |cmds| && JobsIn(s.jobs, built) && s.pc == Sending(built, [], exiting)
    ensures RunFrom(c, s, Xadds(cmds[..k])) == SentState(s, built, cmds, k, exiting)
  {
    if k == 0 {
      assert s.log + [] == s.log && s.issued + [] == s.issued;
      assert s == SentState(s, built, cmds, 0, exiting);
    } else {
      BatchSentTogether(c, s, built, cmds, k - 1, exiting);
      assert Xadds(cmds[..k])[..k - 1] == Xadds(cmds[..k - 1]);
      SentNext(c, s, built, cmds, k - 1, exiting);
    }
  }

  lemma ToldAreBatchResults(built: seq<nat>, replies: seq<Result>, failed: bool)
    requires |replies| == |built|
    ensures BatchResults(Pair(built, replies), failed) == Pair(built, Told(replies, failed))
  {
  }

  /** Every job of a flushed batch has one result more, the cancelled ones an error and the live
      ones their own. */
  ghost predicate AllTold(was: seq<Job>, jobs: seq<Job>, batch: seq<nat>, base: nat, cmds: seq<Cmd>, failed: bool)
    requires JobsIn(was, batch) && |cmds| == |Live(was, batch)| && |jobs| == |was|
  {
    var live := Live(was, batch);
    var told := Told(Replies(was, base, live, cmds), failed);
    && (forall j :: 0 <= j < |was| && j in batch && was[j].ctxDone ==> jobs[j] == Answer(was[j], Err))
    && (forall i :: 0 <= i < |live| ==> jobs[live[i]] == Answer(was[live[i]], told[i]))
  }

  /** The worker goroutine's variables with the jobs and the log it acts on. */
  class Worker {
    const c: Config
    var jobs: seq<Job>
    var log: seq<Entry>
    var queue: seq<nat>
    var buffer: seq<nat>
    var bufferBytes: int

    ghost predicate Valid()
      reads this
    {
      && JobsIn(jobs, buffer) && JobsIn(jobs, queue)
      && Distinct(buffer + queue)
      && bufferBytes == SumBytes(jobs, buffer)
      && forall j :: 0 <= j < |jobs| ==> jobs[j].bytes >= 128
    }

    /** Below both limits, hence at most `maxBytes / 128` jobs; empty without a flush interval. */
    ghost predicate AtLoopHead()
      reads this
    {
      && (c.flushInterval == 0 ==> buffer == [])
      && |buffer| < c.maxBatch && bufferBytes < c.maxBytes && 128 * |buffer| < c.maxBytes
    }

    constructor (c: Config)
      ensures Valid() && this.c == c && jobs == [] && log == [] && queue == [] && buffer == []
    {
      this.c := c;
      jobs, log, queue, buffer, bufferBytes := [], [], [], [], 0;
    }

    /** One receive from the queue. */
    method Buffer()
      requires Valid() && queue != []
      modifies this`queue, this`buffer, this`bufferBytes
      ensures Valid()
      ensures queue == old(queue)[1..] && buffer == old(buffer) + [old(queue)[0]]
    {
      var job := queue[0];
      SumBytesSnoc(jobs, buffer, job);
      assert buffer + [job] + queue[1..] == buffer + queue;
      queue := queue[1..];
      buffer := buffer + [job];
      bufferBytes := bufferBytes + jobs[job].bytes;
    }

    /** `drain`. */
    method Drain()
      requires Valid()
      modifies this`queue, this`buffer, this`bufferBytes
      ensures Valid()
      ensures queue == [] && buffer == old(buffer) + old(queue)
    {
      while queue != []
        invariant Valid() && buffer + queue == old(buffer) + old(queue)
        decreases |queue|
      {
        Buffer();
      }
      assert buffer + [] == buffer;
    }

    /** Redis executing the pipelined XADDs: each that takes effect appends its entry. */
    method Exec(built: seq<nat>, cmds: seq<Cmd>) returns (replies: seq<Result>)
      requires |cmds| == |built| && JobsIn(jobs, built)
      modifies this`log
      ensures log == old(log) + NewEntries(jobs, built, cmds)
      ensures replies == Replies(jobs, |old(log)|, built, cmds)
    {
      replies := [];
      for i := 0 to |built|
        invariant log == old(log) + NewEntries(jobs, built[..i], cmds[..i])
        invariant replies == Replies(jobs, |old(log)|, built[..i], cmds[..i])
      {
        assert built[..i + 1][..i] == built[..i] && cmds[..i + 1][..i] == cmds[..i];
        replies := replies + [if cmds[i].Applied? then Ok(|log|) else Err];
        if !cmds[i].NotApplied? {
          log := log + [Entry(jobs[built[i]].req, Pipeline.Worker(built[i]))];
        }
      }
      assert built[..|built|] == built && cmds[..|cmds|] == cmds;
    }

    /** The first loop of `flushBatch`: cancelled jobs are answered, the others collected. */
    method Collect(batch: seq<nat>) returns (live: seq<nat>)
      requires JobsIn(jobs, batch) && Distinct(batch)
      modifies this`jobs
      ensures |jobs| == |old(jobs)| && live == Live(old(jobs), batch)
      ensures CancelledTold(old(jobs), jobs, batch)
    {
      live := [];
      for i := 0 to |batch|
        invariant CancelledTold(old(jobs), jobs, batch[..i]) && live == Live(old(jobs), batch[..i])
      {
        var job := batch[i];
        NotTold(old(jobs), jobs, batch, i);
        LiveSnoc(old(jobs), batch, i);
        ghost var now := jobs;
        if jobs[job].ctxDone {
          jobs := jobs[job := Answer(jobs[job], Err)];
        } else {
          live := live + [job];
        }
        ToldSnoc(old(jobs), now, jobs, batch, i);
      }
      assert batch[..|batch|] == batch;
    }

    /** The last loops of `flushBatch`: every live job is answered once. */
    method Reply(live: seq<nat>, replies: seq<Result>, failed: bool)
      requires JobsIn(jobs, live) && Distinct(live) && |replies| == |live|
      modifies this`jobs
      ensures AnsweredBy(old(jobs), jobs, live, Told(replies, failed), |live|)
    {
      ghost var told := Told(replies, failed);
      if failed {
        for idx := 0 to |live|
          invariant AnsweredBy(old(jobs), jobs, live, told, idx)
        {
          AnswerNext(old(jobs), jobs, live, told, idx);
          jobs := jobs[live[idx] := Answer(jobs[live[idx]], Err)];
        }
        return;
      }
      for idx := 0 to |live|
        invariant AnsweredBy(old(jobs), jobs, live, told, idx)
      {
        AnswerNext(old(jobs), jobs, live, told, idx);
        jobs := jobs[live[idx] := Answer(jobs[live[idx]], replies[idx])];
      }
    }

    /** `flushBatch`: every job of the batch gets exactly one result, the cancelled ones an
        error and the others their own command's, and nobody else gets any; the log grows by
        the entries of the live jobs in batch order. */
    method FlushBatch(batch: seq<nat>, failed: bool, cmds: seq<Cmd>)
      requires JobsIn(jobs, batch) && Distinct(batch) && |cmds| == |Live(jobs, batch)|
      modifies this`jobs, this`log
      ensures |jobs| == |old(jobs)|
      ensures log == old(log) + NewEntries(old(jobs), Live(old(jobs), batch), cmds)
      ensures forall j :: 0 <= j < |jobs| && j !in batch ==> jobs[j] == old(jobs)[j]
      ensures forall j :: 0 <= j < |jobs| && j in batch && old(jobs)[j].ctxDone ==> jobs[j] == Answer(old(jobs)[j], Err)
      ensures var live := Live(old(jobs), batch);
              var told := Told(Replies(old(jobs), |old(log)|, live, cmds), failed);
              forall i :: 0 <= i < |live| ==> jobs[live[i]] == Answer(old(jobs)[live[i]], told[i])
    {
      if |batch| == 0 {
        assert log + [] == log;
        return;
      }
      LiveDistinct(jobs, batch);
      var live := Collect(batch);
      if |live| == 0 {
        assert log + [] == log;
        return;
      }
      SameRequests(old(jobs), jobs, |log|, live, cmds);
      var replies := Exec(live, cmds);
      Reply(live, replies, failed);
    }

    /** `flush`. */
    method Flush(failed: bool, cmds: seq<Cmd>)
      requires Valid() && |cmds| == |Live(jobs, buffer)|
      modifies this`jobs, this`log, this`buffer, this`bufferBytes
      ensures Valid() && buffer == [] && bufferBytes == 0
      ensures |jobs| == |old(jobs)|
      ensures log == old(log) + NewEntries(old(jobs), Live(old(jobs), old(buffer)), cmds)
      ensures forall j :: 0 <= j < |jobs| && j !in old(buffer) ==> jobs[j] == old(jobs)[j]
      ensures forall j :: 0 <= j < |jobs| && j in old(buffer) && old(jobs)[j].ctxDone ==>
                jobs[j] == Answer(old(jobs)[j], Err)
      ensures var live := Live(old(jobs), old(buffer));
              var told := Told(Replies(old(jobs), |old(log)|, live, cmds), failed);
              forall i :: 0 <= i < |live| ==> jobs[live[i]] == Answer(old(jobs)[live[i]], told[i])
    {
      if |buffer| == 0 {
        assert log + [] == log;
        return;
      }
      var batch := buffer;
      assert Distinct(batch) by {
        assert forall i :: 0 <= i < |batch| ==> batch[i] == (buffer + queue)[i];
      }
      assert Distinct(queue) by {
        assert forall i :: 0 <= i < |queue| ==> queue[i] == (buffer + queue)[|buffer| + i];
      }
      buffer := [];
      bufferBytes := 0;
      assert buffer + queue == queue;
      FlushBatch(batch, failed, cmds);
      SameBytes(old(jobs), jobs, batch, Told(Replies(old(jobs), |old(log)|, Live(old(jobs), batch), cmds), failed));
    }

    method TakeAll()
      requires Valid() && queue != []
      modifies this`queue, this`buffer, this`bufferBytes
      ensures Valid() && queue == [] && buffer == old(buffer + queue) && buffer != []
    {
      Buffer();
      Drain();
      assert buffer == old(buffer + queue);
    }

    /** The queue case of the worker's select: one job, whatever else is queued, and a flush
        when it is due, which brings the worker back to its loop head. */
    method OnJob(failed: bool, cmds: seq<Cmd>)
      requires Valid() && ValidConfig(c) && queue != [] && |cmds| == |Live(jobs, buffer + queue)|
      modifies this`jobs, this`log, this`queue, this`buffer, this`bufferBytes
      ensures Valid() && queue == [] && AtLoopHead()
      ensures if buffer == [] then log == old(log) + NewEntries(old(jobs), Live(old(jobs), old(buffer + queue)), cmds)
              else buffer == old(buffer + queue) && log == old(log) && jobs == old(jobs)
      ensures buffer == [] ==>
                |jobs| == |old(jobs)| && AllTold(old(jobs), jobs, old(buffer + queue), |old(log)|, cmds, failed)
    {
      TakeAll();
      if c.flushInterval == 0 || |buffer| >= c.maxBatch || bufferBytes >= c.maxBytes {
        Flush(failed, cmds);
      } else {
        BytesCoverJobs();
      }
    }

    lemma BytesCoverJobs()
      requires Valid()
      ensures bufferBytes >= 128 * |buffer|
    {
      SumBytesLower(jobs, buffer);
    }
  }

  /** Answering changes neither requests nor sizes. */
  lemma {:induction false} SameRequests(was: seq<Job>, jobs: seq<Job>, base: nat, built: seq<nat>, cmds: seq<Cmd>)
    requires |cmds| == |built| && JobsIn(was, built) && |jobs| == |was|
    requires forall j :: 0 <= j < |was| ==> jobs[j].req == was[j].req
    ensures NewEntries(was, built, cmds) == NewEntries(jobs, built, cmds)
    ensures Replies(was, base, built, cmds) == Replies(jobs, base, built, cmds)
  {
    if built != [] {
      var n := |built| - 1;
      SameRequests(was, jobs, base, built[..n], cmds[..n]);
    }
  }

  lemma SameBytes(was: seq<Job>, jobs: seq<Job>, batch: seq<nat>, told: seq<Result>)
    requires JobsIn(was, batch) && |jobs| == |was| && |told| == |Live(was, batch)|
    requires forall j :: 0 <= j < |jobs| && j !in batch ==> jobs[j] == was[j]
    requires forall j :: 0 <= j < |jobs| && j in batch && was[j].ctxDone ==> jobs[j] == Answer(was[j], Err)
    requires forall i :: 0 <= i < |told| ==> jobs[Live(was, batch)[i]] == Answer(was[Live(was, batch)[i]], told[i])
    ensures forall j :: 0 <= j < |jobs| ==> jobs[j].bytes == was[j].bytes
  {
    var live := Live(was, batch);
    forall j | 0 <= j < |jobs| && j in batch && !was[j].ctxDone
      ensures jobs[j].bytes == was[j].bytes
    {
      assert j in live;
      var i :| 0 <= i < |live| && live[i] == j;
      assert jobs[live[i]] == Answer(was[live[i]], told[i]);
    }
  }
}
