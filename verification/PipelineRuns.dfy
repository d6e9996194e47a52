/**
 Runs of the publish pipeline: what holds in every reachable state of every interleaving of
 callers, worker, cancellations, stop and arbitrary Redis failures. Main results: one result
 per job and it is the job's own, XADDs in queue order minus cancelled jobs, a safe fallback,
 and the worker's loop invariant.
 */
module PipelineRuns {
  import opened Common
  import opened Pipeline

  // ---------------------------------------------------------------------------
  // Vocabulary
  // ---------------------------------------------------------------------------

  ghost predicate Distinct(xs: seq<nat>) {
    forall i, k :: 0 <= i < k < |xs| ==> xs[i] != xs[k]
  }

  /** The elements not in `skip`, in order. */
  function Keep(xs: seq<nat>, skip: set<nat>): seq<nat> {
    if xs == [] then []
    else
      var n := |xs| - 1;
      Keep(xs[..n], skip) + (if xs[n] in skip then [] else [xs[n]])
  }

  function Todo(pc: Pc): seq<nat> {
    if pc.Building? then pc.todo else []
  }

  /** Jobs of the current batch whose XADD has not gone out. */
  function Built(pc: Pc): seq<nat> {
    if pc.Building? then pc.built else if pc.Sending? then pc.unsent else []
  }

  /** Results not delivered yet. */
  function Pending(pc: Pc): seq<(nat, Result)> {
    if pc.Delivering? then pc.results else if pc.Sending? then pc.replies else []
  }

  function SumBytes(jobs: seq<Job>, js: seq<nat>): int
    requires forall i :: 0 <= i < |js| ==> js[i] < |jobs|
  {
    if js == [] then 0 else SumBytes(jobs, js[..|js| - 1]) + jobs[js[|js| - 1]].bytes
  }

  /** A success carries the position of the job's own XADD. */
  ghost predicate Truthful(log: seq<Entry>, j: nat, req: Request, r: Result) {
    r.Ok? ==> r.id < |log| && log[r.id] == Entry(req, Worker(j))
  }

  /** Delivered jobs: those answered as cancelled and those whose result is out. */
  ghost predicate Answered(s: State, j: nat)
    requires |Pending(s.pc)| <= |s.issued|
  {
    j in s.skipped || j in s.issued[..|s.issued| - |Pending(s.pc)|]
  }

  ghost predicate JobGood(job: Job, log: seq<Entry>, j: nat, taken: bool, queued: bool, exited: bool, answered: bool) {
    && job.bytes >= 128
    && job.sent == (if answered then 1 else 0)
    && |job.slot| <= job.sent
    && (answered ==> taken)
    && (job.slot != [] ==> Truthful(log, j, job.req, job.slot[0]))
    && match job.phase
       case Created => !taken && !queued
       case Waiting => (taken || queued) && |job.slot| == job.sent
       case Returned(FromWorker(r)) => answered && job.slot == [] && Truthful(log, j, job.req, r)
       case Returned(Cancelled) => true
       case Returned(QueueFull) => !taken && !queued
       case Returned(Stopped) => !taken && (queued ==> exited)
  }

  // ---------------------------------------------------------------------------
  // The invariant
  // ---------------------------------------------------------------------------

  /** Where jobs are: dequeued in queue order, examined in that order, issued in that order
      minus the skipped ones, with undelivered results being the last issued. */
  ghost predicate Shape(s: State) {
    && Distinct(s.taken + s.queue)
    && InRange(s, s.taken) && InRange(s, s.queue)
    && s.taken == s.examined + Todo(s.pc) + s.buffer
    && s.issued + Built(s.pc) == Keep(s.examined, s.skipped)
    && (forall j :: j in s.skipped ==> j in s.examined)
    && |Pending(s.pc)| <= |s.issued|
    && (forall i :: 0 <= i < |Pending(s.pc)| ==> s.issued[|s.issued| - |Pending(s.pc)| + i] == Pending(s.pc)[i].0)
    && (s.pc.Building? || s.pc.Sending? || s.pc.Delivering? || s.pc.Exited? ==> s.buffer == [])
  }

  ghost predicate LogGood(s: State) {
    && (forall i :: 0 <= i < |s.log| && s.log[i].source.Worker? ==>
          && s.log[i].source.job in s.issued
          && s.log[i].source.job < |s.jobs|
          && s.log[i].req == s.jobs[s.log[i].source.job].req)
    && (forall i, k :: 0 <= i < k < |s.log| && s.log[i].source.Worker? ==> s.log[i].source != s.log[k].source)
  }

  ghost predicate JobsGood(s: State)
    requires Shape(s)
  {
    forall j :: 0 <= j < |s.jobs| ==>
      JobGood(s.jobs[j], s.log, j, j in s.taken, j in s.queue, s.pc.Exited?, Answered(s, j))
  }

  ghost predicate PendingGood(s: State) {
    forall i :: 0 <= i < |Pending(s.pc)| ==>
      && Pending(s.pc)[i].0 < |s.jobs|
      && Truthful(s.log, Pending(s.pc)[i].0, s.jobs[Pending(s.pc)[i].0].req, Pending(s.pc)[i].1)
  }

  /** The worker's loop invariant. */
  ghost predicate BufferGood(c: Config, s: State) {
    && InRange(s, s.buffer)
    && s.bufferBytes == SumBytes(s.jobs, s.buffer)
    && (s.pc.Select? ==>
          if c.flushInterval == 0 then s.buffer == []
          else |s.buffer| < c.maxBatch && s.bufferBytes < c.maxBytes)
  }

  ghost predicate Inv(c: Config, s: State) {
    Shape(s) && LogGood(s) && JobsGood(s) && PendingGood(s) && BufferGood(c, s)
  }

  // ---------------------------------------------------------------------------
  // Sequences
  // ---------------------------------------------------------------------------

  lemma KeepSnoc(xs: seq<nat>, x: nat, skip: set<nat>)
    ensures Keep(xs + [x], skip) == Keep(xs, skip) + (if x in skip then [] else [x])
  {
    assert (xs + [x])[..|xs|] == xs;
  }

  lemma {:induction false} KeepMembers(xs: seq<nat>, skip: set<nat>)
    ensures forall x :: x in Keep(xs, skip) <==> x in xs && x !in skip
  {
    if xs != [] {
      KeepMembers(xs[..|xs| - 1], skip);
      assert xs == xs[..|xs| - 1] + [xs[|xs| - 1]];
    }
  }

  lemma {:induction false} KeepDistinct(xs: seq<nat>, skip: set<nat>)
    requires Distinct(xs)
    ensures Distinct(Keep(xs, skip))
  {
    if xs != [] {
      var init := xs[..|xs| - 1];
      KeepDistinct(init, skip);
      KeepMembers(init, skip);
      assert xs[|xs| - 1] !in init;
    }
  }

  lemma {:induction false} KeepAvoids(xs: seq<nat>, skip: set<nat>, x: nat)
    requires x !in xs
    ensures Keep(xs, skip + {x}) == Keep(xs, skip)
  {
    if xs != [] {
      assert xs[|xs| - 1] in xs;
      KeepAvoids(xs[..|xs| - 1], skip, x);
    }
  }

  lemma SumBytesFrame(jobs: seq<Job>, jobs': seq<Job>, js: seq<nat>)
    requires forall i :: 0 <= i < |js| ==> js[i] < |jobs| && js[i] < |jobs'| && jobs[js[i]].bytes == jobs'[js[i]].bytes
    ensures SumBytes(jobs, js) == SumBytes(jobs', js)
  {
  }

  lemma SumBytesSnoc(jobs: seq<Job>, js: seq<nat>, j: nat)
    requires (forall i :: 0 <= i < |js| ==> js[i] < |jobs|) && j < |jobs|
    ensures SumBytes(jobs, js + [j]) == SumBytes(jobs, js) + jobs[j].bytes
  {
    assert (js + [j])[..|js|] == js;
  }

  // ---------------------------------------------------------------------------
  // Steps of callers
  // ---------------------------------------------------------------------------

  /** A step that changes one job's channel or phase and nothing the worker owns. */
  lemma JobStepKeeps(c: Config, s: State, s': State, j: nat, job: Job)
    requires Inv(c, s) && j < |s.jobs|
    requires s' == s.(jobs := s.jobs[j := job])
    requires job.req == s.jobs[j].req && job.bytes == s.jobs[j].bytes
    requires JobGood(job, s.log, j, j in s.taken, j in s.queue, s.pc.Exited?, Answered(s, j))
    ensures Inv(c, s')
  {
    SumBytesFrame(s.jobs, s'.jobs, s.buffer);
    assert forall i :: Answered(s', i) == Answered(s, i);
  }

  lemma CreateKeeps(c: Config, s: State, req: Request, caller: Caller)
    requires Inv(c, s)
    ensures Inv(c, Apply(c, s, Create(req, caller)))
  {
    var s' := Apply(c, s, Create(req, caller));
    var n := |s.jobs|;
    SumBytesFrame(s.jobs, s'.jobs, s.buffer);
    assert n !in s.taken && n !in s.queue;
    assert n !in s.skipped && n !in s.issued by {
      KeepMembers(s.examined, s.skipped);
      assert forall x :: x in s.examined ==> x in s.taken;
      assert forall x :: x in s.issued ==> x in s.issued + Built(s.pc);
    }
    forall j | 0 <= j < |s'.jobs|
      ensures JobGood(s'.jobs[j], s'.log, j, j in s'.taken, j in s'.queue, s'.pc.Exited?, Answered(s', j))
    {
      if j < n {
        assert JobGood(s.jobs[j], s.log, j, j in s.taken, j in s.queue, s.pc.Exited?, Answered(s, j));
      }
    }
  }

  lemma EnterQueueKeeps(c: Config, s: State, j: nat)
    requires Inv(c, s) && j < |s.jobs| && s.jobs[j].phase.Created?
    ensures Inv(c, SetPhase(s, j, Waiting).(queue := s.queue + [j]))
  {
    var s' := SetPhase(s, j, Waiting).(queue := s.queue + [j]);
    SumBytesFrame(s.jobs, s'.jobs, s.buffer);
    assert j !in s.taken + s.queue;
    assert s'.taken + s'.queue == (s.taken + s.queue) + [j];
    forall i | 0 <= i < |s'.jobs|
      ensures JobGood(s'.jobs[i], s'.log, i, i in s'.taken, i in s'.queue, s'.pc.Exited?, Answered(s', i))
    {
      assert JobGood(s.jobs[i], s.log, i, i in s.taken, i in s.queue, s.pc.Exited?, Answered(s, i));
      assert Answered(s', i) == Answered(s, i);
    }
  }

  lemma EnqueueKeeps(c: Config, s: State, j: nat, choice: Choice)
    requires Inv(c, s) && j < |s.jobs| && s.jobs[j].phase.Created?
    ensures Inv(c, Enqueue(c, s, j, choice))
  {
    var s' := Enqueue(c, s, j, choice);
    if choice.Proceed? && |s.queue| < c.queueSize {
      EnterQueueKeeps(c, s, j);
    } else if s' != s {
      JobStepKeeps(c, s, s', j, s'.jobs[j]);
    }
  }

  lemma AwaitKeeps(c: Config, s: State, j: nat, choice: Choice)
    requires Inv(c, s) && j < |s.jobs| && s.jobs[j].phase.Waiting?
    ensures Inv(c, AwaitResult(s, j, choice))
  {
    var s' := AwaitResult(s, j, choice);
    if s' != s {
      if choice.SeeDone? && j in s.taken {
        ExitedAnswersAll(s, j);
      }
      JobStepKeeps(c, s, s', j, s'.jobs[j]);
    }
  }

  /** Every result is delivered before the worker exits: a job it dequeued is answered. */
  lemma ExitedAnswersAll(s: State, j: nat)
    requires Shape(s) && s.pc.Exited? && j in s.taken
    ensures Answered(s, j)
  {
    KeepMembers(s.examined, s.skipped);
    assert s.taken == s.examined + [] + [];
    assert s.issued + [] == s.issued == s.issued[..|s.issued|];
  }

  // ---------------------------------------------------------------------------
  // Steps of the worker
  // ---------------------------------------------------------------------------

  lemma TakeShape(s: State, exiting: bool)
    requires Shape(s) && (s.pc.Select? || s.pc.Draining?) && s.queue != []
    ensures Shape(TakeJob(s, exiting))
    ensures TakeJob(s, exiting).taken + TakeJob(s, exiting).queue == s.taken + s.queue
  {
    var s' := TakeJob(s, exiting);
    assert s.queue == [s.queue[0]] + s'.queue;
    assert s'.taken + s'.queue == s.taken + s.queue;
    assert s'.taken == s.examined + [] + s'.buffer;
  }

  lemma TakeBuffer(c: Config, s: State, exiting: bool)
    requires InRange(s, s.queue) && s.queue != [] && BufferGood(c, s)
    ensures BufferGood(c, TakeJob(s, exiting))
  {
    SumBytesSnoc(s.jobs, s.buffer, s.queue[0]);
  }

  lemma TakeJobs(s: State, exiting: bool)
    requires Shape(s) && JobsGood(s) && (s.pc.Select? || s.pc.Draining?) && s.queue != []
    requires Shape(TakeJob(s, exiting))
    ensures JobsGood(TakeJob(s, exiting))
  {
    var s' := TakeJob(s, exiting);
    var j := s.queue[0];
    assert s.queue == [j] + s'.queue;
    forall i | 0 <= i < |s'.jobs|
      ensures JobGood(s'.jobs[i], s'.log, i, i in s'.taken, i in s'.queue, s'.pc.Exited?, Answered(s', i))
    {
      TakeJobGood(s, s', j, i);
    }
  }

  lemma TakeKeeps(c: Config, s: State, exiting: bool)
    requires Inv(c, s) && (s.pc.Select? || s.pc.Draining?) && s.queue != []
    ensures Inv(c, TakeJob(s, exiting))
  {
    TakeShape(s, exiting);
    TakeBuffer(c, s, exiting);
    TakeJobs(s, exiting);
  }

  lemma TakeJobGood(s: State, s': State, j: nat, i: nat)
    requires Shape(s) && Shape(s') && i < |s.jobs|
    requires JobGood(s.jobs[i], s.log, i, i in s.taken, i in s.queue, s.pc.Exited?, Answered(s, i))
    requires s'.jobs == s.jobs && s'.log == s.log && s'.issued == s.issued && s'.skipped == s.skipped
    requires Pending(s.pc) == Pending(s'.pc) == [] && !s.pc.Exited? && !s'.pc.Exited?
    requires s.queue == [j] + s'.queue && s'.taken == s.taken + [j]
    ensures JobGood(s'.jobs[i], s'.log, i, i in s'.taken, i in s'.queue, s'.pc.Exited?, Answered(s', i))
  {
    assert Answered(s', i) == Answered(s, i);
    assert (i in s.queue) == (i == j || i in s'.queue);
    assert (i in s'.taken) == (i == j || i in s.taken);
  }

  /** A step that only moves the worker between loop head, drain, batch and exit. */
  lemma MoveKeeps(c: Config, s: State, s': State)
    requires Inv(c, s)
    requires s' == s.(pc := s'.pc, buffer := s'.buffer, bufferBytes := s'.bufferBytes)
    requires Pending(s.pc) == Pending(s'.pc) == [] && Built(s.pc) == Built(s'.pc)
    requires Todo(s.pc) + s.buffer == Todo(s'.pc) + s'.buffer
    requires s'.pc.Building? || s'.pc.Sending? || s'.pc.Delivering? || s'.pc.Exited? ==> s'.buffer == []
    requires s.pc.Exited? ==> s'.pc.Exited?
    requires BufferGood(c, s')
    ensures Inv(c, s')
  {
    assert s'.taken == s'.examined + Todo(s'.pc) + s'.buffer by {
      Regroup(s.examined, Todo(s.pc), s.buffer);
      Regroup(s'.examined, Todo(s'.pc), s'.buffer);
    }
    forall i | 0 <= i < |s'.jobs|
      ensures JobGood(s'.jobs[i], s'.log, i, i in s'.taken, i in s'.queue, s'.pc.Exited?, Answered(s', i))
    {
      assert JobGood(s.jobs[i], s.log, i, i in s.taken, i in s.queue, s.pc.Exited?, Answered(s, i));
      assert Answered(s', i) == Answered(s, i);
    }
  }

  lemma StartFlushKeeps(c: Config, s: State, exiting: bool)
    requires ValidConfig(c) && Inv(c, s) && (s.pc.Select? || s.pc.Draining?)
    ensures Inv(c, StartFlush(s, exiting))
  {
    var s' := StartFlush(s, exiting);
    assert s.buffer + [] == [] + s.buffer;
    MoveKeeps(c, s, s');
  }

  /** The next job to examine is new to the histories. */
  lemma NextIsNew(s: State)
    requires Shape(s) && s.pc.Building? && s.pc.todo != []
    ensures InRange(s, s.pc.todo)
    ensures s.pc.todo[0] in s.taken && s.pc.todo[0] !in s.examined && !Answered(s, s.pc.todo[0])
  {
    var j := s.pc.todo[0];
    assert forall i :: 0 <= i < |s.pc.todo| ==> s.pc.todo[i] == s.taken[|s.examined| + i];
    assert j !in s.examined by {
      forall i | 0 <= i < |s.examined| ensures s.examined[i] != j {
        var all := s.taken + s.queue;
        assert all[i] == s.examined[i] && all[|s.examined|] == j;
      }
    }
    KeepMembers(s.examined, s.skipped);
    assert forall x :: x in s.issued ==> x in s.issued + s.pc.built;
  }

  lemma BuildShape(s: State)
    requires Shape(s) && s.pc.Building? && s.pc.todo != [] && InRange(s, s.pc.todo)
    ensures Shape(BuildNext(s))
  {
    var j := s.pc.todo[0];
    NextIsNew(s);
    NextExamined(s.examined, s.pc.todo, s.buffer);
    if s.jobs[j].ctxDone {
      KeepAvoids(s.examined, s.skipped, j);
      KeepSnoc(s.examined, j, s.skipped + {j});
    } else {
      KeepSnoc(s.examined, j, s.skipped);
      Regroup(s.issued, s.pc.built, [j]);
    }
  }

  lemma Regroup(a: seq<nat>, b: seq<nat>, c: seq<nat>)
    ensures a + b + c == a + (b + c)
  {
  }

  lemma NextExamined(examined: seq<nat>, todo: seq<nat>, buffer: seq<nat>)
    requires todo != []
    ensures examined + todo + buffer == examined + [todo[0]] + todo[1..] + buffer
  {
    assert todo == [todo[0]] + todo[1..];
    Regroup(examined, [todo[0]], todo[1..]);
  }

  lemma BuildJob(s: State, s': State, i: nat)
    requires Shape(s) && s.pc.Building? && s.pc.todo != [] && InRange(s, s.pc.todo)
    requires s' == BuildNext(s) && Shape(s') && i < |s.jobs| && !Answered(s, s.pc.todo[0]) && s.pc.todo[0] in s.taken
    requires JobGood(s.jobs[i], s.log, i, i in s.taken, i in s.queue, s.pc.Exited?, Answered(s, i))
    ensures JobGood(s'.jobs[i], s'.log, i, i in s'.taken, i in s'.queue, s'.pc.Exited?, Answered(s', i))
  {
    var j := s.pc.todo[0];
    assert Answered(s', i) == (Answered(s, i) || (i == j && s.jobs[j].ctxDone));
  }

  lemma BuildJobs(s: State)
    requires Shape(s) && JobsGood(s) && s.pc.Building? && s.pc.todo != [] && InRange(s, s.pc.todo)
    requires Shape(BuildNext(s))
    ensures JobsGood(BuildNext(s))
  {
    NextIsNew(s);
    var s' := BuildNext(s);
    forall i | 0 <= i < |s'.jobs|
      ensures JobGood(s'.jobs[i], s'.log, i, i in s'.taken, i in s'.queue, s'.pc.Exited?, Answered(s', i))
    {
      BuildJob(s, s', i);
    }
  }

  lemma BuildKeeps(c: Config, s: State)
    requires Inv(c, s) && s.pc.Building? && s.pc.todo != []
    ensures InRange(s, s.pc.todo) && Inv(c, BuildNext(s))
  {
    NextIsNew(s);
    BuildShape(s);
    BuildJobs(s);
  }

  lemma IssuedDistinct(s: State)
    requires Shape(s)
    ensures Distinct(s.issued + Built(s.pc))
    ensures forall j :: j in s.issued + Built(s.pc) <==> j in s.examined && j !in s.skipped
    ensures forall j :: j in s.examined ==> j in s.taken
  {
    KeepMembers(s.examined, s.skipped);
    assert Distinct(s.examined) by {
      assert forall i :: 0 <= i < |s.examined| ==> s.examined[i] == (s.taken + s.queue)[i];
    }
    KeepDistinct(s.examined, s.skipped);
  }

  /** The job whose XADD goes out next was not issued before. */
  lemma UnsentIsNew(s: State)
    requires Shape(s) && s.pc.Sending?
    ensures InRange(s, s.pc.unsent) && Distinct(s.pc.unsent)
    ensures forall j :: j in s.pc.unsent ==> j !in s.issued && j !in s.skipped
  {
    var all := s.issued + s.pc.unsent;
    IssuedDistinct(s);
    assert forall i :: 0 <= i < |s.pc.unsent| ==> s.pc.unsent[i] == all[|s.issued| + i];
    assert forall i :: 0 <= i < |s.issued| ==> s.issued[i] == all[i];
    forall i | 0 <= i < |s.pc.unsent|
      ensures s.pc.unsent[i] < |s.jobs|
    {
      assert s.pc.unsent[i] in all;
      assert s.pc.unsent[i] in s.examined && s.pc.unsent[i] in s.taken;
    }
  }

  /** What one XADD changes: a job moves from unsent to issued and its reply is kept. */
  ghost predicate XaddMoves(s: State, s': State, last: (nat, Result)) {
    && s.pc.Sending? && s'.pc.Sending? && s.pc.unsent != [] && last.0 == s.pc.unsent[0]
    && s'.jobs == s.jobs && s'.queue == s.queue && s'.buffer == s.buffer
    && s'.taken == s.taken && s'.examined == s.examined && s'.skipped == s.skipped
    && s'.issued == s.issued + [last.0]
    && s'.pc.unsent == s.pc.unsent[1..] && s'.pc.replies == s.pc.replies + [last]
  }

  lemma XaddShape(s: State, s': State, last: (nat, Result))
    requires Shape(s) && XaddMoves(s, s', last)
    ensures Shape(s')
  {
    PendingGrows(s.issued, s.pc.replies, last.0, last);
    HeadMoves(s.issued, s.pc.unsent);
  }

  lemma XaddAnswers(s: State, s': State, last: (nat, Result))
    requires Shape(s) && XaddMoves(s, s', last) && Shape(s')
    ensures forall i :: Answered(s', i) == Answered(s, i)
  {
    PendingGrows(s.issued, s.pc.replies, last.0, last);
  }

  lemma HeadMoves(a: seq<nat>, b: seq<nat>)
    requires b != []
    ensures a + [b[0]] + b[1..] == a + b
  {
    assert b == [b[0]] + b[1..];
  }

  /** Undelivered results stay the last issued jobs when one more joins both. */
  lemma PendingGrows(issued: seq<nat>, replies: seq<(nat, Result)>, j: nat, last: (nat, Result))
    requires |replies| <= |issued| && last.0 == j
    requires forall i :: 0 <= i < |replies| ==> issued[|issued| - |replies| + i] == replies[i].0
    ensures var issued', replies' := issued + [j], replies + [last];
            && (forall i :: 0 <= i < |replies'| ==> issued'[|issued'| - |replies'| + i] == replies'[i].0)
            && issued'[..|issued'| - |replies'|] == issued[..|issued| - |replies|]
  {
  }

  lemma XaddLog(s: State, cmd: Cmd)
    requires Shape(s) && LogGood(s) && s.pc.Sending? && s.pc.unsent != [] && InRange(s, s.pc.unsent)
    ensures LogGood(SendXadd(s, cmd))
  {
    UnsentIsNew(s);
    assert s.pc.unsent[0] in s.pc.unsent;
  }

  lemma XaddPending(s: State, cmd: Cmd)
    requires PendingGood(s) && s.pc.Sending? && s.pc.unsent != [] && InRange(s, s.pc.unsent)
    ensures PendingGood(SendXadd(s, cmd))
  {
    var s' := SendXadd(s, cmd);
    forall i | 0 <= i < |Pending(s'.pc)|
      ensures Pending(s'.pc)[i].0 < |s'.jobs|
      ensures Truthful(s'.log, Pending(s'.pc)[i].0, s'.jobs[Pending(s'.pc)[i].0].req, Pending(s'.pc)[i].1)
    {
      if i < |s.pc.replies| {
        assert Pending(s'.pc)[i] == Pending(s.pc)[i];
      }
    }
  }

  lemma XaddKeeps(c: Config, s: State, cmd: Cmd)
    requires Inv(c, s) && s.pc.Sending? && s.pc.unsent != [] && InRange(s, s.pc.unsent)
    ensures Inv(c, SendXadd(s, cmd))
  {
    var s' := SendXadd(s, cmd);
    var last := (s.pc.unsent[0], if cmd.Applied? then Ok(|s.log|) else Err);
    XaddShape(s, s', last);
    XaddAnswers(s, s', last);
    XaddLog(s, cmd);
    XaddPending(s, cmd);
    forall i | 0 <= i < |s'.jobs|
      ensures JobGood(s'.jobs[i], s'.log, i, i in s'.taken, i in s'.queue, s'.pc.Exited?, Answered(s', i))
    {
      assert JobGood(s.jobs[i], s.log, i, i in s.taken, i in s.queue, s.pc.Exited?, Answered(s, i));
      assert Answered(s', i) == Answered(s, i);
    }
  }

  /** Exec returns: the results are settled, for the same jobs. */
  lemma ExecKeeps(c: Config, s: State, failed: bool)
    requires Inv(c, s) && s.pc.Sending? && s.pc.unsent == []
    ensures Inv(c, s.(pc := Delivering(BatchResults(s.pc.replies, failed), s.pc.exiting)))
  {
    var s' := s.(pc := Delivering(BatchResults(s.pc.replies, failed), s.pc.exiting));
    assert forall i :: 0 <= i < |s.pc.replies| ==> Pending(s'.pc)[i].0 == Pending(s.pc)[i].0;
    forall i | 0 <= i < |s'.jobs|
      ensures JobGood(s'.jobs[i], s'.log, i, i in s'.taken, i in s'.queue, s'.pc.Exited?, Answered(s', i))
    {
      assert JobGood(s.jobs[i], s.log, i, i in s.taken, i in s.queue, s.pc.Exited?, Answered(s, i));
      assert Answered(s', i) == Answered(s, i);
    }
  }

  lemma NextResultIsNew(s: State)
    requires Shape(s) && s.pc.Delivering? && s.pc.results != []
    ensures var j, n := s.pc.results[0].0, |s.issued| - |s.pc.results|;
            && j in s.taken && !Answered(s, j)
            && s.issued[..n + 1] == s.issued[..n] + [j]
  {
    var j, n := s.pc.results[0].0, |s.issued| - |s.pc.results|;
    assert Pending(s.pc)[0].0 == s.issued[n + 0];
    IssuedDistinct(s);
    assert s.issued + [] == s.issued;
    assert j in s.issued;
  }

  lemma DeliverShape(s: State)
    requires Shape(s) && s.pc.Delivering? && s.pc.results != [] && s.pc.results[0].0 < |s.jobs|
    ensures var (j, r) := s.pc.results[0];
            var s' := Send(s, j, r).(pc := Delivering(s.pc.results[1..], s.pc.exiting));
            && Shape(s')
            && forall i :: Answered(s', i) <==> Answered(s, i) || i == j
  {
    NextResultIsNew(s);
    var (j, r) := s.pc.results[0];
    var s' := Send(s, j, r).(pc := Delivering(s.pc.results[1..], s.pc.exiting));
    assert forall i :: 0 <= i < |Pending(s'.pc)| ==> Pending(s'.pc)[i] == Pending(s.pc)[i + 1];
  }

  lemma DeliverKeeps(c: Config, s: State)
    requires Inv(c, s) && s.pc.Delivering? && s.pc.results != []
    ensures s.pc.results[0].0 < |s.jobs|
    ensures var (j, r) := s.pc.results[0];
            && s.jobs[j].slot == []
            && Inv(c, Send(s, j, r).(pc := Delivering(s.pc.results[1..], s.pc.exiting)))
  {
    var (j, r) := s.pc.results[0];
    assert Pending(s.pc)[0].0 < |s.jobs|;
    NextResultIsNew(s);
    DeliverShape(s);
    var s' := Send(s, j, r).(pc := Delivering(s.pc.results[1..], s.pc.exiting));
    forall i | 0 <= i < |s'.jobs|
      ensures JobGood(s'.jobs[i], s'.log, i, i in s'.taken, i in s'.queue, s'.pc.Exited?, Answered(s', i))
    {
      assert JobGood(s.jobs[i], s.log, i, i in s.taken, i in s.queue, s.pc.Exited?, Answered(s, i));
    }
    assert forall i :: 0 <= i < |Pending(s'.pc)| ==> Pending(s'.pc)[i] == Pending(s.pc)[i + 1];
  }

  lemma ExternalLog(s: State, entry: Entry)
    requires LogGood(s) && !entry.source.Worker?
    ensures LogGood(s.(log := s.log + [entry]))
  {
  }

  lemma ExternalKeeps(c: Config, s: State, entry: Entry)
    requires Inv(c, s) && !entry.source.Worker?
    ensures Inv(c, s.(log := s.log + [entry]))
  {
    var s' := s.(log := s.log + [entry]);
    ExternalLog(s, entry);
    assert PendingGood(s');
    forall i | 0 <= i < |s'.jobs|
      ensures JobGood(s'.jobs[i], s'.log, i, i in s'.taken, i in s'.queue, s'.pc.Exited?, Answered(s', i))
    {
      assert JobGood(s.jobs[i], s.log, i, i in s.taken, i in s.queue, s.pc.Exited?, Answered(s, i));
      assert Answered(s', i) == Answered(s, i);
    }
  }

  lemma DrainKeeps(c: Config, s: State)
    requires ValidConfig(c) && Inv(c, s) && s.pc.Draining?
    ensures Inv(c, Apply(c, s, WorkerDrain))
  {
    if s.queue != [] {
      TakeKeeps(c, s, s.pc.exiting);
    } else if s.pc.exiting || FlushDue(c, s) {
      StartFlushKeeps(c, s, s.pc.exiting);
    } else {
      MoveKeeps(c, s, s.(pc := Select));
    }
  }

  lemma StopSeenKeeps(c: Config, s: State)
    requires Inv(c, s) && s.pc.Select?
    ensures Inv(c, s.(pc := Draining(true)))
  {
    MoveKeeps(c, s, s.(pc := Draining(true)));
  }

  lemma FinishKeeps(c: Config, s: State)
    requires ValidConfig(c) && Inv(c, s)
    requires s.pc.Building? || s.pc.Delivering?
    requires Todo(s.pc) == Built(s.pc) == [] && Pending(s.pc) == []
    ensures Inv(c, Finish(s, s.pc.exiting))
  {
    MoveKeeps(c, s, Finish(s, s.pc.exiting));
  }

  lemma SendKeeps(c: Config, s: State)
    requires ValidConfig(c) && Inv(c, s)
    ensures Inv(c, Apply(c, s, WorkerSend))
  {
    if s.pc.Building? && s.pc.todo == [] {
      if s.pc.built == [] {
        FinishKeeps(c, s);
      } else {
        MoveKeeps(c, s, s.(pc := Sending(s.pc.built, [], s.pc.exiting)));
      }
    }
  }

  lemma DeliveryKeeps(c: Config, s: State)
    requires ValidConfig(c) && Inv(c, s)
    ensures Inv(c, Apply(c, s, WorkerDeliver))
  {
    if s.pc.Delivering? {
      if s.pc.results == [] {
        FinishKeeps(c, s);
      } else {
        DeliverKeeps(c, s);
      }
    }
  }

  lemma StepKeeps(c: Config, s: State, step: Step)
    requires ValidConfig(c) && Inv(c, s)
    ensures Inv(c, Apply(c, s, step))
  {
    match step {
      case Create(req, caller) => CreateKeeps(c, s, req, caller);
      case CancelCtx(j) =>
        if j < |s.jobs| {
          JobStepKeeps(c, s, Apply(c, s, step), j, s.jobs[j].(ctxDone := true));
        }
      case TryEnqueue(j, choice) =>
        if j < |s.jobs| && s.jobs[j].phase.Created? { EnqueueKeeps(c, s, j, choice); }
      case Await(j, choice) =>
        if j < |s.jobs| && s.jobs[j].phase.Waiting? { AwaitKeeps(c, s, j, choice); }
      case CloseStop => StopFlagKeeps(c, s);
      case External(entry) =>
        if !entry.source.Worker? { ExternalKeeps(c, s, entry); }
      case WorkerStop =>
        if s.pc.Select? && s.stopping { StopSeenKeeps(c, s); }
      case WorkerTick =>
        if s.pc.Select? && c.flushInterval > 0 { StartFlushKeeps(c, s, false); }
      case WorkerTake =>
        if s.pc.Select? && s.queue != [] { TakeKeeps(c, s, false); }
      case WorkerDrain =>
        if s.pc.Draining? { DrainKeeps(c, s); }
      case WorkerBuild =>
        if s.pc.Building? && s.pc.todo != [] { BuildKeeps(c, s); }
      case WorkerSend => SendKeeps(c, s);
      case WorkerXadd(cmd) =>
        if s.pc.Sending? && s.pc.unsent != [] && InRange(s, s.pc.unsent) { XaddKeeps(c, s, cmd); }
      case WorkerExec(failed) =>
        if s.pc.Sending? && s.pc.unsent == [] { ExecKeeps(c, s, failed); }
      case WorkerDeliver => DeliveryKeeps(c, s);
    }
  }

  lemma StopFlagKeeps(c: Config, s: State)
    requires Inv(c, s)
    ensures Inv(c, s.(stopping := true))
  {
    var s' := s.(stopping := true);
    assert forall i :: Answered(s', i) == Answered(s, i);
  }

  lemma InitGood(c: Config)
    requires ValidConfig(c)
    ensures Inv(c, INIT)
  {
  }

  lemma {:induction false} RunFromInv(c: Config, s: State, steps: seq<Step>)
    requires ValidConfig(c) && Inv(c, s)
    ensures Inv(c, RunFrom(c, s, steps))
  {
    if steps != [] {
      RunFromInv(c, s, steps[..|steps| - 1]);
      StepKeeps(c, RunFrom(c, s, steps[..|steps| - 1]), steps[|steps| - 1]);
    }
  }

  lemma RunInv(c: Config, steps: seq<Step>)
    requires ValidConfig(c)
    ensures Inv(c, Run(c, steps))
  {
    InitGood(c);
    RunFromInv(c, INIT, steps);
  }

  ghost predicate Reachable(c: Config, s: State) {
    exists steps :: Run(c, steps) == s
  }

  lemma ReachableInit(c: Config)
    ensures Reachable(c, INIT)
  {
    assert Run(c, []) == INIT;
  }

  lemma ReachableStep(c: Config, s: State, step: Step)
    requires Reachable(c, s)
    ensures Reachable(c, Apply(c, s, step))
  {
    var steps :| Run(c, steps) == s;
    assert (steps + [step])[..|steps|] == steps;
    assert Run(c, steps + [step]) == Apply(c, s, step);
  }

  lemma ReachableInv(c: Config, s: State)
    requires ValidConfig(c) && Reachable(c, s)
    ensures Inv(c, s)
  {
    var steps :| Run(c, steps) == s;
    RunInv(c, steps);
  }

  // ---------------------------------------------------------------------------
  // Main results
  // ---------------------------------------------------------------------------

  /** One result per job, its own: in every reachable state no job was sent more than one
      result, a returned success is the position of that job's own XADD with its own request,
      and the log holds at most one worker entry for the job. */
  lemma OwnResultOnce(c: Config, steps: seq<Step>, j: nat)
    requires ValidConfig(c) && j < |Run(c, steps).jobs|
    ensures var s := Run(c, steps);
            && s.jobs[j].sent <= 1
            && (forall id: nat :: s.jobs[j].phase == Returned(FromWorker(Ok(id))) ==>
                  id < |s.log| && s.log[id] == Entry(s.jobs[j].req, Worker(j)))
            && (forall i, k :: 0 <= i < k < |s.log| && s.log[i].source == Worker(j) ==> s.log[k].source != Worker(j))
  {
    RunInv(c, steps);
  }

  /** Whatever other clients add between two XADDs of a batch, a reply waiting to be delivered
      is for a job already issued, and a success is the position of that job's own entry. */
  lemma RepliesAreOwn(c: Config, steps: seq<Step>, i: nat)
    requires ValidConfig(c) && i < |Pending(Run(c, steps).pc)|
    ensures var s := Run(c, steps);
            var (j, r) := Pending(s.pc)[i];
            && j < |s.jobs| && j in s.issued
            && (r.Ok? ==> r.id < |s.log| && s.log[r.id] == Entry(s.jobs[j].req, Worker(j)))
  {
    RunInv(c, steps);
    var s := Run(c, steps);
    assert s.issued[|s.issued| - |Pending(s.pc)| + i] == Pending(s.pc)[i].0;
  }

  /** The worker's send never blocks: whenever it is about to answer a job, the slot is empty. */
  lemma SendNeverBlocks(c: Config, steps: seq<Step>)
    requires ValidConfig(c)
    ensures var s := Run(c, steps);
            && (s.pc.Delivering? && s.pc.results != [] ==>
                  s.pc.results[0].0 < |s.jobs| && s.jobs[s.pc.results[0].0].slot == [])
            && (s.pc.Building? && s.pc.todo != [] ==>
                  s.pc.todo[0] < |s.jobs| && s.jobs[s.pc.todo[0]].slot == [])
  {
    RunInv(c, steps);
    var s := Run(c, steps);
    if s.pc.Delivering? && s.pc.results != [] {
      DeliverKeeps(c, s);
    }
    if s.pc.Building? && s.pc.todo != [] {
      NextIsNew(s);
      var j := s.pc.todo[0];
      assert JobGood(s.jobs[j], s.log, j, j in s.taken, j in s.queue, s.pc.Exited?, Answered(s, j));
    }
  }

  /** The queue is first-in first-out: over any further run, the jobs dequeued so far followed
      by the queued ones are only ever extended at the end, so a job overtakes no other. */
  lemma {:induction false} QueueIsFifo(c: Config, s: State, later: seq<Step>)
    requires ValidConfig(c) && Reachable(c, s)
    ensures var s' := RunFrom(c, s, later);
            s.taken <= s'.taken && s.taken + s.queue <= s'.taken + s'.queue
  {
    if later != [] {
      var pre, step := later[..|later| - 1], later[|later| - 1];
      QueueIsFifo(c, s, pre);
      ReachableInv(c, s);
      RunFromInv(c, s, pre);
      StepQueue(c, RunFrom(c, s, pre), step);
    }
  }

  lemma StepQueue(c: Config, s: State, step: Step)
    requires Shape(s)
    ensures var s' := Apply(c, s, step);
            && s.taken <= s'.taken
            && (s'.taken + s'.queue == s.taken + s.queue ||
                (step.TryEnqueue? && s'.taken + s'.queue == s.taken + s.queue + [step.job]))
  {
    if (step.WorkerTake? || step.WorkerDrain?) && s.queue != [] && (s.pc.Select? || s.pc.Draining?) {
      TakeShape(s, if s.pc.Draining? then s.pc.exiting else false);
    } else if step.TryEnqueue? {
      assert s.taken + (s.queue + [step.job]) == s.taken + s.queue + [step.job];
    }
  }

  /** XADDs go out in queue order, minus the jobs found cancelled; between batches every
      dequeued job has been issued, skipped, or is in the buffer. */
  lemma XaddsInQueueOrder(c: Config, steps: seq<Step>)
    requires ValidConfig(c)
    ensures var s := Run(c, steps);
            && s.issued <= Keep(s.examined, s.skipped)
            && s.examined <= s.taken
            && (s.pc.Select? || s.pc.Draining? || s.pc.Exited? ==>
                  s.issued == Keep(s.examined, s.skipped) && s.taken == s.examined + s.buffer)
  {
    RunInv(c, steps);
    var s := Run(c, steps);
    assert s.issued + [] == s.issued;
    assert s.examined + [] + s.buffer == s.examined + s.buffer;
  }

  /** The log only grows, jobs keep their requests and callers, and a returned call stays returned. */
  ghost predicate Extends(s: State, s': State) {
    && s.log <= s'.log
    && |s.jobs| <= |s'.jobs|
    && forall j :: 0 <= j < |s.jobs| ==>
         && s'.jobs[j].req == s.jobs[j].req && s'.jobs[j].caller == s.jobs[j].caller
         && (s.jobs[j].phase.Returned? ==> s'.jobs[j].phase == s.jobs[j].phase)
  }

  lemma AwaitExtends(s: State, j: nat, choice: Choice)
    requires j < |s.jobs| && s.jobs[j].phase.Waiting?
    ensures Extends(s, AwaitResult(s, j, choice))
  {
  }

  lemma EnqueueExtends(c: Config, s: State, j: nat, choice: Choice)
    requires j < |s.jobs| && s.jobs[j].phase.Created?
    ensures Extends(s, Enqueue(c, s, j, choice))
  {
  }

  lemma SendExtends(s: State, s': State, j: nat, r: Result)
    requires j < |s.jobs| && s'.jobs == Send(s, j, r).jobs && s'.log == s.log
    ensures Extends(s, s')
  {
  }

  lemma StepExtends(c: Config, s: State, step: Step)
    ensures Extends(s, Apply(c, s, step))
  {
    var s' := Apply(c, s, step);
    match step {
      case Create(_, _) =>
      case CancelCtx(_) =>
      case TryEnqueue(j, choice) =>
        if j < |s.jobs| && s.jobs[j].phase.Created? { EnqueueExtends(c, s, j, choice); }
      case Await(j, choice) =>
        if j < |s.jobs| && s.jobs[j].phase.Waiting? { AwaitExtends(s, j, choice); }
      case WorkerBuild =>
        if s' != s && s.jobs[s.pc.todo[0]].ctxDone { SendExtends(s, s', s.pc.todo[0], Err); }
      case WorkerDeliver =>
        if s' != s && s.pc.results != [] { SendExtends(s, s', s.pc.results[0].0, s.pc.results[0].1); }
      case _ => assert s'.jobs == s.jobs;
    }
  }

  lemma {:induction false} RunExtends(c: Config, s: State, steps: seq<Step>)
    ensures Extends(s, RunFrom(c, s, steps))
  {
    if steps != [] {
      RunExtends(c, s, steps[..|steps| - 1]);
      StepExtends(c, RunFrom(c, s, steps[..|steps| - 1]), steps[|steps| - 1]);
    }
  }

  /** Safe fallback: when `Publish` has returned queue-full or stopped for a job, the worker
      has not sent it to Redis and never will, however the run goes on; so publishing the
      request directly cannot duplicate it. */
  lemma SafeFallback(c: Config, steps: seq<Step>, later: seq<Step>, j: nat)
    requires ValidConfig(c) && j < |Run(c, steps).jobs|
    requires Run(c, steps).jobs[j].phase == Returned(QueueFull) || Run(c, steps).jobs[j].phase == Returned(Stopped)
    ensures var s := RunFrom(c, Run(c, steps), later);
            && j !in s.taken && j !in s.issued
            && forall i :: 0 <= i < |s.log| ==> s.log[i].source != Worker(j)
  {
    RunInv(c, steps);
    RunFromInv(c, Run(c, steps), later);
    RunExtends(c, Run(c, steps), later);
    var s := RunFrom(c, Run(c, steps), later);
    assert JobGood(s.jobs[j], s.log, j, j in s.taken, j in s.queue, s.pc.Exited?, Answered(s, j));
    IssuedDistinct(s);
    assert j in s.issued ==> j in s.issued + Built(s.pc);
  }

  /** Every dequeued job has its result before `doneCh` closes. */
  lemma ResultsBeforeDone(c: Config, steps: seq<Step>, j: nat)
    requires ValidConfig(c) && Done(Run(c, steps)) && j in Run(c, steps).taken
    ensures j < |Run(c, steps).jobs| && Run(c, steps).jobs[j].sent == 1
  {
    RunInv(c, steps);
    var s := Run(c, steps);
    ExitedAnswersAll(s, j);
    assert JobGood(s.jobs[j], s.log, j, j in s.taken, j in s.queue, s.pc.Exited?, Answered(s, j));
  }

  lemma SumBytesLower(jobs: seq<Job>, js: seq<nat>)
    requires forall i :: 0 <= i < |js| ==> js[i] < |jobs| && jobs[js[i]].bytes >= 128
    ensures SumBytes(jobs, js) >= 128 * |js|
  {
  }

  /** The worker's loop head: the byte counter is the sum of the buffered estimates and the
      buffer is below both limits (empty when there is no flush interval). */
  lemma LoopHead(c: Config, steps: seq<Step>)
    requires ValidConfig(c) && Run(c, steps).pc.Select?
    ensures var s := Run(c, steps);
            && InRange(s, s.buffer) && s.bufferBytes == SumBytes(s.jobs, s.buffer)
            && (c.flushInterval == 0 ==> s.buffer == [])
            && |s.buffer| < c.maxBatch && s.bufferBytes < c.maxBytes && 128 * |s.buffer| < c.maxBytes
  {
    RunInv(c, steps);
    var s := Run(c, steps);
    forall i | 0 <= i < |s.buffer|
      ensures s.jobs[s.buffer[i]].bytes >= 128
    {
      var j := s.buffer[i];
      assert JobGood(s.jobs[j], s.log, j, j in s.taken, j in s.queue, s.pc.Exited?, Answered(s, j));
    }
    SumBytesLower(s.jobs, s.buffer);
  }
}
