/**
 The Redis log follows the pipeline's queue: whatever callers, replays and failures do in
 between, the worker's entries appear in the order the jobs were queued
 (internal/service/publish_pipeline.go).
 */
module PipelineOrder {
  import opened Pipeline
  import opened PipelineRuns

  /** The jobs of the worker's log entries, in log order. */
  function WorkerJobs(log: seq<Entry>): seq<nat> {
    if log == [] then []
    else
      var n := |log| - 1;
      WorkerJobs(log[..n]) + if log[n].source.Worker? then [log[n].source.job] else []
  }

  lemma {:induction false} WorkerJobsAppend(log: seq<Entry>, more: seq<Entry>)
    ensures WorkerJobs(log + more) == WorkerJobs(log) + WorkerJobs(more)
  {
    if more == [] {
      assert log + more == log;
    } else {
      var n := |more| - 1;
      WorkerJobsAppend(log, more[..n]);
      assert (log + more)[..|log| + n] == log + more[..n];
    }
  }

  /** Skipping more makes no difference to a list without those elements. */
  lemma {:induction false} KeepSame(xs: seq<nat>, skip: set<nat>, more: set<nat>)
    requires forall i :: 0 <= i < |xs| ==> xs[i] !in more
    ensures Keep(xs, skip + more) == Keep(xs, skip)
  {
    if xs != [] {
      KeepSame(xs[..|xs| - 1], skip, more);
    }
  }

  /** The worker's entries are the issued jobs in order, less some that did not take effect. */
  ghost predicate LogOrdered(s: State, lost: set<nat>) {
    WorkerJobs(s.log) == Keep(s.issued, lost) && forall j :: j in lost ==> j in s.issued
  }

  lemma XaddOrder(s: State, cmd: Cmd, lost: set<nat>) returns (lost': set<nat>)
    requires Shape(s) && s.pc.Sending? && s.pc.unsent != [] && InRange(s, s.pc.unsent) && LogOrdered(s, lost)
    ensures LogOrdered(SendXadd(s, cmd), lost')
  {
    var j := s.pc.unsent[0];
    UnsentIsNew(s);
    assert j in s.pc.unsent;
    lost' := if cmd.NotApplied? then lost + {j} else lost;
    KeepSnoc(s.issued, j, lost');
    if cmd.NotApplied? {
      KeepSame(s.issued, lost, {j});
    } else {
      WorkerJobsAppend(s.log, [Entry(s.jobs[j].req, Worker(j))]);
      assert WorkerJobs([Entry(s.jobs[j].req, Worker(j))]) == [j];
    }
  }

  lemma QuietStep(c: Config, s: State, step: Step)
    requires !step.WorkerXadd? && !step.External?
    ensures Apply(c, s, step).log == s.log && Apply(c, s, step).issued == s.issued
  {
  }

  lemma ExternalOrder(s: State, entry: Entry, lost: set<nat>)
    requires LogOrdered(s, lost) && !entry.source.Worker?
    ensures LogOrdered(s.(log := s.log + [entry]), lost)
  {
    WorkerJobsAppend(s.log, [entry]);
    assert [entry][..0] == [];
  }

  lemma StepOrder(c: Config, s: State, step: Step, lost: set<nat>) returns (lost': set<nat>)
    requires Shape(s) && LogOrdered(s, lost)
    ensures LogOrdered(Apply(c, s, step), lost')
  {
    lost' := lost;
    match step {
      case WorkerXadd(cmd) =>
        if s.pc.Sending? && s.pc.unsent != [] && InRange(s, s.pc.unsent) { lost' := XaddOrder(s, cmd, lost); }
      case External(entry) => if !entry.source.Worker? { ExternalOrder(s, entry, lost); }
      case _ => QuietStep(c, s, step);
    }
  }

  /** In every run the worker's log entries, in log order, are the jobs in queue order with the
      cancelled ones and those whose XADD did not take effect left out. */
  lemma {:induction false} LogFollowsQueue(c: Config, steps: seq<Step>)
    requires ValidConfig(c)
    ensures var s := Run(c, steps);
            && s.issued <= Keep(s.examined, s.skipped) && s.examined <= s.taken
            && exists lost :: LogOrdered(s, lost)
  {
    XaddsInQueueOrder(c, steps);
    if steps == [] {
      assert LogOrdered(Run(c, steps), {});
    } else {
      var pre := steps[..|steps| - 1];
      LogFollowsQueue(c, pre);
      RunInv(c, pre);
      var lost :| LogOrdered(Run(c, pre), lost);
      var lost' := StepOrder(c, Run(c, pre), steps[|steps| - 1], lost);
    }
  }
}
