/**
 Adaptive routing of single publishes: a shared counter of calls in flight decides who may
 bypass the pipeline (internal/service/service.go). Calls enter, decide and leave in any
 interleaving.
 */
module AdaptiveRouting {

  /** `PublishPipelineAdaptiveEnabled` and `PublishPipelineMinBatch`. */
  datatype Config = Config(enabled: bool, minBatch: int)

  datatype Route = Undecided | Direct | Pipelined

  /** One `publishToRedis` call: the counter value its own increment returned, and its route. */
  datatype Call = Call(observed: int, route: Route)

  /** The active counter and the calls in flight, in the order they entered. */
  datatype State = State(active: int, calls: seq<Call>)

  const INIT := State(0, [])

  datatype Step = Enter | Decide(call: nat, queueLength: nat) | Leave(call: nat)

  /** `shouldUseAdaptiveDirectPublish`. */
  predicate UseDirect(c: Config, observed: int, queueLength: nat) {
    c.enabled && observed < c.minBatch && queueLength + 1 < c.minBatch
  }

  function Apply(c: Config, s: State, step: Step): State {
    match step
    case Enter =>
      if c.enabled then State(s.active + 1, s.calls + [Call(s.active + 1, Undecided)])
      else s.(calls := s.calls + [Call(0, Undecided)])
    case Decide(i, queueLength) =>
      if i < |s.calls| && s.calls[i].route.Undecided? then
        var route := if UseDirect(c, s.calls[i].observed, queueLength) then Direct else Pipelined;
        s.(calls := s.calls[i := s.calls[i].(route := route)])
      else s
    case Leave(i) =>
      if i < |s.calls| && !s.calls[i].route.Undecided? then
        State(if c.enabled then s.active - 1 else s.active, s.calls[..i] + s.calls[i + 1..])
      else s
  }

  function Run(c: Config, steps: seq<Step>): State {
    if steps == [] then INIT else Apply(c, Run(c, steps[..|steps| - 1]), steps[|steps| - 1])
  }

  function DirectCount(calls: seq<Call>): nat {
    if calls == [] then 0
    else DirectCount(calls[..|calls| - 1]) + if calls[|calls| - 1].route.Direct? then 1 else 0
  }

  /** A call in `i`th place observed a count of at least `i + 1`: everyone ahead of it was
      already counted when it entered. */
  ghost predicate Inv(c: Config, s: State) {
    && s.active == (if c.enabled then |s.calls| else 0)
    && (c.enabled ==> forall i :: 0 <= i < |s.calls| ==> s.calls[i].observed >= i + 1)
    && forall i :: 0 <= i < |s.calls| && s.calls[i].route.Direct? ==> c.enabled && s.calls[i].observed < c.minBatch
  }

  lemma StepKeeps(c: Config, s: State, step: Step)
    requires Inv(c, s)
    ensures Inv(c, Apply(c, s, step))
  {
  }

  lemma {:induction false} RunInv(c: Config, steps: seq<Step>)
    ensures Inv(c, Run(c, steps))
  {
    if steps != [] {
      RunInv(c, steps[..|steps| - 1]);
      StepKeeps(c, Run(c, steps[..|steps| - 1]), steps[|steps| - 1]);
    }
  }

  lemma {:induction false} DirectBound(calls: seq<Call>, limit: nat)
    requires forall i :: limit <= i < |calls| ==> !calls[i].route.Direct?
    ensures DirectCount(calls) <= limit && DirectCount(calls) <= |calls|
  {
    if calls != [] {
      var pre := calls[..|calls| - 1];
      DirectBound(pre, if |calls| <= limit then |pre| else limit);
    }
  }

  /** A call that decides publishes directly exactly when adaptive routing is on, fewer than a
      batch of calls are in flight counting itself, and the queue with this request would still
      be short of a batch. */
  lemma DecidesExactly(c: Config, s: State, i: nat, queueLength: nat)
    requires i < |s.calls| && s.calls[i].route.Undecided?
    ensures var route := Apply(c, s, Decide(i, queueLength)).calls[i].route;
            && !route.Undecided?
            && (route.Direct? <==> c.enabled && s.calls[i].observed + 1 <= c.minBatch && queueLength + 2 <= c.minBatch)
  {
  }

  /** A call enters with the count it brought about and leaves once decided, the others staying
      in order. */
  lemma EntersAndLeaves(c: Config, s: State, i: nat)
    requires Inv(c, s)
    ensures c.enabled ==> Apply(c, s, Enter).calls == s.calls + [Call(|s.calls| + 1, Undecided)]
    ensures !c.enabled ==> Apply(c, s, Enter).calls == s.calls + [Call(0, Undecided)]
    ensures i < |s.calls| && !s.calls[i].route.Undecided? ==>
              Apply(c, s, Leave(i)).calls == s.calls[..i] + s.calls[i + 1..]
  {
  }

  function MaxDirect(c: Config): nat {
    if c.enabled && c.minBatch > 1 then c.minBatch - 1 else 0
  }

  /** The counter is the number of calls in flight, and at most `minBatch - 1` of them publish
      directly because of adaptive routing, in every interleaving. */
  lemma AdaptiveBound(c: Config, steps: seq<Step>)
    ensures var s := Run(c, steps);
            && (c.enabled ==> s.active == |s.calls|)
            && DirectCount(s.calls) <= MaxDirect(c)
  {
    RunInv(c, steps);
    DirectBound(Run(c, steps).calls, MaxDirect(c));
  }

  /** `n` calls that all go direct. */
  function AllDirect(n: nat): seq<Step> {
    if n == 0 then [] else AllDirect(n - 1) + [Enter] + [Decide(n - 1, 0)]
  }

  lemma RunSnoc(c: Config, steps: seq<Step>, step: Step)
    ensures Run(c, steps + [step]) == Apply(c, Run(c, steps), step)
  {
    assert (steps + [step])[..|steps|] == steps;
  }

  /** The bound is reached, so it is the exact maximum. */
  lemma {:induction false} BoundReached(c: Config, n: nat)
    requires n <= MaxDirect(c)
    ensures var s := Run(c, AllDirect(n));
            |s.calls| == n && DirectCount(s.calls) == n && (c.enabled ==> s.active == n)
  {
    if n > 0 {
      BoundReached(c, n - 1);
      var steps := AllDirect(n - 1);
      RunSnoc(c, steps, Enter);
      RunSnoc(c, steps + [Enter], Decide(n - 1, 0));
      OneMoreDirect(c, Run(c, steps));
    }
  }

  lemma OneMoreDirect(c: Config, s: State)
    requires c.enabled && s.active == |s.calls| < MaxDirect(c)
    ensures var s' := Apply(c, Apply(c, s, Enter), Decide(|s.calls|, 0));
            s'.active == |s'.calls| == |s.calls| + 1 && DirectCount(s'.calls) == DirectCount(s.calls) + 1
  {
    var calls' := s.calls + [Call(|s.calls| + 1, Direct)];
    assert calls'[..|s.calls|] == s.calls;
    assert Apply(c, Apply(c, s, Enter), Decide(|s.calls|, 0)).calls == calls';
  }
}
