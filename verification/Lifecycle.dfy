/**
 Dispatchers and subscriber channels over their lifetime: the manager's map, subscribing,
 closing, stopping, evicting and shutting down, in any interleaving of the critical sections
 (internal/service/dispatcher.go).
 */
module Lifecycle {
  import opened Common
  import opened Dispatcher

  // ---------------------------------------------------------------------------
  // The manager
  // ---------------------------------------------------------------------------

  /** `consumeDispatcherManager`: the map guarded by its mutex. */
  class Manager {
    const buffer: nat
    var dispatchers: map<string, StreamDispatcher>
    var closed: bool

    ghost predicate Valid()
      reads this, dispatchers.Values
    {
      && buffer > 0
      && (closed ==> dispatchers == map[])
      && (forall key :: key in dispatchers ==> dispatchers[key].Valid())
    }

    constructor (buffer: nat)
      requires buffer > 0
      ensures Valid() && dispatchers == map[] && !closed
    {
      this.buffer := buffer;
      dispatchers := map[];
      closed := false;
    }

    /** `getOrCreate`: nothing from a closed manager, the existing dispatcher, or a new one. */
    method GetOrCreate(key: string) returns (r: Option<StreamDispatcher>)
      requires Valid()
      modifies this`dispatchers
      ensures Valid()
      ensures r.None? <==> closed
      ensures r.Some? ==> dispatchers == old(dispatchers)[key := r.value]
      ensures r.Some? && key in old(dispatchers) ==> r.value == old(dispatchers)[key]
      ensures r.Some? && key !in old(dispatchers) ==> fresh(r.value) && r.value.subscribers == map[] && !r.value.stopped
      ensures r.None? ==> dispatchers == old(dispatchers)
    {
      if closed {
        return None;
      }
      if key in dispatchers {
        return Some(dispatchers[key]);
      }
      var dispatcher := new StreamDispatcher(buffer);
      dispatchers := dispatchers[key := dispatcher];
      return Some(dispatcher);
    }

    /** `removeIfSame`: only the dispatcher that asks is removed, never its replacement. */
    method RemoveIfSame(key: string, dispatcher: StreamDispatcher)
      requires Valid()
      modifies this`dispatchers
      ensures Valid()
      ensures key !in dispatchers || dispatchers[key] != dispatcher
      ensures forall k :: k in old(dispatchers) && (k != key || old(dispatchers)[k] != dispatcher)
                          ==> k in dispatchers && dispatchers[k] == old(dispatchers)[k]
      ensures dispatchers.Keys <= old(dispatchers).Keys
    {
      if key in dispatchers && dispatchers[key] == dispatcher {
        dispatchers := dispatchers - {key};
      }
    }

    /** `Close`: the first call empties the map and stops every dispatcher that was in it. */
    method Close()
      requires Valid()
      modifies this, dispatchers.Values
      ensures Valid() && closed && dispatchers == map[]
      ensures forall d :: d in old(dispatchers).Values ==> d.Valid() && d.stopped
      ensures forall d :: d in old(dispatchers).Values && !old(d.stopped) ==> d.subscribers == map[]
    {
      if closed {
        return;
      }
      closed := true;
      var running := dispatchers.Values;
      dispatchers := map[];
      StopAll(running);
    }
  }

  /** Stops every dispatcher of a shut-down manager, in whatever order. */
  method StopAll(all: set<StreamDispatcher>)
    requires forall d :: d in all ==> d.Valid()
    modifies all
    ensures forall d :: d in all ==> d.Valid() && d.stopped
    ensures forall d :: d in all && !old(d.stopped) ==> d.subscribers == map[]
  {
    var todo := all;
    while todo != {}
      invariant todo <= all
      invariant forall d :: d in all ==> d.Valid()
      invariant forall d :: d in all && d !in todo ==> d.stopped && (!old(d.stopped) ==> d.subscribers == map[])
      invariant forall d :: d in todo ==> d.stopped == old(d.stopped)
      decreases |todo|
    {
      var d :| d in todo;
      d.Stop();
      todo := todo - {d};
    }
  }

  // ---------------------------------------------------------------------------
  // The machine
  // ---------------------------------------------------------------------------

  /** A dispatcher: the key sets of `subscribers` and `dropCounts`, and whether `stop` has begun. */
  datatype Disp = Disp(key: string, subs: set<nat>, drops: set<nat>, nextSub: nat, stopBegun: bool)

  /** A channel is known by its dispatcher and subscriber ID. */
  datatype Ref = Ref(d: nat, sub: nat)

  /** What some goroutine still has to do: register a subscriber after `getOrCreate`; the
      `removeIfSame` and `stop` after the last subscriber closed; the locked part of `stop`. */
  datatype Task = Register(d: nat) | RemoveSame(d: nat) | CallStop(d: nat) | CloseSubs(d: nat)

  /** `closes` counts the closings of every channel made; `lateSend` says that one was sent to
      after being closed. Either would be a panic. */
  datatype State = State(
    dispatchers: map<string, nat>,
    closed: bool,
    disps: seq<Disp>,
    tasks: multiset<Task>,
    closes: map<Ref, nat>,
    lateSend: bool)

  const INIT := State(map[], false, [], multiset{}, map[], false)

  datatype Step =
    | GetOrCreate(key: string)
    | Do(task: Task)
    | CloseSubscription(d: nat, sub: nat)
    | FanOut(d: nat, evict: set<nat>)
    | CloseManager

  /** Takes subscribers out of both maps and closes their channels. */
  function Drop(s: State, d: nat, ids: set<nat>): State
    requires d < |s.disps|
  {
    var disp := s.disps[d];
    s.(disps := s.disps[d := disp.(subs := disp.subs - ids, drops := disp.drops - ids)],
       closes := map r | r in s.closes :: if r.d == d && r.sub in ids then s.closes[r] + 1 else s.closes[r])
  }

  function AddSub(s: State, d: nat): State
    requires d < |s.disps|
  {
    var disp := s.disps[d];
    var id := disp.nextSub + 1;
    s.(disps := s.disps[d := disp.(subs := disp.subs + {id}, drops := disp.drops + {id}, nextSub := id)],
       closes := s.closes[Ref(d, id) := 0])
  }

  function RemoveIfSame(s: State, d: nat): State
    requires d < |s.disps|
  {
    var key := s.disps[d].key;
    if key in s.dispatchers && s.dispatchers[key] == d then s.(dispatchers := s.dispatchers - {key}) else s
  }

  function Perform(s: State, task: Task): State
    requires task.d < |s.disps|
  {
    var s1 := s.(tasks := s.tasks - multiset{task});
    match task
    case Register(d) => AddSub(s1, d)
    case RemoveSame(d) => RemoveIfSame(s1, d).(tasks := s1.tasks + multiset{CallStop(d)})
    case CallStop(d) =>
      if s.disps[d].stopBegun then s1
      else s1.(disps := s.disps[d := s.disps[d].(stopBegun := true)], tasks := s1.tasks + multiset{CloseSubs(d)})
    case CloseSubs(d) => Drop(s1, d, s1.disps[d].subs)
  }

  function CloseSub(s: State, d: nat, sub: nat): State
    requires d < |s.disps|
  {
    var s1 := if sub in s.disps[d].subs then Drop(s, d, {sub}) else s;
    if s1.disps[d].subs == {} then s1.(tasks := s1.tasks + multiset{RemoveSame(d)}) else s1
  }

  predicate SendsLate(s: State, d: nat)
    requires d < |s.disps|
  {
    exists id :: id in s.disps[d].subs && (Ref(d, id) in s.closes ==> s.closes[Ref(d, id)] > 0)
  }

  function GetDispatcher(s: State, key: string): State {
    if key in s.dispatchers then s.(tasks := s.tasks + multiset{Register(s.dispatchers[key])})
    else s.(dispatchers := s.dispatchers[key := |s.disps|],
            disps := s.disps + [Disp(key, {}, {}, 0, false)],
            tasks := s.tasks + multiset{Register(|s.disps|)})
  }

  /** A fan-out sends to every registered channel and then evicts some. */
  function Fan(s: State, d: nat, evict: set<nat>): State
    requires d < |s.disps|
  {
    Drop(s.(lateSend := s.lateSend || SendsLate(s, d)), d, evict * s.disps[d].subs)
  }

  function CloseAll(s: State): State {
    s.(closed := true, dispatchers := map[],
       tasks := s.tasks + multiset(set k | k in s.dispatchers :: CallStop(s.dispatchers[k])))
  }

  /** A step that is not enabled leaves the state as it is. */
  function Apply(s: State, step: Step): State {
    match step
    case GetOrCreate(key) => if s.closed then s else GetDispatcher(s, key)
    case Do(task) => if task in s.tasks && task.d < |s.disps| then Perform(s, task) else s
    case CloseSubscription(d, sub) => if d < |s.disps| then CloseSub(s, d, sub) else s
    case FanOut(d, evict) => if d < |s.disps| then Fan(s, d, evict) else s
    case CloseManager => if s.closed then s else CloseAll(s)
  }

  function RunFrom(s: State, steps: seq<Step>): State {
    if steps == [] then s else Apply(RunFrom(s, steps[..|steps| - 1]), steps[|steps| - 1])
  }

  function Run(steps: seq<Step>): State {
    RunFrom(INIT, steps)
  }

  // ---------------------------------------------------------------------------
  // What the steps do
  // ---------------------------------------------------------------------------

  /** Subscribing to an open manager: the dispatcher under the key, a new one if there is none,
      is due to register a subscriber. */
  lemma GetOrCreateExactly(s: State, key: string)
    requires !s.closed
    ensures var s' := Apply(s, GetOrCreate(key));
            && key in s'.dispatchers && Register(s'.dispatchers[key]) in s'.tasks
            && (key in s.dispatchers ==> s'.dispatchers == s.dispatchers && s'.disps == s.disps)
            && (key !in s.dispatchers ==>
                  && s'.dispatchers[key] == |s.disps| && |s'.disps| == |s.disps| + 1
                  && s'.disps[|s.disps|] == Disp(key, {}, {}, 0, false))
  {
  }

  /** Registering adds one subscriber with a new ID and an open channel. */
  lemma RegisterExactly(s: State, d: nat)
    requires Register(d) in s.tasks && d < |s.disps|
    ensures var s', id := Apply(s, Do(Register(d))), s.disps[d].nextSub + 1;
            && s'.disps[d].subs == s.disps[d].subs + {id} && s'.disps[d].nextSub == id
            && Ref(d, id) in s'.closes && s'.closes[Ref(d, id)] == 0
  {
  }

  /** Closing a subscription closes its channel if it is registered; the dispatcher is due to be
      removed exactly when nobody is left. */
  lemma CloseSubscriptionExactly(s: State, d: nat, sub: nat)
    requires d < |s.disps| && Chans(s.disps, s.closes)
    ensures var s' := Apply(s, CloseSubscription(d, sub));
            && s'.disps[d].subs == s.disps[d].subs - {sub}
            && (sub in s.disps[d].subs ==> Ref(d, sub) in s'.closes && s'.closes[Ref(d, sub)] == 1)
            && s'.tasks == if s.disps[d].subs - {sub} == {} then s.tasks + multiset{RemoveSame(d)} else s.tasks
  {
    assert SubsGood(s.disps, s.closes, d);
    if sub in s.disps[d].subs {
      assert ChanGood(s.disps, s.closes, Ref(d, sub));
    }
  }

  /** After its removal a dispatcher is due to be stopped; the first stop begins, and closes every
      channel; later ones do nothing. */
  lemma StoppingExactly(s: State, d: nat)
    requires d < |s.disps|
    ensures RemoveSame(d) in s.tasks ==> CallStop(d) in Apply(s, Do(RemoveSame(d))).tasks
    ensures CallStop(d) in s.tasks ==>
              var s' := Apply(s, Do(CallStop(d)));
              s'.disps[d].stopBegun && (!s.disps[d].stopBegun ==> CloseSubs(d) in s'.tasks) && s'.closes == s.closes
    ensures CloseSubs(d) in s.tasks ==> Apply(s, Do(CloseSubs(d))).disps[d].subs == {}
  {
  }

  /** A fan-out takes out exactly the registered subscribers it evicts. */
  lemma FanOutExactly(s: State, d: nat, evict: set<nat>)
    requires d < |s.disps|
    ensures Apply(s, FanOut(d, evict)).disps[d].subs == s.disps[d].subs - evict
    ensures Apply(s, FanOut(d, evict)).dispatchers == s.dispatchers
  {
  }

  /** Shutting down: every dispatcher of the map is due to be stopped. */
  lemma CloseManagerExactly(s: State, key: string)
    requires !s.closed
    ensures var s' := Apply(s, CloseManager);
            && s'.closed && s'.dispatchers == map[]
            && (key in s.dispatchers ==> CallStop(s.dispatchers[key]) in s'.tasks)
  {
  }

  // ---------------------------------------------------------------------------
  // Channels
  // ---------------------------------------------------------------------------

  ghost predicate ChanGood(disps: seq<Disp>, closes: map<Ref, nat>, r: Ref) {
    && r in closes && r.d < |disps| && 0 < r.sub <= disps[r.d].nextSub
    && closes[r] == if r.sub in disps[r.d].subs then 0 else 1
  }

  ghost predicate SubsGood(disps: seq<Disp>, closes: map<Ref, nat>, d: nat)
    requires d < |disps|
  {
    && disps[d].subs == disps[d].drops
    && forall id :: id in disps[d].subs ==> Ref(d, id) in closes
  }

  /** A registered channel is open; one no longer registered was closed exactly once. */
  ghost predicate Chans(disps: seq<Disp>, closes: map<Ref, nat>) {
    && (forall r :: r in closes ==> ChanGood(disps, closes, r))
    && (forall d :: 0 <= d < |disps| ==> SubsGood(disps, closes, d))
  }

  lemma DropKeepsChans(s: State, d: nat, ids: set<nat>)
    requires Chans(s.disps, s.closes) && d < |s.disps| && ids <= s.disps[d].subs
    ensures Chans(Drop(s, d, ids).disps, Drop(s, d, ids).closes)
  {
    var s' := Drop(s, d, ids);
    forall r | r in s'.closes ensures ChanGood(s'.disps, s'.closes, r) {
      assert ChanGood(s.disps, s.closes, r);
    }
    forall e | 0 <= e < |s'.disps| ensures SubsGood(s'.disps, s'.closes, e) {
      assert SubsGood(s.disps, s.closes, e);
    }
  }

  lemma AddSubKeepsChans(s: State, d: nat)
    requires Chans(s.disps, s.closes) && d < |s.disps|
    ensures Chans(AddSub(s, d).disps, AddSub(s, d).closes)
  {
    var s' := AddSub(s, d);
    var added := Ref(d, s.disps[d].nextSub + 1);
    forall r | r in s'.closes ensures ChanGood(s'.disps, s'.closes, r) {
      if r != added { assert ChanGood(s.disps, s.closes, r); }
    }
    forall e | 0 <= e < |s'.disps| ensures SubsGood(s'.disps, s'.closes, e) {
      assert SubsGood(s.disps, s.closes, e);
    }
  }

  lemma StopBegunKeepsChans(disps: seq<Disp>, closes: map<Ref, nat>, d: nat)
    requires Chans(disps, closes) && d < |disps|
    ensures Chans(disps[d := disps[d].(stopBegun := true)], closes)
  {
    var disps' := disps[d := disps[d].(stopBegun := true)];
    assert forall r :: r in closes ==> ChanGood(disps, closes, r) ==> ChanGood(disps', closes, r);
    assert forall e :: 0 <= e < |disps| ==> SubsGood(disps, closes, e) ==> SubsGood(disps', closes, e);
  }

  lemma NewDispKeepsChans(disps: seq<Disp>, closes: map<Ref, nat>, key: string)
    requires Chans(disps, closes)
    ensures Chans(disps + [Disp(key, {}, {}, 0, false)], closes)
  {
    var disps' := disps + [Disp(key, {}, {}, 0, false)];
    assert forall r :: r in closes ==> ChanGood(disps, closes, r) ==> ChanGood(disps', closes, r);
    assert forall e :: 0 <= e < |disps| ==> SubsGood(disps, closes, e) ==> SubsGood(disps', closes, e);
  }

  lemma PerformKeepsChans(s: State, task: Task)
    requires Chans(s.disps, s.closes) && task.d < |s.disps|
    ensures Chans(Perform(s, task).disps, Perform(s, task).closes) && Perform(s, task).lateSend == s.lateSend
  {
    var s1 := s.(tasks := s.tasks - multiset{task});
    match task {
      case Register(d) => AddSubKeepsChans(s1, d);
      case RemoveSame(d) =>
      case CallStop(d) => StopBegunKeepsChans(s.disps, s.closes, d);
      case CloseSubs(d) => DropKeepsChans(s1, d, s1.disps[d].subs);
    }
  }

  lemma FanKeepsChans(s: State, d: nat, evict: set<nat>)
    requires Chans(s.disps, s.closes) && !s.lateSend && d < |s.disps|
    ensures Chans(Fan(s, d, evict).disps, Fan(s, d, evict).closes) && !Fan(s, d, evict).lateSend
  {
    assert SubsGood(s.disps, s.closes, d);
    assert forall id :: id in s.disps[d].subs ==> ChanGood(s.disps, s.closes, Ref(d, id));
    DropKeepsChans(s.(lateSend := SendsLate(s, d)), d, evict * s.disps[d].subs);
  }

  lemma GetKeepsChans(s: State, key: string)
    requires Chans(s.disps, s.closes)
    ensures var s' := GetDispatcher(s, key); Chans(s'.disps, s'.closes) && s'.lateSend == s.lateSend
  {
    NewDispKeepsChans(s.disps, s.closes, key);
  }

  lemma CloseSubKeepsChans(s: State, d: nat, sub: nat)
    requires Chans(s.disps, s.closes) && d < |s.disps|
    ensures Chans(CloseSub(s, d, sub).disps, CloseSub(s, d, sub).closes) && CloseSub(s, d, sub).lateSend == s.lateSend
  {
    if sub in s.disps[d].subs {
      DropKeepsChans(s, d, {sub});
    }
  }

  lemma StepKeepsChans(s: State, step: Step)
    requires Chans(s.disps, s.closes) && !s.lateSend
    ensures Chans(Apply(s, step).disps, Apply(s, step).closes) && !Apply(s, step).lateSend
  {
    match step {
      case GetOrCreate(key) => GetKeepsChans(s, key);
      case Do(task) => if task.d < |s.disps| { PerformKeepsChans(s, task); }
      case CloseSubscription(d, sub) => if d < |s.disps| { CloseSubKeepsChans(s, d, sub); }
      case FanOut(d, evict) =>
        if d < |s.disps| {
          FanKeepsChans(s, d, evict);
        }
      case CloseManager =>
    }
  }

  lemma {:induction false} RunChans(steps: seq<Step>)
    ensures Chans(Run(steps).disps, Run(steps).closes) && !Run(steps).lateSend
  {
    if steps != [] {
      RunChans(steps[..|steps| - 1]);
      StepKeepsChans(Run(steps[..|steps| - 1]), steps[|steps| - 1]);
    }
  }

  /** In every run no channel is closed twice or sent to after closing, exactly the registered
      ones are open, and `dropCounts` has the keys of `subscribers`. */
  lemma ChannelsClosedOnce(steps: seq<Step>, r: Ref)
    ensures var s := Run(steps);
            && !s.lateSend
            && (r in s.closes ==>
                  r.d < |s.disps| && s.closes[r] <= 1 && (s.closes[r] == 0 <==> r.sub in s.disps[r.d].subs))
            && (r.d < |s.disps| ==> s.disps[r.d].subs == s.disps[r.d].drops)
  {
    RunChans(steps);
    var s := Run(steps);
    if r in s.closes { assert ChanGood(s.disps, s.closes, r); }
    if r.d < |s.disps| { assert SubsGood(s.disps, s.closes, r.d); }
  }

  // ---------------------------------------------------------------------------
  // The manager's map
  // ---------------------------------------------------------------------------

  ghost predicate InMap(s: State, d: nat) {
    d < |s.disps| && s.disps[d].key in s.dispatchers && s.dispatchers[s.disps[d].key] == d
  }

  /** Stopping dispatcher `d` has begun or is about to. */
  ghost predicate Stopping(s: State, d: nat)
    requires d < |s.disps|
  {
    s.disps[d].stopBegun || CallStop(d) in s.tasks
  }

  /** The map holds exactly the dispatchers nobody is stopping. */
  ghost predicate MapInv(s: State) {
    && (forall key :: key in s.dispatchers ==> s.dispatchers[key] < |s.disps| && s.disps[s.dispatchers[key]].key == key)
    && (forall d :: 0 <= d < |s.disps| ==> (InMap(s, d) <==> !Stopping(s, d)))
    && (forall task :: task in s.tasks ==> task.d < |s.disps|)
    && (s.closed ==> s.dispatchers == map[])
  }

  lemma RemoveSameKeepsMap(s: State, task: Task)
    requires MapInv(s) && task in s.tasks && task.RemoveSame?
    ensures MapInv(Perform(s, task))
  {
    var s' := Perform(s, task);
    forall d | 0 <= d < |s'.disps| ensures InMap(s', d) <==> !Stopping(s', d) {
      assert InMap(s, d) <==> !Stopping(s, d);
    }
  }

  lemma CallStopKeepsMap(s: State, task: Task)
    requires MapInv(s) && task in s.tasks && task.CallStop?
    ensures MapInv(Perform(s, task))
  {
    var s' := Perform(s, task);
    assert s'.dispatchers == s.dispatchers && |s'.disps| == |s.disps|;
    forall d | 0 <= d < |s'.disps| ensures InMap(s', d) <==> !Stopping(s', d) {
      assert InMap(s, d) <==> !Stopping(s, d);
      assert InMap(s', d) <==> InMap(s, d);
    }
  }

  lemma SubsKeepMap(s: State, task: Task)
    requires MapInv(s) && task in s.tasks && (task.Register? || task.CloseSubs?)
    ensures MapInv(Perform(s, task))
  {
    var s' := Perform(s, task);
    assert s'.dispatchers == s.dispatchers && |s'.disps| == |s.disps|;
    forall d | 0 <= d < |s'.disps| ensures InMap(s', d) <==> !Stopping(s', d) {
      assert InMap(s, d) <==> !Stopping(s, d);
      assert InMap(s', d) <==> InMap(s, d);
    }
  }

  lemma PerformKeepsMap(s: State, task: Task)
    requires MapInv(s) && task in s.tasks
    ensures MapInv(Perform(s, task))
  {
    match task {
      case RemoveSame(_) => RemoveSameKeepsMap(s, task);
      case CallStop(_) => CallStopKeepsMap(s, task);
      case _ => SubsKeepMap(s, task);
    }
  }

  lemma CloseSubKeepsMap(s: State, d: nat, sub: nat)
    requires MapInv(s) && d < |s.disps|
    ensures MapInv(CloseSub(s, d, sub))
  {
    var s' := CloseSub(s, d, sub);
    forall e | 0 <= e < |s'.disps| ensures InMap(s', e) <==> !Stopping(s', e) {
      assert InMap(s, e) <==> !Stopping(s, e);
    }
  }

  lemma CreateKeepsMap(s: State, key: string)
    requires MapInv(s) && !s.closed
    ensures MapInv(GetDispatcher(s, key))
  {
    var s' := GetDispatcher(s, key);
    forall d | 0 <= d < |s'.disps| ensures InMap(s', d) <==> !Stopping(s', d) {
      if d < |s.disps| {
        assert InMap(s, d) <==> !Stopping(s, d);
      }
    }
  }

  lemma FanOutKeepsMap(s: State, d: nat, evict: set<nat>)
    requires MapInv(s) && d < |s.disps|
    ensures MapInv(Fan(s, d, evict))
  {
    var s' := Fan(s, d, evict);
    assert s'.dispatchers == s.dispatchers && s'.tasks == s.tasks && |s'.disps| == |s.disps|;
    forall e | 0 <= e < |s'.disps| ensures InMap(s', e) <==> !Stopping(s', e) {
      assert InMap(s, e) <==> !Stopping(s, e);
      assert s'.disps[e].key == s.disps[e].key && s'.disps[e].stopBegun == s.disps[e].stopBegun;
    }
  }

  lemma CloseKeepsMap(s: State)
    requires MapInv(s)
    ensures MapInv(CloseAll(s))
  {
    var s' := CloseAll(s);
    forall d | 0 <= d < |s'.disps| ensures InMap(s', d) <==> !Stopping(s', d) {
      assert InMap(s, d) <==> !Stopping(s, d);
      if InMap(s, d) {
        assert s.disps[d].key in s.dispatchers;
        assert CallStop(d) in s'.tasks;
      }
    }
  }

  lemma StepKeepsMap(s: State, step: Step)
    requires MapInv(s)
    ensures MapInv(Apply(s, step))
  {
    match step {
      case Do(task) => if task in s.tasks { PerformKeepsMap(s, task); }
      case CloseSubscription(d, sub) => if d < |s.disps| { CloseSubKeepsMap(s, d, sub); }
      case GetOrCreate(key) => if !s.closed { CreateKeepsMap(s, key); }
      case FanOut(d, evict) => if d < |s.disps| { FanOutKeepsMap(s, d, evict); }
      case CloseManager => CloseKeepsMap(s);
    }
  }

  lemma {:induction false} RunMap(steps: seq<Step>)
    ensures MapInv(Run(steps))
  {
    if steps != [] {
      RunMap(steps[..|steps| - 1]);
      StepKeepsMap(Run(steps[..|steps| - 1]), steps[|steps| - 1]);
    }
  }

  /** In every run a dispatcher is in the map, under its own key, exactly when its `stop` has
      neither begun nor been called: none in the map is stopped, none outside is leaked. */
  lemma InMapIffRunning(steps: seq<Step>, d: nat)
    requires d < |Run(steps).disps|
    ensures var s := Run(steps);
            && ((exists key :: key in s.dispatchers && s.dispatchers[key] == d)
                <==> !s.disps[d].stopBegun && CallStop(d) !in s.tasks)
  {
    RunMap(steps);
    assert InMap(Run(steps), d) <==> !Stopping(Run(steps), d);
  }

  ghost predicate Maps(s: State, key: string, d: nat) {
    key in s.dispatchers && s.dispatchers[key] == d
  }

  /** The two steps that may take dispatcher `d` out of the map. */
  predicate MayRemove(step: Step, d: nat) {
    step == CloseManager || step == Do(RemoveSame(d))
  }

  lemma PerformKeepsEntry(s: State, task: Task, key: string, d: nat)
    requires Maps(s, key, d) && task.d < |s.disps| && task != RemoveSame(d)
    ensures Maps(Perform(s, task), key, d)
  {
  }

  lemma CloseSubMap(s: State, d: nat, sub: nat)
    requires d < |s.disps|
    ensures CloseSub(s, d, sub).dispatchers == s.dispatchers
  {
  }

  lemma StepKeepsEntry(s: State, step: Step, key: string, d: nat)
    requires Maps(s, key, d) && !MayRemove(step, d)
    ensures Maps(Apply(s, step), key, d)
  {
    match step {
      case Do(task) => if task in s.tasks && task.d < |s.disps| { PerformKeepsEntry(s, task, key, d); }
      case CloseSubscription(e, sub) => if e < |s.disps| { CloseSubMap(s, e, sub); }
      case _ =>
    }
  }

  /** Only the manager's `Close` and a dispatcher's own `removeIfSame` ever take it out of the
      map: closing subscriptions of a predecessor, however late, never removes it. */
  lemma {:induction false} StaleCloseKeepsReplacement(s: State, more: seq<Step>, key: string, d: nat)
    requires Maps(s, key, d)
    requires forall i :: 0 <= i < |more| ==> !MayRemove(more[i], d)
    ensures Maps(RunFrom(s, more), key, d)
  {
    if more != [] {
      var pre := more[..|more| - 1];
      StaleCloseKeepsReplacement(s, pre, key, d);
      StepKeepsEntry(RunFrom(s, pre), more[|more| - 1], key, d);
    }
  }

  lemma StepStaysClosed(s: State, step: Step)
    requires s.closed && s.dispatchers == map[]
    ensures Apply(s, step).closed && Apply(s, step).dispatchers == map[]
  {
  }

  lemma {:induction false} StaysClosed(s: State, more: seq<Step>)
    requires s.closed && s.dispatchers == map[]
    ensures RunFrom(s, more).closed && RunFrom(s, more).dispatchers == map[]
  {
    if more != [] {
      var pre := more[..|more| - 1];
      StaysClosed(s, pre);
      StepStaysClosed(RunFrom(s, pre), more[|more| - 1]);
    }
  }

  /** Once the manager is closed its map is empty and stays so, whatever follows. */
  lemma ClosedMapStaysEmpty(steps: seq<Step>, more: seq<Step>)
    requires Run(steps).closed
    ensures RunFrom(Run(steps), more).dispatchers == map[]
  {
    RunMap(steps);
    StaysClosed(Run(steps), more);
  }
}
