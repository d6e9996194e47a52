/**
 Runs of one dispatcher: every interleaving of subscribes, closes, stops, receives,
 gate checks and fan-outs, for any consumer speed. Main results: the sizing theorem
 (exact in both directions), in-order delivery, and the bound on gaps.
 */
module DispatcherRuns {
  import opened Dispatcher

  /** `passed`: the reader has passed the backpressure gate and is reading, or about to
      fan out. `closed` holds channels whose consumers may still drain them. */
  datatype State = State(
    subs: map<nat, Sub>,
    closed: map<nat, Chan>,
    nextId: nat,
    fanned: seq<Event>,
    passed: bool,
    evicted: set<nat>)

  datatype Step =
    | Subscribe
    | Close(id: nat)
    | Stop
    | Receive(id: nat, n: nat)
    | Gate
    | ReadNothing
    | FanOut(events: seq<Event>, sched: Schedule)

  const INIT := State(map[], map[], 0, [], false, {})

  function ChansOf(subs: map<nat, Sub>): map<nat, Chan> {
    map id | id in subs :: subs[id].ch
  }

  predicate Backpressured(c: Config, subs: map<nat, Sub>) {
    exists id :: id in subs && |subs[id].ch.buffered| >= Threshold(c.buffer)
  }

  /** A step that is not enabled leaves the state as it is. */
  function Apply(c: Config, st: State, step: Step): State {
    match step
    case Subscribe =>
      st.(nextId := st.nextId + 1, subs := st.subs[st.nextId + 1 := Sub(NewChan(|st.fanned|), 0)])
    case Close(id) =>
      if id in st.subs then st.(subs := st.subs - {id}, closed := st.closed[id := st.subs[id].ch]) else st
    case Stop =>
      st.(subs := map[], closed := st.closed + ChansOf(st.subs))
    case Receive(id, n) =>
      if id in st.subs then st.(subs := st.subs[id := st.subs[id].(ch := Take(st.subs[id].ch, n))])
      else if id in st.closed then st.(closed := st.closed[id := Take(st.closed[id], n)])
      else st
    case Gate =>
      if Backpressured(c, st.subs) then st else st.(passed := true)
    case ReadNothing =>
      st.(passed := false)
    case FanOut(events, sched) =>
      if st.passed && 1 <= |events| <= c.readCount then
        State(KeptSubs(c.buffer, st.subs, events, sched),
              st.closed + EvictedChans(c.buffer, st.subs, events, sched),
              st.nextId,
              st.fanned + events,
              false,
              st.evicted + EvictedChans(c.buffer, st.subs, events, sched).Keys)
      else st
  }

  function Run(c: Config, steps: seq<Step>): State {
    if steps == [] then INIT
    else Apply(c, Run(c, steps[..|steps| - 1]), steps[|steps| - 1])
  }

  // ---------------------------------------------------------------------------
  // What the history of a channel must satisfy
  // ---------------------------------------------------------------------------

  /** The events whose outcome is `true`, in order. */
  function Select(events: seq<Event>, outcomes: seq<bool>): seq<Event>
    requires |events| == |outcomes|
  {
    if events == [] then []
    else
      var n := |events| - 1;
      Select(events[..n], outcomes[..n]) + (if outcomes[n] then [events[n]] else [])
  }

  /** Length of the run of misses at the end. */
  function Trailing(outcomes: seq<bool>): nat {
    if outcomes == [] || outcomes[|outcomes| - 1] then 0
    else 1 + Trailing(outcomes[..|outcomes| - 1])
  }

  /** Some offer among the `n` from position `i` on was accepted. */
  ghost predicate AcceptedIn(outcomes: seq<bool>, i: nat, n: nat)
    requires i + n <= |outcomes|
  {
    exists j :: i <= j < i + n && outcomes[j]
  }

  /** In every `n` offers in a row at least one was accepted. */
  ghost predicate NoGapOf(outcomes: seq<bool>, n: nat) {
    forall i: nat :: i + n <= |outcomes| ==> AcceptedIn(outcomes, i, n)
  }

  ghost predicate AllAccepted(outcomes: seq<bool>) {
    forall i :: 0 <= i < |outcomes| ==> outcomes[i]
  }

  /** Received plus buffered is an in-order subsequence of what was fanned out from
      the moment of subscribing to the moment of leaving. */
  ghost predicate InOrder(fanned: seq<Event>, ch: Chan) {
    && ch.since + |ch.outcomes| <= |fanned|
    && ch.received + ch.buffered == Select(fanned[ch.since..ch.since + |ch.outcomes|], ch.outcomes)
  }

  /** A subscriber that has been offered everything in `fanned` since it subscribed. */
  ghost predicate UpToDate(fanned: seq<Event>, s: Sub) {
    && s.ch.since + |s.ch.outcomes| == |fanned|
    && InOrder(fanned, s.ch)
    && s.drops == Trailing(s.ch.outcomes)
  }

  ghost predicate Registered(fanned: seq<Event>, s: Sub) {
    && UpToDate(fanned, s)
    && s.drops < MAX_CONSECUTIVE_DROPS
    && NoGapOf(s.ch.outcomes, MAX_CONSECUTIVE_DROPS)
  }

  ghost predicate Inv(c: Config, st: State) {
    && st.subs.Keys !! st.closed.Keys
    && (forall id :: id in st.subs ==> 0 < id <= st.nextId && Registered(st.fanned, st.subs[id]))
    && (forall id :: id in st.closed ==> 0 < id <= st.nextId && InOrder(st.fanned, st.closed[id]))
    && (st.passed ==> !Backpressured(c, st.subs))
  }

  // ---------------------------------------------------------------------------
  // One fan-out, one subscriber
  // ---------------------------------------------------------------------------

  lemma SelectSnoc(events: seq<Event>, outcomes: seq<bool>, e: Event, accepted: bool)
    requires |events| == |outcomes|
    ensures Select(events + [e], outcomes + [accepted]) == Select(events, outcomes) + if accepted then [e] else []
    ensures Trailing(outcomes + [accepted]) == if accepted then 0 else 1 + Trailing(outcomes)
  {
    assert (events + [e])[..|events|] == events && (outcomes + [accepted])[..|outcomes|] == outcomes;
  }

  lemma WindowSnoc(fanned: seq<Event>, since: nat, n: nat, e: Event)
    requires since + n == |fanned|
    ensures (fanned + [e])[since..since + (n + 1)] == fanned[since..since + n] + [e]
  {
  }

  /** One event offered, and accepted or not. */
  lemma OfferedInOrder(fanned: seq<Event>, ch: Chan, ch': Chan, e: Event, accepted: bool)
    requires InOrder(fanned, ch) && ch.since + |ch.outcomes| == |fanned|
    requires ch'.since == ch.since && ch'.outcomes == ch.outcomes + [accepted]
    requires ch'.received + ch'.buffered == ch.received + ch.buffered + if accepted then [e] else []
    ensures InOrder(fanned + [e], ch') && Trailing(ch'.outcomes) == if accepted then 0 else 1 + Trailing(ch.outcomes)
  {
    WindowSnoc(fanned, ch.since, |ch.outcomes|, e);
    SelectSnoc(fanned[ch.since..ch.since + |ch.outcomes|], ch.outcomes, e, accepted);
  }

  lemma SendUpToDate(buffer: nat, fanned: seq<Event>, s: Sub, e: Event, take: nat)
    requires UpToDate(fanned, s)
    ensures UpToDate(fanned + [e], Offer(buffer, s, e, take))
  {
    var t := Take(s.ch, take);
    TakeKeeps(fanned, s.ch, take);
    var s' := Offer(buffer, s, e, take);
    var accepted := |t.buffered| < buffer;
    assert accepted ==> t.received + (t.buffered + [e]) == t.received + t.buffered + [e];
    assert !accepted ==> t.received + t.buffered + [] == t.received + t.buffered;
    OfferedInOrder(fanned, t, s'.ch, e, accepted);
  }

  lemma PrefixSnoc(fanned: seq<Event>, events: seq<Event>, k: nat)
    requires 0 < k <= |events|
    ensures fanned + events[..k] == fanned + events[..k - 1] + [events[k - 1]]
  {
    assert events[..k] == events[..k - 1] + [events[k - 1]];
  }

  lemma {:induction false} OffersUpToDate(
    buffer: nat, fanned: seq<Event>, s: Sub, events: seq<Event>, takes: seq<nat>, k: nat)
    requires UpToDate(fanned, s) && k <= |events|
    ensures UpToDate(fanned + events[..k], OfferUpTo(buffer, s, events, takes, k))
  {
    if k == 0 {
      assert fanned + events[..0] == fanned;
    } else {
      var before, mid := fanned + events[..k - 1], OfferUpTo(buffer, s, events, takes, k - 1);
      OffersUpToDate(buffer, fanned, s, events, takes, k - 1);
      SendUpToDate(buffer, before, mid, events[k - 1], TakeAt(takes, k - 1));
      PrefixSnoc(fanned, events, k);
    }
  }

  lemma TrailingEndsWindow(outcomes: seq<bool>)
    ensures Trailing(outcomes) <= |outcomes|
    ensures Trailing(outcomes) < |outcomes| ==> outcomes[|outcomes| - 1 - Trailing(outcomes)]
  {
  }

  lemma GapExtends(outcomes: seq<bool>, accepted: bool, n: nat)
    requires NoGapOf(outcomes, n) && Trailing(outcomes + [accepted]) < n
    ensures NoGapOf(outcomes + [accepted], n)
  {
    var os := outcomes + [accepted];
    forall i: nat | i + n <= |os|
      ensures AcceptedIn(os, i, n)
    {
      if i + n <= |outcomes| {
        assert AcceptedIn(outcomes, i, n);
        var j :| i <= j < i + n && outcomes[j];
        assert os[j];
      } else {
        TrailingEndsWindow(os);
        assert os[|os| - 1 - Trailing(os)];
      }
    }
  }

  /** A subscriber that never reaches the drop limit never has eight misses in a row. */
  lemma {:induction false} OffersKeepGap(
    buffer: nat, fanned: seq<Event>, s: Sub, events: seq<Event>, takes: seq<nat>, k: nat)
    requires UpToDate(fanned, s) && NoGapOf(s.ch.outcomes, MAX_CONSECUTIVE_DROPS) && k <= |events|
    requires !Marked(buffer, s, events, takes, k)
    ensures NoGapOf(OfferUpTo(buffer, s, events, takes, k).ch.outcomes, MAX_CONSECUTIVE_DROPS)
  {
    if k > 0 {
      OffersKeepGap(buffer, fanned, s, events, takes, k - 1);
      OffersUpToDate(buffer, fanned, s, events, takes, k);
      var mid, end := OfferUpTo(buffer, s, events, takes, k - 1), OfferUpTo(buffer, s, events, takes, k);
      var accepted := end.ch.outcomes[|mid.ch.outcomes|];
      assert end.ch.outcomes == mid.ch.outcomes + [accepted];
      GapExtends(mid.ch.outcomes, accepted, MAX_CONSECUTIVE_DROPS);
    }
  }

  // ---------------------------------------------------------------------------
  // Every step keeps the invariant
  // ---------------------------------------------------------------------------

  /** One subscriber over a whole fan-out. */
  lemma FanOutOne(c: Config, fanned: seq<Event>, s: Sub, events: seq<Event>, takes: seq<nat>)
    requires Registered(fanned, s)
    ensures InOrder(fanned + events, After(c.buffer, s, events, takes).ch)
    ensures !Evicted(c.buffer, s, events, takes) ==> Registered(fanned + events, After(c.buffer, s, events, takes))
  {
    assert events[..|events|] == events;
    OffersUpToDate(c.buffer, fanned, s, events, takes, |events|);
    if !Evicted(c.buffer, s, events, takes) {
      OffersKeepGap(c.buffer, fanned, s, events, takes, |events|);
      NotMarkedBelowLimit(c.buffer, s, events, takes, |events|);
    }
  }

  lemma FanOutSubs(c: Config, st: State, events: seq<Event>, sched: Schedule)
    requires Inv(c, st)
    ensures forall id :: id in KeptSubs(c.buffer, st.subs, events, sched) ==>
              Registered(st.fanned + events, KeptSubs(c.buffer, st.subs, events, sched)[id])
    ensures forall id :: id in EvictedChans(c.buffer, st.subs, events, sched) ==>
              InOrder(st.fanned + events, EvictedChans(c.buffer, st.subs, events, sched)[id])
  {
    forall id | id in st.subs
      ensures InOrder(st.fanned + events, After(c.buffer, st.subs[id], events, TakesOf(sched, id)).ch)
      ensures !Evicted(c.buffer, st.subs[id], events, TakesOf(sched, id)) ==>
                Registered(st.fanned + events, After(c.buffer, st.subs[id], events, TakesOf(sched, id)))
    {
      FanOutOne(c, st.fanned, st.subs[id], events, TakesOf(sched, id));
    }
  }

  lemma FanOutKeeps(c: Config, st: State, events: seq<Event>, sched: Schedule)
    requires Inv(c, st) && st.passed && 1 <= |events| <= c.readCount
    ensures Inv(c, Apply(c, st, FanOut(events, sched)))
  {
    FanOutSubs(c, st, events, sched);
    forall id | id in st.closed
      ensures InOrder(st.fanned + events, st.closed[id])
    {
      InOrderMonotone(st.fanned, events, st.closed[id]);
    }
  }

  lemma NotMarkedBelowLimit(buffer: nat, s: Sub, events: seq<Event>, takes: seq<nat>, k: nat)
    requires k <= |events| && !Marked(buffer, s, events, takes, k) && s.drops < MAX_CONSECUTIVE_DROPS
    ensures OfferUpTo(buffer, s, events, takes, k).drops < MAX_CONSECUTIVE_DROPS
  {
  }

  lemma InOrderMonotone(fanned: seq<Event>, events: seq<Event>, ch: Chan)
    requires InOrder(fanned, ch)
    ensures InOrder(fanned + events, ch)
  {
    var end := ch.since + |ch.outcomes|;
    assert (fanned + events)[ch.since..end] == fanned[ch.since..end];
  }

  lemma SubscribeKeeps(c: Config, st: State)
    requires ValidConfig(c) && Inv(c, st)
    ensures Inv(c, Apply(c, st, Subscribe))
  {
    NewIsRegistered(st.fanned);
  }

  lemma NewIsRegistered(fanned: seq<Event>)
    ensures Registered(fanned, Sub(NewChan(|fanned|), 0))
  {
    assert fanned[|fanned|..|fanned|] == [];
  }

  lemma CloseKeeps(c: Config, st: State, id: nat)
    requires Inv(c, st)
    ensures Inv(c, Apply(c, st, Close(id)))
  {
  }

  lemma StopKeeps(c: Config, st: State)
    requires Inv(c, st)
    ensures Inv(c, Apply(c, st, Stop))
  {
  }

  lemma TakeKeeps(fanned: seq<Event>, ch: Chan, n: nat)
    requires InOrder(fanned, ch)
    ensures InOrder(fanned, Take(ch, n))
  {
    var t := Take(ch, n);
    assert t.received + t.buffered == ch.received + ch.buffered;
  }

  lemma ReceiveKeeps(c: Config, st: State, id: nat, n: nat)
    requires Inv(c, st)
    ensures Inv(c, Apply(c, st, Receive(id, n)))
  {
    if id in st.subs {
      TakeKeeps(st.fanned, st.subs[id].ch, n);
    } else if id in st.closed {
      TakeKeeps(st.fanned, st.closed[id], n);
    }
  }

  lemma StepKeeps(c: Config, st: State, step: Step)
    requires ValidConfig(c) && Inv(c, st)
    ensures Inv(c, Apply(c, st, step))
  {
    match step {
      case Subscribe => SubscribeKeeps(c, st);
      case Close(id) => CloseKeeps(c, st, id);
      case Stop => StopKeeps(c, st);
      case Receive(id, n) => ReceiveKeeps(c, st, id, n);
      case Gate =>
      case ReadNothing =>
      case FanOut(events, sched) =>
        if st.passed && 1 <= |events| <= c.readCount {
          FanOutKeeps(c, st, events, sched);
        }
    }
  }

  lemma {:induction false} RunInv(c: Config, steps: seq<Step>)
    requires ValidConfig(c)
    ensures Inv(c, Run(c, steps))
  {
    if steps != [] {
      RunInv(c, steps[..|steps| - 1]);
      StepKeeps(c, Run(c, steps[..|steps| - 1]), steps[|steps| - 1]);
    }
  }

  // ---------------------------------------------------------------------------
  // The sizing theorem
  // ---------------------------------------------------------------------------

  /** How many events of one fan-out are certain to fit. */
  function Room(c: Config): (m: nat)
    requires ValidConfig(c)
    ensures m >= 1
  {
    c.buffer - Threshold(c.buffer) + 1
  }

  /** Within one fan-out started below the threshold, drops begin only after `buffer - t + 1`
      events, however fast or slow the consumer is. */
  lemma {:induction false} OfferBound(buffer: nat, t: nat, s: Sub, events: seq<Event>, takes: seq<nat>, k: nat)
    requires |s.ch.buffered| < t <= buffer && 1 <= k <= |events|
    ensures var s' := OfferUpTo(buffer, s, events, takes, k);
            var m := buffer - t + 1;
            && |s'.ch.buffered| <= t - 1 + k
            && (k <= m ==> s'.drops == 0 && (AllAccepted(s.ch.outcomes) ==> AllAccepted(s'.ch.outcomes)))
            && (k >= m ==> s'.drops <= k - m)
  {
    if k > 1 {
      OfferBound(buffer, t, s, events, takes, k - 1);
    } else {
      assert OfferUpTo(buffer, s, events, takes, 0) == s;
    }
  }

  /** The first event of every fan-out is accepted by every registered subscriber, so no
      streak of drops spans two fan-outs. */
  lemma {:induction false} FirstOfferFits(c: Config, steps: seq<Step>, id: nat, e: Event, take: nat)
    requires ValidConfig(c) && Run(c, steps).passed && id in Run(c, steps).subs
    ensures var s := Run(c, steps).subs[id];
            var s' := Offer(c.buffer, s, e, take);
            s'.drops == 0 && s'.ch.outcomes == s.ch.outcomes + [true]
  {
    RunInv(c, steps);
  }

  ghost predicate NoDrops(st: State) {
    && (forall id :: id in st.subs ==> AllAccepted(st.subs[id].ch.outcomes))
    && (forall id :: id in st.closed ==> AllAccepted(st.closed[id].outcomes))
  }

  lemma {:induction false} NotMarked(c: Config, s: Sub, events: seq<Event>, takes: seq<nat>, k: nat)
    requires ValidConfig(c) && |s.ch.buffered| < Threshold(c.buffer) && k <= |events| <= Room(c) + 7
    ensures !Marked(c.buffer, s, events, takes, k)
  {
    if k > 0 {
      NotMarked(c, s, events, takes, k - 1);
      OfferBound(c.buffer, Threshold(c.buffer), s, events, takes, k);
    }
  }

  lemma {:induction false} NeverEvicts(c: Config, steps: seq<Step>)
    requires ValidConfig(c) && c.readCount <= Room(c) + 7
    ensures Run(c, steps).evicted == {}
  {
    if steps != [] {
      var pre, step := steps[..|steps| - 1], steps[|steps| - 1];
      NeverEvicts(c, pre);
      RunInv(c, pre);
      var st := Run(c, pre);
      if step.FanOut? && st.passed && 1 <= |step.events| <= c.readCount {
        forall id | id in st.subs
          ensures !Evicted(c.buffer, st.subs[id], step.events, TakesOf(step.sched, id))
        {
          NotMarked(c, st.subs[id], step.events, TakesOf(step.sched, id), |step.events|);
        }
        assert EvictedChans(c.buffer, st.subs, step.events, step.sched).Keys == {};
      }
    }
  }

  lemma FanOutDropsNothing(c: Config, st: State, events: seq<Event>, sched: Schedule)
    requires ValidConfig(c) && c.readCount <= Room(c) && Inv(c, st) && NoDrops(st)
    requires st.passed && 1 <= |events| <= c.readCount
    ensures NoDrops(Apply(c, st, FanOut(events, sched)))
  {
    forall id | id in st.subs
      ensures AllAccepted(After(c.buffer, st.subs[id], events, TakesOf(sched, id)).ch.outcomes)
    {
      OfferBound(c.buffer, Threshold(c.buffer), st.subs[id], events, TakesOf(sched, id), |events|);
    }
  }

  lemma StepDropsNothing(c: Config, st: State, step: Step)
    requires ValidConfig(c) && c.readCount <= Room(c) && Inv(c, st) && NoDrops(st)
    ensures NoDrops(Apply(c, st, step))
  {
    match step {
      case FanOut(events, sched) =>
        if st.passed && 1 <= |events| <= c.readCount {
          FanOutDropsNothing(c, st, events, sched);
        }
      case Receive(id, n) =>
      case _ =>
    }
  }

  lemma {:induction false} NeverDrops(c: Config, steps: seq<Step>)
    requires ValidConfig(c) && c.readCount <= Room(c)
    ensures NoDrops(Run(c, steps))
  {
    if steps != [] {
      var pre := steps[..|steps| - 1];
      NeverDrops(c, pre);
      RunInv(c, pre);
      StepDropsNothing(c, Run(c, pre), steps[|steps| - 1]);
    }
  }

  // ---------------------------------------------------------------------------
  // The bounds are exact: a slow consumer breaks any larger read count
  // ---------------------------------------------------------------------------

  const AN_EVENT := Event("0-1", "")

  function Burst(n: nat): seq<Event> {
    seq(n, i => AN_EVENT)
  }

  /** One subscriber that never reads, filled to `n` events one at a time. */
  function Fill(n: nat): seq<Step> {
    if n == 0 then [Subscribe] else Fill(n - 1) + [Gate] + [FanOut([AN_EVENT], map[])]
  }

  function Flood(c: Config): seq<Step> {
    Fill(Threshold(c.buffer) - 1) + [Gate] + [FanOut(Burst(c.readCount), map[])]
  }

  lemma RunSnoc(c: Config, steps: seq<Step>, step: Step)
    ensures Run(c, steps + [step]) == Apply(c, Run(c, steps), step)
  {
    assert (steps + [step])[..|steps|] == steps;
  }

  ghost predicate Filled(st: State, n: nat) {
    st.subs.Keys == {1} && |st.subs[1].ch.buffered| == n && st.subs[1].drops == 0 && st.evicted == {}
  }

  lemma RunTwo(c: Config, steps: seq<Step>, a: Step, b: Step)
    ensures Run(c, steps + [a] + [b]) == Apply(c, Apply(c, Run(c, steps), a), b)
  {
    RunSnoc(c, steps, a);
    RunSnoc(c, steps + [a], b);
  }

  lemma OneOffer(buffer: nat, s: Sub)
    requires |s.ch.buffered| < buffer && s.drops == 0
    ensures var s' := After(buffer, s, [AN_EVENT], []);
            |s'.ch.buffered| == |s.ch.buffered| + 1 && s'.drops == 0
    ensures !Evicted(buffer, s, [AN_EVENT], [])
  {
    assert OfferUpTo(buffer, s, [AN_EVENT], [], 0) == s;
    assert OfferUpTo(buffer, s, [AN_EVENT], [], 1) == Offer(buffer, s, AN_EVENT, 0);
    assert !Marked(buffer, s, [AN_EVENT], [], 0);
  }

  lemma FillOne(c: Config, st: State, n: nat)
    requires ValidConfig(c) && Filled(st, n) && n + 1 < Threshold(c.buffer)
    ensures Filled(Apply(c, st.(passed := true), FanOut([AN_EVENT], map[])), n + 1)
  {
    OneOffer(c.buffer, st.subs[1]);
    assert TakesOf(map[], 1) == [];
    assert KeptSubs(c.buffer, st.subs, [AN_EVENT], map[]).Keys == {1};
    assert EvictedChans(c.buffer, st.subs, [AN_EVENT], map[]).Keys == {};
  }

  lemma {:induction false} FillRun(c: Config, n: nat)
    requires ValidConfig(c) && n < Threshold(c.buffer)
    ensures Filled(Run(c, Fill(n)), n)
  {
    if n == 0 {
      RunSnoc(c, [], Subscribe);
      assert [] + [Subscribe] == Fill(0);
    } else {
      var st := Run(c, Fill(n - 1));
      FillRun(c, n - 1);
      RunTwo(c, Fill(n - 1), Gate, FanOut([AN_EVENT], map[]));
      GateOpens(c, st, n - 1);
      FillOne(c, st, n - 1);
    }
  }

  lemma {:induction false} FloodOffers(c: Config, s: Sub, k: nat)
    requires ValidConfig(c) && k <= c.readCount
    requires |s.ch.buffered| == Threshold(c.buffer) - 1 && s.drops == 0
    ensures var s' := OfferUpTo(c.buffer, s, Burst(c.readCount), [], k);
            && (k <= Room(c) ==> |s'.ch.buffered| == Threshold(c.buffer) - 1 + k && s'.drops == 0)
            && (k > Room(c) ==> |s'.ch.buffered| == c.buffer && s'.drops == k - Room(c) && false in s'.ch.outcomes)
  {
    if k > 0 {
      FloodOffers(c, s, k - 1);
    }
  }

  lemma GateOpens(c: Config, st: State, n: nat)
    requires Filled(st, n) && n < Threshold(c.buffer)
    ensures Apply(c, st, Gate) == st.(passed := true)
  {
  }

  lemma FloodRun(c: Config) returns (gated: State)
    requires ValidConfig(c)
    ensures gated.passed && Filled(gated, Threshold(c.buffer) - 1)
    ensures Run(c, Flood(c)) == Apply(c, gated, FanOut(Burst(c.readCount), map[]))
  {
    var n := Threshold(c.buffer) - 1;
    FillRun(c, n);
    RunTwo(c, Fill(n), Gate, FanOut(Burst(c.readCount), map[]));
    GateOpens(c, Run(c, Fill(n)), n);
    gated := Run(c, Fill(n)).(passed := true);
  }

  lemma FloodLoses(c: Config)
    requires ValidConfig(c)
    ensures c.readCount > Room(c) ==> !NoDrops(Run(c, Flood(c)))
    ensures c.readCount > Room(c) + 7 ==> Run(c, Flood(c)).evicted != {}
  {
    var gated := FloodRun(c);
    var s, events, end := gated.subs[1], Burst(c.readCount), Run(c, Flood(c));
    FloodOffers(c, s, c.readCount);
    assert TakesOf(map[], 1) == [];
    var ch := After(c.buffer, s, events, []).ch;
    if Evicted(c.buffer, s, events, []) {
      assert 1 in end.closed && end.closed[1] == ch;
    } else {
      assert 1 in end.subs && end.subs[1].ch == ch;
    }
    assert c.readCount > Room(c) + 7 ==> 1 in EvictedChans(c.buffer, gated.subs, events, map[]);
  }

  /** The sizing theorem, both ways: no run loses an event exactly when one read fits above
      the threshold, and no run evicts exactly when it overshoots by at most seven. */
  lemma SizingExact(c: Config)
    requires ValidConfig(c)
    ensures (forall steps :: NoDrops(Run(c, steps))) <==> c.readCount <= Room(c)
    ensures (forall steps :: Run(c, steps).evicted == {}) <==> c.readCount <= Room(c) + 7
  {
    FloodLoses(c);
    if c.readCount <= Room(c) {
      forall steps ensures NoDrops(Run(c, steps)) { NeverDrops(c, steps); }
    }
    if c.readCount <= Room(c) + 7 {
      forall steps ensures Run(c, steps).evicted == {} { NeverEvicts(c, steps); }
    }
  }

  /** The shipped defaults (buffer 256, read count 100) are outside both bounds: 27 and 34. */
  lemma DefaultsCanEvict()
    ensures Room(Config(256, 100)) == 27
    ensures !(forall steps :: Run(Config(256, 100), steps).evicted == {})
  {
    SizingExact(Config(256, 100));
  }

  /** Delivery order and gaps, for every run: each consumer's received and buffered events
      are an in-order selection of what was fanned out while it was registered, and a
      registered subscriber has never missed eight in a row. */
  lemma DeliveryInOrder(c: Config, steps: seq<Step>, id: nat)
    requires ValidConfig(c)
    ensures var st := Run(c, steps);
            && (id in st.subs ==>
                  && InOrder(st.fanned, st.subs[id].ch)
                  && st.subs[id].ch.since + |st.subs[id].ch.outcomes| == |st.fanned|
                  && st.subs[id].drops < MAX_CONSECUTIVE_DROPS
                  && NoGapOf(st.subs[id].ch.outcomes, MAX_CONSECUTIVE_DROPS))
            && (id in st.closed ==> id !in st.subs && InOrder(st.fanned, st.closed[id]))
  {
    RunInv(c, steps);
  }
}
