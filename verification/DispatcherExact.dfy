/**
 Exactly what one offer, one fan-out and one step of a dispatcher do to a subscriber's channel
 (internal/service/dispatcher.go).
 */
module DispatcherExact {
  import opened Dispatcher
  import opened DispatcherRuns

  // ---------------------------------------------------------------------------
  // One channel
  // ---------------------------------------------------------------------------

  /** Receiving takes the oldest buffered events, as many as asked for or are there. */
  lemma TakeExactly(ch: Chan, n: nat)
    ensures var t := Take(ch, n);
            && t.received + t.buffered == ch.received + ch.buffered
            && |t.received| == |ch.received| + (if n <= |ch.buffered| then n else |ch.buffered|)
            && t.since == ch.since && t.outcomes == ch.outcomes
  {
  }

  /** A non-blocking send: with room the event goes to the end of the buffer and the streak ends;
      without room it is dropped and the streak grows. */
  lemma SendExactly(buffer: nat, s: Sub, e: Event)
    ensures var s' := Send(buffer, s, e);
            && s'.ch.received == s.ch.received && s'.ch.since == s.ch.since
            && (|s.ch.buffered| < buffer ==>
                  s'.ch.buffered == s.ch.buffered + [e] && s'.drops == 0 && s'.ch.outcomes == s.ch.outcomes + [true])
            && (|s.ch.buffered| >= buffer ==>
                  s'.ch.buffered == s.ch.buffered && s'.drops == s.drops + 1 &&
                  s'.ch.outcomes == s.ch.outcomes + [false])
  {
  }

  /** Each event of a fan-out is offered after the consumer has taken what its schedule says. */
  lemma OfferNextExactly(buffer: nat, s: Sub, events: seq<Event>, takes: seq<nat>, k: nat)
    requires k < |events|
    ensures var before, after := OfferUpTo(buffer, s, events, takes, k), OfferUpTo(buffer, s, events, takes, k + 1);
            var take := if k < |takes| then takes[k] else 0;
            var left := if take <= |before.ch.buffered| then |before.ch.buffered| - take else 0;
            && |after.ch.received| == |before.ch.received| + |before.ch.buffered| - left
            && after.ch.outcomes == before.ch.outcomes + [left < buffer]
            && (left < buffer ==>
                  after.ch.received + after.ch.buffered == before.ch.received + before.ch.buffered + [events[k]])
            && (left >= buffer ==>
                  after.ch.received + after.ch.buffered == before.ch.received + before.ch.buffered)
    ensures OfferUpTo(buffer, s, events, takes, 0) == s
  {
    var before := OfferUpTo(buffer, s, events, takes, k);
    var t := Take(before.ch, TakeAt(takes, k));
    TakeExactly(before.ch, TakeAt(takes, k));
    assert |t.received| + |t.buffered| == |before.ch.received + before.ch.buffered|;
    assert t.received + (t.buffered + [events[k]]) == t.received + t.buffered + [events[k]];
  }

  /** A subscriber is marked for removal exactly when its streak reached eight at some point of
      the fan-out, whatever happened afterwards. */
  lemma {:induction false} MarkedExactly(buffer: nat, s: Sub, events: seq<Event>, takes: seq<nat>, k: nat)
    requires k <= |events|
    ensures Marked(buffer, s, events, takes, k) <==> exists m :: StreakAt(buffer, s, events, takes, k, m)
  {
    if k > 0 {
      var pre := k - 1;
      MarkedExactly(buffer, s, events, takes, pre);
      var now := OfferUpTo(buffer, s, events, takes, k).drops >= 8;
      forall m: int
        ensures StreakAt(buffer, s, events, takes, k, m) <==>
                StreakAt(buffer, s, events, takes, pre, m) || (m == k && now)
      {
      }
      assert now ==> StreakAt(buffer, s, events, takes, k, k);
    }
  }

  /** After `m` of the first `k` events the streak was eight or more. */
  ghost predicate StreakAt(buffer: nat, s: Sub, events: seq<Event>, takes: seq<nat>, k: nat, m: int) {
    k <= |events| && 1 <= m <= k && OfferUpTo(buffer, s, events, takes, m).drops >= 8
  }

  /** The channel never holds more than it was made for. */
  lemma {:induction false} OffersFit(buffer: nat, s: Sub, events: seq<Event>, takes: seq<nat>, k: nat)
    requires k <= |events| && |s.ch.buffered| <= buffer
    ensures |OfferUpTo(buffer, s, events, takes, k).ch.buffered| <= buffer
  {
    if k > 0 {
      OffersFit(buffer, s, events, takes, k - 1);
    }
  }

  // ---------------------------------------------------------------------------
  // One step
  // ---------------------------------------------------------------------------

  ghost predicate IsMarked(c: Config, s: Sub, events: seq<Event>, takes: seq<nat>) {
    exists m :: StreakAt(c.buffer, s, events, takes, |events|, m)
  }

  /** Who a fan-out keeps and who leaves. */
  lemma FanOutSplits(c: Config, subs: map<nat, Sub>, events: seq<Event>, sched: Schedule, id: nat)
    ensures var kept, gone := KeptSubs(c.buffer, subs, events, sched), EvictedChans(c.buffer, subs, events, sched);
            && (id in kept <==> id in subs && !IsMarked(c, subs[id], events, TakesOf(sched, id)))
            && (id in gone <==> id in subs && IsMarked(c, subs[id], events, TakesOf(sched, id)))
            && (id in kept ==> kept[id] == OfferUpTo(c.buffer, subs[id], events, TakesOf(sched, id), |events|))
            && (id in gone ==> gone[id] == OfferUpTo(c.buffer, subs[id], events, TakesOf(sched, id), |events|).ch)
  {
    if id in subs {
      MarkedExactly(c.buffer, subs[id], events, TakesOf(sched, id), |events|);
    }
  }

  /** A fan-out offers all its events to every registered subscriber; exactly the marked ones
      leave, keeping their channels readable, and nobody else's channel changes. */
  lemma FanOutExactly(c: Config, st: State, events: seq<Event>, sched: Schedule, id: nat)
    requires Inv(c, st) && st.passed && 1 <= |events| <= c.readCount
    ensures var st' := Apply(c, st, FanOut(events, sched));
            && st'.fanned == st.fanned + events && !st'.passed && st'.nextId == st.nextId
            && (id in st.subs ==>
                  var takes := TakesOf(sched, id);
                  var after := OfferUpTo(c.buffer, st.subs[id], events, takes, |events|);
                  if IsMarked(c, st.subs[id], events, takes)
                  then id !in st'.subs && id in st'.evicted && id in st'.closed && st'.closed[id] == after.ch
                  else id in st'.subs && st'.subs[id] == after)
            && (id !in st.subs ==> id !in st'.subs && (id in st'.evicted <==> id in st.evicted))
            && (id in st.closed ==> id in st'.closed && st'.closed[id] == st.closed[id])
  {
    FanOutSplits(c, st.subs, events, sched, id);
  }

  /** Closing: the channel stays readable as it was, and no other subscriber is touched. */
  lemma CloseExactly(c: Config, st: State, id: nat, other: nat)
    requires Inv(c, st)
    ensures var st' := Apply(c, st, Close(id));
            && id !in st'.subs && (id in st.subs ==> id in st'.closed && st'.closed[id] == st.subs[id].ch)
            && (other != id && other in st.subs ==> other in st'.subs && st'.subs[other] == st.subs[other])
  {
  }

  lemma StopExactly(c: Config, st: State, id: nat)
    requires Inv(c, st)
    ensures var st' := Apply(c, st, Stop);
            st'.subs == map[] && (id in st.subs ==> id in st'.closed && st'.closed[id] == st.subs[id].ch)
  {
  }

  /** Receiving works on registered and on closed channels, and on the one asked for only. */
  lemma ReceiveExactly(c: Config, st: State, id: nat, other: nat, n: nat)
    requires Inv(c, st)
    ensures var st' := Apply(c, st, Receive(id, n));
            && (id in st.subs ==> id in st'.subs && st'.subs[id] == Sub(Take(st.subs[id].ch, n), st.subs[id].drops))
            && (id in st.closed ==> id in st'.closed && st'.closed[id] == Take(st.closed[id], n))
            && (other != id && other in st.subs ==> other in st'.subs && st'.subs[other] == st.subs[other])
  {
  }

  /** The gate opens exactly when every registered channel is below the threshold. */
  lemma GateExactly(c: Config, st: State)
    ensures var st' := Apply(c, st, Gate);
            st' == if forall id :: id in st.subs ==> |st.subs[id].ch.buffered| < Threshold(c.buffer)
                   then st.(passed := true) else st
    ensures Apply(c, st, ReadNothing) == st.(passed := false)
  {
  }

  /** A subscriber starts with a fresh ID, an empty channel and no drops. */
  lemma SubscribeExactly(c: Config, st: State)
    requires Inv(c, st)
    ensures var st', id := Apply(c, st, Subscribe), st.nextId + 1;
            && id !in st.subs && id !in st.closed && st'.nextId == id
            && st'.subs == st.subs[id := Sub(Chan([], [], |st.fanned|, []), 0)] && st'.closed == st.closed
  {
  }

  // ---------------------------------------------------------------------------
  // Over all runs
  // ---------------------------------------------------------------------------

  ghost predicate NoneLost(st: State) {
    forall id: nat :: 0 < id <= st.nextId <==> id in st.subs || id in st.closed
  }

  lemma StepLosesNone(c: Config, st: State, step: Step)
    requires Inv(c, st) && NoneLost(st)
    ensures NoneLost(Apply(c, st, step))
  {
  }

  /** Every subscriber ever made is registered or has a closed channel its consumer can still
      drain. */
  lemma {:induction false} NoChannelLost(c: Config, steps: seq<Step>)
    requires ValidConfig(c)
    ensures NoneLost(Run(c, steps))
  {
    if steps != [] {
      NoChannelLost(c, steps[..|steps| - 1]);
      RunInv(c, steps[..|steps| - 1]);
      StepLosesNone(c, Run(c, steps[..|steps| - 1]), steps[|steps| - 1]);
    }
  }

  ghost predicate AllFit(c: Config, st: State) {
    forall id :: id in st.subs ==> |st.subs[id].ch.buffered| <= c.buffer
  }

  lemma StepFits(c: Config, st: State, step: Step)
    requires AllFit(c, st) && ValidConfig(c)
    ensures AllFit(c, Apply(c, st, step))
  {
    match step {
      case FanOut(events, sched) =>
        forall id | id in st.subs
          ensures |After(c.buffer, st.subs[id], events, TakesOf(sched, id)).ch.buffered| <= c.buffer
        {
          OffersFit(c.buffer, st.subs[id], events, TakesOf(sched, id), |events|);
        }
      case _ =>
    }
  }

  /** In every run no channel holds more than the buffer size. */
  lemma {:induction false} ChannelsFit(c: Config, steps: seq<Step>)
    requires ValidConfig(c)
    ensures AllFit(c, Run(c, steps))
  {
    if steps != [] {
      ChannelsFit(c, steps[..|steps| - 1]);
      StepFits(c, Run(c, steps[..|steps| - 1]), steps[|steps| - 1]);
    }
  }
}
