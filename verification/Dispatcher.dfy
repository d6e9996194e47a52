/**
 The stream dispatcher's fan-out: one reader, bounded subscriber channels, a
 backpressure gate, drop streaks and eviction (internal/service/dispatcher.go).

 The module has three layers: what one offer does to one subscriber, the class
 whose loops offer every event to every subscriber, and a state machine over
 subscribe / close / stop / receive / gate / fan-out steps. Consumers receive
 without taking the dispatcher's lock, so receives may fall between any two
 sends of a fan-out; a `Schedule` says how many events each consumer takes just
 before each offer, and every theorem quantifies over all schedules.
 */
module Dispatcher {

  datatype Event = Event(entryId: string, payload: string)

  const MAX_CONSECUTIVE_DROPS: nat := 8

  /** `DispatcherSubscriberBuffer` and the dispatcher's XREADGROUP count. */
  datatype Config = Config(buffer: nat, readCount: nat)

  ghost predicate ValidConfig(c: Config) {
    c.buffer > 0 && c.readCount > 0
  }

  /** 90% of the buffer, rounded down, at least 1. */
  function Threshold(buffer: nat): (t: nat)
    ensures 1 <= t
    ensures buffer > 0 ==> t <= buffer
  {
    var t := buffer * 9 / 10;
    if t <= 0 then 1 else t
  }

  lemma ThresholdIsFloor(buffer: nat)
    ensures Threshold(buffer) == 1 || 10 * Threshold(buffer) <= 9 * buffer
    ensures 9 * buffer < 10 * (Threshold(buffer) + 1)
  {
  }

  // ---------------------------------------------------------------------------
  // One subscriber
  // ---------------------------------------------------------------------------

  /** A subscriber's channel with its history: what the consumer has taken, what
      is still buffered, how many events had been fanned out when it subscribed,
      and for each event offered since whether it was accepted. */
  datatype Chan = Chan(received: seq<Event>, buffered: seq<Event>, since: nat, outcomes: seq<bool>)

  datatype Sub = Sub(ch: Chan, drops: nat)

  /** Subscriber id -> how many events its consumer takes before each offer. */
  type Schedule = map<nat, seq<nat>>

  function TakesOf(sched: Schedule, id: nat): seq<nat> {
    if id in sched then sched[id] else []
  }

  function TakeAt(takes: seq<nat>, k: nat): nat {
    if k < |takes| then takes[k] else 0
  }

  /** The consumer receives up to `n` buffered events. */
  function Take(ch: Chan, n: nat): Chan {
    var k := if n <= |ch.buffered| then n else |ch.buffered|;
    ch.(received := ch.received + ch.buffered[..k], buffered := ch.buffered[k..])
  }

  /** A non-blocking send: accepted when there is room (streak reset), dropped otherwise. */
  function Send(buffer: nat, s: Sub, e: Event): Sub {
    if |s.ch.buffered| < buffer then
      Sub(s.ch.(buffered := s.ch.buffered + [e], outcomes := s.ch.outcomes + [true]), 0)
    else
      Sub(s.ch.(outcomes := s.ch.outcomes + [false]), s.drops + 1)
  }

  function Offer(buffer: nat, s: Sub, e: Event, take: nat): Sub {
    Send(buffer, s.(ch := Take(s.ch, take)), e)
  }

  /** The subscriber after the first `k` events of a fan-out. */
  function OfferUpTo(buffer: nat, s: Sub, events: seq<Event>, takes: seq<nat>, k: nat): Sub
    requires k <= |events|
  {
    if k == 0 then s
    else Offer(buffer, OfferUpTo(buffer, s, events, takes, k - 1), events[k - 1], TakeAt(takes, k - 1))
  }

  /** The subscriber reached the drop limit at some point of the first `k` offers;
      a later accepted event does not take it off the removal list. */
  predicate Marked(buffer: nat, s: Sub, events: seq<Event>, takes: seq<nat>, k: nat)
    requires k <= |events|
  {
    k > 0 &&
    (Marked(buffer, s, events, takes, k - 1) ||
     OfferUpTo(buffer, s, events, takes, k).drops >= MAX_CONSECUTIVE_DROPS)
  }

  function After(buffer: nat, s: Sub, events: seq<Event>, takes: seq<nat>): Sub {
    OfferUpTo(buffer, s, events, takes, |events|)
  }

  predicate Evicted(buffer: nat, s: Sub, events: seq<Event>, takes: seq<nat>) {
    Marked(buffer, s, events, takes, |events|)
  }

  // ---------------------------------------------------------------------------
  // The whole fan-out, per subscriber
  // ---------------------------------------------------------------------------

  function KeptSubs(buffer: nat, subs: map<nat, Sub>, events: seq<Event>, sched: Schedule): map<nat, Sub> {
    map id | id in subs && !Evicted(buffer, subs[id], events, TakesOf(sched, id)) ::
      After(buffer, subs[id], events, TakesOf(sched, id))
  }

  function EvictedChans(buffer: nat, subs: map<nat, Sub>, events: seq<Event>, sched: Schedule): map<nat, Chan> {
    map id | id in subs && Evicted(buffer, subs[id], events, TakesOf(sched, id)) ::
      After(buffer, subs[id], events, TakesOf(sched, id)).ch
  }

  function Join(chans: map<nat, Chan>, drops: map<nat, nat>): map<nat, Sub>
    requires chans.Keys == drops.Keys
  {
    map id | id in chans :: Sub(chans[id], drops[id])
  }

  /** `streamDispatcher`: the two maps guarded by `subscribersMu`, and the channels
      already closed (still readable by their consumers). */
  class StreamDispatcher {
    const buffer: nat
    var subscribers: map<nat, Chan>
    var dropCounts: map<nat, nat>
    var closedChannels: map<nat, Chan>
    var nextSubID: nat
    var stopped: bool
    var fanned: seq<Event>  // every event fanned out so far, in order

    ghost predicate Valid()
      reads this
    {
      && buffer > 0
      && subscribers.Keys == dropCounts.Keys
      && subscribers.Keys !! closedChannels.Keys
      && (forall id :: id in subscribers ==> 0 < id <= nextSubID)
      && (forall id :: id in closedChannels ==> 0 < id <= nextSubID)
    }

    ghost function Subs(): map<nat, Sub>
      reads this
      requires Valid()
    {
      Join(subscribers, dropCounts)
    }

    constructor (buffer: nat)
      requires buffer > 0
      ensures Valid() && Subs() == map[] && closedChannels == map[] && fanned == [] && !stopped
      ensures this.buffer == buffer
    {
      this.buffer := buffer;
      subscribers, dropCounts, closedChannels := map[], map[], map[];
      nextSubID, stopped, fanned := 0, false, [];
    }

    /** Takes a registered subscriber out of both maps and closes its channel. Closing a
        channel twice would panic; the precondition and `Valid` rule that out at every call. */
    method Unregister(id: nat)
      requires Valid() && id in subscribers
      modifies this`subscribers, this`dropCounts, this`closedChannels
      ensures Valid()
      ensures subscribers == old(subscribers) - {id}
      ensures dropCounts == old(dropCounts) - {id}
      ensures closedChannels == old(closedChannels)[id := old(subscribers)[id]]
    {
      assert id !in closedChannels;
      closedChannels := closedChannels[id := subscribers[id]];
      subscribers := subscribers - {id};
      dropCounts := dropCounts - {id};
    }

    method Subscribe() returns (id: nat)
      requires Valid()
      modifies this`nextSubID, this`subscribers, this`dropCounts
      ensures Valid()
      ensures id == old(nextSubID) + 1 == nextSubID
      ensures id !in old(subscribers) && id !in closedChannels
      ensures Subs() == old(Subs())[id := Sub(Chan([], [], |fanned|, []), 0)]
    {
      nextSubID := nextSubID + 1;
      id := nextSubID;

      var ch := NewChan(|fanned|);
      subscribers := subscribers[id := ch];
      dropCounts := dropCounts[id := 0];
    }

    /** Returns whether the dispatcher is now idle, in which case the caller goes on
        to `removeIfSame` and `stop`. */
    method RemoveSubscriber(id: nat) returns (idle: bool)
      requires Valid()
      modifies this`subscribers, this`dropCounts, this`closedChannels
      ensures Valid()
      ensures Subs() == old(Subs()) - {id}
      ensures closedChannels ==
              if id in old(subscribers) then old(closedChannels)[id := old(subscribers[id])] else old(closedChannels)
      ensures idle <==> subscribers == map[]
    {
      if id in subscribers {
        Unregister(id);
      }
      idle := |subscribers| == 0;
    }

    /** `stop`: the first call closes every registered channel, later calls do nothing. */
    method Stop()
      requires Valid()
      modifies this`subscribers, this`dropCounts, this`closedChannels, this`stopped
      ensures Valid() && stopped
      ensures old(stopped) ==> Subs() == old(Subs()) && closedChannels == old(closedChannels)
      ensures !old(stopped) ==> Subs() == map[] && closedChannels == old(closedChannels) + old(subscribers)
      ensures !old(stopped) ==> subscribers == map[]
    {
      if stopped {
        return;
      }
      stopped := true;
      ghost var gone: set<nat> := {};
      while subscribers != map[]
        invariant Valid() && stopped
        invariant Split(old(subscribers), old(dropCounts), old(closedChannels),
                        subscribers, dropCounts, closedChannels, gone)
        decreases subscribers.Keys
      {
        var id :| id in subscribers;
        SplitStep(old(subscribers), old(dropCounts), old(closedChannels),
                  subscribers, dropCounts, closedChannels, gone, id);
        Unregister(id);
        gone := gone + {id};
      }
      SplitEnd(old(subscribers), old(dropCounts), old(closedChannels),
               subscribers, dropCounts, closedChannels, gone);
    }

    /** `subscribersBackpressured`: some registered channel is at or over the threshold. */
    method SubscribersBackpressured() returns (held: bool)
      requires Valid()
      ensures held <==> exists id :: id in subscribers && |subscribers[id].buffered| >= Threshold(buffer)
    {
      var todo := subscribers.Keys;
      while todo != {}
        invariant todo <= subscribers.Keys
        invariant forall id :: id in subscribers && id !in todo ==> |subscribers[id].buffered| < Threshold(buffer)
        decreases |todo|
      {
        var id :| id in todo;
        if |subscribers[id].buffered| >= Threshold(buffer) {
          return true;
        }
        todo := todo - {id};
      }
      return false;
    }

    /** `fanOut`: events outside, subscribers inside (in whatever order the map yields
        them), then the removal list, which may name a subscriber more than once.
        The result is the per-subscriber meaning: each one sees the events in order. */
    method FanOut(events: seq<Event>, sched: Schedule)
      requires Valid()
      modifies this`subscribers, this`dropCounts, this`closedChannels, this`fanned
      ensures Valid()
      ensures Subs() == KeptSubs(buffer, old(Subs()), events, sched)
      ensures closedChannels == old(closedChannels) + EvictedChans(buffer, old(Subs()), events, sched)
      ensures fanned == old(fanned) + events
    {
      ghost var s0 := Subs();
      var removeSubscribers: seq<nat> := [];
      AllAtStart(buffer, subscribers, dropCounts, events, sched);
      for k := 0 to |events|
        invariant Valid() && subscribers.Keys == s0.Keys
        invariant closedChannels == old(closedChannels) && fanned == old(fanned)
        invariant AllAt(buffer, subscribers, dropCounts, removeSubscribers, s0, events, sched, k)
      {
        ghost var chans, drops, removals := subscribers, dropCounts, removeSubscribers;
        removeSubscribers := OfferToAll(events[k], sched, k, removeSubscribers);
        AllAtNext(buffer, chans, drops, removals, subscribers, dropCounts, removeSubscribers, s0, events, sched, k);
      }
      EvictAll(removeSubscribers, events, sched, s0);
      fanned := fanned + events;
    }

    /** One event offered to every registered subscriber. */
    method OfferToAll(e: Event, sched: Schedule, k: nat, removals: seq<nat>) returns (removals': seq<nat>)
      requires Valid()
      modifies this`subscribers, this`dropCounts
      ensures Valid() && subscribers.Keys == old(subscribers).Keys
      ensures OfferedTo(buffer, old(subscribers), old(dropCounts), subscribers, dropCounts,
                        subscribers.Keys, e, sched, k)
      ensures ListedBy(removals, removals', dropCounts, subscribers.Keys)
    {
      removals' := removals;
      var todo := subscribers.Keys;
      ghost var done: set<nat> := {};
      while todo != {}
        invariant Valid() && subscribers.Keys == old(subscribers).Keys == done + todo && done !! todo
        invariant OfferedTo(buffer, old(subscribers), old(dropCounts), subscribers, dropCounts, done, e, sched, k)
        invariant ListedBy(removals, removals', dropCounts, done)
        decreases todo
      {
        var id :| id in todo;
        ghost var chans, drops, listed := subscribers, dropCounts, removals';
        var evict := OfferTo(id, e, TakeAt(TakesOf(sched, id), k));
        if evict {
          removals' := removals' + [id];
        }
        OfferedStep(buffer, old(subscribers), old(dropCounts), chans, drops, subscribers, dropCounts,
                    removals, listed, removals', done, e, sched, k, id);
        todo := todo - {id};
        done := done + {id};
      }
    }

    /** The inner select of `fanOut`; returns whether the drop limit is reached. */
    method OfferTo(id: nat, e: Event, take: nat) returns (evict: bool)
      requires Valid() && id in subscribers
      modifies this`subscribers, this`dropCounts
      ensures Valid()
      ensures var s := Offer(buffer, Sub(old(subscribers)[id], old(dropCounts)[id]), e, take);
              && subscribers == old(subscribers)[id := s.ch]
              && dropCounts == old(dropCounts)[id := s.drops]
              && evict == (s.drops >= MAX_CONSECUTIVE_DROPS)
    {
      evict := false;
      var ch := Take(subscribers[id], take);
      if |ch.buffered| < buffer {
        subscribers := subscribers[id := ch.(buffered := ch.buffered + [e], outcomes := ch.outcomes + [true])];
        dropCounts := dropCounts[id := 0];
      } else {
        subscribers := subscribers[id := ch.(outcomes := ch.outcomes + [false])];
        dropCounts := dropCounts[id := dropCounts[id] + 1];
        evict := dropCounts[id] >= MAX_CONSECUTIVE_DROPS;
      }
    }

    /** The removal loop: each listed subscriber still registered is dropped and closed once. */
    method EvictAll(removals: seq<nat>, events: seq<Event>, sched: Schedule, ghost s0: map<nat, Sub>)
      requires Valid() && subscribers.Keys == s0.Keys
      requires AllAt(buffer, subscribers, dropCounts, removals, s0, events, sched, |events|)
      modifies this`subscribers, this`dropCounts, this`closedChannels
      ensures Valid()
      ensures Subs() == KeptSubs(buffer, s0, events, sched)
      ensures closedChannels == old(closedChannels) + EvictedChans(buffer, s0, events, sched)
    {
      ghost var gone: set<nat> := {};
      for i := 0 to |removals|
        invariant Valid()
        invariant forall id :: id in removals[..i] <==> id in gone
        invariant Split(old(subscribers), old(dropCounts), old(closedChannels),
                        subscribers, dropCounts, closedChannels, gone)
      {
        var id := removals[i];
        assert removals[..i + 1] == removals[..i] + [id];
        assert id in removals;
        if id in subscribers {
          SplitStep(old(subscribers), old(dropCounts), old(closedChannels),
                    subscribers, dropCounts, closedChannels, gone, id);
          Unregister(id);
          gone := gone + {id};
        }
      }
      assert removals[..|removals|] == removals;
      FanOutResult(buffer, old(subscribers), old(dropCounts), old(closedChannels),
                   subscribers, dropCounts, closedChannels, gone, removals, s0, events, sched);
    }
  }

  /** Removing `gone` from the two maps and closing its channels, and nothing else. */
  ghost predicate Split(chans0: map<nat, Chan>, drops0: map<nat, nat>, closed0: map<nat, Chan>,
                        chans: map<nat, Chan>, drops: map<nat, nat>, closed: map<nat, Chan>, gone: set<nat>)
  {
    && chans0.Keys == drops0.Keys
    && gone <= chans0.Keys
    && chans.Keys == drops.Keys == chans0.Keys - gone
    && (forall id :: id in chans ==> chans[id] == chans0[id] && drops[id] == drops0[id])
    && closed.Keys == closed0.Keys + gone
    && (forall id :: id in closed ==> closed[id] == if id in gone then chans0[id] else closed0[id])
  }

  lemma SplitStep(chans0: map<nat, Chan>, drops0: map<nat, nat>, closed0: map<nat, Chan>,
                  chans: map<nat, Chan>, drops: map<nat, nat>, closed: map<nat, Chan>, gone: set<nat>, id: nat)
    requires Split(chans0, drops0, closed0, chans, drops, closed, gone)
    requires id in chans
    ensures Split(chans0, drops0, closed0, chans - {id}, drops - {id}, closed[id := chans[id]], gone + {id})
  {
  }

  lemma SplitEnd(chans0: map<nat, Chan>, drops0: map<nat, nat>, closed0: map<nat, Chan>,
                 chans: map<nat, Chan>, drops: map<nat, nat>, closed: map<nat, Chan>, gone: set<nat>)
    requires Split(chans0, drops0, closed0, chans, drops, closed, gone)
    requires chans == map[]
    ensures closed == closed0 + chans0
  {
    assert forall id :: id in chans0 && id !in gone ==> id in chans;
  }

  /** The state after both loops of `fanOut` is the per-subscriber result. */
  lemma FanOutResult(buffer: nat, chans0: map<nat, Chan>, drops0: map<nat, nat>, closed0: map<nat, Chan>,
                     chans: map<nat, Chan>, drops: map<nat, nat>, closed: map<nat, Chan>, gone: set<nat>,
                     removals: seq<nat>, s0: map<nat, Sub>, events: seq<Event>, sched: Schedule)
    requires s0.Keys == chans0.Keys == drops0.Keys
    requires AllAt(buffer, chans0, drops0, removals, s0, events, sched, |events|)
    requires Split(chans0, drops0, closed0, chans, drops, closed, gone)
    requires forall id :: id in removals <==> id in gone
    ensures Join(chans, drops) == KeptSubs(buffer, s0, events, sched)
    ensures closed == closed0 + EvictedChans(buffer, s0, events, sched)
  {
    var kept, evicted := KeptSubs(buffer, s0, events, sched), EvictedChans(buffer, s0, events, sched);
    forall id | id in s0
      ensures id in gone ==> id in evicted && id !in kept && chans0[id] == evicted[id]
      ensures id !in gone ==> id !in evicted && id in kept && Sub(chans0[id], drops0[id]) == kept[id]
    {
      assert At(buffer, chans0[id], drops0[id], id in removals, s0[id], events, TakesOf(sched, id), |events|);
    }
    SplitResult(chans0, drops0, closed0, chans, drops, closed, gone, kept, evicted);
  }

  lemma SplitResult(chans0: map<nat, Chan>, drops0: map<nat, nat>, closed0: map<nat, Chan>,
                    chans: map<nat, Chan>, drops: map<nat, nat>, closed: map<nat, Chan>, gone: set<nat>,
                    kept: map<nat, Sub>, evicted: map<nat, Chan>)
    requires Split(chans0, drops0, closed0, chans, drops, closed, gone)
    requires kept.Keys <= chans0.Keys && evicted.Keys <= chans0.Keys
    requires forall id :: id in chans0 && id in gone ==> id in evicted && id !in kept && chans0[id] == evicted[id]
    requires forall id :: id in chans0 && id !in gone ==>
               id !in evicted && id in kept && Sub(chans0[id], drops0[id]) == kept[id]
    ensures Join(chans, drops) == kept
    ensures closed == closed0 + evicted
  {
  }

  /** Every subscriber in `done` has been offered `e`; the others are untouched. */
  ghost predicate OfferedTo(buffer: nat, chans0: map<nat, Chan>, drops0: map<nat, nat>,
                            chans: map<nat, Chan>, drops: map<nat, nat>, done: set<nat>,
                            e: Event, sched: Schedule, k: nat)
    requires chans0.Keys == drops0.Keys == chans.Keys == drops.Keys
  {
    forall id :: id in chans ==>
      Sub(chans[id], drops[id]) ==
        if id in done then Offer(buffer, Sub(chans0[id], drops0[id]), e, TakeAt(TakesOf(sched, id), k))
        else Sub(chans0[id], drops0[id])
  }

  lemma OfferedStep(buffer: nat, chans0: map<nat, Chan>, drops0: map<nat, nat>,
                    chans: map<nat, Chan>, drops: map<nat, nat>, chans': map<nat, Chan>, drops': map<nat, nat>,
                    removals0: seq<nat>, removals: seq<nat>, removals': seq<nat>,
                    done: set<nat>, e: Event, sched: Schedule, k: nat, id: nat)
    requires chans0.Keys == drops0.Keys == chans.Keys == drops.Keys && done <= drops.Keys
    requires id in chans && id !in done
    requires OfferedTo(buffer, chans0, drops0, chans, drops, done, e, sched, k)
    requires ListedBy(removals0, removals, drops, done)
    requires var s := Offer(buffer, Sub(chans[id], drops[id]), e, TakeAt(TakesOf(sched, id), k));
             && chans' == chans[id := s.ch]
             && drops' == drops[id := s.drops]
             && removals' == if s.drops >= MAX_CONSECUTIVE_DROPS then removals + [id] else removals
    ensures OfferedTo(buffer, chans0, drops0, chans', drops', done + {id}, e, sched, k)
    ensures ListedBy(removals0, removals', drops', done + {id})
  {
  }

  ghost predicate ListedBy(removals: seq<nat>, removals': seq<nat>, drops: map<nat, nat>, done: set<nat>)
    requires done <= drops.Keys
  {
    forall id :: id in removals' <==> id in removals || (id in done && drops[id] >= MAX_CONSECUTIVE_DROPS)
  }

  /** Where a subscriber stands `k` events into a fan-out. */
  ghost predicate At(
    buffer: nat, ch: Chan, drops: nat, listed: bool, s: Sub, events: seq<Event>, takes: seq<nat>, k: nat) {
    && k <= |events|
    && Sub(ch, drops) == OfferUpTo(buffer, s, events, takes, k)
    && listed == Marked(buffer, s, events, takes, k)
  }

  ghost predicate AllAt(buffer: nat, chans: map<nat, Chan>, drops: map<nat, nat>, removals: seq<nat>,
                        s0: map<nat, Sub>, events: seq<Event>, sched: Schedule, k: nat)
    requires s0.Keys == chans.Keys == drops.Keys
  {
    && (forall id :: id in removals ==> id in s0)
    && forall id :: id in s0 ==>
         At(buffer, chans[id], drops[id], id in removals, s0[id], events, TakesOf(sched, id), k)
  }

  lemma AllAtStart(buffer: nat, chans: map<nat, Chan>, drops: map<nat, nat>, events: seq<Event>, sched: Schedule)
    requires chans.Keys == drops.Keys
    ensures AllAt(buffer, chans, drops, [], Join(chans, drops), events, sched, 0)
  {
  }

  lemma AllAtNext(buffer: nat, chans: map<nat, Chan>, drops: map<nat, nat>, removals: seq<nat>,
                  chans': map<nat, Chan>, drops': map<nat, nat>, removals': seq<nat>,
                  s0: map<nat, Sub>, events: seq<Event>, sched: Schedule, k: nat)
    requires s0.Keys == chans.Keys == drops.Keys == chans'.Keys == drops'.Keys && k < |events|
    requires AllAt(buffer, chans, drops, removals, s0, events, sched, k)
    requires OfferedTo(buffer, chans, drops, chans', drops', chans'.Keys, events[k], sched, k)
    requires ListedBy(removals, removals', drops', chans'.Keys)
    ensures AllAt(buffer, chans', drops', removals', s0, events, sched, k + 1)
  {
    forall id | id in s0
      ensures At(buffer, chans'[id], drops'[id], id in removals', s0[id], events, TakesOf(sched, id), k + 1)
    {
      assert At(buffer, chans[id], drops[id], id in removals, s0[id], events, TakesOf(sched, id), k);
      assert id in chans';
    }
  }

  function NewChan(since: nat): Chan {
    Chan([], [], since, [])
  }
}
