/**
 Whose acknowledgement takes a message off its pending list. The manager finds a dispatcher by
 stream and group joined with '|', so streams whose names continue one another with a bar can
 share a key (internal/service/dispatcher.go); this decides exactly when that matters.
 */
module AckRouting {
  import opened Common
  import opened DispatcherKeys
  import L = AckLoop
  import A = AckRuns
  import opened NoVanish
  import opened NoVanishRuns

  /** A message that left its pending list has a dead-letter copy, or a client acknowledged this
      very message: its stream, its group, its entry ID. */
  ghost predicate OwnAcks(s: State) {
    forall key :: key in s.delivered && key !in s.pending && key !in s.copies ==> Claimed(s, key)
  }

  ghost predicate Claimed(s: State, key: Key) {
    key.id in s.ever && Claim(s.ever[key.id].stream, key.group, s.ever[key.id].name) in s.acks.claims
  }

  ghost predicate MayBeConsumed(c: Config, stream: string) {
    IsName(stream) && IsAllowed(c.consumeStreams, stream)
  }

  /** No stream that may be consumed continues another one with a bar. */
  ghost predicate NoCollisions(c: Config) {
    forall a, b :: MayBeConsumed(c, a) && MayBeConsumed(c, b) ==> !Continues(a, b)
  }

  // ---------------------------------------------------------------------------
  // Without collisions
  // ---------------------------------------------------------------------------

  lemma KeysDiffer(c: Config, a: string, g: string, b: string, h: string)
    requires NoCollisions(c) && Proper(c, a, g) && Proper(c, b, h) && DispatcherKey(a, g) == DispatcherKey(b, h)
    ensures a == b && g == h
  {
    if a != b {
      assert MayBeConsumed(c, a) && MayBeConsumed(c, b);
      CollisionExact(a, b);
      assert false;
    }
    SameStreamSameGroup(a, g, b, h);
  }

  /** What a dispatcher accepted was an acknowledgement for its own stream and group. */
  lemma AcknowledgedIsClaimed(c: Config, a: Acks, stream: string, group: string, name: string)
    requires NoCollisions(c) && AckInv(c, a) && Acknowledged(a, stream, group, name)
    ensures Claim(stream, group, name) in a.claims
  {
    if exists d :: 0 <= d < |a.dispatchers| && AcceptedBy(a.dispatchers[d], stream, group, name) {
      var d :| 0 <= d < |a.dispatchers| && AcceptedBy(a.dispatchers[d], stream, group, name);
      var disp := a.dispatchers[d];
      assert LoopGood(c, a, disp) && Routed(a, disp, name);
      var claim :| claim in a.claims && claim.name == name &&
                   DispatcherKey(claim.stream, claim.group) == DispatcherKey(disp.stream, disp.group);
      KeysDiffer(c, claim.stream, claim.group, disp.stream, disp.group);
      assert claim == Claim(stream, group, name);
    }
  }

  lemma AcksStayOnTheirGroup(c: Config, steps: seq<Step>)
    requires NoCollisions(c)
    ensures OwnAcks(Run(c, steps))
  {
    var s := Run(c, steps);
    RunInv(c, steps);
    RunAcks(c, steps);
    forall key | key in s.delivered && key !in s.pending && key !in s.copies
      ensures Claimed(s, key)
    {
      assert KeyAcknowledged(s, key);
      AcknowledgedIsClaimed(c, s.acks, s.ever[key.id].stream, key.group, s.ever[key.id].name);
    }
  }

  // ---------------------------------------------------------------------------
  // With a collision: one acknowledgement, sent to the wrong group
  // ---------------------------------------------------------------------------

  const ID := "1-0"

  /** The ack loop on its way to its first XACK. */
  const ASKED := A.INIT.(queue := [[ID]], accepted := {ID})
  const TICKED := ASKED.(pc := A.Draining(A.FlushNow))
  const DRAINED := TICKED.(queue := [], loop := L.Loop({ID}, 1, {}, [], 0), drained := {ID}, dequeued := 1)
  const FLUSHING := DRAINED.(pc := A.Flushing([[ID]], 0, false))

  lemma IdIsClean()
    ensures L.Cleaned([ID]) == [ID]
  {
    assert !IsSpace('1') && !IsSpace('0');
    TightIsName(ID);
    assert [ID][..0] == [];
  }

  lemma LoopAsked(c: L.Config)
    requires c.queueSize > 0
    ensures L.AckOutcome(c, A.INIT.queue, A.INIT.cancelled, [ID], false).Accepted?
    ensures A.Apply(c, A.INIT, A.QueueAck([ID], false)) == ASKED
  {
    IdIsClean();
    assert [] + [[ID]] == [[ID]];
    assert {} + L.Elems([ID]) == {ID};
  }

  lemma OneChunk(c: L.Config)
    ensures A.ChunksOf(c, DRAINED.loop) == [[ID]]
  {
    var pending := {ID};
    L.OrderedLists(pending);
    var ids := L.Ordered(pending);
    assert |ids| == 1 && ids[0] in L.Elems(ids);
    assert ids == [ID];
    var size := L.AtLeastOne(c.batchSize);
    assert ids[..1] == ids && ids[1..] == [];
    assert L.Chunks(ids, size) == [ids] + L.Chunks([], size);
  }

  lemma LoopTicks(c: L.Config)
    ensures A.Apply(c, ASKED, A.SeeTick) == TICKED
    ensures A.Apply(c, TICKED, A.DrainOne) == DRAINED
    ensures A.Apply(c, DRAINED, A.DrainEnd) == FLUSHING
  {
    assert [[ID]][1..] == [];
    assert {} + L.Elems([ID]) == {ID};
    OneChunk(c);
  }

  lemma LoopXacksIt(c: L.Config)
    ensures A.Xacked(c, FLUSHING, A.Pipeline(L.CLEAN)) == {ID}
  {
    assert [[ID]][0..1] == [[ID]];
    assert L.Applied([[ID]], L.CLEAN, 0) == {};
    assert L.Applied([[ID]], L.CLEAN, 1) == L.Elems([ID]);
  }

  /** The message waits on stream `a`; the acknowledgement was for stream `b`. */
  ghost predicate Stage(s: State, a: string, g: string, claims: set<Claim>, q: A.State) {
    && s.ever == map[0 := Record(a, ID, map[])] && s.delivered == s.pending == {Key(g, 0)}
    && s.copies == map[] && s.acks.dispatchers == [Dispatcher(a, g, q)] && s.acks.claims == claims
    && s.acks.current == map[DispatcherKey(a, g) := 0]
  }

  function Opening(a: string, g: string): seq<Step> {
    [Publish(Record(a, ID, map[])), Deliver(Key(g, 0)), StartDispatcher(a, g)]
  }

  lemma RunSnoc(c: Config, steps: seq<Step>, step: Step)
    ensures Run(c, steps + [step]) == Apply(c, Run(c, steps), step)
  {
    assert (steps + [step])[..|steps|] == steps;
  }

  lemma OpeningRun(c: Config, a: string, g: string)
    requires Proper(c, a, g)
    ensures Stage(Run(c, Opening(a, g)), a, g, {}, A.INIT)
  {
    var publish, deliver, start := Publish(Record(a, ID, map[])), Deliver(Key(g, 0)), StartDispatcher(a, g);
    RunSnoc(c, [], publish);
    RunSnoc(c, [publish], deliver);
    RunSnoc(c, [publish, deliver], start);
    assert [] + [publish] == [publish] && [publish] + [deliver] == [publish, deliver];
    assert [publish, deliver] + [start] == Opening(a, g);
    var s1 := Apply(c, INIT, publish);
    assert s1.ever == map[0 := Record(a, ID, map[])] && s1.present == {0};
    var s2 := Apply(c, s1, deliver);
    assert s2.delivered == s2.pending == {Key(g, 0)};
    assert s2.acks.dispatchers + [Dispatcher(a, g, A.INIT)] == [Dispatcher(a, g, A.INIT)];
  }

  lemma StageAsks(c: Config, s: State, a: string, g: string, b: string, h: string)
    requires c.ackLoop.queueSize > 0 && Proper(c, b, h) && DispatcherKey(a, g) == DispatcherKey(b, h)
    requires Stage(s, a, g, {}, A.INIT)
    ensures Stage(Apply(c, s, QueueAck(b, h, [ID], false)), a, g, {Claim(b, h, ID)}, ASKED)
  {
    LoopAsked(c.ackLoop);
    IdIsClean();
    assert Claims(b, h, [ID]) == {Claim(b, h, [ID][0])};
  }

  /** A step of the loop that sends nothing. */
  lemma StageMoves(c: Config, s: State, a: string, g: string, claims: set<Claim>, q: A.State, step: A.Step)
    requires Stage(s, a, g, claims, q) && !step.QueueAck? && A.Xacked(c.ackLoop, q, step) == {}
    ensures Stage(Apply(c, s, LoopStep(0, step)), a, g, claims, A.Apply(c.ackLoop, q, step))
  {
    assert Named(s, a, g, {}) == {};
  }

  lemma StageEnds(c: Config, s: State, a: string, g: string, claims: set<Claim>)
    requires Stage(s, a, g, claims, FLUSHING) && Claim(a, g, ID) !in claims
    ensures !OwnAcks(Apply(c, s, LoopStep(0, A.Pipeline(L.CLEAN))))
  {
    LoopXacksIt(c.ackLoop);
    var s' := Apply(c, s, LoopStep(0, A.Pipeline(L.CLEAN)));
    assert Named(s, a, g, {ID}) == {Key(g, 0)};
    assert Key(g, 0) in s'.delivered && Key(g, 0) !in s'.pending && !Claimed(s', Key(g, 0));
  }

  function Stray(a: string, g: string, b: string, h: string): seq<Step> {
    Opening(a, g) + [QueueAck(b, h, [ID], false)] + [LoopStep(0, A.SeeTick)] + [LoopStep(0, A.DrainOne)]
    + [LoopStep(0, A.DrainEnd)] + [LoopStep(0, A.Pipeline(L.CLEAN))]
  }

  /** An acknowledgement for group `h` of stream `b` takes a message of group `g` of stream `a`
      off its pending list when the two have one key. */
  lemma StrayRun(c: Config, a: string, g: string, b: string, h: string)
    requires c.ackLoop.queueSize > 0 && Proper(c, a, g) && Proper(c, b, h)
    requires DispatcherKey(a, g) == DispatcherKey(b, h) && a != b
    ensures !OwnAcks(Run(c, Stray(a, g, b, h)))
  {
    var claims := {Claim(b, h, ID)};
    var r0 := Opening(a, g);
    var r1 := r0 + [QueueAck(b, h, [ID], false)];
    var r2 := r1 + [LoopStep(0, A.SeeTick)];
    var r3 := r2 + [LoopStep(0, A.DrainOne)];
    var r4 := r3 + [LoopStep(0, A.DrainEnd)];
    OpeningRun(c, a, g);
    RunSnoc(c, r0, QueueAck(b, h, [ID], false));
    StageAsks(c, Run(c, r0), a, g, b, h);
    LoopTicks(c.ackLoop);
    RunSnoc(c, r1, LoopStep(0, A.SeeTick));
    StageMoves(c, Run(c, r1), a, g, claims, ASKED, A.SeeTick);
    RunSnoc(c, r2, LoopStep(0, A.DrainOne));
    StageMoves(c, Run(c, r2), a, g, claims, TICKED, A.DrainOne);
    RunSnoc(c, r3, LoopStep(0, A.DrainEnd));
    StageMoves(c, Run(c, r3), a, g, claims, DRAINED, A.DrainEnd);
    RunSnoc(c, r4, LoopStep(0, A.Pipeline(L.CLEAN)));
    StageEnds(c, Run(c, r4), a, g, claims);
  }

  // ---------------------------------------------------------------------------
  // Exactly when
  // ---------------------------------------------------------------------------

  /** In every run, every message that left its pending list was dead-lettered or acknowledged
      itself, if and only if no consumable stream continues another one with a bar. */
  lemma AcksNeverStray(c: Config)
    requires c.ackLoop.queueSize > 0
    ensures (forall steps :: OwnAcks(Run(c, steps))) <==> NoCollisions(c)
  {
    if NoCollisions(c) {
      forall steps ensures OwnAcks(Run(c, steps)) { AcksStayOnTheirGroup(c, steps); }
    } else {
      var a, b :| MayBeConsumed(c, a) && MayBeConsumed(c, b) && Continues(a, b);
      ContinuationCollides(a, b);
      StrayRun(c, a, CollidingGroup(a, b), b, "g");
      assert !OwnAcks(Run(c, Stray(a, CollidingGroup(a, b), b, "g")));
    }
  }

  /** Consume streams listed by names without a bar are safe; with no list, they are not. */
  lemma ListedWithoutBar(c: Config)
    requires c.consumeStreams != [] && forall i :: 0 <= i < |c.consumeStreams| ==> '|' !in c.consumeStreams[i]
    ensures NoCollisions(c)
  {
    forall a, b | MayBeConsumed(c, a) && MayBeConsumed(c, b)
      ensures !Continues(a, b)
    {
      assert '|' !in b;
    }
  }

  lemma UnlistedCollides(c: Config)
    requires c.consumeStreams == []
    ensures !NoCollisions(c)
  {
    assert !IsSpace('a') && !IsSpace('b');
    TightIsName("a");
    TightIsName("a|b");
    assert "a|b"[..1] == "a" && "a|b"[1] == '|' && "a|b"[2] == 'b';
    assert Continues("a", "a|b") && MayBeConsumed(c, "a") && MayBeConsumed(c, "a|b");
  }
}
