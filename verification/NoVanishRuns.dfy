/**
 What leaves a pending list, over whole runs: a message that is no longer pending was
 acknowledged through an ack loop or directly, or has a dead-letter copy; and exactly when the
 acknowledgement was one for that very message (internal/service/dispatcher.go,
 internal/service/service.go, internal/service/dlq_replay.go).
 */
module NoVanishRuns {
  import opened Common
  import opened DispatcherKeys
  import opened Dlq
  import L = AckLoop
  import A = AckRuns
  import opened NoVanish

  // ---------------------------------------------------------------------------
  // Acknowledgements: the invariant
  // ---------------------------------------------------------------------------

  /** A stream that may be consumed and a group, under the names the service keeps. */
  ghost predicate Proper(c: Config, stream: string, group: string) {
    IsName(stream) && IsName(group) && IsAllowed(c.consumeStreams, stream)
  }

  /** Whatever the loop accepted came from a client's acknowledgement with the same key. */
  ghost predicate Routed(a: Acks, disp: Dispatcher, name: string) {
    exists claim :: claim in a.claims && claim.name == name &&
                    DispatcherKey(claim.stream, claim.group) == DispatcherKey(disp.stream, disp.group)
  }

  ghost predicate LoopGood(c: Config, a: Acks, disp: Dispatcher) {
    && Proper(c, disp.stream, disp.group)
    && A.Conserved(disp.acks)
    && forall name :: name in disp.acks.accepted ==> Routed(a, disp, name)
  }

  ghost predicate AckInv(c: Config, a: Acks) {
    && (forall d :: 0 <= d < |a.dispatchers| ==> LoopGood(c, a, a.dispatchers[d]))
    && (forall key :: key in a.current ==>
          && a.current[key] < |a.dispatchers|
          && var disp := a.dispatchers[a.current[key]]; DispatcherKey(disp.stream, disp.group) == key)
    && (forall claim :: claim in a.claims ==> Proper(c, claim.stream, claim.group))
  }

  /** An acknowledgement of `name` was accepted by a dispatcher of this stream and group, or a
      client's acknowledgement of this very message was accepted or sent. */
  ghost predicate Acknowledged(a: Acks, stream: string, group: string, name: string) {
    || Claim(stream, group, name) in a.claims
    || exists d :: 0 <= d < |a.dispatchers| && AcceptedBy(a.dispatchers[d], stream, group, name)
  }

  ghost predicate AcceptedBy(disp: Dispatcher, stream: string, group: string, name: string) {
    disp.stream == stream && disp.group == group && name in disp.acks.accepted
  }

  ghost predicate Grows(a: Acks, a': Acks) {
    && a.claims <= a'.claims && |a.dispatchers| <= |a'.dispatchers|
    && forall d :: 0 <= d < |a.dispatchers| ==>
         && a'.dispatchers[d].stream == a.dispatchers[d].stream && a'.dispatchers[d].group == a.dispatchers[d].group
         && a.dispatchers[d].acks.accepted <= a'.dispatchers[d].acks.accepted
  }

  lemma AcknowledgedStays(a: Acks, a': Acks, stream: string, group: string, name: string)
    requires Grows(a, a') && Acknowledged(a, stream, group, name)
    ensures Acknowledged(a', stream, group, name)
  {
    if Claim(stream, group, name) !in a.claims {
      var d :| 0 <= d < |a.dispatchers| && AcceptedBy(a.dispatchers[d], stream, group, name);
      assert AcceptedBy(a'.dispatchers[d], stream, group, name);
    }
  }

  lemma RoutedStays(a: Acks, a': Acks, disp: Dispatcher)
    requires a.claims <= a'.claims
    ensures forall name :: Routed(a, disp, name) ==> Routed(a', disp, name)
  {
  }

  // ---------------------------------------------------------------------------
  // Acknowledgements: the steps
  // ---------------------------------------------------------------------------

  /** Loops already there keep what they had when only claims are added. */
  lemma LoopsStayGood(c: Config, a: Acks, a': Acks)
    requires AckInv(c, a) && a.claims <= a'.claims
    ensures forall d :: 0 <= d < |a.dispatchers| ==> LoopGood(c, a', a.dispatchers[d])
  {
    forall d | 0 <= d < |a.dispatchers|
      ensures LoopGood(c, a', a.dispatchers[d])
    {
      assert LoopGood(c, a, a.dispatchers[d]);
      RoutedStays(a, a', a.dispatchers[d]);
    }
  }

  lemma StartLoopKeeps(c: Config, a: Acks, stream: string, group: string)
    requires AckInv(c, a) && Trim(stream) == stream && Trim(group) == group
    ensures AckInv(c, StartLoop(c, a, stream, group)) && Grows(a, StartLoop(c, a, stream, group))
  {
    var a' := StartLoop(c, a, stream, group);
    LoopsStayGood(c, a, a');
  }

  lemma ClaimsKeep(c: Config, a: Acks, stream: string, group: string, names: seq<string>)
    requires AckInv(c, a) && Proper(c, stream, group)
    ensures var a' := a.(claims := a.claims + Claims(stream, group, names)); AckInv(c, a') && Grows(a, a')
  {
    var a' := a.(claims := a.claims + Claims(stream, group, names));
    LoopsStayGood(c, a, a');
  }

  /** One loop moves on, having accepted nothing that was not routed to it. */
  lemma SetLoopKeeps(c: Config, a: Acks, d: nat, q: A.State)
    requires AckInv(c, a) && d < |a.dispatchers| && A.Conserved(q) && a.dispatchers[d].acks.accepted <= q.accepted
    requires forall name :: name in q.accepted ==> Routed(a, a.dispatchers[d], name)
    ensures AckInv(c, SetLoop(a, d, q)) && Grows(a, SetLoop(a, d, q))
  {
    var a' := SetLoop(a, d, q);
    LoopsStayGood(c, a, a');
    var disp := a'.dispatchers[d];
    assert forall name :: Routed(a, a.dispatchers[d], name) ==> Routed(a', disp, name);
  }

  lemma LoopAccepts(c: L.Config, q: A.State, step: A.Step)
    requires !step.QueueAck?
    ensures A.Apply(c, q, step).accepted == q.accepted
  {
  }

  lemma LoopStepKeeps(c: Config, a: Acks, d: nat, step: A.Step)
    requires AckInv(c, a) && d < |a.dispatchers| && !step.QueueAck?
    ensures var a' := SetLoop(a, d, A.Apply(c.ackLoop, a.dispatchers[d].acks, step)); AckInv(c, a') && Grows(a, a')
  {
    var q := a.dispatchers[d].acks;
    assert LoopGood(c, a, a.dispatchers[d]);
    A.StepConserves(c.ackLoop, q, step);
    LoopAccepts(c.ackLoop, q, step);
    SetLoopKeeps(c, a, d, A.Apply(c.ackLoop, q, step));
  }

  /** What is accepted into a dispatcher's queue is claimed under the dispatcher's key. */
  lemma NewlyRouted(c: Config, a: Acks, d: nat, stream: string, group: string, ids: seq<string>)
    requires AckInv(c, a) && d < |a.dispatchers| && Claims(stream, group, L.Cleaned(ids)) <= a.claims
    requires DispatcherKey(stream, group) == DispatcherKey(a.dispatchers[d].stream, a.dispatchers[d].group)
    ensures forall name :: name in a.dispatchers[d].acks.accepted + L.Elems(L.Cleaned(ids)) ==>
              Routed(a, a.dispatchers[d], name)
  {
    var disp, cleaned := a.dispatchers[d], L.Cleaned(ids);
    assert LoopGood(c, a, disp);
    forall name | name in L.Elems(cleaned)
      ensures Routed(a, disp, name)
    {
      var i :| 0 <= i < |cleaned| && cleaned[i] == name;
      assert Claim(stream, group, cleaned[i]) in Claims(stream, group, cleaned);
    }
  }

  lemma RouteAckKeeps(c: Config, a: Acks, stream: string, group: string, ids: seq<string>, pickDone: bool)
    requires AckInv(c, a) && Trim(stream) == stream && Trim(group) == group
    ensures AckInv(c, RouteAck(c, a, stream, group, ids, pickDone))
    ensures Grows(a, RouteAck(c, a, stream, group, ids, pickDone))
  {
    var a', key := RouteAck(c, a, stream, group, ids, pickDone), DispatcherKey(stream, group);
    if a' != a {
      var d := a.current[key];
      var q, a1 := a.dispatchers[d].acks, a.(claims := a.claims + Claims(stream, group, L.Cleaned(ids)));
      ClaimsKeep(c, a, stream, group, L.Cleaned(ids));
      assert LoopGood(c, a1, a1.dispatchers[d]);
      NewlyRouted(c, a1, d, stream, group, ids);
      A.StepConserves(c.ackLoop, q, A.QueueAck(ids, pickDone));
      SetLoopKeeps(c, a1, d, A.Apply(c.ackLoop, q, A.QueueAck(ids, pickDone)));
      assert a' == SetLoop(a1, d, A.Apply(c.ackLoop, q, A.QueueAck(ids, pickDone)));
    }
  }

  lemma GrowsFromSame(a: Acks)
    ensures Grows(a, a)
  {
  }

  lemma DropKeeps(c: Config, a: Acks, key: string)
    requires AckInv(c, a)
    ensures var a' := a.(current := a.current - {key}); AckInv(c, a') && Grows(a, a')
  {
    LoopsStayGood(c, a, a.(current := a.current - {key}));
  }

  /** The acknowledgements after a step that touches them. */
  lemma AckStepKeeps(c: Config, s: State, step: Step)
    requires AckInv(c, s.acks)
    requires step.StartDispatcher? || step.QueueAck? || step.DirectAck?
    ensures AckInv(c, Apply(c, s, step).acks) && Grows(s.acks, Apply(c, s, step).acks)
  {
    var stream, group := Trim(step.stream), Trim(step.group);
    TrimIdempotent(step.stream);
    TrimIdempotent(step.group);
    GrowsFromSame(s.acks);
    match step {
      case StartDispatcher(_, _) => StartLoopKeeps(c, s.acks, stream, group);
      case QueueAck(_, _, ids, pickDone) => RouteAckKeeps(c, s.acks, stream, group, ids, pickDone);
      case DirectAck(_, _, ids, out) =>
        if MayConsume(c, stream, group) && ids != [] {
          ClaimsKeep(c, s.acks, stream, group, ids);
          assert AckDirectly(s, stream, group, ids, out).acks
              == s.acks.(claims := s.acks.claims + Claims(stream, group, ids));
        }
    }
  }

  lemma LoopMoveKeeps(c: Config, s: State, d: nat, ackStep: A.Step)
    requires AckInv(c, s.acks)
    ensures var s' := Apply(c, s, LoopStep(d, ackStep)); AckInv(c, s'.acks) && Grows(s.acks, s'.acks)
  {
    GrowsFromSame(s.acks);
    if d < |s.acks.dispatchers| && !ackStep.QueueAck? {
      LoopStepKeeps(c, s.acks, d, ackStep);
    }
  }

  predicate TouchesAcks(step: Step) {
    step.StartDispatcher? || step.DropDispatcher? || step.QueueAck? || step.LoopStep? || step.DirectAck?
  }

  lemma OtherStepsLeaveAcks(c: Config, s: State, step: Step)
    requires !TouchesAcks(step)
    ensures Apply(c, s, step).acks == s.acks && Apply(c, s, step).xacked == s.xacked
  {
  }

  lemma AcksKeep(c: Config, s: State, step: Step)
    requires AckInv(c, s.acks)
    ensures AckInv(c, Apply(c, s, step).acks) && Grows(s.acks, Apply(c, s, step).acks)
  {
    if !TouchesAcks(step) {
      OtherStepsLeaveAcks(c, s, step);
      GrowsFromSame(s.acks);
    } else if step.LoopStep? {
      LoopMoveKeeps(c, s, step.dispatcher, step.ackStep);
    } else if step.DropDispatcher? {
      DropKeeps(c, s.acks, step.dispatcherKey);
    } else {
      AckStepKeeps(c, s, step);
    }
  }

  // ---------------------------------------------------------------------------
  // XACKs only reach acknowledged messages
  // ---------------------------------------------------------------------------

  ghost predicate KeyAcknowledged(s: State, key: Key) {
    key.id in s.ever && Acknowledged(s.acks, s.ever[key.id].stream, key.group, s.ever[key.id].name)
  }

  ghost predicate XackInv(s: State) {
    forall key :: key in s.xacked ==> KeyAcknowledged(s, key)
  }

  /** A step adds at most one entry, under a name new to its stream. */
  lemma EntryAdded(c: Config, s: State, step: Step) returns (added: Option<Record>)
    ensures added.None? ==> Apply(c, s, step).ever == s.ever
    ensures added.Some? ==> Apply(c, s, step).ever == s.ever[s.next := added.value]
    ensures added.Some? ==> NameFree(s, added.value.stream, added.value.name)
  {
    added := None;
    match step {
      case Publish(record) =>
        if NameFree(s, record.stream, record.name) { added := Some(record); }
      case MoveAdd(t, out, name) =>
        if t < |s.moves| && s.moves[t].pc.MoveRead? && NameFree(s, s.moves[t].dlqStream, name) && !out.NotApplied? {
          added := Some(Record(s.moves[t].dlqStream, name, MoveValues(s.moves[t].mv, s.moves[t].message)));
        }
      case ReplayAdd(t, out, name) =>
        if t < |s.replays| && s.replays[t].pc.ReplayRead? && NameFree(s, s.replays[t].target, name) &&
           !out.NotApplied? {
          var task := s.replays[t];
          added := Some(Record(task.target, name, ReplayValues(task.dlqStream, task.now, task.entry)));
        }
      case _ =>
    }
  }

  lemma EverStays(c: Config, s: State, step: Step, id: nat)
    requires Inv(s) && id in s.ever
    ensures id in Apply(c, s, step).ever && Apply(c, s, step).ever[id] == s.ever[id]
  {
    var added := EntryAdded(c, s, step);
  }

  lemma KeyStays(c: Config, s: State, step: Step, key: Key)
    requires Inv(s) && AckInv(c, s.acks) && KeyAcknowledged(s, key)
    ensures KeyAcknowledged(Apply(c, s, step), key)
  {
    EverStays(c, s, step, key.id);
    AcksKeep(c, s, step);
    AcknowledgedStays(s.acks, Apply(c, s, step).acks, s.ever[key.id].stream, key.group, s.ever[key.id].name);
  }

  /** The XACKs of an ack loop: the loop accepted every one of the IDs. */
  lemma LoopAcknowledges(c: Config, s: State, d: nat, step: A.Step, key: Key)
    requires AckInv(c, s.acks) && d < |s.acks.dispatchers|
    requires var disp := s.acks.dispatchers[d];
             key in Named(s, disp.stream, disp.group, A.Xacked(c.ackLoop, disp.acks, step))
    ensures KeyAcknowledged(s, key)
  {
    var disp := s.acks.dispatchers[d];
    assert LoopGood(c, s.acks, disp);
    A.XackedWereAccepted(c.ackLoop, disp.acks, step);
    assert AcceptedBy(disp, s.ever[key.id].stream, key.group, s.ever[key.id].name);
  }

  lemma DirectAcknowledges(s: State, stream: string, group: string, ids: seq<string>, key: Key)
    requires key in Named(s, stream, group, L.Elems(ids)) && Claims(stream, group, ids) <= s.acks.claims
    ensures KeyAcknowledged(s, key)
  {
    var name := s.ever[key.id].name;
    var i :| 0 <= i < |ids| && ids[i] == name;
    assert Claim(stream, group, ids[i]) in Claims(stream, group, ids);
  }

  lemma LoopXacks(c: Config, s: State, d: nat, ackStep: A.Step, key: Key)
    requires Inv(s) && AckInv(c, s.acks)
    ensures var s' := Apply(c, s, LoopStep(d, ackStep));
            key !in s.xacked && key in s'.xacked ==> KeyAcknowledged(s', key)
  {
    if key !in s.xacked && key in Apply(c, s, LoopStep(d, ackStep)).xacked {
      LoopAcknowledges(c, s, d, ackStep, key);
      KeyStays(c, s, LoopStep(d, ackStep), key);
    }
  }

  lemma DirectXacks(s: State, stream: string, group: string, ids: seq<string>, out: Cmd, key: Key)
    ensures var s' := AckDirectly(s, stream, group, ids, out);
            key !in s.xacked && key in s'.xacked ==> KeyAcknowledged(s', key)
  {
    if key !in s.xacked && key in AckDirectly(s, stream, group, ids, out).xacked {
      var s1 := s.(acks := s.acks.(claims := s.acks.claims + Claims(stream, group, ids)));
      DirectAcknowledges(s1, stream, group, ids, key);
    }
  }

  /** Only an XACK adds to `xacked`. */
  lemma NewlyXacked(c: Config, s: State, step: Step, key: Key)
    requires Inv(s) && AckInv(c, s.acks)
    ensures key !in s.xacked && key in Apply(c, s, step).xacked ==> KeyAcknowledged(Apply(c, s, step), key)
  {
    if !TouchesAcks(step) {
      OtherStepsLeaveAcks(c, s, step);
    } else if step.LoopStep? {
      LoopXacks(c, s, step.dispatcher, step.ackStep, key);
    } else if step.DirectAck? {
      DirectXacks(s, Trim(step.stream), Trim(step.group), step.entryIds, step.out, key);
    }
  }

  lemma {:induction false} RunAcks(c: Config, steps: seq<Step>)
    ensures AckInv(c, Run(c, steps).acks) && XackInv(Run(c, steps))
  {
    if steps != [] {
      var pre, step := steps[..|steps| - 1], steps[|steps| - 1];
      var s, s' := Run(c, pre), Run(c, steps);
      RunAcks(c, pre);
      RunInv(c, pre);
      AcksKeep(c, s, step);
      forall key | key in s'.xacked
        ensures KeyAcknowledged(s', key)
      {
        if key in s.xacked { KeyStays(c, s, step, key); } else { NewlyXacked(c, s, step, key); }
      }
    }
  }

  // ---------------------------------------------------------------------------
  // Main results
  // ---------------------------------------------------------------------------

  /** A delivered message is still pending, or it was acknowledged, or it has a dead-letter copy
      with the same user fields. */
  lemma PendingLeavesSafely(c: Config, steps: seq<Step>, key: Key)
    requires key in Run(c, steps).delivered
    ensures var s := Run(c, steps);
            || key in s.pending
            || KeyAcknowledged(s, key)
            || (key in s.copies && Carries(s, s.copies[key], key.id))
  {
    RunInv(c, steps);
    RunAcks(c, steps);
  }

  /** An entry is deleted only after a replay added an entry with the same user fields. */
  lemma DeletedOnlyAfterRequeue(c: Config, steps: seq<Step>, id: nat)
    requires id in Run(c, steps).ever && id !in Run(c, steps).present
    ensures var s := Run(c, steps);
            id in s.requeued && Carries(s, s.requeued[id], id)
  {
    RunInv(c, steps);
  }

  /** Following requeues from any entry ends at one that is still there. */
  lemma {:induction false} LiveDescendant(s: State, id: nat) returns (live: nat)
    requires Inv(s) && id in s.ever
    ensures live >= id && live in s.present && Carries(s, live, id)
    decreases s.next - id
  {
    if id in s.present {
      live := id;
    } else {
      live := LiveDescendant(s, s.requeued[id]);
    }
  }

  /** The two together: a message nobody acknowledged that is no longer pending has a dead-letter
      copy, and an entry with its user fields, that copy or one a chain of replays added after
      it, is present in some stream. */
  lemma NothingVanishes(c: Config, steps: seq<Step>, key: Key)
    requires key in Run(c, steps).delivered && key !in Run(c, steps).pending
    requires !KeyAcknowledged(Run(c, steps), key)
    ensures var s := Run(c, steps);
            && key in s.copies && s.copies[key] > key.id
            && exists live :: live >= s.copies[key] && live in s.present && Carries(s, live, key.id)
  {
    RunInv(c, steps);
    RunAcks(c, steps);
    var s := Run(c, steps);
    var live := LiveDescendant(s, s.copies[key]);
    assert Carries(s, live, key.id);
  }

  ghost predicate NamesIdentify(ever: map<nat, Record>) {
    forall i, k ::
      i in ever && k in ever && ever[i].stream == ever[k].stream && ever[i].name == ever[k].name ==> i == k
  }

  lemma AddIdentifies(s: State, s': State, record: Record)
    requires NamesIdentify(s.ever) && NameFree(s, record.stream, record.name)
    requires s'.ever == s.ever[s.next := record]
    ensures NamesIdentify(s'.ever)
  {
  }

  lemma StepNamesIdentify(c: Config, s: State, step: Step)
    requires NamesIdentify(s.ever)
    ensures NamesIdentify(Apply(c, s, step).ever)
  {
    var added := EntryAdded(c, s, step);
    if added.Some? {
      AddIdentifies(s, Apply(c, s, step), added.value);
    }
  }

  /** A stream and an entry ID name one message, so an acknowledgement is of one message. */
  lemma {:induction false} RunNamesIdentify(c: Config, steps: seq<Step>)
    ensures NamesIdentify(Run(c, steps).ever)
  {
    if steps != [] {
      RunNamesIdentify(c, steps[..|steps| - 1]);
      StepNamesIdentify(c, Run(c, steps[..|steps| - 1]), steps[|steps| - 1]);
    }
  }
}
