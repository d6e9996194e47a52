/**
 What the steps of the consume side do (internal/service/consume.go,
 internal/service/dispatcher.go, internal/service/service.go, internal/service/dlq_replay.go),
 in terms of messages, lists and entries.
 */
module NoVanishExact {
  import opened Common
  import opened DispatcherKeys
  import opened Dlq
  import L = AckLoop
  import A = AckRuns
  import opened NoVanish

  /** A message is delivered to a group once, and is pending from then on. */
  lemma DeliverExactly(c: Config, s: State, key: Key)
    ensures var s' := Apply(c, s, Deliver(key));
            && s'.delivered == (if key.id in s.present then s.delivered + {key} else s.delivered)
            && s'.pending == if key.id in s.present && key !in s.delivered then s.pending + {key} else s.pending
  {
  }

  /** A new entry is there under the next number, unless its name is taken. */
  lemma PublishExactly(c: Config, s: State, record: Record)
    requires NameFree(s, record.stream, record.name)
    ensures var s' := Apply(c, s, Publish(record));
            s'.ever == s.ever[s.next := record] && s'.present == s.present + {s.next} && s'.next == s.next + 1
  {
  }

  /** The message is named by an XACK on this stream and group. */
  ghost predicate IsNamed(s: State, stream: string, group: string, names: set<string>, key: Key) {
    key.group == group && key.id in s.ever && s.ever[key.id].stream == stream && s.ever[key.id].name in names
  }

  /** An ack loop's step takes off the pending list exactly the messages of its stream and group
      that its XACKs take effect on. */
  lemma LoopExactly(c: Config, s: State, d: nat, step: A.Step, key: Key)
    requires d < |s.acks.dispatchers| && !step.QueueAck?
    ensures var s', disp := Apply(c, s, LoopStep(d, step)), s.acks.dispatchers[d];
            var names := A.Xacked(c.ackLoop, disp.acks, step);
            && (key in s'.pending <==> key in s.pending && !IsNamed(s, disp.stream, disp.group, names, key))
            && s'.acks.dispatchers[d].acks == A.Apply(c.ackLoop, disp.acks, step)
  {
  }

  /** A direct acknowledgement, for a stream that may be consumed, takes off exactly the messages
      it names, if its XACK takes effect. */
  lemma DirectAckExactly(c: Config, s: State, stream: string, group: string, ids: seq<string>, out: Cmd, key: Key)
    ensures var s' := Apply(c, s, DirectAck(stream, group, ids, out));
            var complete := Trim(stream) != "" && Trim(group) != "" && ids != [];
            var allowed := complete && IsAllowed(c.consumeStreams, Trim(stream));
            var named := IsNamed(s, Trim(stream), Trim(group), (set id | id in ids), key);
            key in s'.pending <==> key in s.pending && !(allowed && out != NotApplied && named)
  {
    assert (set id | id in ids) == L.Elems(ids);
  }

  /** A queued acknowledgement goes to the dispatcher in the map under its key, if there is one
      and it accepts; no list changes yet. */
  lemma QueueAckExactly(c: Config, s: State, stream: string, group: string, ids: seq<string>, pickDone: bool)
    ensures var s' := Apply(c, s, QueueAck(stream, group, ids, pickDone));
            var key := DispatcherKey(Trim(stream), Trim(group));
            && s'.pending == s.pending && s'.xacked == s.xacked
            && (key in s.acks.current && s.acks.current[key] < |s.acks.dispatchers| &&
                MayConsume(c, Trim(stream), Trim(group)) ==>
                  var d := s.acks.current[key];
                  var q := s.acks.dispatchers[d].acks;
                  s'.acks.dispatchers[d].acks == A.Apply(c.ackLoop, q, A.QueueAck(ids, pickDone)))
            && (key !in s.acks.current ==> s' == s)
  {
  }

  /** What counts as a client's acknowledgement: each ID of a request its dispatcher accepted,
      trimmed; and (below) each ID of a direct request for a stream that may be consumed. */
  lemma ClaimsExactly(
    c: Config, s: State, stream: string, group: string, ids: seq<string>, pickDone: bool, claim: Claim)
    ensures var s' := Apply(c, s, QueueAck(stream, group, ids, pickDone));
            var key := DispatcherKey(Trim(stream), Trim(group));
            claim in s'.acks.claims <==>
            || claim in s.acks.claims
            || (&& key in s.acks.current && s.acks.current[key] < |s.acks.dispatchers|
                && MayConsume(c, Trim(stream), Trim(group))
                && (var q := s.acks.dispatchers[s.acks.current[key]].acks;
                    L.AckOutcome(c.ackLoop, q.queue, q.cancelled, ids, pickDone).Accepted?)
                && claim.stream == Trim(stream) && claim.group == Trim(group) && claim.name in L.Cleaned(ids))
  {
    ClaimsMembers(Trim(stream), Trim(group), L.Cleaned(ids), claim);
  }

  lemma DirectClaimsExactly(
    c: Config, s: State, stream: string, group: string, ids: seq<string>, out: Cmd, claim: Claim)
    ensures var s' := Apply(c, s, DirectAck(stream, group, ids, out));
            claim in s'.acks.claims <==>
            || claim in s.acks.claims
            || (MayConsume(c, Trim(stream), Trim(group)) && ids != [] &&
                claim.stream == Trim(stream) && claim.group == Trim(group) && claim.name in ids)
  {
    ClaimsMembers(Trim(stream), Trim(group), ids, claim);
  }

  lemma ClaimsMembers(stream: string, group: string, names: seq<string>, claim: Claim)
    ensures claim in Claims(stream, group, names) <==>
            claim.stream == stream && claim.group == group && claim.name in names
  {
    if claim.stream == stream && claim.group == group && claim.name in names {
      var i :| 0 <= i < |names| && names[i] == claim.name;
      assert claim == Claim(stream, group, names[i]);
    }
  }

  /** A move starts with the message as it is in its stream, a replay with the entry as it is. */
  lemma StartsExactly(c: Config, s: State, key: Key, mv: Move, dlqStream: string, id: nat, target: string, now: string)
    requires key in s.pending && key.id in s.present && key.id in s.ever
    requires id in s.present && id in s.ever && target != ""
    ensures Apply(c, s, StartMove(key, mv, dlqStream)).moves
            == s.moves + [MoveTask(key, mv, dlqStream, s.ever[key.id].fields, MoveRead)]
    ensures Apply(c, s, StartReplay(id, target, now)).replays
            == s.replays + [ReplayTask(id, s.ever[id].stream, target, now, s.ever[id].fields, ReplayRead)]
  {
  }

  /** Subscribing puts a dispatcher with an empty ack loop under a key that has none; removing
      one leaves its loop running. */
  lemma DispatchersExactly(c: Config, s: State, stream: string, group: string, key: string)
    ensures var s', k := Apply(c, s, StartDispatcher(stream, group)), DispatcherKey(Trim(stream), Trim(group));
            MayConsume(c, Trim(stream), Trim(group)) && k !in s.acks.current ==>
              && s'.acks.current == s.acks.current[k := |s.acks.dispatchers|]
              && s'.acks.dispatchers == s.acks.dispatchers + [Dispatcher(Trim(stream), Trim(group), A.INIT)]
    ensures var s' := Apply(c, s, DropDispatcher(key));
            key !in s'.acks.current && s'.acks.dispatchers == s.acks.dispatchers
  {
  }
}
