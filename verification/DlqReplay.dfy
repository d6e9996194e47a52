/**
 replayDLQInternal (internal/service/dlq_replay.go): read a range of a DLQ stream, put each
 entry back on its target stream, then delete it from the DLQ if asked to.
 */
module DlqReplay {
  import opened Common
  import opened Positions
  import opened Dlq

  datatype Entry = Entry(id: nat, fields: Fields)

  /** A Redis error while replaying one entry; `applied` tells whether the command took effect anyway. */
  datatype Fault = AddFault(applied: bool) | DelFault(applied: bool)

  datatype ReplayRequest = ReplayRequest(
    dlqStream: string, target: string, count: int, first: nat, last: Option<nat>, delete: bool)

  /** The allowed publish streams (empty: all), the clock, and which entries hit a fault. */
  datatype Env = Env(allowed: seq<string>, now: nat -> string, faults: map<nat, Fault>)

  datatype Summary = Summary(replayed: nat, skipped: nat, ids: seq<nat>)

  // ---------------------------------------------------------------------------
  // What is replayed, and what it leaves
  // ---------------------------------------------------------------------------

  function Clamp(count: int): nat {
    if count <= 0 then 100 else if count > 1000 then 1000 else count
  }

  /** The entries of a range, in order; XRANGE then takes the first `Clamp(count)`. */
  function InRange(dlq: seq<Entry>, first: nat, last: Option<nat>): seq<Entry> {
    if dlq == [] then []
    else
      var n := |dlq| - 1;
      InRange(dlq[..n], first, last) +
      (if first <= dlq[n].id && (last.None? || dlq[n].id <= last.value) then [dlq[n]] else [])
  }

  function Picked(dlq: seq<Entry>, req: ReplayRequest): seq<Entry> {
    var all := InRange(dlq, req.first, req.last);
    if |all| <= Clamp(req.count) then all else all[..Clamp(req.count)]
  }

  /** An entry is put back only when it has a target and the target may be published to. */
  predicate Goes(env: Env, req: ReplayRequest, e: Entry) {
    var target := ReplayTarget(req.target, e.fields);
    target != "" && IsAllowed(env.allowed, target)
  }

  /** The XADD of one entry takes effect. */
  predicate AddLands(env: Env, e: Entry) {
    e.id in env.faults && env.faults[e.id].AddFault? ==> env.faults[e.id].applied
  }

  /** The XDEL of one entry is sent, the XADD having answered, and takes effect. */
  predicate DeleteLands(env: Env, req: ReplayRequest, e: Entry) {
    req.delete && (e.id in env.faults ==> env.faults[e.id].DelFault? && env.faults[e.id].applied)
  }

  function Requeue(env: Env, req: ReplayRequest, e: Entry): (string, Fields) {
    (ReplayTarget(req.target, e.fields), ReplayValues(Trim(req.dlqStream), env.now(e.id), e.fields))
  }

  function Requeues(env: Env, req: ReplayRequest, es: seq<Entry>): seq<(string, Fields)> {
    if es == [] then []
    else
      var n := |es| - 1;
      Requeues(env, req, es[..n]) + (if Goes(env, req, es[n]) then [Requeue(env, req, es[n])] else [])
  }

  function Ids(env: Env, req: ReplayRequest, es: seq<Entry>): seq<nat> {
    if es == [] then []
    else
      var n := |es| - 1;
      Ids(env, req, es[..n]) + (if Goes(env, req, es[n]) then [es[n].id] else [])
  }

  /** The DLQ without the given IDs. */
  function Remaining(dlq: seq<Entry>, gone: set<nat>): seq<Entry> {
    if dlq == [] then []
    else
      var n := |dlq| - 1;
      Remaining(dlq[..n], gone) + (if dlq[n].id in gone then [] else [dlq[n]])
  }

  function Deleted(env: Env, req: ReplayRequest, es: seq<Entry>): set<nat> {
    if req.delete then set id | id in Ids(env, req, es) else {}
  }

  lemma {:induction false} RemainingNone(dlq: seq<Entry>)
    ensures Remaining(dlq, {}) == dlq
  {
    if dlq != [] {
      RemainingNone(dlq[..|dlq| - 1]);
      assert dlq == dlq[..|dlq| - 1] + [dlq[|dlq| - 1]];
    }
  }

  lemma {:induction false} RemainingOneMore(dlq: seq<Entry>, gone: set<nat>, id: nat)
    ensures Remaining(Remaining(dlq, gone), {id}) == Remaining(dlq, gone + {id})
  {
    if dlq != [] {
      var n := |dlq| - 1;
      RemainingOneMore(dlq[..n], gone, id);
      var kept := Remaining(dlq[..n], gone);
      assert (kept + [dlq[n]])[..|kept|] == kept;
      assert kept + [] == kept;
    }
  }

  /** The stream, the requeued copies and the tally after the first `k` picked entries. */
  ghost predicate Done(env: Env, req: ReplayRequest, dlq0: seq<Entry>, added0: seq<(string, Fields)>, es: seq<Entry>,
                       dlq: seq<Entry>, added: seq<(string, Fields)>, tally: Summary)
  {
    && dlq == Remaining(dlq0, Deleted(env, req, es))
    && added == added0 + Requeues(env, req, es)
    && Counted(env, req, es, tally)
  }

  lemma DoneStart(env: Env, req: ReplayRequest, dlq: seq<Entry>, added: seq<(string, Fields)>)
    ensures Done(env, req, dlq, added, [], dlq, added, Summary(0, 0, []))
  {
    RemainingNone(dlq);
    assert Deleted(env, req, []) == {};
    assert added + [] == added;
  }

  lemma OneMore(env: Env, req: ReplayRequest, es: seq<Entry>, e: Entry)
    ensures !Goes(env, req, e) ==>
              Ids(env, req, es + [e]) == Ids(env, req, es) && Requeues(env, req, es + [e]) == Requeues(env, req, es)
    ensures Goes(env, req, e) ==>
              && Ids(env, req, es + [e]) == Ids(env, req, es) + [e.id]
              && Requeues(env, req, es + [e]) == Requeues(env, req, es) + [Requeue(env, req, e)]
  {
    assert (es + [e])[..|es|] == es;
  }

  lemma DeletedOneMore(env: Env, req: ReplayRequest, dlq0: seq<Entry>, es: seq<Entry>, e: Entry)
    ensures Remaining(dlq0, Deleted(env, req, es + [e])) ==
            if Goes(env, req, e) && req.delete then Remaining(Remaining(dlq0, Deleted(env, req, es)), {e.id})
            else Remaining(dlq0, Deleted(env, req, es))
  {
    OneMore(env, req, es, e);
    if Goes(env, req, e) && req.delete {
      assert Deleted(env, req, es + [e]) == Deleted(env, req, es) + {e.id};
      RemainingOneMore(dlq0, Deleted(env, req, es), e.id);
    } else {
      assert Deleted(env, req, es + [e]) == Deleted(env, req, es);
    }
  }

  lemma DoneNext(
    env: Env, req: ReplayRequest, dlq0: seq<Entry>, added0: seq<(string, Fields)>, es: seq<Entry>, e: Entry,
    dlq: seq<Entry>, added: seq<(string, Fields)>, tally: Summary)
    requires Done(env, req, dlq0, added0, es, dlq, added, tally)
    ensures !Goes(env, req, e) ==>
              Done(env, req, dlq0, added0, es + [e], dlq, added, tally.(skipped := tally.skipped + 1))
    ensures Goes(env, req, e) ==>
              Done(env, req, dlq0, added0, es + [e],
                   if req.delete then Remaining(dlq, {e.id}) else dlq,
                   added + [Requeue(env, req, e)],
                   Summary(tally.replayed + 1, tally.skipped, tally.ids + [e.id]))
  {
    OneMore(env, req, es, e);
    DeletedOneMore(env, req, dlq0, es, e);
  }

  // ---------------------------------------------------------------------------
  // The operation
  // ---------------------------------------------------------------------------

  class Replayer {
    const env: Env
    var dlq: seq<Entry>
    var added: seq<(string, Fields)>  // XADDs that took effect: target stream and fields

    constructor (env: Env, dlq: seq<Entry>)
      ensures this.env == env && this.dlq == dlq && added == []
    {
      this.env, this.dlq, this.added := env, dlq, [];
    }

    /** One picked entry with a target: add, then delete. On an error nothing after it happens. */
    method RequeueEntry(req: ReplayRequest, e: Entry) returns (ok: bool)
      requires Goes(env, req, e)
      modifies this
      ensures ok <==> e.id !in env.faults || (env.faults[e.id].DelFault? && !req.delete)
      ensures added == old(added) + if AddLands(env, e) then [Requeue(env, req, e)] else []
      ensures dlq == if DeleteLands(env, req, e) then Remaining(old(dlq), {e.id}) else old(dlq)
      ensures ok ==> AddLands(env, e) && (DeleteLands(env, req, e) <==> req.delete)
      ensures DeleteLands(env, req, e) ==> AddLands(env, e)
    {
      var values := BuildReplayValues(Trim(req.dlqStream), env.now(e.id), e.fields);
      var fault := if e.id in env.faults then Some(env.faults[e.id]) else None;
      if fault.Some? && fault.value.AddFault? {
        if fault.value.applied {
          added := added + [(ReplayTarget(req.target, e.fields), values)];
        }
        return false;
      }
      added := added + [(ReplayTarget(req.target, e.fields), values)];
      if req.delete {
        if fault.Some? {
          if fault.value.applied {
            dlq := Remaining(dlq, {e.id});
          }
          return false;
        }
        dlq := Remaining(dlq, {e.id});
      }
      return true;
    }

    /** The loop over the entries read. `finished` of them were handled completely; an error
        concerns the next one only. */
    method ReplayPicked(req: ReplayRequest, messages: seq<Entry>, ghost dlq0: seq<Entry>)
      returns (result: Summary, ok: bool, finished: nat)
      requires dlq0 == dlq && UniqueIds(dlq0) && forall e :: e in messages ==> e in dlq0
      modifies this
      ensures finished <= |messages| && (ok <==> finished == |messages|)
      ensures !ok ==> Goes(env, req, messages[finished]) && messages[finished].id in env.faults
      ensures Counted(env, req, messages[..finished], result)
      ensures ok ==> Done(env, req, dlq0, old(added), messages, dlq, added, result)
      ensures Left(env, req, dlq0, old(added), messages, finished, dlq, added)
      ensures PutBackFirst(env, req, dlq0, dlq, added)
    {
      result, finished := Summary(0, 0, []), 0;
      DoneStart(env, req, dlq, added);
      assert messages[..0] == [];
      while finished < |messages|
        invariant finished <= |messages|
        invariant Done(env, req, dlq0, old(added), messages[..finished], dlq, added, result)
      {
        var e := messages[finished];
        ghost var es, dlqNow, addedNow := messages[..finished], dlq, added;
        DoneNext(env, req, dlq0, old(added), es, e, dlq, added, result);
        assert messages[..finished + 1] == es + [e];
        if !Goes(env, req, e) {
          result := result.(skipped := result.skipped + 1);
        } else {
          var done := RequeueEntry(req, e);
          if !done {
            StoppedHere(env, req, dlq0, old(added), messages, finished, dlqNow, addedNow, result, dlq, added);
            return result, false, finished;
          }
          result := Summary(result.replayed + 1, result.skipped, result.ids + [e.id]);
        }
        finished := finished + 1;
      }
      assert messages[..|messages|] == messages;
      LeftAtEnd(env, req, dlq0, old(added), messages, dlq, added, result);
      ok := true;
    }

    /** The whole call: the tally counts exactly the entries handled completely, and whatever
        fails, an entry missing from the DLQ was put back on its target stream first. */
    method Replay(req: ReplayRequest, readOk: bool) returns (result: Summary, ok: bool, finished: nat)
      requires UniqueIds(dlq)
      modifies this
      ensures ok ==> Trim(req.dlqStream) != "" && readOk && finished == |Picked(old(dlq), req)|
      ensures finished <= |Picked(old(dlq), req)|
      ensures !ok && Trim(req.dlqStream) != "" && readOk ==>
                finished < |Picked(old(dlq), req)| && Picked(old(dlq), req)[finished].id in env.faults
      ensures Counted(env, req, Picked(old(dlq), req)[..finished], result)
      ensures ok ==> Done(env, req, old(dlq), old(added), Picked(old(dlq), req), dlq, added, result)
      ensures PutBackFirst(env, req, old(dlq), dlq, added)
      ensures Trim(req.dlqStream) != "" && readOk ==>
                Left(env, req, old(dlq), old(added), Picked(old(dlq), req), finished, dlq, added)
      ensures !(Trim(req.dlqStream) != "" && readOk) ==> dlq == old(dlq) && added == old(added)
      ensures !req.delete ==> dlq == old(dlq)
      ensures Trim(req.target) != "" ==>
                forall k :: |old(added)| <= k < |added| ==> added[k].0 == Trim(req.target)
      ensures ok && req.delete ==>
                forall e :: e in old(dlq) ==> (e in dlq <==> !(e in Picked(old(dlq), req) && Goes(env, req, e)))
    {
      if Trim(req.dlqStream) == "" || !readOk {
        return Summary(0, 0, []), false, 0;
      }
      PickedMembers(dlq, req);
      ghost var dlq0, added0, messages := dlq, added, Picked(dlq, req);
      result, ok, finished := ReplayPicked(req, Picked(dlq, req), dlq);
      LeftMeans(env, req, dlq0, added0, messages, finished, dlq, added);
      if ok && req.delete {
        DeletedExactly(env, req, dlq0, messages);
        assert messages[..finished] == messages;
      }
    }
  }

  /** What a replay of `messages` that handled `finished` of them leaves: their requeues in order,
      and of the next one what took effect. */
  ghost predicate Left(
    env: Env, req: ReplayRequest, dlq0: seq<Entry>, added0: seq<(string, Fields)>, messages: seq<Entry>,
    finished: nat, dlq: seq<Entry>, added: seq<(string, Fields)>) {
    && finished <= |messages|
    && var done := messages[..finished];
    var kept := Remaining(dlq0, Deleted(env, req, done));
    if finished == |messages| then dlq == kept && added == added0 + Requeues(env, req, done)
    else
      var e := messages[finished];
      && dlq == (if DeleteLands(env, req, e) then Remaining(kept, {e.id}) else kept)
      && added == added0 + Requeues(env, req, done) + if AddLands(env, e) then [Requeue(env, req, e)] else []
  }

  /** An error at the next entry: what took effect of it is all there is beyond the finished ones. */
  lemma StoppedHere(
    env: Env, req: ReplayRequest, dlq0: seq<Entry>, added0: seq<(string, Fields)>, messages: seq<Entry>,
    finished: nat, dlq: seq<Entry>, added: seq<(string, Fields)>, tally: Summary,
    dlq': seq<Entry>, added': seq<(string, Fields)>)
    requires finished < |messages| && Done(env, req, dlq0, added0, messages[..finished], dlq, added, tally)
    requires UniqueIds(dlq0) && (forall y :: y in messages ==> y in dlq0) && Goes(env, req, messages[finished])
    requires DeleteLands(env, req, messages[finished]) ==> AddLands(env, messages[finished])
    requires var e := messages[finished];
             && dlq' == (if DeleteLands(env, req, e) then Remaining(dlq, {e.id}) else dlq)
             && added' == added + if AddLands(env, e) then [Requeue(env, req, e)] else []
    ensures Left(env, req, dlq0, added0, messages, finished, dlq', added')
    ensures PutBackFirst(env, req, dlq0, dlq', added')
  {
    assert added + [] == added;
    PartialSafe(env, req, dlq0, added0, messages[..finished], messages[finished], dlq, added, tally, dlq', added');
  }

  lemma LeftAtEnd(
    env: Env, req: ReplayRequest, dlq0: seq<Entry>, added0: seq<(string, Fields)>, messages: seq<Entry>,
    dlq: seq<Entry>, added: seq<(string, Fields)>, tally: Summary)
    requires Done(env, req, dlq0, added0, messages, dlq, added, tally)
    requires UniqueIds(dlq0) && forall y :: y in messages ==> y in dlq0
    ensures Left(env, req, dlq0, added0, messages, |messages|, dlq, added)
    ensures PutBackFirst(env, req, dlq0, dlq, added)
  {
    assert messages[..|messages|] == messages;
    DoneSafe(env, req, dlq0, added0, messages, dlq, added, tally);
  }

  ghost predicate Counted(env: Env, req: ReplayRequest, es: seq<Entry>, tally: Summary) {
    tally.ids == Ids(env, req, es) && tally.replayed == |tally.ids| && tally.replayed + tally.skipped == |es|
  }

  ghost predicate PutBackFirst(
    env: Env, req: ReplayRequest, dlq0: seq<Entry>, dlq: seq<Entry>, added: seq<(string, Fields)>) {
    forall e :: e in dlq0 && e !in dlq ==> Goes(env, req, e) && Requeue(env, req, e) in added
  }

  // ---------------------------------------------------------------------------
  // An entry that has left the DLQ was put back on its target stream first
  // ---------------------------------------------------------------------------

  /** Entry IDs of one stream are unique. */
  ghost predicate UniqueIds(dlq: seq<Entry>) {
    forall x, y :: x in dlq && y in dlq && x.id == y.id ==> x == y
  }

  lemma {:induction false} InRangeMembers(dlq: seq<Entry>, first: nat, last: Option<nat>)
    ensures forall e :: e in InRange(dlq, first, last) ==> e in dlq
  {
    if dlq != [] {
      InRangeMembers(dlq[..|dlq| - 1], first, last);
      assert dlq == dlq[..|dlq| - 1] + [dlq[|dlq| - 1]];
    }
  }

  lemma PickedMembers(dlq: seq<Entry>, req: ReplayRequest)
    ensures forall e :: e in Picked(dlq, req) ==> e in dlq
  {
    InRangeMembers(dlq, req.first, req.last);
  }

  lemma {:induction false} RemainingMembers(dlq: seq<Entry>, gone: set<nat>)
    ensures forall e :: e in Remaining(dlq, gone) <==> e in dlq && e.id !in gone
  {
    if dlq != [] {
      RemainingMembers(dlq[..|dlq| - 1], gone);
      assert dlq == dlq[..|dlq| - 1] + [dlq[|dlq| - 1]];
    }
  }

  lemma {:induction false} IdsComeFrom(env: Env, req: ReplayRequest, es: seq<Entry>, id: nat) returns (e: Entry)
    requires id in Ids(env, req, es)
    ensures e in es && e.id == id && Goes(env, req, e) && Requeue(env, req, e) in Requeues(env, req, es)
  {
    var n := |es| - 1;
    if id in Ids(env, req, es[..n]) {
      e := IdsComeFrom(env, req, es[..n], id);
    } else {
      e := es[n];
    }
  }

  lemma DoneSafe(env: Env, req: ReplayRequest, dlq0: seq<Entry>, added0: seq<(string, Fields)>, es: seq<Entry>,
    dlq: seq<Entry>, added: seq<(string, Fields)>, tally: Summary)
    requires Done(env, req, dlq0, added0, es, dlq, added, tally)
    requires UniqueIds(dlq0) && forall x :: x in es ==> x in dlq0
    ensures PutBackFirst(env, req, dlq0, dlq, added)
  {
    RemainingMembers(dlq0, Deleted(env, req, es));
    forall e | e in dlq0 && e !in dlq
      ensures Goes(env, req, e) && Requeue(env, req, e) in added
    {
      var x := IdsComeFrom(env, req, es, e.id);
      assert x == e;
    }
  }

  lemma PartialSafe(
    env: Env, req: ReplayRequest, dlq0: seq<Entry>, added0: seq<(string, Fields)>, es: seq<Entry>, e: Entry,
    dlq: seq<Entry>, added: seq<(string, Fields)>, tally: Summary,
    dlq': seq<Entry>, added': seq<(string, Fields)>)
    requires Done(env, req, dlq0, added0, es, dlq, added, tally) && Goes(env, req, e) && e in dlq0
    requires UniqueIds(dlq0) && forall y :: y in es ==> y in dlq0
    requires added' == added || added' == added + [Requeue(env, req, e)]
    requires dlq' == dlq || (dlq' == Remaining(dlq, {e.id}) && added' == added + [Requeue(env, req, e)])
    ensures PutBackFirst(env, req, dlq0, dlq', added')
  {
    DoneSafe(env, req, dlq0, added0, es, dlq, added, tally);
    RemainingMembers(dlq, {e.id});
  }

  // ---------------------------------------------------------------------------
  // Which entries, in which order, to which stream
  // ---------------------------------------------------------------------------

  ghost predicate InReach(req: ReplayRequest, e: Entry) {
    req.first <= e.id && (req.last.Some? ==> e.id <= req.last.value)
  }

  lemma {:induction false} InRangeAt(dlq: seq<Entry>, req: ReplayRequest) returns (at: seq<nat>)
    ensures PicksAt(dlq, InRange(dlq, req.first, req.last), at)
    ensures forall v: nat :: v in at <==> v < |dlq| && InReach(req, dlq[v])
  {
    at := [];
    if dlq != [] {
      var n := |dlq| - 1;
      at := InRangeAt(dlq[..n], req);
      PicksLonger(dlq[..n], dlq[n], InRange(dlq[..n], req.first, req.last), at);
      assert dlq == dlq[..n] + [dlq[n]];
      if InReach(req, dlq[n]) {
        at := at + [n];
      }
    }
  }

  /** A replay reads entries of the asked range, in order, from the first: up to 1000, or 100 when
      no count is given; an entry of the range is only passed over when that many come before it. */
  lemma PickedAt(dlq: seq<Entry>, req: ReplayRequest) returns (at: seq<nat>)
    ensures PicksAt(dlq, Picked(dlq, req), at)
    ensures forall v: nat :: v in at ==> v < |dlq| && InReach(req, dlq[v])
    ensures var limit := if req.count <= 0 then 100 else if req.count < 1000 then req.count else 1000;
            && |at| <= limit
            && forall v: nat :: v < |dlq| && InReach(req, dlq[v]) && v !in at ==>
                 |at| == limit && forall i :: 0 <= i < |at| ==> at[i] < v
  {
    var all := InRangeAt(dlq, req);
    at := if |all| <= Clamp(req.count) then all else all[..Clamp(req.count)];
    forall v: nat | v < |dlq| && InReach(req, dlq[v]) && v !in at
      ensures |at| == Clamp(req.count) && forall i :: 0 <= i < |at| ==> at[i] < v
    {
      assert v in all;
      var k :| 0 <= k < |all| && all[k] == v;
      forall i | 0 <= i < |at|
        ensures all[i] in at
      {
        assert at[i] == all[i];
      }
    }
  }

  /** Of the entries read, exactly those with an allowed target are put back, in order. */
  lemma {:induction false} RequeuesAt(env: Env, req: ReplayRequest, es: seq<Entry>) returns (at: seq<nat>)
    ensures Increasing(at, |es|) && |at| == |Requeues(env, req, es)| == |Ids(env, req, es)|
    ensures forall i :: 0 <= i < |at| ==>
              Requeues(env, req, es)[i] == Requeue(env, req, es[at[i]]) && Ids(env, req, es)[i] == es[at[i]].id
    ensures forall v: nat :: v in at <==> v < |es| && Goes(env, req, es[v])
  {
    at := [];
    if es != [] {
      var n := |es| - 1;
      at := RequeuesAt(env, req, es[..n]);
      IncreasingLonger(at, n);
      if Goes(env, req, es[n]) {
        at := at + [n];
      }
    }
  }

  /** An override decides alone, whatever the entry's fields: every entry goes to it, or, if it
      may not be published to, none does. */
  lemma OverrideDecides(env: Env, req: ReplayRequest, e: Entry)
    requires Trim(req.target) != ""
    ensures Goes(env, req, e) <==> IsAllowed(env.allowed, Trim(req.target))
    ensures Requeue(env, req, e).0 == Trim(req.target)
  {
  }

  /** Without an override, an entry that names no stream is skipped, and one that does goes there
      if it may be published to. */
  lemma NamedStreamDecides(env: Env, req: ReplayRequest, e: Entry)
    requires Trim(req.target) == ""
    ensures ORIGINAL_STREAM !in e.fields ==> !Goes(env, req, e)
    ensures ORIGINAL_STREAM in e.fields ==>
              var named := Trim(e.fields[ORIGINAL_STREAM]);
              (Goes(env, req, e) <==> named != "" && IsAllowed(env.allowed, named)) &&
              Requeue(env, req, e).0 == named
  {
  }

  lemma {:induction false} OverrideForAll(env: Env, req: ReplayRequest, es: seq<Entry>)
    requires Trim(req.target) != ""
    ensures forall k :: 0 <= k < |Requeues(env, req, es)| ==> Requeues(env, req, es)[k].0 == Trim(req.target)
  {
    var at := RequeuesAt(env, req, es);
    forall k | 0 <= k < |Requeues(env, req, es)|
      ensures Requeues(env, req, es)[k].0 == Trim(req.target)
    {
      OverrideDecides(env, req, es[at[k]]);
    }
  }

  /** What is left means, for the flags of the request: nothing deleted unless asked to, nothing
      sent elsewhere than to an override. */
  lemma LeftMeans(
    env: Env, req: ReplayRequest, dlq0: seq<Entry>, added0: seq<(string, Fields)>, messages: seq<Entry>,
    finished: nat, dlq: seq<Entry>, added: seq<(string, Fields)>)
    requires Left(env, req, dlq0, added0, messages, finished, dlq, added)
    ensures !req.delete ==> dlq == dlq0
    ensures Trim(req.target) != "" ==> forall k :: |added0| <= k < |added| ==> added[k].0 == Trim(req.target)
  {
    RemainingNone(dlq0);
    if Trim(req.target) != "" {
      OverrideForAll(env, req, messages[..finished]);
      if finished < |messages| {
        OverrideDecides(env, req, messages[finished]);
      }
    }
  }

  lemma DeletedExactly(env: Env, req: ReplayRequest, dlq0: seq<Entry>, es: seq<Entry>)
    requires UniqueIds(dlq0) && (forall x :: x in es ==> x in dlq0) && req.delete
    ensures forall e :: e in dlq0 ==>
              (e in Remaining(dlq0, Deleted(env, req, es)) <==> !(e in es && Goes(env, req, e)))
  {
    RemainingMembers(dlq0, Deleted(env, req, es));
    var at := RequeuesAt(env, req, es);
    forall e | e in dlq0
      ensures e.id in Ids(env, req, es) <==> e in es && Goes(env, req, e)
    {
      if e.id in Ids(env, req, es) {
        var x := IdsComeFrom(env, req, es, e.id);
        assert x == e;
      }
      if e in es && Goes(env, req, e) {
        var v :| 0 <= v < |es| && es[v] == e;
        assert v in at;
        var i :| 0 <= i < |at| && at[i] == v;
        assert Ids(env, req, es)[i] == e.id;
      }
    }
  }

  // ---------------------------------------------------------------------------
  // Exactly when a replay undoes a move
  // ---------------------------------------------------------------------------

  /** A replay without override puts the dead-lettered message back on the stream it came from. */
  predicate Returns(env: Env, req: ReplayRequest, id: nat, mv: Move, m: Fields) {
    var entry := Entry(id, MoveValues(mv, m));
    Goes(env, req, entry) && Requeue(env, req, entry).0 == mv.stream
  }

  /** The message has no `dlq_original_stream` of its own that names another stream. */
  predicate NamesNoOther(mv: Move, m: Fields) {
    ORIGINAL_STREAM in m ==> Trim(m[ORIGINAL_STREAM]) == mv.stream
  }

  /** Both conditions are needed: the message must not name another stream, and the stream it
      was moved from must be one the sidecar may publish to. (Streams are scanned under their
      trimmed, non-blank names.) */
  lemma ReplayUndoesMove(env: Env, req: ReplayRequest, id: nat, mv: Move, m: Fields)
    requires Trim(req.target) == "" && IsName(mv.stream)
    ensures Returns(env, req, id, mv, m) <==> NamesNoOther(mv, m) && IsAllowed(env.allowed, mv.stream)
  {
    MetaKeysAreDlqKeys(mv);
  }

  /** The same on the k-th move of a message that went through cycles before: what the message
      names matters on its first move only, the publish streams on every one. */
  lemma CycleReturns(env: Env, req: ReplayRequest, id: nat, m: Fields, cycles: seq<Cycle>, k: nat)
    requires k < |cycles| && Trim(req.target) == "" && IsName(cycles[k].mv.stream)
    ensures Returns(env, req, id, cycles[k].mv, AfterCycles(m, cycles[..k])) <==>
            (k == 0 ==> NamesNoOther(cycles[0].mv, m)) && IsAllowed(env.allowed, cycles[k].mv.stream)
  {
    ReplayUndoesMove(env, req, id, cycles[k].mv, AfterCycles(m, cycles[..k]));
    if k > 0 {
      Cycles(m, cycles[..k]);
    } else {
      assert AfterCycles(m, cycles[..0]) == m;
    }
  }

  /** Every cycle brings the message back exactly when it starts without naming another stream
      and every stream it is moved from may be published to. */
  lemma AllCyclesReturn(env: Env, req: ReplayRequest, id: nat, m: Fields, cycles: seq<Cycle>)
    requires cycles != [] && Trim(req.target) == ""
    requires forall k :: 0 <= k < |cycles| ==> IsName(cycles[k].mv.stream)
    ensures (forall k: nat :: k < |cycles| ==> Returns(env, req, id, cycles[k].mv, AfterCycles(m, cycles[..k]))) <==>
            && NamesNoOther(cycles[0].mv, m)
            && forall k: nat :: k < |cycles| ==> IsAllowed(env.allowed, cycles[k].mv.stream)
  {
    forall k: nat | k < |cycles|
      ensures Returns(env, req, id, cycles[k].mv, AfterCycles(m, cycles[..k])) <==>
              (k == 0 ==> NamesNoOther(cycles[0].mv, m)) && IsAllowed(env.allowed, cycles[k].mv.stream)
    {
      CycleReturns(env, req, id, m, cycles, k);
    }
  }

  const BLANK_OVERRIDE := ReplayRequest("orders.dlq", "", 100, 0, None, true)

  /** The first failing input: a message of a stream that is consumed but not published. It is
      skipped by every replay without override, whatever its fields. */
  lemma ConsumeOnlyStreamIsSkipped(now: nat -> string, id: nat, m: Fields)
    requires ORIGINAL_STREAM !in m
    ensures var env := Env(["orders"], now, map[]);
            var mv := Move("payments", "billing", "1-0", "5", "60000", "t");
            && !Goes(env, BLANK_OVERRIDE, Entry(id, MoveValues(mv, m)))
            && !Returns(env, BLANK_OVERRIDE, id, mv, m)
  {
    var mv := Move("payments", "billing", "1-0", "5", "60000", "t");
    MetaKeysAreDlqKeys(mv);
    assert Trim("payments") == "payments" by { assert !IsSpace('p') && !IsSpace('s'); }
    assert "payments"[0] != "orders"[0];
    assert Trim(BLANK_OVERRIDE.target) == "";
  }

  /** The second: a message that arrives naming another stream is sent there instead. */
  lemma NamedStreamOverrides(now: nat -> string, id: nat)
    ensures var env := Env([], now, map[]);
            var mv := Move("orders", "billing", "1-0", "5", "60000", "t");
            var entry := Entry(id, MoveValues(mv, map[ORIGINAL_STREAM := "audit"]));
            && Goes(env, BLANK_OVERRIDE, entry)
            && Requeue(env, BLANK_OVERRIDE, entry).0 == "audit"
            && !Returns(env, BLANK_OVERRIDE, id, mv, map[ORIGINAL_STREAM := "audit"])
  {
    assert Trim("audit") == "audit" by { assert !IsSpace('a') && !IsSpace('t'); }
    assert "audit"[0] != "orders"[0];
    assert Trim(BLANK_OVERRIDE.target) == "";
  }
}
