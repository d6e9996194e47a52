/**
 The dispatcher's batching ack loop: a deduplicating pending set, chunked and pipelined
 XACKs, and what stays pending when a flush fails (internal/service/dispatcher.go).
 */
module AckLoop {
  import opened Common
  import opened Sorting
  import opened Positions

  /** One XACK command of a pipeline: applied and answered, applied with the answer lost, or
      not applied. */
  datatype Cmd = Acked | AckedLost | Failed

  /** What one pipeline comes back with: whether Exec reports an error other than redis.Nil,
      and how each command fared (missing ones were acked). */
  datatype Reply = Reply(execFails: bool, cmds: seq<Cmd>)

  const CLEAN := Reply(false, [])

  function CmdAt(r: Reply, i: nat): Cmd {
    if i < |r.cmds| then r.cmds[i] else Acked
  }

  function ReplyAt(replies: seq<Reply>, k: nat): Reply {
    if k < |replies| then replies[k] else CLEAN
  }

  /** Every command error shows up as an Exec error, as go-redis pipelines do. */
  predicate Surfaces(r: Reply) {
    r.execFails || forall i :: 0 <= i < |r.cmds| ==> r.cmds[i] == Acked
  }

  /** `pending` and `pendingInputEntries` of the loop, with what the outside has seen: the IDs
      XACKs took effect on, the chunks sent in XACKs, and the input entries reported to the
      compression metric. */
  datatype Loop = Loop(
    pending: set<string>,
    pendingInput: nat,
    acked: set<string>,
    sent: seq<seq<string>>,
    observed: nat)

  const START := Loop({}, 0, {}, [], 0)

  // ---------------------------------------------------------------------------
  // Chunks
  // ---------------------------------------------------------------------------

  /** A configured size, at least 1. */
  function AtLeastOne(n: int): (r: nat)
    ensures r >= 1 && r >= n && (r == 1 || r == n)
  {
    if n <= 0 then 1 else n
  }

  function Min(a: nat, b: nat): (m: nat)
    ensures m <= a && m <= b && (m == a || m == b)
  {
    if a <= b then a else b
  }

  function Chunks(items: seq<string>, size: nat): seq<seq<string>>
    requires size > 0
  {
    if items == [] then [] else [items[..Min(size, |items|)]] + Chunks(items[Min(size, |items|)..], size)
  }

  function Flatten(chunks: seq<seq<string>>): seq<string> {
    if chunks == [] then [] else chunks[0] + Flatten(chunks[1..])
  }

  function Elems(ids: seq<string>): set<string> {
    set id | id in ids
  }

  /** Chunking cuts the list into non-empty pieces of at most `size`, all but the last full. */
  lemma {:induction false} ChunksCut(items: seq<string>, size: nat)
    requires size > 0
    ensures var chunks := Chunks(items, size);
            && Flatten(chunks) == items
            && (forall i :: 0 <= i < |chunks| ==> 1 <= |chunks[i]| <= size)
            && (forall i :: 0 <= i < |chunks| - 1 ==> |chunks[i]| == size)
  {
    if items != [] {
      var k := Min(size, |items|);
      var head, rest := items[..k], Chunks(items[k..], size);
      ChunksCut(items[k..], size);
      ConsChunk(head, rest, size);
      assert items == head + items[k..];
    }
  }

  lemma ConsChunk(head: seq<string>, rest: seq<seq<string>>, size: nat)
    requires 1 <= |head| <= size && (rest != [] ==> |head| == size)
    requires forall i :: 0 <= i < |rest| ==> 1 <= |rest[i]| <= size
    requires forall i :: 0 <= i < |rest| - 1 ==> |rest[i]| == size
    ensures var chunks := [head] + rest;
            && Flatten(chunks) == head + Flatten(rest)
            && (forall i :: 0 <= i < |chunks| ==> 1 <= |chunks[i]| <= size)
            && (forall i :: 0 <= i < |chunks| - 1 ==> |chunks[i]| == size)
  {
    assert ([head] + rest)[1..] == rest;
  }

  lemma ChunksStep(items: seq<string>, size: nat, i: nat, end: nat)
    requires size > 0 && i < |items| && end == Min(i + size, |items|)
    ensures Chunks(items[i..], size) == [items[i..end]] + Chunks(items[end..], size)
  {
    assert items[i..][..end - i] == items[i..end];
    assert items[i..][end - i..] == items[end..];
  }

  lemma ChunksNext(items: seq<string>, size: nat, i: nat, end: nat, out: seq<seq<string>>, all: seq<seq<string>>)
    requires size > 0 && i < |items| && end == Min(i + size, |items|)
    requires all == out + Chunks(items[i..], size)
    ensures all == out + [items[i..end]] + Chunks(items[end..], size)
  {
    ChunksStep(items, size, i, end);
  }

  /** `chunkStringSlice`. */
  method ChunkStringSlice(items: seq<string>, chunkSize: int) returns (out: seq<seq<string>>)
    ensures out == Chunks(items, AtLeastOne(chunkSize))
    ensures Flatten(out) == items
    ensures forall i :: 0 <= i < |out| ==> 1 <= |out[i]| <= AtLeastOne(chunkSize)
  {
    var safeChunkSize := AtLeastOne(chunkSize);
    ghost var all := Chunks(items, safeChunkSize);
    out := [];
    var i := 0;
    assert items[0..] == items;
    while i < |items|
      invariant 0 <= i <= |items|
      invariant all == out + Chunks(items[i..], safeChunkSize)
    {
      var end := Min(i + safeChunkSize, |items|);
      ChunksNext(items, safeChunkSize, i, end, out, all);
      out := out + [items[i..end]];
      i := end;
    }
    assert out + [] == out;
    ChunksCut(items, safeChunkSize);
  }

  // ---------------------------------------------------------------------------
  // The order of a flush
  // ---------------------------------------------------------------------------

  ghost predicate Lists(ids: seq<string>, pending: set<string>) {
    multiset(ids) == multiset(pending)
  }

  ghost function SomeListing(pending: set<string>): (ids: seq<string>)
    ensures Lists(ids, pending)
  {
    if pending == {} then []
    else
      var id :| id in pending;
      var rest := SomeListing(pending - {id});
      assert multiset(pending) == multiset{id} + multiset(pending - {id});
      [id] + rest
  }

  /** The pending IDs in string order. */
  ghost function Ordered(pending: set<string>): seq<string> {
    Sort(SomeListing(pending), StringLe)
  }

  lemma OrderedLists(pending: set<string>)
    ensures Lists(Ordered(pending), pending) && Sorted(Ordered(pending), StringLe)
    ensures |Ordered(pending)| == |pending|
    ensures Elems(Ordered(pending)) == pending
    ensures Distinct(Ordered(pending))
  {
    StringOrder();
    SortSorts(SomeListing(pending), StringLe);
    var ids := Ordered(pending);
    assert |multiset(ids)| == |multiset(pending)|;
    forall id ensures id in ids <==> id in pending { MembersOf(ids, id); }
    ListsDistinct(ids, pending);
  }

  ghost predicate Distinct(ids: seq<string>) {
    forall i, j :: 0 <= i < j < |ids| ==> ids[i] != ids[j]
  }

  lemma RepeatCounts(ids: seq<string>, i: nat, j: nat)
    requires i < j < |ids| && ids[i] == ids[j]
    ensures multiset(ids)[ids[i]] >= 2
  {
    var pre, post := ids[..i + 1], ids[i + 1..];
    assert ids == pre + post;
    assert pre[i] == ids[i] && post[j - i - 1] == ids[i];
    assert ids[i] in multiset(pre) && ids[i] in multiset(post);
  }

  lemma ListsDistinct(ids: seq<string>, pending: set<string>)
    requires Lists(ids, pending)
    ensures Distinct(ids)
  {
    forall i, j | 0 <= i < j < |ids| ensures ids[i] != ids[j] {
      if ids[i] == ids[j] {
        RepeatCounts(ids, i, j);
        assert false;
      }
    }
  }

  /** Any listing of the pending set sorts to the same sequence. */
  lemma OrderedIsSort(ids: seq<string>, pending: set<string>)
    requires Lists(ids, pending)
    ensures Sort(ids, StringLe) == Ordered(pending)
  {
    StringOrder();
    SortForgetsOrder(ids, SomeListing(pending), StringLe);
  }

  // ---------------------------------------------------------------------------
  // What a flush does
  // ---------------------------------------------------------------------------

  /** IDs of the first `k` chunks whose XACK took effect. */
  function Applied(chunks: seq<seq<string>>, r: Reply, k: nat): set<string>
    requires k <= |chunks|
  {
    if k == 0 then {}
    else Applied(chunks, r, k - 1) + (if CmdAt(r, k - 1).Failed? then {} else Elems(chunks[k - 1]))
  }

  /** IDs of the first `k` chunks whose command answered without error. */
  function Answered(chunks: seq<seq<string>>, r: Reply, k: nat): set<string>
    requires k <= |chunks|
  {
    if k == 0 then {}
    else Answered(chunks, r, k - 1) + (if CmdAt(r, k - 1).Acked? then Elems(chunks[k - 1]) else {})
  }

  /** One pipeline: XACKs may take effect whatever comes back, but IDs leave the pending set
      only when Exec succeeded and their own command did. */
  function Pipelined(l: Loop, chunks: seq<seq<string>>, r: Reply): Loop {
    l.(
    pending := if r.execFails then l.pending else l.pending - Answered(chunks, r, |chunks|),
    acked := l.acked + Applied(chunks, r, |chunks|),
    sent := l.sent + chunks)
  }

  datatype Flushed = Flushed(loop: Loop, ok: bool)

  /** The pipelines from chunk `i` on, `width` chunks each, stopping at the first Exec error;
      `replies[k]` is what pipeline `k` comes back with. */
  function FlushFrom(l: Loop, chunks: seq<seq<string>>, i: nat, width: nat, replies: seq<Reply>, k: nat): Flushed
    requires width > 0
    decreases |chunks| - i
  {
    if i >= |chunks| then Flushed(l, true)
    else
      var end := Min(i + width, |chunks|);
      var l' := Pipelined(l, chunks[i..end], ReplyAt(replies, k));
      if ReplyAt(replies, k).execFails then Flushed(l', false) else FlushFrom(l', chunks, end, width, replies, k + 1)
  }

  /** A completed flush reports its input and restarts the input count from what is left. */
  function Reported(l: Loop): Loop {
    l.(observed := l.observed + l.pendingInput, pendingInput := |l.pending|)
  }

  datatype Config = Config(batchSize: int, concurrency: int, queueSize: nat)

  ghost function FlushAll(c: Config, l: Loop, replies: seq<Reply>): Flushed {
    var chunks := Chunks(Ordered(l.pending), AtLeastOne(c.batchSize));
    FlushFrom(l, chunks, 0, AtLeastOne(c.concurrency), replies, 0)
  }

  ghost function AfterFlush(c: Config, l: Loop, replies: seq<Reply>): Loop {
    if l.pending == {} then l
    else
      var f := FlushAll(c, l, replies);
      if f.ok then Reported(f.loop) else f.loop
  }

  function Added(l: Loop, entryIds: seq<string>): Loop {
    l.(pending := l.pending + Elems(entryIds), pendingInput := l.pendingInput + |entryIds|)
  }

  function AddedAll(l: Loop, queue: seq<seq<string>>): Loop
    decreases |queue|
  {
    if queue == [] then l else AddedAll(Added(l, queue[0]), queue[1..])
  }

  // ---------------------------------------------------------------------------
  // Accepting acknowledgements
  // ---------------------------------------------------------------------------

  /** The trimmed IDs, without the blank ones. */
  function Cleaned(entryIds: seq<string>): seq<string> {
    if entryIds == [] then []
    else
      var rest, id := Cleaned(entryIds[..|entryIds| - 1]), Trim(entryIds[|entryIds| - 1]);
      if id != "" then rest + [id] else rest
  }

  /** Cleaning keeps the IDs that are not blank, trimmed, in order. */
  lemma {:induction false} CleanedAt(entryIds: seq<string>) returns (at: seq<nat>)
    ensures TrimmedAt(entryIds, at, Cleaned(entryIds))
  {
    at := [];
    if entryIds != [] {
      var n := |entryIds| - 1;
      at := CleanedAt(entryIds[..n]);
      TrimmedLonger(entryIds[..n], entryIds[n], at, Cleaned(entryIds[..n]));
      assert entryIds == entryIds[..n] + [entryIds[n]];
      if Trim(entryIds[n]) != "" {
        at := at + [n];
      }
    }
  }

  datatype AckResult = Accepted(n: nat) | EntryIdsRequired | Closed | Backlog

  /** Once the dispatcher is cancelled while the queue has room, the select may go either way. */
  function AckOutcome(
    c: Config, queue: seq<seq<string>>, cancelled: bool, entryIds: seq<string>, pickDone: bool): AckResult {
    if Cleaned(entryIds) == [] then EntryIdsRequired
    else if |queue| < c.queueSize && !(cancelled && pickDone) then Accepted(|Cleaned(entryIds)|)
    else if cancelled then Closed
    else Backlog
  }

  /** What a client is told, in terms of its request: nothing but blank IDs; accepted, which
      needs room, counting every ID that is not blank; closed, only when cancelled; or backlog,
      exactly when there is no room and no cancellation. */
  lemma AckOutcomeExactly(
    c: Config, queue: seq<seq<string>>, cancelled: bool, entryIds: seq<string>, pickDone: bool)
    returns (at: seq<nat>)
    ensures TrimmedAt(entryIds, at, Cleaned(entryIds))
    ensures var r := AckOutcome(c, queue, cancelled, entryIds, pickDone);
            var blank := forall i :: 0 <= i < |entryIds| ==> Trim(entryIds[i]) == "";
            && (r.EntryIdsRequired? <==> blank)
            && (r.Accepted? <==> !blank && |queue| < c.queueSize && (cancelled ==> !pickDone))
            && (r.Accepted? ==> r.n == |at|)
            && (r.Backlog? <==> !blank && |queue| >= c.queueSize && !cancelled)
  {
    at := CleanedAt(entryIds);
    TrimmedNone(entryIds, at, Cleaned(entryIds));
  }

  // ---------------------------------------------------------------------------
  // The loop's own state
  // ---------------------------------------------------------------------------

  /** The variables `runAckLoop` keeps, and the record of what it made visible. */
  class Acker {
    const c: Config
    var pending: set<string>
    var pendingInputEntries: nat
    var acked: set<string>
    var sent: seq<seq<string>>
    var observed: nat
    var ackQueue: seq<seq<string>>
    var cancelled: bool

    ghost function State(): Loop
      reads this
    {
      Loop(pending, pendingInputEntries, acked, sent, observed)
    }

    constructor (c: Config)
      ensures State() == START && ackQueue == [] && !cancelled && this.c == c
    {
      this.c := c;
      ackQueue, cancelled := [], false;
      pending, pendingInputEntries, acked, sent, observed := {}, 0, {}, [], 0;
    }

    /** `queueAck`: all the cleaned IDs enter the queue as one batch, or none does. */
    method QueueAck(entryIds: seq<string>, pickDone: bool) returns (r: AckResult)
      modifies this`ackQueue
      ensures r == AckOutcome(c, old(ackQueue), cancelled, entryIds, pickDone)
      ensures ackQueue == if r.Accepted? then old(ackQueue) + [Cleaned(entryIds)] else old(ackQueue)
      ensures r.Accepted? ==>
                |ackQueue| == |old(ackQueue)| + 1 &&
                exists at :: TrimmedAt(entryIds, at, ackQueue[|old(ackQueue)|]) && r.n == |at|
    {
      ghost var at := CleanedAt(entryIds);
      var cleaned: seq<string> := [];
      for i := 0 to |entryIds|
        invariant cleaned == Cleaned(entryIds[..i])
      {
        var trimmed := Trim(entryIds[i]);
        assert entryIds[..i + 1][..i] == entryIds[..i];
        if trimmed != "" {
          cleaned := cleaned + [trimmed];
        }
      }
      assert entryIds[..|entryIds|] == entryIds;
      if |cleaned| == 0 {
        return EntryIdsRequired;
      }
      if |ackQueue| < c.queueSize && !(cancelled && pickDone) {
        ackQueue := ackQueue + [cleaned];
        return Accepted(|cleaned|);
      }
      return if cancelled then Closed else Backlog;
    }

    /** `drainQueue`, as long as nothing new arrives. */
    method DrainQueue()
      modifies this`ackQueue, this`pending, this`pendingInputEntries
      ensures ackQueue == [] && State() == AddedAll(old(State()), old(ackQueue))
    {
      while ackQueue != []
        invariant acked == old(acked) && sent == old(sent) && observed == old(observed)
        invariant AddedAll(State(), ackQueue) == AddedAll(old(State()), old(ackQueue))
        decreases |ackQueue|
      {
        var more := ackQueue[0];
        ackQueue := ackQueue[1..];
        AddPending(more);
      }
    }

    method AddPending(entryIds: seq<string>)
      modifies this`pending, this`pendingInputEntries
      ensures State() == Added(old(State()), entryIds)
    {
      pendingInputEntries := pendingInputEntries + |entryIds|;
      for i := 0 to |entryIds|
        invariant pending == old(pending) + Elems(entryIds[..i])
        invariant pendingInputEntries == old(pendingInputEntries) + |entryIds|
      {
        assert entryIds[..i + 1] == entryIds[..i] + [entryIds[i]];
        pending := pending + {entryIds[i]};
      }
      assert entryIds[..|entryIds|] == entryIds;
    }

    /** `flushAckChunkBatch`: one pipeline of XACKs, one per chunk. */
    method FlushAckChunkBatch(chunks: seq<seq<string>>, reply: Reply) returns (ok: bool)
      modifies this`pending, this`acked, this`sent
      ensures State() == Pipelined(old(State()), chunks, reply)
      ensures ok == (chunks == [] || !reply.execFails)
    {
      if |chunks| == 0 {
        assert sent + chunks == sent;
        return true;
      }
      for i := 0 to |chunks|
        invariant sent == old(sent) + chunks[..i] && acked == old(acked) + Applied(chunks, reply, i)
        invariant pending == old(pending)
      {
        sent := sent + [chunks[i]];
        assert old(sent) + chunks[..i + 1] == old(sent) + chunks[..i] + [chunks[i]];
        if !CmdAt(reply, i).Failed? {
          acked := acked + Elems(chunks[i]);
        }
      }
      assert chunks[..|chunks|] == chunks;
      if reply.execFails {
        return false;
      }
      for i := 0 to |chunks|
        invariant pending == old(pending) - Answered(chunks, reply, i)
        invariant sent == old(sent) + chunks && acked == old(acked) + Applied(chunks, reply, |chunks|)
      {
        if !CmdAt(reply, i).Acked? {
          continue;
        }
        pending := pending - Elems(chunks[i]);
      }
      return true;
    }

    /** The keys of the pending map, in whatever order it yields them. */
    method PendingKeys() returns (entryIds: seq<string>)
      ensures Lists(entryIds, pending)
    {
      entryIds := [];
      var todo := pending;
      while todo != {}
        invariant todo <= pending && multiset(entryIds) + multiset(todo) == multiset(pending)
        decreases |todo|
      {
        var id :| id in todo;
        assert multiset(todo) == multiset{id} + multiset(todo - {id});
        entryIds := entryIds + [id];
        todo := todo - {id};
      }
    }

    method SortedKeys() returns (entryIds: seq<string>)
      ensures entryIds == Ordered(pending)
    {
      entryIds := PendingKeys();
      OrderedIsSort(entryIds, pending);
      entryIds := Sort(entryIds, StringLe);
    }

    /** The pipelines of a flush, until one fails. */
    method FlushChunks(chunks: seq<seq<string>>, replies: seq<Reply>) returns (ok: bool)
      modifies this`pending, this`acked, this`sent
      ensures Flushed(State(), ok) == FlushFrom(old(State()), chunks, 0, AtLeastOne(c.concurrency), replies, 0)
    {
      var batchChunks := AtLeastOne(c.concurrency);
      ok := true;
      var i, k := 0, 0;
      while ok && i < |chunks|
        invariant 0 <= i <= |chunks| && pendingInputEntries == old(pendingInputEntries) && observed == old(observed)
        invariant FlushFrom(old(State()), chunks, 0, batchChunks, replies, 0)
                  == if ok then FlushFrom(State(), chunks, i, batchChunks, replies, k) else Flushed(State(), false)
        decreases ok, |chunks| - i
      {
        var end := Min(i + batchChunks, |chunks|);
        ok := FlushAckChunkBatch(chunks[i..end], ReplyAt(replies, k));
        if ok {
          i, k := end, k + 1;
        }
      }
    }

    /** `flush`: the IDs in order, chunked; a failed pipeline ends it with the rest pending. */
    method Flush(replies: seq<Reply>)
      modifies this`pending, this`pendingInputEntries, this`acked, this`sent, this`observed
      ensures State() == AfterFlush(c, old(State()), replies)
    {
      if |pending| == 0 {
        return;
      }
      var entryIds := SortedKeys();
      var chunks := ChunkStringSlice(entryIds, c.batchSize);
      var ok := FlushChunks(chunks, replies);
      if !ok {
        return;
      }
      observed := observed + pendingInputEntries;
      pendingInputEntries := |pending|;
    }
  }
}
