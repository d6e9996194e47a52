/**
 Every sequence of appends and replays on one log, with any failures: the depth counter and
 the caps hold in every state, a log without scan or rewrite errors is a FIFO queue, and
 with such errors entries may repeat but none disappears.
 */
module WalRuns {
  import opened Common
  import opened Wal
  import opened WalLog

  datatype Op =
    | DoAppend(time: string, reason: string, req: Request, appendIo: AppendIo)
    | DoReplay(max: int, outs: seq<bool>, replayIo: ReplayIo)

  /** The disk plus two histories: requests accepted by Append (as they decode) and requests
      whose publish call succeeded during a replay, each in order. */
  datatype State = State(disk: Disk, accepted: seq<Request>, published: seq<Request>)

  function Apply(limits: Limits, codec: Codec, s: State, op: Op): State {
    match op
    case DoAppend(time, reason, req, io) =>
      if AppendOutcome(limits, codec, s.disk, time, reason, req, io).Appended? then
        var line := codec.encode(time, reason, req).value;
        State(Disk(s.disk.file + line + "\n", s.disk.depth + 1), s.accepted + [codec.normal(req)], s.published)
      else s
    case DoReplay(max, outs, io) =>
      State(Replayed(codec, s.disk, max, outs, io), s.accepted, s.published + PublishedBy(codec, s.disk, max, outs, io))
  }

  function Run(limits: Limits, codec: Codec, d0: Disk, ops: seq<Op>): State {
    if ops == [] then State(d0, [], [])
    else Apply(limits, codec, Run(limits, codec, d0, ops[..|ops| - 1]), ops[|ops| - 1])
  }

  ghost predicate WithinCaps(limits: Limits, d: Disk) {
    && (limits.maxEntries > 0 ==> d.depth <= limits.maxEntries)
    && (limits.maxBytes > 0 ==> |d.file| <= limits.maxBytes)
  }

  /** The cached depth is the number of non-blank lines of a newline-terminated file. */
  ghost predicate Consistent(d: Disk) {
    Terminated(d.file) && d.depth == |Records(d.file)|
  }

  // ---------------------------------------------------------------------------
  // One replay
  // ---------------------------------------------------------------------------

  lemma ReadableWhole(file: string)
    requires !ScanFails(file, REPLAY_LINE_LIMIT)
    ensures ReadableRecords(file) == Records(file)
  {
    assert Lines(file)[..|Lines(file)|] == Lines(file);
  }

  lemma ReplayRewrites(codec: Codec, d: Disk, max: int, outs: seq<bool>, io: ReplayIo)
    requires Consistent(d) && Rewrites(codec, d, max, outs, io)
    ensures var p, d' := Pass(codec, d, max, outs), Replayed(codec, d, max, outs, io);
            && Records(d'.file) == p.remaining
            && Consistent(d')
            && |d'.file| <= |d.file| && d'.depth <= d.depth
            && Faithful(codec.decode, max, Records(d.file), p)
  {
    var p := Pass(codec, d, max, outs);
    ReadableWhole(d.file);
    ReplayIsFifo(codec.decode, max, Records(d.file), outs);
    RecordsAreRecords(d.file);
    RewriteIsUnlines(p.remaining);
    RecordsOfUnlines(p.remaining);
    UnlinesTerminated(p.remaining);
    RemainingShrinks(codec.decode, max, Records(d.file), outs);
    RecordsShrink(d.file);
  }

  lemma ReplayKeepsCaps(limits: Limits, codec: Codec, d: Disk, max: int, outs: seq<bool>, io: ReplayIo)
    requires Consistent(d) && WithinCaps(limits, d)
    ensures Consistent(Replayed(codec, d, max, outs, io)) && WithinCaps(limits, Replayed(codec, d, max, outs, io))
  {
    if Rewrites(codec, d, max, outs, io) {
      ReplayRewrites(codec, d, max, outs, io);
    }
  }

  /** No error kept this replay from finishing. */
  predicate ReplaysCleanly(d: Disk, op: Op) {
    op.DoReplay? && op.max > 0 && op.replayIo.openOk ==>
      op.replayIo.rewriteOk && !ScanFails(d.file, REPLAY_LINE_LIMIT)
  }

  lemma ReplayMovesPrefix(codec: Codec, d: Disk, max: int, outs: seq<bool>, io: ReplayIo)
    requires Consistent(d) && ReplaysCleanly(d, DoReplay(max, outs, io))
    ensures var d', moved := Replayed(codec, d, max, outs, io), PublishedBy(codec, d, max, outs, io);
            && moved + Decoded(codec.decode, Records(d'.file)) == Decoded(codec.decode, Records(d.file))
            && Undecodable(codec.decode, Records(d'.file)) == Undecodable(codec.decode, Records(d.file))
            && |moved| <= if max > 0 then max else 0
  {
    var d', moved := Replayed(codec, d, max, outs, io), PublishedBy(codec, d, max, outs, io);
    if Rewrites(codec, d, max, outs, io) {
      ReplayRewrites(codec, d, max, outs, io);
      var p := Pass(codec, d, max, outs);
      assert moved == p.replayed;
      FaithfulSplit(codec.decode, max, Records(d.file), p);
    } else {
      NothingMoved(codec, d, max, outs, io);
    }
  }

  lemma FaithfulSplit<L(!new)>(decode: L -> Option<Request>, max: nat, lines: seq<L>, p: Progress<L>)
    requires Faithful(decode, max, lines, p)
    ensures p.replayed + Decoded(decode, p.remaining) == Decoded(decode, lines)
    ensures Undecodable(decode, p.remaining) == Undecodable(decode, lines)
    ensures |p.replayed| <= max
  {
  }

  lemma NothingMoved(codec: Codec, d: Disk, max: int, outs: seq<bool>, io: ReplayIo)
    requires ReplaysCleanly(d, DoReplay(max, outs, io)) && !Rewrites(codec, d, max, outs, io)
    ensures Replayed(codec, d, max, outs, io) == d && PublishedBy(codec, d, max, outs, io) == []
  {
  }

  // ---------------------------------------------------------------------------
  // Whole runs
  // ---------------------------------------------------------------------------

  lemma AppendKeepsCaps(limits: Limits, codec: Codec, s: State, op: Op)
    requires Lawful(codec) && op.DoAppend? && Consistent(s.disk) && WithinCaps(limits, s.disk)
    ensures Consistent(Apply(limits, codec, s, op).disk) && WithinCaps(limits, Apply(limits, codec, s, op).disk)
  {
    if AppendOutcome(limits, codec, s.disk, op.time, op.reason, op.req, op.appendIo).Appended? {
      RecordsOfAppend(s.disk.file, codec.encode(op.time, op.reason, op.req).value);
    }
  }

  /** Depth counter and both caps in every reachable state, whatever fails. */
  lemma {:induction false} RunKeepsCaps(limits: Limits, codec: Codec, d0: Disk, ops: seq<Op>)
    requires Lawful(codec) && Consistent(d0) && WithinCaps(limits, d0)
    ensures Consistent(Run(limits, codec, d0, ops).disk) && WithinCaps(limits, Run(limits, codec, d0, ops).disk)
  {
    if ops != [] {
      var pre, op := ops[..|ops| - 1], ops[|ops| - 1];
      RunKeepsCaps(limits, codec, d0, pre);
      var s := Run(limits, codec, d0, pre);
      if op.DoAppend? {
        AppendKeepsCaps(limits, codec, s, op);
      } else {
        ReplayKeepsCaps(limits, codec, s.disk, op.max, op.outs, op.replayIo);
      }
    }
  }

  predicate CleanRun(limits: Limits, codec: Codec, d0: Disk, ops: seq<Op>) {
    ops == [] ||
    (CleanRun(limits, codec, d0, ops[..|ops| - 1]) &&
     ReplaysCleanly(Run(limits, codec, d0, ops[..|ops| - 1]).disk, ops[|ops| - 1]))
  }

  /** What went in: the decodable content found at the start, then the accepted requests. */
  function Input(codec: Codec, d0: Disk, s: State): seq<Request> {
    Decoded(codec.decode, Records(d0.file)) + s.accepted
  }

  /** What came out or is still queued. */
  function Output(codec: Codec, s: State): seq<Request> {
    s.published + Decoded(codec.decode, Records(s.disk.file))
  }

  lemma AppendOne(a: seq<Request>, b: seq<Request>, req: Request)
    ensures a + (b + [req]) == a + b + [req]
  {
  }

  lemma AppendFifo(limits: Limits, codec: Codec, d0: Disk, s: State, op: Op)
    requires Lawful(codec) && op.DoAppend? && Consistent(s.disk)
    ensures var s' := Apply(limits, codec, s, op);
            && (s' == s ||
                exists req :: Input(codec, d0, s') == Input(codec, d0, s) + [req] &&
                              Output(codec, s') == Output(codec, s) + [req])
            && Undecodable(codec.decode, Records(s'.disk.file)) == Undecodable(codec.decode, Records(s.disk.file))
  {
    if AppendOutcome(limits, codec, s.disk, op.time, op.reason, op.req, op.appendIo).Appended? {
      var s' := Apply(limits, codec, s, op);
      var line := codec.encode(op.time, op.reason, op.req).value;
      var req := codec.normal(op.req);
      var queued := Records(s.disk.file);
      RecordsOfAppend(s.disk.file, line);
      DecodedSnoc(codec.decode, queued, line);
      AppendOne(Decoded(codec.decode, Records(d0.file)), s.accepted, req);
      AppendOne(s.published, Decoded(codec.decode, queued), req);
      assert Input(codec, d0, s') == Input(codec, d0, s) + [req];
    }
  }

  lemma ReplayFifo(limits: Limits, codec: Codec, d0: Disk, s: State, op: Op)
    requires op.DoReplay? && Consistent(s.disk) && ReplaysCleanly(s.disk, op)
    ensures var s' := Apply(limits, codec, s, op);
            && Input(codec, d0, s') == Input(codec, d0, s)
            && Output(codec, s') == Output(codec, s)
            && Undecodable(codec.decode, Records(s'.disk.file)) == Undecodable(codec.decode, Records(s.disk.file))
  {
    ReplayMovesPrefix(codec, s.disk, op.max, op.outs, op.replayIo);
    var d' := Replayed(codec, s.disk, op.max, op.outs, op.replayIo);
    var moved := PublishedBy(codec, s.disk, op.max, op.outs, op.replayIo);
    assert Apply(limits, codec, s, op) == State(d', s.accepted, s.published + moved);
    Associative(s.published, moved, Decoded(codec.decode, Records(d'.file)));
  }

  lemma Associative(a: seq<Request>, b: seq<Request>, c: seq<Request>)
    ensures a + b + c == a + (b + c)
  {
  }

  /** The log refines a FIFO queue: over any run without scan or rewrite errors, what was
      replayed followed by what is still queued is what went in, in order, and undecodable
      lines stay, in order. */
  lemma {:induction false} RunIsFifo(limits: Limits, codec: Codec, d0: Disk, ops: seq<Op>)
    requires Lawful(codec) && Consistent(d0) && WithinCaps(limits, d0) && CleanRun(limits, codec, d0, ops)
    ensures var s := Run(limits, codec, d0, ops);
            && Output(codec, s) == Input(codec, d0, s)
            && Undecodable(codec.decode, Records(s.disk.file)) == Undecodable(codec.decode, Records(d0.file))
  {
    if ops == [] {
      var decoded := Decoded(codec.decode, Records(d0.file));
      assert [] + decoded == decoded + [];
    } else {
      var pre, op := ops[..|ops| - 1], ops[|ops| - 1];
      RunIsFifo(limits, codec, d0, pre);
      RunKeepsCaps(limits, codec, d0, pre);
      var s := Run(limits, codec, d0, pre);
      if op.DoAppend? {
        AppendFifo(limits, codec, d0, s, op);
      } else {
        ReplayFifo(limits, codec, d0, s, op);
      }
    }
  }

  /** `a` is `b` with some elements left out. */
  ghost predicate Subsequence(a: seq<Request>, b: seq<Request>) {
    || a == []
    || (b != [] &&
        ((a[|a| - 1] == b[|b| - 1] && Subsequence(a[..|a| - 1], b[..|b| - 1])) || Subsequence(a, b[..|b| - 1])))
  }

  lemma {:induction false} SubsequenceLonger(a: seq<Request>, b: seq<Request>, more: seq<Request>)
    requires Subsequence(a, b)
    ensures Subsequence(a, b + more)
  {
    if more == [] {
      assert b + more == b;
    } else {
      SubsequenceLonger(a, b, more[..|more| - 1]);
      assert (b + more)[..|b + more| - 1] == b + more[..|more| - 1];
    }
  }

  lemma {:induction false} SubsequenceBoth(a: seq<Request>, b: seq<Request>, more: seq<Request>)
    requires Subsequence(a, b)
    ensures Subsequence(a + more, b + more)
  {
    if more == [] {
      assert b + more == b && a + more == a;
    } else {
      SubsequenceBoth(a, b, more[..|more| - 1]);
      assert (b + more)[..|b + more| - 1] == b + more[..|more| - 1];
      assert (a + more)[..|a + more| - 1] == a + more[..|more| - 1];
    }
  }

  /** `gone` left the file, having been published in order; what is in the file came after. */
  ghost predicate Kept(codec: Codec, d0: Disk, s: State, gone: seq<Request>) {
    && Input(codec, d0, s) == gone + Decoded(codec.decode, Records(s.disk.file))
    && Subsequence(gone, s.published)
    && Undecodable(codec.decode, Records(s.disk.file)) == Undecodable(codec.decode, Records(d0.file))
  }

  lemma AppendKeeps(limits: Limits, codec: Codec, d0: Disk, s: State, op: Op, gone: seq<Request>)
    requires Lawful(codec) && op.DoAppend? && Consistent(s.disk) && Kept(codec, d0, s, gone)
    ensures Kept(codec, d0, Apply(limits, codec, s, op), gone)
  {
    if AppendOutcome(limits, codec, s.disk, op.time, op.reason, op.req, op.appendIo).Appended? {
      var s' := Apply(limits, codec, s, op);
      var line := codec.encode(op.time, op.reason, op.req).value;
      var req, queued := codec.normal(op.req), Records(s.disk.file);
      RecordsOfAppend(s.disk.file, line);
      DecodedSnoc(codec.decode, queued, line);
      AppendOne(Decoded(codec.decode, Records(d0.file)), s.accepted, req);
      AppendOne(gone, Decoded(codec.decode, queued), req);
      assert Input(codec, d0, s') == Input(codec, d0, s) + [req];
    }
  }

  /** A replay that ends in an error leaves the file; one that does not moves a prefix out of it. */
  lemma ReplayKeeps(limits: Limits, codec: Codec, d0: Disk, s: State, op: Op, gone: seq<Request>)
    returns (gone': seq<Request>)
    requires op.DoReplay? && Consistent(s.disk) && Kept(codec, d0, s, gone)
    ensures Kept(codec, d0, Apply(limits, codec, s, op), gone')
  {
    var moved := PublishedBy(codec, s.disk, op.max, op.outs, op.replayIo);
    if ReplaysCleanly(s.disk, op) {
      ReplayMovesPrefix(codec, s.disk, op.max, op.outs, op.replayIo);
      gone' := gone + moved;
      var d' := Replayed(codec, s.disk, op.max, op.outs, op.replayIo);
      Associative(gone, moved, Decoded(codec.decode, Records(d'.file)));
      SubsequenceBoth(gone, s.published, moved);
    } else {
      gone' := gone;
      SubsequenceLonger(gone, s.published, moved);
    }
  }

  lemma {:induction false} RunKeeps(limits: Limits, codec: Codec, d0: Disk, ops: seq<Op>) returns (gone: seq<Request>)
    requires Lawful(codec) && Consistent(d0) && WithinCaps(limits, d0)
    ensures Kept(codec, d0, Run(limits, codec, d0, ops), gone)
  {
    if ops == [] {
      var decoded := Decoded(codec.decode, Records(d0.file));
      gone := [];
      assert decoded + [] == [] + decoded;
    } else {
      var pre, op := ops[..|ops| - 1], ops[|ops| - 1];
      gone := RunKeeps(limits, codec, d0, pre);
      RunKeepsCaps(limits, codec, d0, pre);
      var s := Run(limits, codec, d0, pre);
      if op.DoAppend? {
        AppendKeeps(limits, codec, d0, s, op, gone);
      } else {
        gone := ReplayKeeps(limits, codec, d0, s, op, gone);
      }
    }
  }

  /** With any errors at all, entries may repeat but none disappears or overtakes another: what
      went in is a subsequence of what came out or is queued, the decodable part of the file is
      always the end of what went in, and the undecodable lines stay as they were. */
  lemma RunLosesNothing(limits: Limits, codec: Codec, d0: Disk, ops: seq<Op>)
    requires Lawful(codec) && Consistent(d0) && WithinCaps(limits, d0)
    ensures var s := Run(limits, codec, d0, ops);
            var input, queued := Input(codec, d0, s), Decoded(codec.decode, Records(s.disk.file));
            && Subsequence(input, Output(codec, s)) && multiset(input) <= multiset(Output(codec, s))
            && |queued| <= |input| && input[|input| - |queued|..] == queued
            && Undecodable(codec.decode, Records(s.disk.file)) == Undecodable(codec.decode, Records(d0.file))
  {
    var s := Run(limits, codec, d0, ops);
    var gone := RunKeeps(limits, codec, d0, ops);
    SubsequenceBoth(gone, s.published, Decoded(codec.decode, Records(s.disk.file)));
    SubsequenceCounts(Input(codec, d0, s), Output(codec, s));
  }

  /** Counting repeats, everything that went in is still there. */
  lemma {:induction false} SubsequenceCounts(a: seq<Request>, b: seq<Request>)
    requires Subsequence(a, b)
    ensures multiset(a) <= multiset(b)
  {
    if a != [] {
      assert a == a[..|a| - 1] + [a[|a| - 1]] && b == b[..|b| - 1] + [b[|b| - 1]];
      if a[|a| - 1] == b[|b| - 1] && Subsequence(a[..|a| - 1], b[..|b| - 1]) {
        SubsequenceCounts(a[..|a| - 1], b[..|b| - 1]);
      } else {
        SubsequenceCounts(a, b[..|b| - 1]);
      }
    }
  }

  /** A replay makes at most as many publish calls as asked for, failures included. */
  lemma ReplayCallBound(codec: Codec, d: Disk, max: nat, outs: seq<bool>)
    ensures Pass(codec, d, max, outs).calls <= max
  {
    ReplayIsFifo(codec.decode, max, ReadableRecords(d.file), outs);
  }

  /** Restart: reopening the file of any reachable state recomputes exactly the cached depth
      when every line fits the default scanner, and fails otherwise. */
  method Reopen(limits: Limits, codec: Codec, ghost d0: Disk, ghost ops: seq<Op>, file: string, depth: int)
    returns (log: Option<Log>)
    requires Lawful(codec) && Consistent(d0) && WithinCaps(limits, d0)
    requires Run(limits, codec, d0, ops).disk == Disk(file, depth)
    ensures log.Some? <==> forall line :: line in Lines(file) ==> |line| < COUNT_LINE_LIMIT
    ensures log.Some? ==> log.value.depth == depth && log.value.file == file
  {
    log := Open(limits, codec, file);
    RunKeepsCaps(limits, codec, d0, ops);
    var n := Readable(Lines(file), COUNT_LINE_LIMIT);
    if n < |Lines(file)| {
      assert Lines(file)[n] in Lines(file);
    }
  }
}
