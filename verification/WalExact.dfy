/**
 Exactly what an append accepts and what a replay publishes, retains and reports
 (internal/wal/wal.go), for every file, every outcome of every publish call and every failure.
 */
module WalExact {
  import opened Common
  import opened Positions
  import opened Wal
  import opened WalLog
  import opened WalRuns

  // ---------------------------------------------------------------------------
  // Lines and records
  // ---------------------------------------------------------------------------

  /** The lines of a file, each ended by a newline, are the file (completed by a newline if its
      last line lacks one). */
  lemma LinesAreTheFile(file: string)
    ensures Unlines(Lines(file)) == if Terminated(file) then file else file + "\n"
  {
    UnlinesOfScan(file);
    TerminatedScan(file);
    var sc := Scan(file);
    if sc.partial == "" {
      assert Unlines(sc.lines) + "" == Unlines(sc.lines);
    } else {
      UnlinesSnoc(sc.lines, sc.partial);
    }
  }

  /** The records are the lines that are not blank, trimmed, in order. */
  lemma {:induction false} RecordsAt(lines: seq<string>) returns (at: seq<nat>)
    ensures TrimmedAt(lines, at, NonBlank(lines))
  {
    at := [];
    if lines != [] {
      var n := |lines| - 1;
      at := RecordsAt(lines[..n]);
      TrimmedLonger(lines[..n], lines[n], at, NonBlank(lines[..n]));
      NonBlankSnoc(lines[..n], lines[n]);
      assert lines == lines[..n] + [lines[n]];
      if Trim(lines[n]) != "" {
        at := at + [n];
      } else {
        assert NonBlank(lines[..n]) + [] == NonBlank(lines[..n]);
      }
    }
  }

  /** Decoding keeps the decodable lines' requests, in order. */
  lemma {:induction false} DecodedAt<L(!new)>(decode: L -> Option<Request>, lines: seq<L>) returns (at: seq<nat>)
    ensures MapsAt(decode, lines, at, Decoded(decode, lines))
  {
    at := [];
    if lines != [] {
      var n := |lines| - 1;
      at := DecodedAt(decode, lines[..n]);
      MapsLonger(decode, lines[..n], lines[n], at, Decoded(decode, lines[..n]));
      assert lines == lines[..n] + [lines[n]];
      if decode(lines[n]).Some? {
        at := at + [n];
      }
    }
  }

  lemma {:induction false} UndecodableAt<L(!new)>(decode: L -> Option<Request>, lines: seq<L>) returns (at: seq<nat>)
    ensures PicksAt(lines, Undecodable(decode, lines), at)
    ensures forall v: nat :: v in at <==> v < |lines| && decode(lines[v]).None?
  {
    at := [];
    if lines != [] {
      var n := |lines| - 1;
      at := UndecodableAt(decode, lines[..n]);
      PicksLonger(lines[..n], lines[n], Undecodable(decode, lines[..n]), at);
      assert lines == lines[..n] + [lines[n]];
      if decode(lines[n]).None? {
        at := at + [n];
      }
    }
  }

  // ---------------------------------------------------------------------------
  // One pass over the lines
  // ---------------------------------------------------------------------------

  function Least(a: nat, b: nat): (m: nat)
    ensures m <= a && m <= b && (m == a || m == b)
  {
    if a <= b then a else b
  }

  /** How many publish calls in a row succeed. */
  function Successes(outs: seq<bool>): (n: nat)
    ensures n <= |outs| && !Outcome(outs, n)
    ensures forall i :: 0 <= i < n ==> outs[i]
  {
    if outs == [] || !outs[0] then 0 else 1 + Successes(outs[1..])
  }

  /** How many requests a pass publishes: the limit, the decodable lines, or the calls before
      the first failure, whichever is least. */
  function Quota(max: nat, decodable: nat, outs: seq<bool>): nat {
    Least(max, Least(decodable, Successes(outs)))
  }

  /** A pass that goes on has published every decodable line; one that stopped has reached the
      limit or the first failing call. */
  ghost predicate Exact<L(!new)>(
    decode: L -> Option<Request>, max: nat, lines: seq<L>, outs: seq<bool>, p: Progress<L>) {
    var d := Decoded(decode, lines);
    && |p.replayed| <= max && |p.replayed| <= Successes(outs)
    && p.replayed <= d
    && (p.processing ==> p.replayed == d && p.calls == |p.replayed|)
    && (!p.processing ==>
          || (|p.replayed| == max && p.calls == max)
          || (|p.replayed| == Successes(outs) < |d| && |p.replayed| < max && p.calls == Successes(outs) + 1))
  }

  lemma LineExact<L(!new)>(
    decode: L -> Option<Request>, max: nat, lines: seq<L>, outs: seq<bool>, p: Progress<L>, line: L)
    requires Exact(decode, max, lines, outs, p)
    ensures Exact(decode, max, lines + [line], outs, ReplayLine(decode, max, p, line, Outcome(outs, p.calls)))
  {
    DecodedSnoc(decode, lines, line);
    if p.processing && |p.replayed| < max && decode(line).Some? {
      assert Outcome(outs, p.calls) <==> p.calls < Successes(outs);
    }
  }

  lemma {:induction false} PassExact<L(!new)>(
    decode: L -> Option<Request>, max: nat, lines: seq<L>, outs: seq<bool>)
    ensures Exact(decode, max, lines, outs, ReplayAll(decode, max, lines, outs))
  {
    if lines != [] {
      var n := |lines| - 1;
      PassExact(decode, max, lines[..n], outs);
      LineExact(decode, max, lines[..n], outs, ReplayAll(decode, max, lines[..n], outs), lines[n]);
      assert lines == lines[..n] + [lines[n]];
    }
  }

  /** A pass publishes exactly the first `Quota` decodable requests, calling once for each and
      once more if a call fails. */
  lemma PassPublishes<L(!new)>(decode: L -> Option<Request>, max: nat, lines: seq<L>, outs: seq<bool>)
    ensures var p, d := ReplayAll(decode, max, lines, outs), Decoded(decode, lines);
            && p.replayed == d[..Quota(max, |d|, outs)]
            && p.calls == Least(max, Least(|d|, Successes(outs) + 1))
  {
    PassExact(decode, max, lines, outs);
  }

  /** Line `v` stays: it does not decode, or enough decodable lines come before it. */
  ghost predicate Stays<L(!new)>(decode: L -> Option<Request>, lines: seq<L>, quota: nat, v: nat) {
    v < |lines| && (decode(lines[v]).None? || |Decoded(decode, lines[..v])| >= quota)
  }

  lemma {:induction false} DecodedGrows<L(!new)>(decode: L -> Option<Request>, lines: seq<L>, v: nat)
    requires v <= |lines|
    ensures |Decoded(decode, lines[..v])| <= |Decoded(decode, lines)|
    ensures v < |lines| && decode(lines[v]).Some? ==> |Decoded(decode, lines[..v])| < |Decoded(decode, lines)|
  {
    if v < |lines| {
      var n := |lines| - 1;
      DecodedGrows(decode, lines[..n], v);
      assert lines[..n][..v] == lines[..v];
    } else {
      assert lines[..v] == lines;
    }
  }

  /** The rest stays where it was, in order: exactly the lines that were not published. */
  lemma {:induction false} PassRetains<L(!new)>(decode: L -> Option<Request>, max: nat, lines: seq<L>, outs: seq<bool>)
    returns (at: seq<nat>)
    ensures PicksAt(lines, ReplayAll(decode, max, lines, outs).remaining, at)
    ensures forall v: nat :: v in at <==> Stays(decode, lines, |ReplayAll(decode, max, lines, outs).replayed|, v)
  {
    at := [];
    if lines != [] {
      var n := |lines| - 1;
      var pre, line := lines[..n], lines[n];
      var p, p' := ReplayAll(decode, max, pre, outs), ReplayAll(decode, max, lines, outs);
      at := PassRetains(decode, max, pre, outs);
      PicksLonger(pre, line, p.remaining, at);
      assert lines == pre + [line];
      PassExact(decode, max, pre, outs);
      PassExact(decode, max, lines, outs);
      forall v: nat | v < n
        ensures Stays(decode, lines, |p'.replayed|, v) <==> Stays(decode, pre, |p.replayed|, v)
      {
        assert lines[..v] == pre[..v];
        DecodedGrows(decode, pre, v);
      }
      if |p'.replayed| == |p.replayed| {
        at := at + [n];
      }
    }
  }

  // ---------------------------------------------------------------------------
  // One replay of a log
  // ---------------------------------------------------------------------------

  /** Which requests a replay publishes, whatever happens afterwards. */
  lemma ReplayPublishes(codec: Codec, d: Disk, max: int, outs: seq<bool>, io: ReplayIo)
    requires max > 0 && io.openOk
    ensures var queued := Decoded(codec.decode, ReadableRecords(d.file));
            PublishedBy(codec, d, max, outs, io) == queued[..Quota(max, |queued|, outs)]
  {
    PassPublishes(codec.decode, max, ReadableRecords(d.file), outs);
  }

  /** A clean replay takes exactly those out of the log, and with a working Redis as many as were
      asked for or are there. */
  lemma CleanReplayMoves(codec: Codec, d: Disk, max: int, outs: seq<bool>, io: ReplayIo)
    requires Consistent(d) && max > 0 && io.openOk && ReplaysCleanly(d, DoReplay(max, outs, io))
    ensures var queued, left := Decoded(codec.decode, Records(d.file)), Replayed(codec, d, max, outs, io);
            var n := Quota(max, |queued|, outs);
            && PublishedBy(codec, d, max, outs, io) == queued[..n]
            && Decoded(codec.decode, Records(left.file)) == queued[n..]
            && left.depth == d.depth - n
            && (Successes(outs) >= Least(max, |queued|) ==> n == Least(max, |queued|))
  {
    var queued, left := Decoded(codec.decode, Records(d.file)), Replayed(codec, d, max, outs, io);
    ReadableWhole(d.file);
    ReplayPublishes(codec, d, max, outs, io);
    ReplayMovesPrefix(codec, d, max, outs, io);
    var n := Quota(max, |queued|, outs);
    assert queued == queued[..n] + queued[n..];
  }

  // ---------------------------------------------------------------------------
  // Errors
  // ---------------------------------------------------------------------------

  /** Nothing to write back means there was no record at all. */
  lemma {:induction false} PassEmpty<L(!new)>(decode: L -> Option<Request>, max: nat, lines: seq<L>, outs: seq<bool>)
    ensures var p := ReplayAll(decode, max, lines, outs);
            p.replayed == [] && p.remaining == [] <==> lines == []
  {
    ReplayIsFifo(decode, max, lines, outs);
  }

  lemma ScanFailsExactly(file: string, limit: nat)
    ensures ScanFails(file, limit) <==> exists line :: line in Lines(file) && |line| >= limit
  {
    var n := Readable(Lines(file), limit);
    if n < |Lines(file)| {
      assert Lines(file)[n] in Lines(file);
    }
  }

  /** When a replay reports an error: the file cannot be opened, a line is too long, or the
      remainder of a log with records cannot be written back. */
  lemma ReplayFailsExactly(codec: Codec, d: Disk, max: nat, outs: seq<bool>, io: ReplayIo)
    ensures ReplayFails(codec, d, max, outs, io) <==>
            || !io.openOk
            || (exists line :: line in Lines(d.file) && |line| >= 4 * 1024 * 1024)
            || (!io.rewriteOk && ReadableRecords(d.file) != [])
  {
    ScanFailsExactly(d.file, REPLAY_LINE_LIMIT);
    PassEmpty(codec.decode, max, ReadableRecords(d.file), outs);
  }

  /** When an append succeeds: there is room under both caps (0: no cap), the entry can be
      encoded, and the file works. */
  lemma AppendSucceedsExactly(
    limits: Limits, codec: Codec, d: Disk, time: string, reason: string, req: Request, io: AppendIo)
    ensures AppendOutcome(limits, codec, d, time, reason, req, io) == Appended <==>
            && (limits.maxEntries == 0 || d.depth < limits.maxEntries)
            && codec.encode(time, reason, req).Some?
            && (limits.maxBytes == 0 ||
                (io.statOk && |d.file + codec.encode(time, reason, req).value + "\n"| <= limits.maxBytes))
            && io.openOk && io.writeOk
    ensures AppendOutcome(limits, codec, d, time, reason, req, io) == Refused(WalFull) <==>
            limits.maxEntries > 0 && d.depth >= limits.maxEntries
    ensures AppendOutcome(limits, codec, d, time, reason, req, io) == Refused(EncodeError) <==>
            (limits.maxEntries == 0 || d.depth < limits.maxEntries) && codec.encode(time, reason, req).None?
    ensures AppendOutcome(limits, codec, d, time, reason, req, io) == Refused(WalDiskFull) <==>
            && (limits.maxEntries == 0 || d.depth < limits.maxEntries)
            && codec.encode(time, reason, req).Some? && limits.maxBytes > 0 && io.statOk
            && |d.file + codec.encode(time, reason, req).value + "\n"| > limits.maxBytes
  {
  }
}
