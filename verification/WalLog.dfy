/**
 `wal.Log` itself: Append, Replay, rewrite and the line count taken at start-up, as a class
 over the file contents and the cached depth; and every sequence of appends and replays.
 */
module WalLog {
  import opened Common
  import opened Wal

  /** Longest token the replay scanner accepts, and the default one used when counting. */
  const REPLAY_LINE_LIMIT: nat := 4 * 1024 * 1024
  const COUNT_LINE_LIMIT: nat := 64 * 1024

  /** JSON: `encode` gives no line for a request it cannot marshal. */
  datatype Codec = Codec(
    encode: (string, string, Request) -> Option<string>,
    decode: string -> Option<Request>,
    normal: Request -> Request)

  ghost predicate Lawful(codec: Codec) {
    forall time, reason, req :: codec.encode(time, reason, req).Some? ==>
      var line := codec.encode(time, reason, req).value;
      IsRecord(line) && codec.decode(line) == Some(codec.normal(req))
  }

  datatype Limits = Limits(maxEntries: nat, maxBytes: nat)

  datatype AppendError = WalFull | WalDiskFull | EncodeError | IoError

  datatype AppendResult = Appended | Refused(error: AppendError)

  /** Which file operations of one call succeed. */
  datatype AppendIo = AppendIo(statOk: bool, openOk: bool, writeOk: bool)
  datatype ReplayIo = ReplayIo(openOk: bool, rewriteOk: bool)

  datatype ReplayResult = ReplayResult(replayed: nat, failed: bool)

  // ---------------------------------------------------------------------------
  // What each operation does to the file, the depth, and the requests published
  // ---------------------------------------------------------------------------

  datatype Disk = Disk(file: string, depth: int)

  function AppendOutcome(
    limits: Limits, codec: Codec, d: Disk, time: string, reason: string, req: Request,
    io: AppendIo): AppendResult {
    if limits.maxEntries > 0 && d.depth >= limits.maxEntries then Refused(WalFull)
    else
      var line := codec.encode(time, reason, req);
      if line.None? then Refused(EncodeError)
      else if limits.maxBytes > 0 && !io.statOk then Refused(IoError)
      else if limits.maxBytes > 0 && |d.file| + |line.value| + 1 > limits.maxBytes then Refused(WalDiskFull)
      else if !io.openOk || !io.writeOk then Refused(IoError)
      else Appended
  }

  /** Lines before the first one the scanner cannot hold. */
  function Readable(lines: seq<string>, limit: nat): (n: nat)
    ensures n <= |lines|
    ensures forall i :: 0 <= i < n ==> |lines[i]| < limit
    ensures n < |lines| ==> |lines[n]| >= limit
  {
    if lines == [] || |lines[0]| >= limit then 0 else 1 + Readable(lines[1..], limit)
  }

  function ReadableRecords(file: string): seq<string> {
    NonBlank(Lines(file)[..Readable(Lines(file), REPLAY_LINE_LIMIT)])
  }

  predicate ScanFails(file: string, limit: nat) {
    Readable(Lines(file), limit) < |Lines(file)|
  }

  /** `strings.Join(lines, "\n")`, newline-terminated when not empty. */
  function RewriteContent(lines: seq<string>): string {
    var content := JoinLines(lines);
    if content != "" then content + "\n" else content
  }

  function JoinLines(lines: seq<string>): string {
    if lines == [] then ""
    else if |lines| == 1 then lines[0]
    else JoinLines(lines[..|lines| - 1]) + "\n" + lines[|lines| - 1]
  }

  lemma {:induction false} RewriteIsUnlines(lines: seq<string>)
    requires forall l :: l in lines ==> l != ""
    ensures RewriteContent(lines) == Unlines(lines)
  {
    if |lines| == 1 {
      assert lines[0] in lines;
      assert Unlines(lines[..0]) == "";
      assert "" + lines[0] == lines[0];
    } else if lines != [] {
      var n := |lines| - 1;
      assert lines[0] in lines[..n];
      assert forall l :: l in lines[..n] ==> l in lines;
      RewriteIsUnlines(lines[..n]);
      JoinNonEmpty(lines[..n]);
    }
  }

  lemma JoinNonEmpty(lines: seq<string>)
    requires lines != [] && forall l :: l in lines ==> l != ""
    ensures JoinLines(lines) != ""
  {
    assert lines[0] in lines;
  }

  /** The loop of `Replay` over the lines it can read. */
  function Pass(codec: Codec, d: Disk, max: nat, outs: seq<bool>): Progress<string> {
    ReplayAll(codec.decode, max, ReadableRecords(d.file), outs)
  }

  predicate Rewrites(codec: Codec, d: Disk, max: int, outs: seq<bool>, io: ReplayIo) {
    && max > 0 && io.openOk && io.rewriteOk && !ScanFails(d.file, REPLAY_LINE_LIMIT)
    && (Pass(codec, d, max, outs).replayed != [] || Pass(codec, d, max, outs).remaining != [])
  }

  /** Opening, scanning or rewriting fails; rewriting is not tried when there is nothing to write back. */
  predicate ReplayFails(codec: Codec, d: Disk, max: nat, outs: seq<bool>, io: ReplayIo) {
    || !io.openOk
    || ScanFails(d.file, REPLAY_LINE_LIMIT)
    || (!io.rewriteOk && (Pass(codec, d, max, outs).replayed != [] || Pass(codec, d, max, outs).remaining != []))
  }

  function Replayed(codec: Codec, d: Disk, max: int, outs: seq<bool>, io: ReplayIo): Disk {
    if Rewrites(codec, d, max, outs, io) then
      var p := Pass(codec, d, max, outs);
      Disk(RewriteContent(p.remaining), d.depth - |p.replayed|)
    else d
  }

  /** The requests whose publish call succeeded, even when the call as a whole then fails. */
  function PublishedBy(codec: Codec, d: Disk, max: int, outs: seq<bool>, io: ReplayIo): seq<Request> {
    if max > 0 && io.openOk then Pass(codec, d, max, outs).replayed else []
  }

  // ---------------------------------------------------------------------------
  // The class
  // ---------------------------------------------------------------------------

  class Log {
    const limits: Limits
    const codec: Codec
    var file: string
    var depth: int

    ghost function View(): Disk
      reads this
    {
      Disk(file, depth)
    }

    constructor (limits: Limits, codec: Codec, file: string, depth: nat)
      ensures View() == Disk(file, depth) && this.limits == limits && this.codec == codec
    {
      this.limits, this.codec, this.file, this.depth := limits, codec, file, depth;
    }

    method Append(time: string, reason: string, req: Request, io: AppendIo) returns (r: AppendResult)
      modifies this
      ensures r == AppendOutcome(limits, codec, old(View()), time, reason, req, io)
      ensures r.Appended? ==> codec.encode(time, reason, req).Some? &&
                              View() == Disk(old(file) + codec.encode(time, reason, req).value + "\n", old(depth) + 1)
      ensures r.Refused? ==> View() == old(View())
    {
      if limits.maxEntries > 0 && depth >= limits.maxEntries {
        return Refused(WalFull);
      }
      var payload := codec.encode(time, reason, req);
      if payload.None? {
        return Refused(EncodeError);
      }
      var line := payload.value + "\n";
      if limits.maxBytes > 0 {
        if !io.statOk {
          return Refused(IoError);
        }
        if |file| + |line| > limits.maxBytes {
          return Refused(WalDiskFull);
        }
      }
      if !io.openOk {
        return Refused(IoError);
      }
      if !io.writeOk {
        return Refused(IoError);
      }
      assert file + payload.value + "\n" == file + line;
      file := file + line;
      depth := depth + 1;
      return Appended;
    }

    /** `outs[k]` is the outcome of the k-th publish call; `published` lists the requests
        whose call succeeded, in order. */
    method Replay(max: int, outs: seq<bool>, io: ReplayIo) returns (r: ReplayResult, published: seq<Request>)
      modifies this
      ensures View() == Replayed(codec, old(View()), max, outs, io)
      ensures published == PublishedBy(codec, old(View()), max, outs, io)
      ensures r.replayed == |published|
      ensures r.failed <==> max < 0 || (max > 0 && ReplayFails(codec, old(View()), max, outs, io))
    {
      published := [];
      if max == 0 {
        return ReplayResult(0, false), [];
      }
      if max < 0 {
        return ReplayResult(0, true), [];
      }
      if !io.openOk {
        return ReplayResult(0, true), [];
      }
      var lines := Lines(file);
      var readable := Readable(lines, REPLAY_LINE_LIMIT);
      var remaining: seq<string>;
      published, remaining := PublishLines(codec, lines[..readable], max, outs);
      if readable < |lines| {
        return ReplayResult(|published|, true), published;
      }
      if |published| == 0 && |remaining| == 0 {
        return ReplayResult(0, false), published;
      }
      if !io.rewriteOk {
        return ReplayResult(|published|, true), published;
      }
      file := RewriteContent(remaining);
      if |published| > 0 {
        depth := depth - |published|;
      }
      return ReplayResult(|published|, false), published;
    }
  }

  /** The scanning loop of `Replay`: which requests it publishes and which lines it retains. */
  method PublishLines(codec: Codec, lines: seq<string>, max: nat, outs: seq<bool>)
    returns (published: seq<Request>, remaining: seq<string>)
    ensures var p := ReplayAll(codec.decode, max, NonBlank(lines), outs);
            published == p.replayed && remaining == p.remaining
  {
    var processing, calls := true, 0;
    published, remaining := [], [];
    for i := 0 to |lines|
      invariant 0 <= calls
      invariant Progress(published, remaining, processing, calls) == PassOver(codec, lines[..i], max, outs)
    {
      var line := Trim(lines[i]);
      PassOverNext(codec, lines, i, max, outs);
      if line == "" {
        continue;
      }
      if !processing {
        remaining := remaining + [line];
        continue;
      }
      if |published| >= max {
        remaining, processing := remaining + [line], false;
        continue;
      }
      var entry := codec.decode(line);
      if entry.None? {
        remaining := remaining + [line];
        continue;
      }
      var ok := Outcome(outs, calls);
      calls := calls + 1;
      if !ok {
        remaining, processing := remaining + [line], false;
        continue;
      }
      published := published + [entry.value];
    }
    assert lines[..|lines|] == lines;
  }

  function PassOver(codec: Codec, lines: seq<string>, max: nat, outs: seq<bool>): Progress<string> {
    ReplayAll(codec.decode, max, NonBlank(lines), outs)
  }

  lemma PassOverNext(codec: Codec, lines: seq<string>, i: nat, max: nat, outs: seq<bool>)
    requires i < |lines|
    ensures var p := PassOver(codec, lines[..i], max, outs);
            PassOver(codec, lines[..i + 1], max, outs) ==
            if Trim(lines[i]) == "" then p
            else ReplayLine(codec.decode, max, p, Trim(lines[i]), Outcome(outs, p.calls))
  {
    var before := NonBlank(lines[..i]);
    assert lines[..i + 1] == lines[..i] + [lines[i]];
    NonBlankSnoc(lines[..i], lines[i]);
    assert before + [] == before;
    ReplayAllSnoc(codec.decode, max, before, Trim(lines[i]), outs);
  }

  lemma ReplayAllSnoc<L>(decode: L -> Option<Request>, max: nat, lines: seq<L>, line: L, outs: seq<bool>)
    ensures var p := ReplayAll(decode, max, lines, outs);
            ReplayAll(decode, max, lines + [line], outs) == ReplayLine(decode, max, p, line, Outcome(outs, p.calls))
  {
    assert (lines + [line])[..|lines|] == lines;
  }

  /** `New`: the depth is counted from the file found on disk; opening fails when a line is
      too long to count. */
  method Open(limits: Limits, codec: Codec, file: string) returns (log: Option<Log>)
    ensures log.None? <==> ScanFails(file, COUNT_LINE_LIMIT)
    ensures log.Some? ==> fresh(log.value) && log.value.View() == Disk(file, |Records(file)|)
    ensures log.Some? ==> log.value.limits == limits && log.value.codec == codec
  {
    var depth, failed := CountFileLines(file);
    if failed {
      return None;
    }
    var created := new Log(limits, codec, file, depth);
    return Some(created);
  }

  /** `countFileLines`: the number of non-blank lines, unless some line is too long. */
  method CountFileLines(file: string) returns (count: nat, failed: bool)
    ensures failed <==> ScanFails(file, COUNT_LINE_LIMIT)
    ensures !failed ==> count == |Records(file)|
  {
    var lines := Lines(file);
    var readable := Readable(lines, COUNT_LINE_LIMIT);
    count := 0;
    for i := 0 to readable
      invariant count == |NonBlank(lines[..i])|
    {
      assert lines[..i + 1] == lines[..i] + [lines[i]];
      NonBlankSnoc(lines[..i], lines[i]);
      if Trim(lines[i]) != "" {
        count := count + 1;
      }
    }
    failed := readable < |lines|;
    assert lines[..|lines|] == lines;
  }
}
