/**
 The write-ahead log (internal/wal/wal.go): a file of newline-terminated JSON lines, a
 cached depth counter, an entry cap and a byte cap, and an in-order replay that rewrites
 what it could not publish.

 One char stands for one byte. JSON is a parameter: an encoder producing newline-free
 lines and a decoder returning the normalised request (`Lawful`). File operations either
 succeed as a whole or fail and change nothing; which ones fail is a parameter too.
 */
module Wal {
  import opened Common

  // ---------------------------------------------------------------------------
  // Lines and records of a file
  // ---------------------------------------------------------------------------

  /** A scanner's state: the complete lines so far and the line being read. */
  datatype Scanned = Scanned(lines: seq<string>, partial: string)

  function Feed(sc: Scanned, ch: char): Scanned {
    if ch == '\n' then Scanned(sc.lines + [sc.partial], "") else Scanned(sc.lines, sc.partial + [ch])
  }

  function Scan(s: string): Scanned {
    if s == "" then Scanned([], "") else Feed(Scan(s[..|s| - 1]), s[|s| - 1])
  }

  /** What a line scanner yields: the text between newlines, and a last unterminated line. */
  function Lines(s: string): seq<string> {
    var sc := Scan(s);
    if sc.partial == "" then sc.lines else sc.lines + [sc.partial]
  }

  /** Trimmed, non-blank lines. */
  function NonBlank(lines: seq<string>): seq<string> {
    if lines == [] then []
    else
      var n := |lines| - 1;
      NonBlank(lines[..n]) + (if Trim(lines[n]) == "" then [] else [Trim(lines[n])])
  }

  function Records(file: string): seq<string> {
    NonBlank(Lines(file))
  }

  function Unlines(lines: seq<string>): string {
    if lines == [] then "" else Unlines(lines[..|lines| - 1]) + lines[|lines| - 1] + "\n"
  }

  predicate Terminated(file: string) {
    file == "" || file[|file| - 1] == '\n'
  }

  /** A line a rewrite retains: trimmed, non-blank, on one line. */
  predicate IsRecord(line: string) {
    line != "" && Trim(line) == line && '\n' !in line
  }

  lemma ScanSnoc(s: string, ch: char)
    ensures Scan(s + [ch]) == Feed(Scan(s), ch)
  {
    assert (s + [ch])[..|s|] == s;
  }

  lemma {:induction false} ScanAppend(s: string, line: string)
    requires '\n' !in line
    ensures Scan(s + line) == Scanned(Scan(s).lines, Scan(s).partial + line)
  {
    if line == "" {
      assert s + line == s;
    } else {
      var n := |line| - 1;
      ScanAppend(s, line[..n]);
      ScanSnoc(s + line[..n], line[n]);
      SnocAssoc(s, line);
      SnocAssoc(Scan(s).partial, line);
    }
  }

  lemma SnocAssoc<T>(a: seq<T>, b: seq<T>)
    requires b != []
    ensures a + b == a + b[..|b| - 1] + [b[|b| - 1]]
  {
    assert b == b[..|b| - 1] + [b[|b| - 1]];
  }

  lemma TerminatedScan(s: string)
    ensures Terminated(s) <==> Scan(s).partial == ""
  {
  }

  lemma LinesOfAppend(file: string, line: string)
    requires Terminated(file) && '\n' !in line
    ensures Lines(file + line + "\n") == Lines(file) + [line]
  {
    TerminatedScan(file);
    ScanAppend(file, line);
    ScanSnoc(file + line, '\n');
    assert file + line + "\n" == file + line + ['\n'];
    assert "" + line == line;
  }

  lemma LinesHaveNoNewline(s: string)
    ensures forall l :: l in Scan(s).lines ==> '\n' !in l
    ensures '\n' !in Scan(s).partial
    ensures forall l :: l in Lines(s) ==> '\n' !in l
  {
  }

  lemma NonBlankSnoc(lines: seq<string>, line: string)
    ensures NonBlank(lines + [line]) == NonBlank(lines) + (if Trim(line) == "" then [] else [Trim(line)])
  {
    assert (lines + [line])[..|lines|] == lines;
  }

  lemma {:induction false} NonBlankRecords(lines: seq<string>)
    requires forall l :: l in lines ==> '\n' !in l
    ensures forall r :: r in NonBlank(lines) ==> IsRecord(r)
  {
    if lines != [] {
      var n := |lines| - 1;
      NonBlankRecords(lines[..n]);
      TrimIdempotent(lines[n]);
      assert lines[n] in lines;
    }
  }

  lemma RecordsAreRecords(file: string)
    ensures forall r :: r in Records(file) ==> IsRecord(r)
  {
    LinesHaveNoNewline(file);
    NonBlankRecords(Lines(file));
  }

  lemma UnlinesTerminated(lines: seq<string>)
    ensures Terminated(Unlines(lines))
  {
  }

  /** Appending a record to a newline-terminated file appends exactly that record. */
  lemma RecordsOfAppend(file: string, line: string)
    requires Terminated(file) && IsRecord(line)
    ensures Records(file + line + "\n") == Records(file) + [line]
    ensures Terminated(file + line + "\n")
  {
    LinesOfAppend(file, line);
    NonBlankSnoc(Lines(file), line);
  }

  /** Scanning a rewritten file returns exactly the retained lines. */
  lemma {:induction false} RecordsOfUnlines(lines: seq<string>)
    requires forall l :: l in lines ==> IsRecord(l)
    ensures Records(Unlines(lines)) == lines
  {
    if lines == [] {
    } else {
      var n := |lines| - 1;
      RecordsOfUnlines(lines[..n]);
      UnlinesTerminated(lines[..n]);
      assert lines[n] in lines;
      RecordsOfAppend(Unlines(lines[..n]), lines[n]);
      assert lines == lines[..n] + [lines[n]];
    }
  }

  // Sizes: dropping blanks, trimming and dropping records only shrinks the file.

  lemma UnlinesSnoc(lines: seq<string>, line: string)
    ensures Unlines(lines + [line]) == Unlines(lines) + line + "\n"
  {
    assert (lines + [line])[..|lines|] == lines;
  }

  lemma {:induction false} UnlinesOfScan(s: string)
    ensures Unlines(Scan(s).lines) + Scan(s).partial == s
  {
    if s != "" {
      var n := |s| - 1;
      UnlinesOfScan(s[..n]);
      FeedUnlines(Scan(s[..n]), s[n], s[..n]);
      assert s == s[..n] + [s[n]];
    }
  }

  lemma FeedUnlines(sc: Scanned, ch: char, s: string)
    requires Unlines(sc.lines) + sc.partial == s
    ensures Unlines(Feed(sc, ch).lines) + Feed(sc, ch).partial == s + [ch]
  {
    if ch == '\n' {
      UnlinesSnoc(sc.lines, sc.partial);
      assert Unlines(sc.lines) + sc.partial + "\n" + "" == s + [ch];
    } else {
      assert Unlines(sc.lines) + (sc.partial + [ch]) == s + [ch];
    }
  }

  lemma {:induction false} NonBlankShrinks(lines: seq<string>)
    ensures |Unlines(NonBlank(lines))| <= |Unlines(lines)|
  {
    if lines != [] {
      var n := |lines| - 1;
      NonBlankShrinks(lines[..n]);
      UnlinesSnoc(NonBlank(lines[..n]), Trim(lines[n]));
      assert NonBlank(lines) == NonBlank(lines[..n]) || NonBlank(lines) == NonBlank(lines[..n]) + [Trim(lines[n])];
    }
  }

  lemma RecordsShrink(file: string)
    requires Terminated(file)
    ensures |Unlines(Records(file))| <= |file|
  {
    TerminatedScan(file);
    UnlinesOfScan(file);
    NonBlankShrinks(Lines(file));
  }

  // ---------------------------------------------------------------------------
  // Replaying, line by line
  // ---------------------------------------------------------------------------

  /** The replay loop's variables; `calls` counts the publish attempts made. */
  datatype Progress<L> = Progress(replayed: seq<Request>, remaining: seq<L>, processing: bool, calls: nat)

  function Start<L>(): Progress<L> {
    Progress([], [], true, 0)
  }

  /** One non-blank line. `ok` is the outcome of publishing it, if it gets that far. */
  function ReplayLine<L>(decode: L -> Option<Request>, max: nat, p: Progress<L>, line: L, ok: bool): Progress<L> {
    if !p.processing then p.(remaining := p.remaining + [line])
    else if |p.replayed| >= max then p.(remaining := p.remaining + [line], processing := false)
    else
      match decode(line)
      case None => p.(remaining := p.remaining + [line])
      case Some(req) =>
        if ok then p.(replayed := p.replayed + [req], calls := p.calls + 1)
        else p.(remaining := p.remaining + [line], processing := false, calls := p.calls + 1)
  }

  function Outcome(outs: seq<bool>, k: nat): bool {
    k < |outs| && outs[k]
  }

  function ReplayAll<L>(decode: L -> Option<Request>, max: nat, lines: seq<L>, outs: seq<bool>): Progress<L> {
    if lines == [] then Start()
    else
      var p := ReplayAll(decode, max, lines[..|lines| - 1], outs);
      ReplayLine(decode, max, p, lines[|lines| - 1], Outcome(outs, p.calls))
  }

  /** The requests of the decodable lines, in order. */
  function Decoded<L>(decode: L -> Option<Request>, lines: seq<L>): seq<Request> {
    if lines == [] then []
    else
      var n := |lines| - 1;
      Decoded(decode, lines[..n]) + (if decode(lines[n]).Some? then [decode(lines[n]).value] else [])
  }

  function Undecodable<L>(decode: L -> Option<Request>, lines: seq<L>): seq<L> {
    if lines == [] then []
    else
      var n := |lines| - 1;
      Undecodable(decode, lines[..n]) + (if decode(lines[n]).Some? then [] else [lines[n]])
  }

  lemma DecodedSnoc<L>(decode: L -> Option<Request>, lines: seq<L>, line: L)
    ensures Decoded(decode, lines + [line]) ==
            Decoded(decode, lines) + (if decode(line).Some? then [decode(line).value] else [])
    ensures Undecodable(decode, lines + [line]) ==
            Undecodable(decode, lines) + (if decode(line).Some? then [] else [line])
  {
    assert (lines + [line])[..|lines|] == lines;
  }

  /** What the replay loop has established after any number of lines. */
  ghost predicate Faithful<L(!new)>(decode: L -> Option<Request>, max: nat, lines: seq<L>, p: Progress<L>) {
    && p.replayed + Decoded(decode, p.remaining) == Decoded(decode, lines)
    && Undecodable(decode, p.remaining) == Undecodable(decode, lines)
    && |p.replayed| + |p.remaining| == |lines|
    && (forall l :: l in p.remaining ==> l in lines)
    && |p.replayed| <= p.calls <= max
    && (p.processing ==> Decoded(decode, p.remaining) == [] && p.calls == |p.replayed|)
  }

  lemma RetainFaithful<L(!new)>(
    decode: L -> Option<Request>, max: nat, lines: seq<L>, p: Progress<L>, p': Progress<L>, line: L)
    requires Faithful(decode, max, lines, p)
    requires p'.replayed == p.replayed && p'.remaining == p.remaining + [line] && p.calls <= p'.calls <= max
    requires p'.processing ==> p.processing && decode(line).None? && p'.calls == p.calls
    ensures Faithful(decode, max, lines + [line], p')
  {
    DecodedSnoc(decode, lines, line);
    DecodedSnoc(decode, p.remaining, line);
    var tail := if decode(line).Some? then [decode(line).value] else [];
    assert p.replayed + (Decoded(decode, p.remaining) + tail) == p.replayed + Decoded(decode, p.remaining) + tail;
  }

  lemma PublishFaithful<L(!new)>(
    decode: L -> Option<Request>, max: nat, lines: seq<L>, p: Progress<L>, p': Progress<L>, line: L)
    requires Faithful(decode, max, lines, p) && p.processing && |p.replayed| < max && decode(line).Some?
    requires p' == Progress(p.replayed + [decode(line).value], p.remaining, true, p.calls + 1)
    ensures Faithful(decode, max, lines + [line], p')
  {
    DecodedSnoc(decode, lines, line);
    assert p.replayed + [] == p.replayed;
    assert p'.replayed + [] == p'.replayed;
  }

  lemma ReplayLineFaithful<L(!new)>(
    decode: L -> Option<Request>, max: nat, lines: seq<L>, p: Progress<L>, line: L, ok: bool)
    requires Faithful(decode, max, lines, p)
    ensures Faithful(decode, max, lines + [line], ReplayLine(decode, max, p, line, ok))
  {
    var p' := ReplayLine(decode, max, p, line, ok);
    if p.processing && |p.replayed| < max && decode(line).Some? && ok {
      PublishFaithful(decode, max, lines, p, p', line);
    } else {
      RetainFaithful(decode, max, lines, p, p', line);
    }
  }

  /** One replay is a FIFO step: it publishes a prefix of the decodable requests and keeps
      the rest in order, keeps every undecodable line in order, and makes at most `max`
      publish calls. */
  lemma {:induction false} ReplayIsFifo<L(!new)>(decode: L -> Option<Request>, max: nat, lines: seq<L>, outs: seq<bool>)
    ensures Faithful(decode, max, lines, ReplayAll(decode, max, lines, outs))
  {
    if lines != [] {
      var n := |lines| - 1;
      ReplayIsFifo(decode, max, lines[..n], outs);
      var p := ReplayAll(decode, max, lines[..n], outs);
      ReplayLineFaithful(decode, max, lines[..n], p, lines[n], Outcome(outs, p.calls));
      assert lines == lines[..n] + [lines[n]];
    }
  }

  lemma {:induction false} RemainingShrinks(
    decode: string -> Option<Request>, max: nat, lines: seq<string>, outs: seq<bool>)
    ensures |Unlines(ReplayAll(decode, max, lines, outs).remaining)| <= |Unlines(lines)|
  {
    if lines != [] {
      var n := |lines| - 1;
      RemainingShrinks(decode, max, lines[..n], outs);
      UnlinesSnoc(ReplayAll(decode, max, lines[..n], outs).remaining, lines[n]);
    }
  }
}
