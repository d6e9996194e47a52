/** Counting contiguous runs of acknowledged entry IDs (internal/service/dispatcher.go). */
module AckSpans {
  import opened Common
  import opened Sorting
  import opened Positions

  const TWO64: nat := 0x1_0000_0000_0000_0000

  /** `streamIDParts`: a Redis entry ID, two uint64 numbers. */
  newtype Uint64 = x: int | 0 <= x < 0x1_0000_0000_0000_0000
  datatype Parts = Parts(ms: Uint64, sq: Uint64)

  /** uint64 increment, wrapping. */
  function Succ(x: Uint64): Uint64 {
    if x == 0xFFFF_FFFF_FFFF_FFFF then 0 else x + 1
  }

  predicate IsDigit(ch: char) {
    '0' <= ch <= '9'
  }

  function DigitValue(ch: char): (d: nat)
    requires IsDigit(ch)
    ensures d < 10
  {
    ch as int - '0' as int
  }

  function DigitsValue(s: string): nat
    requires forall i :: 0 <= i < |s| ==> IsDigit(s[i])
  {
    if s == "" then 0 else 10 * DigitsValue(s[..|s| - 1]) + DigitValue(s[|s| - 1])
  }

  /** `strconv.ParseUint(s, 10, 64)`: digits only, at least one, within 64 bits. */
  function ParseUint(s: string): Option<Uint64> {
    if s != "" && (forall i :: 0 <= i < |s| ==> IsDigit(s[i])) && DigitsValue(s) < TWO64
    then Some(DigitsValue(s) as Uint64) else None
  }

  /** The index of the first '-', or the length. */
  function DashIndex(s: string): (k: nat)
    ensures k <= |s| && '-' !in s[..k] && (k < |s| ==> s[k] == '-')
  {
    if s == "" || s[0] == '-' then 0
    else
      var k := DashIndex(s[1..]);
      assert s[..1 + k] == [s[0]] + s[1..][..k];
      1 + k
  }

  function ParseStreamIDParts(entryId: string): Option<Parts> {
    var k := DashIndex(entryId);
    if k == |entryId| then None
    else
      var ms, sq := ParseUint(entryId[..k]), ParseUint(entryId[k + 1..]);
      if ms.Some? && sq.Some? then Some(Parts(ms.value, sq.value)) else None
  }

  // ---------------------------------------------------------------------------
  // What parses, and as what
  // ---------------------------------------------------------------------------

  /** A decimal number that fits 64 bits. */
  predicate Numeral(s: string) {
    s != "" && (forall i :: 0 <= i < |s| ==> IsDigit(s[i])) && DigitsValue(s) < 0x1_0000_0000_0000_0000
  }

  /** A digit, the inverse of `DigitValue`. */
  function Digit(d: nat): (ch: char)
    requires d < 10
    ensures IsDigit(ch) && DigitValue(ch) == d
  {
    d as char + '0'
  }

  function Decimal(n: nat): (s: string)
    ensures s != "" && forall i :: 0 <= i < |s| ==> IsDigit(s[i])
  {
    if n < 10 then [Digit(n)] else Decimal(n / 10) + [Digit(n % 10)]
  }

  lemma {:induction false} DecimalValue(n: nat)
    ensures DigitsValue(Decimal(n)) == n
  {
    if n < 10 {
      assert Decimal(n)[..0] == "";
    } else {
      DecimalValue(n / 10);
      var s := Decimal(n);
      assert s[..|s| - 1] == Decimal(n / 10);
    }
  }

  lemma DashAfter(a: string, b: string)
    requires '-' !in a
    ensures DashIndex(a + "-" + b) == |a|
  {
    var s, k := a + "-" + b, DashIndex(a + "-" + b);
    assert s[|a|] == '-';
    assert forall i :: 0 <= i < |a| ==> s[i] == a[i];
    forall m | |a| < m <= |s|
      ensures '-' in s[..m]
    {
      assert s[..m][|a|] == '-';
    }
  }

  /** Two numerals joined by a dash parse: the first is the milliseconds, the second the sequence. */
  lemma ParsesAs(a: string, b: string)
    requires Numeral(a) && Numeral(b)
    ensures ParseStreamIDParts(a + "-" + b) == Some(Parts(DigitsValue(a) as Uint64, DigitsValue(b) as Uint64))
  {
    var s := a + "-" + b;
    DashAfter(a, b);
    assert s[..|a|] == a && s[|a| + 1..] == b;
  }

  /** Nothing else parses. */
  lemma ParsesOnly(s: string)
    ensures ParseStreamIDParts(s).Some? <==> exists a, b :: Numeral(a) && Numeral(b) && s == a + "-" + b
  {
    if ParseStreamIDParts(s).Some? {
      var k := DashIndex(s);
      assert s == s[..k] + "-" + s[k + 1..];
      assert Numeral(s[..k]) && Numeral(s[k + 1..]);
    }
    if exists a, b :: Numeral(a) && Numeral(b) && s == a + "-" + b {
      var a, b :| Numeral(a) && Numeral(b) && s == a + "-" + b;
      ParsesAs(a, b);
    }
  }

  /** Writing an ID and parsing it gives it back. */
  lemma ParseRoundTrip(p: Parts)
    ensures ParseStreamIDParts(Decimal(p.ms as nat) + "-" + Decimal(p.sq as nat)) == Some(p)
  {
    DecimalValue(p.ms as nat);
    DecimalValue(p.sq as nat);
    ParsesAs(Decimal(p.ms as nat), Decimal(p.sq as nat));
  }

  /** Every ID that parses is counted, in order. */
  lemma {:induction false} ParsedAt(entryIds: seq<string>) returns (at: seq<nat>)
    ensures MapsAt(ParseStreamIDParts, entryIds, at, Parsed(entryIds))
  {
    at := [];
    if entryIds != [] {
      var n := |entryIds| - 1;
      at := ParsedAt(entryIds[..n]);
      MapsLonger(ParseStreamIDParts, entryIds[..n], entryIds[n], at, Parsed(entryIds[..n]));
      assert entryIds == entryIds[..n] + [entryIds[n]];
      if ParseStreamIDParts(entryIds[n]).Some? {
        at := at + [n];
      }
    }
  }

  predicate PartsLe(a: Parts, b: Parts) {
    a.ms < b.ms || (a.ms == b.ms && a.sq <= b.sq)
  }

  lemma PartsOrder()
    ensures TotalOrder(PartsLe)
  {
  }

  function Parsed(entryIds: seq<string>): seq<Parts> {
    if entryIds == [] then []
    else
      var rest := Parsed(entryIds[..|entryIds| - 1]);
      var p := ParseStreamIDParts(entryIds[|entryIds| - 1]);
      if p.Some? then rest + [p.value] else rest
  }

  // ---------------------------------------------------------------------------
  // The reference: maximal runs of a set of IDs
  // ---------------------------------------------------------------------------

  /** `p` begins a run: its immediate predecessor with the same milliseconds is not there.
      The predecessor is computed without wrapping. */
  ghost predicate StartsRun(ids: set<Parts>, p: Parts) {
    p in ids && (p.sq == 0 || Parts(p.ms, p.sq - 1) !in ids)
  }

  ghost function RunStarts(ids: set<Parts>): set<Parts> {
    set p | p in ids && StartsRun(ids, p)
  }

  ghost function Elements(xs: seq<Parts>): set<Parts> {
    set x | x in xs
  }

  /** Maximal runs, plus one for every repeat. */
  ghost function Spans(xs: seq<Parts>): int {
    |RunStarts(Elements(xs))| + (|xs| - |Elements(xs)|)
  }

  /** What the counting loop asks of two neighbours, with uint64 wrap-around. */
  predicate Follows(previous: Parts, current: Parts) {
    current.ms == previous.ms && current.sq == Succ(previous.sq)
  }

  /** The wrap never joins two entries of a sorted list: following is following without wrap. */
  lemma WrapNeverJoins(previous: Parts, current: Parts)
    requires PartsLe(previous, current)
    ensures Follows(previous, current) <==> current.ms == previous.ms && current.sq as int == previous.sq as int + 1
  {
  }

  /** How the counters move when `xs` grows by one entry at its sorted end: a repeat and a
      gap both open a span, and only a gap starts a run. */
  lemma {:induction false} RunStartsGrow(xs: seq<Parts>, x: Parts)
    requires xs != [] && Sorted(xs + [x], PartsLe)
    ensures var last := xs[|xs| - 1];
            && (x == last ==> Elements(xs + [x]) == Elements(xs))
            && (x != last ==> x !in Elements(xs) && Elements(xs + [x]) == Elements(xs) + {x})
            && (x != last && Follows(last, x) ==> RunStarts(Elements(xs + [x])) == RunStarts(Elements(xs)))
            && (x != last && !Follows(last, x) ==> RunStarts(Elements(xs + [x])) == RunStarts(Elements(xs)) + {x})
  {
    var last := xs[|xs| - 1];
    var all := xs + [x];
    assert forall i :: 0 <= i < |xs| ==> all[i] == xs[i];
    assert forall i :: 0 <= i < |xs| ==> PartsLe(xs[i], last) by {
      forall i | 0 <= i < |xs| ensures PartsLe(xs[i], last) {
        if i < |xs| - 1 { assert PartsLe(all[i], all[|xs| - 1]); }
      }
    }
    assert PartsLe(all[|xs| - 1], all[|xs|]);
    assert Elements(all) == Elements(xs) + {x};
    if x != last {
      NewRuns(Elements(xs), last, x);
    }
  }

  lemma NewRuns(ids: set<Parts>, last: Parts, x: Parts)
    requires last in ids && (forall p :: p in ids ==> PartsLe(p, last)) && PartsLe(last, x) && x != last
    ensures x !in ids
    ensures Follows(last, x) ==> RunStarts(ids + {x}) == RunStarts(ids)
    ensures !Follows(last, x) ==> RunStarts(ids + {x}) == RunStarts(ids) + {x}
  {
    assert x !in ids;
    WrapNeverJoins(last, x);
    forall p | p in ids ensures StartsRun(ids + {x}, p) <==> StartsRun(ids, p) {
      assert PartsLe(p, last);
    }
    if Follows(last, x) {
      assert Parts(x.ms, x.sq - 1) == last;
      assert !StartsRun(ids + {x}, x);
    } else {
      if x.sq > 0 {
        var p := Parts(x.ms, x.sq - 1);
        assert !PartsLe(p, last);
        assert p !in ids;
      }
      assert StartsRun(ids + {x}, x);
    }
  }

  /** `countContiguousAckSpans`. The entry IDs may come in any order and may repeat; IDs that
      do not parse are ignored. `spans` is the number of maximal runs plus one for every
      repeat, and every parsed ID is either a span or saved. */
  method CountContiguousAckSpans(entryIds: seq<string>) returns (spans: nat, saved: nat)
    ensures spans + saved == |Parsed(entryIds)|
    ensures Counted(Parsed(entryIds), spans)
    ensures var parts := Parsed(entryIds); spans == |RunStarts(Elements(parts))| + (|parts| - |Elements(parts)|)
  {
    var unsorted := ParseAll(entryIds);
    if |unsorted| == 0 {
      assert Elements(unsorted) == {} == RunStarts({});
      return 0, 0;
    }
    var parts := Sort(unsorted, PartsLe);
    PartsOrder();
    SortSorts(unsorted, PartsLe);
    SameMembers(parts, unsorted);
    assert Elements(parts) == Elements(unsorted);
    spans, saved := CountSorted(parts);
  }

  /** The parsing loop. */
  method ParseAll(entryIds: seq<string>) returns (parts: seq<Parts>)
    ensures parts == Parsed(entryIds)
  {
    parts := [];
    for i := 0 to |entryIds|
      invariant parts == Parsed(entryIds[..i])
    {
      var parsed := ParseStreamIDParts(entryIds[i]);
      assert entryIds[..i + 1][..i] == entryIds[..i];
      if parsed.Some? {
        parts := parts + [parsed.value];
      }
    }
    assert entryIds[..|entryIds|] == entryIds;
  }

  /** The counting loop over the sorted parts. */
  method CountSorted(parts: seq<Parts>) returns (spans: nat, saved: nat)
    requires parts != [] && Sorted(parts, PartsLe)
    ensures spans + saved == |parts| && Counted(parts, spans)
  {
    spans, saved := 1, 0;
    var currentSpanLength := 1;
    CountFirst(parts[0]);
    assert parts[..1] == [parts[0]];
    for i := 1 to |parts|
      invariant currentSpanLength >= 1
      invariant spans + saved + (currentSpanLength - 1) == i
      invariant Counted(parts[..i], spans)
    {
      var previous, current := parts[i - 1], parts[i];
      CountNext(parts[..i], spans, current);
      assert parts[..i + 1] == parts[..i] + [current];
      if current.ms == previous.ms && current.sq == Succ(previous.sq) {
        currentSpanLength := currentSpanLength + 1;
        continue;
      }
      if currentSpanLength > 1 {
        saved := saved + (currentSpanLength - 1);
      }
      spans := spans + 1;
      currentSpanLength := 1;
    }
    assert parts[..|parts|] == parts;
    if currentSpanLength > 1 {
      saved := saved + (currentSpanLength - 1);
    }
  }

  lemma CountFirst(p: Parts)
    ensures Counted([p], 1)
  {
    assert Elements([p]) == {p} == RunStarts({p});
  }

  ghost predicate Counted(xs: seq<Parts>, spans: int) {
    |Elements(xs)| <= |xs| && spans == Spans(xs)
  }

  lemma CountNext(xs: seq<Parts>, spans: int, x: Parts)
    requires xs != [] && Sorted(xs + [x], PartsLe) && Counted(xs, spans)
    ensures Counted(xs + [x], if Follows(xs[|xs| - 1], x) then spans else spans + 1)
  {
    RunStartsGrow(xs, x);
  }

  lemma {:induction false} ElementsBound(xs: seq<Parts>)
    ensures |Elements(xs)| <= |xs|
    ensures |Elements(xs)| == |xs| <==> forall i, j :: 0 <= i < j < |xs| ==> xs[i] != xs[j]
  {
    if xs != [] {
      var pre, x := xs[..|xs| - 1], xs[|xs| - 1];
      ElementsBound(pre);
      assert xs == pre + [x];
      assert Elements(xs) == Elements(pre) + {x};
      if x in Elements(pre) {
        var i :| 0 <= i < |pre| && pre[i] == x;
        assert xs[i] == xs[|xs| - 1];
      }
    }
  }

  /** Distinct IDs: exactly the maximal runs. */
  lemma DistinctSpansAreRuns(entryIds: seq<string>)
    requires var parts := Parsed(entryIds); forall i, j :: 0 <= i < j < |parts| ==> parts[i] != parts[j]
    ensures Spans(Parsed(entryIds)) == |RunStarts(Elements(Parsed(entryIds)))|
  {
    ElementsBound(Parsed(entryIds));
  }

  lemma {:induction false} ParsedAppend(xs: seq<string>, ys: seq<string>)
    ensures Parsed(xs + ys) == Parsed(xs) + Parsed(ys)
  {
    if ys == [] {
      assert xs + ys == xs;
    } else {
      var pre := ys[..|ys| - 1];
      ParsedAppend(xs, pre);
      assert (xs + ys)[..|xs + ys| - 1] == xs + pre;
    }
  }

  /** The order of the IDs does not matter. */
  lemma {:induction false} SpansForgetOrder(xs: seq<string>, ys: seq<string>)
    requires multiset(xs) == multiset(ys)
    ensures multiset(Parsed(xs)) == multiset(Parsed(ys))
    ensures Spans(Parsed(xs)) == Spans(Parsed(ys))
  {
    ParsedForgetsOrder(xs, ys);
    SameMembers(Parsed(xs), Parsed(ys));
    assert Elements(Parsed(xs)) == Elements(Parsed(ys));
  }

  lemma {:induction false} ParsedForgetsOrder(xs: seq<string>, ys: seq<string>)
    requires multiset(xs) == multiset(ys)
    ensures multiset(Parsed(xs)) == multiset(Parsed(ys))
  {
    SameMembers(xs, ys);
    if xs != [] {
      var x := xs[0];
      assert x in ys;
      var k :| 0 <= k < |ys| && ys[k] == x;
      var rest := ys[..k] + ys[k + 1..];
      assert xs == [x] + xs[1..];
      assert ys == ys[..k] + [x] + ys[k + 1..];
      TailMultiset(xs);
      assert multiset(rest) == multiset(ys) - multiset{x};
      ParsedForgetsOrder(xs[1..], rest);
      ParsedAppend([x], xs[1..]);
      ParsedAppend(ys[..k], ys[k + 1..]);
      ParsedAppend(ys[..k] + [x], ys[k + 1..]);
      ParsedAppend(ys[..k], [x]);
    }
  }
}
