/**
 The dead-letter scanner of one consumer group (scanAndMoveToDLQ and movePendingEntryToDLQ in
 internal/service/service.go): it pages through the pending list with an exclusive cursor
 while its own acknowledgements shrink that list. The result is stated without pages: every
 entry is visited once, in ID order.
 */
module DlqScan {
  import opened Common
  import opened Positions
  import opened Dlq

  /** One row of XPENDING; `name` is the textual entry ID that `id` orders. */
  datatype Pending = Pending(id: nat, name: string, retries: nat, idle: nat)

  datatype Policy = Policy(maxRetries: nat, minIdle: nat)

  predicate Eligible(policy: Policy, p: Pending) {
    p.retries >= policy.maxRetries && (policy.minIdle == 0 || p.idle >= policy.minIdle)
  }

  /** A Redis error during one move; `applied` tells whether the command took effect anyway. */
  datatype Fault = RangeFault | AddFault(applied: bool) | AckFault(applied: bool)

  /** What a scan runs against: the stream's messages, how rows are rendered, and the faults. */
  datatype Env = Env(
    policy: Policy,
    messages: map<nat, Fields>,
    render: Pending -> Move,
    faults: map<nat, Fault>)

  // ---------------------------------------------------------------------------
  // The unpaged meaning
  // ---------------------------------------------------------------------------

  predicate Wanted(env: Env, p: Pending) {
    Eligible(env.policy, p) && p.id in env.messages
  }

  /** An attempt to move the entry gets its copy into the DLQ. */
  predicate CopyLands(env: Env, p: Pending) {
    p.id in env.messages &&
    (p.id in env.faults ==> env.faults[p.id].AckFault? || (env.faults[p.id].AddFault? && env.faults[p.id].applied))
  }

  /** An attempt to move the entry takes it off the pending list. */
  predicate AckLands(env: Env, p: Pending) {
    p.id in env.messages && (p.id in env.faults ==> env.faults[p.id].AckFault? && env.faults[p.id].applied)
  }

  /** The scan copies, and the scan removes, only entries the policy selects. */
  predicate Copied(env: Env, p: Pending) {
    Eligible(env.policy, p) && CopyLands(env, p)
  }

  predicate Acked(env: Env, p: Pending) {
    Eligible(env.policy, p) && AckLands(env, p)
  }

  function Kept(env: Env, rows: seq<Pending>): seq<Pending> {
    if rows == [] then []
    else
      var n := |rows| - 1;
      Kept(env, rows[..n]) + (if Acked(env, rows[n]) then [] else [rows[n]])
  }

  function Copies(env: Env, rows: seq<Pending>): seq<Fields> {
    if rows == [] then []
    else
      var n := |rows| - 1;
      Copies(env, rows[..n]) +
      (if Copied(env, rows[n]) then [MoveValues(env.render(rows[n]), env.messages[rows[n].id])] else [])
  }

  /** The pending list is ordered by ID. */
  ghost predicate Ordered(rows: seq<Pending>) {
    forall i, k :: 0 <= i < k < |rows| ==> rows[i].id < rows[k].id
  }

  // ---------------------------------------------------------------------------
  // Redis commands on the pending list
  // ---------------------------------------------------------------------------

  /** Rows strictly after the cursor. */
  function Beyond(rows: seq<Pending>, cursor: Option<nat>): seq<Pending> {
    if rows == [] then []
    else
      var n := |rows| - 1;
      Beyond(rows[..n], cursor) + (if cursor.None? || rows[n].id > cursor.value then [rows[n]] else [])
  }

  /** XPENDING start + count, with an exclusive start. */
  function Page(rows: seq<Pending>, cursor: Option<nat>, count: nat): seq<Pending> {
    var beyond := Beyond(rows, cursor);
    if |beyond| <= count then beyond else beyond[..count]
  }

  /** XACK of one ID. */
  function Without(rows: seq<Pending>, id: nat): seq<Pending> {
    if rows == [] then []
    else
      var n := |rows| - 1;
      Without(rows[..n], id) + (if rows[n].id == id then [] else [rows[n]])
  }

  lemma {:induction false} BeyondAppend(a: seq<Pending>, b: seq<Pending>, cursor: Option<nat>)
    ensures Beyond(a + b, cursor) == Beyond(a, cursor) + Beyond(b, cursor)
  {
    if b == [] {
      assert a + b == a;
    } else {
      var n := |b| - 1;
      BeyondAppend(a, b[..n], cursor);
      assert (a + b)[..|a + b| - 1] == a + b[..n];
    }
  }

  lemma {:induction false} BeyondAll(rows: seq<Pending>, cursor: Option<nat>)
    requires forall i :: 0 <= i < |rows| ==> cursor.None? || rows[i].id > cursor.value
    ensures Beyond(rows, cursor) == rows
  {
    if rows != [] {
      BeyondAll(rows[..|rows| - 1], cursor);
      assert rows == rows[..|rows| - 1] + [rows[|rows| - 1]];
    }
  }

  lemma BeyondNone(rows: seq<Pending>, cursor: Option<nat>)
    requires forall i :: 0 <= i < |rows| ==> cursor.Some? && rows[i].id <= cursor.value
    ensures Beyond(rows, cursor) == []
  {
  }

  lemma {:induction false} WithoutAppend(a: seq<Pending>, b: seq<Pending>, id: nat)
    ensures Without(a + b, id) == Without(a, id) + Without(b, id)
  {
    if b == [] {
      assert a + b == a;
    } else {
      var n := |b| - 1;
      WithoutAppend(a, b[..n], id);
      assert (a + b)[..|a + b| - 1] == a + b[..n];
    }
  }

  lemma {:induction false} WithoutMissing(rows: seq<Pending>, id: nat)
    requires forall i :: 0 <= i < |rows| ==> rows[i].id != id
    ensures Without(rows, id) == rows
  {
    if rows != [] {
      WithoutMissing(rows[..|rows| - 1], id);
      assert rows == rows[..|rows| - 1] + [rows[|rows| - 1]];
    }
  }

  lemma {:induction false} KeptMembers(env: Env, rows: seq<Pending>)
    ensures forall r :: r in Kept(env, rows) ==> r in rows
  {
    if rows != [] {
      KeptMembers(env, rows[..|rows| - 1]);
      assert rows == rows[..|rows| - 1] + [rows[|rows| - 1]];
    }
  }

  /** Midway through the scan the list is the survivors of what was visited, then the rest. */
  function Partway(env: Env, rows: seq<Pending>, v: nat): seq<Pending>
    requires v <= |rows|
  {
    Kept(env, rows[..v]) + rows[v..]
  }

  /** The cursor after visiting `v` rows. */
  function CursorAt(rows: seq<Pending>, v: nat): Option<nat>
    requires v <= |rows|
  {
    if v == 0 then None else Some(rows[v - 1].id)
  }

  /** Although visited entries may have left the list, the exclusive cursor sees exactly the
      rows not visited yet. */
  lemma CursorSeesRest(env: Env, rows: seq<Pending>, v: nat)
    requires Ordered(rows) && v <= |rows|
    ensures Beyond(Partway(env, rows, v), CursorAt(rows, v)) == rows[v..]
  {
    var kept, cursor := Kept(env, rows[..v]), CursorAt(rows, v);
    BeyondAppend(kept, rows[v..], cursor);
    BeyondAll(rows[v..], cursor);
    if v > 0 {
      KeptMembers(env, rows[..v]);
      forall i | 0 <= i < |kept|
        ensures kept[i].id <= rows[v - 1].id
      {
        assert kept[i] in rows[..v];
      }
      BeyondNone(kept, cursor);
    }
    assert [] + rows[v..] == rows[v..];
  }

  /** Removing an ID that occurs once, in the middle. */
  lemma {:induction false} WithoutMiddle(kept: seq<Pending>, p: Pending, rest: seq<Pending>)
    requires forall i :: 0 <= i < |kept| ==> kept[i].id != p.id
    requires forall i :: 0 <= i < |rest| ==> rest[i].id != p.id
    ensures Without(kept + ([p] + rest), p.id) == kept + rest
  {
    WithoutAppend(kept, [p] + rest, p.id);
    WithoutAppend([p], rest, p.id);
    WithoutMissing(kept, p.id);
    WithoutMissing(rest, p.id);
    assert Without([p], p.id) == [];
    assert [] + rest == rest;
  }

  lemma KeptSnoc(env: Env, rows: seq<Pending>, v: nat)
    requires v < |rows|
    ensures Kept(env, rows[..v + 1]) == Kept(env, rows[..v]) + if Acked(env, rows[v]) then [] else [rows[v]]
  {
    assert rows[..v + 1][..v] == rows[..v];
  }

  lemma VisitedIdsDiffer(env: Env, rows: seq<Pending>, v: nat)
    requires Ordered(rows) && v < |rows|
    ensures forall i :: 0 <= i < |Kept(env, rows[..v])| ==> Kept(env, rows[..v])[i].id != rows[v].id
  {
    var kept := Kept(env, rows[..v]);
    KeptMembers(env, rows[..v]);
    forall i | 0 <= i < |kept|
      ensures kept[i].id != rows[v].id
    {
      assert kept[i] in rows[..v];
    }
  }

  /** Acknowledging the next row turns one partial list into the next. */
  lemma NextPartway(env: Env, rows: seq<Pending>, v: nat)
    requires Ordered(rows) && v < |rows|
    ensures Acked(env, rows[v]) ==> Without(Partway(env, rows, v), rows[v].id) == Partway(env, rows, v + 1)
    ensures !Acked(env, rows[v]) ==> Partway(env, rows, v) == Partway(env, rows, v + 1)
  {
    var kept, p, rest := Kept(env, rows[..v]), rows[v], rows[v + 1..];
    KeptSnoc(env, rows, v);
    assert rows[v..] == [p] + rest;
    if Acked(env, p) {
      VisitedIdsDiffer(env, rows, v);
      WithoutMiddle(kept, p, rest);
      assert kept + [] == kept;
    } else {
      assert kept + ([p] + rest) == kept + [p] + rest;
    }
  }

  lemma NextCopies(env: Env, rows: seq<Pending>, v: nat)
    requires v < |rows|
    ensures Copies(env, rows[..v + 1]) == Copies(env, rows[..v]) +
              (if Copied(env, rows[v]) then [MoveValues(env.render(rows[v]), env.messages[rows[v].id])] else [])
  {
    assert rows[..v + 1][..v] == rows[..v];
  }

  // ---------------------------------------------------------------------------
  // The scanner
  // ---------------------------------------------------------------------------

  class GroupScanner {
    const env: Env
    var pending: seq<Pending>
    var dlq: seq<Fields>

    constructor (env: Env, pending: seq<Pending>, dlq: seq<Fields>)
      ensures this.env == env && this.pending == pending && this.dlq == dlq
    {
      this.env, this.pending, this.dlq := env, pending, dlq;
    }

    /** movePendingEntryToDLQ: read, copy, then acknowledge; any error stops it there. */
    method MoveEntry(p: Pending) returns (moved: bool, failed: bool)
      modifies this
      ensures dlq == old(dlq) +
                     (if CopyLands(env, p) then [MoveValues(env.render(p), env.messages[p.id])] else [])
      ensures pending == if AckLands(env, p) then Without(old(pending), p.id) else old(pending)
      ensures moved <==> p.id in env.messages && p.id !in env.faults
      ensures failed <==> p.id in env.faults && (p.id in env.messages || env.faults[p.id].RangeFault?)
    {
      var fault := if p.id in env.faults then Some(env.faults[p.id]) else None;
      if fault == Some(RangeFault) {
        return false, true;
      }
      if p.id !in env.messages {
        return false, false;
      }
      var values := BuildDlqValues(env.render(p), env.messages[p.id]);
      if fault.Some? && fault.value.AddFault? {
        if fault.value.applied {
          dlq := dlq + [values];
        }
        return false, true;
      }
      dlq := dlq + [values];
      if fault.Some? && fault.value.AckFault? {
        if fault.value.applied {
          pending := Without(pending, p.id);
        }
        return false, true;
      }
      pending := Without(pending, p.id);
      return true, false;
    }

    /** The rows of one page; `base` is the DLQ before the scan. */
    method ScanPage(page: seq<Pending>, ghost base: seq<Fields>, ghost rows: seq<Pending>, ghost v: nat, ghost end: nat)
      requires Ordered(rows) && v <= end <= |rows| && page == rows[v..end]
      requires Visited(env, rows, base, pending, dlq, v)
      modifies this
      ensures Visited(env, rows, base, pending, dlq, end)
    {
      for i := 0 to |page|
        invariant Visited(env, rows, base, pending, dlq, v + i)
      {
        var p := page[i];
        assert p == rows[v + i];
        VisitNext(env, rows, base, pending, dlq, v + i);
        if p.retries < env.policy.maxRetries {
          continue;
        }
        if env.policy.minIdle > 0 && p.idle < env.policy.minIdle {
          continue;
        }
        var moved, failed := MoveEntry(p);
      }
    }

    /** One turn of the paging loop: read a page from the cursor on, work it off, move the cursor. */
    method ScanNextPage(
      batch: nat, cursor: Option<nat>, visited: nat, ghost base: seq<Fields>, ghost rows: seq<Pending>)
      returns (more: bool, cursor': Option<nat>, visited': nat)
      requires batch > 0 && Ordered(rows) && visited <= |rows| && cursor == CursorAt(rows, visited)
      requires Visited(env, rows, base, pending, dlq, visited)
      modifies this
      ensures visited' == visited + Min(batch, |rows| - visited) && Visited(env, rows, base, pending, dlq, visited')
      ensures more <==> visited' == visited + batch
      ensures more ==> cursor' == CursorAt(rows, visited')
    {
      var page := Page(pending, cursor, batch);
      PageIsNext(env, rows, visited, batch);
      cursor', visited' := cursor, visited + |page|;
      if |page| == 0 {
        return false, cursor', visited';
      }
      assert page[|page| - 1] == rows[visited' - 1];
      ScanPage(page, base, rows, visited, visited');
      if |page| < batch {
        return false, cursor', visited';
      }
      return true, Some(page[|page| - 1].id), visited';
    }

    /** The paging loop for one group. `pageFaults[k]` says that the k-th XPENDING fails.
        `visited` counts the rows looked at, each exactly once and in ID order: all of them, or
        the full pages before the first failing one. The outcome is that of one pass over
        those rows. */
    method ScanGroup(batch: nat, pageFaults: seq<bool>) returns (visited: nat)
      requires batch > 0 && Ordered(pending)
      modifies this
      ensures visited <= |old(pending)|
      ensures pending == Kept(env, old(pending)[..visited]) + old(pending)[visited..]
      ensures dlq == old(dlq) + Copies(env, old(pending)[..visited])
      ensures visited == Reached(pageFaults, batch, |old(pending)|)
    {
      ghost var rows, base := pending, dlq;
      var cursor: Option<nat>, pages, more := None, 0, true;
      visited := 0;
      VisitStart(env, rows, dlq);
      while more
        invariant visited <= |rows| && 0 <= pages
        invariant Visited(env, rows, base, pending, dlq, visited)
        invariant more ==> cursor == CursorAt(rows, visited)
        invariant Progressed(pageFaults, batch, |rows|, visited, pages, more)
        decreases more, |rows| - visited
      {
        if pages < |pageFaults| && pageFaults[pages] {
          FaultEnds(pageFaults, batch, |rows|, visited, pages);
          more := false;
        } else {
          ghost var before := visited;
          more, cursor, visited := ScanNextPage(batch, cursor, visited, base, rows);
          PageDone(pageFaults, batch, |rows|, before, visited, pages, more);
          pages := pages + 1;
        }
      }
    }
  }

  function Min(a: nat, b: nat): (m: nat)
    ensures m <= a && m <= b && (m == a || m == b)
  {
    if a <= b then a else b
  }

  /** The first page whose reading fails; the length when none does. */
  function FirstFault(pageFaults: seq<bool>): (k: nat)
    ensures k <= |pageFaults| && (k < |pageFaults| <==> true in pageFaults)
    ensures k < |pageFaults| ==> pageFaults[k]
    ensures forall i :: 0 <= i < k ==> !pageFaults[i]
  {
    if pageFaults == [] || pageFaults[0] then 0 else 1 + FirstFault(pageFaults[1..])
  }

  /** How far the paging loop must have got. */
  function Reached(pageFaults: seq<bool>, batch: nat, rows: nat): nat {
    if true in pageFaults then Min(rows, batch * FirstFault(pageFaults)) else rows
  }

  /** Before page `pages`, which no fault precedes: that many full pages were visited. */
  ghost predicate Progressed(pageFaults: seq<bool>, batch: nat, rows: nat, visited: nat, pages: nat, more: bool) {
    && (more ==> visited == pages * batch <= rows && forall i :: 0 <= i < pages && i < |pageFaults| ==> !pageFaults[i])
    && (!more ==> visited == Reached(pageFaults, batch, rows))
  }

  lemma FaultEnds(pageFaults: seq<bool>, batch: nat, rows: nat, visited: nat, pages: nat)
    requires Progressed(pageFaults, batch, rows, visited, pages, true) && pages < |pageFaults| && pageFaults[pages]
    ensures Progressed(pageFaults, batch, rows, visited, pages, false)
  {
    assert FirstFault(pageFaults) == pages;
    assert batch * pages == pages * batch;
  }

  lemma PageDone(pageFaults: seq<bool>, batch: nat, rows: nat, before: nat, visited: nat, pages: nat, more: bool)
    requires batch > 0 && Progressed(pageFaults, batch, rows, before, pages, true)
    requires !(pages < |pageFaults| && pageFaults[pages])
    requires visited == before + Min(batch, rows - before) && (more <==> visited == before + batch)
    ensures Progressed(pageFaults, batch, rows, visited, pages + 1, more)
  {
    var n := pages + 1;
    assert n * batch == pages * batch + batch;
    if !more && true in pageFaults {
      var k := FirstFault(pageFaults);
      assert k >= n;
      MultiplyMonotone(n, k, batch);
      assert batch * k == k * batch;
    }
  }

  lemma MultiplyMonotone(a: nat, b: nat, m: nat)
    requires a <= b
    ensures a * m <= b * m
  {
    assert b * m - a * m == (b - a) * m;
  }

  /** After visiting `v` rows: the pending list and the DLQ (`base` before the scan). */
  ghost predicate Visited(
    env: Env, rows: seq<Pending>, base: seq<Fields>, pending: seq<Pending>, dlq: seq<Fields>, v: nat) {
    v <= |rows| && pending == Partway(env, rows, v) && dlq == base + Copies(env, rows[..v])
  }

  lemma VisitStart(env: Env, rows: seq<Pending>, dlq: seq<Fields>)
    ensures Visited(env, rows, dlq, rows, dlq, 0)
  {
    assert rows[..0] == [] && rows[0..] == rows;
    assert [] + rows == rows && dlq + [] == dlq;
  }

  lemma VisitNext(env: Env, rows: seq<Pending>, base: seq<Fields>, pending: seq<Pending>, dlq: seq<Fields>, v: nat)
    requires Ordered(rows) && v < |rows| && Visited(env, rows, base, pending, dlq, v)
    ensures var p := rows[v];
            Visited(env, rows, base,
                    if Acked(env, p) then Without(pending, p.id) else pending,
                    dlq + (if Copied(env, p) then [MoveValues(env.render(p), env.messages[p.id])] else []),
                    v + 1)
    ensures !Eligible(env.policy, rows[v]) ==> Visited(env, rows, base, pending, dlq, v + 1)
  {
    NextPartway(env, rows, v);
    NextCopies(env, rows, v);
    assert dlq + [] == dlq;
  }

  lemma PageIsNext(env: Env, rows: seq<Pending>, v: nat, batch: nat)
    requires Ordered(rows) && v <= |rows|
    ensures var n := if |rows| - v <= batch then |rows| - v else batch;
            Page(Partway(env, rows, v), CursorAt(rows, v), batch) == rows[v..v + n]
  {
    CursorSeesRest(env, rows, v);
  }

  // ---------------------------------------------------------------------------
  // What one pass over the rows means
  // ---------------------------------------------------------------------------

  lemma {:induction false} CleanKept(env: Env, rows: seq<Pending>)
    requires env.faults == map[]
    ensures forall r :: r in Kept(env, rows) <==> r in rows && !Wanted(env, r)
    ensures |Kept(env, rows)| + |Copies(env, rows)| == |rows|
  {
    if rows != [] {
      CleanKept(env, rows[..|rows| - 1]);
      assert rows == rows[..|rows| - 1] + [rows[|rows| - 1]];
    }
  }

  /** `copy` is what a move makes of the entry at position `v`. */
  ghost predicate CopyOf(env: Env, rows: seq<Pending>, v: nat, copy: Fields) {
    && v < |rows| && rows[v].id in env.messages
    && copy == MoveValues(env.render(rows[v]), env.messages[rows[v].id])
  }

  /** The copies are those of the entries at positions `at`, in the order of the list. */
  lemma {:induction false} CopiesInOrder(env: Env, rows: seq<Pending>) returns (at: seq<nat>)
    ensures |at| == |Copies(env, rows)| && forall i, k :: 0 <= i < k < |at| ==> at[i] < at[k]
    ensures forall i :: 0 <= i < |at| ==> CopyOf(env, rows, at[i], Copies(env, rows)[i])
    ensures forall v: nat :: v in at <==> v < |rows| && Copied(env, rows[v])
  {
    if rows == [] {
      at := [];
    } else {
      var n := |rows| - 1;
      at := CopiesInOrder(env, rows[..n]);
      assert forall i :: 0 <= i < |at| ==> at[i] in at;
      assert forall i :: 0 <= i < |at| ==> CopyOf(env, rows[..n], at[i], Copies(env, rows[..n])[i]);
      if Copied(env, rows[n]) {
        at := at + [n];
      }
    }
  }

  /** Without Redis errors exactly the eligible entries whose message exists leave the list, and
      the copies are theirs, in the order of the list: `at` names their positions. */
  lemma CleanScan(env: Env, rows: seq<Pending>) returns (at: seq<nat>)
    requires env.faults == map[]
    ensures forall r :: r in Kept(env, rows) <==> r in rows && !Wanted(env, r)
    ensures forall r :: Wanted(env, r) <==>
              && r.retries >= env.policy.maxRetries && r.id in env.messages
              && (env.policy.minIdle > 0 ==> r.idle >= env.policy.minIdle)
    ensures |Kept(env, rows)| + |Copies(env, rows)| == |rows|
    ensures |at| == |Copies(env, rows)| && forall i, k :: 0 <= i < k < |at| ==> at[i] < at[k]
    ensures forall i :: 0 <= i < |at| ==> CopyOf(env, rows, at[i], Copies(env, rows)[i])
    ensures forall v: nat :: v in at <==> v < |rows| && Wanted(env, rows[v])
  {
    CleanKept(env, rows);
    at := CopiesInOrder(env, rows);
  }

  /** The rows that survive a scan keep their order: exactly those whose acknowledgement does not
      land or that the policy leaves alone. */
  lemma {:induction false} KeptAt(env: Env, rows: seq<Pending>) returns (at: seq<nat>)
    ensures PicksAt(rows, Kept(env, rows), at)
    ensures forall v: nat :: v in at <==> v < |rows| && !(Eligible(env.policy, rows[v]) && AckLands(env, rows[v]))
  {
    at := [];
    if rows != [] {
      var n := |rows| - 1;
      at := KeptAt(env, rows[..n]);
      PicksLonger(rows[..n], rows[n], Kept(env, rows[..n]), at);
      assert rows == rows[..n] + [rows[n]];
      if !Acked(env, rows[n]) {
        at := at + [n];
      }
    }
  }

  /** With any errors, no entry leaves the pending list unless its copy is in the DLQ. */
  lemma {:induction false} NothingDroppedByScan(env: Env, rows: seq<Pending>, r: Pending)
    requires r in rows
    ensures r in Kept(env, rows) ||
            (r.id in env.messages && MoveValues(env.render(r), env.messages[r.id]) in Copies(env, rows))
  {
    var n := |rows| - 1;
    assert rows == rows[..n] + [rows[n]];
    if r in rows[..n] {
      NothingDroppedByScan(env, rows[..n], r);
    }
  }

  /** The surviving list is still ordered by ID, so the next scan can page through it. */
  lemma {:induction false} KeptOrdered(env: Env, rows: seq<Pending>)
    requires Ordered(rows)
    ensures Ordered(Kept(env, rows))
  {
    if rows != [] {
      var n := |rows| - 1;
      KeptOrdered(env, rows[..n]);
      KeptMembers(env, rows[..n]);
      forall i | 0 <= i < |Kept(env, rows[..n])|
        ensures Kept(env, rows[..n])[i].id < rows[n].id
      {
        assert Kept(env, rows[..n])[i] in rows[..n];
      }
    }
  }
}
