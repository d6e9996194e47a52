/**
 Dead-letter metadata: what moving a pending message to its DLQ stream writes
 (internal/service/service.go) and what replaying a DLQ entry writes back
 (internal/service/dlq_replay.go), and what any number of move/replay cycles leaves.
 */
module Dlq {
  import opened Common

  type Fields = map<string, string>

  const ORIGINAL_STREAM := "dlq_original_stream"
  const ORIGINAL_GROUP := "dlq_original_group"
  const ORIGINAL_ID := "dlq_original_id"
  const REASON := "dlq_reason"
  const RETRY_COUNT := "dlq_retry_count"
  const IDLE_MS := "dlq_idle_ms"
  const MOVED_AT := "dlq_moved_at"
  const REPLAYED_FROM := "dlq_replayed_from"
  const REPLAYED_AT := "dlq_replayed_at"

  /** `strings.HasPrefix(key, "dlq_")`. */
  predicate IsDlqKey(key: string) {
    |key| >= 4 && key[0] == 'd' && key[1] == 'l' && key[2] == 'q' && key[3] == '_'
  }

  function UserFields(m: Fields): Fields {
    map key | key in m && !IsDlqKey(key) :: m[key]
  }

  function DlqKeys(m: Fields): set<string> {
    set key | key in m && IsDlqKey(key)
  }

  /** The circumstances of one move; numbers and times as the text Redis stores. */
  datatype Move = Move(stream: string, group: string, id: string, retries: string, idleMs: string, now: string)

  function MoveMeta(mv: Move): Fields {
    map[ORIGINAL_STREAM := mv.stream, ORIGINAL_GROUP := mv.group, ORIGINAL_ID := mv.id,
        REASON := "max_retries_exceeded", RETRY_COUNT := mv.retries, IDLE_MS := mv.idleMs, MOVED_AT := mv.now]
  }

  /** The DLQ copy: the metadata, overridden by whatever the message already carries. */
  function MoveValues(mv: Move, message: Fields): Fields {
    MoveMeta(mv) + message
  }

  /** movePendingEntryToDLQ's loop over the message's fields. */
  method BuildDlqValues(mv: Move, message: Fields) returns (values: Fields)
    ensures values == MoveValues(mv, message)
  {
    values := MoveMeta(mv);
    var todo := message.Keys;
    while todo != {}
      invariant todo <= message.Keys
      invariant values == MoveMeta(mv) + (message - todo)
      decreases todo
    {
      var key :| key in todo;
      values := values[key := message[key]];
      todo := todo - {key};
    }
    assert message - {} == message;
  }

  /** Where a replay sends an entry; empty means it is skipped. */
  function ReplayTarget(override: string, entry: Fields): string {
    if Trim(override) != "" then Trim(override)
    else if ORIGINAL_STREAM in entry then Trim(entry[ORIGINAL_STREAM])
    else ""
  }

  /** What a replay adds to the target stream. */
  function ReplayValues(dlqStream: string, now: string, entry: Fields): Fields {
    var stamped := UserFields(entry)[REPLAYED_FROM := dlqStream][REPLAYED_AT := now];
    if ORIGINAL_ID in entry then stamped[ORIGINAL_ID := entry[ORIGINAL_ID]] else stamped
  }

  /** replayDLQInternal's loop over the entry's fields. */
  method BuildReplayValues(dlqStream: string, now: string, entry: Fields) returns (values: Fields)
    ensures values == ReplayValues(dlqStream, now, entry)
  {
    values := map[];
    var todo := entry.Keys;
    while todo != {}
      invariant todo <= entry.Keys
      invariant values == UserFields(entry - todo)
      decreases todo
    {
      var key :| key in todo;
      if !IsDlqKey(key) {
        values := values[key := entry[key]];
      }
      todo := todo - {key};
    }
    assert entry - {} == entry;
    values := values[REPLAYED_FROM := dlqStream];
    values := values[REPLAYED_AT := now];
    if ORIGINAL_ID in entry {
      values := values[ORIGINAL_ID := entry[ORIGINAL_ID]];
    }
  }

  // ---------------------------------------------------------------------------
  // Cycles
  // ---------------------------------------------------------------------------

  /** One move to a DLQ stream followed by a replay from it. */
  datatype Cycle = Cycle(mv: Move, dlqStream: string, replayedAt: string)

  function AfterCycle(m: Fields, cycle: Cycle): Fields {
    ReplayValues(cycle.dlqStream, cycle.replayedAt, MoveValues(cycle.mv, m))
  }

  function AfterCycles(m: Fields, cycles: seq<Cycle>): Fields {
    if cycles == [] then m else AfterCycle(AfterCycles(m, cycles[..|cycles| - 1]), cycles[|cycles| - 1])
  }

  lemma MetaKeysAreDlqKeys(mv: Move)
    ensures forall key :: key in MoveMeta(mv) ==> IsDlqKey(key)
    ensures IsDlqKey(REPLAYED_FROM) && IsDlqKey(REPLAYED_AT) && IsDlqKey(ORIGINAL_ID) && IsDlqKey(ORIGINAL_STREAM)
    ensures ORIGINAL_STREAM in MoveMeta(mv) && MoveMeta(mv)[ORIGINAL_STREAM] == mv.stream
    ensures ORIGINAL_ID in MoveMeta(mv) && MoveMeta(mv)[ORIGINAL_ID] == mv.id
  {
  }

  /** The copy in the DLQ carries the message's own fields unchanged. */
  lemma MoveKeepsUserFields(mv: Move, m: Fields)
    ensures UserFields(MoveValues(mv, m)) == UserFields(m)
  {
    MetaKeysAreDlqKeys(mv);
  }

  /** What the copy of a message without dead-letter fields says about where it came from. */
  lemma CopySays(mv: Move, m: Fields)
    requires DlqKeys(m) == {}
    ensures var copy := MoveValues(mv, m);
            && copy.Keys == m.Keys + DlqKeys(copy) && (forall key :: key in m ==> copy[key] == m[key])
            && DlqKeys(copy) == {"dlq_original_stream", "dlq_original_group", "dlq_original_id", "dlq_reason",
                                 "dlq_retry_count", "dlq_idle_ms", "dlq_moved_at"}
            && copy["dlq_original_stream"] == mv.stream && copy["dlq_original_group"] == mv.group
            && copy["dlq_original_id"] == mv.id && copy["dlq_reason"] == "max_retries_exceeded"
            && copy["dlq_retry_count"] == mv.retries && copy["dlq_idle_ms"] == mv.idleMs
            && copy["dlq_moved_at"] == mv.now
  {
    MetaKeysAreDlqKeys(mv);
    MetaSays(mv);
    assert forall key :: key in m ==> key !in DlqKeys(m);
    assert forall key :: key in MoveMeta(mv) ==> key !in m;
  }

  lemma MetaSays(mv: Move)
    ensures var meta := MoveMeta(mv);
            && meta.Keys == {ORIGINAL_STREAM, ORIGINAL_GROUP, ORIGINAL_ID, REASON, RETRY_COUNT, IDLE_MS, MOVED_AT}
            && meta[ORIGINAL_STREAM] == mv.stream && meta[ORIGINAL_GROUP] == mv.group && meta[ORIGINAL_ID] == mv.id
            && meta[REASON] == "max_retries_exceeded" && meta[RETRY_COUNT] == mv.retries
            && meta[IDLE_MS] == mv.idleMs && meta[MOVED_AT] == mv.now
  {
    assert |ORIGINAL_STREAM| == 19 && |ORIGINAL_GROUP| == 18 && |ORIGINAL_ID| == 15 && |REASON| == 10;
    assert |RETRY_COUNT| == 15 && |IDLE_MS| == 11 && |MOVED_AT| == 12 && ORIGINAL_ID[4] != RETRY_COUNT[4];
  }

  lemma ReplayKeepsUserFields(dlqStream: string, now: string, entry: Fields)
    ensures UserFields(ReplayValues(dlqStream, now, entry)) == UserFields(entry)
    ensures DlqKeys(ReplayValues(dlqStream, now, entry)) ==
            {REPLAYED_FROM, REPLAYED_AT} + (if ORIGINAL_ID in entry then {ORIGINAL_ID} else {})
  {
    assert IsDlqKey(REPLAYED_FROM) && IsDlqKey(REPLAYED_AT) && IsDlqKey(ORIGINAL_ID);
  }

  lemma KeysDiffer()
    ensures ORIGINAL_STREAM != ORIGINAL_ID && ORIGINAL_STREAM != REPLAYED_FROM && ORIGINAL_STREAM != REPLAYED_AT
    ensures ORIGINAL_ID != REPLAYED_FROM && ORIGINAL_ID != REPLAYED_AT && REPLAYED_FROM != REPLAYED_AT
  {
    assert ORIGINAL_STREAM[4] == 'o' && REPLAYED_FROM[4] == 'r' && REPLAYED_AT[4] == 'r' && ORIGINAL_ID[4] == 'o';
    assert |ORIGINAL_STREAM| != |ORIGINAL_ID| && |REPLAYED_FROM| != |REPLAYED_AT|;
  }

  lemma OneCycle(m: Fields, cycle: Cycle)
    ensures var r := AfterCycle(m, cycle);
            && UserFields(r) == UserFields(m)
            && DlqKeys(r) == {REPLAYED_FROM, REPLAYED_AT, ORIGINAL_ID}
            && r[REPLAYED_FROM] == cycle.dlqStream && r[REPLAYED_AT] == cycle.replayedAt
            && r[ORIGINAL_ID] == (if ORIGINAL_ID in m then m[ORIGINAL_ID] else cycle.mv.id)
            && ORIGINAL_STREAM !in r
  {
    var entry := MoveValues(cycle.mv, m);
    MetaKeysAreDlqKeys(cycle.mv);
    MoveKeepsUserFields(cycle.mv, m);
    ReplayKeepsUserFields(cycle.dlqStream, cycle.replayedAt, entry);
    KeysDiffer();
    var r := AfterCycle(m, cycle);
    assert REPLAYED_FROM in DlqKeys(r) && REPLAYED_AT in DlqKeys(r) && ORIGINAL_ID in DlqKeys(r);
    assert ORIGINAL_STREAM !in DlqKeys(r);
  }

  /** The round trip over any number of cycles, for any message: its own fields come back
      unchanged; the dead-letter keys are exactly where and when it was last replayed and the
      original ID; and that ID is the one of the first dead-lettered entry, unless the message
      brought its own. */
  lemma {:induction false} Cycles(m: Fields, cycles: seq<Cycle>)
    requires cycles != []
    ensures var r, last := AfterCycles(m, cycles), cycles[|cycles| - 1];
            && UserFields(r) == UserFields(m)
            && DlqKeys(r) == {REPLAYED_FROM, REPLAYED_AT, ORIGINAL_ID}
            && r[REPLAYED_FROM] == last.dlqStream && r[REPLAYED_AT] == last.replayedAt
            && r[ORIGINAL_ID] == (if ORIGINAL_ID in m then m[ORIGINAL_ID] else cycles[0].mv.id)
            && ORIGINAL_STREAM !in r
  {
    var pre := cycles[..|cycles| - 1];
    if pre != [] {
      Cycles(m, pre);
      assert ORIGINAL_ID in DlqKeys(AfterCycles(m, pre));
    }
    OneCycle(AfterCycles(m, pre), cycles[|cycles| - 1]);
  }

  /** Which stream a replay without override aims at, on the k-th cycle: the stream the message
      was last moved from, exactly when the message did not start out with a
      `dlq_original_stream` field of its own naming another one (which only matters on the
      first cycle, because a replay strips it). */
  lemma ReplayGoesBack(m: Fields, cycles: seq<Cycle>, k: nat)
    requires k < |cycles| && Trim(cycles[k].mv.stream) == cycles[k].mv.stream
    ensures ReplayTarget("", MoveValues(cycles[k].mv, AfterCycles(m, cycles[..k]))) == cycles[k].mv.stream <==>
            k > 0 || ORIGINAL_STREAM !in m || Trim(m[ORIGINAL_STREAM]) == cycles[0].mv.stream
  {
    MetaKeysAreDlqKeys(cycles[k].mv);
    if k > 0 {
      Cycles(m, cycles[..k]);
    } else {
      assert AfterCycles(m, cycles[..0]) == m;
    }
  }

  /** A message without dead-letter fields: everything holds as documented. */
  lemma CleanMessageCycles(m: Fields, cycles: seq<Cycle>)
    requires DlqKeys(m) == {} && cycles != []
    ensures AfterCycles(m, cycles)[ORIGINAL_ID] == cycles[0].mv.id
    ensures AfterCycles(m, cycles) - {REPLAYED_FROM, REPLAYED_AT, ORIGINAL_ID} == m
  {
    MetaKeysAreDlqKeys(cycles[0].mv);
    assert ORIGINAL_ID !in DlqKeys(m);
    Cycles(m, cycles);
    OnlyUserFields(m);
    WithoutDlqKeys(AfterCycles(m, cycles));
  }

  lemma OnlyUserFields(m: Fields)
    requires DlqKeys(m) == {}
    ensures UserFields(m) == m
  {
    assert forall key :: key in m ==> key !in DlqKeys(m);
  }

  lemma WithoutDlqKeys(m: Fields)
    ensures m - DlqKeys(m) == UserFields(m)
  {
    assert forall key :: key in m && key !in DlqKeys(m) ==> key in UserFields(m);
  }
}
