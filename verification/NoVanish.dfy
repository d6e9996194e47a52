/**
 No pending message vanishes: the consume side as one machine. Deliveries, the clients'
 acknowledgements on their way through dispatchers and ack loops to XACK, dead-letter moves and
 DLQ replays run in any interleaving, each Redis call succeeding, failing, or taking effect
 while reporting an error (internal/service/service.go, internal/service/dlq_replay.go,
 internal/service/dispatcher.go, internal/service/consume.go).
 */
module NoVanish {
  import opened Common
  import opened Dlq
  import opened DispatcherKeys
  import L = AckLoop
  import A = AckRuns

  /** A stream entry. Redis names it (`ms-seq`), uniquely within its stream; the model's own
      number for it is unique across streams. */
  datatype Record = Record(stream: string, name: string, fields: Fields)

  /** A message as one consumer group sees it. */
  datatype Key = Key(group: string, id: nat)

  datatype Cmd = Applied | LostReply | NotApplied

  /** movePendingEntryToDLQ: the message has been read; its copy has been added; over. */
  datatype MovePc = MoveRead | MoveCopied | MoveEnded
  datatype MoveTask = MoveTask(key: Key, mv: Move, dlqStream: string, message: Fields, pc: MovePc)

  /** replayDLQInternal for one entry: read; put back; over. */
  datatype ReplayPc = ReplayRead | ReplayAdded | ReplayEnded
  datatype ReplayTask = ReplayTask(id: nat, dlqStream: string, target: string, now: string, entry: Fields, pc: ReplayPc)

  /** A dispatcher with its ack loop, and an acknowledgement as a client states it. */
  datatype Dispatcher = Dispatcher(stream: string, group: string, acks: A.State)
  datatype Claim = Claim(stream: string, group: string, name: string)

  /** All dispatchers ever started, the manager's map into them, and every acknowledgement that
      was accepted into a queue or sent on as an XACK. */
  datatype Acks = Acks(dispatchers: seq<Dispatcher>, current: map<string, nat>, claims: set<Claim>)

  /** `ever` is every entry ever added, `present` those not deleted since. `xacked` are the
      messages XACKs of clients took off pending lists, `copies` records which entry is the
      dead-letter copy of a message and `requeued` which entry a replay added for a DLQ entry. */
  datatype State = State(
    ever: map<nat, Record>,
    present: set<nat>,
    next: nat,
    delivered: set<Key>,
    pending: set<Key>,
    xacked: set<Key>,
    acks: Acks,
    copies: map<Key, nat>,
    requeued: map<nat, nat>,
    moves: seq<MoveTask>,
    replays: seq<ReplayTask>)

  const INIT := State(map[], {}, 0, {}, {}, {}, Acks([], map[], {}), map[], map[], [], [])

  /** The ack loops' configuration and the streams that may be consumed (empty: all). */
  datatype Config = Config(ackLoop: L.Config, consumeStreams: seq<string>)

  datatype Step =
    | Publish(record: Record)
    | Deliver(key: Key)
    | StartDispatcher(stream: string, group: string)
    | DropDispatcher(dispatcherKey: string)
    | QueueAck(stream: string, group: string, entryIds: seq<string>, pickDone: bool)
    | LoopStep(dispatcher: nat, ackStep: A.Step)
    | DirectAck(stream: string, group: string, entryIds: seq<string>, out: Cmd)
    | StartMove(key: Key, mv: Move, dlqStream: string)
    | MoveAdd(move: nat, out: Cmd, name: string)
    | MoveAck(move: nat, out: Cmd)
    | StartReplay(id: nat, target: string, now: string)
    | ReplayAdd(replay: nat, out: Cmd, name: string)
    | ReplayDelete(replay: nat, out: Cmd)

  // ---------------------------------------------------------------------------
  // Acknowledgements
  // ---------------------------------------------------------------------------

  predicate MayConsume(c: Config, stream: string, group: string) {
    stream != "" && group != "" && IsAllowed(c.consumeStreams, stream)
  }

  /** Subscribing: `getOrCreate` for a trimmed stream and group. */
  function StartLoop(c: Config, a: Acks, stream: string, group: string): Acks {
    var key := DispatcherKey(stream, group);
    if !MayConsume(c, stream, group) || key in a.current then a
    else a.(dispatchers := a.dispatchers + [Dispatcher(stream, group, A.INIT)],
            current := a.current[key := |a.dispatchers|])
  }

  function Claims(stream: string, group: string, names: seq<string>): set<Claim> {
    set i | 0 <= i < |names| :: Claim(stream, group, names[i])
  }

  function SetLoop(a: Acks, d: nat, acks: A.State): Acks
    requires d < |a.dispatchers|
  {
    a.(dispatchers := a.dispatchers[d := a.dispatchers[d].(acks := acks)])
  }

  /** The manager's `QueueAck`: the request goes to whichever dispatcher has its key. */
  ghost function RouteAck(c: Config, a: Acks, stream: string, group: string, ids: seq<string>, pickDone: bool): Acks {
    var key := DispatcherKey(stream, group);
    if !MayConsume(c, stream, group) || key !in a.current || a.current[key] >= |a.dispatchers| then a
    else
      var d := a.current[key];
      var q := a.dispatchers[d].acks;
      if !L.AckOutcome(c.ackLoop, q.queue, q.cancelled, ids, pickDone).Accepted? then a
      else SetLoop(a, d, A.Apply(c.ackLoop, q, A.QueueAck(ids, pickDone)))
             .(claims := a.claims + Claims(stream, group, L.Cleaned(ids)))
  }

  /** Pending messages of a group named by an XACK. */
  function Named(s: State, stream: string, group: string, names: set<string>): set<Key> {
    set key | key in s.pending && key.group == group && key.id in s.ever &&
              s.ever[key.id].stream == stream && s.ever[key.id].name in names
  }

  function Xack(s: State, stream: string, group: string, names: set<string>): State {
    var gone := Named(s, stream, group, names);
    s.(pending := s.pending - gone, xacked := s.xacked + gone)
  }

  /** A step of a dispatcher's ack loop; its XACKs go to the dispatcher's stream and group. */
  ghost function RunLoop(c: Config, s: State, d: nat, step: A.Step): State
    requires d < |s.acks.dispatchers|
  {
    var disp := s.acks.dispatchers[d];
    Xack(s, disp.stream, disp.group, A.Xacked(c.ackLoop, disp.acks, step))
      .(acks := SetLoop(s.acks, d, A.Apply(c.ackLoop, disp.acks, step)))
  }

  /** `ackEntriesInternal`: an XACK with the IDs as given. */
  function AckDirectly(s: State, stream: string, group: string, ids: seq<string>, out: Cmd): State {
    var s1 := s.(acks := s.acks.(claims := s.acks.claims + Claims(stream, group, ids)));
    if out.NotApplied? then s1 else Xack(s1, stream, group, L.Elems(ids))
  }

  // ---------------------------------------------------------------------------
  // Steps
  // ---------------------------------------------------------------------------

  /** Redis never reuses an entry ID within a stream. */
  ghost predicate NameFree(s: State, stream: string, name: string) {
    forall id :: id in s.ever && s.ever[id].stream == stream ==> s.ever[id].name != name
  }

  function Add(s: State, record: Record): State {
    s.(ever := s.ever[s.next := record], present := s.present + {s.next}, next := s.next + 1)
  }

  /** A step that is not enabled leaves the state as it is. */
  ghost function Apply(c: Config, s: State, step: Step): State {
    match step
    case Publish(record) => if NameFree(s, record.stream, record.name) then Add(s, record) else s
    case Deliver(key) =>
      if key.id in s.present && key !in s.delivered
      then s.(delivered := s.delivered + {key}, pending := s.pending + {key}) else s
    case StartDispatcher(stream, group) => s.(acks := StartLoop(c, s.acks, Trim(stream), Trim(group)))
    case DropDispatcher(key) => s.(acks := s.acks.(current := s.acks.current - {key}))
    case QueueAck(stream, group, ids, pickDone) =>
      s.(acks := RouteAck(c, s.acks, Trim(stream), Trim(group), ids, pickDone))
    case LoopStep(d, ackStep) =>
      if d < |s.acks.dispatchers| && !ackStep.QueueAck? then RunLoop(c, s, d, ackStep) else s
    case DirectAck(stream, group, ids, out) =>
      if MayConsume(c, Trim(stream), Trim(group)) && ids != []
      then AckDirectly(s, Trim(stream), Trim(group), ids, out) else s
    case StartMove(key, mv, dlqStream) =>
      if key in s.pending && key.id in s.present && key.id in s.ever
      then s.(moves := s.moves + [MoveTask(key, mv, dlqStream, s.ever[key.id].fields, MoveRead)]) else s
    case MoveAdd(t, out, name) =>
      if t < |s.moves| && s.moves[t].pc.MoveRead? && NameFree(s, s.moves[t].dlqStream, name)
      then DoMoveAdd(s, t, out, name) else s
    case MoveAck(t, out) =>
      if t < |s.moves| && s.moves[t].pc.MoveCopied? then DoMoveAck(s, t, out) else s
    case StartReplay(id, target, now) =>
      if id in s.present && id in s.ever && target != "" then
        var entry := s.ever[id];
        s.(replays := s.replays + [ReplayTask(id, entry.stream, target, now, entry.fields, ReplayRead)])
      else s
    case ReplayAdd(t, out, name) =>
      if t < |s.replays| && s.replays[t].pc.ReplayRead? && NameFree(s, s.replays[t].target, name)
      then DoReplayAdd(s, t, out, name) else s
    case ReplayDelete(t, out) =>
      if t < |s.replays| && s.replays[t].pc.ReplayAdded? then DoReplayDelete(s, t, out) else s
  }

  function DoMoveAdd(s: State, t: nat, out: Cmd, name: string): State
    requires t < |s.moves|
  {
    var task := s.moves[t];
    var s1 := s.(moves := s.moves[t := task.(pc := if out.Applied? then MoveCopied else MoveEnded)]);
    if out.NotApplied? then s1
    else
      var copy := Record(task.dlqStream, name, MoveValues(task.mv, task.message));
      Add(s1, copy).(copies := s.copies[task.key := s.next])
  }

  function DoMoveAck(s: State, t: nat, out: Cmd): State
    requires t < |s.moves|
  {
    var task := s.moves[t];
    var s1 := s.(moves := s.moves[t := task.(pc := MoveEnded)]);
    if out.NotApplied? then s1 else s1.(pending := s.pending - {task.key})
  }

  function DoReplayAdd(s: State, t: nat, out: Cmd, name: string): State
    requires t < |s.replays|
  {
    var task := s.replays[t];
    var s1 := s.(replays := s.replays[t := task.(pc := if out.Applied? then ReplayAdded else ReplayEnded)]);
    if out.NotApplied? then s1
    else
      var back := Record(task.target, name, ReplayValues(task.dlqStream, task.now, task.entry));
      Add(s1, back).(requeued := s.requeued[task.id := s.next])
  }

  function DoReplayDelete(s: State, t: nat, out: Cmd): State
    requires t < |s.replays|
  {
    var task := s.replays[t];
    var s1 := s.(replays := s.replays[t := task.(pc := ReplayEnded)]);
    if out.NotApplied? then s1 else s1.(present := s.present - {task.id})
  }

  ghost function Run(c: Config, steps: seq<Step>): State {
    if steps == [] then INIT else Apply(c, Run(c, steps[..|steps| - 1]), steps[|steps| - 1])
  }

  // ---------------------------------------------------------------------------
  // Messages: the invariant
  // ---------------------------------------------------------------------------

  /** `copy` is an entry carrying the same user fields as entry `id`. */
  ghost predicate Carries(s: State, copy: nat, id: nat) {
    id in s.ever && copy in s.ever && UserFields(s.ever[copy].fields) == UserFields(s.ever[id].fields)
  }

  ghost predicate MoveGood(s: State, task: MoveTask) {
    && task.key in s.delivered
    && task.key.id in s.ever && s.ever[task.key.id].fields == task.message
    && (task.pc.MoveCopied? ==> task.key in s.copies)
  }

  ghost predicate ReplayGood(s: State, task: ReplayTask) {
    && task.id in s.ever && s.ever[task.id].fields == task.entry
    && (task.pc.ReplayAdded? ==> task.id in s.requeued)
  }

  ghost predicate Inv(s: State) {
    && (forall id :: id in s.ever ==> id < s.next)
    && s.pending <= s.delivered
    && (forall key :: key in s.delivered ==> key.id in s.ever)
    && (forall key :: key in s.delivered && key !in s.pending ==> key in s.xacked || key in s.copies)
    && (forall key :: key in s.copies ==> s.copies[key] > key.id && Carries(s, s.copies[key], key.id))
    && (forall id :: id in s.ever && id !in s.present ==> id in s.requeued)
    && (forall id :: id in s.requeued ==> s.requeued[id] > id && Carries(s, s.requeued[id], id))
    && (forall t :: 0 <= t < |s.moves| ==> MoveGood(s, s.moves[t]))
    && (forall t :: 0 <= t < |s.replays| ==> ReplayGood(s, s.replays[t]))
    && s.present <= s.ever.Keys
  }

  lemma AddKeeps(s: State, record: Record)
    requires Inv(s)
    ensures Inv(Add(s, record))
  {
    var s' := Add(s, record);
    assert forall t :: 0 <= t < |s.moves| ==> MoveGood(s', s.moves[t]);
    assert forall t :: 0 <= t < |s.replays| ==> ReplayGood(s', s.replays[t]);
    assert forall id, copy :: Carries(s, copy, id) ==> Carries(s', copy, id);
  }

  lemma MoveTaskKeeps(s: State, t: nat, pc: MovePc)
    requires Inv(s) && t < |s.moves| && (pc.MoveCopied? ==> s.moves[t].key in s.copies)
    ensures Inv(s.(moves := s.moves[t := s.moves[t].(pc := pc)]))
  {
    var s' := s.(moves := s.moves[t := s.moves[t].(pc := pc)]);
    assert forall id, c :: Carries(s, c, id) ==> Carries(s', c, id);
    assert forall i :: 0 <= i < |s.moves| ==> MoveGood(s, s.moves[i]);
    assert forall i :: 0 <= i < |s.replays| ==> ReplayGood(s, s.replays[i]) ==> ReplayGood(s', s.replays[i]);
  }

  lemma ReplayTaskKeeps(s: State, t: nat, pc: ReplayPc)
    requires Inv(s) && t < |s.replays| && (pc.ReplayAdded? ==> s.replays[t].id in s.requeued)
    ensures Inv(s.(replays := s.replays[t := s.replays[t].(pc := pc)]))
  {
    var s' := s.(replays := s.replays[t := s.replays[t].(pc := pc)]);
    assert forall id, c :: Carries(s, c, id) ==> Carries(s', c, id);
    assert forall i :: 0 <= i < |s.replays| ==> ReplayGood(s, s.replays[i]);
    assert forall i :: 0 <= i < |s.moves| ==> MoveGood(s, s.moves[i]) ==> MoveGood(s', s.moves[i]);
  }

  lemma NoteCopy(s: State, key: Key, copy: nat)
    requires Inv(s) && copy > key.id && Carries(s, copy, key.id)
    ensures Inv(s.(copies := s.copies[key := copy]))
  {
    var s' := s.(copies := s.copies[key := copy]);
    assert forall id, c :: Carries(s, c, id) ==> Carries(s', c, id);
    assert forall i :: 0 <= i < |s.moves| ==> MoveGood(s, s.moves[i]) ==> MoveGood(s', s.moves[i]);
    assert forall i :: 0 <= i < |s.replays| ==> ReplayGood(s, s.replays[i]) ==> ReplayGood(s', s.replays[i]);
  }

  lemma NoteRequeue(s: State, id: nat, back: nat)
    requires Inv(s) && back > id && Carries(s, back, id)
    ensures Inv(s.(requeued := s.requeued[id := back]))
  {
    var s' := s.(requeued := s.requeued[id := back]);
    assert forall x, c :: Carries(s, c, x) ==> Carries(s', c, x);
    assert forall i :: 0 <= i < |s.moves| ==> MoveGood(s, s.moves[i]) ==> MoveGood(s', s.moves[i]);
    assert forall i :: 0 <= i < |s.replays| ==> ReplayGood(s, s.replays[i]) ==> ReplayGood(s', s.replays[i]);
  }

  /** A copy recorded, then the move marked as copied or ended: the two effects of a move's XADD. */
  lemma CopyAdded(s: State, s1: State, s2: State, t: nat, copy: Record, pc: MovePc)
    requires Inv(s) && t < |s.moves|
    requires UserFields(copy.fields) == UserFields(s.moves[t].message)
    requires s1 == Add(s, copy)
    requires s2 == s1.(copies := s1.copies[s.moves[t].key := s.next])
    ensures Inv(s2.(moves := s2.moves[t := s2.moves[t].(pc := pc)]))
  {
    assert MoveGood(s, s.moves[t]);
    AddKeeps(s, copy);
    NoteCopy(s1, s.moves[t].key, s.next);
    MoveTaskKeeps(s2, t, pc);
  }

  /** An XADD that took effect, step by step. */
  lemma MoveAddSteps(s: State, t: nat, out: Cmd, name: string)
    returns (copy: Record, s1: State, s2: State, pc: MovePc)
    requires t < |s.moves| && !out.NotApplied?
    ensures UserFields(copy.fields) == UserFields(s.moves[t].message)
    ensures s1 == Add(s, copy) && s2 == s1.(copies := s1.copies[s.moves[t].key := s.next])
    ensures DoMoveAdd(s, t, out, name) == s2.(moves := s2.moves[t := s2.moves[t].(pc := pc)])
  {
    var task := s.moves[t];
    copy := Record(task.dlqStream, name, MoveValues(task.mv, task.message));
    MoveKeepsUserFields(task.mv, task.message);
    s1 := Add(s, copy);
    s2 := s1.(copies := s1.copies[task.key := s.next]);
    pc := if out.Applied? then MoveCopied else MoveEnded;
  }

  lemma MoveAddKeeps(s: State, t: nat, out: Cmd, name: string)
    requires Inv(s) && t < |s.moves|
    ensures Inv(DoMoveAdd(s, t, out, name))
  {
    if out.NotApplied? {
      MoveTaskKeeps(s, t, MoveEnded);
    } else {
      var copy, s1, s2, pc := MoveAddSteps(s, t, out, name);
      CopyAdded(s, s1, s2, t, copy, pc);
    }
  }

  lemma BackAdded(s: State, s1: State, s2: State, t: nat, back: Record, pc: ReplayPc)
    requires Inv(s) && t < |s.replays|
    requires UserFields(back.fields) == UserFields(s.replays[t].entry)
    requires s1 == Add(s, back)
    requires s2 == s1.(requeued := s1.requeued[s.replays[t].id := s.next])
    ensures Inv(s2.(replays := s2.replays[t := s2.replays[t].(pc := pc)]))
  {
    assert ReplayGood(s, s.replays[t]);
    AddKeeps(s, back);
    NoteRequeue(s1, s.replays[t].id, s.next);
    ReplayTaskKeeps(s2, t, pc);
  }

  lemma ReplayAddSteps(s: State, t: nat, out: Cmd, name: string)
    returns (back: Record, s1: State, s2: State, pc: ReplayPc)
    requires t < |s.replays| && !out.NotApplied?
    ensures UserFields(back.fields) == UserFields(s.replays[t].entry)
    ensures s1 == Add(s, back) && s2 == s1.(requeued := s1.requeued[s.replays[t].id := s.next])
    ensures DoReplayAdd(s, t, out, name) == s2.(replays := s2.replays[t := s2.replays[t].(pc := pc)])
  {
    var task := s.replays[t];
    back := Record(task.target, name, ReplayValues(task.dlqStream, task.now, task.entry));
    ReplayKeepsUserFields(task.dlqStream, task.now, task.entry);
    s1 := Add(s, back);
    s2 := s1.(requeued := s1.requeued[task.id := s.next]);
    pc := if out.Applied? then ReplayAdded else ReplayEnded;
  }

  lemma ReplayAddKeeps(s: State, t: nat, out: Cmd, name: string)
    requires Inv(s) && t < |s.replays|
    ensures Inv(DoReplayAdd(s, t, out, name))
  {
    if out.NotApplied? {
      ReplayTaskKeeps(s, t, ReplayEnded);
    } else {
      var back, s1, s2, pc := ReplayAddSteps(s, t, out, name);
      BackAdded(s, s1, s2, t, back, pc);
    }
  }

  lemma MoveAckKeeps(s: State, t: nat, out: Cmd)
    requires Inv(s) && t < |s.moves| && s.moves[t].pc.MoveCopied?
    ensures Inv(DoMoveAck(s, t, out))
  {
    var s1 := s.(moves := s.moves[t := s.moves[t].(pc := MoveEnded)]);
    assert MoveGood(s, s.moves[t]);
    MoveTaskKeeps(s, t, MoveEnded);
    if !out.NotApplied? {
      DropPending(s1, s.moves[t].key);
    }
  }

  lemma DropPending(s: State, key: Key)
    requires Inv(s) && key in s.copies
    ensures Inv(s.(pending := s.pending - {key}))
  {
    var s' := s.(pending := s.pending - {key});
    assert forall id, c :: Carries(s, c, id) ==> Carries(s', c, id);
    assert forall i :: 0 <= i < |s.moves| ==> MoveGood(s, s.moves[i]) ==> MoveGood(s', s.moves[i]);
    assert forall i :: 0 <= i < |s.replays| ==> ReplayGood(s, s.replays[i]) ==> ReplayGood(s', s.replays[i]);
  }

  lemma ReplayDeleteKeeps(s: State, t: nat, out: Cmd)
    requires Inv(s) && t < |s.replays| && s.replays[t].pc.ReplayAdded?
    ensures Inv(DoReplayDelete(s, t, out))
  {
    var s' := DoReplayDelete(s, t, out);
    assert ReplayGood(s, s.replays[t]);
    assert forall id, c :: Carries(s, c, id) ==> Carries(s', c, id);
    assert forall i :: 0 <= i < |s.moves| ==> MoveGood(s', s.moves[i]);
  }

  /** Nothing but the delivery state or the lists of moves and replays changed, and those stayed good. */
  lemma SetsKeep(s: State, s': State)
    requires Inv(s)
    requires s'.ever == s.ever && s'.present == s.present && s'.next == s.next
    requires s'.copies == s.copies && s'.requeued == s.requeued
    requires s'.pending <= s'.delivered && s.delivered <= s'.delivered
    requires forall key :: key in s'.delivered ==> key.id in s.ever
    requires forall key :: key in s'.delivered && key !in s'.pending ==> key in s'.xacked || key in s.copies
    requires forall t :: 0 <= t < |s'.moves| ==> MoveGood(s', s'.moves[t])
    requires forall t :: 0 <= t < |s'.replays| ==> ReplayGood(s', s'.replays[t])
    ensures Inv(s')
  {
    assert forall id, c :: Carries(s, c, id) ==> Carries(s', c, id);
  }

  lemma TasksStayGood(s: State, s': State)
    requires s'.ever == s.ever && s'.copies == s.copies && s'.requeued == s.requeued && s.delivered <= s'.delivered
    ensures forall task :: MoveGood(s, task) ==> MoveGood(s', task)
    ensures forall task :: ReplayGood(s, task) ==> ReplayGood(s', task)
  {
  }

  lemma DeliverKeeps(c: Config, s: State, key: Key)
    requires Inv(s)
    ensures Inv(Apply(c, s, Deliver(key)))
  {
    var s' := Apply(c, s, Deliver(key));
    TasksStayGood(s, s');
    SetsKeep(s, s');
  }

  /** Acknowledging only takes messages off the pending list into `xacked`. */
  lemma AckingKeeps(s: State, s': State, gone: set<Key>)
    requires Inv(s) && s' == s.(pending := s.pending - gone, xacked := s.xacked + gone, acks := s'.acks)
    ensures Inv(s')
  {
    TasksStayGood(s, s');
    SetsKeep(s, s');
  }

  lemma DirectAckKeeps(s: State, stream: string, group: string, ids: seq<string>, out: Cmd)
    requires Inv(s)
    ensures Inv(AckDirectly(s, stream, group, ids, out))
  {
    var s1 := s.(acks := s.acks.(claims := s.acks.claims + Claims(stream, group, ids)));
    var gone := if out.NotApplied? then {} else Named(s1, stream, group, L.Elems(ids));
    var s' := AckDirectly(s, stream, group, ids, out);
    assert s'.pending == s.pending - gone && s'.xacked == s.xacked + gone;
    AckingKeeps(s, s', gone);
  }

  lemma LoopKeeps(c: Config, s: State, d: nat, step: A.Step)
    requires Inv(s) && d < |s.acks.dispatchers|
    ensures Inv(RunLoop(c, s, d, step))
  {
    var disp := s.acks.dispatchers[d];
    var gone := Named(s, disp.stream, disp.group, A.Xacked(c.ackLoop, disp.acks, step));
    AckingKeeps(s, RunLoop(c, s, d, step), gone);
  }

  lemma QuietAcksKeep(s: State, acks: Acks)
    requires Inv(s)
    ensures Inv(s.(acks := acks))
  {
    var s' := s.(acks := acks);
    assert s.pending - {} == s.pending && s.xacked + {} == s.xacked;
    AckingKeeps(s, s', {});
  }

  lemma StartMoveKeeps(c: Config, s: State, key: Key, mv: Move, dlqStream: string)
    requires Inv(s)
    ensures Inv(Apply(c, s, StartMove(key, mv, dlqStream)))
  {
    var s' := Apply(c, s, StartMove(key, mv, dlqStream));
    TasksStayGood(s, s');
    SetsKeep(s, s');
  }

  lemma StartReplayKeeps(c: Config, s: State, id: nat, target: string, now: string)
    requires Inv(s)
    ensures Inv(Apply(c, s, StartReplay(id, target, now)))
  {
    var s' := Apply(c, s, StartReplay(id, target, now));
    TasksStayGood(s, s');
    SetsKeep(s, s');
  }

  lemma StepKeeps(c: Config, s: State, step: Step)
    requires Inv(s)
    ensures Inv(Apply(c, s, step))
  {
    match step {
      case Publish(record) => AddKeeps(s, record);
      case Deliver(key) => DeliverKeeps(c, s, key);
      case StartDispatcher(_, _) => QuietAcksKeep(s, Apply(c, s, step).acks);
      case DropDispatcher(_) => QuietAcksKeep(s, Apply(c, s, step).acks);
      case QueueAck(_, _, _, _) => QuietAcksKeep(s, Apply(c, s, step).acks);
      case LoopStep(d, ackStep) => if d < |s.acks.dispatchers| { LoopKeeps(c, s, d, ackStep); }
      case DirectAck(stream, group, ids, out) => DirectAckKeeps(s, Trim(stream), Trim(group), ids, out);
      case StartMove(key, mv, dlqStream) => StartMoveKeeps(c, s, key, mv, dlqStream);
      case MoveAdd(t, out, name) => if t < |s.moves| { MoveAddKeeps(s, t, out, name); }
      case MoveAck(t, out) => if t < |s.moves| && s.moves[t].pc.MoveCopied? { MoveAckKeeps(s, t, out); }
      case StartReplay(id, target, now) => StartReplayKeeps(c, s, id, target, now);
      case ReplayAdd(t, out, name) => if t < |s.replays| { ReplayAddKeeps(s, t, out, name); }
      case ReplayDelete(t, out) =>
        if t < |s.replays| && s.replays[t].pc.ReplayAdded? { ReplayDeleteKeeps(s, t, out); }
    }
  }

  lemma {:induction false} RunInv(c: Config, steps: seq<Step>)
    ensures Inv(Run(c, steps))
  {
    if steps != [] {
      RunInv(c, steps[..|steps| - 1]);
      StepKeeps(c, Run(c, steps[..|steps| - 1]), steps[|steps| - 1]);
    }
  }

}
