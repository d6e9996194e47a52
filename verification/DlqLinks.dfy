/**
 The two models of a dead-letter move and of a replay agree: the interleaved steps of
 `NoVanish`, run one after the other, have the effect `DlqScan.GroupScanner.MoveEntry` and
 `DlqReplay.Replayer.RequeueEntry` promise, for every fault.
 */
module DlqLinks {
  import opened Common
  import opened Dlq
  import Scan = DlqScan
  import Replay = DlqReplay
  import opened NoVanish

  /** What a fault of the scanner's model means for the XADD and the XACK of a move. */
  function MoveCmds(fault: Option<Scan.Fault>): (Cmd, Cmd) {
    match fault
    case None => (Applied, Applied)
    case Some(AddFault(applied)) => (if applied then LostReply else NotApplied, NotApplied)
    case Some(AckFault(applied)) => (Applied, if applied then LostReply else NotApplied)
    case Some(RangeFault) => (NotApplied, NotApplied)
  }

  function FaultOf<F>(faults: map<nat, F>, id: nat): Option<F> {
    if id in faults then Some(faults[id]) else None
  }

  ghost function Moved(c: Config, s: State, t: nat, cmds: (Cmd, Cmd), name: string): State {
    Apply(c, Apply(c, s, MoveAdd(t, cmds.0, name)), MoveAck(t, cmds.1))
  }

  /** A move of a message that was read: the copy is added exactly when the scanner's model says
      its XADD lands, and the message leaves the pending list exactly when it says the XACK does. */
  lemma MoveEntryAgrees(c: Config, s: State, t: nat, env: Scan.Env, p: Scan.Pending, name: string)
    requires t < |s.moves| && s.moves[t].pc.MoveRead? && NameFree(s, s.moves[t].dlqStream, name)
    requires p.id in env.messages && s.moves[t].message == env.messages[p.id] && s.moves[t].mv == env.render(p)
    requires FaultOf(env.faults, p.id) != Some(Scan.RangeFault)
    ensures var task, s' := s.moves[t], Moved(c, s, t, MoveCmds(FaultOf(env.faults, p.id)), name);
            var copy := Record(task.dlqStream, name, MoveValues(env.render(p), env.messages[p.id]));
            && s'.ever == (if Scan.CopyLands(env, p) then s.ever[s.next := copy] else s.ever)
            && s'.copies == (if Scan.CopyLands(env, p) then s.copies[task.key := s.next] else s.copies)
            && s'.pending == if Scan.AckLands(env, p) then s.pending - {task.key} else s.pending
  {
    var cmds := MoveCmds(FaultOf(env.faults, p.id));
    CopyEffect(c, s, t, cmds.0, name);
    AckEffect(c, Apply(c, s, MoveAdd(t, cmds.0, name)), t, cmds.1);
  }

  lemma CopyEffect(c: Config, s: State, t: nat, out: Cmd, name: string)
    requires t < |s.moves| && s.moves[t].pc.MoveRead? && NameFree(s, s.moves[t].dlqStream, name)
    ensures var task, s' := s.moves[t], Apply(c, s, MoveAdd(t, out, name));
            var copy := Record(task.dlqStream, name, MoveValues(task.mv, task.message));
            && s'.ever == (if out.NotApplied? then s.ever else s.ever[s.next := copy])
            && s'.copies == (if out.NotApplied? then s.copies else s.copies[task.key := s.next])
            && s'.pending == s.pending
            && t < |s'.moves| && s'.moves[t].key == task.key
            && s'.moves[t].pc == if out.Applied? then MoveCopied else MoveEnded
  {
  }

  lemma AckEffect(c: Config, s: State, t: nat, out: Cmd)
    requires t < |s.moves|
    ensures var s' := Apply(c, s, MoveAck(t, out));
            && s'.ever == s.ever && s'.copies == s.copies
            && s'.pending == if s.moves[t].pc.MoveCopied? && !out.NotApplied?
                             then s.pending - {s.moves[t].key} else s.pending
  {
  }

  /** Without a message, or when reading it fails, no move starts and nothing is added or acked. */
  lemma UnreadEntryAgrees(env: Scan.Env, p: Scan.Pending)
    requires p.id !in env.messages || FaultOf(env.faults, p.id) == Some(Scan.RangeFault)
    ensures !Scan.CopyLands(env, p) && !Scan.AckLands(env, p)
  {
  }

  /** The same for the XADD and the XDEL of a replay; without deletion no XDEL is sent. */
  function ReplayCmds(fault: Option<Replay.Fault>, delete: bool): (Cmd, Cmd) {
    match fault
    case None => (Applied, if delete then Applied else NotApplied)
    case Some(AddFault(applied)) => (if applied then LostReply else NotApplied, NotApplied)
    case Some(DelFault(applied)) => (Applied, if !delete || !applied then NotApplied else LostReply)
  }

  ghost function Replayed(c: Config, s: State, t: nat, cmds: (Cmd, Cmd), name: string): State {
    Apply(c, Apply(c, s, ReplayAdd(t, cmds.0, name)), ReplayDelete(t, cmds.1))
  }

  /** A replay of one entry: the copy is added exactly when the replayer's model says its XADD
      lands, and the entry is deleted exactly when it says the XDEL does. */
  lemma RequeueEntryAgrees(
    c: Config, s: State, t: nat, env: Replay.Env, req: Replay.ReplayRequest, e: Replay.Entry, name: string)
    requires t < |s.replays| && s.replays[t].pc.ReplayRead? && NameFree(s, s.replays[t].target, name)
    requires s.replays[t].id == e.id < s.next && s.replays[t].entry == e.fields
    requires s.replays[t].target == ReplayTarget(req.target, e.fields)
    requires s.replays[t].dlqStream == Trim(req.dlqStream) && s.replays[t].now == env.now(e.id)
    ensures var s' := Replayed(c, s, t, ReplayCmds(FaultOf(env.faults, e.id), req.delete), name);
            var (target, fields) := Replay.Requeue(env, req, e);
            var added := Replay.AddLands(env, e);
            && s'.ever == (if added then s.ever[s.next := Record(target, name, fields)] else s.ever)
            && s'.requeued == (if added then s.requeued[e.id := s.next] else s.requeued)
            && (e.id !in s'.present <==> e.id !in s.present || Replay.DeleteLands(env, req, e))
  {
    var cmds := ReplayCmds(FaultOf(env.faults, e.id), req.delete);
    AddEffect(c, s, t, cmds.0, name);
    DeleteEffect(c, Apply(c, s, ReplayAdd(t, cmds.0, name)), t, cmds.1);
  }

  lemma AddEffect(c: Config, s: State, t: nat, out: Cmd, name: string)
    requires t < |s.replays| && s.replays[t].pc.ReplayRead? && NameFree(s, s.replays[t].target, name)
    requires s.replays[t].id < s.next
    ensures var task, s' := s.replays[t], Apply(c, s, ReplayAdd(t, out, name));
            var back := Record(task.target, name, ReplayValues(task.dlqStream, task.now, task.entry));
            && s'.ever == (if out.NotApplied? then s.ever else s.ever[s.next := back])
            && s'.requeued == (if out.NotApplied? then s.requeued else s.requeued[task.id := s.next])
            && (task.id in s'.present <==> task.id in s.present)
            && t < |s'.replays| && s'.replays[t].id == task.id
            && s'.replays[t].pc == if out.Applied? then ReplayAdded else ReplayEnded
  {
  }

  lemma DeleteEffect(c: Config, s: State, t: nat, out: Cmd)
    requires t < |s.replays|
    ensures var s' := Apply(c, s, ReplayDelete(t, out));
            && s'.ever == s.ever && s'.requeued == s.requeued
            && s'.present == if s.replays[t].pc.ReplayAdded? && !out.NotApplied?
                             then s.present - {s.replays[t].id} else s.present
  {
  }
}
