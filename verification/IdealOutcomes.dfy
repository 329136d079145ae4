/** What the ideal session guarantees each command, in every run. */
module IdealOutcomes {
  import opened Protocol
  import L = Ledger
  import opened Ideal

  /** Every letter to id among the first n is a TX acknowledgement. */
  ghost predicate OnlyAcks(mail: seq<Mail>, cmd: CmdType, id: nat, n: nat)
    requires n <= |mail|
  {
    forall i :: 0 <= i < n && mail[i].To? && mail[i].id == id ==> IsTxAck(cmd, mail[i].frame)
  }

  /** f is the first letter to id, among the first n, that is not a TX acknowledgement. */
  ghost predicate FirstFinalLetter(mail: seq<Mail>, cmd: CmdType, id: nat, f: Frame, n: nat)
    requires n <= |mail|
  {
    exists i :: 0 <= i < n && mail[i] == To(id, f) && !IsTxAck(cmd, f) && OnlyAcks(mail, cmd, id, i)
  }

  predicate IsTeardown(resp: Response) {
    resp == ErrMsg(TransportClosed("session closed")) || resp == ErrMsg(TransportClosed("reader exited"))
  }

  /** What has been sent to a command is the answer to its own first final letter, or the
      teardown error. */
  ghost predicate SlotFine(codec: Codec, mail: seq<Mail>, cursor: nat, id: nat, cmd: CmdType, slot: L.Slot)
    requires cursor <= |mail|
  {
    match slot
    case Open => false
    case Dropped => true
    case Sent(resp, Teardown) => IsTeardown(resp)
    case Sent(resp, FromFrame(about, f)) =>
      about == id && resp == Answer(codec, cmd, f) && FirstFinalLetter(mail, cmd, id, f, cursor)
  }

  ghost predicate CallFine(codec: Codec, mail: seq<Mail>, cursor: nat, id: nat, call: ICall)
    requires cursor <= |mail|
  {
    && (call.phase.Allocated? <==> call.place == AtCaller)
    && (call.phase.Allocated? ==> !call.written)
    && (call.place == Outstanding ==> OnlyAcks(mail, call.cmd, id, cursor))
    && (call.place == Outstanding && call.phase.Returned() ==> call.cmd == Tx)
    && (call.place.Gone? ==> SlotFine(codec, mail, cursor, id, call.cmd, call.place.slot))
    && (call.phase.Answered? ==> call.place.Gone? && call.place.slot.Sent? && call.place.slot.resp == call.phase.resp)
    && (call.phase.Leaving? || call.phase.Failed? ==>
          var e := call.phase.err;
          e.Io? || e.EncodeFailed? || e == Timeout(call.cmd)
          || (e == ReaderExited && call.place == Gone(L.Dropped)))
  }

  ghost predicate CallsFine(codec: Codec, s: IState)
    requires s.cursor <= |s.mail|
  {
    forall id :: 0 <= id < |s.calls| ==> CallFine(codec, s.mail, s.cursor, id, s.calls[id])
  }

  /** The letter being served is the last one opened, and so far the only final one. */
  ghost predicate ServingFine(s: IState)
    requires s.cursor <= |s.mail|
  {
    s.mode.Serving? ==>
      && IsAt(s, s.mode.id, WithReader)
      && 0 < s.cursor && s.mail[s.cursor - 1] == To(s.mode.id, s.mode.frame)
      && OnlyAcks(s.mail, s.calls[s.mode.id].cmd, s.mode.id, s.cursor - 1)
  }

  ghost predicate MailFine(s: IState) {
    forall i :: 0 <= i < |s.mail| && s.mail[i].To? ==> s.mail[i].id < |s.calls| && s.calls[s.mail[i].id].written
  }

  ghost predicate IInv(codec: Codec, s: IState) {
    s.cursor <= s.read <= |s.mail| && CallsFine(codec, s) && ServingFine(s) && MailFine(s)
  }

  lemma OpenStep(codec: Codec, s: IState)
    requires IInv(codec, s) && IEnabled(s, Open)
    ensures IInv(codec, IDo(codec, s, Open))
  {
    var s' := IDo(codec, s, Open);
    forall id | 0 <= id < |s'.calls| ensures CallFine(codec, s'.mail, s'.cursor, id, s'.calls[id]) {
      assert CallFine(codec, s.mail, s.cursor, id, s.calls[id]);
      OpenKeepsOne(codec, s, id);
    }
  }

  lemma OpenKeepsOne(codec: Codec, s: IState, id: nat)
    requires s.cursor < |s.mail| && id < |s.calls| && CallFine(codec, s.mail, s.cursor, id, s.calls[id])
    ensures (s.mail[s.cursor].To? && s.mail[s.cursor].id == id && s.calls[id].place == Outstanding)
            || CallFine(codec, s.mail, s.cursor + 1, id, s.calls[id])
  {
  }

  lemma PostStep(codec: Codec, s: IState, m: Mail)
    requires IInv(codec, s) && IEnabled(s, Post(m))
    ensures IInv(codec, IDo(codec, s, Post(m)))
  {
    var s' := IDo(codec, s, Post(m));
    assert forall i :: 0 <= i < s.cursor ==> s'.mail[i] == s.mail[i];
    forall id | 0 <= id < |s'.calls| ensures CallFine(codec, s'.mail, s'.cursor, id, s'.calls[id]) {
      assert CallFine(codec, s.mail, s.cursor, id, s.calls[id]);
      var call := s.calls[id];
      if call.place.Gone? && call.place.slot.Sent? && call.place.slot.source.FromFrame? {
        var f := call.place.slot.source.frame;
        var i :| 0 <= i < s.cursor && s.mail[i] == To(id, f) && !IsTxAck(call.cmd, f)
                 && OnlyAcks(s.mail, call.cmd, id, i);
        assert s'.mail[i] == To(id, f) && OnlyAcks(s'.mail, call.cmd, id, i);
      }
    }
  }

  lemma ServedStep(codec: Codec, s: IState, a: IAction)
    requires IInv(codec, s) && IEnabled(s, a) && s.mode.Serving?
    requires a.PutBack? || a.Resolve? || a.Cancel?
    ensures IInv(codec, IDo(codec, s, a))
  {
    var s' := IDo(codec, s, a);
    var id, f := s.mode.id, s.mode.frame;
    assert CallFine(codec, s.mail, s.cursor, id, s.calls[id]);
    assert s.mail[s.cursor - 1] == To(id, f);
    if a.Resolve? {
      assert FirstFinalLetter(s.mail, s.calls[id].cmd, id, f, s.cursor);
    }
    assert CallFine(codec, s'.mail, s'.cursor, id, s'.calls[id]);
  }

  lemma BeginStep(codec: Codec, s: IState, a: IAction)
    requires IInv(codec, s) && IEnabled(s, a)
    requires a.Begin? || a.File? || a.Deliver? || a.WriteOk?
    ensures IInv(codec, IDo(codec, s, a))
  {
    var s' := IDo(codec, s, a);
    if a.File? {
      assert CallFine(codec, s.mail, s.cursor, a.id, s.calls[a.id]);
      assert OnlyAcks(s.mail, s.calls[a.id].cmd, a.id, s.cursor);
    }
  }

  lemma EndStep(codec: Codec, s: IState, a: IAction)
    requires IInv(codec, s) && IEnabled(s, a)
    requires a.WriteFail? || a.Receive? || a.TimeOut?
    ensures IInv(codec, IDo(codec, s, a))
  {
    var id := a.id;
    assert CallFine(codec, s.mail, s.cursor, id, s.calls[id]);
    assert CallFine(codec, s.mail, s.cursor, id, IDo(codec, s, a).calls[id]);
  }

  lemma StrikeStep(codec: Codec, s: IState, a: IAction)
    requires IInv(codec, s) && IEnabled(s, a)
    requires a.Withdraw? || a.Forget?
    ensures IInv(codec, IDo(codec, s, a))
  {
    var id := a.id;
    assert CallFine(codec, s.mail, s.cursor, id, s.calls[id]);
    assert CallFine(codec, s.mail, s.cursor, id, IDo(codec, s, a).calls[id]);
  }

  lemma DrainStep(codec: Codec, s: IState, a: IAction)
    requires IInv(codec, s) && IEnabled(s, a)
    requires a.CollectAll? || a.ReaderSend? || a.CloserCollects? || a.CloseSend?
    ensures IInv(codec, IDo(codec, s, a))
  {
    var s' := IDo(codec, s, a);
    forall id | 0 <= id < |s'.calls| ensures CallFine(codec, s'.mail, s'.cursor, id, s'.calls[id]) {
      assert CallFine(codec, s.mail, s.cursor, id, s.calls[id]);
    }
  }

  lemma IInvStep(codec: Codec, s: IState, a: IAction)
    requires IInv(codec, s) && IEnabled(s, a)
    ensures IInv(codec, IDo(codec, s, a))
  {
    if a.Open? {
      OpenStep(codec, s);
    } else if a.Post? {
      PostStep(codec, s, a.m);
    } else if (a.PutBack? || a.Resolve? || a.Cancel?) && s.mode.Serving? {
      ServedStep(codec, s, a);
    } else if a.Begin? || a.File? || a.Deliver? || a.WriteOk? {
      BeginStep(codec, s, a);
    } else if a.WriteFail? || a.Receive? || a.TimeOut? {
      EndStep(codec, s, a);
    } else if a.Withdraw? || a.Forget? {
      StrikeStep(codec, s, a);
    } else if a.CollectAll? || a.ReaderSend? || a.CloserCollects? || a.CloseSend? {
      DrainStep(codec, s, a);
    }
  }

  lemma {:induction false} IInvRun(codec: Codec, s: IState, acts: seq<IAction>)
    requires IInv(codec, s) && IValidRun(codec, s, acts)
    ensures IInv(codec, IAfter(codec, s, acts))
    decreases |acts|
  {
    if acts != [] {
      IInvStep(codec, s, acts[0]);
      IInvRun(codec, IDo(codec, s, acts[0]), acts[1..]);
    }
  }

  /** A caller that has not yet given up loses its sender, or is told that the reader
      exited, only once the reader has exited. */
  ghost predicate ExitFine(s: IState) {
    forall id :: 0 <= id < |s.calls| ==>
      var call := s.calls[id];
      ((call.phase.Writing? || call.phase.Waiting?) && call.place == Gone(L.Dropped))
      || (call.phase.Leaving? && call.phase.err == ReaderExited)
      || (call.phase.Failed? && call.phase.err == ReaderExited)
      ==> s.mode.Exited?
  }

  lemma ExitCallerStep(codec: Codec, s: IState, a: IAction)
    requires IInv(codec, s) && ExitFine(s) && IEnabled(s, a)
    requires a.Begin? || a.File? || a.Deliver? || a.WriteOk? || a.WriteFail? || a.Receive? || a.TimeOut? || a.Withdraw?
    ensures ExitFine(IDo(codec, s, a))
  {
    if a.Receive? || a.File? {
      assert CallFine(codec, s.mail, s.cursor, a.id, s.calls[a.id]);
    }
  }

  lemma ExitStep(codec: Codec, s: IState, a: IAction)
    requires IInv(codec, s) && ExitFine(s) && IEnabled(s, a)
    ensures ExitFine(IDo(codec, s, a))
  {
    if a.Begin? || a.File? || a.Deliver? || a.WriteOk? || a.WriteFail? || a.Receive? || a.TimeOut? || a.Withdraw? {
      ExitCallerStep(codec, s, a);
    }
  }

  lemma {:induction false} ExitRun(codec: Codec, s: IState, acts: seq<IAction>)
    requires IInv(codec, s) && ExitFine(s) && IValidRun(codec, s, acts)
    ensures ExitFine(IAfter(codec, s, acts))
    decreases |acts|
  {
    if acts != [] {
      IInvStep(codec, s, acts[0]);
      ExitStep(codec, s, acts[0]);
      ExitRun(codec, IDo(codec, s, acts[0]), acts[1..]);
    }
  }

  /** The command an action is about, if it is about one. */
  function About(s: IState, a: IAction): Option<nat> {
    match a
    case File(id) => Some(id)
    case Deliver(id) => Some(id)
    case WriteOk(id) => Some(id)
    case WriteFail(id, _) => Some(id)
    case Receive(id) => Some(id)
    case TimeOut(id) => Some(id)
    case Withdraw(id) => Some(id)
    case Forget(id) => Some(id)
    case ReaderSend(id) => Some(id)
    case CloseSend(id) => Some(id)
    case Open => if s.cursor < |s.mail| && s.mail[s.cursor].To? then Some(s.mail[s.cursor].id) else None
    case PutBack => if s.mode.Serving? then Some(s.mode.id) else None
    case Resolve => if s.mode.Serving? then Some(s.mode.id) else None
    case Cancel => if s.mode.Serving? then Some(s.mode.id) else None
    case _ => None
  }

  lemma TaskLeavesOthers(codec: Codec, s: IState, a: IAction, other: nat)
    requires IEnabled(s, a) && other < |s.calls| && About(s, a) != Some(other)
    requires a.Open? || a.PutBack? || a.Resolve? || a.Cancel? || a.ReaderSend? || a.CloseSend? || a.Forget?
    ensures other < |IDo(codec, s, a).calls| && IDo(codec, s, a).calls[other] == s.calls[other]
  {
  }

  /** Independence: an action about a command changes no other command, and one about none,
      unless it is the start of a drain, changes no command at all. */
  lemma OthersUntouched(codec: Codec, s: IState, a: IAction, other: nat)
    requires IEnabled(s, a) && other < |s.calls|
    requires !a.CollectAll? && !a.CloserCollects? && About(s, a) != Some(other)
    ensures other < |IDo(codec, s, a).calls| && IDo(codec, s, a).calls[other] == s.calls[other]
  {
    if a.Open? || a.PutBack? || a.Resolve? || a.Cancel? || a.ReaderSend? || a.CloseSend? || a.Forget? {
      TaskLeavesOthers(codec, s, a, other);
    }
  }
}
