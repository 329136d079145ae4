/** The main theorems about whole runs of the concurrent session. */
module Outcomes {
  import opened Protocol
  import opened Replies
  import opened Ledger
  import opened Multiplexer
  import opened Refinement
  import I = Ideal
  import O = IdealOutcomes

  // ---------------------------------------------------------------- conservation

  /** In every state of every run each issued command's sender is in exactly one place. */
  lemma WakerConservation(codec: Codec, acts: seq<Action>, c: nat)
    requires ValidRun(codec, INITIAL, acts) && c < |After(codec, INITIAL, acts).ledger.calls|
    ensures Places(After(codec, INITIAL, acts).ledger, c) == 1
  {
    InvRun(codec, INITIAL, acts);
  }

  /** Action a sends a response through command c's one-shot channel. */
  predicate Resolves(s: State, a: Action, c: nat)
    requires Enabled(s, a)
  {
    match a
    case Resolve => s.ledger.reader[s.mode.frame.tag].waker == c
    case ReaderSend(t) => s.ledger.reader[t].waker == c
    case CloseSend(t) => s.ledger.closer[t].waker == c
    case _ => false
  }

  function Resolutions(codec: Codec, s: State, acts: seq<Action>, c: nat): nat
    requires ValidRun(codec, s, acts)
    decreases |acts|
  {
    if acts == [] then 0
    else One(Resolves(s, acts[0], c)) + Resolutions(codec, Do(codec, s, acts[0]), acts[1..], c)
  }

  lemma DiscardKeepsSettled(l: Ledger, t: u16, c: nat)
    requires Valid(l) && c < |l.calls| && l.calls[c].slot != Open
    ensures Discard(l, t).calls[c].slot == l.calls[c].slot
  {
    assert Places(l, c) == 1;
  }

  lemma ReaderUseIsFirst(l: Ledger, t: u16, slot: Slot, c: nat)
    requires Valid(l) && t in l.reader && c < |l.calls|
    ensures l.calls[c].slot != Open ==> l.reader[t].waker != c && ReaderUses(l, t, slot).calls[c] == l.calls[c]
    ensures l.reader[t].waker == c ==> ReaderUses(l, t, slot).calls[c].slot == slot
  {
    assert Places(l, c) == 1 && EntryOk(l.calls, t, l.reader[t]);
  }

  lemma CloserUseIsFirst(l: Ledger, t: u16, slot: Slot, c: nat)
    requires Valid(l) && t in l.closer && c < |l.calls|
    ensures l.calls[c].slot != Open ==> l.closer[t].waker != c && CloserUses(l, t, slot).calls[c] == l.calls[c]
    ensures l.closer[t].waker == c ==> CloserUses(l, t, slot).calls[c].slot == slot
  {
    assert Places(l, c) == 1 && EntryOk(l.calls, t, l.closer[t]);
  }

  lemma CallerLeavesSettled(codec: Codec, s: State, a: Action, c: nat)
    requires Inv(s) && Enabled(s, a) && c < |s.ledger.calls| && s.ledger.calls[c].slot != Open
    requires a.Insert? || a.Remove? || a.Reinsert?
    ensures Do(codec, s, a).ledger.calls[c].slot == s.ledger.calls[c].slot
  {
    match a
    case Insert(d) => DiscardKeepsSettled(s.ledger, s.ledger.calls[d].tag, c);
    case Remove(d) => DiscardKeepsSettled(s.ledger, s.ledger.calls[d].tag, c);
    case Reinsert => DiscardKeepsSettled(s.ledger, s.mode.frame.tag, c);
  }

  lemma UseIsFirst(codec: Codec, s: State, a: Action, c: nat)
    requires Inv(s) && Enabled(s, a) && c < |s.ledger.calls|
    requires a.Resolve? || a.ReaderSend? || a.Cancel? || a.CloseSend?
    ensures s.ledger.calls[c].slot != Open ==>
      Do(codec, s, a).ledger.calls[c].slot == s.ledger.calls[c].slot && !Resolves(s, a, c)
    ensures Resolves(s, a, c) ==> Do(codec, s, a).ledger.calls[c].slot.Sent?
  {
    var l := s.ledger;
    match a
    case Resolve =>
      var f := s.mode.frame;
      ReaderUseIsFirst(l, f.tag, Sent(Answer(codec, l.reader[f.tag].cmd, f), FromFrame(s.mode.about, f)), c);
    case ReaderSend(t) => ReaderUseIsFirst(l, t, Sent(ErrMsg(CLOSED_BY_READER), Teardown), c);
    case Cancel => if s.mode.Holding? { ReaderUseIsFirst(l, s.mode.frame.tag, Dropped, c); }
    case CloseSend(t) => CloserUseIsFirst(l, t, Sent(ErrMsg(CLOSED_BY_CLOSE), Teardown), c);
  }

  /** A channel used or dropped is never touched again, and only an open one is used. */
  lemma SettledForGood(codec: Codec, s: State, a: Action, c: nat)
    requires Inv(s) && Enabled(s, a) && c < |s.ledger.calls|
    ensures s.ledger.calls[c].slot != Open ==>
      Do(codec, s, a).ledger.calls[c].slot == s.ledger.calls[c].slot && !Resolves(s, a, c)
    ensures Resolves(s, a, c) ==> Do(codec, s, a).ledger.calls[c].slot.Sent?
  {
    if a.Insert? || a.Remove? || a.Reinsert? {
      if s.ledger.calls[c].slot != Open {
        CallerLeavesSettled(codec, s, a, c);
      }
    } else if a.Resolve? || a.ReaderSend? || a.Cancel? || a.CloseSend? {
      UseIsFirst(codec, s, a, c);
    }
  }

  lemma ResolvesKnown(s: State, a: Action, c: nat)
    requires Inv(s) && Enabled(s, a) && Resolves(s, a, c)
    ensures c < |s.ledger.calls|
  {
    match a
    case Resolve => assert EntryOk(s.ledger.calls, s.mode.frame.tag, s.ledger.reader[s.mode.frame.tag]);
    case ReaderSend(t) => assert EntryOk(s.ledger.calls, t, s.ledger.reader[t]);
    case CloseSend(t) => assert EntryOk(s.ledger.calls, t, s.ledger.closer[t]);
  }

  /** No command is resolved twice, by the reader's dispatch and the two drains together. */
  lemma {:induction false} ResolvedAtMostOnce(codec: Codec, s: State, acts: seq<Action>, c: nat)
    requires Inv(s) && ValidRun(codec, s, acts)
    ensures Resolutions(codec, s, acts, c) <= 1
    ensures c < |s.ledger.calls| && s.ledger.calls[c].slot != Open ==>
      && Resolutions(codec, s, acts, c) == 0
      && |s.ledger.calls| <= |After(codec, s, acts).ledger.calls|
      && After(codec, s, acts).ledger.calls[c].slot == s.ledger.calls[c].slot
    decreases |acts|
  {
    if acts != [] {
      var a, s' := acts[0], Do(codec, s, acts[0]);
      InvStep(codec, s, a);
      StepExtends(codec, s, a);
      if Resolves(s, a, c) {
        ResolvesKnown(s, a, c);
      }
      if c < |s.ledger.calls| {
        SettledForGood(codec, s, a, c);
      }
      ResolvedAtMostOnce(codec, s', acts[1..], c);
    }
  }

  // ---------------------------------------------------------------- correlation

  lemma InitialIdealFine(codec: Codec)
    ensures O.IInv(codec, I.INITIAL) && O.ExitFine(I.INITIAL)
  {
  }

  lemma ReachedIdeal(codec: Codec, acts: seq<Action>)
    requires ValidRun(codec, INITIAL, acts) && Windowed(codec, INITIAL, acts)
    ensures var s := After(codec, INITIAL, acts);
            Good(s) && O.IInv(codec, Abs(s)) && O.ExitFine(Abs(s))
  {
    InitialIsIdeal();
    InitialIdealFine(codec);
    Refines(codec, INITIAL, acts);
    O.IInvRun(codec, I.INITIAL, Shadow(codec, INITIAL, acts));
    O.ExitRun(codec, I.INITIAL, Shadow(codec, INITIAL, acts));
  }

  /** Frame i of the wire answers c; every earlier frame about c is a TX acknowledgement. */
  ghost predicate FirstFinalFrame(s: State, c: nat, i: nat)
    requires c < |s.ledger.calls| && i < |s.io.wire|
  {
    && s.io.wire[i].Tagged() && s.io.wire[i].about == c
    && !IsTxAck(s.ledger.calls[c].cmd, s.io.wire[i].work.frame)
    && forall j :: 0 <= j < i && s.io.wire[j].Tagged() && s.io.wire[j].about == c ==>
         IsTxAck(s.ledger.calls[c].cmd, s.io.wire[j].work.frame)
  }

  /** What c received is the answer to the first final frame about c that the device sent,
      or the teardown error of a drain. */
  ghost predicate OwnResponse(codec: Codec, s: State, c: nat)
    requires c < |s.ledger.calls| && s.ledger.calls[c].phase.Answered?
  {
    var resp := s.ledger.calls[c].phase.resp;
    || O.IsTeardown(resp)
    || exists i :: 0 <= i < s.io.cursor <= |s.io.wire| && FirstFinalFrame(s, c, i)
         && resp == Answer(codec, s.ledger.calls[c].cmd, s.io.wire[i].work.frame)
  }

  /** Correlation: a caller is given the answer to the first final frame the device sent
      about that very command, or the teardown error of a drain; never another's. */
  lemma OwnResponseOnly(codec: Codec, acts: seq<Action>, c: nat)
    requires ValidRun(codec, INITIAL, acts) && Windowed(codec, INITIAL, acts)
    requires var s := After(codec, INITIAL, acts); c < |s.ledger.calls| && s.ledger.calls[c].phase.Answered?
    ensures OwnResponse(codec, After(codec, INITIAL, acts), c)
  {
    ReachedIdeal(codec, acts);
    var s := After(codec, INITIAL, acts);
    var ideal := Abs(s);
    var call := ideal.calls[c];
    assert O.CallFine(codec, ideal.mail, ideal.cursor, c, call);
    if !O.IsTeardown(s.ledger.calls[c].phase.resp) {
      var f := call.place.slot.source.frame;
      var i :| 0 <= i < ideal.cursor && ideal.mail[i] == I.To(c, f) && !IsTxAck(call.cmd, f)
               && O.OnlyAcks(ideal.mail, call.cmd, c, i);
      forall j | 0 <= j < i && s.io.wire[j].Tagged() && s.io.wire[j].about == c
        ensures IsTxAck(call.cmd, s.io.wire[j].work.frame)
      {
        assert ideal.mail[j] == AbsMail(s.io.wire[j]);
      }
      assert ideal.mail[i] == AbsMail(s.io.wire[i]);
      assert FirstFinalFrame(s, c, i);
    }
  }

  /** Frame i of the wire is the first final one about c, and the response conveys it. */
  ghost predicate ConveysFirst(codec: Codec, s: State, c: nat, resp: Response, i: nat)
    requires c < |s.ledger.calls|
  {
    i < s.io.cursor <= |s.io.wire| && FirstFinalFrame(s, c, i)
    && Conveys(codec, s.ledger.calls[c].cmd, s.io.wire[i].work.frame, resp)
  }

  /** What the response says, for a command of any type: the teardown error, or exactly what
      the first final frame about that command conveys. */
  lemma ResponseConveys(codec: Codec, acts: seq<Action>, c: nat)
    requires ValidRun(codec, INITIAL, acts) && Windowed(codec, INITIAL, acts)
    requires var s := After(codec, INITIAL, acts); c < |s.ledger.calls| && s.ledger.calls[c].phase.Answered?
    ensures var s := After(codec, INITIAL, acts);
            var resp := s.ledger.calls[c].phase.resp;
            O.IsTeardown(resp) || exists i :: ConveysFirst(codec, s, c, resp, i)
  {
    OwnResponseOnly(codec, acts, c);
    var s := After(codec, INITIAL, acts);
    var resp := s.ledger.calls[c].phase.resp;
    if !O.IsTeardown(resp) {
      var i :| 0 <= i < s.io.cursor <= |s.io.wire| && FirstFinalFrame(s, c, i)
               && resp == Answer(codec, s.ledger.calls[c].cmd, s.io.wire[i].work.frame);
      AnswerIff(codec, s.ledger.calls[c].cmd, s.io.wire[i].work.frame, resp);
      assert ConveysFirst(codec, s, c, resp, i);
    }
  }

  /** c failed with an error of its own: a failed write, its own timeout, or "reader
      exited", the last only when the reader has indeed exited. */
  predicate OwnError(s: State, c: nat)
    requires c < |s.ledger.calls| && s.ledger.calls[c].phase.Failed?
  {
    var e := s.ledger.calls[c].phase.err;
    e.Io? || e.EncodeFailed? || e == Timeout(s.ledger.calls[c].cmd) || (e == ReaderExited && s.mode.Exited?)
  }

  lemma OwnErrorsOnly(codec: Codec, acts: seq<Action>, c: nat)
    requires ValidRun(codec, INITIAL, acts) && Windowed(codec, INITIAL, acts)
    requires var s := After(codec, INITIAL, acts); c < |s.ledger.calls| && s.ledger.calls[c].phase.Failed?
    ensures OwnError(After(codec, INITIAL, acts), c)
  {
    ReachedIdeal(codec, acts);
    var s := After(codec, INITIAL, acts);
    assert O.CallFine(codec, Abs(s).mail, Abs(s).cursor, c, Abs(s).calls[c]);
  }

  /** `transmit` over the concurrent session: what it returns for a completed TX command. */
  function TransmitOutcome(call: Call): Result<TxDone, ClientError>
    requires call.phase.Returned()
  {
    TransmitResult(if call.phase.Answered? then Success(call.phase.resp) else Failure(call.phase.err))
  }

  /** `transmit` returns Ok only for a TX_DONE(Transmitted) that is the first frame about
      this transmission other than an acknowledgement, and its "unexpected response" arm is
      unreachable. */
  lemma TransmitSound(codec: Codec, acts: seq<Action>, c: nat)
    requires ValidRun(codec, INITIAL, acts) && Windowed(codec, INITIAL, acts)
    requires var s := After(codec, INITIAL, acts);
             c < |s.ledger.calls| && s.ledger.calls[c].cmd == Tx && s.ledger.calls[c].phase.Returned()
    ensures var s := After(codec, INITIAL, acts);
            var r := TransmitOutcome(s.ledger.calls[c]);
            && r != Failure(Other("unexpected TX response"))
            && (r.Success? ==>
                  exists i :: 0 <= i < s.io.cursor <= |s.io.wire| && FirstFinalFrame(s, c, i)
                    && s.io.wire[i].work.frame.ty == TX_DONE
                    && codec.decodeTxDone(s.io.wire[i].work.frame.payload) == Some(r.value)
                    && r.value.result == Transmitted)
  {
    var s := After(codec, INITIAL, acts);
    var call := s.ledger.calls[c];
    if call.phase.Answered? {
      OwnResponseOnly(codec, acts, c);
    } else {
      OwnErrorsOnly(codec, acts, c);
    }
  }

  /** What `transmit` returns under concurrency, success or failure: exactly what the first
      frame about this transmission other than an acknowledgement conveys, unless the session
      was torn down or the call failed by itself. */
  lemma TransmitOutcomeConveys(codec: Codec, acts: seq<Action>, c: nat)
    requires ValidRun(codec, INITIAL, acts) && Windowed(codec, INITIAL, acts)
    requires var s := After(codec, INITIAL, acts);
             c < |s.ledger.calls| && s.ledger.calls[c].cmd == Tx && s.ledger.calls[c].phase.Returned()
    ensures var s := After(codec, INITIAL, acts);
            var call := s.ledger.calls[c];
            var r := TransmitOutcome(call);
            match call.phase
            case Failed(e) => r == Failure(e)
            case Answered(resp) =>
              if O.IsTeardown(resp) then r == Failure(resp.error)
              else
                exists i: nat ::
                  ConveysFirst(codec, s, c, resp, i) && TransmitConveys(codec, s.io.wire[i].work.frame, r)
  {
    var s := After(codec, INITIAL, acts);
    var call := s.ledger.calls[c];
    if call.phase.Answered? && !O.IsTeardown(call.phase.resp) {
      ResponseConveys(codec, acts, c);
      var i: nat :| ConveysFirst(codec, s, c, call.phase.resp, i);
      AnswerIff(codec, Tx, s.io.wire[i].work.frame, call.phase.resp);
      TransmitResultIff(codec, s.io.wire[i].work.frame, TransmitOutcome(call));
    }
  }
}
