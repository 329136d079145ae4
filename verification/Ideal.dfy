/** The ideal session: no tags, no shared map, nothing to overwrite. Every command has an
    identity that is never reused and a little state of its own; a letter from the device
    names the command it answers. An action about one command touches that command alone.
 */
module Ideal {
  import opened Protocol
  import L = Ledger
  import M = Multiplexer

  /** Where a command's one-shot sender is. */
  datatype Place = AtCaller | Outstanding | WithReader | WithCloser | Gone(slot: L.Slot)

  datatype ICall = ICall(cmd: CmdType, phase: L.Phase, written: bool, place: Place)

  datatype Mail = To(id: nat, frame: Frame) | Async(work: FrameWork)

  datatype IMode = Idle | Serving(id: nat, frame: Frame) | Draining | Exited

  datatype IState = IState(
    calls: seq<ICall>,
    admitted: nat,
    mode: IMode,
    closing: M.CloserMode,
    closed: bool,
    aborted: bool,
    mail: seq<Mail>, read: nat, cursor: nat,
    queues: M.Queues)

  const INITIAL := IState([], 0, Idle, M.Calm, false, false, [], 0, 0, M.Queues([], [], [], []))

  datatype IAction =
    | Admit | Begin(cmd: CmdType) | File(id: nat) | Deliver(id: nat)
    | WriteOk(id: nat) | WriteFail(id: nat, err: ClientError)
    | Receive(id: nat) | TimeOut(id: nat) | Withdraw(id: nat)
    | Post(m: Mail) | ReadMail(n: nat) | Open | PutBack | Resolve
    | CollectAll | ReaderSend(id: nat) | ReaderDone | Cancel
    | SetFlag | CloserCollects | CloseSend(id: nat) | Abort
    | TakeRx | TakeErr
    | Forget(id: nat)     // a command nobody waits for any more is struck off

  function Move(calls: seq<ICall>, id: nat, place: Place): seq<ICall>
    requires id < |calls|
  {
    calls[id := calls[id].(place := place)]
  }

  function Phased(calls: seq<ICall>, id: nat, p: L.Phase): seq<ICall>
    requires id < |calls|
  {
    calls[id := calls[id].(phase := p)]
  }

  /** A drain picks up every outstanding command at once. */
  function Collect(calls: seq<ICall>, place: Place): seq<ICall> {
    seq(|calls|, i requires 0 <= i < |calls| =>
      if calls[i].place == Outstanding then calls[i].(place := place) else calls[i])
  }

  predicate IsAt(s: IState, id: nat, place: Place) {
    id < |s.calls| && s.calls[id].place == place
  }

  predicate ServingAck(s: IState) {
    s.mode.Serving? && s.mode.id < |s.calls| && IsTxAck(s.calls[s.mode.id].cmd, s.mode.frame)
  }

  predicate IEnabled(s: IState, a: IAction) {
    match a
    case Admit => !s.closed
    case Begin(_) => s.admitted > 0
    case File(id) => IsAt(s, id, AtCaller)
    case Deliver(id) => id < |s.calls| && s.calls[id].phase.Writing? && !s.calls[id].written
    case WriteOk(id) => id < |s.calls| && s.calls[id].phase.Writing? && s.calls[id].written
    case WriteFail(id, e) =>
      id < |s.calls| && s.calls[id].phase.Writing? && (e.Io? || e.EncodeFailed?)
    case Receive(id) => id < |s.calls| && s.calls[id].phase.Waiting? && s.calls[id].place.Gone?
    case TimeOut(id) => id < |s.calls| && s.calls[id].phase.Waiting? && !s.calls[id].place.Gone?
    case Withdraw(id) => id < |s.calls| && s.calls[id].phase.Leaving?
    case Post(m) => m.To? ==> m.id < |s.calls| && s.calls[m.id].written
    case ReadMail(n) => s.mode.Idle? && s.read == s.cursor && s.read + n <= |s.mail|
    case Open => s.mode.Idle? && s.cursor < s.read <= |s.mail|
    case PutBack => ServingAck(s)
    case Resolve => s.mode.Serving? && s.mode.id < |s.calls| && !ServingAck(s)
    case CollectAll => s.mode.Idle? && s.cursor == s.read
    case ReaderSend(id) => s.mode.Draining? && IsAt(s, id, WithReader)
    case ReaderDone => s.mode.Draining? && forall id :: 0 <= id < |s.calls| ==> s.calls[id].place != WithReader
    case Cancel => s.aborted && (s.mode.Idle? || ServingAck(s))
    case SetFlag => s.closing.Calm?
    case CloserCollects => s.closing.FlagSet?
    case CloseSend(id) => s.closing.Sending? && IsAt(s, id, WithCloser)
    case Abort => s.closing.Sending? && forall id :: 0 <= id < |s.calls| ==> s.calls[id].place != WithCloser
    case TakeRx => s.queues.rx != []
    case TakeErr => s.queues.errs != []
    case Forget(id) => IsAt(s, id, Outstanding) && s.calls[id].phase.Returned()
  }

  function IDo(codec: Codec, s: IState, a: IAction): IState
    requires IEnabled(s, a)
  {
    match a
    case Admit => s.(admitted := s.admitted + 1)
    case Begin(cmd) =>
      s.(admitted := s.admitted - 1, calls := s.calls + [ICall(cmd, L.Allocated, false, AtCaller)])
    case File(id) => s.(calls := Phased(Move(s.calls, id, Outstanding), id, L.Writing))
    case Deliver(id) => s.(calls := s.calls[id := s.calls[id].(written := true)])
    case WriteOk(id) => s.(calls := Phased(s.calls, id, L.Waiting))
    case WriteFail(id, e) => s.(calls := Phased(s.calls, id, L.Leaving(e)))
    case Receive(id) => s.(calls := Phased(s.calls, id, M.OnReceive(s.calls[id].place.slot)))
    case TimeOut(id) => s.(calls := Phased(s.calls, id, L.Leaving(Timeout(s.calls[id].cmd))))
    case Withdraw(id) =>
      var struck := if s.calls[id].place == Outstanding then Move(s.calls, id, Gone(L.Dropped)) else s.calls;
      s.(calls := Phased(struck, id, L.Failed(s.calls[id].phase.err)))
    case Post(m) => s.(mail := s.mail + [m])
    case ReadMail(n) => s.(read := s.read + n)
    case Open =>
      (match s.mail[s.cursor]
       case Async(w) => s.(cursor := s.cursor + 1, queues := M.Enqueue(codec, s.queues, w))
       case To(id, f) =>
         if IsAt(s, id, Outstanding) then
           s.(cursor := s.cursor + 1, mode := Serving(id, f), calls := Move(s.calls, id, WithReader))
         else
           s.(cursor := s.cursor + 1))
    case PutBack => s.(mode := Idle, calls := Move(s.calls, s.mode.id, Outstanding))
    case Resolve =>
      var Serving(id, f) := s.mode;
      s.(mode := Idle,
         calls := Move(s.calls, id, Gone(L.Sent(Answer(codec, s.calls[id].cmd, f), L.FromFrame(id, f)))))
    case CollectAll => s.(mode := Draining, calls := Collect(s.calls, WithReader))
    case ReaderSend(id) =>
      s.(calls := Move(s.calls, id, Gone(L.Sent(ErrMsg(CLOSED_BY_READER), L.Teardown))))
    case ReaderDone => s.(mode := Exited)
    case Cancel =>
      s.(mode := Exited, calls := if s.mode.Serving? then Move(s.calls, s.mode.id, Gone(L.Dropped)) else s.calls)
    case SetFlag => s.(closed := true, closing := M.FlagSet)
    case CloserCollects => s.(closing := M.Sending, calls := Collect(s.calls, WithCloser))
    case CloseSend(id) =>
      s.(calls := Move(s.calls, id, Gone(L.Sent(ErrMsg(CLOSED_BY_CLOSE), L.Teardown))))
    case Abort => s.(aborted := true, closing := M.Calm)
    case TakeRx => s.(queues := M.PopRx(s.queues))
    case TakeErr => s.(queues := M.PopErr(s.queues))
    case Forget(id) => s.(calls := Move(s.calls, id, Gone(L.Dropped)))
  }

  predicate IValidRun(codec: Codec, s: IState, acts: seq<IAction>)
    decreases |acts|
  {
    acts == [] || (IEnabled(s, acts[0]) && IValidRun(codec, IDo(codec, s, acts[0]), acts[1..]))
  }

  function IAfter(codec: Codec, s: IState, acts: seq<IAction>): IState
    requires IValidRun(codec, s, acts)
    decreases |acts|
  {
    if acts == [] then s else IAfter(codec, IDo(codec, s, acts[0]), acts[1..])
  }

  lemma {:induction false} IRunsCompose(codec: Codec, s: IState, a: seq<IAction>, b: seq<IAction>)
    requires IValidRun(codec, s, a) && IValidRun(codec, IAfter(codec, s, a), b)
    ensures IValidRun(codec, s, a + b) && IAfter(codec, s, a + b) == IAfter(codec, IAfter(codec, s, a), b)
    decreases |a|
  {
    if a == [] {
      assert a + b == b;
    } else {
      assert (a + b)[0] == a[0] && (a + b)[1..] == a[1..] + b;
      IRunsCompose(codec, IDo(codec, s, a[0]), a[1..], b);
    }
  }
}
