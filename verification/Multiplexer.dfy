/** The session as a concurrent step machine: many callers inside `send_command`, the
    reader task, the closer, the queue consumers and the transport they write to. One action is one lock acquisition,
    one channel operation or one completed await; every interleaving of enabled actions is
    a run.

    An inbound frame carries, for the statements only, the command it answers.
 */
module Multiplexer {
  import opened Protocol
  import opened Ledger

  datatype Inbound = Inbound(work: FrameWork, about: nat)
  {
    predicate Tagged() {
      work.Decoded? && work.frame.tag != 0
    }
  }

  /** `Holding`: between the `remove` in `dispatch` and what it does with the entry. */
  datatype ReaderMode = Idle | Holding(frame: Frame, about: nat) | Draining | Exited

  datatype CloserMode = Calm | FlagSet | Sending

  /** The two event queues: what waits in each, and what consumers have taken. */
  datatype Queues = Queues(
    rx: seq<RxPayload>, rxTaken: seq<RxPayload>, errs: seq<ClientError>, errsTaken: seq<ClientError>)

  /** `wire` is everything the device ever sent, `read` how much of it the reader has
      collected into batches, `cursor` how much it has dispatched. */
  datatype Streams = Streams(wire: seq<Inbound>, read: nat, cursor: nat, queues: Queues)

  /** What the transport does to the write or flush that is under way: lets it complete,
      keeps it waiting, or fails it. */
  datatype Transport = Flowing | Stalled | Broken

  /** The callers at the writer lock in order of arrival, the first of whom has it, and the
      transport behind it. The lock is granted strictly in that order. No timeout covers
      this part of `send_command`. */
  datatype Pipe = Pipe(line: seq<nat>, transport: Transport)

  /** `admitted`: callers past the closed check and still without a tag. */
  datatype State = State(
    ledger: Ledger,
    admitted: nat,
    mode: ReaderMode,
    closing: CloserMode,
    closed: bool,
    aborted: bool,
    pipe: Pipe,
    io: Streams)

  const INITIAL := State(EMPTY, 0, Idle, Calm, false, false, Pipe([], Flowing),
                         Streams([], 0, 0, Queues([], [], [], [])))

  datatype Action =
    // callers
    | CheckClosed | Alloc(cmd: CmdType, fits: bool) | Insert(c: nat)
    | Join(c: nat) | Deliver(c: nat) | WriteOk(c: nat) | WriteFail(c: nat, err: ClientError)
    | Receive(c: nat) | TimeOut(c: nat) | Remove(c: nat)
    // transport, device and reader
    | Turn(transport: Transport) | DeviceSend(m: Inbound) | Read(n: nat) | Take | Reinsert | Resolve
    | ExitTake | ReaderSend(t: u16) | ReaderDone | Cancel
    // closer
    | SetFlag | CloseTake | CloseSend(t: u16) | Abort
    // queue consumers
    | TakeRx | TakeErr

  /** A tagged frame answers a command that has been written, under that command's tag. */
  predicate MailOk(calls: seq<Call>, m: Inbound) {
    m.Tagged() ==> m.about < |calls| && calls[m.about].written && m.work.frame.tag == calls[m.about].tag
  }

  /** The reader holds the TX entry that an `OK` took out of the map. */
  predicate HoldsAck(s: State) {
    s.mode.Holding? && s.mode.frame.tag in s.ledger.reader
    && IsTxAck(s.ledger.reader[s.mode.frame.tag].cmd, s.mode.frame)
  }

  predicate HoldsFinal(s: State) {
    s.mode.Holding? && s.mode.frame.tag in s.ledger.reader
    && !IsTxAck(s.ledger.reader[s.mode.frame.tag].cmd, s.mode.frame)
  }

  /** c has the writer lock and is inside its write or flush. */
  predicate Writes(s: State, c: nat) {
    c < |s.ledger.calls| && s.ledger.calls[c].phase.Writing? && s.pipe.line != [] && s.pipe.line[0] == c
  }

  predicate Enabled(s: State, a: Action) {
    var calls := s.ledger.calls;
    match a
    case CheckClosed => !s.closed
    case Alloc(_, _) => s.admitted > 0
    case Insert(c) => c < |calls| && calls[c].phase.Allocated?
    case Join(c) => c < |calls| && calls[c].phase.Writing? && calls[c].fits && c !in s.pipe.line
    case Deliver(c) => Writes(s, c) && s.pipe.transport.Flowing? && !calls[c].written
    case WriteOk(c) => Writes(s, c) && s.pipe.transport.Flowing? && calls[c].written
    case WriteFail(c, e) =>
      || (e.EncodeFailed? && c < |calls| && calls[c].phase.Writing? && !calls[c].fits)
      || (e.Io? && Writes(s, c) && s.pipe.transport.Broken?)
    case Receive(c) => c < |calls| && calls[c].phase.Waiting? && calls[c].slot != Open
    case TimeOut(c) => c < |calls| && calls[c].phase.Waiting? && calls[c].slot == Open
    case Remove(c) => c < |calls| && calls[c].phase.Leaving?
    case Turn(_) => true
    case DeviceSend(m) => MailOk(calls, m)
    case Read(n) => s.mode.Idle? && s.io.read == s.io.cursor && s.io.read + n <= |s.io.wire|
    case Take => s.mode.Idle? && s.io.cursor < s.io.read <= |s.io.wire|
    case Reinsert => HoldsAck(s)
    case Resolve => HoldsFinal(s)
    case ExitTake => s.mode.Idle? && s.io.cursor == s.io.read
    case ReaderSend(t) => s.mode.Draining? && t in s.ledger.reader
    case ReaderDone => s.mode.Draining? && s.ledger.reader == map[]
    case Cancel => s.aborted && (s.mode.Idle? || HoldsAck(s))   // a task aborts at an await
    case SetFlag => s.closing.Calm?
    case CloseTake => s.closing.FlagSet?
    case CloseSend(t) => s.closing.Sending? && t in s.ledger.closer
    case Abort => s.closing.Sending? && s.ledger.closer == map[]
    case TakeRx => s.io.queues.rx != []
    case TakeErr => s.io.queues.errs != []
  }

  /** What a caller does once its one-shot has been used or dropped. */
  function OnReceive(slot: Slot): Phase {
    match slot
    case Sent(resp, _) => Answered(resp)
    case _ => Leaving(ReaderExited)
  }

  /** What a frame that concerns no command adds to the queues. */
  function Enqueue(codec: Codec, q: Queues, w: FrameWork): Queues {
    match w
    case Corrupt => q.(errs := q.errs + [CORRUPT_ERROR])
    case Decoded(f) => q.(rx := q.rx + AsyncRx(codec, f), errs := q.errs + AsyncErrs(codec, f))
  }

  function PopRx(q: Queues): Queues
    requires q.rx != []
  {
    q.(rx := q.rx[1..], rxTaken := q.rxTaken + [q.rx[0]])
  }

  function PopErr(q: Queues): Queues
    requires q.errs != []
  {
    q.(errs := q.errs[1..], errsTaken := q.errsTaken + [q.errs[0]])
  }

  /** The frame under the cursor enters `dispatch`: queues for tag 0, else its entry, if
      there is one, moves from the map to the reader's hand. */
  function DoTake(codec: Codec, s: State): State
    requires Enabled(s, Take)
  {
    var m := s.io.wire[s.io.cursor];
    var io := s.io.(cursor := s.io.cursor + 1);
    if !m.Tagged() then
      s.(io := io.(queues := Enqueue(codec, io.queues, m.work)))
    else if m.work.frame.tag in s.ledger.pending then
      s.(io := io, ledger := TakeOne(s.ledger, m.work.frame.tag), mode := Holding(m.work.frame, m.about))
    else
      s.(io := io)
  }

  function Do(codec: Codec, s: State, a: Action): State
    requires Enabled(s, a)
  {
    var l := s.ledger;
    match a
    case CheckClosed => s.(admitted := s.admitted + 1)
    case Alloc(cmd, fits) => s.(admitted := s.admitted - 1, ledger := New(l, cmd, fits))
    case Insert(c) => s.(ledger := File(l, c))
    case Join(c) => s.(pipe := s.pipe.(line := s.pipe.line + [c]))
    case Deliver(c) => s.(ledger := SetWritten(l, c))
    case WriteOk(c) => s.(ledger := SetPhase(l, c, Waiting), pipe := s.pipe.(line := s.pipe.line[1..]))
    case WriteFail(c, e) =>
      s.(ledger := SetPhase(l, c, Leaving(e)), pipe := if e.Io? then s.pipe.(line := s.pipe.line[1..]) else s.pipe)
    case Receive(c) => s.(ledger := SetPhase(l, c, OnReceive(l.calls[c].slot)))
    case TimeOut(c) => s.(ledger := SetPhase(l, c, Leaving(Timeout(l.calls[c].cmd))))
    case Remove(c) => s.(ledger := SetPhase(Discard(l, l.calls[c].tag), c, Failed(l.calls[c].phase.err)))
    case Turn(transport) => s.(pipe := s.pipe.(transport := transport))
    case DeviceSend(m) => s.(io := s.io.(wire := s.io.wire + [m]))
    case Read(n) => s.(io := s.io.(read := s.io.read + n))
    case Take => DoTake(codec, s)
    case Reinsert => s.(ledger := PutBack(l, s.mode.frame.tag), mode := Idle)
    case Resolve =>
      var Holding(f, about) := s.mode;
      s.(ledger := ReaderUses(l, f.tag, Sent(Answer(codec, l.reader[f.tag].cmd, f), FromFrame(about, f))),
         mode := Idle)
    case ExitTake => s.(ledger := AllToReader(l), mode := Draining)
    case ReaderSend(t) => s.(ledger := ReaderUses(l, t, Sent(ErrMsg(CLOSED_BY_READER), Teardown)))
    case ReaderDone => s.(mode := Exited)
    case Cancel =>
      s.(ledger := if s.mode.Holding? then ReaderUses(l, s.mode.frame.tag, Dropped) else l, mode := Exited)
    case SetFlag => s.(closed := true, closing := FlagSet)
    case CloseTake => s.(ledger := AllToCloser(l), closing := Sending)
    case CloseSend(t) => s.(ledger := CloserUses(l, t, Sent(ErrMsg(CLOSED_BY_CLOSE), Teardown)))
    case Abort => s.(aborted := true, closing := Calm)
    case TakeRx => s.(io := s.io.(queues := PopRx(s.io.queues)))
    case TakeErr => s.(io := s.io.(queues := PopErr(s.io.queues)))
  }

  // ---------------------------------------------------------------- runs

  predicate ValidRun(codec: Codec, s: State, acts: seq<Action>)
    decreases |acts|
  {
    acts == [] || (Enabled(s, acts[0]) && ValidRun(codec, Do(codec, s, acts[0]), acts[1..]))
  }

  function After(codec: Codec, s: State, acts: seq<Action>): State
    requires ValidRun(codec, s, acts)
    decreases |acts|
  {
    if acts == [] then s else After(codec, Do(codec, s, acts[0]), acts[1..])
  }

  lemma {:induction false} RunsCompose(codec: Codec, s: State, a: seq<Action>, b: seq<Action>)
    requires ValidRun(codec, s, a) && ValidRun(codec, After(codec, s, a), b)
    ensures ValidRun(codec, s, a + b) && After(codec, s, a + b) == After(codec, After(codec, s, a), b)
    decreases |a|
  {
    if a == [] {
      assert a + b == b;
    } else {
      assert (a + b)[0] == a[0] && (a + b)[1..] == a[1..] + b;
      RunsCompose(codec, Do(codec, s, a[0]), a[1..], b);
    }
  }

  /** Extend a run from `start`, which has reached s, by one action. */
  lemma Then(codec: Codec, start: State, acts: seq<Action>, s: State, a: Action)
      returns (longer: seq<Action>, next: State)
    requires ValidRun(codec, start, acts) && After(codec, start, acts) == s && Enabled(s, a)
    ensures longer == acts + [a] && next == Do(codec, s, a)
    ensures ValidRun(codec, start, longer) && After(codec, start, longer) == next
  {
    assert [a][1..] == [];
    RunsCompose(codec, start, acts, [a]);
    longer, next := acts + [a], Do(codec, s, a);
  }

  // ---------------------------------------------------------------- the invariant of every run

  /** Each task's hand is empty unless the task is in the phase that uses it. */
  ghost predicate HandsOk(s: State) {
    && (s.mode.Holding? ==> s.ledger.reader.Keys == {s.mode.frame.tag} && s.mode.frame.tag != 0)
    && (s.mode.Idle? || s.mode.Exited? ==> s.ledger.reader == map[])
    && (!s.closing.Sending? ==> s.ledger.closer == map[])
  }

  ghost predicate WireOk(s: State) {
    && s.io.cursor <= s.io.read <= |s.io.wire|
    && (forall i :: 0 <= i < |s.io.wire| ==> MailOk(s.ledger.calls, s.io.wire[i]))
    && (s.mode.Holding? ==> MailOk(s.ledger.calls, Inbound(Decoded(s.mode.frame), s.mode.about)))
  }

  ghost predicate Inv(s: State) {
    Valid(s.ledger) && HandsOk(s) && WireOk(s)
  }

  lemma LedgerStep(codec: Codec, s: State, a: Action)
    requires Valid(s.ledger) && HandsOk(s) && Enabled(s, a)
    ensures Valid(Do(codec, s, a).ledger)
  {
    var l := s.ledger;
    match a
    case Alloc(cmd, fits) => NewValid(l, cmd, fits);
    case Insert(c) => FileValid(l, c);
    case Deliver(c) => SetWrittenValid(l, c);
    case WriteOk(c) => SetPhaseValid(l, c, Waiting);
    case WriteFail(c, e) => SetPhaseValid(l, c, Leaving(e));
    case Receive(c) => SetPhaseValid(l, c, OnReceive(l.calls[c].slot));
    case TimeOut(c) => SetPhaseValid(l, c, Leaving(Timeout(l.calls[c].cmd)));
    case Remove(c) =>
      DiscardValid(l, l.calls[c].tag);
      SetPhaseValid(Discard(l, l.calls[c].tag), c, Failed(l.calls[c].phase.err));
    case Take =>
      var m := s.io.wire[s.io.cursor];
      if m.Tagged() && m.work.frame.tag in l.pending {
        TakeOneValid(l, m.work.frame.tag);
      }
    case Reinsert => PutBackValid(l, s.mode.frame.tag);
    case Resolve =>
      var f := s.mode.frame;
      ReaderUsesValid(l, f.tag, Sent(Answer(codec, l.reader[f.tag].cmd, f), FromFrame(s.mode.about, f)));
    case ExitTake => AllToReaderValid(l);
    case ReaderSend(t) => ReaderUsesValid(l, t, Sent(ErrMsg(CLOSED_BY_READER), Teardown));
    case Cancel =>
      if s.mode.Holding? {
        ReaderUsesValid(l, s.mode.frame.tag, Dropped);
      }
    case CloseTake => AllToCloserValid(l);
    case CloseSend(t) => CloserUsesValid(l, t, Sent(ErrMsg(CLOSED_BY_CLOSE), Teardown));
    case _ =>
  }

  /** An action of a caller, or of the transport under its write. */
  predicate OfCaller(a: Action) {
    a.CheckClosed? || a.Alloc? || a.Insert? || a.Join? || a.Deliver? || a.WriteOk? || a.WriteFail?
    || a.Receive? || a.TimeOut? || a.Remove? || a.Turn?
  }

  /** Callers touch neither the tasks nor their hands nor what is read. */
  lemma CallerKeepsTasks(codec: Codec, s: State, a: Action)
    requires Enabled(s, a) && OfCaller(a)
    ensures var s' := Do(codec, s, a);
            && s'.mode == s.mode && s'.closing == s.closing && s'.io == s.io
            && s'.ledger.reader == s.ledger.reader && s'.ledger.closer == s.ledger.closer
  {
  }

  lemma HandsStep(codec: Codec, s: State, a: Action)
    requires HandsOk(s) && Enabled(s, a)
    ensures HandsOk(Do(codec, s, a))
  {
    if OfCaller(a) {
      CallerKeepsTasks(codec, s, a);
    } else if a.Resolve? || a.Cancel? {
      assert s.mode.Holding? ==> s.ledger.reader - {s.mode.frame.tag} == map[];
    }
  }

  lemma CallerExtends(codec: Codec, s: State, a: Action)
    requires Enabled(s, a) && OfCaller(a)
    ensures Extends(s.ledger.calls, Do(codec, s, a).ledger.calls)
  {
    var l := s.ledger;
    match a
    case Insert(c) => FileExtends(l, c);
    case WriteOk(c) => SetPhaseExtends(l, c, Waiting);
    case WriteFail(c, e) => SetPhaseExtends(l, c, Leaving(e));
    case Receive(c) => SetPhaseExtends(l, c, OnReceive(l.calls[c].slot));
    case TimeOut(c) => SetPhaseExtends(l, c, Leaving(Timeout(l.calls[c].cmd)));
    case Remove(c) => WithdrawExtends(l, c);
    case _ =>
  }

  lemma TaskExtends(codec: Codec, s: State, a: Action)
    requires Enabled(s, a) && !OfCaller(a)
    ensures Extends(s.ledger.calls, Do(codec, s, a).ledger.calls)
  {
    var l := s.ledger;
    match a
    case Reinsert => DropAtExtends(l.calls, l.pending, s.mode.frame.tag);
    case Resolve =>
      var f := s.mode.frame;
      SettleExtends(l.calls, l.reader[f.tag].waker,
                    Sent(Answer(codec, l.reader[f.tag].cmd, f), FromFrame(s.mode.about, f)));
    case ReaderSend(t) => SettleExtends(l.calls, l.reader[t].waker, Sent(ErrMsg(CLOSED_BY_READER), Teardown));
    case Cancel =>
      if s.mode.Holding? {
        SettleExtends(l.calls, l.reader[s.mode.frame.tag].waker, Dropped);
      }
    case CloseSend(t) => SettleExtends(l.calls, l.closer[t].waker, Sent(ErrMsg(CLOSED_BY_CLOSE), Teardown));
    case _ =>
  }

  lemma StepExtends(codec: Codec, s: State, a: Action)
    requires Enabled(s, a)
    ensures Extends(s.ledger.calls, Do(codec, s, a).ledger.calls)
  {
    if OfCaller(a) {
      CallerExtends(codec, s, a);
    } else {
      TaskExtends(codec, s, a);
    }
  }

  lemma WireStep(codec: Codec, s: State, a: Action)
    requires WireOk(s) && Enabled(s, a)
    ensures WireOk(Do(codec, s, a))
  {
    StepExtends(codec, s, a);
    if OfCaller(a) {
      CallerKeepsTasks(codec, s, a);
    }
  }

  lemma InvStep(codec: Codec, s: State, a: Action)
    requires Inv(s) && Enabled(s, a)
    ensures Inv(Do(codec, s, a))
  {
    LedgerStep(codec, s, a);
    HandsStep(codec, s, a);
    WireStep(codec, s, a);
  }

  lemma {:induction false} InvRun(codec: Codec, s: State, acts: seq<Action>)
    requires Inv(s) && ValidRun(codec, s, acts)
    ensures Inv(After(codec, s, acts))
    decreases |acts|
  {
    if acts != [] {
      InvStep(codec, s, acts[0]);
      InvRun(codec, Do(codec, s, acts[0]), acts[1..]);
    }
  }

  lemma InvInitial()
    ensures Inv(INITIAL)
  {
  }
}
