/** The tagged session refines the ideal one, as long as no tag comes round again while
    something that carries it is still alive.
 */
module Refinement {
  import opened Protocol
  import opened Tags
  import opened Dispatch
  import opened Ledger
  import opened Multiplexer
  import I = Ideal

  // ---------------------------------------------------------------- the window hypothesis

  predicate InFlight(s: State, c: nat) {
    exists i :: s.io.cursor <= i < |s.io.wire| && s.io.wire[i].Tagged() && s.io.wire[i].about == c
  }

  predicate WithReaderNow(s: State, c: nat)
    requires c < |s.ledger.calls|
  {
    s.mode.Holding? && (s.mode.about == c || Holds(s.ledger.reader, s.ledger.calls, c))
  }

  /** c's caller has not returned, or a frame answering c is in flight, or the reader is
      between the remove and the re-insert or resolve of c's entry. */
  predicate Alive(s: State, c: nat)
    requires c < |s.ledger.calls|
  {
    !s.ledger.calls[c].phase.Returned() || InFlight(s, c) || WithReaderNow(s, c)
  }

  /** Fewer than w tags have been allocated after any command that is alive. */
  ghost predicate Within(s: State, w: nat) {
    forall c :: 0 <= c < |s.ledger.calls| && Alive(s, c) ==> |s.ledger.calls| - 1 - c < w
  }

  /** Every state in which an action of the run happens is within w. */
  ghost predicate WithinRun(codec: Codec, s: State, acts: seq<Action>, w: nat)
    requires ValidRun(codec, s, acts)
    decreases |acts|
  {
    acts == [] || (Within(s, w) && WithinRun(codec, Do(codec, s, acts[0]), acts[1..], w))
  }

  /** Fewer than 65535 tags have been allocated after c. */
  predicate Recent(s: State, c: nat) {
    |s.ledger.calls| - 1 - c < PERIOD
  }

  ghost predicate Window(s: State) {
    Within(s, PERIOD)
  }

  ghost predicate Windowed(codec: Codec, s: State, acts: seq<Action>)
    requires ValidRun(codec, s, acts)
  {
    WithinRun(codec, s, acts, PERIOD)
  }

  // ---------------------------------------------------------------- what the window buys

  /** An entry in the map is never older than an inserted command with the same tag. */
  ghost predicate NewestFiled(l: Ledger) {
    forall c :: 0 <= c < |l.calls| && !l.calls[c].phase.Allocated? && l.calls[c].tag in l.pending ==>
      c <= l.pending[l.calls[c].tag].waker
  }

  /** The frame the reader is dispatching answers the command whose sender it holds. */
  ghost predicate Matched(s: State) {
    s.mode.Holding? ==> s.mode.frame.tag in s.ledger.reader && s.ledger.reader[s.mode.frame.tag].waker == s.mode.about
  }

  lemma SameTag(l: Ledger, c: nat, d: nat)
    requires CallsOk(l.calls) && c <= d < |l.calls| && l.calls[c].tag == l.calls[d].tag
    requires |l.calls| - 1 - c < PERIOD
    ensures c == d
  {
    assert CallOk(c, l.calls[c]) && CallOk(d, l.calls[d]);
    WindowDistinct(c, d);
  }

  /** An entry found at the tag of a recent command is that command's. */
  lemma FiledIsOwn(s: State, c: nat)
    requires Inv(s) && NewestFiled(s.ledger)
    requires c < |s.ledger.calls| && Recent(s, c) && !s.ledger.calls[c].phase.Allocated?
    requires s.ledger.calls[c].tag in s.ledger.pending
    ensures s.ledger.pending[s.ledger.calls[c].tag].waker == c
  {
    var e := s.ledger.pending[s.ledger.calls[c].tag];
    assert EntryOk(s.ledger.calls, s.ledger.calls[c].tag, e);
    SameTag(s.ledger, c, e.waker);
  }

  lemma TakenIsOwn(s: State)
    requires Inv(s) && Window(s) && NewestFiled(s.ledger) && Enabled(s, Take)
    requires s.io.wire[s.io.cursor].Tagged()
    ensures var m := s.io.wire[s.io.cursor];
            && m.about < |s.ledger.calls| && s.ledger.calls[m.about].tag == m.work.frame.tag
            && !s.ledger.calls[m.about].phase.Allocated?
            && (m.work.frame.tag in s.ledger.pending ==> s.ledger.pending[m.work.frame.tag].waker == m.about)
  {
    var m := s.io.wire[s.io.cursor];
    assert MailOk(s.ledger.calls, m) && CallOk(m.about, s.ledger.calls[m.about]);
    assert InFlight(s, m.about);
    assert Alive(s, m.about);
    if m.work.frame.tag in s.ledger.pending {
      FiledIsOwn(s, m.about);
    }
  }

  /** The reader's hand is recent, so its tag in the map is free when it re-inserts. */
  lemma HeldIsOwn(s: State)
    requires Inv(s) && Window(s) && NewestFiled(s.ledger) && s.mode.Holding?
    ensures var t := s.mode.frame.tag;
            && t in s.ledger.reader && t !in s.ledger.pending
            && var w := s.ledger.reader[t].waker;
               && w < |s.ledger.calls| && s.ledger.calls[w].tag == t && s.ledger.calls[w].cmd == s.ledger.reader[t].cmd
               && !s.ledger.calls[w].phase.Allocated? && Recent(s, w)
  {
    var t := s.mode.frame.tag;
    assert t in s.ledger.reader.Keys;
    var w := s.ledger.reader[t].waker;
    assert EntryOk(s.ledger.calls, t, s.ledger.reader[t]);
    assert WithReaderNow(s, w) && Alive(s, w);
    assert Places(s.ledger, w) == 1;
    if t in s.ledger.pending {
      FiledIsOwn(s, w);
    }
  }

  /** The caller's own tag holds its own entry or nothing when it comes to remove it. */
  lemma RemovedIsOwn(s: State, c: nat)
    requires Inv(s) && Window(s) && NewestFiled(s.ledger) && Enabled(s, Remove(c))
    ensures s.ledger.calls[c].tag in s.ledger.pending ==> s.ledger.pending[s.ledger.calls[c].tag].waker == c
  {
    assert Alive(s, c);
    if s.ledger.calls[c].tag in s.ledger.pending {
      FiledIsOwn(s, c);
    }
  }

  lemma NewestFiledInsert(s: State, c: nat)
    requires Inv(s) && Window(s) && NewestFiled(s.ledger) && Enabled(s, Insert(c))
    ensures NewestFiled(File(s.ledger, c))
  {
    var l, l' := s.ledger, File(s.ledger, c);
    FileExtends(l, c);
    assert Alive(s, c);
    forall d | 0 <= d < |l'.calls| && !l'.calls[d].phase.Allocated? && l'.calls[d].tag in l'.pending
      ensures d <= l'.pending[l'.calls[d].tag].waker
    {
      if l.calls[d].tag == l.calls[c].tag && d > c {
        SameTag(l, c, d);
      }
    }
  }

  lemma NewestFiledReinsert(s: State)
    requires Inv(s) && Window(s) && NewestFiled(s.ledger) && Enabled(s, Reinsert)
    ensures NewestFiled(PutBack(s.ledger, s.mode.frame.tag))
  {
    var l := s.ledger;
    var t := s.mode.frame.tag;
    var l' := PutBack(l, t);
    HeldIsOwn(s);
    var w := l.reader[t].waker;
    forall d | 0 <= d < |l'.calls| && !l'.calls[d].phase.Allocated? && l'.calls[d].tag in l'.pending
      ensures d <= l'.pending[l'.calls[d].tag].waker
    {
      if l.calls[d].tag == t && d > w {
        SameTag(l, w, d);
      }
    }
  }

  lemma DiscardShrinks(l: Ledger, t: u16)
    requires NewestFiled(l)
    ensures NewestFiled(Discard(l, t))
  {
  }

  lemma SettleKeepsNewest(l: Ledger, l': Ledger, w: nat, slot: Slot)
    requires NewestFiled(l) && l'.calls == Settle(l.calls, w, slot) && l'.pending == l.pending
    ensures NewestFiled(l')
  {
  }

  lemma PhaseKeepsNewest(l: Ledger, c: nat, p: Phase)
    requires NewestFiled(l) && c < |l.calls| && !l.calls[c].phase.Allocated?
    ensures NewestFiled(SetPhase(l, c, p))
  {
  }

  lemma NewestFiledCaller(codec: Codec, s: State, a: Action)
    requires Inv(s) && Window(s) && NewestFiled(s.ledger) && Enabled(s, a)
    requires a.Insert? || a.WriteOk? || a.WriteFail? || a.Receive? || a.TimeOut? || a.Remove?
    ensures NewestFiled(Do(codec, s, a).ledger)
  {
    var l := s.ledger;
    match a
    case Insert(c) => NewestFiledInsert(s, c);
    case WriteOk(c) => PhaseKeepsNewest(l, c, Waiting);
    case WriteFail(c, e) => PhaseKeepsNewest(l, c, Leaving(e));
    case Receive(c) => PhaseKeepsNewest(l, c, OnReceive(l.calls[c].slot));
    case TimeOut(c) => PhaseKeepsNewest(l, c, Leaving(Timeout(l.calls[c].cmd)));
    case Remove(c) =>
      DiscardShrinks(l, l.calls[c].tag);
      PhaseKeepsNewest(Discard(l, l.calls[c].tag), c, Failed(l.calls[c].phase.err));
  }

  lemma NewestFiledTask(codec: Codec, s: State, a: Action)
    requires Inv(s) && Window(s) && NewestFiled(s.ledger) && Enabled(s, a)
    requires a.Reinsert? || a.Resolve? || a.ReaderSend? || a.Cancel? || a.CloseSend?
    ensures NewestFiled(Do(codec, s, a).ledger)
  {
    var l, l' := s.ledger, Do(codec, s, a).ledger;
    match a
    case Reinsert => NewestFiledReinsert(s);
    case Resolve =>
      var f := s.mode.frame;
      SettleKeepsNewest(l, l', l.reader[f.tag].waker,
                        Sent(Answer(codec, l.reader[f.tag].cmd, f), FromFrame(s.mode.about, f)));
    case ReaderSend(t) => SettleKeepsNewest(l, l', l.reader[t].waker, Sent(ErrMsg(CLOSED_BY_READER), Teardown));
    case Cancel =>
      if s.mode.Holding? {
        SettleKeepsNewest(l, l', l.reader[s.mode.frame.tag].waker, Dropped);
      }
    case CloseSend(t) => SettleKeepsNewest(l, l', l.closer[t].waker, Sent(ErrMsg(CLOSED_BY_CLOSE), Teardown));
  }

  lemma NewestFiledStep(codec: Codec, s: State, a: Action)
    requires Inv(s) && Window(s) && NewestFiled(s.ledger) && Enabled(s, a)
    ensures NewestFiled(Do(codec, s, a).ledger)
  {
    if a.Insert? || a.WriteOk? || a.WriteFail? || a.Receive? || a.TimeOut? || a.Remove? {
      NewestFiledCaller(codec, s, a);
    } else if a.Reinsert? || a.Resolve? || a.ReaderSend? || a.Cancel? || a.CloseSend? {
      NewestFiledTask(codec, s, a);
    }
  }

  lemma MatchedStep(codec: Codec, s: State, a: Action)
    requires Inv(s) && Window(s) && NewestFiled(s.ledger) && Matched(s) && Enabled(s, a)
    ensures Matched(Do(codec, s, a))
  {
    if a.Take? && s.io.wire[s.io.cursor].Tagged() {
      TakenIsOwn(s);
    }
  }

  // ---------------------------------------------------------------- the abstraction

  function PlaceOf(l: Ledger, c: nat): I.Place
    requires c < |l.calls|
  {
    if l.calls[c].slot != Open then I.Gone(l.calls[c].slot)
    else if l.calls[c].phase.Allocated? then I.AtCaller
    else if Holds(l.pending, l.calls, c) then I.Outstanding
    else if Holds(l.reader, l.calls, c) then I.WithReader
    else I.WithCloser
  }

  function AbsCall(l: Ledger, c: nat): I.ICall
    requires c < |l.calls|
  {
    I.ICall(l.calls[c].cmd, l.calls[c].phase, l.calls[c].written, PlaceOf(l, c))
  }

  function AbsCalls(l: Ledger): (r: seq<I.ICall>)
    ensures |r| == |l.calls| && forall c :: 0 <= c < |r| ==> r[c] == AbsCall(l, c)
  {
    seq(|l.calls|, c requires 0 <= c < |l.calls| => AbsCall(l, c))
  }

  function AbsMail(m: Inbound): I.Mail {
    if m.Tagged() then I.To(m.about, m.work.frame) else I.Async(m.work)
  }

  function AbsWire(wire: seq<Inbound>): (r: seq<I.Mail>)
    ensures |r| == |wire| && forall i :: 0 <= i < |r| ==> r[i] == AbsMail(wire[i])
  {
    seq(|wire|, i requires 0 <= i < |wire| => AbsMail(wire[i]))
  }

  function AbsMode(s: State): I.IMode {
    match s.mode
    case Idle => I.Idle
    case Holding(f, about) => I.Serving(about, f)
    case Draining => I.Draining
    case Exited => I.Exited
  }

  function Abs(s: State): I.IState {
    I.IState(AbsCalls(s.ledger), s.admitted, AbsMode(s), s.closing, s.closed, s.aborted,
             AbsWire(s.io.wire), s.io.read, s.io.cursor, s.io.queues)
  }

  // ---------------------------------------------------------------- ledger operations, abstractly

  lemma AbsNew(l: Ledger, cmd: CmdType, fits: bool)
    requires Valid(l)
    ensures AbsCalls(New(l, cmd, fits)) == AbsCalls(l) + [I.ICall(cmd, Allocated, false, I.AtCaller)]
  {
  }

  lemma AbsSetPhase(l: Ledger, c: nat, p: Phase)
    requires Valid(l) && c < |l.calls| && !l.calls[c].phase.Allocated? && !p.Allocated?
    ensures AbsCalls(SetPhase(l, c, p)) == I.Phased(AbsCalls(l), c, p)
  {
  }

  lemma AbsSetWritten(l: Ledger, c: nat)
    requires Valid(l) && c < |l.calls|
    ensures var a := AbsCalls(l); AbsCalls(SetWritten(l, c)) == a[c := a[c].(written := true)]
  {
  }

  /** Discarding an entry strikes its owner off and nobody else. */
  lemma AbsDiscard(l: Ledger, t: u16)
    requires Valid(l)
    ensures t !in l.pending ==> AbsCalls(Discard(l, t)) == AbsCalls(l)
    ensures t in l.pending ==>
      var w := l.pending[t].waker;
      && w < |l.calls| && AbsCall(l, w).place == I.Outstanding
      && AbsCalls(Discard(l, t)) == I.Move(AbsCalls(l), w, I.Gone(Dropped))
  {
    var l' := Discard(l, t);
    if t in l.pending {
      var w := l.pending[t].waker;
      assert EntryOk(l.calls, t, l.pending[t]);
      assert Places(l, w) == 1;
      forall d | 0 <= d < |l.calls|
        ensures AbsCall(l', d) == I.Move(AbsCalls(l), w, I.Gone(Dropped))[d]
      {
        assert Places(l, d) == 1;
      }
    } else {
      assert l'.pending == l.pending;
    }
  }

  lemma AbsInsert(l: Ledger, c: nat)
    requires Valid(l) && c < |l.calls| && l.calls[c].phase.Allocated? && l.calls[c].tag !in l.pending
    ensures AbsCalls(SetPhase(l.(pending := l.pending[l.calls[c].tag := Entry(l.calls[c].cmd, c)]), c, Writing))
            == I.Phased(I.Move(AbsCalls(l), c, I.Outstanding), c, Writing)
  {
    var l' := SetPhase(l.(pending := l.pending[l.calls[c].tag := Entry(l.calls[c].cmd, c)]), c, Writing);
    assert Places(l, c) == 1;
    forall d | 0 <= d < |l.calls|
      ensures AbsCall(l', d) == I.Phased(I.Move(AbsCalls(l), c, I.Outstanding), c, Writing)[d]
    {
      assert Places(l, d) == 1;
    }
  }

  lemma AbsTakeOne(l: Ledger, t: u16)
    requires Valid(l) && t in l.pending && l.reader == map[]
    ensures var w := l.pending[t].waker;
            && w < |l.calls| && AbsCall(l, w).place == I.Outstanding
            && AbsCalls(TakeOne(l, t)) == I.Move(AbsCalls(l), w, I.WithReader)
  {
    var l', w := TakeOne(l, t), l.pending[t].waker;
    assert EntryOk(l.calls, t, l.pending[t]);
    assert Places(l, w) == 1;
    forall d | 0 <= d < |l.calls|
      ensures AbsCall(l', d) == I.Move(AbsCalls(l), w, I.WithReader)[d]
    {
      assert Places(l, d) == 1;
    }
  }

  lemma AbsPutBack(l: Ledger, t: u16)
    requires Valid(l) && l.reader.Keys == {t} && t !in l.pending
    ensures var w := l.reader[t].waker;
            && w < |l.calls|
            && AbsCalls(PutBack(l, t)) == I.Move(AbsCalls(l), w, I.Outstanding)
  {
    var l', w := PutBack(l, t), l.reader[t].waker;
    assert EntryOk(l.calls, t, l.reader[t]);
    forall d | 0 <= d < |l.calls|
      ensures AbsCall(l', d) == I.Move(AbsCalls(l), w, I.Outstanding)[d]
    {
      assert Places(l, d) == 1;
    }
  }

  lemma AbsAllToReader(l: Ledger)
    requires Valid(l) && l.reader == map[]
    ensures AbsCalls(AllToReader(l)) == I.Collect(AbsCalls(l), I.WithReader)
  {
    forall d | 0 <= d < |l.calls|
      ensures AbsCall(AllToReader(l), d) == I.Collect(AbsCalls(l), I.WithReader)[d]
    {
      assert Places(l, d) == 1;
    }
  }

  lemma AbsAllToCloser(l: Ledger)
    requires Valid(l) && l.closer == map[]
    ensures AbsCalls(AllToCloser(l)) == I.Collect(AbsCalls(l), I.WithCloser)
  {
    forall d | 0 <= d < |l.calls|
      ensures AbsCall(AllToCloser(l), d) == I.Collect(AbsCalls(l), I.WithCloser)[d]
    {
      assert Places(l, d) == 1;
    }
  }

  lemma AbsReaderUses(l: Ledger, t: u16, slot: Slot)
    requires Valid(l) && t in l.reader && slot != Open
    ensures var w := l.reader[t].waker;
            && w < |l.calls| && AbsCall(l, w).place == I.WithReader
            && AbsCalls(ReaderUses(l, t, slot)) == I.Move(AbsCalls(l), w, I.Gone(slot))
  {
    var l', w := ReaderUses(l, t, slot), l.reader[t].waker;
    assert EntryOk(l.calls, t, l.reader[t]);
    assert Places(l, w) == 1;
    forall d | 0 <= d < |l.calls|
      ensures AbsCall(l', d) == I.Move(AbsCalls(l), w, I.Gone(slot))[d]
    {
      assert Places(l, d) == 1;
    }
  }

  lemma AbsCloserUses(l: Ledger, t: u16, slot: Slot)
    requires Valid(l) && t in l.closer && slot != Open
    ensures var w := l.closer[t].waker;
            && w < |l.calls| && AbsCall(l, w).place == I.WithCloser
            && AbsCalls(CloserUses(l, t, slot)) == I.Move(AbsCalls(l), w, I.Gone(slot))
  {
    var l', w := CloserUses(l, t, slot), l.closer[t].waker;
    assert EntryOk(l.calls, t, l.closer[t]);
    assert Places(l, w) == 1;
    forall d | 0 <= d < |l.calls|
      ensures AbsCall(l', d) == I.Move(AbsCalls(l), w, I.Gone(slot))[d]
    {
      assert Places(l, d) == 1;
    }
  }

  // ---------------------------------------------------------------- simulation

  /** The ideal steps that match a step of the tagged session: one, except that an insert
      which overwrites a departed command's entry first forgets that command, and taking the
      writer lock, or a turn of the transport, is none. */
  function Matching(s: State, a: Action): seq<I.IAction>
    requires Enabled(s, a)
  {
    var l := s.ledger;
    match a
    case CheckClosed => [I.Admit]
    case Alloc(cmd, _) => [I.Begin(cmd)]
    case Insert(c) =>
      if l.calls[c].tag in l.pending then [I.Forget(l.pending[l.calls[c].tag].waker), I.File(c)] else [I.File(c)]
    case Join(_) => []           // the ideal session has no writer lock
    case Deliver(c) => [I.Deliver(c)]
    case WriteOk(c) => [I.WriteOk(c)]
    case WriteFail(c, e) => [I.WriteFail(c, e)]
    case Receive(c) => [I.Receive(c)]
    case TimeOut(c) => [I.TimeOut(c)]
    case Remove(c) => [I.Withdraw(c)]
    case Turn(_) => []
    case DeviceSend(m) => [I.Post(AbsMail(m))]
    case Read(n) => [I.ReadMail(n)]
    case Take => [I.Open]
    case Reinsert => [I.PutBack]
    case Resolve => [I.Resolve]
    case ExitTake => [I.CollectAll]
    case ReaderSend(t) => [I.ReaderSend(l.reader[t].waker)]
    case ReaderDone => [I.ReaderDone]
    case Cancel => [I.Cancel]
    case SetFlag => [I.SetFlag]
    case CloseTake => [I.CloserCollects]
    case CloseSend(t) => [I.CloseSend(l.closer[t].waker)]
    case Abort => [I.Abort]
    case TakeRx => [I.TakeRx]
    case TakeErr => [I.TakeErr]
  }

  ghost predicate Good(s: State) {
    Inv(s) && NewestFiled(s.ledger) && Matched(s)
  }

  ghost predicate Simulated(codec: Codec, s: State, a: Action)
    requires Enabled(s, a)
  {
    && I.IValidRun(codec, Abs(s), Matching(s, a))
    && I.IAfter(codec, Abs(s), Matching(s, a)) == Abs(Do(codec, s, a))
  }

  lemma OneStep(codec: Codec, s: I.IState, a: I.IAction)
    requires I.IEnabled(s, a)
    ensures I.IValidRun(codec, s, [a]) && I.IAfter(codec, s, [a]) == I.IDo(codec, s, a)
  {
    assert [a][1..] == [];
  }

  lemma SimInsert(codec: Codec, s: State, c: nat)
    requires Good(s) && Window(s) && Enabled(s, Insert(c))
    ensures Simulated(codec, s, Insert(c))
  {
    var l := s.ledger;
    var t := l.calls[c].tag;
    var room := Discard(l, t);
    assert Places(l, c) == 1;
    AbsDiscard(l, t);
    DiscardValid(l, t);
    assert room.calls[c] == l.calls[c];
    AbsInsert(room, c);
    var mid := Abs(s).(calls := AbsCalls(room));
    if t in l.pending {
      var w := l.pending[t].waker;
      assert EntryOk(l.calls, t, l.pending[t]);
      assert Alive(s, c);
      if !l.calls[w].phase.Returned() {
        assert Alive(s, w);
        if w < c { SameTag(l, w, c); } else { SameTag(l, c, w); }
      }
      assert I.IDo(codec, Abs(s), I.Forget(w)) == mid;
      OneStep(codec, Abs(s), I.Forget(w));
      OneStep(codec, mid, I.File(c));
      I.IRunsCompose(codec, Abs(s), [I.Forget(w)], [I.File(c)]);
    } else {
      OneStep(codec, mid, I.File(c));
    }
  }

  lemma SimRemove(codec: Codec, s: State, c: nat)
    requires Good(s) && Window(s) && Enabled(s, Remove(c))
    ensures Simulated(codec, s, Remove(c))
  {
    var l := s.ledger;
    var t := l.calls[c].tag;
    RemovedIsOwn(s, c);
    AbsDiscard(l, t);
    DiscardValid(l, t);
    AbsSetPhase(Discard(l, t), c, Failed(l.calls[c].phase.err));
    assert Places(l, c) == 1;
    OneStep(codec, Abs(s), I.Withdraw(c));
  }

  lemma SimBegin(codec: Codec, s: State, a: Action)
    requires Good(s) && Enabled(s, a)
    requires a.Alloc? || a.Deliver? || a.WriteOk?
    ensures Simulated(codec, s, a)
  {
    match a {
      case Alloc(cmd, fits) => AbsNew(s.ledger, cmd, fits);
      case Deliver(c) => AbsSetWritten(s.ledger, c);
      case WriteOk(c) => AbsSetPhase(s.ledger, c, Waiting);
    }
    OneStep(codec, Abs(s), Matching(s, a)[0]);
  }

  lemma SimEnd(codec: Codec, s: State, a: Action)
    requires Good(s) && Enabled(s, a)
    requires a.WriteFail? || a.Receive? || a.TimeOut?
    ensures Simulated(codec, s, a)
  {
    var l := s.ledger;
    match a {
      case WriteFail(c, e) => AbsSetPhase(l, c, Leaving(e));
      case Receive(c) => AbsSetPhase(l, c, OnReceive(l.calls[c].slot));
      case TimeOut(c) => AbsSetPhase(l, c, Leaving(Timeout(l.calls[c].cmd)));
    }
    OneStep(codec, Abs(s), Matching(s, a)[0]);
  }

  lemma SimTake(codec: Codec, s: State)
    requires Good(s) && Window(s) && Enabled(s, Take)
    ensures Simulated(codec, s, Take)
  {
    var l, m := s.ledger, s.io.wire[s.io.cursor];
    if m.Tagged() {
      TakenIsOwn(s);
      if m.work.frame.tag in l.pending {
        AbsTakeOne(l, m.work.frame.tag);
      } else {
        assert Places(l, m.about) == 1;
      }
    }
    OneStep(codec, Abs(s), I.Open);
  }

  lemma SimHeld(codec: Codec, s: State, a: Action)
    requires Good(s) && Window(s) && Enabled(s, a) && s.mode.Holding?
    requires a.Reinsert? || a.Resolve? || a.Cancel?
    ensures Simulated(codec, s, a)
  {
    var l, f := s.ledger, s.mode.frame;
    HeldIsOwn(s);
    match a {
      case Reinsert => AbsPutBack(l, f.tag);
      case Resolve =>
        AbsReaderUses(l, f.tag, Sent(Answer(codec, l.reader[f.tag].cmd, f), FromFrame(s.mode.about, f)));
      case Cancel => AbsReaderUses(l, f.tag, Dropped);
    }
    OneStep(codec, Abs(s), Matching(s, a)[0]);
  }

  lemma SimReaderDrain(codec: Codec, s: State, a: Action)
    requires Good(s) && Enabled(s, a)
    requires a.ExitTake? || a.ReaderSend? || a.ReaderDone?
    ensures Simulated(codec, s, a)
  {
    match a {
      case ExitTake => AbsAllToReader(s.ledger);
      case ReaderSend(t) => AbsReaderUses(s.ledger, t, Sent(ErrMsg(CLOSED_BY_READER), Teardown));
      case ReaderDone =>
    }
    OneStep(codec, Abs(s), Matching(s, a)[0]);
  }

  lemma SimCloserDrain(codec: Codec, s: State, a: Action)
    requires Good(s) && Enabled(s, a)
    requires a.CloseTake? || a.CloseSend? || a.Abort?
    ensures Simulated(codec, s, a)
  {
    var l := s.ledger;
    match a {
      case CloseTake => AbsAllToCloser(l);
      case CloseSend(t) => AbsCloserUses(l, t, Sent(ErrMsg(CLOSED_BY_CLOSE), Teardown));
      case Abort =>
        forall id | 0 <= id < |l.calls| ensures AbsCall(l, id).place != I.WithCloser {
          assert Places(l, id) == 1;
        }
    }
    OneStep(codec, Abs(s), Matching(s, a)[0]);
  }

  lemma SimPost(codec: Codec, s: State, m: Inbound)
    requires Good(s) && Enabled(s, DeviceSend(m))
    ensures Simulated(codec, s, DeviceSend(m))
  {
    OneStep(codec, Abs(s), I.Post(AbsMail(m)));
  }

  lemma SimOther(codec: Codec, s: State, a: Action)
    requires Good(s) && Enabled(s, a)
    requires a.CheckClosed? || a.Read? || a.SetFlag? || a.TakeRx? || a.TakeErr? || (a.Cancel? && !s.mode.Holding?)
    ensures Simulated(codec, s, a)
  {
    OneStep(codec, Abs(s), Matching(s, a)[0]);
  }

  lemma SimStutter(codec: Codec, s: State, a: Action)
    requires Good(s) && Enabled(s, a) && (a.Join? || a.Turn?)
    ensures Simulated(codec, s, a)
  {
  }

  /** Step by step, the tagged session does what the ideal session does. */
  lemma Simulation(codec: Codec, s: State, a: Action)
    requires Good(s) && Window(s) && Enabled(s, a)
    ensures Simulated(codec, s, a) && Good(Do(codec, s, a))
  {
    InvStep(codec, s, a);
    NewestFiledStep(codec, s, a);
    MatchedStep(codec, s, a);
    match a
    case Insert(c) => SimInsert(codec, s, c);
    case Remove(c) => SimRemove(codec, s, c);
    case Take => SimTake(codec, s);
    case Reinsert => SimHeld(codec, s, a);
    case Resolve => SimHeld(codec, s, a);
    case Cancel => if s.mode.Holding? { SimHeld(codec, s, a); } else { SimOther(codec, s, a); }
    case ExitTake => SimReaderDrain(codec, s, a);
    case ReaderSend(_) => SimReaderDrain(codec, s, a);
    case ReaderDone => SimReaderDrain(codec, s, a);
    case CloseTake => SimCloserDrain(codec, s, a);
    case CloseSend(_) => SimCloserDrain(codec, s, a);
    case Abort => SimCloserDrain(codec, s, a);
    case CheckClosed => SimOther(codec, s, a);
    case Join(_) => SimStutter(codec, s, a);
    case Turn(_) => SimStutter(codec, s, a);
    case DeviceSend(m) => SimPost(codec, s, m);
    case Read(_) => SimOther(codec, s, a);
    case SetFlag => SimOther(codec, s, a);
    case TakeRx => SimOther(codec, s, a);
    case TakeErr => SimOther(codec, s, a);
    case Alloc(_, _) => SimBegin(codec, s, a);
    case Deliver(_) => SimBegin(codec, s, a);
    case WriteOk(_) => SimBegin(codec, s, a);
    case WriteFail(_, _) => SimEnd(codec, s, a);
    case Receive(_) => SimEnd(codec, s, a);
    case TimeOut(_) => SimEnd(codec, s, a);
  }

  /** The ideal run that a run of the tagged session amounts to. */
  function Shadow(codec: Codec, s: State, acts: seq<Action>): seq<I.IAction>
    requires ValidRun(codec, s, acts)
    decreases |acts|
  {
    if acts == [] then [] else Matching(s, acts[0]) + Shadow(codec, Do(codec, s, acts[0]), acts[1..])
  }

  /** Refinement: within the window, every run of the 16-bit session, from any good state,
      is a run of the ideal session, ending in the corresponding state. */
  lemma {:induction false} Refines(codec: Codec, s: State, acts: seq<Action>)
    requires Good(s) && ValidRun(codec, s, acts) && Windowed(codec, s, acts)
    ensures Good(After(codec, s, acts))
    ensures I.IValidRun(codec, Abs(s), Shadow(codec, s, acts))
    ensures I.IAfter(codec, Abs(s), Shadow(codec, s, acts)) == Abs(After(codec, s, acts))
    decreases |acts|
  {
    if acts != [] {
      var s' := Do(codec, s, acts[0]);
      Simulation(codec, s, acts[0]);
      Refines(codec, s', acts[1..]);
      I.IRunsCompose(codec, Abs(s), Matching(s, acts[0]), Shadow(codec, s', acts[1..]));
    }
  }

  lemma InitialIsIdeal()
    ensures Good(INITIAL) && Abs(INITIAL) == I.INITIAL
  {
  }
}
