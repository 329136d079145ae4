/** How commands end: drains, leftovers, and which callers can still move. */
module Lifecycle {
  import opened Protocol
  import opened Tags
  import opened Dispatch
  import opened Ledger
  import opened Multiplexer
  import opened Refinement
  import opened Outcomes

  // ---------------------------------------------------------------- drain completeness

  datatype Drainer = TheReader | TheCloser

  predicate DrainHolds(s: State, who: Drainer, c: nat)
    requires c < |s.ledger.calls|
  {
    match who
    case TheReader => s.mode.Draining? && Holds(s.ledger.reader, s.ledger.calls, c)
    case TheCloser => s.closing.Sending? && Holds(s.ledger.closer, s.ledger.calls, c)
  }

  function DrainSlot(who: Drainer): Slot {
    match who
    case TheReader => Sent(ErrMsg(TransportClosed("reader exited")), Teardown)
    case TheCloser => Sent(ErrMsg(TransportClosed("session closed")), Teardown)
  }

  /** A drain takes the whole map: every outstanding entry is then in its hand, none is left. */
  lemma DrainTakesAll(codec: Codec, s: State, who: Drainer, c: nat)
    requires Inv(s) && c < |s.ledger.calls| && Holds(s.ledger.pending, s.ledger.calls, c)
    requires Enabled(s, if who.TheReader? then ExitTake else CloseTake)
    ensures var s' := Do(codec, s, if who.TheReader? then ExitTake else CloseTake);
            s'.ledger.pending == map[] && DrainHolds(s', who, c)
  {
  }

  lemma ReaderHandStep(codec: Codec, s: State, a: Action, c: nat)
    requires Inv(s) && Enabled(s, a) && c < |s.ledger.calls| && DrainHolds(s, TheReader, c)
    ensures var s' := Do(codec, s, a);
            c < |s'.ledger.calls|
            && if a.ReaderSend? && s.ledger.reader[a.t].waker == c
               then s'.ledger.calls[c].slot == DrainSlot(TheReader)
               else DrainHolds(s', TheReader, c)
  {
    StepExtends(codec, s, a);
    if a.ReaderSend? {
      assert EntryOk(s.ledger.calls, a.t, s.ledger.reader[a.t]);
    }
  }

  lemma CloserSendStep(codec: Codec, s: State, t: u16, c: nat)
    requires Inv(s) && Enabled(s, CloseSend(t)) && c < |s.ledger.calls| && DrainHolds(s, TheCloser, c)
    ensures var s' := Do(codec, s, CloseSend(t));
            c < |s'.ledger.calls|
            && if s.ledger.closer[t].waker == c then s'.ledger.calls[c].slot == DrainSlot(TheCloser)
               else DrainHolds(s', TheCloser, c)
  {
    assert EntryOk(s.ledger.calls, t, s.ledger.closer[t]);
  }

  lemma CloserHandStep(codec: Codec, s: State, a: Action, c: nat)
    requires Inv(s) && Enabled(s, a) && c < |s.ledger.calls| && DrainHolds(s, TheCloser, c)
    ensures var s' := Do(codec, s, a);
            c < |s'.ledger.calls|
            && if a.CloseSend? && s.ledger.closer[a.t].waker == c
               then s'.ledger.calls[c].slot == DrainSlot(TheCloser)
               else DrainHolds(s', TheCloser, c)
  {
    if a.CloseSend? {
      CloserSendStep(codec, s, a.t, c);
    } else {
      StepExtends(codec, s, a);
    }
  }

  /** An entry in a drain's hand stays there until that drain resolves it, whatever the
      other drain and the callers do meanwhile, and the drain cannot finish before. */
  lemma {:induction false} DrainCompletes(codec: Codec, s: State, acts: seq<Action>, who: Drainer, c: nat)
    requires Inv(s) && ValidRun(codec, s, acts) && c < |s.ledger.calls| && DrainHolds(s, who, c)
    ensures var s' := After(codec, s, acts);
            c < |s'.ledger.calls|
            && if DrainHolds(s', who, c) then Resolutions(codec, s, acts, c) == 0
               else Resolutions(codec, s, acts, c) == 1 && s'.ledger.calls[c].slot == DrainSlot(who)
    decreases |acts|
  {
    if acts != [] {
      var a, s' := acts[0], Do(codec, s, acts[0]);
      InvStep(codec, s, a);
      NotElsewhere(s, who, c);
      SettledForGood(codec, s, a, c);
      if who.TheReader? {
        ReaderHandStep(codec, s, a, c);
      } else {
        CloserHandStep(codec, s, a, c);
      }
      if DrainHolds(s', who, c) {
        assert !Resolves(s, a, c) by {
          if Resolves(s, a, c) { StillOpen(s', who, c); }
        }
        DrainCompletes(codec, s', acts[1..], who, c);
      } else {
        ResolvedAtMostOnce(codec, s', acts[1..], c);
        InvRun(codec, s', acts[1..]);
        if DrainHolds(After(codec, s, acts), who, c) {
          StillOpen(After(codec, s, acts), who, c);
        }
      }
    }
  }

  lemma NotElsewhere(s: State, who: Drainer, c: nat)
    requires Inv(s) && c < |s.ledger.calls| && DrainHolds(s, who, c)
    ensures s.ledger.calls[c].slot == Open
    ensures who.TheReader? ==> !Holds(s.ledger.closer, s.ledger.calls, c)
    ensures who.TheCloser? ==> !Holds(s.ledger.reader, s.ledger.calls, c)
  {
    assert Places(s.ledger, c) == 1;
  }

  lemma StillOpen(s: State, who: Drainer, c: nat)
    requires Inv(s) && c < |s.ledger.calls| && DrainHolds(s, who, c)
    ensures s.ledger.calls[c].slot == Open
  {
    NotElsewhere(s, who, c);
  }

  /** Once `closed` is set nobody is admitted any more: the only tags still to be taken are
      those of callers already past the check. */
  lemma {:induction false} ClosedAdmitsNobody(codec: Codec, s: State, acts: seq<Action>)
    requires s.closed && ValidRun(codec, s, acts)
    ensures var s' := After(codec, s, acts);
            s'.closed && |s'.ledger.calls| + s'.admitted == |s.ledger.calls| + s.admitted
    decreases |acts|
  {
    if acts != [] {
      var s' := Do(codec, s, acts[0]);
      AdmissionStep(codec, s, acts[0]);
      ClosedAdmitsNobody(codec, s', acts[1..]);
    }
  }

  lemma AdmissionStep(codec: Codec, s: State, a: Action)
    requires s.closed && Enabled(s, a)
    ensures var s' := Do(codec, s, a);
            s'.closed && |s'.ledger.calls| + s'.admitted == |s.ledger.calls| + s.admitted
  {
  }

  // ---------------------------------------------------------------- leftovers

  /** An entry is in the map although its caller has returned. */
  predicate Leftover(s: State, c: nat)
    requires c < |s.ledger.calls|
  {
    Holds(s.ledger.pending, s.ledger.calls, c) && s.ledger.calls[c].phase.Returned()
  }

  /** Apart from c's own insert, only the reader's re-insert puts c's entry in the map. */
  lemma OnlyReinsertFiles(codec: Codec, s: State, a: Action, c: nat)
    requires Inv(s) && Enabled(s, a) && c < |s.ledger.calls|
    requires a != Insert(c) && a != Reinsert
    requires c < |Do(codec, s, a).ledger.calls|
    requires Holds(Do(codec, s, a).ledger.pending, Do(codec, s, a).ledger.calls, c)
    ensures Holds(s.ledger.pending, s.ledger.calls, c)
  {
    StepExtends(codec, s, a);
  }

  lemma OwnStepLeavesNothing(codec: Codec, s: State, a: Action, c: nat)
    requires Inv(s) && Enabled(s, a) && OwnStep(a, c)
    requires c < |s.ledger.calls| && c < |Do(codec, s, a).ledger.calls|
    ensures !Leftover(Do(codec, s, a), c)
  {
    assert Places(s.ledger, c) == 1;
  }

  /** Leftovers are born in one way only: the reader re-inserts a TX entry whose caller
      returned between the remove and the re-insert. */
  lemma LeftoverBirth(codec: Codec, s: State, a: Action, c: nat)
    requires Inv(s) && Enabled(s, a) && c < |s.ledger.calls|
    requires !Leftover(s, c) && c < |Do(codec, s, a).ledger.calls| && Leftover(Do(codec, s, a), c)
    ensures a == Reinsert && s.ledger.calls[c].phase.Returned() && s.ledger.calls[c].cmd == Tx
    ensures s.mode.Holding? && Holds(s.ledger.reader, s.ledger.calls, c) && s.mode.frame.ty == OK
  {
    if OwnStep(a, c) {
      OwnStepLeavesNothing(codec, s, a, c);
    } else {
      OwnStepAdvances(codec, s, a, c);
      if a != Reinsert {
        OnlyReinsertFiles(codec, s, a, c);
      } else {
        ReinsertFilesHeld(codec, s, c);
      }
    }
  }

  lemma ReinsertFilesHeld(codec: Codec, s: State, c: nat)
    requires Inv(s) && Enabled(s, Reinsert) && c < |s.ledger.calls|
    requires c < |Do(codec, s, Reinsert).ledger.calls|
    requires Holds(Do(codec, s, Reinsert).ledger.pending, Do(codec, s, Reinsert).ledger.calls, c)
    ensures Holds(s.ledger.pending, s.ledger.calls, c)
            || (Holds(s.ledger.reader, s.ledger.calls, c) && s.ledger.calls[c].cmd == Tx && s.mode.frame.ty == OK)
  {
    assert EntryOk(s.ledger.calls, s.mode.frame.tag, s.ledger.reader[s.mode.frame.tag]);
    DropAtExtends(s.ledger.calls, s.ledger.pending, s.mode.frame.tag);
  }

  /** So in every run, and with no hypothesis on tags, an entry in the map belongs to a
      caller still writing, waiting or about to remove it, or is such a TX leftover. */
  lemma {:induction false} PendingOwners(codec: Codec, s: State, acts: seq<Action>, c: nat)
    requires Inv(s) && ValidRun(codec, s, acts)
    requires c < |s.ledger.calls| && Leftover(s, c) ==> s.ledger.calls[c].cmd == Tx
    ensures var s' := After(codec, s, acts);
            c < |s'.ledger.calls| && Holds(s'.ledger.pending, s'.ledger.calls, c) ==>
              var p := s'.ledger.calls[c].phase;
              p.Writing? || p.Waiting? || p.Leaving? || (p.Returned() && s'.ledger.calls[c].cmd == Tx)
    decreases |acts|
  {
    if acts == [] {
      assert c < |s.ledger.calls| ==> Places(s.ledger, c) == 1;
    } else {
      var s' := Do(codec, s, acts[0]);
      InvStep(codec, s, acts[0]);
      StepExtends(codec, s, acts[0]);
      if c < |s.ledger.calls| && Leftover(s', c) && !Leftover(s, c) {
        LeftoverBirth(codec, s, acts[0], c);
      }
      if |s.ledger.calls| <= c < |s'.ledger.calls| {
        NewIsAllocated(codec, s, acts[0], c);
      }
      PendingOwners(codec, s', acts[1..], c);
    }
  }

  lemma NewIsAllocated(codec: Codec, s: State, a: Action, c: nat)
    requires Enabled(s, a) && |s.ledger.calls| <= c < |Do(codec, s, a).ledger.calls|
    ensures Do(codec, s, a).ledger.calls[c].phase.Allocated?
  {
  }

  /** The reader's next frame is for tag t. */
  predicate FrameAt(s: State, t: u16) {
    && s.io.cursor < |s.io.wire|
    && s.io.wire[s.io.cursor].Tagged() && s.io.wire[s.io.cursor].work.frame.tag == t
  }

  /** An action that removes entries, other than by taking the whole map, leaves c's
      entry alone unless it works at c's tag. */
  lemma OtherTagsLeaveEntry(codec: Codec, s: State, a: Action, c: nat)
    requires Inv(s) && Enabled(s, a) && c < |s.ledger.calls| && Holds(s.ledger.pending, s.ledger.calls, c)
    requires a != ExitTake && a != CloseTake
    requires a.Insert? || a.Remove? ==> s.ledger.calls[a.c].tag != s.ledger.calls[c].tag
    requires a == Reinsert ==> s.mode.frame.tag != s.ledger.calls[c].tag
    requires a == Take ==> !FrameAt(s, s.ledger.calls[c].tag)
    ensures c < |Do(codec, s, a).ledger.calls|
    ensures Holds(Do(codec, s, a).ledger.pending, Do(codec, s, a).ledger.calls, c)
  {
    StepExtends(codec, s, a);
  }

  /** Within the window a leftover goes away in three ways only: a frame for its tag, a
      drain, or an insert by a later command to which its tag has come round. */
  lemma LeftoverDeath(codec: Codec, s: State, a: Action, c: nat)
    requires Good(s) && Window(s) && Enabled(s, a) && c < |s.ledger.calls| && Leftover(s, c)
    ensures c < |Do(codec, s, a).ledger.calls|
    ensures Leftover(Do(codec, s, a), c)
            || (a == Take && FrameAt(s, s.ledger.calls[c].tag))
            || a == ExitTake || a == CloseTake
            || (a.Insert? && a.c > c && NthTag(a.c) == NthTag(c))
  {
    var t := s.ledger.calls[c].tag;
    StepExtends(codec, s, a);
    OwnStepAdvances(codec, s, a, c);
    if a.Insert? && s.ledger.calls[a.c].tag == t {
      OnlyLaterOverwrites(s, a.c, c);
    } else if a.Remove? && s.ledger.calls[a.c].tag == t {
      RemovedIsOwn(s, a.c);
    } else {
      if a == Reinsert {
        HeldIsOwn(s);
      }
      if a != ExitTake && a != CloseTake
         && !(a == Take && FrameAt(s, t)) {
        OtherTagsLeaveEntry(codec, s, a, c);
      }
    }
  }

  lemma OnlyLaterOverwrites(s: State, d: nat, c: nat)
    requires Good(s) && Window(s) && Enabled(s, Insert(d))
    requires c < |s.ledger.calls| && s.ledger.calls[d].tag == s.ledger.calls[c].tag
    ensures c <= d && NthTag(d) == NthTag(c)
  {
    assert CallOk(c, s.ledger.calls[c]) && CallOk(d, s.ledger.calls[d]) && Alive(s, d);
    if d < c {
      SameTag(s.ledger, d, c);
    }
  }

  // ---------------------------------------------------------------- who can move

  /** How many steps of its own a caller may still need, by where it stands. */
  function Rank(s: State, c: nat): nat
    requires c < |s.ledger.calls|
  {
    match s.ledger.calls[c].phase
    case Allocated => 6
    case Writing => if c !in s.pipe.line then 5 else if !s.ledger.calls[c].written then 4 else 3
    case Waiting => 2
    case Leaving(_) => 1
    case _ => 0
  }

  /** A step of c's own `send_command`, as opposed to one of any other task. */
  predicate OwnStep(a: Action, c: nat) {
    a == Insert(c) || a == Join(c) || a == Deliver(c) || a == WriteOk(c) || (a.WriteFail? && a.c == c)
    || a == Receive(c) || a == TimeOut(c) || a == Remove(c)
  }

  /** c stands at the writer lock and either others are before it or the transport has
      stalled under its own write. */
  predicate Blocked(s: State, c: nat)
    requires c < |s.ledger.calls|
  {
    && s.ledger.calls[c].phase.Writing? && s.ledger.calls[c].fits && c in s.pipe.line
    && (s.pipe.line[0] != c || s.pipe.transport.Stalled?)
  }

  /** A caller that has not returned has a step of its own to take exactly when it is not
      blocked in its write, whatever the reader, the closer and the drains have done. */
  lemma HasOwnStepIff(s: State, c: nat)
    requires c < |s.ledger.calls| && !s.ledger.calls[c].phase.Returned()
    ensures (exists a :: OwnStep(a, c) && Enabled(s, a)) <==> !Blocked(s, c)
  {
    if !Blocked(s, c) {
      assert OwnStep(NextStep(s, c), c) && Enabled(s, NextStep(s, c));
    }
  }

  /** A step c can take when it is not blocked. */
  function NextStep(s: State, c: nat): Action
    requires c < |s.ledger.calls| && !s.ledger.calls[c].phase.Returned()
  {
    var call := s.ledger.calls[c];
    match call.phase
    case Allocated => Insert(c)
    case Writing =>
      if !call.fits then WriteFail(c, EncodeFailed)
      else if c !in s.pipe.line then Join(c)
      else if s.pipe.transport.Broken? then WriteFail(c, Io)
      else if call.written then WriteOk(c)
      else Deliver(c)
    case Waiting => if call.slot == Open then TimeOut(c) else Receive(c)
    case _ => Remove(c)
  }

  lemma DropKeepsCall(calls: seq<Call>, hand: Hand, t: u16, c: nat)
    requires c < |calls|
    ensures |DropAt(calls, hand, t)| == |calls|
    ensures DropAt(calls, hand, t)[c] == calls[c].(slot := DropAt(calls, hand, t)[c].slot)
  {
  }

  lemma OwnStepDescends(codec: Codec, s: State, a: Action, c: nat)
    requires Enabled(s, a) && OwnStep(a, c)
    ensures c < |Do(codec, s, a).ledger.calls| && Rank(Do(codec, s, a), c) < Rank(s, c)
  {
  }

  lemma OtherCallersKeepRank(codec: Codec, s: State, a: Action, c: nat)
    requires Enabled(s, a) && c < |s.ledger.calls| && !OwnStep(a, c)
    requires a.Alloc? || a.Insert? || a.Join? || a.Deliver? || a.WriteOk? || a.WriteFail?
             || a.Receive? || a.TimeOut? || a.Remove?
    ensures var s' := Do(codec, s, a);
            c < |s'.ledger.calls| && s'.ledger.calls[c].phase == s.ledger.calls[c].phase && Rank(s', c) == Rank(s, c)
  {
    if a.Insert? || a.Remove? {
      DropKeepsCall(s.ledger.calls, s.ledger.pending, s.ledger.calls[a.c].tag, c);
    }
  }

  lemma TasksKeepRank(codec: Codec, s: State, a: Action, c: nat)
    requires Enabled(s, a) && c < |s.ledger.calls|
    requires a.Take? || a.Reinsert? || a.Resolve? || a.ReaderSend? || a.Cancel? || a.CloseSend?
    ensures var s' := Do(codec, s, a);
            c < |s'.ledger.calls| && s'.ledger.calls[c].phase == s.ledger.calls[c].phase && Rank(s', c) == Rank(s, c)
  {
    if a == Reinsert {
      DropKeepsCall(s.ledger.calls, s.ledger.pending, s.mode.frame.tag, c);
    }
  }

  lemma OwnStepAdvances(codec: Codec, s: State, a: Action, c: nat)
    requires Enabled(s, a) && c < |s.ledger.calls|
    ensures var s' := Do(codec, s, a);
            c < |s'.ledger.calls|
            && if OwnStep(a, c) then Rank(s', c) < Rank(s, c)
               else s'.ledger.calls[c].phase == s.ledger.calls[c].phase && Rank(s', c) == Rank(s, c)
  {
    if OwnStep(a, c) {
      OwnStepDescends(codec, s, a, c);
    } else if a.Take? || a.Reinsert? || a.Resolve? || a.ReaderSend? || a.Cancel? || a.CloseSend? {
      TasksKeepRank(codec, s, a, c);
    } else if a.Alloc? || a.Insert? || a.Join? || a.Deliver? || a.WriteOk? || a.WriteFail?
              || a.Receive? || a.TimeOut? || a.Remove? {
      OtherCallersKeepRank(codec, s, a, c);
    }
  }

  function OwnSteps(acts: seq<Action>, c: nat): nat {
    if acts == [] then 0 else One(OwnStep(acts[0], c)) + OwnSteps(acts[1..], c)
  }

  /** Exactly one result: at most six steps of its own take a caller to its result, and
      the result never changes afterwards. Closing, draining or losing the reader before
      or after the insert makes no difference. */
  lemma {:induction false} SixStepsAtMost(codec: Codec, s: State, acts: seq<Action>, c: nat)
    requires ValidRun(codec, s, acts) && c < |s.ledger.calls|
    ensures var s' := After(codec, s, acts);
            && c < |s'.ledger.calls|
            && OwnSteps(acts, c) + Rank(s', c) <= Rank(s, c) <= 6
            && (s.ledger.calls[c].phase.Returned() ==> s'.ledger.calls[c].phase == s.ledger.calls[c].phase)
    decreases |acts|
  {
    if acts != [] {
      OwnStepAdvances(codec, s, acts[0], c);
      StepExtends(codec, s, acts[0]);
      SixStepsAtMost(codec, Do(codec, s, acts[0]), acts[1..], c);
    }
  }

  // ---------------------------------------------------------------- which error a caller gets

  /** c is about to return this error, or has. */
  predicate FailsWith(s: State, c: nat, e: ClientError) {
    c < |s.ledger.calls| && (s.ledger.calls[c].phase == Leaving(e) || s.ledger.calls[c].phase == Failed(e))
  }

  predicate Decided(s: State, c: nat) {
    c < |s.ledger.calls| && (s.ledger.calls[c].phase.Leaving? || s.ledger.calls[c].phase.Returned())
  }

  /** The action makes a command of this type fail with e. */
  predicate Decides(a: Action, c: nat, cmd: CmdType, e: ClientError) {
    (a == TimeOut(c) && e == Timeout(cmd)) || (a == WriteFail(c, e)) || (a == Receive(c) && e == ReaderExited)
  }

  lemma {:induction false} ErrorStays(codec: Codec, s: State, acts: seq<Action>, c: nat, e: ClientError)
    requires ValidRun(codec, s, acts) && FailsWith(s, c, e)
    ensures FailsWith(After(codec, s, acts), c, e)
    decreases |acts|
  {
    if acts != [] {
      OwnStepAdvances(codec, s, acts[0], c);
      assert FailsWith(Do(codec, s, acts[0]), c, e) by {
        if acts[0] == Remove(c) {
          RemoveFails(codec, s, c);
        }
      }
      ErrorStays(codec, Do(codec, s, acts[0]), acts[1..], c, e);
    }
  }

  lemma RemoveFails(codec: Codec, s: State, c: nat)
    requires Enabled(s, Remove(c))
    ensures FailsWith(Do(codec, s, Remove(c)), c, s.ledger.calls[c].phase.err)
  {
  }

  /** The step that decides c decides for its own reason. */
  lemma DecidingStep(codec: Codec, s: State, a: Action, c: nat)
    requires Enabled(s, a) && !Decided(s, c) && Decided(Do(codec, s, a), c)
    ensures c < |s.ledger.calls| && c < |Do(codec, s, a).ledger.calls|
    ensures Do(codec, s, a).ledger.calls[c].phase.Leaving? ==>
              Decides(a, c, s.ledger.calls[c].cmd, Do(codec, s, a).ledger.calls[c].phase.err)
    ensures !Do(codec, s, a).ledger.calls[c].phase.Failed?
  {
    if c < |s.ledger.calls| {
      OwnStepAdvances(codec, s, a, c);
    } else {
      NewIsAllocated(codec, s, a, c);
    }
  }

  /** An error has a cause in the run. */
  lemma {:induction false} ErrorCause(codec: Codec, s: State, acts: seq<Action>, c: nat, e: ClientError)
      returns (k: nat)
    requires ValidRun(codec, s, acts) && !Decided(s, c) && FailsWith(After(codec, s, acts), c, e)
    ensures k < |acts| && Decides(acts[k], c, After(codec, s, acts).ledger.calls[c].cmd, e)
    decreases |acts|
  {
    var s' := Do(codec, s, acts[0]);
    if Decided(s', c) {
      DecidingStep(codec, s, acts[0], c);
      RunKeeps(codec, s', acts[1..], c);
      StepExtends(codec, s, acts[0]);
      if s'.ledger.calls[c].phase.Leaving? {
        ErrorStays(codec, s', acts[1..], c, s'.ledger.calls[c].phase.err);
      }
      return 0;
    }
    k := ErrorCause(codec, s', acts[1..], c, e);
    k := k + 1;
  }

  lemma {:induction false} RunKeeps(codec: Codec, s: State, acts: seq<Action>, c: nat)
    requires ValidRun(codec, s, acts) && c < |s.ledger.calls|
    ensures var s' := After(codec, s, acts);
            && c < |s'.ledger.calls| && s'.ledger.calls[c].cmd == s.ledger.calls[c].cmd
            && (s.ledger.calls[c].phase.Returned() ==> s'.ledger.calls[c].phase == s.ledger.calls[c].phase)
    decreases |acts|
  {
    if acts != [] {
      StepExtends(codec, s, acts[0]);
      RunKeeps(codec, Do(codec, s, acts[0]), acts[1..], c);
    }
  }

  /** And a cause has its effect. */
  lemma {:induction false} CauseHasEffect(codec: Codec, s: State, acts: seq<Action>, c: nat, e: ClientError, k: nat)
    requires ValidRun(codec, s, acts) && k < |acts|
    requires c < |After(codec, s, acts).ledger.calls| && !After(codec, s, acts).ledger.calls[c].phase.Answered?
    requires Decides(acts[k], c, After(codec, s, acts).ledger.calls[c].cmd, e)
    ensures FailsWith(After(codec, s, acts), c, e)
    decreases |acts|
  {
    var s' := Do(codec, s, acts[0]);
    if k > 0 {
      CauseHasEffect(codec, s', acts[1..], c, e, k - 1);
    } else {
      StepExtends(codec, s, acts[0]);
      RunKeeps(codec, s', acts[1..], c);
      ErrorStays(codec, s', acts[1..], c, e);
    }
  }

  /** In every run from the start: a caller that was not answered fails with its command's
      timeout exactly when its own timeout fired, with a write error exactly when its own
      write failed with that error, and with ReaderExited exactly when it found its one-shot
      dropped; and with nothing else. */
  lemma ErrorIff(codec: Codec, acts: seq<Action>, c: nat, e: ClientError)
    requires ValidRun(codec, INITIAL, acts)
    requires var s := After(codec, INITIAL, acts); c < |s.ledger.calls| && !s.ledger.calls[c].phase.Answered?
    ensures var s := After(codec, INITIAL, acts);
            FailsWith(s, c, e) <==>
            exists k :: 0 <= k < |acts| && Decides(acts[k], c, s.ledger.calls[c].cmd, e)
  {
    if FailsWith(After(codec, INITIAL, acts), c, e) {
      var k := ErrorCause(codec, INITIAL, acts, c, e);
    }
    if k :| 0 <= k < |acts| && Decides(acts[k], c, After(codec, INITIAL, acts).ledger.calls[c].cmd, e) {
      CauseHasEffect(codec, INITIAL, acts, c, e, k);
    }
  }

  // ---------------------------------------------------------------- the writer lock

  /** Whoever stands at the lock is at its write, and stands there once. */
  ghost predicate PipeOk(s: State) {
    && (forall i :: 0 <= i < |s.pipe.line| ==> AtWrite(s, s.pipe.line[i]))
    && (forall i, j :: 0 <= i < j < |s.pipe.line| ==> s.pipe.line[i] != s.pipe.line[j])
  }

  /** c has a frame to write and has not written it. */
  predicate AtWrite(s: State, c: nat) {
    c < |s.ledger.calls| && s.ledger.calls[c].phase.Writing? && s.ledger.calls[c].fits
  }

  lemma AtWriteStep(codec: Codec, s: State, a: Action, c: nat)
    requires AtWrite(s, c) && Enabled(s, a) && a != WriteOk(c) && !(a.WriteFail? && a.c == c && a.err.Io?)
    ensures AtWrite(Do(codec, s, a), c)
  {
    StepExtends(codec, s, a);
    if a != Join(c) && a != Deliver(c) {
      OwnStepAdvances(codec, s, a, c);
    }
  }

  predicate LeavesLine(a: Action) {
    a.WriteOk? || (a.WriteFail? && a.err.Io?)
  }

  /** The line loses its first, gains a last, or stays as it is. */
  lemma LineStep(codec: Codec, s: State, a: Action)
    requires Enabled(s, a)
    ensures var line, line' := s.pipe.line, Do(codec, s, a).pipe.line;
            if LeavesLine(a) then line != [] && line[0] == a.c && line' == line[1..]
            else if a.Join? then a.c !in line && line' == line + [a.c]
            else line' == line
  {
  }

  lemma PipeStep(codec: Codec, s: State, a: Action)
    requires PipeOk(s) && Enabled(s, a)
    ensures PipeOk(Do(codec, s, a))
  {
    var s' := Do(codec, s, a);
    LineStep(codec, s, a);
    var line := s.pipe.line;
    forall i | 0 <= i < |line| && !(LeavesLine(a) && line[i] == a.c) ensures AtWrite(s', line[i]) {
      AtWriteStep(codec, s, a, line[i]);
    }
    if a.Join? {
      AtWriteStep(codec, s, a, a.c);
    }
  }

  lemma {:induction false} PipeRun(codec: Codec, s: State, acts: seq<Action>)
    requires PipeOk(s) && ValidRun(codec, s, acts)
    ensures PipeOk(After(codec, s, acts))
    decreases |acts|
  {
    if acts != [] {
      PipeStep(codec, s, acts[0]);
      PipeRun(codec, Do(codec, s, acts[0]), acts[1..]);
    }
  }

  // ---------------------------------------------------------------- progress

  function IndexOf(line: seq<nat>, c: nat): (i: nat)
    requires c in line
    ensures i < |line| && line[i] == c && c !in line[..i]
  {
    if line[0] == c then 0 else 1 + IndexOf(line[1..], c)
  }

  /** The callers that will have written before c can: those before it in the line, or, if it
      has yet to come to its write, the whole line. */
  function Ahead(s: State, c: nat): seq<nat>
    requires c < |s.ledger.calls|
  {
    var call := s.ledger.calls[c];
    if !call.fits || !(call.phase.Allocated? || call.phase.Writing?) then []
    else if c in s.pipe.line then s.pipe.line[..IndexOf(s.pipe.line, c)]
    else s.pipe.line
  }

  /** Two steps for each caller ahead, one less if the first has written, and c's own. */
  function Work(s: State, c: nat): nat
    requires c < |s.ledger.calls|
  {
    var ahead := Ahead(s, c);
    Rank(s, c) + 2 * |ahead|
    - if ahead != [] && ahead[0] < |s.ledger.calls| && s.ledger.calls[ahead[0]].written then 1 else 0
  }

  /** The caller whose step brings c forward: itself, or the first in the line. */
  function Mover(s: State, c: nat): nat
    requires c < |s.ledger.calls|
  {
    if Blocked(s, c) then s.pipe.line[0] else c
  }

  ghost predicate Advanced(s: State, s': State, c: nat)
    requires c < |s.ledger.calls|
  {
    && PipeOk(s') && s'.pipe.transport == s.pipe.transport && c < |s'.ledger.calls|
    && Work(s', c) < Work(s, c) && forall d :: d in Ahead(s', c) ==> d in Ahead(s, c)
  }

  lemma HeadAdvances(codec: Codec, s: State, c: nat)
    requires PipeOk(s) && c < |s.ledger.calls| && Blocked(s, c) && !s.pipe.transport.Stalled?
    ensures var h := s.pipe.line[0];
            && AtWrite(s, h) && h in Ahead(s, c) && OwnStep(NextStep(s, h), h) && Enabled(s, NextStep(s, h))
            && Advanced(s, Do(codec, s, NextStep(s, h)), c)
  {
    var line := s.pipe.line;
    var h := line[0];
    assert AtWrite(s, h);
    var a := NextStep(s, h);
    var s' := Do(codec, s, a);
    PipeStep(codec, s, a);
    LineStep(codec, s, a);
    OwnStepAdvances(codec, s, a, c);
    AtWriteStep(codec, s, a, c);
    if LeavesLine(a) {
      assert IndexOf(line, c) == 1 + IndexOf(line[1..], c);
      assert Ahead(s', c) == Ahead(s, c)[1..];
    }
  }

  lemma JoinAdvances(codec: Codec, s: State, c: nat)
    requires PipeOk(s) && Enabled(s, Join(c))
    ensures Advanced(s, Do(codec, s, Join(c)), c)
  {
    PipeStep(codec, s, Join(c));
    var line := s.pipe.line;
    assert IndexOf(line + [c], c) == |line| && (line + [c])[..|line|] == line;
  }

  /** Any other step of c's own leaves nobody ahead of it who was not, and nobody at all once
      it has come to its write. */
  lemma OtherOwnAdvances(codec: Codec, s: State, a: Action, c: nat)
    requires PipeOk(s) && Enabled(s, a) && OwnStep(a, c) && a != Join(c) && !Blocked(s, c)
    ensures Advanced(s, Do(codec, s, a), c)
  {
    PipeStep(codec, s, a);
    OwnStepAdvances(codec, s, a, c);
    if a == Insert(c) {
      InsertKeepsWritten(codec, s, c);
    }
  }

  lemma InsertKeepsWritten(codec: Codec, s: State, c: nat)
    requires Enabled(s, Insert(c))
    ensures |Do(codec, s, Insert(c)).ledger.calls| == |s.ledger.calls|
    ensures forall d :: 0 <= d < |s.ledger.calls| ==>
      && Do(codec, s, Insert(c)).ledger.calls[d].written == s.ledger.calls[d].written
      && Do(codec, s, Insert(c)).ledger.calls[d].fits == s.ledger.calls[d].fits
  {
  }

  lemma OwnAdvances(codec: Codec, s: State, c: nat)
    requires PipeOk(s) && c < |s.ledger.calls| && !s.ledger.calls[c].phase.Returned()
    requires !Blocked(s, c) && !s.pipe.transport.Stalled?
    ensures OwnStep(NextStep(s, c), c) && Enabled(s, NextStep(s, c))
    ensures Advanced(s, Do(codec, s, NextStep(s, c)), c)
  {
    if NextStep(s, c) == Join(c) {
      JoinAdvances(codec, s, c);
    } else {
      OtherOwnAdvances(codec, s, NextStep(s, c), c);
    }
  }

  /** Only steps of c's own and of the callers ahead of it. */
  predicate OnlyStepsOf(acts: seq<Action>, c: nat, ahead: seq<nat>) {
    forall k :: 0 <= k < |acts| ==> OwnStep(acts[k], c) || exists d :: d in ahead && OwnStep(acts[k], d)
  }

  lemma StepBefore(a: Action, rest: seq<Action>, c: nat, mover: nat, fewer: seq<nat>, ahead: seq<nat>)
    requires OnlyStepsOf(rest, c, fewer) && forall d :: d in fewer ==> d in ahead
    requires OwnStep(a, mover) && (mover == c || mover in ahead)
    ensures OnlyStepsOf([a] + rest, c, ahead)
  {
    var acts := [a] + rest;
    forall k | 0 < k < |acts| ensures OwnStep(acts[k], c) || exists d :: d in ahead && OwnStep(acts[k], d) {
      assert acts[k] == rest[k - 1];
    }
  }

  lemma {:induction false} FinishFrom(codec: Codec, s: State, c: nat) returns (acts: seq<Action>)
    requires PipeOk(s) && c < |s.ledger.calls| && !s.pipe.transport.Stalled?
    ensures ValidRun(codec, s, acts) && OnlyStepsOf(acts, c, Ahead(s, c)) && |acts| <= Work(s, c)
    ensures c < |After(codec, s, acts).ledger.calls| && After(codec, s, acts).ledger.calls[c].phase.Returned()
    decreases Work(s, c)
  {
    if s.ledger.calls[c].phase.Returned() {
      return [];
    }
    if Blocked(s, c) {
      HeadAdvances(codec, s, c);
    } else {
      OwnAdvances(codec, s, c);
    }
    var a := NextStep(s, Mover(s, c));
    var s' := Do(codec, s, a);
    var rest := FinishFrom(codec, s', c);
    acts := [a] + rest;
    assert acts[1..] == rest;
    StepBefore(a, rest, c, Mover(s, c), Ahead(s', c), Ahead(s, c));
  }

  /** Progress: in every state of every session, while the transport does not stall, a caller
      can reach its result by at most six steps of its own and two of each caller ahead of it
      at the writer lock, with no help from the device, the reader or the closer. */
  lemma CanFinish(codec: Codec, before: seq<Action>, c: nat) returns (acts: seq<Action>)
    requires ValidRun(codec, INITIAL, before)
    requires var s := After(codec, INITIAL, before); c < |s.ledger.calls| && !s.pipe.transport.Stalled?
    ensures var s := After(codec, INITIAL, before);
            && ValidRun(codec, s, acts) && OnlyStepsOf(acts, c, Ahead(s, c)) && |acts| <= 6 + 2 * |Ahead(s, c)|
            && c < |After(codec, s, acts).ledger.calls| && After(codec, s, acts).ledger.calls[c].phase.Returned()
  {
    PipeRun(codec, INITIAL, before);
    acts := FinishFrom(codec, After(codec, INITIAL, before), c);
  }

  lemma {:induction false} OrderKept(codec: Codec, s: State, acts: seq<Action>, i: nat, j: nat)
    requires PipeOk(s) && ValidRun(codec, s, acts) && i < j < |s.pipe.line|
    ensures var s' := After(codec, s, acts);
            AtWrite(s', s.pipe.line[i]) ==> AtWrite(s', s.pipe.line[j])
    decreases |acts|
  {
    if acts != [] {
      var a, s' := acts[0], Do(codec, s, acts[0]);
      PipeStep(codec, s, a);
      LineStep(codec, s, a);
      if !LeavesLine(a) {
        OrderKept(codec, s', acts[1..], i, j);
      } else if i > 0 {
        OrderKept(codec, s', acts[1..], i - 1, j - 1);
      } else {
        OwnStepAdvances(codec, s, a, a.c);
        SixStepsAtMost(codec, s', acts[1..], a.c);
      }
    }
  }

  /** The need for those ahead: in every run nobody at the writer lock gets past its write
      before everyone ahead of it has. */
  lemma NoOvertaking(codec: Codec, before: seq<Action>, acts: seq<Action>, i: nat, j: nat)
    requires ValidRun(codec, INITIAL, before) && ValidRun(codec, After(codec, INITIAL, before), acts)
    requires i < j < |After(codec, INITIAL, before).pipe.line|
    ensures var s := After(codec, INITIAL, before);
            AtWrite(After(codec, s, acts), s.pipe.line[i]) ==> AtWrite(After(codec, s, acts), s.pipe.line[j])
  {
    PipeRun(codec, INITIAL, before);
    OrderKept(codec, After(codec, INITIAL, before), acts, i, j);
  }

  /** The transport has stalled under the write of the caller that has the lock. */
  predicate StalledUnder(s: State, h: nat) {
    h < |s.ledger.calls| && s.pipe.line != [] && s.pipe.line[0] == h && Blocked(s, h)
  }

  lemma StallStep(codec: Codec, s: State, a: Action, h: nat, c: nat)
    requires Enabled(s, a) && !a.Turn? && StalledUnder(s, h) && AtWrite(s, c)
    ensures var s' := Do(codec, s, a);
            && s'.pipe.transport.Stalled? && s.pipe.line <= s'.pipe.line && AtWrite(s', c)
  {
    LineStep(codec, s, a);
    AtWriteStep(codec, s, a, c);
  }

  /** A stalled transport hangs that caller and every other that has come, or comes, to its
      write: none of them gets past it while the transport stays stalled, whatever else
      happens, in particular whether their entries are drained or the session is closed. */
  lemma {:induction false} StallHangsWriters(codec: Codec, s: State, acts: seq<Action>, h: nat, c: nat)
    requires ValidRun(codec, s, acts) && StalledUnder(s, h) && AtWrite(s, c)
    requires forall k :: 0 <= k < |acts| ==> !acts[k].Turn?
    ensures var s' := After(codec, s, acts);
            StalledUnder(s', h) && AtWrite(s', c) && (c in s.pipe.line ==> Blocked(s', c))
    decreases |acts|
  {
    if acts != [] {
      StallStep(codec, s, acts[0], h, h);
      StallStep(codec, s, acts[0], h, c);
      StallHangsWriters(codec, Do(codec, s, acts[0]), acts[1..], h, c);
    }
  }

  const FIRST_ENTRY := Entry(Ping, 0)

  /** The only call of a session, at its write, with its one-shot unused or used. */
  function Lone(slot: Slot): seq<Call> {
    [Call(Ping, 1, Writing, false, true, slot)]
  }

  /** A first caller stalls in its write. */
  lemma StalledRun(codec: Codec) returns (acts: seq<Action>, s: State)
    ensures ValidRun(codec, INITIAL, acts) && After(codec, INITIAL, acts) == s
    ensures s == INITIAL.(ledger := Ledger(2, Lone(Open), map[1 := FIRST_ENTRY], map[], map[]),
                          pipe := Pipe([0], Stalled))
  {
    s := INITIAL;
    acts := [];
    acts, s := Then(codec, INITIAL, acts, s, CheckClosed);
    acts, s := Then(codec, INITIAL, acts, s, Alloc(Ping, true));
    acts, s := Then(codec, INITIAL, acts, s, Insert(0));
    acts, s := Then(codec, INITIAL, acts, s, Join(0));
    acts, s := Then(codec, INITIAL, acts, s, Turn(Stalled));
  }

  /** The session is closed, the caller's entry has been drained and its one-shot carries the
      teardown error, yet the caller is stuck in its write and does not see it. */
  lemma CloseLeavesWriterHanging(codec: Codec) returns (acts: seq<Action>)
    ensures ValidRun(codec, INITIAL, acts)
    ensures var s := After(codec, INITIAL, acts);
            && s.closed && s.aborted && |s.ledger.calls| == 1 && s.ledger.calls[0].slot == DrainSlot(TheCloser)
            && StalledUnder(s, 0) && Blocked(s, 0)
  {
    var s;
    acts, s := StalledRun(codec);
    acts, s := Then(codec, INITIAL, acts, s, SetFlag);
    acts, s := Then(codec, INITIAL, acts, s, CloseTake);
    acts, s := Then(codec, INITIAL, acts, s, CloseSend(1));
    acts, s := Then(codec, INITIAL, acts, s, Abort);
  }
}
