/** The window hypothesis is needed, and it is tight: one allocation more, and a caller can
    be given the response to another's command, or be told that the reader exited while the
    reader runs.
 */
module TagWrap {
  import opened Protocol
  import opened Tags
  import opened Dispatch
  import opened Ledger
  import opened Multiplexer
  import opened Refinement
  import opened Outcomes

  /** k other callers pass the closed check and take a tag. */
  function Burst(k: nat): seq<Action> {
    if k == 0 then [] else [CheckClosed, Alloc(Ping, true)] + Burst(k - 1)
  }

  predicate Fresh(call: Call) {
    call.phase.Allocated? && call.cmd == Ping && call.fits && !call.written && call.slot == Open
  }

  /** s' is s after k more allocations. */
  ghost predicate Grown(s: State, s': State, k: nat) {
    && s'.mode == s.mode && s'.closed == s.closed && s'.ledger.pending == s.ledger.pending
    && s'.pipe == s.pipe && s'.io == s.io
    && |s'.ledger.calls| == |s.ledger.calls| + k
    && (forall c :: 0 <= c < |s.ledger.calls| ==> s'.ledger.calls[c] == s.ledger.calls[c])
    && (forall c :: |s.ledger.calls| <= c < |s'.ledger.calls| ==> Fresh(s'.ledger.calls[c]))
  }

  lemma {:induction false} BurstGrows(codec: Codec, s: State, k: nat)
    requires Inv(s) && !s.closed
    ensures ValidRun(codec, s, Burst(k))
    ensures Inv(After(codec, s, Burst(k))) && Grown(s, After(codec, s, Burst(k)), k)
    decreases k
  {
    if k > 0 {
      var acts := Burst(k);
      assert acts[0] == CheckClosed && acts[1..][0] == Alloc(Ping, true) && acts[1..][1..] == Burst(k - 1);
      var s1 := Do(codec, s, CheckClosed);
      InvStep(codec, s, CheckClosed);
      var s2 := Do(codec, s1, Alloc(Ping, true));
      InvStep(codec, s1, Alloc(Ping, true));
      BurstGrows(codec, s2, k - 1);
    }
  }

  /** The command that gets c's tag next. */
  function Successor(c: nat): nat {
    c + PERIOD
  }

  /** From a state in which c waits with its entry in the map, the tags wrap once round
      and the successor inserts; then c collects its result. */
  function WrapRun(s: State, c: nat): seq<Action>
    requires c < |s.ledger.calls| <= Successor(c)
  {
    Burst(Successor(c) + 1 - |s.ledger.calls|) + [Insert(Successor(c)), Receive(c), Remove(c)]
  }

  /** The overwriting insert, then the earlier caller receives and cleans up. */
  lemma OverwriteStep(codec: Codec, s: State, c: nat, d: nat)
    requires Inv(s) && c < d < |s.ledger.calls| && s.ledger.calls[c].tag == s.ledger.calls[d].tag
    requires s.ledger.calls[c].phase.Waiting? && Holds(s.ledger.pending, s.ledger.calls, c)
    requires s.ledger.calls[d].phase.Allocated?
    ensures var s' := Do(codec, s, Insert(d));
            && s'.mode == s.mode && |s'.ledger.calls| == |s.ledger.calls|
            && s'.ledger.calls[c] == s.ledger.calls[c].(slot := Dropped)
            && s'.ledger.calls[d].tag == s.ledger.calls[c].tag && Holds(s'.ledger.pending, s'.ledger.calls, d)
  {
  }

  lemma CleanUp(codec: Codec, s: State, c: nat, d: nat)
    requires c < d < |s.ledger.calls| && s.ledger.calls[c].tag == s.ledger.calls[d].tag
    requires s.ledger.calls[c].phase.Waiting? && s.ledger.calls[c].slot == Dropped
    requires Holds(s.ledger.pending, s.ledger.calls, d)
    ensures ValidRun(codec, s, [Receive(c), Remove(c)])
    ensures var s' := After(codec, s, [Receive(c), Remove(c)]);
            && s'.mode == s.mode && |s'.ledger.calls| == |s.ledger.calls|
            && s'.ledger.calls[c].phase == Failed(ReaderExited) && s'.ledger.calls[d].slot == Dropped
  {
    var tail := [Receive(c), Remove(c)];
    assert tail[1..] == [Remove(c)] && tail[1..][1..] == [];
    var s1 := Do(codec, s, Receive(c));
    var s2 := Do(codec, s1, Remove(c));
    assert s1.ledger.calls[d] == s.ledger.calls[d] && Holds(s1.ledger.pending, s1.ledger.calls, d);
    assert Discard(s1.ledger, s1.ledger.calls[c].tag).calls[d].slot == Dropped;
    assert [Remove(c)][0] == Remove(c) && [Remove(c)][1..] == [];
    assert After(codec, s1, [Remove(c)]) == s2;
  }

  /** The two commands share a tag; the later insert drops the sender of the earlier, whose
      caller then fails with ReaderExited though the reader has not moved, and whose clean-up
      in turn drops the sender of the later command. Exactly 65535 tags were allocated after
      c, one more than the window allows. */
  lemma WrapMisleads(codec: Codec, s: State, c: nat)
    requires Inv(s) && !s.closed && c < |s.ledger.calls| <= Successor(c)
    requires s.ledger.calls[c].phase.Waiting? && Holds(s.ledger.pending, s.ledger.calls, c)
    ensures ValidRun(codec, s, WrapRun(s, c))
    ensures var s' := After(codec, s, WrapRun(s, c));
            && |s'.ledger.calls| - 1 - c == PERIOD
            && s'.mode == s.mode
            && s'.ledger.calls[c].phase == Failed(ReaderExited)
            && s'.ledger.calls[Successor(c)].slot == Dropped
  {
    var k, d := Successor(c) + 1 - |s.ledger.calls|, Successor(c);
    BurstGrows(codec, s, k);
    var s1 := After(codec, s, Burst(k));
    assert CallOk(c, s1.ledger.calls[c]) && CallOk(d, s1.ledger.calls[d]);
    SameTagIff(c, d);
    OverwriteStep(codec, s1, c, d);
    CleanUp(codec, Do(codec, s1, Insert(d)), c, d);
    var tail := [Insert(d), Receive(c), Remove(c)];
    assert tail[1..] == [Receive(c), Remove(c)];
    RunsCompose(codec, s, Burst(k), tail);
  }

  // ---------------------------------------------------------------- from the start of a session

  /** c inserts its entry and writes its frame. */
  function Writing(c: nat): seq<Action> {
    [Insert(c), Join(c), Deliver(c), WriteOk(c)]
  }

  /** c waits for the answer to a Ping, its entry in the map and the writer lock free. */
  ghost predicate Awaits(s: State, c: nat) {
    && c < |s.ledger.calls| && Holds(s.ledger.pending, s.ledger.calls, c)
    && s.ledger.calls[c].cmd == Ping && s.ledger.calls[c].phase.Waiting? && s.ledger.calls[c].slot == Open
    && s.ledger.calls[c].written && s.ledger.pending[s.ledger.calls[c].tag] == Entry(Ping, c)
    && s.pipe == Pipe([], Flowing) && s.mode.Idle? && !s.closed
  }

  lemma WritingAwaits(codec: Codec, s: State, c: nat)
    requires c < |s.ledger.calls| && Fresh(s.ledger.calls[c]) && s.ledger.calls[c].tag !in s.ledger.pending
    requires s.pipe == Pipe([], Flowing) && s.mode.Idle? && !s.closed
    ensures ValidRun(codec, s, Writing(c))
    ensures var s' := After(codec, s, Writing(c));
            Awaits(s', c) && s'.io == s.io && |s'.ledger.calls| == |s.ledger.calls|
            && s'.ledger.calls[c].tag == s.ledger.calls[c].tag
  {
    var acts, now := [], s;
    acts, now := Then(codec, s, acts, now, Insert(c));
    acts, now := Then(codec, s, acts, now, Join(c));
    acts, now := Then(codec, s, acts, now, Deliver(c));
    acts, now := Then(codec, s, acts, now, WriteOk(c));
    assert acts == Writing(c);
  }

  /** A first caller waits for its answer. */
  lemma FirstAwaits(codec: Codec) returns (acts: seq<Action>)
    ensures ValidRun(codec, INITIAL, acts)
    ensures var s := After(codec, INITIAL, acts);
            Inv(s) && Awaits(s, 0) && |s.ledger.calls| == 1 && s.io == INITIAL.io
  {
    var s := INITIAL;
    acts := [];
    acts, s := Then(codec, INITIAL, acts, s, CheckClosed);
    acts, s := Then(codec, INITIAL, acts, s, Alloc(Ping, true));
    WritingAwaits(codec, s, 0);
    RunsCompose(codec, INITIAL, acts, Writing(0));
    acts := acts + Writing(0);
    InvInitial();
    InvRun(codec, INITIAL, acts);
  }

  /** An untruthful error: the first command of a session fails with ReaderExited while the
      reader is there. */
  lemma WrapMisleadsFromStart(codec: Codec) returns (acts: seq<Action>)
    ensures ValidRun(codec, INITIAL, acts)
    ensures var s := After(codec, INITIAL, acts);
            |s.ledger.calls| == 1 + PERIOD && s.mode.Idle? && s.ledger.calls[0].phase == Failed(ReaderExited)
  {
    var first := FirstAwaits(codec);
    var s := After(codec, INITIAL, first);
    WrapMisleads(codec, s, 0);
    RunsCompose(codec, INITIAL, first, WrapRun(s, 0));
    acts := first + WrapRun(s, 0);
  }

  /** The device answers the first command too late: its caller has gone. */
  lemma LateAnswer(codec: Codec, f: Frame) returns (acts: seq<Action>)
    requires f.tag == NthTag(0)
    ensures ValidRun(codec, INITIAL, acts)
    ensures var s := After(codec, INITIAL, acts);
            && Inv(s) && |s.ledger.calls| == 1 && s.ledger.pending == map[] && s.mode.Idle? && !s.closed
            && s.pipe == Pipe([], Flowing) && s.io == INITIAL.io.(wire := [Inbound(Decoded(f), 0)])
  {
    acts := FirstAwaits(codec);
    var s := After(codec, INITIAL, acts);
    assert CallOk(0, s.ledger.calls[0]);
    assert forall t :: t in s.ledger.pending ==> t == NthTag(0) by {
      forall t | t in s.ledger.pending ensures t == NthTag(0) {
        assert EntryOk(s.ledger.calls, t, s.ledger.pending[t]);
      }
    }
    acts, s := Then(codec, INITIAL, acts, s, DeviceSend(Inbound(Decoded(f), 0)));
    acts, s := Then(codec, INITIAL, acts, s, TimeOut(0));
    acts, s := Then(codec, INITIAL, acts, s, Remove(0));
    InvInitial();
    InvRun(codec, INITIAL, acts);
  }

  /** The reader takes the only frame, which is about c and finds d's entry. */
  lemma TakenWrongly(codec: Codec, s: State, f: Frame, c: nat, d: nat) returns (acts: seq<Action>)
    requires Awaits(s, d) && s.io.read == 0 && s.io.cursor == 0 && s.io.wire == [Inbound(Decoded(f), c)]
    requires f.tag != 0 && f.tag == s.ledger.calls[d].tag
    ensures ValidRun(codec, s, acts)
    ensures var s' := After(codec, s, acts);
            && s'.ledger.calls == s.ledger.calls && s'.io.wire == s.io.wire
            && HoldsFinal(s') && s'.mode.frame == f && s'.ledger.reader[f.tag] == Entry(Ping, d)
  {
    var now := s;
    acts := [];
    acts, now := Then(codec, s, acts, now, Read(1));
    acts, now := Then(codec, s, acts, now, Take);
  }

  /** It resolves that entry, and d receives the answer. */
  lemma ServedWrongly(codec: Codec, s: State, f: Frame, d: nat) returns (acts: seq<Action>)
    requires d < |s.ledger.calls| && HoldsFinal(s) && s.mode.frame == f
    requires s.ledger.reader[f.tag] == Entry(Ping, d) && s.ledger.calls[d].phase.Waiting?
    ensures ValidRun(codec, s, acts)
    ensures var s' := After(codec, s, acts);
            && |s'.ledger.calls| == |s.ledger.calls| && s'.io.wire == s.io.wire
            && s'.ledger.calls[d].phase == Answered(Answer(codec, Ping, f))
  {
    var now := s;
    acts := [];
    acts, now := Then(codec, s, acts, now, Resolve);
    acts, now := Then(codec, s, acts, now, Receive(d));
  }

  /** Another's response: the only frame the device ever sent is about command 0, and it is
      command 65535 that receives the answer to it. */
  lemma WrapMisdelivers(codec: Codec, f: Frame) returns (acts: seq<Action>)
    requires f.tag == NthTag(0)
    ensures ValidRun(codec, INITIAL, acts)
    ensures var s := After(codec, INITIAL, acts);
            && |s.ledger.calls| == 1 + PERIOD && s.io.wire == [Inbound(Decoded(f), 0)]
            && s.ledger.calls[PERIOD].phase == Answered(Answer(codec, Ping, f))
  {
    acts := LateAnswer(codec, f);
    var s := After(codec, INITIAL, acts);
    BurstGrows(codec, s, PERIOD);
    RunsCompose(codec, INITIAL, acts, Burst(PERIOD));
    acts := acts + Burst(PERIOD);
    s := After(codec, INITIAL, acts);
    assert CallOk(PERIOD, s.ledger.calls[PERIOD]);
    SameTagIff(0, PERIOD);
    WritingAwaits(codec, s, PERIOD);
    RunsCompose(codec, INITIAL, acts, Writing(PERIOD));
    acts := acts + Writing(PERIOD);
    s := After(codec, INITIAL, acts);
    var taken := TakenWrongly(codec, s, f, 0, PERIOD);
    RunsCompose(codec, INITIAL, acts, taken);
    acts := acts + taken;
    var served := ServedWrongly(codec, After(codec, INITIAL, acts), f, PERIOD);
    RunsCompose(codec, INITIAL, acts, served);
    acts := acts + served;
  }

  // ---------------------------------------------------------------- the exact size of the window

  /** Every caller that received a response received its own, or the teardown error. */
  ghost predicate Correlated(codec: Codec, s: State) {
    forall c :: 0 <= c < |s.ledger.calls| && s.ledger.calls[c].phase.Answered? ==> OwnResponse(codec, s, c)
  }

  /** Every caller that failed did so for a reason of its own. */
  ghost predicate Truthful(s: State) {
    forall c :: 0 <= c < |s.ledger.calls| && s.ledger.calls[c].phase.Failed? ==> OwnError(s, c)
  }

  lemma {:induction false} SmallerWindow(codec: Codec, s: State, acts: seq<Action>, w: nat)
    requires ValidRun(codec, s, acts) && WithinRun(codec, s, acts, w) && w <= PERIOD
    ensures Windowed(codec, s, acts)
    decreases |acts|
  {
    if acts != [] {
      SmallerWindow(codec, Do(codec, s, acts[0]), acts[1..], w);
    }
  }

  /** A run that allocates at most w tags in all is within w. */
  lemma {:induction false} FewAllocations(codec: Codec, s: State, acts: seq<Action>, w: nat)
    requires ValidRun(codec, s, acts) && |After(codec, s, acts).ledger.calls| <= w
    ensures |s.ledger.calls| <= w && WithinRun(codec, s, acts, w)
    decreases |acts|
  {
    if acts != [] {
      StepExtends(codec, s, acts[0]);
      FewAllocations(codec, Do(codec, s, acts[0]), acts[1..], w);
    }
  }

  /** The window is exactly right: if runs are held to fewer than w allocations after any
      command that is alive, every caller gets its own response in all of them exactly when
      w is at most 65535. */
  lemma CorrelatedIff(codec: Codec, w: nat)
    ensures (forall acts :: ValidRun(codec, INITIAL, acts) && WithinRun(codec, INITIAL, acts, w) ==>
               Correlated(codec, After(codec, INITIAL, acts)))
            <==> w <= PERIOD
  {
    if w <= PERIOD {
      forall acts | ValidRun(codec, INITIAL, acts) && WithinRun(codec, INITIAL, acts, w)
        ensures Correlated(codec, After(codec, INITIAL, acts))
      {
        SmallerWindow(codec, INITIAL, acts, w);
        var s := After(codec, INITIAL, acts);
        forall c | 0 <= c < |s.ledger.calls| && s.ledger.calls[c].phase.Answered? ensures OwnResponse(codec, s, c) {
          OwnResponseOnly(codec, acts, c);
        }
      }
    } else {
      var acts := WrapMisdelivers(codec, Frame(Unknown(0), NthTag(0), []));
      FewAllocations(codec, INITIAL, acts, w);
      assert !OwnResponse(codec, After(codec, INITIAL, acts), PERIOD);
    }
  }

  /** Likewise for the errors: they are the caller's own in all runs exactly when w is at
      most 65535. */
  lemma TruthfulIff(codec: Codec, w: nat)
    ensures (forall acts :: ValidRun(codec, INITIAL, acts) && WithinRun(codec, INITIAL, acts, w) ==>
               Truthful(After(codec, INITIAL, acts)))
            <==> w <= PERIOD
  {
    if w <= PERIOD {
      forall acts | ValidRun(codec, INITIAL, acts) && WithinRun(codec, INITIAL, acts, w)
        ensures Truthful(After(codec, INITIAL, acts))
      {
        SmallerWindow(codec, INITIAL, acts, w);
        var s := After(codec, INITIAL, acts);
        forall c | 0 <= c < |s.ledger.calls| && s.ledger.calls[c].phase.Failed? ensures OwnError(s, c) {
          OwnErrorsOnly(codec, acts, c);
        }
      }
    } else {
      var acts := WrapMisleadsFromStart(codec);
      FewAllocations(codec, INITIAL, acts, w);
      assert !OwnError(After(codec, INITIAL, acts), 0);
    }
  }
}
