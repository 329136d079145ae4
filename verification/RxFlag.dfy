/** The cached `rx_started` flag against the device's real receive state, under every
    interleaving of `rx_start`, `rx_stop` and `set_config`.

    One action is one lock acquisition, one command executed or refused by the device, or
    one reply handled. A refusal stands for every error that changes nothing at the device;
    an executed command whose reply is lost is an action of its own, and so is the device's
    inactivity timer, which ends reception and forgets the configuration.
 */
module RxFlag {
  import opened Protocol
  import opened Histories

  datatype Kind = Start | Stop | Reconfigure

  datatype Pc =
    | Begin                  // before the flag's lock (rx_start) or the command (the others)
    | Issued                 // command on its way; rx_start holds the lock
    | Replied(ok: bool)
    | Reapplying             // rx_start after ENOTCONFIGURED: lock released, SET_CONFIG issued
    | Restarting             // second RX_START issued, lock not held
    | Restarted              // second RX_START executed, flag not yet set
    | Finished

  datatype Op = Op(kind: Kind, pc: Pc)

  datatype State = State(started: bool, holder: Option<nat>, receiving: bool, ops: seq<Op>)

  const INITIAL := State(false, None, false, [])

  datatype Action =
    | Call(kind: Kind) | Lock(i: nat) | Issue(i: nat) | Execute(i: nat) | Refuse(i: nat) | Finish(i: nat)
    // automatic recovery
    | Unconfigured(i: nat) | ReapplyOk(i: nat) | ReapplyErr(i: nat)
    | RestartOk(i: nat) | RestartErr(i: nat) | SetFlag(i: nat)
    | BackgroundReconfig     // SET_CONFIG re-applied by `tx` recovery or by the keepalive task
    // the device executes the command, the reply is lost
    | ExecuteLost(i: nat) | ReapplyLost(i: nat) | RestartLost(i: nat)
    | InactivityExpired

  predicate IsRecovery(a: Action) {
    a.Unconfigured? || a.ReapplyOk? || a.ReapplyErr? || a.RestartOk? || a.RestartErr? || a.SetFlag?
    || a.BackgroundReconfig? || a.ReapplyLost? || a.RestartLost?
  }

  predicate Is(s: State, i: nat, pc: Pc) {
    i < |s.ops| && s.ops[i].pc == pc
  }

  predicate Enabled(s: State, a: Action) {
    match a
    case Call(_) => true
    case Lock(i) => Is(s, i, Begin) && s.ops[i].kind == Start && s.holder == None
    case Issue(i) => Is(s, i, Begin) && s.ops[i].kind != Start
    case Execute(i) => Is(s, i, Issued)
    case Refuse(i) => Is(s, i, Issued)
    case Finish(i) =>
      i < |s.ops| && s.ops[i].pc.Replied? && (s.ops[i].kind == Start || !s.ops[i].pc.ok || s.holder == None)
    case Unconfigured(i) => Is(s, i, Issued) && s.ops[i].kind == Start
    case ReapplyOk(i) => Is(s, i, Reapplying)
    case ReapplyErr(i) => Is(s, i, Reapplying)
    case RestartOk(i) => Is(s, i, Restarting)
    case RestartErr(i) => Is(s, i, Restarting)
    case SetFlag(i) => Is(s, i, Restarted) && s.holder == None
    case BackgroundReconfig => true
    case ExecuteLost(i) => Is(s, i, Issued)
    case ReapplyLost(i) => Is(s, i, Reapplying)
    case RestartLost(i) => Is(s, i, Restarting)
    case InactivityExpired => true
  }

  function At(s: State, i: nat, pc: Pc): State
    requires i < |s.ops|
  {
    s.(ops := s.ops[i := s.ops[i].(pc := pc)])
  }

  function Do(s: State, a: Action): State
    requires Enabled(s, a)
  {
    match a
    case Call(kind) => s.(ops := s.ops + [Op(kind, Begin)])
    case Lock(i) => if s.started then At(s, i, Finished) else At(s, i, Issued).(holder := Some(i))
    case Issue(i) => At(s, i, Issued)
    case Execute(i) => At(s, i, Replied(true)).(receiving := s.ops[i].kind == Start)
    case Refuse(i) => At(s, i, Replied(false))
    case Finish(i) =>
      var ok := s.ops[i].pc.ok;
      (match s.ops[i].kind
       case Start => At(s, i, Finished).(started := s.started || ok, holder := None)
       case _ => At(s, i, Finished).(started := s.started && !ok))
    case Unconfigured(i) => At(s, i, Reapplying).(holder := None)
    case ReapplyOk(i) => At(s, i, Restarting).(receiving := false)
    case ReapplyErr(i) => At(s, i, Finished)
    case RestartOk(i) => At(s, i, Restarted).(receiving := true)
    case RestartErr(i) => At(s, i, Finished)
    case SetFlag(i) => At(s, i, Finished).(started := true)
    case BackgroundReconfig => s.(receiving := false)
    case ExecuteLost(i) => At(s, i, Replied(false)).(receiving := s.ops[i].kind == Start)
    case ReapplyLost(i) => At(s, i, Finished).(receiving := false)
    case RestartLost(i) => At(s, i, Finished).(receiving := true)
    case InactivityExpired => s.(receiving := false)
  }

  predicate ValidRun(s: State, acts: seq<Action>)
    decreases |acts|
  {
    acts == [] || (Enabled(s, acts[0]) && ValidRun(Do(s, acts[0]), acts[1..]))
  }

  function After(s: State, acts: seq<Action>): State
    requires ValidRun(s, acts)
    decreases |acts|
  {
    if acts == [] then s else After(Do(s, acts[0]), acts[1..])
  }

  /** The states a run goes through. */
  function States(s: State, acts: seq<Action>): (r: seq<State>)
    requires ValidRun(s, acts)
    ensures |r| == |acts| + 1 && r[0] == s && r[|acts|] == After(s, acts)
    ensures forall k :: 0 <= k < |acts| ==> Enabled(r[k], acts[k]) && r[k + 1] == Do(r[k], acts[k])
    decreases |acts|
  {
    if acts == [] then [s] else [s] + States(Do(s, acts[0]), acts[1..])
  }

  // ---------------------------------------------------------------- the flag tells the truth, or is about to

  /** A stop or reconfiguration has taken effect at the device and will clear the flag. */
  predicate Clears(op: Op) {
    op.kind != Start && op.pc == Replied(true)
  }

  ghost predicate ClearPending(s: State) {
    exists i :: 0 <= i < |s.ops| && Clears(s.ops[i])
  }

  ghost predicate FlagSafe(s: State) {
    s.started ==> s.receiving || ClearPending(s)
  }

  /** rx_start holds the lock from its test of the flag until it sets it. */
  ghost predicate LockOk(s: State) {
    && (forall i :: 0 <= i < |s.ops| && s.ops[i].kind == Start && (s.ops[i].pc == Issued || s.ops[i].pc.Replied?)
          ==> s.holder == Some(i) && !s.started)
    && (s.holder.Some? ==>
          var i := s.holder.value;
          i < |s.ops| && s.ops[i].kind == Start && (s.ops[i].pc == Issued || s.ops[i].pc.Replied?))
  }

  /** The rx_start that holds the lock has executed and will raise the flag. */
  predicate RaisePending(s: State) {
    s.holder.Some? && Is(s, s.holder.value, Replied(true))
  }

  /** A flag that is up, or about to be raised, is true or about to be taken down. */
  ghost predicate Sound(s: State) {
    s.started || RaisePending(s) ==> s.receiving || ClearPending(s)
  }

  lemma LockMoves(s: State, a: Action)
    requires LockOk(s) && Enabled(s, a) && (a.Lock? || a.Finish? || a.Unconfigured? || a.SetFlag?)
    ensures LockOk(Do(s, a))
  {
  }

  lemma LockStep(s: State, a: Action)
    requires LockOk(s) && Enabled(s, a)
    ensures LockOk(Do(s, a))
  {
    if a.Lock? || a.Finish? || a.Unconfigured? || a.SetFlag? {
      LockMoves(s, a);
    }
  }

  /** Reception ends at the device. */
  predicate Silences(s: State, a: Action) {
    a.BackgroundReconfig? || a.ReapplyOk? || a.ReapplyLost? || a.InactivityExpired?
    || ((a.Execute? || a.ExecuteLost?) && a.i < |s.ops| && s.ops[a.i].kind != Start)
  }

  /** Reception begins at the device. */
  predicate Starts(s: State, a: Action) {
    a.RestartOk? || a.RestartLost?
    || ((a.Execute? || a.ExecuteLost?) && a.i < |s.ops| && s.ops[a.i].kind == Start)
  }

  /** What puts a wrong flag right: reception begins, or a stop or reconfiguration executes
      and will take the flag down. */
  predicate Mends(s: State, a: Action) {
    Starts(s, a) || a.Execute?
  }

  /** What makes a flag wrong: ending reception without being going to clear the flag, while
      it is up or an executed rx_start is about to raise it; or raising it, after recovery,
      on a device that is not receiving. Both are harmless while a clear is pending. */
  ghost predicate Misleads(s: State, a: Action) {
    && !ClearPending(s)
    && ((Silences(s, a) && !a.Execute? && (s.started || RaisePending(s))) || (a.SetFlag? && !s.receiving))
  }

  lemma ClearsKept(s: State, a: Action)
    requires LockOk(s) && Enabled(s, a) && !a.Execute?
    requires a.Finish? ==> !Clears(s.ops[a.i])
    ensures ClearPending(Do(s, a)) <==> ClearPending(s)
  {
    var s' := Do(s, a);
    if ClearPending(s) {
      var j :| 0 <= j < |s.ops| && Clears(s.ops[j]);
      assert Clears(s'.ops[j]);
    }
    if ClearPending(s') {
      var j :| 0 <= j < |s'.ops| && Clears(s'.ops[j]);
      assert Clears(s.ops[j]);
    }
  }

  lemma ExecuteIsSound(s: State, i: nat)
    requires LockOk(s) && Enabled(s, Execute(i))
    ensures Sound(Do(s, Execute(i)))
  {
    assert s.ops[i].kind != Start ==> Clears(Do(s, Execute(i)).ops[i]);
  }

  /** Whoever clears the flag finds the lock free. */
  lemma ClearIsSound(s: State, i: nat)
    requires LockOk(s) && Enabled(s, Finish(i)) && Clears(s.ops[i])
    ensures Sound(Do(s, Finish(i))) && Sound(s)
  {
  }

  /** Every action, recovery, lost replies and expiry included, leaves the flag sound exactly when it
      mends it, or finds it sound and does not mislead. */
  lemma SoundStepIff(s: State, a: Action)
    requires LockOk(s) && Enabled(s, a)
    ensures Sound(Do(s, a)) <==> Mends(s, a) || (Sound(s) && !Misleads(s, a))
  {
    if a.Execute? {
      ExecuteIsSound(s, a.i);
    } else if a.Finish? && Clears(s.ops[a.i]) {
      ClearIsSound(s, a.i);
    } else {
      ClearsKept(s, a);
    }
  }

  // ---------------------------------------------------------------- over runs

  /** Reception ended before step k and has not begun again. */
  ghost predicate SilencedBefore(st: seq<State>, acts: seq<Action>, k: nat)
    requires k <= |acts| < |st|
  {
    exists m :: 0 <= m < k && Silences(st[m], acts[m]) && forall n :: m < n < k ==> !Starts(st[n], acts[n])
  }

  /** Step k misleads: the configuration is re-applied, a reply lost or the device timed out
      behind a flag that is up or being raised; or a recovering rx_start raises the flag although reception was
      ended since its second command. */
  ghost predicate MisleadsAt(st: seq<State>, acts: seq<Action>, k: nat)
    requires k < |acts| < |st|
  {
    && !ClearPending(st[k])
    && if acts[k].SetFlag? then SilencedBefore(st, acts, k)
       else Silences(st[k], acts[k]) && !acts[k].Execute? && (st[k].started || RaisePending(st[k]))
  }

  /** Every misleading step of the run was mended later. */
  ghost predicate AllMended(st: seq<State>, acts: seq<Action>)
    requires |acts| < |st|
  {
    forall k :: 0 <= k < |acts| && MisleadsAt(st, acts, k) ==>
      exists m :: k < m < |acts| && Mends(st[m], acts[m])
  }

  lemma {:induction false} LockHolds(acts: seq<Action>, k: nat)
    requires ValidRun(INITIAL, acts) && k <= |acts|
    ensures LockOk(States(INITIAL, acts)[k])
    decreases k
  {
    if k > 0 {
      LockHolds(acts, k - 1);
      LockStep(States(INITIAL, acts)[k - 1], acts[k - 1]);
    }
  }

  lemma ReceivingStep(s: State, a: Action)
    requires Enabled(s, a)
    ensures Do(s, a).receiving <==> Starts(s, a) || (s.receiving && !Silences(s, a))
    ensures !(Starts(s, a) && Silences(s, a))
  {
  }

  lemma SilencedStep(st: seq<State>, acts: seq<Action>, k: nat)
    requires 0 < k <= |acts| < |st|
    ensures SilencedBefore(st, acts, k) <==>
            Silences(st[k - 1], acts[k - 1])
            || (SilencedBefore(st, acts, k - 1) && !Starts(st[k - 1], acts[k - 1]))
  {
    if SilencedBefore(st, acts, k - 1) && !Starts(st[k - 1], acts[k - 1]) {
      var m :| 0 <= m < k - 1 && Silences(st[m], acts[m]) && forall n :: m < n < k - 1 ==> !Starts(st[n], acts[n]);
      assert forall n :: m < n < k ==> !Starts(st[n], acts[n]);
    }
  }

  /** Reception has begun before step k. */
  ghost predicate StartedBefore(st: seq<State>, acts: seq<Action>, k: nat)
    requires k <= |acts| < |st|
  {
    exists n :: 0 <= n < k && Starts(st[n], acts[n])
  }

  /** The device receives at step k exactly when reception has begun and no silencing has come
      after the last beginning. */
  lemma {:induction false} ReceivingIff(acts: seq<Action>, k: nat)
    requires ValidRun(INITIAL, acts) && k <= |acts|
    ensures var st := States(INITIAL, acts);
            st[k].receiving <==> StartedBefore(st, acts, k) && !SilencedBefore(st, acts, k)
    decreases k
  {
    var st := States(INITIAL, acts);
    if k > 0 {
      ReceivingIff(acts, k - 1);
      ReceivingStep(st[k - 1], acts[k - 1]);
      SilencedStep(st, acts, k);
      assert StartedBefore(st, acts, k) <==> StartedBefore(st, acts, k - 1) || Starts(st[k - 1], acts[k - 1]);
    }
  }

  lemma RestartIsStart(s: State, a: Action, i: nat)
    requires Enabled(s, a) && Is(Do(s, a), i, Restarted) && !Is(s, i, Restarted)
    ensures Starts(s, a)
  {
  }

  /** A restarted operation has begun reception. */
  lemma {:induction false} RestartedSince(acts: seq<Action>, k: nat, i: nat)
    requires ValidRun(INITIAL, acts) && k <= |acts| && Is(States(INITIAL, acts)[k], i, Restarted)
    ensures StartedBefore(States(INITIAL, acts), acts, k)
    decreases k
  {
    var st := States(INITIAL, acts);
    if Is(st[k - 1], i, Restarted) {
      RestartedSince(acts, k - 1, i);
    } else {
      RestartIsStart(st[k - 1], acts[k - 1], i);
    }
  }

  /** What a run's history says of a misleading step is what its state says. */
  lemma MisleadsByHistory(acts: seq<Action>, k: nat)
    requires ValidRun(INITIAL, acts) && k < |acts|
    ensures MisleadsAt(States(INITIAL, acts), acts, k) <==> Misleads(States(INITIAL, acts)[k], acts[k])
  {
    if acts[k].SetFlag? {
      assert Enabled(States(INITIAL, acts)[k], acts[k]);
      RestartedSince(acts, k, acts[k].i);
      ReceivingIff(acts, k);
    }
  }

  lemma SoundAt(acts: seq<Action>, k: nat)
    requires ValidRun(INITIAL, acts) && k < |acts|
    ensures var st := States(INITIAL, acts);
            && (Sound(st[k + 1]) <==> Mends(st[k], acts[k]) || (Sound(st[k]) && !MisleadsAt(st, acts, k)))
            && (MisleadsAt(st, acts, k) ==> !Mends(st[k], acts[k]))
  {
    LockHolds(acts, k);
    SoundStepIff(States(INITIAL, acts)[k], acts[k]);
    MisleadsByHistory(acts, k);
  }

  /** Over every run, with recovery, lost replies and expiry: the flag ends sound exactly when every
      misleading step was mended later. */
  lemma SoundIff(acts: seq<Action>)
    requires ValidRun(INITIAL, acts)
    ensures Sound(After(INITIAL, acts)) <==> AllMended(States(INITIAL, acts), acts)
  {
    var st, n := States(INITIAL, acts), |acts|;
    ghost var ok := seq(n + 1, k requires 0 <= k <= n => Sound(st[k]));
    ghost var breaks := seq(n, k requires 0 <= k < n => MisleadsAt(st, acts, k));
    ghost var mends := seq(n, k requires 0 <= k < n => Mends(st[k], acts[k]));
    forall k | 0 <= k < n
      ensures ok[k + 1] == (mends[k] || (ok[k] && !breaks[k])) && (breaks[k] ==> !mends[k])
    {
      SoundAt(acts, k);
    }
    BreaksMended(ok, breaks, mends);
    assert forall k :: 0 <= k < n ==> breaks[k] == MisleadsAt(st, acts, k) && mends[k] == Mends(st[k], acts[k]);
  }

  /** With nothing in progress a raised flag is true exactly when every misleading step was
      mended later. */
  lemma QuiescentFlagTrueIff(acts: seq<Action>)
    requires ValidRun(INITIAL, acts) && Quiescent(After(INITIAL, acts))
    ensures var s := After(INITIAL, acts); (s.started ==> s.receiving) <==> AllMended(States(INITIAL, acts), acts)
  {
    LockHolds(acts, |acts|);
    SoundIff(acts);
  }

  predicate Quiescent(s: State) {
    forall i :: 0 <= i < |s.ops| ==> s.ops[i].pc == Finished
  }

  /** In every run without automatic recovery, lost replies or expiry: when the flag is up, the
      device is receiving or a stop or reconfiguration has executed and has not yet taken the
      flag down; so with nothing in progress a raised flag is true. */
  lemma FlagSafety(acts: seq<Action>)
    requires ValidRun(INITIAL, acts)
    requires forall k :: 0 <= k < |acts| ==>
      !IsRecovery(acts[k]) && !acts[k].ExecuteLost? && !acts[k].InactivityExpired?
    ensures FlagSafe(After(INITIAL, acts))
    ensures var s := After(INITIAL, acts); Quiescent(s) && s.started ==> s.receiving
  {
    SoundIff(acts);
  }

  // ---------------------------------------------------------------- runs that mislead

  lemma {:induction false} Append(s: State, acts: seq<Action>, a: Action)
    requires ValidRun(s, acts) && Enabled(After(s, acts), a)
    ensures ValidRun(s, acts + [a]) && After(s, acts + [a]) == Do(After(s, acts), a)
    decreases |acts|
  {
    if acts == [] {
      assert [a][1..] == [] && acts + [a] == [a];
    } else {
      assert (acts + [a])[0] == acts[0] && (acts + [a])[1..] == acts[1..] + [a];
      Append(Do(s, acts[0]), acts[1..], a);
    }
  }

  /** Extend a run from the start by one action, to a state given in full. */
  lemma Then(acts: seq<Action>, a: Action, next: State) returns (longer: seq<Action>)
    requires ValidRun(INITIAL, acts) && Enabled(After(INITIAL, acts), a) && Do(After(INITIAL, acts), a) == next
    ensures longer == acts + [a] && ValidRun(INITIAL, longer) && After(INITIAL, longer) == next
  {
    Append(INITIAL, acts, a);
    longer := acts + [a];
  }

  /** A listener starts reception undisturbed. */
  lemma StartedRun() returns (acts: seq<Action>)
    ensures ValidRun(INITIAL, acts) && After(INITIAL, acts) == State(true, None, true, [Op(Start, Finished)])
  {
    acts := Then([], Call(Start), State(false, None, false, [Op(Start, Begin)]));
    acts := Then(acts, Lock(0), State(false, Some(0), false, [Op(Start, Issued)]));
    acts := Then(acts, Execute(0), State(false, Some(0), true, [Op(Start, Replied(true))]));
    acts := Then(acts, Finish(0), State(true, None, true, [Op(Start, Finished)]));
  }

  /** One reconfiguration by the keepalive task, or by `tx`, leaves the flag up on a device
      that has stopped receiving, with nothing on its way to correct it. */
  lemma BackgroundReconfigMisleads() returns (acts: seq<Action>)
    ensures ValidRun(INITIAL, acts) && Stale(After(INITIAL, acts)) && !FlagSafe(After(INITIAL, acts))
  {
    acts := StartedRun();
    acts := Then(acts, BackgroundReconfig, State(true, None, false, [Op(Start, Finished)]));
  }

  /** So does the device's timer, with no re-application and no keepalive at all. */
  lemma ExpiryMisleads() returns (acts: seq<Action>)
    ensures ValidRun(INITIAL, acts) && Stale(After(INITIAL, acts)) && !FlagSafe(After(INITIAL, acts))
  {
    acts := StartedRun();
    acts := Then(acts, InactivityExpired, State(true, None, false, [Op(Start, Finished)]));
  }

  /** So does a re-application that comes while the flag is still down, between the execution of an
      rx_start and its reply. */
  lemma ReconfigUnderStartMisleads() returns (acts: seq<Action>)
    ensures ValidRun(INITIAL, acts) && Stale(After(INITIAL, acts)) && !FlagSafe(After(INITIAL, acts))
  {
    acts := Then([], Call(Start), State(false, None, false, [Op(Start, Begin)]));
    acts := Then(acts, Lock(0), State(false, Some(0), false, [Op(Start, Issued)]));
    acts := Then(acts, Execute(0), State(false, Some(0), true, [Op(Start, Replied(true))]));
    acts := Then(acts, BackgroundReconfig, State(false, Some(0), false, [Op(Start, Replied(true))]));
    acts := Then(acts, Finish(0), State(true, None, false, [Op(Start, Finished)]));
  }

  /** An rx_start is recovering from ENOTCONFIGURED. */
  lemma RecoveringRun() returns (acts: seq<Action>)
    ensures ValidRun(INITIAL, acts) && After(INITIAL, acts) == State(false, None, false, [Op(Start, Reapplying)])
  {
    acts := Then([], Call(Start), State(false, None, false, [Op(Start, Begin)]));
    acts := Then(acts, Lock(0), State(false, Some(0), false, [Op(Start, Issued)]));
    acts := Then(acts, Unconfigured(0), State(false, None, false, [Op(Start, Reapplying)]));
  }

  /** Meanwhile another goes through. */
  lemma OvertakingRun() returns (acts: seq<Action>)
    ensures ValidRun(INITIAL, acts)
    ensures After(INITIAL, acts) == State(true, None, true, [Op(Start, Reapplying), Op(Start, Finished)])
  {
    acts := RecoveringRun();
    acts := Then(acts, Call(Start), State(false, None, false, [Op(Start, Reapplying), Op(Start, Begin)]));
    acts := Then(acts, Lock(1), State(false, Some(1), false, [Op(Start, Reapplying), Op(Start, Issued)]));
    acts := Then(acts, Execute(1), State(false, Some(1), true, [Op(Start, Reapplying), Op(Start, Replied(true))]));
    acts := Then(acts, Finish(1), State(true, None, true, [Op(Start, Reapplying), Op(Start, Finished)]));
  }

  /** It then re-applies the configuration behind the flag the other has raised, and its own
      second command is refused. */
  lemma ReapplyMisleads() returns (acts: seq<Action>)
    ensures ValidRun(INITIAL, acts) && Stale(After(INITIAL, acts)) && !FlagSafe(After(INITIAL, acts))
  {
    acts := OvertakingRun();
    acts := Then(acts, ReapplyOk(0), State(true, None, false, [Op(Start, Restarting), Op(Start, Finished)]));
    acts := Then(acts, RestartErr(0), State(true, None, false, [Op(Start, Finished), Op(Start, Finished)]));
  }

  /** A stop that executes and whose reply is lost leaves the flag up. */
  lemma LostStopMisleads() returns (acts: seq<Action>)
    ensures ValidRun(INITIAL, acts) && Stale(After(INITIAL, acts)) && !FlagSafe(After(INITIAL, acts))
  {
    acts := StartedRun();
    acts := Then(acts, Call(Stop), State(true, None, true, [Op(Start, Finished), Op(Stop, Begin)]));
    acts := Then(acts, Issue(1), State(true, None, true, [Op(Start, Finished), Op(Stop, Issued)]));
    acts := Then(acts, ExecuteLost(1), State(true, None, false, [Op(Start, Finished), Op(Stop, Replied(false))]));
    acts := Then(acts, Finish(1), State(true, None, false, [Op(Start, Finished), Op(Stop, Finished)]));
  }

  /** rx_start recovers from ENOTCONFIGURED and its second command executes. */
  lemma RestartedRun() returns (acts: seq<Action>)
    ensures ValidRun(INITIAL, acts) && After(INITIAL, acts) == State(false, None, true, [Op(Start, Restarted)])
  {
    acts := RecoveringRun();
    acts := Then(acts, ReapplyOk(0), State(false, None, false, [Op(Start, Restarting)]));
    acts := Then(acts, RestartOk(0), State(false, None, true, [Op(Start, Restarted)]));
  }

  /** A stop that runs between the recovering rx_start's second command and its flag update
      is forgotten. */
  lemma RecoveringStartMisleads() returns (acts: seq<Action>)
    ensures ValidRun(INITIAL, acts) && Stale(After(INITIAL, acts)) && !FlagSafe(After(INITIAL, acts))
  {
    acts := RestartedRun();
    acts := Then(acts, Call(Stop), State(false, None, true, [Op(Start, Restarted), Op(Stop, Begin)]));
    acts := Then(acts, Issue(1), State(false, None, true, [Op(Start, Restarted), Op(Stop, Issued)]));
    acts := Then(acts, Execute(1), State(false, None, false, [Op(Start, Restarted), Op(Stop, Replied(true))]));
    acts := Then(acts, Finish(1), State(false, None, false, [Op(Start, Restarted), Op(Stop, Finished)]));
    acts := Then(acts, SetFlag(0), State(true, None, false, [Op(Start, Finished), Op(Stop, Finished)]));
  }

  /** The flag is up, the device is not receiving, and every operation is over. */
  ghost predicate Stale(s: State) {
    && s.started && !s.receiving && s.holder == None
    && forall i :: 0 <= i < |s.ops| ==> s.ops[i].pc == Finished || s.ops[i] == Op(Start, Begin)
  }

  /** Listeners start reception if the flag is down; the keepalive may re-apply the
      configuration at any time. */
  predicate ListenerOnly(acts: seq<Action>) {
    forall k :: 0 <= k < |acts| ==>
      (IsRecovery(acts[k]) ==> acts[k] == BackgroundReconfig) && (acts[k].Call? ==> acts[k].kind == Start)
  }

  /** A stale flag starves listeners: whatever number of rx_start calls follow, none of
      them reaches the device, until someone stops or reconfigures through the API. */
  lemma {:induction false} StaleFlagStarves(s: State, acts: seq<Action>)
    requires Stale(s) && ValidRun(s, acts) && ListenerOnly(acts)
    ensures Stale(After(s, acts))
    decreases |acts|
  {
    if acts != [] {
      StaleFlagStarves(Do(s, acts[0]), acts[1..]);
    }
  }
}
