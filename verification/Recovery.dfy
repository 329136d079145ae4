/** Automatic recovery from ENOTCONFIGURED: the dongle's cached configuration, the device's
    own, and the commands each call puts on the wire.

    Calls are sequential here and the device has one client. `norm` is what the device
    makes of a configuration it accepts; it echoes that back.
 */
module Recovery {
  import opened Protocol
  import opened Histories

  type Norm = Modulation -> Modulation

  /** A configuration the device has echoed is one it leaves as it is. */
  ghost predicate EchoesAreStable(norm: Norm) {
    forall m :: norm(norm(m)) == norm(m)
  }

  /** The device's part in one SET_CONFIG. */
  datatype Fate =
    | Accepted
    | Locked                       // OK, but the stored configuration is kept and echoed
    | Refused(error: ClientError)
    | Lost(executed: bool)         // the reply never arrives: a timeout

  /** What the dongle caches (configuration and receive flag), what is so at the device, and
      the commands sent so far. */
  datatype World = World(
    applied: Option<Modulation>, started: bool,
    held: Option<Modulation>, receiving: bool,
    wire: seq<CmdType>)

  /** SET_CONFIG, when it takes effect, also ends reception. */
  function Reconfigured(norm: Norm, w: World, m: Modulation): World {
    w.(held := Some(norm(m)), receiving := false)
  }

  function SessionSetConfig(norm: Norm, w: World, m: Modulation, fate: Fate): (World, Result<Modulation, ClientError>) {
    var sent := w.(wire := w.wire + [SetConfig]);
    match fate
    case Accepted => (Reconfigured(norm, sent, m), Success(norm(m)))
    case Locked =>
      if w.held.Some? then (sent, Success(w.held.value)) else (Reconfigured(norm, sent, m), Success(norm(m)))
    case Refused(e) => (sent, Failure(e))
    case Lost(executed) => (if executed then Reconfigured(norm, sent, m) else sent, Failure(Timeout(SetConfig)))
  }

  /** The device's part in any other command: a reply that arrives, or one that does not
      although a configured device may have executed the command. */
  datatype Ack<T> = Replied(result: Result<T, ClientError>) | Unanswered(executed: bool)

  /** A command other than SET_CONFIG: without reply a timeout, otherwise refused by an
      unconfigured device, otherwise the reply. */
  function SessionCommand<T>(w: World, cmd: CmdType, ack: Ack<T>): (World, Result<T, ClientError>) {
    (w.(wire := w.wire + [cmd]),
     match ack
     case Unanswered(_) => Failure(Timeout(cmd))
     case Replied(result) => if w.held.None? then Failure(NotConfigured) else result)
  }

  /** The device carries the command out, whether or not the caller learns of it. */
  predicate Executes<T>(w: World, ack: Ack<T>) {
    w.held.Some? && match ack
                    case Unanswered(executed) => executed
                    case Replied(result) => result.Success?
  }

  function SessionRxStart(w: World, ack: Ack<()>): (World, Result<(), ClientError>) {
    var (w', r) := SessionCommand(w, RxStart, ack);
    (w'.(receiving := w'.receiving || Executes(w, ack)), r)
  }

  function SessionRxStop(w: World, ack: Ack<()>): (World, Result<(), ClientError>) {
    var (w', r) := SessionCommand(w, RxStop, ack);
    (w'.(receiving := w'.receiving && !Executes(w, ack)), r)
  }

  function ReapplyConfig(norm: Norm, w: World, fate: Fate): (World, Result<(), ClientError>) {
    if w.applied.None? then (w, Failure(NotConfigured))
    else
      var (w', r) := SessionSetConfig(norm, w, w.applied.value, fate);
      if r.Failure? then (w', Failure(r.error)) else (w'.(applied := Some(r.value)), Success(()))
  }

  /** One sequential event in a dongle's life. */
  datatype Event =
    | TxCall(tx1: Ack<TxDone>, fate: Fate, tx2: Ack<TxDone>)
    | RxStartCall(rx1: Ack<()>, fate: Fate, rx2: Ack<()>)
    | RxStopCall(stop: Ack<()>)
    | SetConfigCall(m: Modulation, fate: Fate)
    | KeepaliveTick(ping: Ack<()>, fate: Fate)
    | InactivityExpired

  function TxOp(norm: Norm, w: World, e: Event): (World, Result<TxDone, ClientError>)
    requires e.TxCall?
  {
    var (w1, r1) := SessionCommand(w, Tx, e.tx1);
    if r1 != Failure(NotConfigured) then (w1, r1)
    else
      var (w2, r2) := ReapplyConfig(norm, w1, e.fate);
      if r2.Failure? then (w2, Failure(r2.error)) else SessionCommand(w2, Tx, e.tx2)
  }

  function RxStartOp(norm: Norm, w: World, e: Event): (World, Result<(), ClientError>)
    requires e.RxStartCall?
  {
    if w.started then (w, Success(()))
    else
      var (w1, r1) := SessionRxStart(w, e.rx1);
      if r1.Success? then (w1.(started := true), r1)
      else if r1 != Failure(NotConfigured) then (w1, r1)
      else
        var (w2, r2) := ReapplyConfig(norm, w1, e.fate);
        if r2.Failure? then (w2, r2)
        else
          var (w3, r3) := SessionRxStart(w2, e.rx2);
          (w3.(started := r3.Success?), r3)
  }

  function RxStopOp(w: World, e: Event): (World, Result<(), ClientError>)
    requires e.RxStopCall?
  {
    var (w', r) := SessionRxStop(w, e.stop);
    (w'.(started := w'.started && r.Failure?), r)
  }

  function SetConfigOp(norm: Norm, w: World, e: Event): (World, Result<(), ClientError>)
    requires e.SetConfigCall?
  {
    var (w', r) := SessionSetConfig(norm, w, e.m, e.fate);
    if r.Failure? then (w', Failure(r.error))
    else (w'.(applied := Some(r.value), started := false), Success(()))
  }

  /** The keepalive re-sends the cached configuration but does not store the echo. */
  function KeepaliveOp(norm: Norm, w: World, e: Event): World
    requires e.KeepaliveTick?
  {
    var (w1, r) := SessionCommand(w, Ping, e.ping);
    if r == Failure(NotConfigured) && w1.applied.Some? then SessionSetConfig(norm, w1, w1.applied.value, e.fate).0
    else w1
  }

  function Step(norm: Norm, w: World, e: Event): World {
    match e
    case TxCall(_, _, _) => TxOp(norm, w, e).0
    case RxStartCall(_, _, _) => RxStartOp(norm, w, e).0
    case RxStopCall(_) => RxStopOp(w, e).0
    case SetConfigCall(_, _) => SetConfigOp(norm, w, e).0
    case KeepaliveTick(_, _) => KeepaliveOp(norm, w, e)
    case InactivityExpired => w.(held := None, receiving := false)
  }

  function History(norm: Norm, w: World, events: seq<Event>): World
    decreases |events|
  {
    if events == [] then w else History(norm, Step(norm, w, events[0]), events[1..])
  }

  // ---------------------------------------------------------------- config agreement

  /** A configured device holds exactly the cached configuration, and the cached
      configuration is one the device leaves as it is. */
  ghost predicate Agrees(norm: Norm, w: World) {
    && (w.held.Some? ==> w.held == w.applied)
    && (w.applied.Some? ==> norm(w.applied.value) == w.applied.value)
  }

  /** Re-sending the cached configuration is harmless even if its reply is lost. */
  lemma ReapplyAgrees(norm: Norm, w: World, fate: Fate)
    requires Agrees(norm, w)
    ensures Agrees(norm, ReapplyConfig(norm, w, fate).0)
    ensures ReapplyConfig(norm, w, fate).0.applied == w.applied
  {
  }

  /** The one way to lose agreement: a SET_CONFIG that takes effect at the device while its
      reply is lost, and that was not for the configuration already cached. */
  predicate Diverges(norm: Norm, w: World, e: Event) {
    e.SetConfigCall? && e.fate == Lost(true) && w.applied != Some(norm(e.m))
  }

  lemma AgreementStepIff(norm: Norm, w: World, e: Event)
    requires EchoesAreStable(norm) && Agrees(norm, w)
    ensures Agrees(norm, Step(norm, w, e)) <==> !Diverges(norm, w, e)
  {
    match e
    case TxCall(tx1, fate, _) => ReapplyAgrees(norm, SessionCommand(w, Tx, tx1).0, fate);
    case RxStartCall(rx1, fate, _) => ReapplyAgrees(norm, SessionRxStart(w, rx1).0, fate);
    case _ =>
  }

  ghost predicate AllRepliesDelivered(events: seq<Event>) {
    forall i :: 0 <= i < |events| && events[i].SetConfigCall? ==> !events[i].fate.Lost?
  }

  /** Over any sequence of transmissions, configurations, keepalive rounds and inactivity
      expiries, if agreement holds at connect and the replies to configuration calls arrive,
      a configured device keeps holding exactly the cached configuration. */
  lemma {:induction false} AgreementKept(norm: Norm, w: World, events: seq<Event>)
    requires EchoesAreStable(norm) && Agrees(norm, w) && AllRepliesDelivered(events)
    ensures Agrees(norm, History(norm, w, events))
    decreases |events|
  {
    if events != [] {
      AgreementStepIff(norm, w, events[0]);
      AgreementKept(norm, Step(norm, w, events[0]), events[1..]);
    }
  }

  /** A keepalive round or a transmission whose re-configuration would be accepted gives a
      device that had forgotten everything the cached configuration back, exactly when the
      refusal of its first command arrives. */
  lemma RecoveryRestores(norm: Norm, w: World, e: Event)
    requires EchoesAreStable(norm) && Agrees(norm, w) && w.held.None? && w.applied.Some?
    requires (e.KeepaliveTick? || e.TxCall?) && e.fate.Accepted?
    ensures Step(norm, w, e).applied == w.applied
    ensures Step(norm, w, e).held == w.applied <==> (if e.TxCall? then e.tx1.Replied? else e.ping.Replied?)
  {
  }

  // ---------------------------------------------------------------- the receive flag, sequentially

  predicate FlagTrue(w: World) {
    w.started ==> w.receiving
  }

  /** A SET_CONFIG of this fate takes effect at the device. */
  predicate TakesEffect(w: World, fate: Fate) {
    fate.Accepted? || fate == Lost(true) || (fate.Locked? && w.held.None?)
  }

  /** The events that end reception without taking the flag down: the device times out,
      recovery re-applies the configuration, or a stop or reconfiguration takes effect and
      its reply is lost. */
  predicate Silences(w: World, e: Event) {
    match e
    case InactivityExpired => true
    case TxCall(tx1, fate, _) =>
      SessionCommand(w, Tx, tx1).1 == Failure(NotConfigured) && w.applied.Some? && TakesEffect(w, fate)
    case KeepaliveTick(ping, fate) =>
      SessionCommand(w, Ping, ping).1 == Failure(NotConfigured) && w.applied.Some? && TakesEffect(w, fate)
    case SetConfigCall(_, fate) => fate == Lost(true)
    case RxStopCall(stop) => stop == Unanswered(true) && w.held.Some?
    case RxStartCall(_, _, _) => false
  }

  /** The calls that take the flag down. */
  predicate Resets(norm: Norm, w: World, e: Event) {
    (e.RxStopCall? && RxStopOp(w, e).1.Success?) || (e.SetConfigCall? && SetConfigOp(norm, w, e).1.Success?)
  }

  /** An event leaves a raised flag true exactly when it takes the flag down, or finds it
      true and does not end reception behind it. */
  lemma FlagStepIff(norm: Norm, w: World, e: Event)
    ensures FlagTrue(Step(norm, w, e)) <==>
            Resets(norm, w, e) || (FlagTrue(w) && !(w.started && Silences(w, e)))
    ensures Resets(norm, w, e) ==> !Silences(w, e)
  {
    if e.RxStartCall? && !w.started {
      var (w1, r1) := SessionRxStart(w, e.rx1);
      assert r1.Success? ==> w1.receiving;
    }
  }

  /** The worlds a history goes through. */
  function Worlds(norm: Norm, w: World, events: seq<Event>): (r: seq<World>)
    ensures |r| == |events| + 1 && r[0] == w && r[|events|] == History(norm, w, events)
    ensures forall k :: 0 <= k < |events| ==> r[k + 1] == Step(norm, r[k], events[k])
    decreases |events|
  {
    if events == [] then [w] else [w] + Worlds(norm, Step(norm, w, events[0]), events[1..])
  }

  /** Over every history: the flag ends true exactly when after each event that ended
      reception behind it somebody stopped reception, or set a configuration, with success. */
  lemma FlagHistoryIff(norm: Norm, w: World, events: seq<Event>)
    requires FlagTrue(w)
    ensures var ws := Worlds(norm, w, events);
            FlagTrue(History(norm, w, events)) <==>
            forall k :: 0 <= k < |events| && ws[k].started && Silences(ws[k], events[k]) ==>
              exists m :: k < m < |events| && Resets(norm, ws[m], events[m])
  {
    var ws, n := Worlds(norm, w, events), |events|;
    ghost var ok := seq(n + 1, k requires 0 <= k <= n => FlagTrue(ws[k]));
    ghost var breaks := seq(n, k requires 0 <= k < n => ws[k].started && Silences(ws[k], events[k]));
    ghost var mends := seq(n, k requires 0 <= k < n => Resets(norm, ws[k], events[k]));
    forall k | 0 <= k < n
      ensures ok[k + 1] == (mends[k] || (ok[k] && !breaks[k])) && (breaks[k] ==> !mends[k])
    {
      FlagStepIff(norm, ws[k], events[k]);
    }
    BreaksMended(ok, breaks, mends);
    assert forall k :: 0 <= k < n ==>
      breaks[k] == (ws[k].started && Silences(ws[k], events[k])) && mends[k] == Resets(norm, ws[k], events[k]);
  }

  /** From then on recovery restores the configuration but not reception: until somebody
      stops reception or sets a configuration through the API, every further start is
      answered from the flag and the device stays deaf. */
  lemma {:induction false} DeafUntilReset(norm: Norm, w: World, events: seq<Event>)
    requires w.started && !w.receiving
    requires forall i :: 0 <= i < |events| ==> !events[i].RxStopCall? && !events[i].SetConfigCall?
    ensures History(norm, w, events).started && !History(norm, w, events).receiving
    decreases |events|
  {
    if events != [] {
      DeafUntilReset(norm, Step(norm, w, events[0]), events[1..]);
    }
  }

  // ---------------------------------------------------------------- what a call sends

  /** The first command of a call is refused with ENOTCONFIGURED, and the reply arrives. */
  predicate Refuses<T(==)>(w: World, ack: Ack<T>) {
    ack.Replied? && (w.held.None? || ack.result == Failure(NotConfigured))
  }

  /** What a command gets from a device that holds a configuration. */
  function Delivered<T>(cmd: CmdType, ack: Ack<T>): Result<T, ClientError> {
    if ack.Unanswered? then Failure(Timeout(cmd)) else ack.result
  }

  /** What the first command of a call gets. */
  function FirstReply<T>(w: World, cmd: CmdType, ack: Ack<T>): Result<T, ClientError> {
    if ack.Replied? && w.held.None? then Failure(NotConfigured) else Delivered(cmd, ack)
  }

  predicate Answers(fate: Fate) {
    fate.Accepted? || fate.Locked?
  }

  /** The error of a SET_CONFIG that was not answered with success. */
  function FateError(fate: Fate): ClientError {
    if fate.Refused? then fate.error else Timeout(SetConfig)
  }

  /** The configuration a successful SET_CONFIG echoes. */
  function Echoed(norm: Norm, w: World, m: Modulation, fate: Fate): Modulation {
    if fate.Locked? && w.held.Some? then w.held.value else norm(m)
  }

  /** The world after a re-configuration that recovers from a refusal, the wire aside. */
  predicate RecoveredWorld(norm: Norm, w: World, fate: Fate, stores: bool, w': World)
    requires w.applied.Some?
  {
    && w'.held == (if TakesEffect(w, fate) then Some(norm(w.applied.value)) else w.held)
    && w'.applied == (if stores && Answers(fate) then Some(Echoed(norm, w, w.applied.value, fate)) else w.applied)
  }

  /** A tx call from its event alone. It sends at most two transmissions and one configuration,
      the second transmission only after the configuration succeeded, and recovers only from
      ENOTCONFIGURED with a cached configuration at hand. It returns the answer to the last
      command it sent, except that a configured device's answer to SET_CONFIG is not it. */
  lemma TxCallBounded(norm: Norm, w: World, e: Event)
    requires e.TxCall?
    ensures var (w', r) := TxOp(norm, w, e);
            var recovers := Refuses(w, e.tx1) && w.applied.Some?;
            if !recovers then
              w' == w.(wire := w.wire + [Tx]) && r == FirstReply(w, Tx, e.tx1)
            else
              && RecoveredWorld(norm, w, e.fate, true, w') && w'.started == w.started
              && w'.receiving == (w.receiving && !TakesEffect(w, e.fate))
              && w'.wire == w.wire + (if Answers(e.fate) then [Tx, SetConfig, Tx] else [Tx, SetConfig])
              && r == (if Answers(e.fate) then Delivered(Tx, e.tx2) else Failure(FateError(e.fate)))
  {
    assert w.wire + [Tx] + [SetConfig] == w.wire + [Tx, SetConfig];
    assert w.wire + [Tx] + [SetConfig] + [Tx] == w.wire + [Tx, SetConfig, Tx];
  }

  /** So a tx call succeeds with td exactly when the last transmission it sent was answered
      with td by a configured device. */
  lemma TxSucceedsIff(norm: Norm, w: World, e: Event, td: TxDone)
    requires e.TxCall?
    ensures TxOp(norm, w, e).1 == Success(td) <==>
            if Refuses(w, e.tx1) && w.applied.Some?
            then Answers(e.fate) && e.tx2 == Replied(Success(td))
            else w.held.Some? && e.tx1 == Replied(Success(td))
  {
    TxCallBounded(norm, w, e);
  }

  /** What a start returns, and what it does to the configuration on either side. */
  lemma RxStartReturns(norm: Norm, w: World, e: Event)
    requires e.RxStartCall? && !w.started
    ensures var (w', r) := RxStartOp(norm, w, e);
            if !(Refuses(w, e.rx1) && w.applied.Some?) then
              r == FirstReply(w, RxStart, e.rx1) && w'.held == w.held && w'.applied == w.applied
              && w'.wire == w.wire + [RxStart]
            else
              && RecoveredWorld(norm, w, e.fate, true, w')
              && r == (if Answers(e.fate) then Delivered(RxStart, e.rx2) else Failure(FateError(e.fate)))
              && w'.wire == w.wire + (if Answers(e.fate) then [RxStart, SetConfig, RxStart] else [RxStart, SetConfig])
  {
    assert w.wire + [RxStart] + [SetConfig] == w.wire + [RxStart, SetConfig];
    assert w.wire + [RxStart] + [SetConfig] + [RxStart] == w.wire + [RxStart, SetConfig, RxStart];
  }

  /** A stop sends one RX_STOP, returns its answer, takes the flag down exactly on success and
      ends reception exactly when a configured device executed it, answered or not. */
  lemma RxStopReturns(w: World, e: Event)
    requires e.RxStopCall?
    ensures var (w', r) := RxStopOp(w, e);
            && r == FirstReply(w, RxStop, e.stop) && w'.wire == w.wire + [RxStop]
            && w'.started == (w.started && r.Failure?)
            && w'.receiving == (w.receiving && !(w.held.Some? && (r.Success? || e.stop == Unanswered(true))))
            && w'.held == w.held && w'.applied == w.applied
  {
  }

  /** A set_config sends one SET_CONFIG; on success it caches what the device echoed and takes
      the flag down, otherwise it changes neither and returns the error. */
  lemma SetConfigReturns(norm: Norm, w: World, e: Event)
    requires e.SetConfigCall?
    ensures var (w', r) := SetConfigOp(norm, w, e);
            && r == (if Answers(e.fate) then Success(()) else Failure(FateError(e.fate)))
            && w'.wire == w.wire + [SetConfig]
            && w'.applied == (if Answers(e.fate) then Some(Echoed(norm, w, e.m, e.fate)) else w.applied)
            && w'.started == (w.started && !Answers(e.fate))
            && w'.held == (if TakesEffect(w, e.fate) then Some(norm(e.m)) else w.held)
            && w'.receiving == (w.receiving && !TakesEffect(w, e.fate))
  {
  }

  /** A keepalive round sends a PING, and one SET_CONFIG exactly if the PING was refused and a
      configuration is cached; the cache it leaves alone, and the flag. */
  lemma KeepaliveSends(norm: Norm, w: World, e: Event)
    requires e.KeepaliveTick?
    ensures var w' := KeepaliveOp(norm, w, e);
            if !(Refuses(w, e.ping) && w.applied.Some?) then
              w' == w.(wire := w.wire + [Ping])
            else
              && RecoveredWorld(norm, w, e.fate, false, w') && w'.started == w.started
              && w'.receiving == (w.receiving && !TakesEffect(w, e.fate))
              && w'.wire == w.wire + [Ping, SetConfig]
  {
    assert w.wire + [Ping] + [SetConfig] == w.wire + [Ping, SetConfig];
  }

  /** The start recovers: the device refused the first RX_START and a configuration is cached. */
  predicate StartRecovers(w: World, e: Event)
    requires e.RxStartCall?
  {
    SessionRxStart(w, e.rx1).1 == Failure(NotConfigured) && w.applied.Some?
  }

  /** The device executed an RX_START and the reply was lost. */
  predicate StartLost(norm: Norm, w: World, e: Event)
    requires e.RxStartCall?
  {
    if StartRecovers(w, e)
    then ReapplyConfig(norm, SessionRxStart(w, e.rx1).0, e.fate).1.Success? && e.rx2 == Unanswered(true)
    else w.held.Some? && e.rx1 == Unanswered(true)
  }

  /** A start sends nothing when the flag is up. Otherwise it sends at most two RX_START and
      one SET_CONFIG, raises the flag exactly when it succeeds, and leaves the device
      receiving exactly when it succeeds, or an RX_START was executed and its reply lost, or
      the device was receiving already and no SET_CONFIG took effect on the way. */
  lemma RxStartBounded(norm: Norm, w: World, e: Event)
    requires e.RxStartCall?
    ensures var (w', r) := RxStartOp(norm, w, e);
            if w.started then w' == w && r == Success(())
            else w'.started == r.Success?
                 && (w'.receiving <==> r.Success? || StartLost(norm, w, e)
                                       || (w.receiving && !(StartRecovers(w, e) && TakesEffect(w, e.fate))))
                 && (w'.wire == w.wire + [RxStart] || w'.wire == w.wire + [RxStart, SetConfig]
                     || w'.wire == w.wire + [RxStart, SetConfig, RxStart])
  {
    assert w.wire + [RxStart] + [SetConfig] == w.wire + [RxStart, SetConfig];
    assert w.wire + [RxStart] + [SetConfig] + [RxStart] == w.wire + [RxStart, SetConfig, RxStart];
  }

  // ---------------------------------------------------------------- the object

  const DONGLE_CLOSED := TransportClosed("dongle closed")

  /** The dongle with its mutex-held fields; the device's state and the wire are beside it. */
  class Dongle {
    var appliedConfig: Option<Modulation>
    var rxStarted: bool
    var closed: bool
    var held: Option<Modulation>
    var receiving: bool
    var wire: seq<CmdType>
    const norm: Norm

    ghost function Now(): World
      reads this
    {
      World(appliedConfig, rxStarted, held, receiving, wire)
    }

    constructor (norm: Norm, applied: Option<Modulation>, held: Option<Modulation>)
      ensures Now() == World(applied, false, held, false, []) && this.norm == norm && !closed
    {
      this.norm := norm;
      appliedConfig, rxStarted, closed := applied, false, false;
      this.held, receiving, wire := held, false, [];
    }

    method SendSetConfig(m: Modulation, fate: Fate) returns (r: Result<Modulation, ClientError>)
      modifies this`held, this`receiving, this`wire
      ensures (Now(), r) == SessionSetConfig(norm, old(Now()), m, fate)
    {
      wire := wire + [SetConfig];
      if fate.Accepted? || fate == Lost(true) || (fate.Locked? && held.None?) {
        held, receiving := Some(norm(m)), false;
      }
      match fate {
        case Accepted => r := Success(norm(m));
        case Locked => r := Success(held.value);
        case Refused(e) => r := Failure(e);
        case Lost(_) => r := Failure(Timeout(SetConfig));
      }
    }

    method Send<T>(cmd: CmdType, ack: Ack<T>) returns (r: Result<T, ClientError>)
      modifies this`wire
      ensures (Now(), r) == SessionCommand(old(Now()), cmd, ack)
    {
      wire := wire + [cmd];
      match ack {
        case Unanswered(_) => r := Failure(Timeout(cmd));
        case Replied(result) => r := if held.None? then Failure(NotConfigured) else result;
      }
    }

    method SendRxStart(ack: Ack<()>) returns (r: Result<(), ClientError>)
      modifies this`wire, this`receiving
      ensures (Now(), r) == SessionRxStart(old(Now()), ack)
    {
      r := Send(RxStart, ack);
      if r.Success? || (held.Some? && ack == Unanswered(true)) {
        receiving := true;
      }
    }

    method Reapply(fate: Fate) returns (r: Result<(), ClientError>)
      modifies this`held, this`receiving, this`wire, this`appliedConfig
      ensures (Now(), r) == ReapplyConfig(norm, old(Now()), fate)
    {
      if appliedConfig.None? {
        return Failure(NotConfigured);
      }
      var result := SendSetConfig(appliedConfig.value, fate);
      if result.Failure? {
        return Failure(result.error);
      }
      appliedConfig := Some(result.value);
      r := Success(());
    }

    /** A closed dongle sends nothing. On an open one, `tx` re-applies the configuration and
        tries once more if the device says it is not configured. */
    method TxWithTimeout(e: Event) returns (r: Result<TxDone, ClientError>)
      requires e.TxCall?
      modifies this`held, this`receiving, this`wire, this`appliedConfig
      ensures closed ==> Now() == old(Now()) && r == Failure(DONGLE_CLOSED)
      ensures !closed ==> (Now(), r) == TxOp(norm, old(Now()), e)
    {
      if closed {
        return Failure(DONGLE_CLOSED);
      }
      r := Send(Tx, e.tx1);
      if r == Failure(NotConfigured) {
        var again := Reapply(e.fate);
        if again.Failure? {
          return Failure(again.error);
        }
        r := Send(Tx, e.tx2);
      }
    }

    method StartRx(e: Event) returns (r: Result<(), ClientError>)
      requires e.RxStartCall?
      modifies this`held, this`receiving, this`wire, this`appliedConfig, this`rxStarted
      ensures closed ==> Now() == old(Now()) && r == Failure(DONGLE_CLOSED)
      ensures !closed ==> (Now(), r) == RxStartOp(norm, old(Now()), e)
    {
      if closed {
        return Failure(DONGLE_CLOSED);
      }
      if rxStarted {
        return Success(());
      }
      r := SendRxStart(e.rx1);
      if r == Failure(NotConfigured) {
        r := Reapply(e.fate);
        if r.Failure? {
          return;
        }
        r := SendRxStart(e.rx2);
      }
      if r.Success? {
        rxStarted := true;
      }
    }

    method StopRx(e: Event) returns (r: Result<(), ClientError>)
      requires e.RxStopCall?
      modifies this`receiving, this`wire, this`rxStarted
      ensures closed ==> Now() == old(Now()) && r == Failure(DONGLE_CLOSED)
      ensures !closed ==> (Now(), r) == RxStopOp(old(Now()), e)
    {
      if closed {
        return Failure(DONGLE_CLOSED);
      }
      r := Send(RxStop, e.stop);
      if r.Success? || (held.Some? && e.stop == Unanswered(true)) {
        receiving := false;
      }
      if r.Success? {
        rxStarted := false;
      }
    }

    method SetConfiguration(e: Event) returns (r: Result<(), ClientError>)
      requires e.SetConfigCall?
      modifies this`held, this`receiving, this`wire, this`appliedConfig, this`rxStarted
      ensures closed ==> Now() == old(Now()) && r == Failure(DONGLE_CLOSED)
      ensures !closed ==> (Now(), r) == SetConfigOp(norm, old(Now()), e)
    {
      if closed {
        return Failure(DONGLE_CLOSED);
      }
      var result := SendSetConfig(e.m, e.fate);
      if result.Failure? {
        return Failure(result.error);
      }
      appliedConfig := Some(result.value);
      rxStarted := false;
      r := Success(());
    }

    /** One round of the keepalive task that gets as far as its ping. */
    method KeepaliveRound(e: Event)
      requires e.KeepaliveTick? && !closed
      modifies this`held, this`receiving, this`wire
      ensures Now() == KeepaliveOp(norm, old(Now()), e)
    {
      var r := Send(Ping, e.ping);
      if r == Failure(NotConfigured) && appliedConfig.Some? {
        var _ := SendSetConfig(appliedConfig.value, e.fate);
      }
    }

    /** Returns whether this call was the one that closed the dongle. */
    method Close() returns (first: bool)
      modifies this`closed
      ensures closed && first == !old(closed)
    {
      first := !closed;
      closed := true;
    }
  }
}
