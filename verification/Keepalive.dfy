/** The keepalive loop as a timed system. Times are in milliseconds.

    Each sleep lasts at least one interval and overshoots by at most `overshoot`; each of
    the loop's own commands is answered, refused or timed out within `latency`; an API call
    puts its command on the wire within `lag` of marking `last_write_at`. Some calls mark and
    put nothing on the wire: rx_start when already started, tx and tx_with_retry with an
    empty payload, and any call the session refuses to send. Of those at most `bares` fall
    between two writes. The loop's own commands are taken to reach the wire at once: `lag`
    is the API's share of the wait for the writer lock.
 */
module Keepalive {
  import opened Protocol

  const INTERVAL := 500.0

  datatype Params = Params(overshoot: real, latency: real, lag: real, bares: nat)
  {
    ghost predicate Valid() {
      overshoot >= 0.0 && latency >= 0.0 && lag >= 0.0
    }
  }

  datatype Loop =
    | Sleeping(since: real)
    | Pinging(since: real)
    | Reconfiguring(since: real)   // SET_CONFIG sent after ENOTCONFIGURED

  /** `mark` is `last_write_at`; `write` the time of the last command put on the wire;
      `owed` the time of the earliest mark whose command is still to be written; `bare` the
      number of marks without write since `write`. */
  datatype State = State(now: real, mark: real, write: real, owed: Option<real>, bare: nat, loop: Loop)

  const INITIAL := State(0.0, 0.0, 0.0, None, 0, Sleeping(0.0))

  datatype Action =
    | Elapse(dt: real)
    | HostMark | HostWrite         // the two halves of an API call
    | Wake                         // the sleep is over: ping, or skip if recently marked
    | PingOk | PingFailed | PingNotConfigured(cached: bool)
    | ReconfigOk | ReconfigFailed
    | MarkOnly                     // a call that marks and then writes nothing

  function Max(a: real, b: real): real {
    if a >= b then a else b
  }

  /** How far the clock may run before the loop must move. */
  function Deadline(p: Params, loop: Loop): real {
    match loop
    case Sleeping(t) => t + INTERVAL + p.overshoot
    case Pinging(t) => t + p.latency
    case Reconfiguring(t) => t + p.latency
  }

  predicate Enabled(p: Params, s: State, a: Action) {
    match a
    case Elapse(dt) =>
      && dt >= 0.0 && s.now + dt <= Deadline(p, s.loop)
      && (s.owed.Some? ==> s.now + dt <= s.owed.value + p.lag)
    case HostMark => true
    case HostWrite => true
    case Wake => s.loop.Sleeping? && s.now >= s.loop.since + INTERVAL
    case PingOk => s.loop.Pinging?
    case PingFailed => s.loop.Pinging?
    case PingNotConfigured(_) => s.loop.Pinging?
    case ReconfigOk => s.loop.Reconfiguring?
    case ReconfigFailed => s.loop.Reconfiguring?
    case MarkOnly => s.bare < p.bares
  }

  function Do(p: Params, s: State, a: Action): State
    requires Enabled(p, s, a)
  {
    match a
    case Elapse(dt) => s.(now := s.now + dt)
    case HostMark => s.(mark := s.now, owed := if s.owed.Some? then s.owed else Some(s.now))
    case HostWrite => s.(write := s.now, owed := None, bare := 0)
    case Wake =>
      if s.now - s.mark < INTERVAL then s.(loop := Sleeping(s.now))
      else s.(loop := Pinging(s.now), write := s.now, bare := 0)
    case PingOk => s.(mark := s.now, loop := Sleeping(s.now))
    case PingFailed => s.(loop := Sleeping(s.now))
    case PingNotConfigured(cached) =>
      if cached then s.(loop := Reconfiguring(s.now), write := s.now, bare := 0) else s.(loop := Sleeping(s.now))
    case ReconfigOk => s.(mark := s.now, loop := Sleeping(s.now))
    case ReconfigFailed => s.(loop := Sleeping(s.now))
    case MarkOnly => s.(mark := s.now, bare := s.bare + 1)
  }

  predicate ValidRun(p: Params, s: State, acts: seq<Action>)
    decreases |acts|
  {
    acts == [] || (Enabled(p, s, acts[0]) && ValidRun(p, Do(p, s, acts[0]), acts[1..]))
  }

  function After(p: Params, s: State, acts: seq<Action>): State
    requires ValidRun(p, s, acts)
    decreases |acts|
  {
    if acts == [] then s else After(p, Do(p, s, acts[0]), acts[1..])
  }

  // ---------------------------------------------------------------- the bound

  /** Time since the host last put a command on the wire. */
  function Gap(s: State): real {
    s.now - s.write
  }

  /** What n bare marks can add to the silence: each can make the loop skip one ping. */
  function Extra(p: Params, n: nat): real {
    if n == 0 then 0.0 else Extra(p, n - 1) + INTERVAL + p.overshoot
  }

  lemma {:induction false} ExtraIs(p: Params, n: nat)
    ensures Extra(p, n) == n as real * (INTERVAL + p.overshoot)
    decreases n
  {
    if n > 0 {
      ExtraIs(p, n - 1);
      assert n as real == (n - 1) as real + 1.0;
    }
  }

  lemma {:induction false} ExtraAtLeast(p: Params, n: nat)
    requires p.Valid()
    ensures Extra(p, n) >= n as real * 500.0
    decreases n
  {
    if n > 0 {
      ExtraAtLeast(p, n - 1);
      assert n as real == (n - 1) as real + 1.0;
    }
  }

  lemma {:induction false} ExtraGrows(p: Params, m: nat, n: nat)
    requires p.Valid() && m <= n
    ensures 0.0 <= Extra(p, m) <= Extra(p, n)
    decreases n
  {
    if m < n {
      ExtraGrows(p, m, n - 1);
    } else if n > 0 {
      ExtraGrows(p, m - 1, n - 1);
    }
  }

  function PromptBound(p: Params): real {
    Max(1000.0, 500.0 + p.latency) + p.overshoot
  }

  function Bound(p: Params): real {
    PromptBound(p) + p.lag + Extra(p, p.bares)
  }

  /** The loop fell asleep at t; n bare marks have had their effect or may still have it. */
  predicate Silent(p: Params, s: State, t: real, n: nat) {
    s.write >= t - Max(INTERVAL, p.latency) - Extra(p, n)
  }

  ghost predicate Inv(p: Params, s: State) {
    && s.write <= s.now && s.mark <= s.now && s.loop.since <= s.now <= Deadline(p, s.loop) && s.bare <= p.bares
    && match s.owed
       case Some(o) => o <= s.now <= o + p.lag && o - s.write <= PromptBound(p) + Extra(p, s.bare)
       case None =>
         match s.loop
         case Sleeping(t) =>
           (s.mark <= Max(t, s.write) && Silent(p, s, t, s.bare)) || (s.bare > 0 && Silent(p, s, t, s.bare - 1))
         case _ => s.write >= s.loop.since
  }

  lemma InvStep(p: Params, s: State, a: Action)
    requires p.Valid() && Inv(p, s) && Enabled(p, s, a)
    ensures Inv(p, Do(p, s, a))
  {
    ExtraGrows(p, 0, s.bare);
    if s.bare > 0 {
      ExtraGrows(p, 0, s.bare - 1);
    }
  }

  /** With the keepalive active, at no moment of any run has the wire been silent for longer
      than the bound; so no two consecutive writes are further apart either. */
  lemma {:induction false} GapBounded(p: Params, s: State, acts: seq<Action>)
    requires p.Valid() && Inv(p, s) && ValidRun(p, s, acts)
    ensures Inv(p, After(p, s, acts)) && Gap(After(p, s, acts)) <= Bound(p)
    decreases |acts|
  {
    if acts != [] {
      InvStep(p, s, acts[0]);
      GapBounded(p, Do(p, s, acts[0]), acts[1..]);
    } else {
      ExtraGrows(p, 0, s.bare);
      ExtraGrows(p, s.bare, p.bares);
    }
  }

  // ---------------------------------------------------------------- the bound is sharp

  lemma {:induction false} Append(p: Params, s: State, acts: seq<Action>, a: Action)
    requires ValidRun(p, s, acts) && Enabled(p, After(p, s, acts), a)
    ensures ValidRun(p, s, acts + [a]) && After(p, s, acts + [a]) == Do(p, After(p, s, acts), a)
    decreases |acts|
  {
    if acts == [] {
      assert [a][1..] == [] && acts + [a] == [a];
    } else {
      assert (acts + [a])[0] == acts[0] && (acts + [a])[1..] == acts[1..] + [a];
      Append(p, Do(p, s, acts[0]), acts[1..], a);
    }
  }

  /** Extend a run from the start by one action, to a state given in full. */
  lemma Then(p: Params, acts: seq<Action>, a: Action, next: State) returns (longer: seq<Action>)
    requires ValidRun(p, INITIAL, acts) && Enabled(p, After(p, INITIAL, acts), a)
    requires Do(p, After(p, INITIAL, acts), a) == next
    ensures longer == acts + [a] && ValidRun(p, INITIAL, longer) && After(p, INITIAL, longer) == next
  {
    Append(p, INITIAL, acts, a);
    longer := acts + [a];
  }

  /** A command soon after the loop went to sleep makes it skip one ping. */
  lemma SkippedPing(p: Params, slack: real) returns (acts: seq<Action>)
    requires p.Valid() && 0.0 < slack <= INTERVAL
    ensures ValidRun(p, INITIAL, acts)
    ensures After(p, INITIAL, acts) == State(INTERVAL, slack, slack, None, 0, Sleeping(INTERVAL))
  {
    acts := Then(p, [], Elapse(slack), State(slack, 0.0, 0.0, None, 0, Sleeping(0.0)));
    acts := Then(p, acts, HostMark, State(slack, slack, 0.0, Some(slack), 0, Sleeping(0.0)));
    acts := Then(p, acts, HostWrite, State(slack, slack, slack, None, 0, Sleeping(0.0)));
    acts := Then(p, acts, Elapse(INTERVAL - slack), State(INTERVAL, slack, slack, None, 0, Sleeping(0.0)));
    acts := Then(p, acts, Wake, State(INTERVAL, slack, slack, None, 0, Sleeping(INTERVAL)));
  }

  /** The loop has just fallen asleep, n bare marks after the last write and with the clock
      what those n can have added past `asleep`. */
  ghost predicate Dozes(p: Params, s: State, write: real, asleep: real, n: nat) {
    s.write == write && s.bare == n && s.owed == None && s.now == asleep + Extra(p, n) && s.loop == Sleeping(s.now)
  }

  /** One bare mark, made as the sleep ends, makes the loop sleep again. */
  lemma BareRound(p: Params, acts: seq<Action>, write: real, asleep: real, n: nat) returns (longer: seq<Action>)
    requires p.Valid() && n < p.bares && ValidRun(p, INITIAL, acts)
    requires Dozes(p, After(p, INITIAL, acts), write, asleep, n)
    ensures ValidRun(p, INITIAL, longer) && Dozes(p, After(p, INITIAL, longer), write, asleep, n + 1)
  {
    var s := After(p, INITIAL, acts);
    var wake := s.now + (INTERVAL + p.overshoot);
    longer := Then(p, acts, Elapse(INTERVAL + p.overshoot), s.(now := wake));
    longer := Then(p, longer, MarkOnly, s.(now := wake, mark := wake, bare := n + 1));
    longer := Then(p, longer, Wake, s.(now := wake, mark := wake, bare := n + 1, loop := Sleeping(wake)));
  }

  lemma {:induction false} BareRounds(p: Params, acts: seq<Action>, write: real, asleep: real, n: nat)
      returns (longer: seq<Action>)
    requires p.Valid() && n <= p.bares && ValidRun(p, INITIAL, acts)
    requires Dozes(p, After(p, INITIAL, acts), write, asleep, 0)
    ensures ValidRun(p, INITIAL, longer) && Dozes(p, After(p, INITIAL, longer), write, asleep, n)
    decreases n
  {
    if n == 0 {
      return acts;
    }
    longer := BareRounds(p, acts, write, asleep, n - 1);
    longer := BareRound(p, longer, write, asleep, n - 1);
  }

  /** The sleep after the last bare mark runs to its end. */
  lemma LastSleep(p: Params, acts: seq<Action>, write: real, asleep: real) returns (longer: seq<Action>)
    requires p.Valid() && ValidRun(p, INITIAL, acts) && Dozes(p, After(p, INITIAL, acts), write, asleep, 0)
    ensures ValidRun(p, INITIAL, longer)
    ensures Gap(After(p, INITIAL, longer)) ==
            asleep - write + Extra(p, p.bares) + 500.0 + p.overshoot
  {
    longer := BareRounds(p, acts, write, asleep, p.bares);
    var s := After(p, INITIAL, longer);
    longer := Then(p, longer, Elapse(INTERVAL + p.overshoot), s.(now := s.now + (INTERVAL + p.overshoot)));
  }

  /** Two intervals and an overshoot, and one of each more for every bare mark, are approached
      as closely as one likes. */
  lemma TwoIntervalsReached(p: Params, slack: real) returns (acts: seq<Action>)
    requires p.Valid() && 0.0 < slack <= INTERVAL
    ensures ValidRun(p, INITIAL, acts)
    ensures Gap(After(p, INITIAL, acts)) == 1000.0 + p.overshoot + Extra(p, p.bares) - slack
  {
    acts := SkippedPing(p, slack);
    acts := LastSleep(p, acts, slack, INTERVAL);
  }

  /** The latency term is attained: a slow ping delays the sleeps that follow it. */
  lemma SlowPingReached(p: Params) returns (acts: seq<Action>)
    requires p.Valid()
    ensures ValidRun(p, INITIAL, acts)
    ensures Gap(After(p, INITIAL, acts)) == 500.0 + p.latency + p.overshoot + Extra(p, p.bares)
  {
    acts := Then(p, [], Elapse(INTERVAL), State(INTERVAL, 0.0, 0.0, None, 0, Sleeping(0.0)));
    acts := Then(p, acts, Wake, State(INTERVAL, 0.0, INTERVAL, None, 0, Pinging(INTERVAL)));
    var answered := INTERVAL + p.latency;
    acts := Then(p, acts, Elapse(p.latency), State(answered, 0.0, INTERVAL, None, 0, Pinging(INTERVAL)));
    acts := Then(p, acts, PingOk, State(answered, answered, INTERVAL, None, 0, Sleeping(answered)));
    acts := LastSleep(p, acts, INTERVAL, answered);
  }

  /** A command marked at the last moment, and written late, adds its lag. */
  lemma LateWriteReached(p: Params, slack: real, late: real) returns (acts: seq<Action>)
    requires p.Valid() && 0.0 < slack <= INTERVAL && 0.0 <= late <= p.lag && late <= INTERVAL
    ensures ValidRun(p, INITIAL, acts)
    ensures Gap(After(p, INITIAL, acts)) == 1000.0 - slack + late
  {
    acts := SkippedPing(p, slack);
    acts := Then(p, acts, Elapse(INTERVAL), State(1000.0, slack, slack, None, 0, Sleeping(INTERVAL)));
    acts := Then(p, acts, HostMark, State(1000.0, 1000.0, slack, Some(1000.0), 0, Sleeping(INTERVAL)));
    acts := Then(p, acts, Wake, State(1000.0, 1000.0, slack, Some(1000.0), 0, Sleeping(1000.0)));
    acts := Then(p, acts, Elapse(late), State(1000.0 + late, 1000.0, slack, Some(1000.0), 0, Sleeping(1000.0)));
  }

  /** The device forgets its configuration after 1000 ms of silence. The loop prevents that
      in every run exactly when sleeps never overshoot, pings return within 500 ms, commands
      are written as soon as they are marked and no mark is bare: there is no margin to spare. */
  lemma StaysWithinDeviceTimerIff(p: Params)
    requires p.Valid()
    ensures (forall acts :: ValidRun(p, INITIAL, acts) ==> Gap(After(p, INITIAL, acts)) <= 1000.0)
            <==> p.overshoot == 0.0 && p.latency <= 500.0 && p.lag == 0.0 && p.bares == 0
  {
    ExtraGrows(p, 0, p.bares);
    if p.bares > 0 {
      ExtraGrows(p, 1, p.bares);
      assert Extra(p, 1) == Extra(p, 0) + INTERVAL + p.overshoot;
    }
    if p.overshoot > 0.0 || p.bares > 0 {
      var excess := if p.bares > 0 then 500.0 else p.overshoot;
      var acts := TwoIntervalsReached(p, if excess / 2.0 <= INTERVAL then excess / 2.0 else INTERVAL);
    } else if p.latency > 500.0 {
      var acts := SlowPingReached(p);
    } else if p.lag > 0.0 {
      var late := if p.lag <= INTERVAL then p.lag else INTERVAL;
      var acts := LateWriteReached(p, late / 2.0, late);
    } else {
      forall acts | ValidRun(p, INITIAL, acts) ensures Gap(After(p, INITIAL, acts)) <= 1000.0 {
        GapBounded(p, INITIAL, acts);
      }
    }
  }

  /** So without a limit on bare marks the silence has none: a call that marks a write and
      sends nothing, such as rx_start when already started or tx with an empty payload, made
      as often as the loop wakes, suppresses every ping. */
  lemma BareMarksUnbound(p: Params, n: nat) returns (acts: seq<Action>)
    requires p.Valid() && n <= p.bares
    ensures ValidRun(p, INITIAL, acts)
    ensures var s := After(p, INITIAL, acts); s.write == 0.0 && s.bare == n && Gap(s) == Extra(p, n)
    ensures Gap(After(p, INITIAL, acts)) >= n as real * 500.0
  {
    acts := BareRounds(p, [], 0.0, 0.0, n);
    ExtraAtLeast(p, n);
  }
}
