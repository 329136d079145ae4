/** The consumers of the RX queue. `recv_rx` and `next_rx` both take the queue's lock first
    and keep it while they wait for a packet; `recv_rx`'s timeout covers the second wait only.
    The lock is granted strictly in order of arrival.

    Time is exact: a consumer that can return does so before the clock moves on.
 */
module RxConsumers {
  import opened Protocol

  type Duration = r: real | r >= 0.0

  datatype Kind = RecvRx(timeout: Duration) | NextRx

  datatype Pc = Waiting | Returned(packet: Option<RxPayload>)

  datatype Consumer = Consumer(kind: Kind, pc: Pc)

  /** `line`: the consumers at the lock in order of arrival; the first has it, since `since`.
      `open`: the reader is there and may still send. */
  datatype State = State(
    now: real, since: real, queue: seq<RxPayload>, open: bool, line: seq<nat>, consumers: seq<Consumer>)

  const START := State(0.0, 0.0, [], true, [], [])

  datatype Action =
    | Ask(kind: Kind)
    | Pop | EndOfStream | Expire     // the first in the line returns
    | Arrive(packet: RxPayload) | ReaderGone
    | Elapse(dt: Duration)

  function KindAt(s: State, j: nat): Kind
    requires j < |s.line|
  {
    if s.line[j] < |s.consumers| then s.consumers[s.line[j]].kind else NextRx
  }

  /** The first in the line has nothing to return with. */
  predicate StillWaits(s: State, now: real)
    requires s.line != []
  {
    s.queue == [] && s.open && (KindAt(s, 0).RecvRx? ==> now < s.since + KindAt(s, 0).timeout)
  }

  predicate Enabled(s: State, a: Action) {
    match a
    case Ask(_) => true
    case Pop => s.line != [] && s.queue != []
    case EndOfStream => s.line != [] && s.queue == [] && !s.open
    case Expire =>
      && s.line != [] && s.queue == []
      && KindAt(s, 0).RecvRx? && s.now >= s.since + KindAt(s, 0).timeout
    case Arrive(_) => s.open
    case ReaderGone => true
    case Elapse(dt) =>
      s.line != [] ==>
        && s.queue == [] && s.open
        && (KindAt(s, 0).RecvRx? ==> s.now + dt <= s.since + KindAt(s, 0).timeout)
  }

  /** The first in the line returns, and the next has the lock. */
  function Served(s: State, packet: Option<RxPayload>): State
    requires s.line != []
  {
    var i := s.line[0];
    s.(line := s.line[1..], since := s.now,
       consumers := if i < |s.consumers| then s.consumers[i := s.consumers[i].(pc := Returned(packet))]
                    else s.consumers)
  }

  function Do(s: State, a: Action): State
    requires Enabled(s, a)
  {
    match a
    case Ask(kind) =>
      s.(consumers := s.consumers + [Consumer(kind, Waiting)], line := s.line + [|s.consumers|],
         since := if s.line == [] then s.now else s.since)
    case Pop => Served(s, Some(s.queue[0])).(queue := s.queue[1..])
    case EndOfStream => Served(s, None)
    case Expire => Served(s, None)
    case Arrive(p) => s.(queue := s.queue + [p])
    case ReaderGone => s.(open := false)
    case Elapse(dt) => s.(now := s.now + dt)
  }

  predicate ValidRun(s: State, acts: seq<Action>)
    decreases |acts|
  {
    acts == [] || (Enabled(s, acts[0]) && ValidRun(Do(s, acts[0]), acts[1..]))
  }

  function After(s: State, acts: seq<Action>): State
    requires ValidRun(s, acts)
    decreases |acts|
  {
    if acts == [] then s else After(Do(s, acts[0]), acts[1..])
  }

  // ---------------------------------------------------------------- every run

  predicate IsWaiting(s: State, i: nat) {
    i < |s.consumers| && s.consumers[i].pc.Waiting?
  }

  /** The line holds consumers that have not returned, each once, and the first has not
      outstayed its timeout. */
  ghost predicate Ok(s: State) {
    && (forall j :: 0 <= j < |s.line| ==> IsWaiting(s, s.line[j]))
    && (forall j, k :: 0 <= j < k < |s.line| ==> s.line[j] != s.line[k])
    && s.since <= s.now
    && (s.line != [] && KindAt(s, 0).RecvRx? ==> s.now <= s.since + KindAt(s, 0).timeout)
  }

  lemma OkStep(s: State, a: Action)
    requires Ok(s) && Enabled(s, a)
    ensures Ok(Do(s, a))
  {
  }

  lemma {:induction false} OkRun(s: State, acts: seq<Action>)
    requires Ok(s) && ValidRun(s, acts)
    ensures Ok(After(s, acts))
    decreases |acts|
  {
    if acts != [] {
      OkStep(s, acts[0]);
      OkRun(Do(s, acts[0]), acts[1..]);
    }
  }

  /** A session's queue after the actions `before`. */
  ghost predicate Reached(s: State, before: seq<Action>) {
    ValidRun(START, before) && After(START, before) == s
  }

  lemma ReachedOk(s: State, before: seq<Action>)
    requires Reached(s, before)
    ensures Ok(s)
  {
    OkRun(START, before);
  }

  predicate Serves(a: Action) {
    a.Pop? || a.EndOfStream? || a.Expire?
  }

  /** A waiting consumer can return exactly when it is the first in the line and has a packet,
      the end of the stream or, having the lock, its timeout to return with. */
  lemma HasOwnStepIff(s: State, before: seq<Action>, j: nat)
    requires Reached(s, before) && j < |s.line|
    ensures (exists a :: Serves(a) && Enabled(s, a) && !IsWaiting(Do(s, a), s.line[j]))
            <==> j == 0 && !StillWaits(s, s.now)
  {
    ReachedOk(s, before);
    if j == 0 && !StillWaits(s, s.now) {
      var a := if s.queue != [] then Pop else if !s.open then EndOfStream else Expire;
      assert Serves(a) && Enabled(s, a);
    }
  }

  /** `next_rx` waits on an empty queue that may still be filled. */
  predicate Listening(s: State) {
    s.line != [] && KindAt(s, 0).NextRx? && s.queue == [] && s.open
  }

  lemma ListenerStays(s: State, a: Action, j: nat)
    requires Ok(s) && Enabled(s, a) && !a.Arrive? && !a.ReaderGone? && Listening(s) && j < |s.line|
    ensures Listening(Do(s, a)) && s.line <= Do(s, a).line && IsWaiting(Do(s, a), s.line[j])
  {
  }

  lemma {:induction false} ListenerKeeps(s: State, acts: seq<Action>, j: nat)
    requires Ok(s) && ValidRun(s, acts) && Listening(s) && j < |s.line|
    requires forall k :: 0 <= k < |acts| ==> !acts[k].Arrive? && !acts[k].ReaderGone?
    ensures Listening(After(s, acts)) && IsWaiting(After(s, acts), s.line[j])
    decreases |acts|
  {
    if acts != [] {
      OkStep(s, acts[0]);
      ListenerStays(s, acts[0], j);
      ListenerKeeps(Do(s, acts[0]), acts[1..], j);
    }
  }

  /** So a `recv_rx` behind a listening `next_rx` does not return, whatever its timeout, until
      a packet arrives or the reader goes; nor does any other consumer. */
  lemma ListenerBlocksTimeouts(s: State, before: seq<Action>, acts: seq<Action>, j: nat)
    requires Reached(s, before) && ValidRun(s, acts) && Listening(s) && j < |s.line|
    requires forall k :: 0 <= k < |acts| ==> !acts[k].Arrive? && !acts[k].ReaderGone?
    ensures IsWaiting(After(s, acts), s.line[j])
  {
    ReachedOk(s, before);
    ListenerKeeps(s, acts, j);
  }

  // ---------------------------------------------------------------- who gets which packet

  function Arrivals(acts: seq<Action>): seq<RxPayload> {
    if acts == [] then [] else (if acts[0].Arrive? then [acts[0].packet] else []) + Arrivals(acts[1..])
  }

  /** What the consumers have returned with, in the order in which they were served. */
  function HandedOut(s: State, acts: seq<Action>): seq<RxPayload>
    requires ValidRun(s, acts)
    decreases |acts|
  {
    if acts == [] then []
    else
      var s' := Do(s, acts[0]);
      (if Serves(acts[0]) && s.line[0] < |s'.consumers| then PacketOf(s'.consumers[s.line[0]]) else [])
      + HandedOut(s', acts[1..])
  }

  function PacketOf(c: Consumer): seq<RxPayload> {
    if c.pc.Returned? && c.pc.packet.Some? then [c.pc.packet.value] else []
  }

  /** What one action hands out, and what arrives with it. */
  lemma PacketStep(s: State, a: Action)
    requires Ok(s) && Enabled(s, a)
    ensures Serves(a) ==> s.line[0] < |Do(s, a).consumers|
    ensures (if Serves(a) then PacketOf(Do(s, a).consumers[s.line[0]]) else []) + Do(s, a).queue
            == s.queue + if a.Arrive? then [a.packet] else []
  {
    if Serves(a) {
      assert IsWaiting(s, s.line[0]);
    }
  }

  lemma {:induction false} PacketsConserved(s: State, acts: seq<Action>)
    requires Ok(s) && ValidRun(s, acts)
    ensures HandedOut(s, acts) + After(s, acts).queue == s.queue + Arrivals(acts)
    decreases |acts|
  {
    if acts != [] {
      var a, s' := acts[0], Do(s, acts[0]);
      OkStep(s, a);
      PacketStep(s, a);
      PacketsConserved(s', acts[1..]);
      var out := if Serves(a) then PacketOf(s'.consumers[s.line[0]]) else [];
      var arrived := if a.Arrive? then [a.packet] else [];
      Regroup(out, HandedOut(s', acts[1..]), After(s, acts).queue, s'.queue, Arrivals(acts[1..]), s.queue, arrived);
    }
  }

  lemma Regroup(
      out: seq<RxPayload>, outs: seq<RxPayload>, end: seq<RxPayload>, mid: seq<RxPayload>,
      arrivals: seq<RxPayload>, start: seq<RxPayload>, arrival: seq<RxPayload>)
    requires outs + end == mid + arrivals && out + mid == start + arrival
    ensures (out + outs) + end == start + (arrival + arrivals)
  {
    calc {
      (out + outs) + end;
      out + (outs + end);
      (out + mid) + arrivals;
      start + (arrival + arrivals);
    }
  }

  /** The packets handed out, in order of service, and then those queued are the packets that
      arrived, in order. */
  lemma ArrivalsConserved(acts: seq<Action>)
    requires ValidRun(START, acts)
    ensures HandedOut(START, acts) + After(START, acts).queue == Arrivals(acts)
  {
    PacketsConserved(START, acts);
  }

  /** A consumer returns without a packet only when none is queued and the stream has ended, or
      its own timeout has run out since it got the lock. */
  lemma EmptyHandedIff(s: State, before: seq<Action>, a: Action)
    requires Reached(s, before) && Enabled(s, a) && Serves(a)
    ensures s.line[0] < |Do(s, a).consumers| && Do(s, a).consumers[s.line[0]].pc.Returned?
    ensures Do(s, a).consumers[s.line[0]].pc.packet == None <==> s.queue == []
    ensures s.queue == [] ==>
      !s.open || (KindAt(s, 0).RecvRx? && s.now >= s.since + KindAt(s, 0).timeout)
  {
    ReachedOk(s, before);
    assert IsWaiting(s, s.line[0]);
  }

  // ---------------------------------------------------------------- how long a consumer waits

  function Kinds(s: State): (r: seq<Kind>)
    ensures |r| == |s.line| && forall j :: 0 <= j < |r| ==> r[j] == KindAt(s, j)
  {
    seq(|s.line|, j requires 0 <= j < |s.line| => KindAt(s, j))
  }

  /** The consumers up to place p for whom no packet is queued yet. */
  function Unserved(s: State, p: nat): seq<Kind>
    requires p < |s.line|
  {
    if |s.queue| <= p then Kinds(s)[|s.queue|..p + 1] else []
  }

  /** None of them is a `next_rx`. */
  ghost predicate NoListener(s: State, p: nat)
    requires p < |s.line|
  {
    forall j :: |s.queue| <= j <= p ==> KindAt(s, j).RecvRx?
  }

  function Total(ks: seq<Kind>): real {
    if ks == [] then 0.0 else (if ks[0].RecvRx? then ks[0].timeout else 0.0) + Total(ks[1..])
  }

  lemma {:induction false} TotalNonNegative(ks: seq<Kind>)
    ensures Total(ks) >= 0.0
    decreases |ks|
  {
    if ks != [] {
      TotalNonNegative(ks[1..]);
    }
  }

  /** What the consumer at place p may still have to wait: all the timeouts of those before
      it that have no packet queued, its own, less what the first has waited already. */
  function Budget(s: State, p: nat): real
    requires p < |s.line|
  {
    Total(Unserved(s, p)) - if s.queue == [] then s.now - s.since else 0.0
  }

  lemma BudgetNonNegative(s: State, p: nat)
    requires Ok(s) && p < |s.line| && NoListener(s, p)
    ensures Budget(s, p) >= 0.0
  {
    if s.queue == [] {
      TotalNonNegative(Unserved(s, p)[1..]);
    } else {
      TotalNonNegative(Unserved(s, p));
    }
  }

  /** Where the consumer at place p is after an action that does not serve it. */
  function Place(a: Action, p: nat): nat
    requires Serves(a) ==> p > 0
  {
    if Serves(a) then p - 1 else p
  }

  lemma ServedBudget(s: State, a: Action, p: nat)
    requires Ok(s) && Enabled(s, a) && Serves(a) && 0 < p < |s.line| && NoListener(s, p)
    ensures NoListener(Do(s, a), p - 1) && Budget(Do(s, a), p - 1) <= Budget(s, p)
    ensures a.Pop? || (a.Expire? && s.open) ==> Budget(Do(s, a), p - 1) == Budget(s, p)
  {
    var s' := Do(s, a);
    assert Kinds(s') == Kinds(s)[1..];
    if a.Pop? {
      assert Unserved(s', p - 1) == Unserved(s, p);
    } else {
      assert Unserved(s', p - 1) == Unserved(s, p)[1..];
    }
  }

  lemma OtherBudget(s: State, a: Action, p: nat)
    requires Ok(s) && Enabled(s, a) && !Serves(a) && p < |s.line| && NoListener(s, p)
    ensures p < |Do(s, a).line| && Do(s, a).line[p] == s.line[p] && NoListener(Do(s, a), p)
    ensures Do(s, a).now + Budget(Do(s, a), p) <= s.now + Budget(s, p)
    ensures a.Elapse? ==> Do(s, a).now + Budget(Do(s, a), p) == s.now + Budget(s, p)
  {
    var s' := Do(s, a);
    forall j | 0 <= j < |s.line| ensures KindAt(s', j) == KindAt(s, j) {
      assert IsWaiting(s, s.line[j]);
    }
    if a.Arrive? && |s.queue| <= p {
      assert Unserved(s', p) == Unserved(s, p)[1..];
      TotalNonNegative(Unserved(s, p)[1..]);
    } else {
      assert Unserved(s', p) == Unserved(s, p);
    }
  }

  /** Consumer i is in the line. */
  predicate InLine(s: State, i: nat) {
    exists j :: 0 <= j < |s.line| && s.line[j] == i
  }

  lemma {:induction false} LeftForGood(s: State, acts: seq<Action>, i: nat)
    requires ValidRun(s, acts) && !InLine(s, i) && i < |s.consumers|
    ensures !InLine(After(s, acts), i)
    decreases |acts|
  {
    if acts != [] {
      assert |Do(s, acts[0]).consumers| >= |s.consumers|;
      LeftForGood(Do(s, acts[0]), acts[1..], i);
    }
  }

  lemma {:induction false} WaitsWithin(s: State, acts: seq<Action>, p: nat)
    requires Ok(s) && ValidRun(s, acts) && p < |s.line| && NoListener(s, p)
    ensures InLine(After(s, acts), s.line[p]) ==> After(s, acts).now <= s.now + Budget(s, p)
    decreases |acts|
  {
    if acts == [] {
      BudgetNonNegative(s, p);
    } else {
      var a, s' := acts[0], Do(s, acts[0]);
      OkStep(s, a);
      if !Serves(a) {
        OtherBudget(s, a, p);
        WaitsWithin(s', acts[1..], p);
      } else if p > 0 {
        ServedBudget(s, a, p);
        WaitsWithin(s', acts[1..], p - 1);
      } else {
        LeftForGood(s', acts[1..], s.line[0]);
      }
    }
  }

  /** Once the reader is gone nobody in the line waits at all. */
  lemma {:induction false} NoWaitWhenGone(s: State, acts: seq<Action>, p: nat)
    requires Ok(s) && ValidRun(s, acts) && p < |s.line| && !s.open
    ensures InLine(After(s, acts), s.line[p]) ==> After(s, acts).now == s.now
    decreases |acts|
  {
    if acts != [] {
      var a := acts[0];
      OkStep(s, a);
      if !Serves(a) {
        NoWaitWhenGone(Do(s, a), acts[1..], p);
      } else if p > 0 {
        NoWaitWhenGone(Do(s, a), acts[1..], p - 1);
      } else {
        LeftForGood(Do(s, a), acts[1..], s.line[0]);
      }
    }
  }

  lemma {:induction false} RunsJoin(s: State, a: seq<Action>, b: seq<Action>)
    requires ValidRun(s, a) && ValidRun(After(s, a), b)
    ensures ValidRun(s, a + b) && After(s, a + b) == After(After(s, a), b)
    decreases |a|
  {
    if a == [] {
      assert a + b == b;
    } else {
      assert (a + b)[0] == a[0] && (a + b)[1..] == a[1..] + b;
      RunsJoin(Do(s, a[0]), a[1..], b);
    }
  }

  /** The first in the line takes its packet, or sits out its timeout. */
  lemma FirstLeaves(s: State) returns (acts: seq<Action>, s': State)
    requires Ok(s) && s.line != [] && s.open && !Listening(s)
    ensures ValidRun(s, acts) && After(s, acts) == s' && |acts| <= 2 && Ok(s') && s'.open
    ensures s'.line == s.line[1..] && !IsWaiting(s', s.line[0]) && |s'.consumers| == |s.consumers|
    ensures forall j :: 0 <= j < |s'.line| ==> KindAt(s', j) == KindAt(s, j + 1)
    ensures |s'.queue| == if s.queue == [] then 0 else |s.queue| - 1
    ensures s'.now == (if s.queue == [] then s.since + KindAt(s, 0).timeout else s.now) && s'.since == s'.now
  {
    assert IsWaiting(s, s.line[0]);
    if s.queue != [] {
      acts, s' := [Pop], Do(s, Pop);
      assert acts[1..] == [];
      OkStep(s, Pop);
    } else {
      var wait := Elapse(s.since + KindAt(s, 0).timeout - s.now);
      var mid := Do(s, wait);
      OkStep(s, wait);
      OkStep(mid, Expire);
      acts, s' := [wait, Expire], Do(mid, Expire);
      assert acts[1..] == [Expire] && [Expire][1..] == [] && After(mid, [Expire]) == s';
    }
  }

  lemma FirstLeavesBudget(s: State, s': State, p: nat)
    requires Ok(s) && 0 < p < |s.line| && NoListener(s, p)
    requires s'.line == s.line[1..] && forall j :: 0 <= j < |s'.line| ==> KindAt(s', j) == KindAt(s, j + 1)
    requires |s'.queue| == if s.queue == [] then 0 else |s.queue| - 1
    requires s'.now == (if s.queue == [] then s.since + KindAt(s, 0).timeout else s.now) && s'.since == s'.now
    ensures NoListener(s', p - 1) && s'.now + Budget(s', p - 1) == s.now + Budget(s, p)
  {
    assert Kinds(s') == Kinds(s)[1..];
    if s.queue == [] {
      assert Unserved(s', p - 1) == Unserved(s, p)[1..];
    } else {
      assert Unserved(s', p - 1) == Unserved(s, p);
    }
  }

  /** With no packet coming, the consumer at place p returns after exactly its budget. */
  lemma {:induction false} WaitsOut(s: State, p: nat) returns (acts: seq<Action>)
    requires Ok(s) && p < |s.line| && s.open && NoListener(s, p)
    ensures ValidRun(s, acts) && |acts| <= 2 * (p + 1)
    ensures s.line[p] < |After(s, acts).consumers| && !IsWaiting(After(s, acts), s.line[p])
    ensures After(s, acts).now == s.now + if |s.queue| <= p then Budget(s, p) else 0.0
    decreases p
  {
    var s';
    acts, s' := FirstLeaves(s);
    if p == 0 {
      if s.queue == [] {
        assert Unserved(s, 0) == [KindAt(s, 0)] && [KindAt(s, 0)][1..] == [];
        assert Total([KindAt(s, 0)]) == KindAt(s, 0).timeout;
      }
    } else {
      FirstLeavesBudget(s, s', p);
      var rest := WaitsOut(s', p - 1);
      assert s'.line[p - 1] == s.line[p];
      RunsJoin(s, acts, rest);
      acts := acts + rest;
    }
  }

  /** The exact wait, without `next_rx` among those with no packet: never longer than the
      timeouts of all of them added up, and as long as that when no packet comes. The timeout
      of a `recv_rx` that is not first begins only after those of the others have run out. */
  lemma WaitExact(s: State, before: seq<Action>, p: nat) returns (silent: seq<Action>)
    requires Reached(s, before) && p < |s.line| && s.open && |s.queue| <= p && NoListener(s, p)
    ensures forall acts :: ValidRun(s, acts) && InLine(After(s, acts), s.line[p]) ==>
              After(s, acts).now <= s.now + Budget(s, p)
    ensures ValidRun(s, silent) && s.line[p] < |After(s, silent).consumers| && !IsWaiting(After(s, silent), s.line[p])
    ensures After(s, silent).now == s.now + Budget(s, p) && |silent| <= 2 * (p + 1)
  {
    ReachedOk(s, before);
    forall acts | ValidRun(s, acts) && InLine(After(s, acts), s.line[p])
      ensures After(s, acts).now <= s.now + Budget(s, p)
    {
      WaitsWithin(s, acts, p);
    }
    silent := WaitsOut(s, p);
  }

  /** Behind a `next_rx` the clock can run past any time b while the consumer waits. */
  lemma {:induction false} Outwaits(s: State, p: nat, b: real) returns (acts: seq<Action>)
    requires Ok(s) && p < |s.line| && s.open && !NoListener(s, p)
    ensures ValidRun(s, acts) && InLine(After(s, acts), s.line[p]) && After(s, acts).now > b
    decreases p
  {
    if Listening(s) {
      var dt: Duration := if b >= s.now then b - s.now + 1.0 else 1.0;
      acts := [Elapse(dt)];
      assert acts[1..] == [] && After(s, acts) == Do(s, Elapse(dt));
      assert After(s, acts).line[p] == s.line[p];
      return;
    }
    var s';
    acts, s' := FirstLeaves(s);
    var j :| |s.queue| <= j <= p && KindAt(s, j).NextRx?;
    assert KindAt(s', j - 1).NextRx?;
    var rest := Outwaits(s', p - 1, b);
    assert s'.line[p - 1] == s.line[p];
    RunsJoin(s, acts, rest);
    acts := acts + rest;
  }

  /** No run keeps the consumer at place p in the line beyond time b. */
  ghost predicate BoundedBy(s: State, p: nat, b: real)
    requires p < |s.line|
  {
    forall acts :: ValidRun(s, acts) && InLine(After(s, acts), s.line[p]) ==> After(s, acts).now <= b
  }

  /** A waiting consumer has a bounded wait exactly when the reader is gone or no `next_rx` is
      among those, up to itself, for whom no packet is queued. */
  lemma WaitBoundedIff(s: State, before: seq<Action>, p: nat)
    requires Reached(s, before) && p < |s.line|
    ensures (exists b :: BoundedBy(s, p, b)) <==> !s.open || NoListener(s, p)
  {
    ReachedOk(s, before);
    if NoListener(s, p) {
      forall acts | ValidRun(s, acts) && InLine(After(s, acts), s.line[p])
        ensures After(s, acts).now <= s.now + Budget(s, p)
      {
        WaitsWithin(s, acts, p);
      }
      assert BoundedBy(s, p, s.now + Budget(s, p));
    } else if !s.open {
      forall acts | ValidRun(s, acts) && InLine(After(s, acts), s.line[p]) ensures After(s, acts).now <= s.now {
        NoWaitWhenGone(s, acts, p);
      }
      assert BoundedBy(s, p, s.now);
    } else if b :| BoundedBy(s, p, b) {
      var acts := Outwaits(s, p, b);
      assert false;
    }
  }
}
