/** `tx_with_retry`: the retry loop, its backoff, and what it puts on the wire. */
module Retry {
  import opened Protocol
  import opened Tags

  const U32_MAX: u32 := 0xFFFF_FFFF
  const EXACT: nat := 0x100_0000   // 2^24

  datatype RetryPolicy = RetryPolicy(
    maxAttempts: u8, backoffMin: u32, backoffMax: u32, multiplier: real, backoffCap: u32)

  /** Single-precision rounding, as far as the results below need it: monotone, and exact
      on integers up to 2^24. */
  ghost predicate RoundsLikeF32(round: real -> real) {
    && (forall x, y :: x <= y ==> round(x) <= round(y))
    && (forall x: real :: 0.0 <= x <= EXACT as real && x == x.Floor as real ==> round(x) == x)
  }

  /** Float-to-integer casts truncate and saturate. */
  function CastU32(x: real): u32 {
    if x <= 0.0 then 0 else if x.Floor > U32_MAX then U32_MAX else x.Floor
  }

  ghost predicate Multiplies(scale: real -> real, multiplier: real) {
    forall x :: scale(x) == x * multiplier
  }

  /** `grow` is the update of the floor, before capping: `scale` in single precision. */
  ghost predicate InF32(grow: u32 -> u32, round: real -> real, scale: real -> real) {
    RoundsLikeF32(round) && forall d: u32 :: grow(d) == CastU32(round(scale(round(d as real))))
  }

  function Min(a: nat, b: nat): (r: nat)
    ensures r <= b
  {
    if a <= b then a else b
  }

  function Max(a: nat, b: nat): nat {
    if a >= b then a else b
  }

  /** Width of the jitter range: a saturating subtraction. */
  function Spread(policy: RetryPolicy): u32 {
    if policy.backoffMax <= policy.backoffMin then 0 else policy.backoffMax - policy.backoffMin
  }

  /** The backoff floor before retry k, for k >= 1, as the loop updates it. */
  function Floor(grow: u32 -> u32, policy: RetryPolicy, k: nat): u32
    requires k >= 1
  {
    if k == 1 then policy.backoffMin else Min(grow(Floor(grow, policy, k - 1)), policy.backoffCap)
  }

  // ---------------------------------------------------------------- backoff

  /** Only the first floor can exceed the cap. */
  lemma FloorBounded(grow: u32 -> u32, policy: RetryPolicy, k: nat)
    requires k >= 1
    ensures Floor(grow, policy, k) <= if k == 1 then policy.backoffMin else policy.backoffCap
  {
  }

  ghost predicate Inflates(scale: real -> real) {
    forall x :: x >= 0.0 ==> x <= scale(x)
  }

  lemma MultiplierInflates(scale: real -> real, multiplier: real)
    requires Multiplies(scale, multiplier) && multiplier >= 1.0
    ensures Inflates(scale)
  {
    forall x | x >= 0.0 ensures x <= scale(x) {
      assert scale(x) == x * multiplier;
    }
  }

  lemma GrowsOrCaps(grow: u32 -> u32, round: real -> real, scale: real -> real, cap: u32, d: u32)
    requires InF32(grow, round, scale) && Inflates(scale) && d <= cap <= EXACT
    ensures d <= Min(grow(d), cap)
  {
    var exact := round(d as real);
    assert exact == d as real;
    assert exact <= scale(exact);
    assert round(exact) <= round(scale(exact));
  }

  /** With a multiplier of at least 1 and a cap within 2^24, the floors never decrease
      exactly when the initial one is within the cap. */
  lemma FloorsMonotoneIff(grow: u32 -> u32, round: real -> real, scale: real -> real, policy: RetryPolicy)
    requires InF32(grow, round, scale) && Multiplies(scale, policy.multiplier)
    requires policy.multiplier >= 1.0 && policy.backoffCap <= EXACT
    ensures (forall k: nat :: k >= 2 ==> Floor(grow, policy, k - 1) <= Floor(grow, policy, k))
            <==> policy.backoffMin <= policy.backoffCap
  {
    if policy.backoffMin <= policy.backoffCap {
      MultiplierInflates(scale, policy.multiplier);
      forall k: nat | k >= 2 ensures Floor(grow, policy, k - 1) <= Floor(grow, policy, k) {
        FloorBounded(grow, policy, k - 1);
        GrowsOrCaps(grow, round, scale, policy.backoffCap, Floor(grow, policy, k - 1));
      }
    } else {
      assert Floor(grow, policy, 2) <= policy.backoffCap;
      assert Floor(grow, policy, 2 - 1) == policy.backoffMin;
    }
  }

  function Pow2(n: nat): nat {
    if n == 0 then 1 else 2 * Pow2(n - 1)
  }

  /** base doubled n times. */
  function Doubled(base: nat, n: nat): nat {
    if n == 0 then base else 2 * Doubled(base, n - 1)
  }

  lemma {:induction false} DoubledIsPower(base: nat, n: nat)
    ensures Doubled(base, n) == base * Pow2(n)
    decreases n
  {
    if n > 0 {
      DoubledIsPower(base, n - 1);
    }
  }

  lemma DoublesOrCaps(grow: u32 -> u32, round: real -> real, scale: real -> real, cap: u32, d: u32)
    requires InF32(grow, round, scale) && Multiplies(scale, 2.0) && cap <= EXACT
    ensures Min(grow(d), cap) == Min(2 * d, cap)
  {
    var top := EXACT as real;
    var near := round(d as real);
    assert scale(near) == near * 2.0;
    if 2 * d <= EXACT {
      assert near == d as real;
      assert round((2 * d) as real) == (2 * d) as real;
    } else {
      assert round(top / 2.0) == top / 2.0;
      assert round(top / 2.0) <= near;
      assert round(top) == top;
      assert round(top) <= round(scale(near));
    }
  }

  lemma {:induction false} FloorDoubles(
      grow: u32 -> u32, round: real -> real, scale: real -> real, policy: RetryPolicy, k: nat)
    requires InF32(grow, round, scale) && Multiplies(scale, 2.0) && policy.backoffCap <= EXACT && k >= 2
    ensures Floor(grow, policy, k) == Min(Doubled(policy.backoffMin, k - 1), policy.backoffCap)
    decreases k
  {
    DoublesOrCaps(grow, round, scale, policy.backoffCap, Floor(grow, policy, k - 1));
    if k > 2 {
      FloorDoubles(grow, round, scale, policy, k - 1);
    }
  }

  /** For the doubling policy with a cap within 2^24, the floors are the minimum, then
      min * 2^(k-1) up to the cap: rounding never shows. */
  lemma FloorClosedForm(
      grow: u32 -> u32, round: real -> real, scale: real -> real, policy: RetryPolicy, k: nat)
    requires InF32(grow, round, scale) && Multiplies(scale, policy.multiplier)
    requires policy.multiplier == 2.0 && policy.backoffCap <= EXACT && k >= 1
    ensures Floor(grow, policy, k) ==
            if k == 1 then policy.backoffMin else Min(policy.backoffMin * Pow2(k - 1), policy.backoffCap)
  {
    if k > 1 {
      FloorDoubles(grow, round, scale, policy, k);
      DoubledIsPower(policy.backoffMin, k - 1);
    }
  }

  function Sum(waits: seq<nat>): nat {
    if waits == [] then 0 else waits[0] + Sum(waits[1..])
  }

  lemma {:induction false} SumBounded(waits: seq<nat>, w: nat, n: nat)
    requires |waits| <= n && forall i :: 0 <= i < |waits| ==> waits[i] <= w
    ensures Sum(waits) <= n * w
    decreases |waits|
  {
    if waits == [] {
      assert 0 <= n * w;
    } else {
      SumBounded(waits[1..], w, n - 1);
      assert n * w == (n - 1) * w + w;
    }
  }

  // ---------------------------------------------------------------- the loop

  datatype TxAttempt = TxAttempt(attempt: u8, result: Result<TxDone, ClientError>)

  datatype TxOutcome = TxOutcome(finalAirtimeUs: u32, attempts: seq<TxAttempt>)
  {
    /** The original truncates the length to eight bits. */
    function AttemptsUsed(): u8 {
      |attempts| % 0x100
    }
  }

  /** How an error is recorded in the log: I/O errors cannot be cloned. */
  function CloneKind(e: ClientError): ClientError {
    if e.Io? then Other("io") else e
  }

  function Logged(r: Result<TxDone, ClientError>): Result<TxDone, ClientError> {
    if r.Failure? then Failure(CloneKind(r.error)) else r
  }

  predicate Retryable(r: Result<TxDone, ClientError>) {
    r.Failure? && r.error.IsRetryable()
  }

  /** How far a transmission gets in the session. A write may fail before or after the whole
      frame has reached the transport. */
  datatype Passage =
    | SessionClosed                 // before a tag is taken
    | Unencodable                   // tag taken, nothing written
    | WriteFailed(reached: bool)
    | Carried(reply: Result<TxDone, ClientError>)

  type Radio = nat -> Passage

  /** What `transmit` returns for attempt k: an empty payload is refused before anything is
      sent, otherwise the passage decides. */
  function Reply(data: Bytes, radio: Radio, k: nat): Result<TxDone, ClientError> {
    if data == [] then Failure(Length)
    else
      match radio(k)
      case SessionClosed => Failure(CLOSED_BY_CLOSE)
      case Unencodable => Failure(EncodeFailed)
      case WriteFailed(_) => Failure(Io)
      case Carried(reply) => reply
  }

  /** Attempt k puts a TX frame on the wire. */
  predicate OnWire(data: Bytes, radio: Radio, k: nat) {
    data != [] && (radio(k).Carried? || radio(k) == WriteFailed(true))
  }

  /** Attempts 1..|log| are recorded with the replies they got. */
  ghost predicate Records(data: Bytes, radio: Radio, log: seq<TxAttempt>) {
    |log| <= 0xFF
    && forall k: nat :: 1 <= k <= |log| ==> log[k - 1] == TxAttempt(k, Logged(Reply(data, radio, k)))
  }

  /** A complete log: all attempts but the last were retryable, and the last was either
      final or the policy's last. */
  ghost predicate CompleteLog(maxAttempts: u8, data: Bytes, radio: Radio, log: seq<TxAttempt>) {
    && 1 <= |log| <= maxAttempts
    && Records(data, radio, log)
    && (forall k: nat :: 1 <= k < |log| ==> Retryable(Reply(data, radio, k)))
    && (!Retryable(Reply(data, radio, |log|)) || |log| == maxAttempts)
  }

  /** The replies determine the log: any two complete logs for them are equal. */
  lemma CompleteLogUnique(maxAttempts: u8, data: Bytes, radio: Radio, a: seq<TxAttempt>, b: seq<TxAttempt>)
    requires CompleteLog(maxAttempts, data, radio, a) && CompleteLog(maxAttempts, data, radio, b)
    ensures a == b
  {
    forall i | 0 <= i < |a| ensures a[i] == b[i] {
      assert a[i + 1 - 1] == TxAttempt(i + 1, Logged(Reply(data, radio, i + 1)));
    }
  }

  /** In the log itself: every entry before the last is ChannelBusy or Busy, and the length
      survives the eight-bit truncation. */
  lemma LogShape(maxAttempts: u8, data: Bytes, radio: Radio, log: seq<TxAttempt>, airtime: u32)
    requires CompleteLog(maxAttempts, data, radio, log)
    ensures forall i :: 0 <= i < |log| - 1 ==>
      log[i].result == Failure(ClientError.ChannelBusy) || log[i].result == Failure(Busy)
    ensures TxOutcome(airtime, log).AttemptsUsed() == |log|
  {
    forall i | 0 <= i < |log| - 1
      ensures log[i].result == Failure(ClientError.ChannelBusy) || log[i].result == Failure(Busy)
    {
      assert Retryable(Reply(data, radio, i + 1));
      assert log[i + 1 - 1] == TxAttempt(i + 1, Logged(Reply(data, radio, i + 1)));
    }
  }

  /** A random draw from 0 to n, both included. */
  ghost predicate IsDraw(draw: u32 -> u32) {
    forall n :: draw(n) <= n
  }

  function Jitter(policy: RetryPolicy, draw: u32 -> u32): u32 {
    if Spread(policy) == 0 then 0 else draw(Spread(policy))
  }

  /** The range of the jitter, over all draws: the spread, both ends included. */
  lemma JitterReachesIff(policy: RetryPolicy, v: u32)
    ensures (exists draw :: IsDraw(draw) && Jitter(policy, draw) == v)
            <==> v == 0 || v <= policy.backoffMax - policy.backoffMin
  {
    if v <= Spread(policy) {
      var draw: u32 -> u32 := (n: u32) => if v <= n then v else n;
      assert IsDraw(draw) && Jitter(policy, draw) == v;
    }
  }

  /** Waits between attempts: the floor of each retry plus its jitter. */
  ghost predicate WaitsFollow(grow: u32 -> u32, policy: RetryPolicy, draws: nat -> u32 -> u32, waits: seq<nat>) {
    forall k: nat :: 1 <= k <= |waits| ==> waits[k - 1] == Floor(grow, policy, k) + Jitter(policy, draws(k))
  }

  /** Each wait, and the whole time slept, are bounded. */
  lemma BackoffBounded(grow: u32 -> u32, policy: RetryPolicy, draws: nat -> u32 -> u32, waits: seq<nat>)
    requires WaitsFollow(grow, policy, draws, waits) && |waits| < policy.maxAttempts
    requires forall k :: IsDraw(draws(k))
    ensures var w := Max(policy.backoffMin, policy.backoffCap) + Spread(policy);
            (forall i :: 0 <= i < |waits| ==> waits[i] <= w) && Sum(waits) <= (policy.maxAttempts - 1) * w
  {
    var w := Max(policy.backoffMin, policy.backoffCap) + Spread(policy);
    forall i | 0 <= i < |waits| ensures waits[i] <= w {
      FloorBounded(grow, policy, i + 1);
      assert waits[i + 1 - 1] == Floor(grow, policy, i + 1) + Jitter(policy, draws(i + 1));
      assert IsDraw(draws(i + 1));
    }
    SumBounded(waits, w, policy.maxAttempts - 1);
  }

  /** Each wait of the doubling policy in full: the minimum, doubled for each retry before it
      up to the cap, and the draw of that retry from the spread. */
  lemma WaitClosedForm(
      grow: u32 -> u32, round: real -> real, scale: real -> real, policy: RetryPolicy,
      draws: nat -> u32 -> u32, waits: seq<nat>, k: nat)
    requires InF32(grow, round, scale) && Multiplies(scale, policy.multiplier)
    requires policy.multiplier == 2.0 && policy.backoffCap <= EXACT
    requires WaitsFollow(grow, policy, draws, waits) && 1 <= k <= |waits|
    ensures waits[k - 1] ==
            (if k == 1 then policy.backoffMin else Min(policy.backoffMin * Pow2(k - 1), policy.backoffCap))
            + (if policy.backoffMax <= policy.backoffMin then 0 else draws(k)(policy.backoffMax - policy.backoffMin))
  {
    FloorClosedForm(grow, round, scale, policy, k);
  }

  method JitterMs(policy: RetryPolicy, draw: u32 -> u32) returns (jitter: u32)
    ensures jitter == Jitter(policy, draw)
  {
    var spread := if policy.backoffMax <= policy.backoffMin then 0 else policy.backoffMax - policy.backoffMin;
    if spread == 0 {
      return 0;
    }
    jitter := draw(spread);
  }

  // ---------------------------------------------------------------- on the wire

  /** How many of the attempts 1..n put a frame on the wire. */
  function FramesSent(data: Bytes, radio: Radio, n: nat): nat {
    if n == 0 then 0 else FramesSent(data, radio, n - 1) + if OnWire(data, radio, n) then 1 else 0
  }

  lemma {:induction false} RetriedAreSent(data: Bytes, radio: Radio, n: nat)
    requires forall k: nat :: 1 <= k <= n ==> Retryable(Reply(data, radio, k))
    ensures FramesSent(data, radio, n) == n
    decreases n
  {
    if n > 0 {
      RetriedAreSent(data, radio, n - 1);
      assert Retryable(Reply(data, radio, n));
    }
  }

  /** A retried attempt was carried to the device, so of the attempts in a complete log only
      the last can have failed to reach the wire. */
  lemma OnlyLastMayMiss(maxAttempts: u8, data: Bytes, radio: Radio, log: seq<TxAttempt>)
    requires CompleteLog(maxAttempts, data, radio, log)
    ensures FramesSent(data, radio, |log|) == |log| - if OnWire(data, radio, |log|) then 0 else 1
  {
    RetriedAreSent(data, radio, |log| - 1);
  }

  /** The tags of a run of transmissions: those of an increasing sequence of allocations. */
  ghost predicate TagsOf(sent: seq<u16>, numbers: seq<nat>, from: nat, upTo: nat) {
    && |sent| == |numbers|
    && (forall i :: 0 <= i < |sent| ==> sent[i] == NthTag(numbers[i]) && from <= numbers[i] < upTo)
    && (forall i, j :: 0 <= i < j < |numbers| ==> numbers[i] < numbers[j])
  }

  ghost predicate Distinct(sent: seq<u16>) {
    forall i, j :: 0 <= i < j < |sent| ==> sent[i] != sent[j]
  }

  lemma TagsDistinct(sent: seq<u16>, numbers: seq<nat>, from: nat, upTo: nat)
    requires TagsOf(sent, numbers, from, upTo)
    ensures upTo - from <= PERIOD ==> Distinct(sent)
  {
    if upTo - from <= PERIOD {
      forall i, j | 0 <= i < j < |sent| ensures sent[i] != sent[j] {
        WindowDistinct(numbers[i], numbers[j]);
      }
    }
  }

  lemma TagsExtend(sent: seq<u16>, numbers: seq<nat>, from: nat, upTo: nat, n: nat)
    requires TagsOf(sent, numbers, from, upTo) && upTo <= n && from <= n
    ensures TagsOf(sent + [NthTag(n)], numbers + [n], from, n + 1) && TagsOf(sent, numbers, from, n + 1)
  {
  }

  /** One `transmit`, attempt k, after `others` allocations by other callers: its result, and
      the tag of the frame it put on the wire, if any. */
  method TransmitOnce(counter: TagCounter, data: Bytes, others: nat, radio: Radio, k: nat)
      returns (result: Result<TxDone, ClientError>, frame: Option<u16>)
    requires counter.Valid()
    modifies counter
    ensures counter.Valid() && result == Reply(data, radio, k)
    ensures counter.issued == old(counter.issued) + if data == [] || radio(k).SessionClosed? then 0 else others + 1
    ensures frame == if data != [] && (radio(k).Carried? || radio(k) == WriteFailed(true))
                     then Some(NthTag(counter.issued - 1)) else None
  {
    if data == [] {
      return Failure(Length), None;
    }
    var passage := radio(k);
    if passage.SessionClosed? {
      return Failure(CLOSED_BY_CLOSE), None;
    }
    for i := 0 to others
      invariant counter.Valid() && counter.issued == old(counter.issued) + i
    {
      var _ := counter.AllocTag();
    }
    var tag := counter.AllocTag();
    match passage {
      case Unencodable => return Failure(EncodeFailed), None;
      case WriteFailed(reached) => return Failure(Io), if reached then Some(tag) else None;
      case Carried(reply) => return reply, Some(tag);
    }
  }

  /** One attempt, its frame's tag recorded after those of earlier attempts. */
  method Attempt(
      counter: TagCounter, data: Bytes, others: nat, radio: Radio, k: nat,
      before: seq<u16>, ghost numbers: seq<nat>, ghost from: nat)
      returns (result: Result<TxDone, ClientError>, sent: seq<u16>, ghost numbers': seq<nat>)
    requires counter.Valid() && from <= counter.issued && TagsOf(before, numbers, from, counter.issued)
    modifies counter
    ensures counter.Valid() && from <= counter.issued && TagsOf(sent, numbers', from, counter.issued)
    ensures result == Reply(data, radio, k)
    ensures before <= sent && |sent| == |before| + if OnWire(data, radio, k) then 1 else 0
  {
    var frame;
    result, frame := TransmitOnce(counter, data, others, radio, k);
    if data != [] && !radio(k).SessionClosed? {
      TagsExtend(before, numbers, from, old(counter.issued), counter.issued - 1);
    }
    match frame {
      case None => return result, before, numbers;
      case Some(tag) => return result, before + [tag], numbers + [counter.issued - 1];
    }
  }

  /** The loop is about to make attempt k. */
  ghost predicate InProgress(
      policy: RetryPolicy, data: Bytes, radio: Radio, grow: u32 -> u32, draws: nat -> u32 -> u32,
      log: seq<TxAttempt>, waits: seq<nat>, delay: u32, k: nat, n: nat)
  {
    && 1 <= k && (k > 1 ==> k <= policy.maxAttempts) && n == FramesSent(data, radio, k - 1)
    && |log| == k - 1 && Records(data, radio, log)
    && (forall j: nat :: 1 <= j < k ==> Retryable(Reply(data, radio, j)))
    && |waits| == k - 1 && WaitsFollow(grow, policy, draws, waits) && delay == Floor(grow, policy, k)
  }

  function ResultOf(reply: Result<TxDone, ClientError>, log: seq<TxAttempt>): Result<TxOutcome, ClientError> {
    match reply
    case Success(td) => Success(TxOutcome(td.airtimeUs, log))
    case Failure(e) => Failure(e)
  }

  /** What the loop ends with after the reply to attempt |log|, n frames sent. */
  ghost predicate Ended(
      policy: RetryPolicy, data: Bytes, radio: Radio, grow: u32 -> u32, draws: nat -> u32 -> u32,
      result: Result<TxOutcome, ClientError>, log: seq<TxAttempt>, waits: seq<nat>, n: nat)
  {
    && CompleteLog(policy.maxAttempts, data, radio, log)
    && result == ResultOf(Reply(data, radio, |log|), log)
    && |waits| == |log| - 1 && WaitsFollow(grow, policy, draws, waits)
    && n == FramesSent(data, radio, |log|) == |log| - if OnWire(data, radio, |log|) then 0 else 1
  }

  /** Attempt k was answered, with a busy channel or a busy device. */
  predicate BusyAt(data: Bytes, radio: Radio, k: nat) {
    && data != [] && radio(k).Carried?
    && (radio(k).reply == Failure(ClientError.ChannelBusy) || radio(k).reply == Failure(Busy))
  }

  /** The loop stops at the first attempt that does not meet a busy channel or device, or at
      the last it is allowed. */
  lemma StopsAtFirstNotBusy(
      policy: RetryPolicy, data: Bytes, radio: Radio, grow: u32 -> u32, draws: nat -> u32 -> u32,
      result: Result<TxOutcome, ClientError>, log: seq<TxAttempt>, waits: seq<nat>, n: nat)
    requires Ended(policy, data, radio, grow, draws, result, log, waits, n)
    ensures forall k: nat :: 1 <= k < |log| ==> BusyAt(data, radio, k)
    ensures 1 <= |log| <= policy.maxAttempts
    ensures |log| < policy.maxAttempts ==> !BusyAt(data, radio, |log|)
    ensures |waits| == |log| - 1
  {
    forall k: nat | 1 <= k < |log| ensures BusyAt(data, radio, k) {
      assert Retryable(Reply(data, radio, k));
    }
  }

  /** How an attempt that ended in this way is returned. */
  predicate EndsAs(data: Bytes, passage: Passage, r: Result<TxDone, ClientError>) {
    if data == [] then r == Failure(Length)
    else
      match passage
      case SessionClosed => r == Failure(TransportClosed("session closed"))
      case Unencodable => r == Failure(EncodeFailed)
      case WriteFailed(_) => r == Failure(Io)
      case Carried(reply) => r == reply
  }

  /** How it is recorded: as it ended, an I/O error as text. */
  predicate RecordedAs(data: Bytes, passage: Passage, r: Result<TxDone, ClientError>) {
    if EndsAs(data, passage, Failure(Io)) then r == Failure(Other("io")) else EndsAs(data, passage, r)
  }

  lemma ReplyRecorded(data: Bytes, radio: Radio, k: nat)
    ensures EndsAs(data, radio(k), Reply(data, radio, k))
    ensures RecordedAs(data, radio(k), Logged(Reply(data, radio, k)))
  {
  }

  /** The log says how each attempt ended; the result is how the last
      one ended, and carries its airtime and the whole log exactly if that was a success; and
      the frames on the wire are one per attempt, but for a last one that did not get there. */
  lemma LogAndResult(
      policy: RetryPolicy, data: Bytes, radio: Radio, grow: u32 -> u32, draws: nat -> u32 -> u32,
      result: Result<TxOutcome, ClientError>, log: seq<TxAttempt>, waits: seq<nat>, n: nat)
    requires Ended(policy, data, radio, grow, draws, result, log, waits, n)
    ensures forall i :: 0 <= i < |log| ==>
      log[i].attempt == i + 1 && RecordedAs(data, radio(i + 1), log[i].result)
    ensures forall td :: EndsAs(data, radio(|log|), Success(td)) ==> result == Success(TxOutcome(td.airtimeUs, log))
    ensures forall e :: EndsAs(data, radio(|log|), Failure(e)) ==> result == Failure(e)
    ensures result.Success? <==> log[|log| - 1].result.Success?
    ensures n == |log| - if data != [] && (radio(|log|).Carried? || radio(|log|) == WriteFailed(true)) then 0 else 1
  {
    forall i | 0 <= i < |log| ensures log[i].attempt == i + 1 && RecordedAs(data, radio(i + 1), log[i].result) {
      assert log[i + 1 - 1] == TxAttempt(i + 1, Logged(Reply(data, radio, i + 1)));
      ReplyRecorded(data, radio, i + 1);
    }
    assert log[|log| - 1] == TxAttempt(|log|, Logged(Reply(data, radio, |log|)));
  }

  /** Attempt k either completes the log or leads, after a wait, to attempt k + 1. */
  lemma OneAttempt(
      policy: RetryPolicy, data: Bytes, radio: Radio, grow: u32 -> u32, draws: nat -> u32 -> u32,
      log: seq<TxAttempt>, waits: seq<nat>, delay: u32, k: nat, n: nat)
    requires InProgress(policy, data, radio, grow, draws, log, waits, delay, k, n) && k <= policy.maxAttempts
    ensures var reply := Reply(data, radio, k);
            var longer := log + [TxAttempt(k, Logged(reply))];
            var n' := n + if OnWire(data, radio, k) then 1 else 0;
            if Retryable(reply) && k < policy.maxAttempts then
              InProgress(policy, data, radio, grow, draws, longer, waits + [delay + Jitter(policy, draws(k))],
                         Min(grow(delay), policy.backoffCap), k + 1, n')
            else Ended(policy, data, radio, grow, draws, ResultOf(reply, longer), longer, waits, n')
  {
    var reply := Reply(data, radio, k);
    var longer := log + [TxAttempt(k, Logged(reply))];
    forall j: nat | 1 <= j <= k ensures longer[j - 1] == TxAttempt(j, Logged(Reply(data, radio, j))) {
    }
    var later := waits + [delay + Jitter(policy, draws(k))];
    forall j: nat | 1 <= j <= k
      ensures later[j - 1] == Floor(grow, policy, j) + Jitter(policy, draws(j))
    {
    }
    if !(Retryable(reply) && k < policy.maxAttempts) {
      OnlyLastMayMiss(policy.maxAttempts, data, radio, longer);
    }
  }

  /** Attempt k and its entry in the log. Either the loop goes on, with the wait that follows,
      or it ends with this reply. */
  method AttemptAndLog(
      counter: TagCounter, policy: RetryPolicy, data: Bytes, radio: Radio, others: nat,
      ghost draws: nat -> u32 -> u32, ghost grow: u32 -> u32,
      log: seq<TxAttempt>, ghost waits: seq<nat>, ghost delay: u32, k: u8,
      before: seq<u16>, ghost numbers: seq<nat>, ghost from: nat)
      returns (reply: Result<TxDone, ClientError>, log': seq<TxAttempt>, sent: seq<u16>, ghost numbers': seq<nat>)
    requires counter.Valid() && from <= counter.issued && TagsOf(before, numbers, from, counter.issued)
    requires InProgress(policy, data, radio, grow, draws, log, waits, delay, k, |before|) && k <= policy.maxAttempts
    modifies counter
    ensures counter.Valid() && from <= counter.issued && TagsOf(sent, numbers', from, counter.issued)
    ensures counter.issued - from <= PERIOD ==> Distinct(sent)
    ensures if Retryable(reply) && k < policy.maxAttempts then
              InProgress(policy, data, radio, grow, draws, log', waits + [delay + Jitter(policy, draws(k))],
                         Min(grow(delay), policy.backoffCap), k + 1, |sent|)
            else Ended(policy, data, radio, grow, draws, ResultOf(reply, log'), log', waits, |sent|)
  {
    OneAttempt(policy, data, radio, grow, draws, log, waits, delay, k, |before|);
    reply, sent, numbers' := Attempt(counter, data, others, radio, k, before, numbers, from);
    log' := log + [TxAttempt(k, Logged(reply))];
    TagsDistinct(sent, numbers', from, counter.issued);
  }

  /** The retry loop. `radio(k)` is how the k-th transmission fares, `others(k)` how many tags
      other callers take before it, `draws(k)` the random draw after it; all are arbitrary.

      On an open dongle with at least one attempt allowed, the log is the complete log of
      the replies, the result is the last reply, one wait precedes every retry and none
      follows the last attempt. The TX frames on the wire are one per attempt that got past
      the closed check, the encoder and the write, which all but the last did; their tags
      all differ if no more than 65535 tags were taken meanwhile. */
  method TxWithRetry(
      counter: TagCounter, open: bool, data: Bytes, policy: RetryPolicy,
      radio: Radio, others: nat -> nat, draws: nat -> u32 -> u32, grow: u32 -> u32)
      returns (result: Result<TxOutcome, ClientError>, log: seq<TxAttempt>, waits: seq<nat>, sent: seq<u16>)
    requires counter.Valid()
    modifies counter
    ensures counter.Valid()
    ensures !open ==> result == Failure(TransportClosed("dongle closed")) && log == [] && waits == [] && sent == []
    ensures open && policy.maxAttempts == 0 ==>
      result == Failure(Other("tx_with_retry exited without result")) && log == [] && waits == [] && sent == []
    ensures open && policy.maxAttempts > 0 ==>
      Ended(policy, data, radio, grow, draws, result, log, waits, |sent|)
    ensures counter.issued - old(counter.issued) <= PERIOD ==> Distinct(sent)
  {
    log, waits, sent := [], [], [];
    if !open {
      return Failure(TransportClosed("dongle closed")), log, waits, sent;
    }
    ghost var numbers: seq<nat> := [];
    ghost var from := counter.issued;
    var delay: u32 := policy.backoffMin;
    var k := 1;
    while k <= policy.maxAttempts
      invariant 1 <= k <= policy.maxAttempts + 1 && counter.Valid() && from <= counter.issued
      invariant InProgress(policy, data, radio, grow, draws, log, waits, delay, k, |sent|)
      invariant TagsOf(sent, numbers, from, counter.issued)
      decreases policy.maxAttempts - k
    {
      var reply;
      reply, log, sent, numbers :=
        AttemptAndLog(counter, policy, data, radio, others(k), draws, grow, log, waits, delay, k, sent, numbers, from);
      if reply.Success? {
        return Success(TxOutcome(reply.value.airtimeUs, log)), log, waits, sent;
      }
      if !reply.error.IsRetryable() || k == policy.maxAttempts {
        return Failure(reply.error), log, waits, sent;
      }
      var jitter := JitterMs(policy, draws(k));
      waits := waits + [delay + jitter];
      delay := Min(grow(delay), policy.backoffCap);
      k := k + 1;
    }
    return Failure(Other("tx_with_retry exited without result")), log, waits, sent;
  }
}
