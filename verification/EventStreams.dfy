/** The reader's outputs in the concurrent session: nothing is lost, duplicated or
    reordered between the wire and the consumers of the two queues, and an undisturbed
    pass through `dispatch` is the sequential one.
 */
module EventStreams {
  import opened Protocol
  import opened Dispatch
  import opened Replies
  import opened Ledger
  import opened Multiplexer

  function Works(wire: seq<Inbound>): seq<FrameWork> {
    seq(|wire|, i requires 0 <= i < |wire| => wire[i].work)
  }

  /** Packets handed out, then packets queued, are the packets of the frames dispatched so
      far; likewise for the asynchronous errors. */
  ghost predicate StreamsKept(codec: Codec, s: State) {
    && s.io.cursor <= |s.io.wire|
    && var seen := Works(s.io.wire[..s.io.cursor]);
       var q := s.io.queues;
       q.rxTaken + q.rx == RxOf(codec, seen) && q.errsTaken + q.errs == ErrsOf(codec, seen)
  }

  lemma TakeKeepsStreams(codec: Codec, s: State)
    requires StreamsKept(codec, s) && Enabled(s, Take)
    ensures StreamsKept(codec, Do(codec, s, Take))
  {
    var i := s.io.cursor;
    var m := s.io.wire[i];
    var q := s.io.queues;
    var seen := Works(s.io.wire[..i]);
    assert Works(s.io.wire[..i + 1]) == seen + [m.work];
    QueuesConcat(codec, seen, [m.work]);
    assert [m.work][1..] == [];
    if !m.Tagged() {
      assert q.rxTaken + Enqueue(codec, q, m.work).rx == (q.rxTaken + q.rx) + RxOf(codec, [m.work]);
      assert q.errsTaken + Enqueue(codec, q, m.work).errs == (q.errsTaken + q.errs) + ErrsOf(codec, [m.work]);
    }
  }

  lemma PopKeepsStreams(codec: Codec, s: State, a: Action)
    requires StreamsKept(codec, s) && Enabled(s, a) && (a.TakeRx? || a.TakeErr?)
    ensures StreamsKept(codec, Do(codec, s, a))
  {
    var q := s.io.queues;
    if a.TakeRx? {
      assert q.rxTaken + q.rx == (q.rxTaken + [q.rx[0]]) + q.rx[1..];
    } else {
      assert q.errsTaken + q.errs == (q.errsTaken + [q.errs[0]]) + q.errs[1..];
    }
  }

  lemma StreamsStep(codec: Codec, s: State, a: Action)
    requires StreamsKept(codec, s) && Enabled(s, a)
    ensures StreamsKept(codec, Do(codec, s, a))
  {
    match a
    case Take => TakeKeepsStreams(codec, s);
    case TakeRx => PopKeepsStreams(codec, s, a);
    case TakeErr => PopKeepsStreams(codec, s, a);
    case DeviceSend(m) => assert (s.io.wire + [m])[..s.io.cursor] == s.io.wire[..s.io.cursor];
    case _ =>
  }

  /** Stream conservation at every point of every run, however frames are batched and
      however consumers, callers, drains and the closer interleave. */
  lemma {:induction false} StreamsConserved(codec: Codec, s: State, acts: seq<Action>)
    requires StreamsKept(codec, s) && ValidRun(codec, s, acts)
    ensures StreamsKept(codec, After(codec, s, acts))
    decreases |acts|
  {
    if acts != [] {
      StreamsStep(codec, s, acts[0]);
      StreamsConserved(codec, Do(codec, s, acts[0]), acts[1..]);
    }
  }

  /** In particular in every run of a session from its start. */
  lemma StreamsOfSession(codec: Codec, acts: seq<Action>)
    requires ValidRun(codec, INITIAL, acts)
    ensures StreamsKept(codec, After(codec, INITIAL, acts))
  {
    StreamsConserved(codec, INITIAL, acts);
  }

  /** At every point of every session the packets handed out, then those still queued, are
      one for each dispatched tag-0 RX frame that decodes, in order, with the value it decodes
      to; and the errors one for each dispatched frame that calls for one. */
  lemma EventsOfSession(codec: Codec, acts: seq<Action>)
    requires ValidRun(codec, INITIAL, acts)
    ensures var s := After(codec, INITIAL, acts);
            && s.io.cursor <= |s.io.wire|
            && var seen := Works(s.io.wire[..s.io.cursor]);
               && PacketsAre(codec, seen, s.io.queues.rxTaken + s.io.queues.rx)
               && FaultsAre(codec, seen, s.io.queues.errsTaken + s.io.queues.errs)
  {
    StreamsOfSession(codec, acts);
    var s := After(codec, INITIAL, acts);
    StreamsExact(codec, Works(s.io.wire[..s.io.cursor]));
  }

  // ---------------------------------------------------------------- agreement with the sequential reader

  function Sequential(s: State): ReaderState {
    ReaderState(s.ledger.pending, [], s.io.queues.rx, s.io.queues.errs)
  }

  /** The reader's pass through `dispatch` when nothing comes between its two critical
      sections: it takes the frame and, if that left it holding an entry, at once puts the
      entry back or resolves it. */
  function Undisturbed(codec: Codec, s: State): State
    requires Enabled(s, Take)
  {
    var mid := Do(codec, s, Take);
    if HoldsAck(mid) then Do(codec, mid, Reinsert)
    else if HoldsFinal(mid) then Do(codec, mid, Resolve)
    else mid
  }

  /** The frame about to be taken finds an entry in the map. */
  predicate FindsEntry(s: State) {
    && Enabled(s, Take) && s.io.wire[s.io.cursor].Tagged()
    && s.io.wire[s.io.cursor].work.frame.tag in s.ledger.pending
  }

  lemma UndisturbedAck(codec: Codec, s: State)
    requires Inv(s) && FindsEntry(s)
    requires var f := s.io.wire[s.io.cursor].work.frame; IsTxAck(s.ledger.pending[f.tag].cmd, f)
    ensures var end := Undisturbed(codec, s);
            && end.mode.Idle? && end.io.queues == s.io.queues
            && end.ledger.pending == s.ledger.pending && end.ledger.calls == s.ledger.calls
  {
    var f := s.io.wire[s.io.cursor].work.frame;
    var mid := Do(codec, s, Take);
    assert mid.ledger.reader[f.tag] == s.ledger.pending[f.tag];
    assert HoldsAck(mid);
    assert mid.ledger.pending - {f.tag} == mid.ledger.pending;
  }

  lemma UndisturbedFinal(codec: Codec, s: State)
    requires Inv(s) && FindsEntry(s)
    requires var f := s.io.wire[s.io.cursor].work.frame; !IsTxAck(s.ledger.pending[f.tag].cmd, f)
    ensures var m := s.io.wire[s.io.cursor];
            var f, e := m.work.frame, s.ledger.pending[m.work.frame.tag];
            var end := Undisturbed(codec, s);
            && end.mode.Idle? && end.io.queues == s.io.queues
            && end.ledger.pending == s.ledger.pending - {f.tag}
            && end.ledger.calls == Settle(s.ledger.calls, e.waker, Sent(Answer(codec, e.cmd, f), FromFrame(m.about, f)))
  {
    var f := s.io.wire[s.io.cursor].work.frame;
    var mid := Do(codec, s, Take);
    assert mid.ledger.reader[f.tag] == s.ledger.pending[f.tag];
    assert HoldsFinal(mid) && !HoldsAck(mid);
  }

  /** Undisturbed, the concurrent reader does to each frame what the sequential dispatch
      does: same map, same queues, and the same response to the same waker, or none. */
  lemma UndisturbedDispatch(codec: Codec, s: State)
    requires Inv(s) && Enabled(s, Take)
    ensures var m := s.io.wire[s.io.cursor];
            var end := Undisturbed(codec, s);
            var seqEnd := DispatchWork(codec, Sequential(s), m.work);
            && end.mode.Idle?
            && Sequential(end) == seqEnd.(replies := [])
            && |seqEnd.replies| <= 1
            && end.ledger.calls == if seqEnd.replies == [] then s.ledger.calls
                 else Settle(s.ledger.calls, seqEnd.replies[0].waker,
                             Sent(seqEnd.replies[0].resp, FromFrame(m.about, m.work.frame)))
  {
    var m := s.io.wire[s.io.cursor];
    if FindsEntry(s) {
      if IsTxAck(s.ledger.pending[m.work.frame.tag].cmd, m.work.frame) {
        UndisturbedAck(codec, s);
      } else {
        UndisturbedFinal(codec, s);
      }
    }
  }
}
