/** The reader's side of a session with no other task interleaved: what folding
    `dispatch` over a list of decoded frames does to the pending map, the one-shot
    channels and the two event queues.

    `PerTag` is an independent description of the same thing, one tag at a time; the
    theorems below connect the two.
 */
module Dispatch {
  import opened Protocol

  /** An outstanding command: its type and the identity of its one-shot sender. */
  datatype Entry = Entry(cmd: CmdType, waker: nat)

  /** One value sent through a one-shot channel. */
  datatype Reply = Reply(tag: u16, waker: nat, resp: Response)

  datatype ReaderState = ReaderState(
    pending: map<u16, Entry>,
    replies: seq<Reply>,
    rx: seq<RxPayload>,
    errs: seq<ClientError>)

  /** One frame: tag 0 feeds the queues, any other tag takes its entry out of the map and
      then puts it back (TX acknowledgement) or resolves it. */
  function DispatchFrame(codec: Codec, st: ReaderState, f: Frame): ReaderState {
    if f.tag == 0 then
      st.(rx := st.rx + AsyncRx(codec, f), errs := st.errs + AsyncErrs(codec, f))
    else if f.tag !in st.pending then
      st
    else
      var e := st.pending[f.tag];
      var taken := st.pending - {f.tag};
      if IsTxAck(e.cmd, f) then
        st.(pending := taken[f.tag := e])
      else
        st.(pending := taken, replies := st.replies + [Reply(f.tag, e.waker, Answer(codec, e.cmd, f))])
  }

  function DispatchWork(codec: Codec, st: ReaderState, w: FrameWork): ReaderState {
    match w
    case Decoded(f) => DispatchFrame(codec, st, f)
    case Corrupt => st.(errs := st.errs + [CORRUPT_ERROR])
  }

  function Run(codec: Codec, st: ReaderState, works: seq<FrameWork>): ReaderState
    decreases |works|
  {
    if works == [] then st else Run(codec, DispatchWork(codec, st, works[0]), works[1..])
  }

  lemma {:induction false} RunAppend(codec: Codec, st: ReaderState, a: seq<FrameWork>, b: seq<FrameWork>)
    ensures Run(codec, st, a + b) == Run(codec, Run(codec, st, a), b)
    decreases |a|
  {
    if a == [] {
      assert a + b == b;
    } else {
      assert (a + b)[0] == a[0] && (a + b)[1..] == a[1..] + b;
      RunAppend(codec, DispatchWork(codec, st, a[0]), a[1..], b);
    }
  }

  // ---------------------------------------------------------------- batching

  function Flatten(batches: seq<seq<FrameWork>>): seq<FrameWork> {
    if batches == [] then [] else batches[0] + Flatten(batches[1..])
  }

  function RunBatches(codec: Codec, st: ReaderState, batches: seq<seq<FrameWork>>): ReaderState
    decreases |batches|
  {
    if batches == [] then st else RunBatches(codec, Run(codec, st, batches[0]), batches[1..])
  }

  /** How the transport splits the stream into reads does not matter. */
  lemma {:induction false} BatchingIrrelevant(codec: Codec, st: ReaderState, batches: seq<seq<FrameWork>>)
    ensures RunBatches(codec, st, batches) == Run(codec, st, Flatten(batches))
    decreases |batches|
  {
    if batches != [] {
      BatchingIrrelevant(codec, Run(codec, st, batches[0]), batches[1..]);
      RunAppend(codec, st, batches[0], Flatten(batches[1..]));
    }
  }

  // ---------------------------------------------------------------- projections

  /** The frames carrying tag t, in order. */
  function FramesFor(works: seq<FrameWork>, t: u16): seq<Frame> {
    if works == [] then []
    else (if works[0].Decoded? && works[0].frame.tag == t then [works[0].frame] else [])
         + FramesFor(works[1..], t)
  }

  /** Tag-0 frames and decode failures, in order. */
  function AsyncPart(works: seq<FrameWork>): seq<FrameWork> {
    if works == [] then []
    else (if works[0].Corrupt? || works[0].frame.tag == 0 then [works[0]] else []) + AsyncPart(works[1..])
  }

  function RepliesFor(replies: seq<Reply>, t: u16): seq<Reply> {
    if replies == [] then []
    else (if replies[0].tag == t then [replies[0]] else []) + RepliesFor(replies[1..], t)
  }

  lemma {:induction false} RepliesForConcat(a: seq<Reply>, b: seq<Reply>, t: u16)
    ensures RepliesFor(a + b, t) == RepliesFor(a, t) + RepliesFor(b, t)
    decreases |a|
  {
    if a == [] {
      assert a + b == b;
    } else {
      var first := if a[0].tag == t then [a[0]] else [];
      calc {
        RepliesFor(a + b, t);
        { assert (a + b)[0] == a[0] && (a + b)[1..] == a[1..] + b; }
        first + RepliesFor(a[1..] + b, t);
        { RepliesForConcat(a[1..], b, t); }
        first + (RepliesFor(a[1..], t) + RepliesFor(b, t));
        RepliesFor(a, t) + RepliesFor(b, t);
      }
    }
  }

  /** Packets and errors of a list of tag-0 frames and failures. */
  function RxOf(codec: Codec, works: seq<FrameWork>): seq<RxPayload> {
    if works == [] then []
    else (if works[0].Decoded? && works[0].frame.tag == 0 then AsyncRx(codec, works[0].frame) else [])
         + RxOf(codec, works[1..])
  }

  function ErrsOf(codec: Codec, works: seq<FrameWork>): seq<ClientError> {
    if works == [] then []
    else (match works[0]
          case Corrupt => [CORRUPT_ERROR]
          case Decoded(f) => if f.tag == 0 then AsyncErrs(codec, f) else [])
         + ErrsOf(codec, works[1..])
  }

  lemma {:induction false} QueuesConcat(codec: Codec, a: seq<FrameWork>, b: seq<FrameWork>)
    ensures RxOf(codec, a + b) == RxOf(codec, a) + RxOf(codec, b)
    ensures ErrsOf(codec, a + b) == ErrsOf(codec, a) + ErrsOf(codec, b)
    decreases |a|
  {
    if a == [] {
      assert a + b == b;
    } else {
      assert (a + b)[0] == a[0] && (a + b)[1..] == a[1..] + b;
      QueuesConcat(codec, a[1..], b);
    }
  }

  // ---------------------------------------------------------------- one tag at a time

  /** Index of the first frame that resolves a `cmd`, or |fs| if none does. */
  function FirstFinal(cmd: CmdType, fs: seq<Frame>): (k: nat)
    ensures k <= |fs|
    ensures forall i :: 0 <= i < k ==> IsTxAck(cmd, fs[i])
    ensures k < |fs| ==> !IsTxAck(cmd, fs[k])
  {
    if fs == [] || !IsTxAck(cmd, fs[0]) then 0 else 1 + FirstFinal(cmd, fs[1..])
  }

  datatype TagState = TagState(entry: Option<Entry>, replies: seq<Reply>)

  /** What happens at one tag, said without a map: the first final frame, if any, resolves
      the entry; every other frame of that tag is without effect. */
  function PerTag(codec: Codec, t: u16, entry: Option<Entry>, fs: seq<Frame>): TagState {
    match entry
    case None => TagState(None, [])
    case Some(e) =>
      var k := FirstFinal(e.cmd, fs);
      if k == |fs| then TagState(entry, [])
      else TagState(None, [Reply(t, e.waker, Answer(codec, e.cmd, fs[k]))])
  }

  function At(st: ReaderState, t: u16): Option<Entry> {
    if t in st.pending then Some(st.pending[t]) else None
  }

  lemma FrameAtTag(codec: Codec, st: ReaderState, f: Frame, t: u16)
    requires t != 0
    ensures var st' := DispatchFrame(codec, st, f);
            var here := PerTag(codec, t, At(st, t), if f.tag == t then [f] else []);
            At(st', t) == here.entry && RepliesFor(st'.replies, t) == RepliesFor(st.replies, t) + here.replies
  {
    if f.tag != 0 && f.tag in st.pending {
      var e := st.pending[f.tag];
      RepliesForConcat(st.replies, [Reply(f.tag, e.waker, Answer(codec, e.cmd, f))], t);
    }
  }

  lemma PerTagCons(codec: Codec, t: u16, entry: Option<Entry>, f: Frame, fs: seq<Frame>)
    ensures var one := PerTag(codec, t, entry, [f]);
            var rest := PerTag(codec, t, one.entry, fs);
            PerTag(codec, t, entry, [f] + fs) == TagState(rest.entry, one.replies + rest.replies)
  {
    assert ([f] + fs)[1..] == fs;
    assert [f][1..] == [];
  }

  /** Per-tag projection. The entry left at t and the responses sent for t are those of
      the one-tag description, so they depend on the frames tagged t and on nothing else. */
  lemma {:induction false} PerTagProjection(codec: Codec, st: ReaderState, works: seq<FrameWork>, t: u16)
    requires t != 0
    ensures var st' := Run(codec, st, works);
            var here := PerTag(codec, t, At(st, t), FramesFor(works, t));
            At(st', t) == here.entry && RepliesFor(st'.replies, t) == RepliesFor(st.replies, t) + here.replies
    decreases |works|
  {
    if works != [] {
      var mid := DispatchWork(codec, st, works[0]);
      PerTagProjection(codec, mid, works[1..], t);
      var rest := FramesFor(works[1..], t);
      if works[0].Decoded? {
        FrameAtTag(codec, st, works[0].frame, t);
      }
      if works[0].Decoded? && works[0].frame.tag == t {
        assert FramesFor(works, t) == [works[0].frame] + rest;
        PerTagCons(codec, t, At(st, t), works[0].frame, rest);
      } else {
        assert FramesFor(works, t) == rest;
        assert At(mid, t) == At(st, t) && RepliesFor(mid.replies, t) == RepliesFor(st.replies, t);
      }
    }
  }

  /** The queues grow by exactly the packets and errors of the tag-0 frames and failures. */
  lemma {:induction false} QueueProjection(codec: Codec, st: ReaderState, works: seq<FrameWork>)
    ensures var st' := Run(codec, st, works);
            st'.rx == st.rx + RxOf(codec, works) && st'.errs == st.errs + ErrsOf(codec, works)
    decreases |works|
  {
    if works != [] {
      QueueProjection(codec, DispatchWork(codec, st, works[0]), works[1..]);
    }
  }

  lemma {:induction false} QueuesOfAsyncPart(codec: Codec, works: seq<FrameWork>)
    ensures RxOf(codec, works) == RxOf(codec, AsyncPart(works))
    ensures ErrsOf(codec, works) == ErrsOf(codec, AsyncPart(works))
    decreases |works|
  {
    if works != [] {
      QueuesOfAsyncPart(codec, works[1..]);
      var rest := AsyncPart(works[1..]);
      if AsyncPart(works) != rest {
        assert AsyncPart(works)[0] == works[0] && AsyncPart(works)[1..] == rest;
      }
    }
  }

  /** Two frame lists that agree tag by tag, and on the asynchronous part. */
  ghost predicate SamePerTag(a: seq<FrameWork>, b: seq<FrameWork>) {
    && AsyncPart(a) == AsyncPart(b)
    && forall t: u16 :: t != 0 ==> FramesFor(a, t) == FramesFor(b, t)
  }

  /** Reordering frames of different tags changes no outcome: the same commands stay
      pending, each command gets the same response, and the queues are identical. */
  lemma ReorderingIrrelevant(codec: Codec, st: ReaderState, a: seq<FrameWork>, b: seq<FrameWork>)
    requires SamePerTag(a, b)
    requires 0 !in st.pending
    ensures var ra, rb := Run(codec, st, a), Run(codec, st, b);
            && ra.pending == rb.pending && ra.rx == rb.rx && ra.errs == rb.errs
            && forall t: u16 :: t != 0 ==> RepliesFor(ra.replies, t) == RepliesFor(rb.replies, t)
  {
    var ra, rb := Run(codec, st, a), Run(codec, st, b);
    forall t: u16 | t != 0
      ensures At(ra, t) == At(rb, t) && RepliesFor(ra.replies, t) == RepliesFor(rb.replies, t)
    {
      PerTagProjection(codec, st, a, t);
      PerTagProjection(codec, st, b, t);
    }
    NoNewKeys(codec, st, a);
    NoNewKeys(codec, st, b);
    forall t: u16 ensures At(ra, t) == At(rb, t) {
    }
    assert ra.pending == rb.pending by {
      forall t: u16 ensures t in ra.pending <==> t in rb.pending {
        assert At(ra, t) == At(rb, t);
      }
      forall t | t in ra.pending ensures ra.pending[t] == rb.pending[t] {
        assert At(ra, t) == At(rb, t);
      }
    }
    QueueProjection(codec, st, a);
    QueueProjection(codec, st, b);
    QueuesOfAsyncPart(codec, a);
    QueuesOfAsyncPart(codec, b);
  }

  /** Dispatching never adds an entry and never alters one. */
  lemma {:induction false} NoNewKeys(codec: Codec, st: ReaderState, works: seq<FrameWork>)
    ensures var st' := Run(codec, st, works);
            forall t :: t in st'.pending ==> t in st.pending && st'.pending[t] == st.pending[t]
    decreases |works|
  {
    if works != [] {
      NoNewKeys(codec, DispatchWork(codec, st, works[0]), works[1..]);
    }
  }

  // ---------------------------------------------------------------- two-phase TX

  /** w is an `OK` for a tag on which a transmission is outstanding. */
  predicate AcksTx(pending: map<u16, Entry>, w: FrameWork) {
    && w.Decoded? && w.frame.tag != 0 && w.frame.ty == OK
    && w.frame.tag in pending && pending[w.frame.tag].cmd == Tx
  }

  function EraseTxAcks(pending: map<u16, Entry>, works: seq<FrameWork>): seq<FrameWork> {
    if works == [] then []
    else (if AcksTx(pending, works[0]) then [] else [works[0]]) + EraseTxAcks(pending, works[1..])
  }

  /** Stutter invariance: deleting every `OK` for the transmissions outstanding at the
      start leaves the whole final state unchanged, the order of the responses included. */
  lemma TxAcksAreStutter(codec: Codec, st: ReaderState, works: seq<FrameWork>)
    ensures Run(codec, st, EraseTxAcks(st.pending, works)) == Run(codec, st, works)
  {
    TxAcksAreStutterFrom(codec, st.pending, st, works);
  }

  lemma {:induction false} TxAcksAreStutterFrom(
      codec: Codec, initial: map<u16, Entry>, st: ReaderState, works: seq<FrameWork>)
    requires forall t :: t in st.pending ==> t in initial && st.pending[t] == initial[t]
    ensures Run(codec, st, EraseTxAcks(initial, works)) == Run(codec, st, works)
    decreases |works|
  {
    if works != [] {
      var mid := DispatchWork(codec, st, works[0]);
      TxAcksAreStutterFrom(codec, initial, mid, works[1..]);
      if AcksTx(initial, works[0]) {
        var t := works[0].frame.tag;
        assert t in st.pending ==> (st.pending - {t})[t := st.pending[t]] == st.pending;
        assert mid == st;
        assert EraseTxAcks(initial, works) == EraseTxAcks(initial, works[1..]);
      } else {
        var kept := EraseTxAcks(initial, works);
        assert kept[0] == works[0] && kept[1..] == EraseTxAcks(initial, works[1..]);
      }
    }
  }

  /** A transmission's waker gets TX_DONE or an error, so `transmit` never meets the
      "unexpected response" arm. */
  lemma TxAnswers(codec: Codec, f: Frame)
    requires !IsTxAck(Tx, f)
    ensures var r := Answer(codec, Tx, f); r.TxDoneMsg? || r.ErrMsg?
    ensures TransmitResult(Success(Answer(codec, Tx, f))) != Failure(Other("unexpected TX response"))
  {
  }

  /** `transmit` returns `Ok(td)` exactly when the first frame of its tag that is not an
      `OK` is a TX_DONE that decodes to td with result Transmitted. */
  lemma TransmitOkIff(codec: Codec, st: ReaderState, works: seq<FrameWork>, t: u16, td: TxDone)
    requires t != 0 && t in st.pending && st.pending[t].cmd == Tx
    requires RepliesFor(st.replies, t) == []
    ensures var fs := FramesFor(works, t);
            var k := FirstFinal(Tx, fs);
            var got := RepliesFor(Run(codec, st, works).replies, t);
            && (|got| == 1 <==> k < |fs|) && |got| <= 1
            && (|got| == 1 && TransmitResult(Success(got[0].resp)) == Success(td)
                <==> k < |fs| && fs[k].ty == TX_DONE
                     && codec.decodeTxDone(fs[k].payload) == Some(td) && td.result == Transmitted)
  {
    PerTagProjection(codec, st, works, t);
  }
}
