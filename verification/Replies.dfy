/** What a response says about the frame it answers, told from the side of the response. */
module Replies {
  import opened Protocol
  import opened Dispatch

  /** The wire code an error stands for, if it stands for one. */
  function CodeOf(e: ClientError): Option<ErrorCode> {
    match e
    case NotConfigured => Some(ENotConfigured)
    case Busy => Some(EBusy)
    case Param => Some(EParam)
    case Length => Some(ELength)
    case BadModulation => Some(EModulation)
    case UnknownCmd => Some(EUnknownCmd)
    case Radio => Some(ERadio)
    case FrameError => Some(EFrame)
    case Internal => Some(EInternal)
    case UnknownCode(raw) => Some(EUnknown(raw))
    case _ => None
  }

  /** The frame is none a command of this type can be answered with, and this is what is said. */
  predicate Malformed(codec: Codec, cmd: CmdType, f: Frame, why: string) {
    || (f.ty.OK? && codec.parseOk(cmd, f.payload).None? && why == "OK payload did not parse for command context")
    || (f.ty.ERR? && codec.decodeErr(f.payload).None? && why == "bad ERR payload")
    || (f.ty.TX_DONE? && codec.decodeTxDone(f.payload).None? && why == "bad TX_DONE payload")
    || ((f.ty.RX? || f.ty.Unknown?) && why == "unexpected tagged frame type")
  }

  /** The response conveys what the frame says. */
  predicate Conveys(codec: Codec, cmd: CmdType, f: Frame, resp: Response) {
    match resp
    case EmptyOk => f.ty.OK? && codec.parseOk(cmd, f.payload) == Some(NoPayload)
    case InfoOk(info) => f.ty.OK? && codec.parseOk(cmd, f.payload) == Some(InfoPayload(info))
    case SetConfigOk(result) => f.ty.OK? && codec.parseOk(cmd, f.payload) == Some(SetConfigPayload(result))
    case TxDoneMsg(td) => f.ty.TX_DONE? && codec.decodeTxDone(f.payload) == Some(td)
    case ErrMsg(BadFrame(why)) => Malformed(codec, cmd, f, why)
    case ErrMsg(e) => f.ty.ERR? && CodeOf(e).Some? && codec.decodeErr(f.payload) == CodeOf(e)
  }

  lemma CodeIff(code: ErrorCode, e: ClientError)
    ensures FromWire(code) == e <==> CodeOf(e) == Some(code)
  {
  }

  lemma ErrAnswerIff(codec: Codec, cmd: CmdType, f: Frame, resp: Response)
    requires f.ty.ERR?
    ensures Answer(codec, cmd, f) == resp <==> Conveys(codec, cmd, f, resp)
  {
    if resp.ErrMsg? && codec.decodeErr(f.payload).Some? {
      CodeIff(codec.decodeErr(f.payload).value, resp.error);
    }
  }

  /** A waker is sent the one response that conveys its frame. */
  lemma AnswerIff(codec: Codec, cmd: CmdType, f: Frame, resp: Response)
    ensures Answer(codec, cmd, f) == resp <==> Conveys(codec, cmd, f, resp)
  {
    if f.ty.ERR? {
      ErrAnswerIff(codec, cmd, f, resp);
    }
  }

  // ---------------------------------------------------------------- commands of any type

  /** A command, whatever its type, is sent nothing until a frame of its tag is final for it,
      and then, once, exactly the response that conveys that frame. */
  lemma CommandAnswered(codec: Codec, st: ReaderState, works: seq<FrameWork>, t: u16)
    requires t != 0 && t in st.pending && RepliesFor(st.replies, t) == []
    ensures var cmd, fs := st.pending[t].cmd, FramesFor(works, t);
            var k := FirstFinal(cmd, fs);
            var got := RepliesFor(Run(codec, st, works).replies, t);
            && |got| == (if k < |fs| then 1 else 0)
            && (k < |fs| ==>
                  && got[0].waker == st.pending[t].waker
                  && forall resp :: got[0].resp == resp <==> Conveys(codec, cmd, fs[k], resp))
  {
    PerTagProjection(codec, st, works, t);
    var cmd, fs := st.pending[t].cmd, FramesFor(works, t);
    var k := FirstFinal(cmd, fs);
    if k < |fs| {
      forall resp ensures Answer(codec, cmd, fs[k]) == resp <==> Conveys(codec, cmd, fs[k], resp) {
        AnswerIff(codec, cmd, fs[k], resp);
      }
    }
  }

  // ---------------------------------------------------------------- the typed helpers

  /** `ping`, `rx_start` and `rx_stop` succeed exactly for an OK without payload, `get_info`
      and `set_config` exactly for an OK with theirs; they fail with an error of the wire, or
      for a bad frame, exactly when the frame says so; and otherwise the response was one for
      another type of command. */
  lemma HelpersConvey(codec: Codec, cmd: CmdType, f: Frame)
    ensures var r := Success(Answer(codec, cmd, f));
            && (AckResult(r) == Success(()) <==> Conveys(codec, cmd, f, EmptyOk))
            && (forall i :: InfoResult(r) == Success(i) <==> Conveys(codec, cmd, f, InfoOk(i)))
            && (forall c :: ConfigResult(r) == Success(c) <==> Conveys(codec, cmd, f, SetConfigOk(c)))
            && forall e: ClientError :: !e.Other? ==>
                 && (AckResult(r) == Failure(e) <==> Conveys(codec, cmd, f, ErrMsg(e)))
                 && (InfoResult(r) == Failure(e) <==> Conveys(codec, cmd, f, ErrMsg(e)))
                 && (ConfigResult(r) == Failure(e) <==> Conveys(codec, cmd, f, ErrMsg(e)))
  {
    var resp := Answer(codec, cmd, f);
    forall other ensures resp == other <==> Conveys(codec, cmd, f, other) {
      AnswerIff(codec, cmd, f, other);
    }
    forall e: ClientError | !e.Other? ensures AckResult(Success(resp)) == Failure(e) <==> resp == ErrMsg(e) {
    }
    forall e: ClientError | !e.Other? ensures InfoResult(Success(resp)) == Failure(e) <==> resp == ErrMsg(e) {
    }
    forall e: ClientError | !e.Other? ensures ConfigResult(Success(resp)) == Failure(e) <==> resp == ErrMsg(e) {
    }
  }

  /** A transmission's result conveys its final frame: TX_DONE by its result, anything else as
      for other commands. */
  predicate TransmitConveys(codec: Codec, f: Frame, r: Result<TxDone, ClientError>) {
    var done := if f.ty.TX_DONE? then codec.decodeTxDone(f.payload) else None;
    match r
    case Success(td) => done == Some(td) && td.result.Transmitted?
    case Failure(ChannelBusy) => done.Some? && done.value.result == TxResult.ChannelBusy
    case Failure(Cancelled) => done.Some? && done.value.result == TxResult.Cancelled
    case Failure(e) => done.None? && Conveys(codec, Tx, f, ErrMsg(e))
  }

  lemma TransmitResultIff(codec: Codec, f: Frame, r: Result<TxDone, ClientError>)
    requires !IsTxAck(Tx, f)
    ensures TransmitResult(Success(Answer(codec, Tx, f))) == r <==> TransmitConveys(codec, f, r)
  {
    var resp := Answer(codec, Tx, f);
    AnswerIff(codec, Tx, f, resp);
    if r.Failure? {
      AnswerIff(codec, Tx, f, ErrMsg(r.error));
    }
  }

  /** What `transmit` returns, success or failure, is exactly what the first frame of its tag
      other than an OK conveys. */
  lemma TransmitReturns(codec: Codec, st: ReaderState, works: seq<FrameWork>, t: u16)
    requires t != 0 && t in st.pending && st.pending[t].cmd == Tx && RepliesFor(st.replies, t) == []
    ensures var fs := FramesFor(works, t);
            var k := FirstFinal(Tx, fs);
            var got := RepliesFor(Run(codec, st, works).replies, t);
            k < |fs| ==>
              && |got| == 1
              && forall r :: TransmitResult(Success(got[0].resp)) == r <==> TransmitConveys(codec, fs[k], r)
  {
    PerTagProjection(codec, st, works, t);
    var fs := FramesFor(works, t);
    var k := FirstFinal(Tx, fs);
    if k < |fs| {
      forall r ensures TransmitResult(Success(Answer(codec, Tx, fs[k]))) == r <==> TransmitConveys(codec, fs[k], r) {
        TransmitResultIff(codec, fs[k], r);
      }
    }
  }

  // ---------------------------------------------------------------- the asynchronous events

  /** The frame carries a packet for the RX queue. */
  predicate IsPacket(codec: Codec, w: FrameWork) {
    w.Decoded? && w.frame.tag == 0 && w.frame.ty.RX? && codec.decodeRx(w.frame.payload).Some?
  }

  /** The work calls for an entry in the error queue. */
  predicate IsFault(codec: Codec, w: FrameWork) {
    w.Corrupt? || (w.frame.tag == 0 && (w.frame.ty.ERR? || (w.frame.ty.RX? && !IsPacket(codec, w))))
  }

  /** e is the entry it calls for. */
  predicate FaultIs(codec: Codec, w: FrameWork, e: ClientError) {
    match e
    case BadFrame(why) =>
      if w.Corrupt? then why == "inbound frame failed CRC or COBS"
      else if w.frame.ty.RX? then why == "bad RX payload"
      else codec.decodeErr(w.frame.payload).None? && why == "bad async ERR payload"
    case _ =>
      w.Decoded? && w.frame.ty.ERR? && CodeOf(e).Some? && codec.decodeErr(w.frame.payload) == CodeOf(e)
  }

  datatype Stream = Packets | Faults

  /** The work puts something into this stream. */
  predicate Feeds(codec: Codec, stream: Stream, w: FrameWork) {
    if stream.Packets? then IsPacket(codec, w) else IsFault(codec, w)
  }

  /** How many of the first n works feed the stream. */
  function Count(codec: Codec, stream: Stream, works: seq<FrameWork>, n: nat): nat
    requires n <= |works|
  {
    if n == 0 then 0 else Count(codec, stream, works, n - 1) + if Feeds(codec, stream, works[n - 1]) then 1 else 0
  }

  lemma {:induction false} CountGrows(codec: Codec, stream: Stream, works: seq<FrameWork>, k: nat, n: nat)
    requires k < n <= |works| && Feeds(codec, stream, works[k])
    ensures Count(codec, stream, works, k) < Count(codec, stream, works, n)
    decreases n
  {
    if k < n - 1 {
      CountGrows(codec, stream, works, k, n - 1);
    }
  }

  /** One packet for each frame that carries one, in order, with its value: the packet of work
      k comes after as many as there are such works before k. */
  ghost predicate PacketsAre(codec: Codec, works: seq<FrameWork>, out: seq<RxPayload>) {
    && |out| == Count(codec, Packets, works, |works|)
    && forall k :: 0 <= k < |works| && IsPacket(codec, works[k]) ==>
         var i := Count(codec, Packets, works, k);
         i < |out| && codec.decodeRx(works[k].frame.payload) == Some(out[i])
  }

  /** One error for each work that calls for one, in order, with its value. */
  ghost predicate FaultsAre(codec: Codec, works: seq<FrameWork>, out: seq<ClientError>) {
    && |out| == Count(codec, Faults, works, |works|)
    && forall k :: 0 <= k < |works| && IsFault(codec, works[k]) ==>
         var i := Count(codec, Faults, works, k);
         i < |out| && FaultIs(codec, works[k], out[i])
  }

  lemma PacketOfOne(codec: Codec, w: FrameWork)
    ensures RxOf(codec, [w]) == if IsPacket(codec, w) then [codec.decodeRx(w.frame.payload).value] else []
  {
    assert [w][1..] == [];
  }

  lemma FaultOfOne(codec: Codec, w: FrameWork)
    ensures var es := ErrsOf(codec, [w]);
            |es| == (if IsFault(codec, w) then 1 else 0) && (es != [] ==> FaultIs(codec, w, es[0]))
  {
    assert [w][1..] == [];
  }

  lemma {:induction false} PacketsUpTo(codec: Codec, works: seq<FrameWork>, n: nat)
    requires n <= |works|
    ensures var out := RxOf(codec, works[..n]);
            && |out| == Count(codec, Packets, works, n)
            && forall k :: 0 <= k < n && IsPacket(codec, works[k]) ==>
                 var i := Count(codec, Packets, works, k);
                 i < |out| && codec.decodeRx(works[k].frame.payload) == Some(out[i])
    decreases n
  {
    if n > 0 {
      PacketsUpTo(codec, works, n - 1);
      QueuesConcat(codec, works[..n - 1], [works[n - 1]]);
      PacketOfOne(codec, works[n - 1]);
      assert works[..n] == works[..n - 1] + [works[n - 1]];
    }
  }

  lemma {:induction false} FaultsUpTo(codec: Codec, works: seq<FrameWork>, n: nat)
    requires n <= |works|
    ensures var out := ErrsOf(codec, works[..n]);
            && |out| == Count(codec, Faults, works, n)
            && forall k :: 0 <= k < n && IsFault(codec, works[k]) ==>
                 var i := Count(codec, Faults, works, k);
                 i < |out| && FaultIs(codec, works[k], out[i])
    decreases n
  {
    if n > 0 {
      FaultsUpTo(codec, works, n - 1);
      QueuesConcat(codec, works[..n - 1], [works[n - 1]]);
      FaultOfOne(codec, works[n - 1]);
      assert works[..n] == works[..n - 1] + [works[n - 1]];
    }
  }

  /** Where the stream's entries stand: the works that feed it have different places, so with
      `PacketsAre` or `FaultsAre` no two works share an entry. */
  lemma PlacesDiffer(codec: Codec, stream: Stream, works: seq<FrameWork>, j: nat, k: nat)
    requires j < k < |works| && Feeds(codec, stream, works[j]) && Feeds(codec, stream, works[k])
    ensures Count(codec, stream, works, j) < Count(codec, stream, works, k) < Count(codec, stream, works, |works|)
  {
    CountGrows(codec, stream, works, j, k);
    CountGrows(codec, stream, works, k, |works|);
  }

  /** And every place is some work's, so no entry comes from nowhere. */
  lemma {:induction false} PlaceHasWork(codec: Codec, stream: Stream, works: seq<FrameWork>, n: nat, i: nat)
      returns (k: nat)
    requires n <= |works| && i < Count(codec, stream, works, n)
    ensures k < n && Feeds(codec, stream, works[k]) && Count(codec, stream, works, k) == i
    decreases n
  {
    if i < Count(codec, stream, works, n - 1) {
      k := PlaceHasWork(codec, stream, works, n - 1, i);
    } else {
      k := n - 1;
    }
  }

  lemma StreamsExact(codec: Codec, works: seq<FrameWork>)
    ensures PacketsAre(codec, works, RxOf(codec, works)) && FaultsAre(codec, works, ErrsOf(codec, works))
  {
    PacketsUpTo(codec, works, |works|);
    FaultsUpTo(codec, works, |works|);
    assert works[..|works|] == works;
  }

  /** Dispatching adds to the RX queue exactly the packets carried by tag-0 RX frames that
      decode, each once, in order, with the value it decodes to; and to the error queue
      exactly one error for each corrupt frame, each tag-0 RX that does not decode and each
      tag-0 ERR, in order, with its value. */
  lemma EventsQueued(codec: Codec, st: ReaderState, works: seq<FrameWork>)
    ensures var end := Run(codec, st, works);
            && st.rx <= end.rx && PacketsAre(codec, works, end.rx[|st.rx|..])
            && st.errs <= end.errs && FaultsAre(codec, works, end.errs[|st.errs|..])
  {
    QueueProjection(codec, st, works);
    StreamsExact(codec, works);
    assert (st.rx + RxOf(codec, works))[|st.rx|..] == RxOf(codec, works);
    assert (st.errs + ErrsOf(codec, works))[|st.errs|..] == ErrsOf(codec, works);
  }
}
