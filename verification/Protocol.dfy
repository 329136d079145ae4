/** The vocabulary shared by every module: commands, inbound frames, the answers a
    waiting caller can get, and the client's error taxonomy.

    Framing and payload encoding belong to the `donglora-protocol` crate. Payload
    parsers are therefore the fields of an arbitrary `Codec`, over which every
    statement in this project is quantified.
 */
module Protocol {
  type u8 = n: int | 0 <= n < 0x100
  type u16 = n: int | 0 <= n < 0x1_0000
  type u32 = n: int | 0 <= n < 0x1_0000_0000
  type Bytes = seq<u8>

  datatype Option<+T> = None | Some(value: T)
  datatype Result<+T, +E> = Success(value: T) | Failure(error: E)

  /** The six command types a session sends. */
  datatype CmdType = Ping | GetInfo | SetConfig | Tx | RxStart | RxStop

  /** Type byte of an inbound frame. */
  datatype EventType = OK | ERR | TX_DONE | RX | Unknown(id: u8)

  datatype Frame = Frame(ty: EventType, tag: u16, payload: Bytes)

  /** What the frame decoder hands to the reader: a frame, or a CRC/COBS failure. */
  datatype FrameWork = Decoded(frame: Frame) | Corrupt

  datatype Info = Info(raw: Bytes)
  datatype Modulation = Modulation(raw: Bytes)
  datatype SetConfigResult = SetConfigResult(applied: bool, mine: bool, current: Modulation)
  datatype TxResult = Transmitted | ChannelBusy | Cancelled
  datatype TxDone = TxDone(result: TxResult, airtimeUs: u32)
  datatype RxPayload = RxPayload(raw: Bytes)
  datatype OkPayload = NoPayload | InfoPayload(info: Info) | SetConfigPayload(result: SetConfigResult)

  datatype ErrorCode =
    | ENotConfigured | EBusy | EParam | ELength | EModulation
    | EUnknownCmd | ERadio | EFrame | EInternal | EUnknown(raw: u16)

  datatype ClientError =
    | NotConfigured | Busy | Param | Length | BadModulation
    | UnknownCmd | Radio | FrameError | Internal | UnknownCode(raw: u16)
    | ChannelBusy | Cancelled
    | Timeout(what: CmdType)
    | TransportClosed(why: string)
    | ReaderExited
    | BadFrame(why: string)
    | EncodeFailed | Io
    | Other(why: string)
  {
    predicate IsRetryable() {
      ChannelBusy? || Busy?
    }
  }

  function FromWire(code: ErrorCode): ClientError {
    match code
    case ENotConfigured => NotConfigured
    case EBusy => Busy
    case EParam => Param
    case ELength => Length
    case EModulation => BadModulation
    case EUnknownCmd => UnknownCmd
    case ERadio => Radio
    case EFrame => FrameError
    case EInternal => Internal
    case EUnknown(raw) => UnknownCode(raw)
  }

  /** What travels through a command's one-shot channel. */
  datatype Response =
    | EmptyOk
    | InfoOk(info: Info)
    | SetConfigOk(result: SetConfigResult)
    | TxDoneMsg(td: TxDone)
    | ErrMsg(error: ClientError)

  /** Payload parsers; `None` is a decode error. */
  datatype Codec = Codec(
    parseOk: (CmdType, Bytes) -> Option<OkPayload>,
    decodeErr: Bytes -> Option<ErrorCode>,
    decodeTxDone: Bytes -> Option<TxDone>,
    decodeRx: Bytes -> Option<RxPayload>)

  /** The value sent to the waker of a `cmd` when it is resolved by a tagged frame. */
  function Answer(codec: Codec, cmd: CmdType, f: Frame): Response {
    match f.ty
    case OK =>
      (match codec.parseOk(cmd, f.payload)
       case Some(NoPayload) => EmptyOk
       case Some(InfoPayload(i)) => InfoOk(i)
       case Some(SetConfigPayload(r)) => SetConfigOk(r)
       case None => ErrMsg(BadFrame("OK payload did not parse for command context")))
    case ERR =>
      (match codec.decodeErr(f.payload)
       case Some(code) => ErrMsg(FromWire(code))
       case None => ErrMsg(BadFrame("bad ERR payload")))
    case TX_DONE =>
      (match codec.decodeTxDone(f.payload)
       case Some(td) => TxDoneMsg(td)
       case None => ErrMsg(BadFrame("bad TX_DONE payload")))
    case _ => ErrMsg(BadFrame("unexpected tagged frame type"))
  }

  /** The intermediate `OK` of a transmission: it acknowledges queueing and resolves nothing. */
  predicate IsTxAck(cmd: CmdType, f: Frame) {
    cmd == Tx && f.ty == OK
  }

  /** RX packets a tag-0 frame puts on the RX queue. */
  function AsyncRx(codec: Codec, f: Frame): seq<RxPayload> {
    if f.ty == RX && codec.decodeRx(f.payload).Some?
    then [codec.decodeRx(f.payload).value]
    else []
  }

  /** Errors a tag-0 frame puts on the asynchronous error queue. */
  function AsyncErrs(codec: Codec, f: Frame): seq<ClientError> {
    match f.ty
    case RX => if codec.decodeRx(f.payload).Some? then [] else [BadFrame("bad RX payload")]
    case ERR =>
      (match codec.decodeErr(f.payload)
       case Some(code) => [FromWire(code)]
       case None => [BadFrame("bad async ERR payload")])
    case _ => []
  }

  const CORRUPT_ERROR := BadFrame("inbound frame failed CRC or COBS")
  const CLOSED_BY_CLOSE := TransportClosed("session closed")
  const CLOSED_BY_READER := TransportClosed("reader exited")

  /** `transmit`'s reading of what `send_command` returned. */
  function TransmitResult(r: Result<Response, ClientError>): Result<TxDone, ClientError> {
    match r
    case Failure(e) => Failure(e)
    case Success(TxDoneMsg(td)) =>
      (match td.result
       case Transmitted => Success(td)
       case ChannelBusy => Failure(ClientError.ChannelBusy)
       case Cancelled => Failure(ClientError.Cancelled))
    case Success(ErrMsg(e)) => Failure(e)
    case Success(_) => Failure(Other("unexpected TX response"))
  }

  /** Likewise for `ping`, `rx_start` and `rx_stop`. */
  function AckResult(r: Result<Response, ClientError>): Result<(), ClientError> {
    match r
    case Failure(e) => Failure(e)
    case Success(EmptyOk) => Success(())
    case Success(ErrMsg(e)) => Failure(e)
    case Success(_) => Failure(Other("unexpected response"))
  }

  /** Likewise for `get_info`. */
  function InfoResult(r: Result<Response, ClientError>): Result<Info, ClientError> {
    match r
    case Failure(e) => Failure(e)
    case Success(InfoOk(info)) => Success(info)
    case Success(ErrMsg(e)) => Failure(e)
    case Success(_) => Failure(Other("unexpected GET_INFO response"))
  }

  /** Likewise for the session's `set_config`. */
  function ConfigResult(r: Result<Response, ClientError>): Result<SetConfigResult, ClientError> {
    match r
    case Failure(e) => Failure(e)
    case Success(SetConfigOk(result)) => Success(result)
    case Success(ErrMsg(e)) => Failure(e)
    case Success(_) => Failure(Other("unexpected SET_CONFIG response"))
  }
}
