/** The values that cross the socket and the channels: frames, errors and stream events. */
module Messages {

  datatype Option<+T> = None | Some(value: T)

  datatype Result<+T, +E> = Ok(value: T) | Err(error: E)

  type Bytes = seq<bv8>

  datatype CloseFrame = CloseFrame(code: nat, reason: string)

  /** A WebSocket message as tungstenite presents it. */
  datatype Message =
    | Text(text: string)
    | Binary(bytes: Bytes)
    | Ping(data: Bytes)
    | Pong(data: Bytes)
    | Close(frame: Option<CloseFrame>)
    | RawFrame(raw: Bytes)

  /** An error of the WebSocket library; only its identity matters here. */
  datatype WireError = WireError(code: nat)

  datatype Error =
    | WebsocketError(source: WireError)
    | WebsocketClosed
    | UnexpectedMessageType(message: Message)
    | Codec(reason: string)
    | SocketeerDroppedWithoutClosing

  /** What one poll of the inbound stream yields: a message, an error, or the end of the stream. */
  datatype StreamEvent = Frame(message: Message) | Failure(error: WireError) | End

  /** The result of one socket write. */
  type WriteResult = Result<(), WireError>

  /** The result a confirmed send is answered with. */
  type SendResult = Result<(), Error>

  /** The constant body of the loop's own Pong: the bytes of "pong". */
  const PONG_BYTES: Bytes := [112, 111, 110, 103]

  const CLOSE_REQUEST: Message := Close(Some(CloseFrame(1000, "Closing Connection")))

  const DEFAULT_KEEPALIVE: Message := Ping([])

  predicate IsData(m: Message) {
    m.Text? || m.Binary?
  }

  predicate IsPingEvent(e: StreamEvent) {
    e.Frame? && e.message.Ping?
  }

  /** The frame a stream event hands to the consumer, if any. */
  function DataOf(e: StreamEvent): seq<Message> {
    if e.Frame? && IsData(e.message) then [e.message] else []
  }

  /** The conversion of a write result that `map_err(Error::from)` performs. */
  function FromWire(r: WriteResult): SendResult {
    match r
    case Ok(_) => Ok(())
    case Err(e) => Err(WebsocketError(e))
  }
}
