/** `connect_with_codec` after the upgrade: the handler's handshake, then the hand-off to the loop. */
module Connect {
  import opened Messages
  import opened Protocol
  import opened Handshake
  import opened SocketLoop

  /** One call of a handler on its context. */
  method MakeCall(ctx: HandshakeContext, move: HandlerMove, written: WriteResult) returns (reply: Reply)
    requires !move.Finish?
    modifies ctx
    ensures match move
            case Receive =>
              && reply == Got(RawOf(old(ctx.stream)))
              && ctx.stream == old(ctx.stream)[Reach(old(ctx.stream))..] && ctx.sink == old(ctx.sink)
            case Transmit(m) =>
              && reply == Wrote(FromWire(written))
              && ctx.stream == old(ctx.stream) && ctx.sink == old(ctx.sink) + if written.Ok? then [m] else []
  {
    hide Reach, RawOf;
    match move
    case Receive =>
      var raw := ctx.RecvRaw();
      reply := Got(raw);
    case Transmit(m) =>
      var result := ctx.SendFrame(m, written);
      reply := Wrote(result);
  }

  /** A handler's `on_connected`; None while it is still at it when the given write results are used up. */
  method OnConnected(handler: Handler, ctx: HandshakeContext, writes: seq<WriteResult>)
    returns (outcome: Option<Result<(), Error>>, replies: seq<Reply>, ghost calls: nat)
    requires ctx.sink == []
    modifies ctx
    ensures calls <= |writes|
    ensures var t := Converse(handler, old(ctx.stream), writes, calls);
            && replies == t.replies && ctx.sink == t.sent && ctx.stream == old(ctx.stream)[t.taken..]
            && (match outcome
                case None => calls == |writes| && !handler(replies).Finish?
                case Some(result) => handler(replies) == Finish(result))
  {
    hide Reach, RawOf;
    replies, calls := [], 0;
    var n := 0;
    ghost var stream := ctx.stream;
    while true
      invariant n == calls <= |writes|
      invariant var t := Converse(handler, stream, writes, n);
                replies == t.replies && ctx.sink == t.sent && ctx.stream == stream[t.taken..]
      decreases |writes| - n
    {
      var move := handler(replies);
      if move.Finish? {
        return Some(move.outcome), replies, calls;
      }
      if n == |writes| {
        return None, replies, calls;
      }
      var reply := MakeCall(ctx, move, writes[n]);
      replies := replies + [reply];
      n, calls := n + 1, calls + 1;
    }
  }

  /**
   The handler talks to the server and then accepts or refuses the connection. On acceptance both
   channels are created empty and the loop takes over the stream where the last call left it; on
   refusal no loop is started and the handler's error is returned.
   */
  method ConnectWithCodec(config: Config, stream: seq<StreamEvent>, handler: Handler, writes: seq<WriteResult>)
    returns (r: Option<Result<Connection, Error>>, sent: seq<Message>, ghost calls: nat)
    ensures calls <= |writes|
    ensures var t := Converse(handler, stream, writes, calls);
            && sent == t.sent
            && match r
               case None => calls == |writes| && !handler(t.replies).Finish?
               case Some(Err(e)) => handler(t.replies) == Finish(Err(e))
               case Some(Ok(connection)) =>
                 && handler(t.replies).Finish? && handler(t.replies).outcome.Ok?
                 && fresh(connection) && connection.Valid() && connection.config == config
                 && connection.conn == Init(stream[t.taken..])
  {
    var ctx := new HandshakeContext(stream);
    var outcome, replies;
    outcome, replies, calls := OnConnected(handler, ctx, writes);
    sent := ctx.sink;
    match outcome
    case None => r := None;
    case Some(Err(e)) => r := Some(Err(e));
    case Some(Ok(_)) =>
      var connection := new Connection(config, ctx.stream);
      r := Some(Ok(connection));
  }
}
