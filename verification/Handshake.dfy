/** The handshake reads the stream before the socket loop does; together they miss nothing. */
module Handshake {
  import opened Messages
  import opened Sequences
  import opened Protocol
  import opened ReceiveGuarantees

  type RawResult = Result<Message, Error>

  predicate IsControl(m: Message) {
    m.Ping? || m.Pong?
  }

  /** What one event means to the handshake; None is a Ping or Pong, which it skips. */
  function Verdict(e: StreamEvent): Option<RawResult> {
    match e
    case Frame(m) => if IsControl(m) then None else Some(Ok(m))
    case Failure(err) => Some(Err(WebsocketError(err)))
    case End => Some(Err(WebsocketClosed))
  }

  /** How many events one `recv_raw` takes from the stream. */
  function Reach(stream: seq<StreamEvent>): (n: nat)
    ensures n <= |stream|
    ensures forall i :: 0 <= i < n - 1 ==> Verdict(stream[i]) == None
    ensures n > 0 && Verdict(stream[n - 1]) == None ==> n == |stream|
  {
    if |stream| == 0 then 0
    else if Verdict(stream[0]).Some? then 1
    else 1 + Reach(stream[1..])
  }

  /** The result of one `recv_raw`; a stream that has run out reads as closed. */
  function RawOf(stream: seq<StreamEvent>): RawResult {
    var n := Reach(stream);
    if n > 0 && Verdict(stream[n - 1]).Some? then Verdict(stream[n - 1]).value else Err(WebsocketClosed)
  }

  class HandshakeContext {
    var stream: seq<StreamEvent>
    var sink: seq<Message>

    constructor (stream: seq<StreamEvent>)
      ensures this.stream == stream && sink == []
    {
      this.stream, sink := stream, [];
    }

    /** `send`, `send_text` and `send_binary` once their frame is encoded; the write may fail. */
    method SendFrame(m: Message, written: WriteResult) returns (r: SendResult)
      modifies this`sink
      ensures r == FromWire(written)
      ensures match written
              case Ok(_) => r.Ok? && sink == old(sink) + [m]
              case Err(e) => r == Err(WebsocketError(e)) && sink == old(sink)
    {
      match written
      case Ok(_) =>
        sink := sink + [m];
        r := Ok(());
      case Err(e) => r := Err(WebsocketError(e));
    }

    /** `recv_raw`: skip Pings and Pongs; return the first other frame as it is. */
    method RecvRaw() returns (r: RawResult)
      modifies this`stream
      ensures r == RawOf(old(stream)) && stream == old(stream)[Reach(old(stream))..]
      ensures |stream| <= |old(stream)|
      ensures var taken := old(stream)[..|old(stream)| - |stream|];
              && old(stream) == taken + stream
              && (forall i :: 0 <= i < |taken| - 1 ==>
                    taken[i].Frame? && (taken[i].message.Ping? || taken[i].message.Pong?))
              && if taken == [] then r == Err(WebsocketClosed) && stream == []
                 else
                   match taken[|taken| - 1]
                   case Frame(Ping(_)) => r == Err(WebsocketClosed) && stream == []
                   case Frame(Pong(_)) => r == Err(WebsocketClosed) && stream == []
                   case Frame(m) => r == Ok(m)
                   case Failure(e) => r == Err(WebsocketError(e))
                   case End => r == Err(WebsocketClosed)
    {
      ghost var n := 0;
      while true
        invariant 0 <= n <= |old(stream)| && stream == old(stream)[n..]
        invariant forall i :: 0 <= i < n ==>
                    old(stream)[i].Frame? && (old(stream)[i].message.Ping? || old(stream)[i].message.Pong?)
        invariant Reach(old(stream)) == n + Reach(stream) && RawOf(old(stream)) == RawOf(stream)
        decreases |stream|
      {
        if stream == [] {
          return Err(WebsocketClosed);
        }
        var event := stream[0];
        assert stream[1..] == old(stream)[n + 1..];
        stream := stream[1..];
        n := n + 1;
        match event
        case End => return Err(WebsocketClosed);
        case Failure(e) => return Err(WebsocketError(e));
        case Frame(m) =>
          if !IsControl(m) {
            return Ok(m);
          }
      }
    }

    /** `recv`: a Close surfaces as a closed socket whatever the codec would make of it. */
    method Recv<V>(decode: Message -> Result<V, Error>) returns (r: Result<V, Error>)
      modifies this`stream
      ensures stream == old(stream)[Reach(old(stream))..]
      ensures match RawOf(old(stream))
              case Err(e) => r == Err(e)
              case Ok(m) => r == if m.Close? then Err(WebsocketClosed) else decode(m)
    {
      var raw := RecvRaw();
      match raw
      case Err(e) => r := Err(e);
      case Ok(Close(_)) => r := Err(WebsocketClosed);
      case Ok(frame) => r := decode(frame);
    }

    /** `recv_text`: anything but text is an error that carries the frame. */
    method RecvText() returns (r: Result<string, Error>)
      modifies this`stream
      ensures stream == old(stream)[Reach(old(stream))..]
      ensures match RawOf(old(stream))
              case Err(e) => r == Err(e)
              case Ok(m) => r == if m.Text? then Ok(m.text) else Err(UnexpectedMessageType(m))
    {
      var raw := RecvRaw();
      match raw
      case Err(e) => r := Err(e);
      case Ok(Text(text)) => r := Ok(text);
      case Ok(other) => r := Err(UnexpectedMessageType(other));
    }
  }

  // ----- several calls, and the hand-off

  /** The results of n successive calls. */
  function RawMany(stream: seq<StreamEvent>, n: nat): seq<RawResult> {
    if n == 0 then [] else [RawOf(stream)] + RawMany(stream[Reach(stream)..], n - 1)
  }

  /** How many events n successive calls take. */
  function ReachMany(stream: seq<StreamEvent>, n: nat): (k: nat)
    ensures k <= |stream|
  {
    if n == 0 then 0 else Reach(stream) + ReachMany(stream[Reach(stream)..], n - 1)
  }

  /** What one event is worth to the caller of `recv_raw`, independently of how it is reached. */
  function VerdictOf(e: StreamEvent): seq<RawResult> {
    match e
    case Frame(Ping(_)) => []
    case Frame(Pong(_)) => []
    case Frame(m) => [Ok(m)]
    case Failure(error) => [Err(WebsocketError(error))]
    case End => [Err(WebsocketClosed)]
  }

  /** One call takes exactly the control frames in front of its result. */
  lemma {:induction false} OneCall(stream: seq<StreamEvent>)
    ensures var taken := Flat(VerdictOf, stream[..Reach(stream)]);
            taken == [RawOf(stream)]
                || (taken == [] && RawOf(stream) == Err(WebsocketClosed) && Reach(stream) == |stream|)
  {
    hide Sequences.Flat;
    var n := Reach(stream);
    if n == 0 {
      FlatNothing(VerdictOf, stream[..0]);
    } else {
      var front, last := stream[..n - 1], stream[n - 1];
      assert stream[..n] == front + [last];
      FlatAppend(VerdictOf, front, last);
      forall x | x in front
        ensures VerdictOf(x) == []
      {
        var i :| 0 <= i < |front| && front[i] == x;
        assert Verdict(stream[i]) == None;
      }
      FlatNothing(VerdictOf, front);
    }
  }

  lemma Nothing(stream: seq<StreamEvent>)
    ensures RawMany(stream, 0) == [] && ReachMany(stream, 0) == 0
  {
  }

  lemma OneMore(stream: seq<StreamEvent>, n: nat)
    requires n > 0
    ensures RawMany(stream, n) == [RawOf(stream)] + RawMany(stream[Reach(stream)..], n - 1)
    ensures ReachMany(stream, n) == Reach(stream) + ReachMany(stream[Reach(stream)..], n - 1)
  {
  }

  /** The receive side of a handler's `on_connected`: some number of calls on one context. */
  method RunHandshake(stream: seq<StreamEvent>, calls: nat) returns (rest: seq<StreamEvent>, results: seq<RawResult>)
    ensures results == RawMany(stream, calls)
    ensures rest == stream[ReachMany(stream, calls)..]
  {
    hide RawMany, ReachMany, Reach, RawOf;
    var ctx := new HandshakeContext(stream);
    results := [];
    ghost var taken := 0;
    assert stream[0..] == stream;
    for i := 0 to calls
      invariant 0 <= taken <= |stream| && ctx.stream == stream[taken..]
      invariant ReachMany(stream, calls) == taken + ReachMany(ctx.stream, calls - i)
      invariant RawMany(stream, calls) == results + RawMany(ctx.stream, calls - i)
    {
      ghost var before := ctx.stream;
      OneMore(before, calls - i);
      var raw := ctx.RecvRaw();
      taken := taken + Reach(before);
      assert before[Reach(before)..] == stream[taken..];
      assert results + RawMany(before, calls - i) == (results + [raw]) + RawMany(ctx.stream, calls - i - 1);
      results := results + [raw];
    }
    Nothing(ctx.stream);
    rest := ctx.stream;
  }

  /** `results` are the given verdicts, then "closed" for ever; `all` says that the stream has run out. */
  predicate FollowedByClosed(taken: seq<RawResult>, results: seq<RawResult>, all: bool) {
    && taken <= results
    && (forall i :: |taken| <= i < |results| ==> results[i] == Err(WebsocketClosed))
    && (|taken| < |results| ==> all)
  }

  /**
   Any number of calls returns exactly the stream with Pings and Pongs removed, in order, followed
   by "closed" for every call after the stream has run out.
   */
  lemma {:induction false} HandshakeSkipsOnlyControl(stream: seq<StreamEvent>, n: nat)
    ensures |RawMany(stream, n)| == n
    ensures var k := ReachMany(stream, n);
            FollowedByClosed(Flat(VerdictOf, stream[..k]), RawMany(stream, n), k == |stream|)
  {
    hide Sequences.Flat, FollowedByClosed, RawOf, Reach, RawMany, ReachMany;
    if n == 0 {
      Nothing(stream);
      FlatNothing(VerdictOf, stream[..0]);
      assert FollowedByClosed([], [], 0 == |stream|) by { NothingFollows(0 == |stream|); }
    } else {
      var k := Reach(stream);
      var rest := stream[k..];
      var m := ReachMany(rest, n - 1);
      OneMore(stream, n);
      HandshakeSkipsOnlyControl(rest, n - 1);
      OneCall(stream);
      assert stream[..k + m] == stream[..k] + rest[..m];
      FlatConcat(VerdictOf, stream[..k], rest[..m]);
      if rest == [] {
        FlatNothing(VerdictOf, rest[..m]);
      }
      Prepend(Flat(VerdictOf, stream[..k]), RawOf(stream), Flat(VerdictOf, rest[..m]), RawMany(rest, n - 1),
          m == |rest|, rest == []);
    }
  }

  lemma NothingFollows(all: bool)
    ensures FollowedByClosed([], [], all)
  {
  }

  lemma Prepend(first: seq<RawResult>, r: RawResult, taken: seq<RawResult>, results: seq<RawResult>, all: bool,
      empty: bool)
    requires FollowedByClosed(taken, results, all)
    requires first == [r] || (first == [] && r == Err(WebsocketClosed) && empty)
    requires empty ==> all && taken == []
    ensures FollowedByClosed(first + taken, [r] + results, all)
  {
    var longer := [r] + results;
    forall i | |first + taken| <= i < |longer|
      ensures longer[i] == Err(WebsocketClosed)
    {
      if i > 0 {
        assert longer[i] == results[i - 1];
      }
    }
  }

  /** One call more, seen from the end. */
  lemma {:induction false} OneMoreAtEnd(stream: seq<StreamEvent>, n: nat)
    ensures var rest := stream[ReachMany(stream, n)..];
            && RawMany(stream, n + 1) == RawMany(stream, n) + [RawOf(rest)]
            && ReachMany(stream, n + 1) == ReachMany(stream, n) + Reach(rest)
  {
    hide RawOf, Reach, RawMany, ReachMany;
    OneMore(stream, n + 1);
    if n == 0 {
      Nothing(stream);
      Nothing(stream[Reach(stream)..]);
      assert stream[0..] == stream;
    } else {
      var tail := stream[Reach(stream)..];
      OneMore(stream, n);
      OneMoreAtEnd(tail, n - 1);
      assert tail[ReachMany(tail, n - 1)..] == stream[ReachMany(stream, n)..];
    }
  }

  // ----- a whole handshake

  /** What a handler's call on its context gave back. */
  datatype Reply = Got(raw: RawResult) | Wrote(result: SendResult)

  /** What a handler does next: another call, or its return from `on_connected`. */
  datatype HandlerMove = Receive | Transmit(message: Message) | Finish(outcome: Result<(), Error>)

  /** A handler is any function of the replies it has had so far. */
  type Handler = seq<Reply> -> HandlerMove

  /** A conversation: the replies in order, how many events were taken, what reached the socket. */
  datatype Talk = Talk(replies: seq<Reply>, taken: nat, sent: seq<Message>)

  /** The conversation after n calls; a handler that has finished makes no more. */
  function Converse(handler: Handler, stream: seq<StreamEvent>, writes: seq<WriteResult>, n: nat): (t: Talk)
    requires n <= |writes|
    ensures t.taken <= |stream|
  {
    if n == 0 then Talk([], 0, [])
    else
      var t := Converse(handler, stream, writes, n - 1);
      match handler(t.replies)
      case Finish(_) => t
      case Receive =>
        Talk(t.replies + [Got(RawOf(stream[t.taken..]))], t.taken + Reach(stream[t.taken..]), t.sent)
      case Transmit(m) =>
        Talk(t.replies + [Wrote(FromWire(writes[n - 1]))], t.taken,
             t.sent + if writes[n - 1].Ok? then [m] else [])
  }

  function RawReply(r: Reply): seq<RawResult> {
    if r.Got? then [r.raw] else []
  }

  /**
   Whatever a handler does, its receives are successive receives of one stream: what they returned
   and what they took does not depend on what was sent in between.
   */
  lemma {:induction false} ConverseReceives(
    handler: Handler, stream: seq<StreamEvent>, writes: seq<WriteResult>, n: nat)
    requires n <= |writes|
    ensures var t := Converse(handler, stream, writes, n);
            var raws := Flat(RawReply, t.replies);
            && raws == RawMany(stream, |raws|)
            && t.taken == ReachMany(stream, |raws|)
  {
    hide RawOf, Reach, RawMany, ReachMany, Sequences.Flat;
    if n == 0 {
      FlatNothing(RawReply, []);
      Nothing(stream);
    } else {
      ConverseReceives(handler, stream, writes, n - 1);
      var t, u := Converse(handler, stream, writes, n - 1), Converse(handler, stream, writes, n);
      if !handler(t.replies).Finish? {
        FlatAppend(RawReply, t.replies, u.replies[|t.replies|]);
      }
      if handler(t.replies).Receive? {
        OneMoreAtEnd(stream, |Flat(RawReply, t.replies)|);
      }
    }
  }

  function ReplyError(r: Reply): Option<Error> {
    match r
    case Got(Err(e)) => Some(e)
    case Wrote(Err(e)) => Some(e)
    case _ => None
  }

  /** A handler written with `?` after every call: the first error is what it returns. */
  ghost predicate Propagates(handler: Handler) {
    forall replies: seq<Reply> :: replies != [] && ReplyError(replies[|replies| - 1]).Some? ==>
      handler(replies) == Finish(Err(ReplyError(replies[|replies| - 1]).value))
  }

  predicate NoErrors(replies: seq<Reply>) {
    forall i :: 0 <= i < |replies| ==> ReplyError(replies[i]).None?
  }

  lemma PropagatesAt(handler: Handler, replies: seq<Reply>)
    requires Propagates(handler) && replies != []
    ensures ReplyError(replies[|replies| - 1]).None? || handler(replies).Finish?
    ensures handler(replies) == Finish(Ok(())) ==> ReplyError(replies[|replies| - 1]).None?
  {
  }

  /** Such a handler never goes on after an error; so one that accepts has had none. */
  lemma {:induction false} PropagatingStops(
    handler: Handler, stream: seq<StreamEvent>, writes: seq<WriteResult>, n: nat)
    requires n <= |writes| && Propagates(handler)
    ensures var replies := Converse(handler, stream, writes, n).replies;
            && (replies != [] ==> NoErrors(replies[..|replies| - 1]))
            && (handler(replies) == Finish(Ok(())) ==> NoErrors(replies))
  {
    hide RawOf, Reach, Propagates;
    var replies := Converse(handler, stream, writes, n).replies;
    if n > 0 {
      PropagatingStops(handler, stream, writes, n - 1);
      var before := Converse(handler, stream, writes, n - 1).replies;
      if before != [] {
        PropagatesAt(handler, before);
      }
      if !handler(before).Finish? {
        assert replies[..|replies| - 1] == before;
      }
    }
    if replies != [] {
      PropagatesAt(handler, replies);
    }
  }

  /**
   Hand-off: the events taken by the handshake, then those read by the loop, then those still
   waiting are the server's sequence, with no gap and no repeat, under every schedule.
   */
  lemma HandOffLosesNothing(c: Config, stream: seq<StreamEvent>, calls: nat, acts: seq<Action>)
    ensures var k := ReachMany(stream, calls);
            var s := Exec(c, Init(stream[k..]), acts);
            Arrived(stream, acts) == stream[..k] + s.rx.read + s.rx.stream
  {
    hide Protocol.Exec, Sequences.Flat;
    var k := ReachMany(stream, calls);
    ReadsAreArrivals(c, stream[k..], acts);
    assert Arrived(stream, acts) == stream[..k] + Arrived(stream[k..], acts);
  }

  /** The same for whatever a handler does in its handshake. */
  lemma ConversationHandsOff(
    c: Config, handler: Handler, stream: seq<StreamEvent>, writes: seq<WriteResult>, n: nat, acts: seq<Action>)
    requires n <= |writes|
    ensures var t := Converse(handler, stream, writes, n);
            var s := Exec(c, Init(stream[t.taken..]), acts);
            Arrived(stream, acts) == stream[..t.taken] + s.rx.read + s.rx.stream
  {
    hide Protocol.Exec, Sequences.Flat, Converse;
    ConverseReceives(handler, stream, writes, n);
    HandOffLosesNothing(c, stream, |Flat(RawReply, Converse(handler, stream, writes, n).replies)|, acts);
  }
}
