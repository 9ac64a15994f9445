/**
 A graceful end of the composed system. The server writes its Close for one reason only: it heard
 a request to close. So what a connection that ended Closed has delivered is, frame for frame, the
 echoes of what was sent before that request.
 */
module EchoClose {
  import opened Messages
  import opened Sequences
  import opened Protocol
  import opened Outbound
  import opened Inbound
  import opened Reachability
  import opened ReceiveGuarantees
  import opened CloseVerdict
  import opened EchoServer
  import opened EchoSystem

  /** What makes the server write its Close: a request for it, or the client's own Close frame. */
  predicate AsksToClose(parse: Parser, m: Message) {
    IsCloseRequest(parse, m) || m.Close?
  }

  function SentAsks(parse: Parser): Sent -> bool {
    (w: Sent) => AsksToClose(parse, w.message)
  }

  function PayloadAsks(parse: Parser): Payload -> bool {
    (p: Payload) => AsksToClose(parse, p.message)
  }

  function IsClose(): Message -> bool {
    (m: Message) => m.Close?
  }

  /** Everything the server wrote and the network has not dropped, from the first frame on. */
  function ServerFrames(y: System): seq<Message> {
    Flat(FrameOf, y.client.rx.read + y.client.rx.stream) + y.server.out
  }

  /** The server is about to write a Close. */
  predicate ClosePending(v: Server) {
    v.phase.Closing? || (v.phase.Replying? && v.phase.frame.Close?)
  }

  /** What the server has heard, while it has not yet written a Close. */
  ghost predicate NoCloseYet(parse: Parser, v: Server, heard: seq<Sent>) {
    if v.phase.Gone? then true
    else if ClosePending(v) then
      heard != [] && SentAsks(parse)(heard[|heard| - 1]) && !Stops(SentAsks(parse), heard[..|heard| - 1])
    else
      !Stops(SentAsks(parse), heard)
  }

  /** In front of the server's first Close are the echoes of what it heard before the first request. */
  ghost predicate AnsweredClose(parse: Parser, heard: seq<Sent>, frames: seq<Message>) {
    && Stops(SentAsks(parse), heard)
    && Flat(DataFrame, Until(IsClose(), frames)) == Flat(EchoSent(parse), Until(SentAsks(parse), heard))
  }

  ghost predicate ExchangeInv(parse: Parser, y: System) {
    && y.heard <= |y.client.wire|
    && var heard, frames := y.client.wire[..y.heard], ServerFrames(y);
       if Stops(IsClose(), frames) then AnsweredClose(parse, heard, frames) else NoCloseYet(parse, y.server, heard)
  }

  /** The client writes its own Close only after something on its wire asked the server for one. */
  ghost predicate ReplyInv(parse: Parser, wire: seq<Sent>) {
    forall i :: 0 <= i < |wire| && wire[i].origin.CloseReply? ==> Stops(SentAsks(parse), wire[..i])
  }

  // ----- each step keeps both

  /** What a step of the client other than an arrival can do to its wire. */
  lemma WireGrowth(c: Config, s: Conn, a: Action)
    requires ReadInv(s) && !a.Arrive?
    ensures var t := Step(c, s, a);
            && s.wire <= t.wire && |t.wire| <= |s.wire| + 1
            && (|t.wire| > |s.wire| && t.wire[|s.wire|].origin.CloseReply? ==>
                  s.rx.read != [] && s.rx.read[|s.rx.read| - 1].Frame? && s.rx.read[|s.rx.read| - 1].message.Close?)
  {
    if !LoopEnabled(c, s, a) {
      hide Protocol.LoopEnabled;
    }
  }

  /** A Close that the client has read is among the server's frames. */
  lemma CloseIsFrame(y: System)
    requires var read := y.client.rx.read; read != [] && read[|read| - 1].Frame? && read[|read| - 1].message.Close?
    ensures Stops(IsClose(), ServerFrames(y))
  {
    hide Sequences.Flat;
    var read := y.client.rx.read;
    var last := read[|read| - 1];
    assert last in read + y.client.rx.stream;
    FlatContains(FrameOf, read + y.client.rx.stream, last, last.message);
    assert last.message in ServerFrames(y);
    var i :| 0 <= i < |ServerFrames(y)| && ServerFrames(y)[i] == last.message;
    assert IsClose()(ServerFrames(y)[i]);
  }

  lemma ClientKeepsExchange(c: Config, parse: Parser, y: System, a: Action)
    requires SystemInv(c, parse, y) && ExchangeInv(parse, y) && ReplyInv(parse, y.client.wire) && !a.Arrive?
    ensures var z := StepSystem(c, parse, y, ClientStep(a)); ExchangeInv(parse, z) && ReplyInv(parse, z.client.wire)
  {
    hide Sequences.Flat, Inv, Protocol.Step, SentAsks, Stops;
    var s, t := y.client, Step(c, y.client, a);
    ReadOf(c, s);
    WireGrowth(c, s, a);
    ArrivalStep(c, s, a);
    assert t.rx.read + t.rx.stream == s.rx.read + s.rx.stream;
    assert t.wire[..y.heard] == s.wire[..y.heard];
    forall i | 0 <= i < |t.wire| && t.wire[i].origin.CloseReply?
      ensures Stops(SentAsks(parse), t.wire[..i])
    {
      if i < |s.wire| {
        assert t.wire[..i] == s.wire[..i];
      } else {
        CloseIsFrame(y);
        StopsConcat(SentAsks(parse), s.wire[..y.heard], s.wire[y.heard..]);
        assert t.wire[..i] == s.wire[..y.heard] + s.wire[y.heard..];
      }
    }
  }

  lemma ReadOf(c: Config, s: Conn)
    requires Inv(c, s)
    ensures ReadInv(s)
  {
    hide ReadInv;
  }

  /** Hearing a message makes a Close pending exactly if the message asks for it. */
  lemma HearingAsks(parse: Parser, v: Server, m: Message)
    requires v.phase.Reading?
    ensures var t := Receive(parse, v, m);
            t.out == v.out && (t.phase.Gone? || (ClosePending(t) <==> AsksToClose(parse, m)))
  {
  }

  lemma HearKeepsExchange(c: Config, parse: Parser, y: System)
    requires ExchangeInv(parse, y)
    ensures ExchangeInv(parse, StepSystem(c, parse, y, ServerHears))
  {
    hide Sequences.Flat, Receive, Stops;
    if y.server.phase.Reading? && y.heard < |y.client.wire| {
      var w, heard := y.client.wire[y.heard], y.client.wire[..y.heard];
      assert y.client.wire[..y.heard + 1] == heard + [w];
      HearingAsks(parse, y.server, w.message);
      StopsConcat(SentAsks(parse), heard, [w]);
      StopsSingle(SentAsks(parse), w);
      assert (heard + [w])[..|heard|] == heard;
      if Stops(SentAsks(parse), heard) {
        UntilStops(SentAsks(parse), heard, [w]);
      }
    }
  }

  /** The data among the server's frames is what is on its way back. */
  lemma {:induction false} FramesAreData(events: seq<StreamEvent>)
    ensures Flat(DataFrame, Flat(FrameOf, events)) == Flat(DataOf, events)
  {
    hide Sequences.Flat;
    if |events| == 0 {
      FlatNothing(FrameOf, events);
      FlatNothing(DataOf, events);
      FlatNothing(DataFrame, Flat(FrameOf, events));
    } else {
      var front, last := events[..|events| - 1], events[|events| - 1];
      assert events == front + [last];
      FramesAreData(front);
      FlatAppend(FrameOf, front, last);
      FlatAppend(DataOf, front, last);
      if last.Frame? {
        FlatAppend(DataFrame, Flat(FrameOf, front), last.message);
      } else {
        assert Flat(FrameOf, events) == Flat(FrameOf, front);
      }
    }
  }

  lemma FramesAreBack(y: System)
    ensures Flat(DataFrame, ServerFrames(y)) == Back(y)
  {
    hide Sequences.Flat;
    FramesAreData(y.client.rx.read + y.client.rx.stream);
    FlatConcat(DataFrame, Flat(FrameOf, y.client.rx.read + y.client.rx.stream), y.server.out);
  }

  /** The server's first Close: all it owed is on its way back, and the request itself asks for no echo. */
  lemma FirstClose(c: Config, parse: Parser, y: System, close: Message)
    requires SystemInv(c, parse, y) && ExchangeInv(parse, y) && !Stops(IsClose(), ServerFrames(y))
    requires ClosePending(y.server) && close.Close?
    ensures AnsweredClose(parse, y.client.wire[..y.heard], ServerFrames(y) + [close])
  {
    hide Sequences.Flat, Inv, Stops;
    var heard := y.client.wire[..y.heard];
    var front, last := heard[..|heard| - 1], heard[|heard| - 1];
    assert heard == front + [last];
    StopsConcat(SentAsks(parse), front, [last]);
    StopsSingle(SentAsks(parse), last);
    UntilGoesOn(SentAsks(parse), front, [last]);
    UntilGoesOn(IsClose(), ServerFrames(y), [close]);
    FlatAppend(EchoSent(parse), front, last);
    assert Echo(parse)(last.message) == [] && EchoSent(parse)(last) == [];
    assert Until(SentAsks(parse), [last]) == [] && Until(IsClose(), [close]) == [];
    assert Owing(y.server) == [] && Back(y) + [] == Back(y) == Asked(parse, y);
    assert Until(SentAsks(parse), heard) == front && Until(IsClose(), ServerFrames(y) + [close]) == ServerFrames(y);
    FramesAreBack(y);
  }

  lemma WriteKeepsExchange(c: Config, parse: Parser, y: System, ok: bool)
    requires SystemInv(c, parse, y) && ExchangeInv(parse, y)
    ensures ExchangeInv(parse, StepSystem(c, parse, y, ServerWrites(ok)))
  {
    hide Sequences.Flat, Inv, Stops, SystemInv, AnsweredClose, Until;
    var z := StepSystem(c, parse, y, ServerWrites(ok));
    if ok && (y.server.phase.Replying? || y.server.phase.Closing?) {
      var frame := if y.server.phase.Closing? then Close(None) else y.server.phase.frame;
      assert ServerFrames(z) == ServerFrames(y) + [frame];
      StopsConcat(IsClose(), ServerFrames(y), [frame]);
      StopsSingle(IsClose(), frame);
      if Stops(IsClose(), ServerFrames(y)) {
        StillAnswered(parse, y.client.wire[..y.heard], ServerFrames(y), [frame]);
      } else if frame.Close? {
        FirstClose(c, parse, y, frame);
      }
    }
  }

  lemma StillAnswered(parse: Parser, heard: seq<Sent>, frames: seq<Message>, more: seq<Message>)
    requires Stops(IsClose(), frames)
    ensures AnsweredClose(parse, heard, frames) <==> AnsweredClose(parse, heard, frames + more)
  {
    hide Sequences.Flat, Stops;
    UntilStops(IsClose(), frames, more);
  }

  lemma DeliverKeepsExchange(c: Config, parse: Parser, y: System)
    requires ExchangeInv(parse, y)
    ensures ExchangeInv(parse, StepSystem(c, parse, y, NetworkDelivers))
  {
    hide Sequences.Flat, Stops, AnsweredClose, Protocol.Step;
    if y.server.out != [] {
      var m, before := y.server.out[0], y.client.rx.read + y.client.rx.stream;
      ArrivalKeepsRest(c, y.client, Frame(m));
      var t := Step(c, y.client, Arrive(Frame(m)));
      assert t.rx.read + t.rx.stream == before + [Frame(m)];
      FlatAppend(FrameOf, before, Frame(m));
      assert ServerFrames(StepSystem(c, parse, y, NetworkDelivers)) == ServerFrames(y);
    }
  }

  lemma FailKeepsExchange(c: Config, parse: Parser, y: System, e: StreamEvent)
    requires ExchangeInv(parse, y) && !e.Frame?
    ensures ExchangeInv(parse, StepSystem(c, parse, y, NetworkFails(e)))
  {
    hide Sequences.Flat, Stops, AnsweredClose, Protocol.Step;
    var before := y.client.rx.read + y.client.rx.stream;
    ArrivalKeepsRest(c, y.client, e);
    var t := Step(c, y.client, Arrive(e));
    assert t.rx.read + t.rx.stream == before + [e];
    FlatAppend(FrameOf, before, e);
    assert ServerFrames(StepSystem(c, parse, y, NetworkFails(e))) == ServerFrames(y);
  }

  lemma DropKeepsExchange(c: Config, parse: Parser, y: System, n: nat)
    requires ExchangeInv(parse, y)
    ensures ExchangeInv(parse, StepSystem(c, parse, y, NetworkDrops(n)))
  {
    hide Sequences.Flat, Stops, AnsweredClose;
    if y.server.phase.Gone? && n <= |y.server.out| {
      var z := StepSystem(c, parse, y, NetworkDrops(n));
      assert ServerFrames(y) == ServerFrames(z) + y.server.out[n..];
      StopsConcat(IsClose(), ServerFrames(z), y.server.out[n..]);
      if Stops(IsClose(), ServerFrames(z)) {
        StillAnswered(parse, y.client.wire[..y.heard], ServerFrames(z), y.server.out[n..]);
      }
    }
  }

  lemma ExchangeStep(c: Config, parse: Parser, y: System, step: SystemStep)
    requires SystemInv(c, parse, y) && ExchangeInv(parse, y) && ReplyInv(parse, y.client.wire)
    ensures var z := StepSystem(c, parse, y, step); ExchangeInv(parse, z) && ReplyInv(parse, z.client.wire)
  {
    hide Sequences.Flat, SystemInv, AnsweredClose, Stops, Protocol.Step;
    match step
    case ClientStep(a) =>
      if !a.Arrive? { ClientKeepsExchange(c, parse, y, a); }
    case ServerHears => HearKeepsExchange(c, parse, y);
    case ServerWrites(ok) => WriteKeepsExchange(c, parse, y, ok);
    case ServerEnds =>
    case NetworkDelivers =>
      DeliverKeepsExchange(c, parse, y);
      if y.server.out != [] { ArrivalKeepsRest(c, y.client, Frame(y.server.out[0])); }
    case NetworkFails(e) =>
      if !e.Frame? {
        FailKeepsExchange(c, parse, y, e);
        ArrivalKeepsRest(c, y.client, e);
      }
    case NetworkDrops(n) => DropKeepsExchange(c, parse, y, n);
  }

  lemma {:induction false} ExchangeReachable(c: Config, parse: Parser, steps: seq<SystemStep>)
    ensures var y := RunSystem(c, parse, steps); ExchangeInv(parse, y) && ReplyInv(parse, y.client.wire)
  {
    if |steps| != 0 {
      hide SystemInv, StepSystem, ExchangeInv, ReplyInv;
      var front := steps[..|steps| - 1];
      ExchangeReachable(c, parse, front);
      SystemReachable(c, parse, front);
      ExchangeStep(c, parse, RunSystem(c, parse, front), steps[|steps| - 1]);
    }
  }

  // ----- the end of the exchange

  /** What stands in front of a Close that was read is the frames of the events read before it. */
  lemma FramesBeforeClose(front: seq<StreamEvent>, close: Message, unread: seq<StreamEvent>, out: seq<Message>)
    requires forall i :: 0 <= i < |front| ==> !EndsReading(front[i])
    requires close.Close?
    ensures Until(IsClose(), Flat(FrameOf, front + [Frame(close)] + unread) + out) == Flat(FrameOf, front)
  {
    hide Sequences.Flat, Stops;
    var frames, rest := Flat(FrameOf, front), [close] + (Flat(FrameOf, unread) + out);
    FlatConcat(FrameOf, front + [Frame(close)], unread);
    FlatAppend(FrameOf, front, Frame(close));
    assert Flat(FrameOf, front + [Frame(close)] + unread) + out == frames + rest;
    NoCloseInFront(front);
    UntilGoesOn(IsClose(), frames, rest);
    assert IsClose()(rest[0]);
  }

  /** A client that ended Closed has delivered the data in front of the server's first Close. */
  lemma DeliveredIsBeforeClose(c: Config, y: System)
    requires Inv(c, y.client) && Outcome(y.client.phase) == Closed
    ensures Stops(IsClose(), ServerFrames(y))
    ensures Delivered(y.client) == Flat(DataFrame, Until(IsClose(), ServerFrames(y)))
  {
    hide Sequences.Flat, Inv, Stops, Until, Delivered;
    var s := y.client;
    ClosedShape(c, s);
    CloseIsFrame(y);
    var front, close := s.rx.read[..|s.rx.read| - 1], s.rx.read[|s.rx.read| - 1];
    assert s.rx.read == front + [close];
    FlatAppend(DataOf, front, close);
    assert Flat(DataOf, s.rx.read) == Flat(DataOf, front);
    FramesBeforeClose(front, close.message, s.rx.stream, y.server.out);
    FramesAreData(front);
  }

  lemma ClosedShape(c: Config, s: Conn)
    requires Inv(c, s) && Outcome(s.phase) == Closed
    ensures s.rx.read != [] && s.rx.read[|s.rx.read| - 1].Frame? && s.rx.read[|s.rx.read| - 1].message.Close?
    ensures forall i :: 0 <= i < |s.rx.read| - 1 ==> !EndsReading(s.rx.read[i])
    ensures Delivered(s) == Flat(DataOf, s.rx.read)
  {
    hide Sequences.Flat;
    assert Placed(s) == Delivered(s);
  }

  lemma NoCloseInFront(events: seq<StreamEvent>)
    requires forall i :: 0 <= i < |events| ==> !EndsReading(events[i])
    ensures !Stops(IsClose(), Flat(FrameOf, events))
  {
    hide Sequences.Flat;
    var frames := Flat(FrameOf, events);
    forall i | 0 <= i < |frames|
      ensures !IsClose()(frames[i])
    {
      var e := FlatSource(FrameOf, events, frames[i]);
    }
  }

  /**
   A graceful exchange, whatever the keepalive and the schedule of the two processes: the frames
   delivered are exactly the echoes of what the client wrote before the first frame that asked the
   server to close.
   */
  lemma GracefulExchange(c: Config, parse: Parser, steps: seq<SystemStep>)
    requires Outcome(RunSystem(c, parse, steps).client.phase) == Closed
    ensures var s := RunSystem(c, parse, steps).client;
            && Stops(SentAsks(parse), s.wire)
            && Delivered(s) == Flat(EchoSent(parse), Until(SentAsks(parse), s.wire))
  {
    hide Sequences.Flat, RunSystem, Inv, Stops, Delivered;
    var y := RunSystem(c, parse, steps);
    SystemReachable(c, parse, steps);
    ExchangeReachable(c, parse, steps);
    DeliveredIsBeforeClose(c, y);
    var wire := y.client.wire;
    assert wire == wire[..y.heard] + wire[y.heard..];
    StopsConcat(SentAsks(parse), wire[..y.heard], wire[y.heard..]);
    UntilStops(SentAsks(parse), wire[..y.heard], wire[y.heard..]);
  }

  /** The keepalive asks neither for an echo nor for a Close; the default Ping does not. */
  ghost predicate QuietKeepalive(c: Config, parse: Parser) {
    SilentKeepalive(c, parse) && !AsksToClose(parse, KeepaliveFrame(c))
  }

  /** The first frame on the wire that asks for a Close is a user's, so the payloads show it too. */
  lemma {:induction false} FirstAskIsUsers(c: Config, parse: Parser, wire: seq<Sent>)
    requires QuietKeepalive(c, parse) && ReplyInv(parse, wire) && Stops(SentAsks(parse), wire)
    requires forall i :: 0 <= i < |wire| ==> FaithfulWrite(c, wire[i])
    ensures Stops(PayloadAsks(parse), Flat(UserOf, wire))
    ensures Flat(UserOf, Until(SentAsks(parse), wire)) == Until(PayloadAsks(parse), Flat(UserOf, wire))
  {
    hide Sequences.Flat, Stops;
    assert wire != [] by { StopsNot(SentAsks(parse)); }
    var first, tail := wire[0], wire[1..];
    assert wire == [first] + tail;
    FlatConcat(UserOf, [first], tail);
    FlatSingle(UserOf, first);
    StopsConcat(PayloadAsks(parse), UserOf(first), Flat(UserOf, tail));
    assert FaithfulWrite(c, first);
    if SentAsks(parse)(first) {
      assert !first.origin.CloseReply? by { StopsNot(SentAsks(parse)); }
      StopsSingle(PayloadAsks(parse), first.origin.payload);
      FlatNothing(UserOf, Until(SentAsks(parse), wire));
    } else {
      StopsConcat(SentAsks(parse), [first], tail);
      StopsSingle(SentAsks(parse), first);
      TailReplies(parse, first, tail);
      FirstAskIsUsers(c, parse, tail);
      FlatConcat(UserOf, [first], Until(SentAsks(parse), tail));
      QuietHead(parse, first);
      UntilGoesOn(PayloadAsks(parse), UserOf(first), Flat(UserOf, tail));
    }
  }

  lemma TailReplies(parse: Parser, first: Sent, tail: seq<Sent>)
    requires ReplyInv(parse, [first] + tail) && !SentAsks(parse)(first)
    ensures ReplyInv(parse, tail)
  {
    hide Stops;
    var wire := [first] + tail;
    StopsSingle(SentAsks(parse), first);
    forall i | 0 <= i < |tail| && tail[i].origin.CloseReply?
      ensures Stops(SentAsks(parse), tail[..i])
    {
      assert wire[i + 1] == tail[i] && wire[..i + 1] == [first] + tail[..i];
      StopsConcat(SentAsks(parse), [first], tail[..i]);
    }
  }

  lemma QuietHead(parse: Parser, first: Sent)
    requires !SentAsks(parse)(first) && (first.origin.User? ==> first.message == first.origin.payload.message)
    ensures !Stops(PayloadAsks(parse), UserOf(first))
  {
  }

  /**
   End to end, over any number of senders: unless the keepalive itself talks to the server, a
   connection that ended Closed has delivered exactly the echoes of the payloads accepted before
   the first one that asked the server to close, and a consumer that drained it has them all.
   */
  lemma GracefulExchangeIsExact(c: Config, parse: Parser, steps: seq<SystemStep>)
    requires QuietKeepalive(c, parse) && Outcome(RunSystem(c, parse, steps).client.phase) == Closed
    ensures var s := RunSystem(c, parse, steps).client;
            var echoes := Flat(EchoPayload(parse), Until(PayloadAsks(parse), s.tx.accepted));
            && Stops(PayloadAsks(parse), s.tx.accepted)
            && Delivered(s) == echoes
            && (Drained(s) ==> s.rx.consumed == echoes)
  {
    hide Sequences.Flat, RunSystem, Inv, Stops, ReplyInv;
    var s := RunSystem(c, parse, steps).client;
    GracefulExchange(c, parse, steps);
    SystemReachable(c, parse, steps);
    ExchangeReachable(c, parse, steps);
    ClientShape(c, s);
    NotAbandonedYet(c, s);
    FirstAskIsUsers(c, parse, s.wire);
    WireAsksForUsers(c, parse, Until(SentAsks(parse), s.wire));
    StopsConcat(PayloadAsks(parse), Flat(UserOf, s.wire), Unwritten(s));
    UntilStops(PayloadAsks(parse), Flat(UserOf, s.wire), Unwritten(s));
  }

  lemma NotAbandonedYet(c: Config, s: Conn)
    requires Inv(c, s)
    ensures s.rx.receiver ==> s.rx.abandoned == []
  {
  }

  // ----- both ends do meet

  function StepThrice(c: Config, parse: Parser, y: System, a: SystemStep, b: SystemStep, d: SystemStep): System {
    StepSystem(c, parse, StepSystem(c, parse, StepSystem(c, parse, y, a), b), d)
  }

  lemma RunOneMore(c: Config, parse: Parser, steps: seq<SystemStep>, step: SystemStep)
    ensures RunSystem(c, parse, steps + [step]) == StepSystem(c, parse, RunSystem(c, parse, steps), step)
  {
    hide StepSystem;
    assert (steps + [step])[..|steps|] == steps;
  }

  lemma RunThreeMore(
    c: Config, parse: Parser, steps: seq<SystemStep>, a: SystemStep, b: SystemStep, d: SystemStep)
    ensures RunSystem(c, parse, steps + [a, b, d]) == StepThrice(c, parse, RunSystem(c, parse, steps), a, b, d)
  {
    hide StepSystem, RunSystem;
    RunOneMore(c, parse, steps, a);
    RunOneMore(c, parse, steps + [a], b);
    RunOneMore(c, parse, steps + [a] + [b], d);
    assert steps + [a, b, d] == steps + [a] + [b] + [d];
  }

  /** The client asks to close, and its frame is on the wire. */
  lemma CloseIsSent(c: Config, parse: Parser)
    requires c.capacity > 0
    ensures var y := StepThrice(c, parse, Start(), ClientStep(Enqueue(CLOSE_REQUEST, true)), ClientStep(Dequeue),
                                ClientStep(WriteUser(Ok(()))));
            && y.client.phase == Answering(Payload(0, CLOSE_REQUEST, true), Ok(())) && 0 in y.client.tx.waiting
            && y.client.wire == [Sent(CLOSE_REQUEST, User(Payload(0, CLOSE_REQUEST, true)), 0)]
            && y.client.rx == Init([]).rx && y.client.terminal == Terminal(None, []) && y.server == Start().server
            && y.heard == 0
  {
    hide Receive, Written;
  }

  /** The caller is answered; the server hears the Close and answers it. */
  lemma CloseIsHeard(c: Config, parse: Parser, y: System)
    requires y.client.phase == Answering(Payload(0, CLOSE_REQUEST, true), Ok(())) && 0 in y.client.tx.waiting
    requires y.client.wire == [Sent(CLOSE_REQUEST, User(Payload(0, CLOSE_REQUEST, true)), 0)]
    requires y.client.rx == Init([]).rx && y.client.terminal == Terminal(None, [])
    requires y.server == Server(Reading, false, []) && y.heard == 0
    ensures var z := StepThrice(c, parse, y, ClientStep(Answer), ServerHears, ServerWrites(true));
            && z.client.phase.Select? && 0 in z.client.tx.answers && z.client.tx.answers[0] == Ok(())
            && z.client.rx == Init([]).rx && z.client.terminal == Terminal(None, [])
            && z.server.out == [Close(None)]
  {
  }

  lemma CloseIsRead(c: Config, parse: Parser, y: System)
    requires y.client.phase.Select? && 0 in y.client.tx.answers && y.client.tx.answers[0] == Ok(())
    requires y.client.rx == Init([]).rx && y.client.terminal == Terminal(None, [])
    requires y.server.out == [Close(None)]
    ensures var z := StepThrice(c, parse, y, NetworkDelivers, ClientStep(ReadEvent), ClientStep(CloseSink(Ok(()))));
            && z.client.phase == Left(Closed) && z.client.terminal == Terminal(None, [])
            && 0 in z.client.tx.answers && z.client.tx.answers[0] == Ok(())
  {
    hide Receive, Written;
  }

  lemma LoopExits(c: Config, parse: Parser, y: System)
    requires y.client.phase == Left(Closed) && y.client.terminal == Terminal(None, [])
    requires 0 in y.client.tx.answers && y.client.tx.answers[0] == Ok(())
    ensures var z := StepThrice(c, parse, y, ClientStep(Record), ClientStep(DropRxSender), ClientStep(DropTxReceiver));
            && z.client.phase == Finished(Closed)
            && CloseConnectionResult(z.client, Some(0)) == Some(Ok(()))
  {
    hide Receive, Written;
  }

  /**
   A graceful close does happen: for every capacity above zero there is a run in which the client's
   close request crosses the wire, the server answers it with its own Close, the loop ends Closed and
   `close_connection` returns Ok.
   */
  lemma GracefulCloseHappens(c: Config, parse: Parser)
    requires c.capacity > 0
    ensures exists steps :: var s := RunSystem(c, parse, steps).client;
              s.phase == Finished(Closed) && CloseConnectionResult(s, Some(0)) == Some(Ok(()))
  {
    hide StepThrice, CloseConnectionResult;
    var send := [ClientStep(Enqueue(CLOSE_REQUEST, true)), ClientStep(Dequeue), ClientStep(WriteUser(Ok(())))];
    var heard := send + [ClientStep(Answer), ServerHears, ServerWrites(true)];
    var read := heard + [NetworkDelivers, ClientStep(ReadEvent), ClientStep(CloseSink(Ok(())))];
    var steps := read + [ClientStep(Record), ClientStep(DropRxSender), ClientStep(DropTxReceiver)];
    assert [] + send == send;
    RunThreeMore(c, parse, [], send[0], send[1], send[2]);
    CloseIsSent(c, parse);
    RunThreeMore(c, parse, send, ClientStep(Answer), ServerHears, ServerWrites(true));
    CloseIsHeard(c, parse, RunSystem(c, parse, send));
    RunThreeMore(c, parse, heard, NetworkDelivers, ClientStep(ReadEvent), ClientStep(CloseSink(Ok(()))));
    CloseIsRead(c, parse, RunSystem(c, parse, heard));
    RunThreeMore(c, parse, read, ClientStep(Record), ClientStep(DropRxSender), ClientStep(DropTxReceiver));
    LoopExits(c, parse, RunSystem(c, parse, read));
    assert RunSystem(c, parse, steps).client.phase == Finished(Closed);
  }
}
