/** The mock server's `echo_server`: its transitions as functions, and its loop proved against them. */
module EchoServer {
  import opened Messages
  import opened Sequences

  datatype ControlMessage = EchoText(text: string) | SendPing | CloseSocket | Abort

  /** The decoding of a control message from a text frame; None makes the server panic. */
  type Parser = string -> Option<ControlMessage>

  /** Where the server's task stands; Gone covers a return, an error and a panic. */
  datatype ServerPhase = Reading | Replying(frame: Message) | Closing | Gone

  datatype Server = Server(phase: ServerPhase, shuttingDown: bool, out: seq<Message>)

  const SERVER_CLOSE: Message := Close(Some(CloseFrame(1000, "")))

  predicate IsEchoed(parse: Parser, m: Message) {
    m.Text? && parse(m.text).Some? && parse(m.text).value.EchoText?
  }

  predicate IsCloseRequest(parse: Parser, m: Message) {
    m.Text? && parse(m.text).Some? && parse(m.text).value.CloseSocket?
  }

  predicate IsAbort(parse: Parser, m: Message) {
    m.Text? && parse(m.text).Some? && parse(m.text).value.Abort?
  }

  /** The frame the server owes for an incoming message, if that message asks for an echo. */
  function Echo(parse: Parser): Message -> seq<Message> {
    (m: Message) => if IsEchoed(parse, m) then [m] else []
  }

  /** The data frames among the server's own writes. */
  function DataFrame(m: Message): seq<Message> {
    if IsData(m) then [m] else []
  }

  /** One arm of the server's match on a message it has just read. */
  function Receive(parse: Parser, v: Server, m: Message): Server
    requires v.phase.Reading?
  {
    match m
    case Text(t) =>
      (match parse(t)
       case None => v.(phase := Gone)
       case Some(EchoText(_)) => v.(phase := Replying(m))
       case Some(SendPing) => v.(phase := Replying(Ping([])))
       case Some(CloseSocket) => v.(phase := Replying(SERVER_CLOSE))
       case Some(Abort) => v.(phase := Gone))
    case Ping(_) => v.(phase := Replying(Pong([])))
    case Close(_) => v.(phase := if v.shuttingDown then Gone else Closing)
    case _ => v
  }

  /** The end of the write that follows; a failure ends the server. */
  function Written(v: Server, ok: bool): Server
    requires v.phase.Replying? || v.phase.Closing?
  {
    if !ok then v.(phase := Gone)
    else if v.phase.Closing? then v.(phase := Gone, out := v.out + [Close(None)])
    else
      v.(phase := Reading, out := v.out + [v.phase.frame],
         shuttingDown := v.shuttingDown || v.phase.frame == SERVER_CLOSE)
  }

  /** What the server still owes. */
  function Owing(v: Server): seq<Message> {
    if v.phase.Replying? then DataFrame(v.phase.frame) else []
  }

  /** Reading a message adds its echo to what is owed, unless it ends the server. */
  lemma ReceiveOwes(parse: Parser, v: Server, m: Message)
    requires v.phase.Reading?
    ensures var t := Receive(parse, v, m);
            && t.out == v.out
            && (t.phase.Gone? || Owing(t) == Echo(parse)(m))
  {
  }

  lemma WrittenPays(v: Server, ok: bool)
    requires v.phase.Replying? || v.phase.Closing?
    ensures var t := Written(v, ok);
            && Flat(DataFrame, t.out) + Owing(t) ==
               (if ok then Flat(DataFrame, v.out) + Owing(v) else Flat(DataFrame, v.out))
  {
    hide Sequences.Flat;
    var t := Written(v, ok);
    if ok {
      FlatAppend(DataFrame, v.out, t.out[|v.out|]);
    }
  }

  // ----- the loop

  /** The server after hearing some messages, with the results of the writes they caused. */
  function Run(parse: Parser, heard: seq<Message>, writes: seq<bool>): (v: Server)
    requires |heard| <= |writes|
    ensures v.phase.Reading? || v.phase.Gone?
  {
    if |heard| == 0 then Server(Reading, false, [])
    else
      var n := |heard| - 1;
      var v := Run(parse, heard[..n], writes);
      if v.phase.Gone? then v else Turn(parse, v, heard[n], writes[n])
  }

  /** One message from hearing it to having served it. */
  function Turn(parse: Parser, v: Server, m: Message, ok: bool): (t: Server)
    requires v.phase.Reading?
    ensures t.phase.Reading? || t.phase.Gone?
  {
    var u := Receive(parse, v, m);
    if u.phase.Reading? || u.phase.Gone? then u else Written(u, ok)
  }

  lemma RunAppend(parse: Parser, heard: seq<Message>, m: Message, writes: seq<bool>)
    requires |heard| < |writes| && Run(parse, heard, writes).phase.Reading?
    ensures Run(parse, heard + [m], writes) == Turn(parse, Run(parse, heard, writes), m, writes[|heard|])
  {
    assert (heard + [m])[..|heard|] == heard;
  }

  /**
   While the server runs it has echoed exactly the messages that asked for it, in order; whatever
   ends it, the data it ever sent is a prefix of that.
   */
  lemma {:induction false} RunEchoes(parse: Parser, heard: seq<Message>, writes: seq<bool>)
    requires |heard| <= |writes|
    ensures var v := Run(parse, heard, writes);
            && Flat(DataFrame, v.out) <= Flat(Echo(parse), heard)
            && (v.phase.Reading? ==> Flat(DataFrame, v.out) == Flat(Echo(parse), heard))
  {
    hide Sequences.Flat;
    if |heard| == 0 {
      FlatNothing(DataFrame, []);
      FlatNothing(Echo(parse), heard);
    } else {
      var n := |heard| - 1;
      RunEchoes(parse, heard[..n], writes);
      assert heard == heard[..n] + [heard[n]];
      FlatAppend(Echo(parse), heard[..n], heard[n]);
      var v := Run(parse, heard[..n], writes);
      if v.phase.Reading? {
        ReceiveOwes(parse, v, heard[n]);
        var u := Receive(parse, v, heard[n]);
        if u.phase.Replying? || u.phase.Closing? {
          WrittenPays(u, writes[n]);
        }
      }
    }
  }

  predicate HasClose(out: seq<Message>) {
    exists i :: 0 <= i < |out| && out[i].Close?
  }

  /** A server that is shutting down has written its Close. */
  lemma {:induction false} ShuttingDownClosed(parse: Parser, heard: seq<Message>, writes: seq<bool>)
    requires |heard| <= |writes|
    ensures var v := Run(parse, heard, writes); v.shuttingDown ==> HasClose(v.out)
  {
    if |heard| != 0 {
      var n := |heard| - 1;
      ShuttingDownClosed(parse, heard[..n], writes);
      var v := Run(parse, heard[..n], writes);
      if v.phase.Reading? {
        hide Run;
        TurnKeepsClose(parse, v, heard[n], writes[n]);
      }
    }
  }

  lemma TurnKeepsClose(parse: Parser, v: Server, m: Message, ok: bool)
    requires v.phase.Reading? && (v.shuttingDown ==> HasClose(v.out))
    ensures var t := Turn(parse, v, m, ok);
            && v.out <= t.out && (t.shuttingDown ==> HasClose(t.out))
            && (m.Close? && (ok || v.shuttingDown) ==> HasClose(t.out))
  {
    var t := Turn(parse, v, m, ok);
    if |t.out| > |v.out| {
      assert t.out[|v.out|] == t.out[|t.out| - 1];
    }
    if HasClose(v.out) {
      var i :| 0 <= i < |v.out| && v.out[i].Close?;
      assert t.out[i].Close?;
    }
  }

  /** What was written stays written, whatever is heard afterwards. */
  lemma {:induction false} OutGrows(parse: Parser, heard: seq<Message>, writes: seq<bool>, n: nat)
    requires n <= |heard| <= |writes|
    ensures Run(parse, heard[..n], writes).out <= Run(parse, heard, writes).out
  {
    if n == |heard| {
      assert heard[..n] == heard;
    } else {
      var last := |heard| - 1;
      OutGrows(parse, heard[..last], writes, n);
      assert heard[..last][..n] == heard[..n];
      var v := Run(parse, heard[..last], writes);
      ShuttingDownClosed(parse, heard[..last], writes);
      if v.phase.Reading? {
        TurnKeepsClose(parse, v, heard[last], writes[last]);
      }
    }
  }

  /**
   The client's Close is answered: if the server was still reading when it heard a Close and its
   write succeeded, or it was shutting down already, there is a Close in its output.
   */
  lemma CloseIsAnswered(parse: Parser, heard: seq<Message>, writes: seq<bool>, n: nat)
    requires n < |heard| <= |writes|
    requires heard[n].Close? && Run(parse, heard[..n], writes).phase.Reading?
    requires writes[n] || Run(parse, heard[..n], writes).shuttingDown
    ensures HasClose(Run(parse, heard, writes).out)
  {
    hide Turn;
    var v := Run(parse, heard[..n], writes);
    assert heard[..n + 1] == heard[..n] + [heard[n]];
    RunAppend(parse, heard[..n], heard[n], writes);
    ShuttingDownClosed(parse, heard[..n], writes);
    TurnKeepsClose(parse, v, heard[n], writes[n]);
    OutGrows(parse, heard, writes, n + 1);
    var out, all := Run(parse, heard[..n + 1], writes).out, Run(parse, heard, writes).out;
    var i :| 0 <= i < |out| && out[i].Close?;
    assert all[i].Close?;
  }

  /** How the server's task ended; StillRunning when the given writes are used up. */
  datatype Exit = Returned(shuttingDown: bool) | SendFailed | Panicked | StillRunning

  function FrameOf(e: StreamEvent): seq<Message> {
    if e.Frame? then [e.message] else []
  }

  /** How the task ends on a message, given the result of its write; None if it does not. */
  function Ending(parse: Parser, shuttingDown: bool, m: Message, ok: bool): Option<Exit> {
    if IsAbort(parse, m) then Some(Returned(true))
    else if m.Close? && (shuttingDown || ok) then Some(Returned(shuttingDown))
    else if m.Text? && parse(m.text).None? then Some(Panicked)
    else if ok || !(m.Text? || m.Ping? || m.Close?) then None
    else Some(if m.Text? then SendFailed else Panicked)
  }

  /** A request after which the server says that it was shutting down. */
  function Stopping(parse: Parser): Message -> bool {
    (m: Message) => IsCloseRequest(parse, m) || IsAbort(parse, m)
  }

  lemma StoppingAppend(parse: Parser, heard: seq<Message>, m: Message)
    ensures Stops(Stopping(parse), heard + [m]) <==>
              Stops(Stopping(parse), heard) || IsCloseRequest(parse, m) || IsAbort(parse, m)
  {
    StopsConcat(Stopping(parse), heard, [m]);
    StopsSingle(Stopping(parse), m);
  }

  /** A returned verdict is true exactly if the server was already shutting down or this message aborts. */
  lemma EndingReturns(parse: Parser, shuttingDown: bool, m: Message, ok: bool)
    ensures var e := Ending(parse, shuttingDown, m, ok);
            && (e.Some? ==> !e.value.StillRunning?)
            && (e.Some? && e.value.Returned? ==>
                  (e.value.shuttingDown <==> shuttingDown || IsAbort(parse, m)) && !IsCloseRequest(parse, m))
            && (e.None? ==> !IsAbort(parse, m))
  {
  }

  class EchoTask {
    const parse: Parser
    var stream: seq<StreamEvent>
    var sink: seq<Message>
    ghost var heard: seq<Message>

    constructor (parse: Parser, stream: seq<StreamEvent>)
      ensures this.parse == parse && this.stream == stream && sink == [] && heard == []
    {
      this.parse, this.stream := parse, stream;
      sink, heard := [], [];
    }

    /** One write, whose result the environment decides. */
    method Send(m: Message, ok: bool)
      modifies this`sink
      ensures sink == if ok then old(sink) + [m] else old(sink)
    {
      if ok {
        sink := sink + [m];
      }
    }

    /**
     `echo_server` on a finite input, one write result for each message heard. It returns true if
     and only if it was asked to close or to abort; otherwise it ends as its last message says.
     */
    method Serve(writes: seq<bool>) returns (exit: Exit)
      requires sink == [] && heard == []
      modifies this
      ensures |heard| <= |writes|
      ensures exists k :: 0 <= k <= |old(stream)| && stream == old(stream)[k..]
                          && heard == Flat(FrameOf, old(stream)[..k])
      ensures sink == Run(parse, heard, writes).out
      ensures exit.StillRunning? ==> Run(parse, heard, writes).phase.Reading? && |heard| == |writes| && stream != []
      ensures exit.Returned? ==> (exit.shuttingDown <==> Stops(Stopping(parse), heard))
      ensures if Run(parse, heard, writes).phase.Reading? then
                exit.StillRunning? || (exit.Returned? && (stream == [] || stream[0].End?))
              else
                var n := |heard| - 1;
                && n >= 0 && Run(parse, heard[..n], writes).phase.Reading?
                && Ending(parse, Run(parse, heard[..n], writes).shuttingDown, heard[n], writes[n]) == Some(exit)
    {
      hide Sequences.Flat, Turn, Stops, Ending;
      var shuttingDown := false;
      var n, k := 0, 0;
      var input := stream;
      FlatNothing(FrameOf, []);
      assert !Stops(Stopping(parse), heard) by { StopsNot(Stopping(parse)); }
      while true
        invariant 0 <= k <= |input| && stream == input[k..] && heard == Flat(FrameOf, input[..k])
        invariant n == |heard| <= |writes|
        invariant Run(parse, heard, writes) == Server(Reading, shuttingDown, sink)
        invariant shuttingDown <==> Stops(Stopping(parse), heard)
        decreases |stream|
      {
        if stream == [] || stream[0].End? {
          return Returned(shuttingDown);
        }
        if n >= |writes| {
          return StillRunning;
        }
        var event := stream[0];
        assert input[..k + 1] == input[..k] + [event];
        FlatAppend(FrameOf, input[..k], event);
        stream, k := stream[1..], k + 1;
        if event.Frame? {
          var message, ok := event.message, writes[n];
          RunAppend(parse, heard, message, writes);
          StoppingAppend(parse, heard, message);
          EndingReturns(parse, shuttingDown, message, ok);
          assert (heard + [message])[..n] == heard;
          heard, n := heard + [message], n + 1;
          var ended := Respond(message, ok, shuttingDown);
          if ended.Some? {
            return ended.value;
          }
          shuttingDown := shuttingDown || IsCloseRequest(parse, message);
        }
      }
    }

    /** The body of the server's loop for one message; None goes round. */
    method Respond(message: Message, ok: bool, shuttingDown: bool) returns (ended: Option<Exit>)
      modifies this`sink
      ensures ended == Ending(parse, shuttingDown, message, ok)
      ensures !ok ==> sink == old(sink)
      ensures ok ==>
                match message
                case Text(t) =>
                  (match parse(t)
                   case Some(EchoText(_)) => sink == old(sink) + [message]
                   case Some(SendPing) => sink == old(sink) + [Ping([])]
                   case Some(CloseSocket) => sink == old(sink) + [Close(Some(CloseFrame(1000, "")))]
                   case Some(Abort) => sink == old(sink)
                   case None => sink == old(sink))
                case Ping(_) => sink == old(sink) + [Pong([])]
                case Close(_) => sink == old(sink) + if shuttingDown then [] else [Close(None)]
                case _ => sink == old(sink)
      ensures var t := Turn(parse, Server(Reading, shuttingDown, old(sink)), message, ok);
              && sink == t.out
              && (if ended.None? then
                    t.phase.Reading? && t.shuttingDown == (shuttingDown || IsCloseRequest(parse, message))
                  else
                    t.phase.Gone?)
    {
      match message
      case Text(t) =>
        var control := parse(t);
        match control {
          case None => return Some(Panicked);
          case Some(EchoText(_)) => Send(message, ok);
          case Some(SendPing) => Send(Ping([]), ok);
          case Some(CloseSocket) => Send(SERVER_CLOSE, ok);
          case Some(Abort) => return Some(Returned(true));
        }
        ended := if ok then None else Some(SendFailed);
      case Ping(_) =>
        Send(Pong([]), ok);
        ended := if ok then None else Some(Panicked);
      case Close(_) =>
        if !shuttingDown {
          Send(Close(None), ok);
          if !ok {
            return Some(Panicked);
          }
        }
        ended := Some(Returned(shuttingDown));
      case _ =>
        ended := None;
    }
  }
}
