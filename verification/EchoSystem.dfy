/**
 The client composed with the echo server over two wires that keep order: what the consumer sees
 is what the senders asked to be echoed.

 The upstream wire is the part of the client's writes the server has not heard yet; the downstream
 wire is what the server has written and the network has not brought to the client yet. The network
 may stop at any moment, and may drop what a departed server had sent.
 */
module EchoSystem {
  import opened Messages
  import opened Sequences
  import opened Protocol
  import opened Outbound
  import opened Inbound
  import opened Reachability
  import opened ReceiveGuarantees
  import opened EchoServer

  /** `heard` counts the client's writes that the server has read; server.out is the downstream wire. */
  datatype System = System(client: Conn, server: Server, heard: nat)

  datatype SystemStep =
    | ClientStep(action: Action)   // any step of the client, its handles and the clock
    | ServerHears                  // the server reads the next frame of the upstream wire
    | ServerWrites(ok: bool)
    | ServerEnds                   // its stream ends, or it panics elsewhere
    | NetworkDelivers              // the first downstream frame reaches the client's socket
    | NetworkFails(event: StreamEvent) // the client's stream fails or ends
    | NetworkDrops(kept: nat)      // a reset discards downstream frames of a server that is gone

  function Start(): System {
    System(Init([]), Server(Reading, false, []), 0)
  }

  function StepSystem(c: Config, parse: Parser, y: System, step: SystemStep): System {
    match step
    case ClientStep(a) =>
      if a.Arrive? then y else y.(client := Step(c, y.client, a))
    case ServerHears =>
      if y.server.phase.Reading? && y.heard < |y.client.wire| then
        y.(server := Receive(parse, y.server, y.client.wire[y.heard].message), heard := y.heard + 1)
      else y
    case ServerWrites(ok) =>
      if y.server.phase.Replying? || y.server.phase.Closing? then y.(server := Written(y.server, ok)) else y
    case ServerEnds => y.(server := y.server.(phase := Gone))
    case NetworkDelivers =>
      if y.server.out == [] then y
      else
        y.(client := Step(c, y.client, Arrive(Frame(y.server.out[0]))),
           server := y.server.(out := y.server.out[1..]))
    case NetworkFails(e) =>
      if e.Frame? then y else y.(client := Step(c, y.client, Arrive(e)))
    case NetworkDrops(n) =>
      if y.server.phase.Gone? && n <= |y.server.out| then y.(server := y.server.(out := y.server.out[..n])) else y
  }

  function RunSystem(c: Config, parse: Parser, steps: seq<SystemStep>): System {
    if |steps| == 0 then Start()
    else StepSystem(c, parse, RunSystem(c, parse, steps[..|steps| - 1]), steps[|steps| - 1])
  }

  // ----- projections

  /** The echo that a frame on the wire asks for. */
  function EchoSent(parse: Parser): Sent -> seq<Message> {
    (w: Sent) => Echo(parse)(w.message)
  }

  /** The echo that an accepted payload asks for. */
  function EchoPayload(parse: Parser): Payload -> seq<Message> {
    (p: Payload) => Echo(parse)(p.message)
  }

  /** Data on its way back: at the client, read or not, and on the downstream wire. */
  function Back(y: System): seq<Message> {
    Flat(DataOf, y.client.rx.read + y.client.rx.stream) + Flat(DataFrame, y.server.out)
  }

  /** The echoes asked for by what the server has heard. */
  function Asked(parse: Parser, y: System): seq<Message>
    requires y.heard <= |y.client.wire|
  {
    Flat(EchoSent(parse), y.client.wire[..y.heard])
  }

  /** While the server is there, nothing it heard is missing on the way back; afterwards a tail may be. */
  ghost predicate SystemInv(c: Config, parse: Parser, y: System) {
    && Inv(c, y.client)
    && y.heard <= |y.client.wire|
    && (if y.server.phase.Gone? then Back(y) <= Asked(parse, y)
        else Back(y) + Owing(y.server) == Asked(parse, y))
  }

  lemma ClientKeeps(c: Config, parse: Parser, y: System, a: Action)
    requires SystemInv(c, parse, y) && !a.Arrive?
    ensures SystemInv(c, parse, StepSystem(c, parse, y, ClientStep(a)))
  {
    hide Sequences.Flat, Inv, Protocol.Step;
    InvStep(c, y.client, a);
    ArrivalStep(c, y.client, a);
    GrowsStep(c, y.client, a);
    var t := Step(c, y.client, a);
    assert t.rx.read + t.rx.stream == y.client.rx.read + y.client.rx.stream;
    assert t.wire[..y.heard] == y.client.wire[..y.heard];
  }

  lemma HearKeeps(c: Config, parse: Parser, y: System)
    requires SystemInv(c, parse, y)
    ensures SystemInv(c, parse, StepSystem(c, parse, y, ServerHears))
  {
    hide Sequences.Flat, Inv, Receive;
    if y.server.phase.Reading? && y.heard < |y.client.wire| {
      var w := y.client.wire[y.heard];
      assert y.client.wire[..y.heard + 1] == y.client.wire[..y.heard] + [w];
      FlatAppend(EchoSent(parse), y.client.wire[..y.heard], w);
      ReceiveOwes(parse, y.server, w.message);
    }
  }

  lemma WriteKeeps(c: Config, parse: Parser, y: System, ok: bool)
    requires SystemInv(c, parse, y)
    ensures SystemInv(c, parse, StepSystem(c, parse, y, ServerWrites(ok)))
  {
    hide Sequences.Flat, Inv;
    if y.server.phase.Replying? || y.server.phase.Closing? {
      WrittenPays(y.server, ok);
      var t := Written(y.server, ok);
      var read := Flat(DataOf, y.client.rx.read + y.client.rx.stream);
      if ok {
        assert Flat(DataFrame, t.out) == Flat(DataFrame, y.server.out) + Owing(y.server);
        assert read + Flat(DataFrame, t.out) == Back(y) + Owing(y.server);
      } else {
        assert read + Flat(DataFrame, t.out) == Back(y);
      }
    }
  }

  lemma DeliverKeeps(c: Config, parse: Parser, y: System)
    requires SystemInv(c, parse, y)
    ensures SystemInv(c, parse, StepSystem(c, parse, y, NetworkDelivers))
  {
    hide Sequences.Flat, Inv, Protocol.Step;
    if y.server.out != [] {
      var m, rest := y.server.out[0], y.server.out[1..];
      var a := Arrive(Frame(m));
      InvStep(c, y.client, a);
      ArrivalKeepsRest(c, y.client, Frame(m));
      var t := Step(c, y.client, a);
      var before := y.client.rx.read + y.client.rx.stream;
      assert t.rx.read + t.rx.stream == before + [Frame(m)];
      FlatAppend(DataOf, before, Frame(m));
      assert y.server.out == [m] + rest;
      FlatConcat(DataFrame, [m], rest);
      FlatSingle(DataFrame, m);
      assert Back(StepSystem(c, parse, y, NetworkDelivers)) == Back(y);
    }
  }

  lemma ArrivalKeepsRest(c: Config, s: Conn, e: StreamEvent)
    ensures var t := Step(c, s, Arrive(e));
            t.wire == s.wire && t.rx.read == s.rx.read && t.rx.stream == s.rx.stream + [e]
  {
  }

  lemma FailKeeps(c: Config, parse: Parser, y: System, e: StreamEvent)
    requires SystemInv(c, parse, y) && !e.Frame?
    ensures SystemInv(c, parse, StepSystem(c, parse, y, NetworkFails(e)))
  {
    hide Sequences.Flat, Inv, Protocol.Step;
    InvStep(c, y.client, Arrive(e));
    ArrivalKeepsRest(c, y.client, e);
    var t := Step(c, y.client, Arrive(e));
    var before := y.client.rx.read + y.client.rx.stream;
    assert t.rx.read + t.rx.stream == before + [e];
    FlatAppend(DataOf, before, e);
    assert Back(StepSystem(c, parse, y, NetworkFails(e))) == Back(y);
  }

  lemma DropKeeps(c: Config, parse: Parser, y: System, n: nat)
    requires SystemInv(c, parse, y)
    ensures SystemInv(c, parse, StepSystem(c, parse, y, NetworkDrops(n)))
  {
    hide Sequences.Flat, Inv;
    if y.server.phase.Gone? && n <= |y.server.out| {
      FlatPrefix(DataFrame, y.server.out[..n], y.server.out);
    }
  }

  lemma SystemStepKeeps(c: Config, parse: Parser, y: System, step: SystemStep)
    requires SystemInv(c, parse, y)
    ensures SystemInv(c, parse, StepSystem(c, parse, y, step))
  {
    hide Sequences.Flat, Inv, Protocol.Step;
    match step
    case ClientStep(a) =>
      if !a.Arrive? { ClientKeeps(c, parse, y, a); }
    case ServerHears => HearKeeps(c, parse, y);
    case ServerWrites(ok) => WriteKeeps(c, parse, y, ok);
    case ServerEnds =>
    case NetworkDelivers => DeliverKeeps(c, parse, y);
    case NetworkFails(e) =>
      if !e.Frame? { FailKeeps(c, parse, y, e); }
    case NetworkDrops(n) => DropKeeps(c, parse, y, n);
  }

  lemma {:induction false} SystemReachable(c: Config, parse: Parser, steps: seq<SystemStep>)
    ensures SystemInv(c, parse, RunSystem(c, parse, steps))
  {
    hide SystemInv, StepSystem;
    if |steps| == 0 {
      StartHolds(c, parse);
    } else {
      SystemReachable(c, parse, steps[..|steps| - 1]);
      SystemStepKeeps(c, parse, RunSystem(c, parse, steps[..|steps| - 1]), steps[|steps| - 1]);
    }
  }

  lemma StartHolds(c: Config, parse: Parser)
    ensures SystemInv(c, parse, Start())
  {
    hide Inv;
    InvInit(c, []);
  }

  // ----- end to end

  /** The keepalive is not itself a request for an echo; the default Ping is not. */
  ghost predicate SilentKeepalive(c: Config, parse: Parser) {
    !IsEchoed(parse, KeepaliveFrame(c))
  }

  /** The loop's own frames ask for no echo, so the wire asks for what its user payloads ask for. */
  lemma {:induction false} WireAsksForUsers(c: Config, parse: Parser, wire: seq<Sent>)
    requires SilentKeepalive(c, parse)
    requires forall i :: 0 <= i < |wire| ==> FaithfulWrite(c, wire[i])
    ensures Flat(EchoSent(parse), wire) == Flat(EchoPayload(parse), Flat(UserOf, wire))
  {
    hide Sequences.Flat;
    if |wire| == 0 {
      FlatNothing(EchoSent(parse), wire);
      FlatNothing(UserOf, wire);
      FlatNothing(EchoPayload(parse), Flat(UserOf, wire));
    } else {
      var front, last := wire[..|wire| - 1], wire[|wire| - 1];
      assert wire == front + [last];
      WireAsksForUsers(c, parse, front);
      FlatAppend(EchoSent(parse), front, last);
      FlatAppend(UserOf, front, last);
      assert FaithfulWrite(c, last);
      if last.origin.User? {
        assert EchoSent(parse)(last) == EchoPayload(parse)(last.origin.payload);
        FlatAppend(EchoPayload(parse), Flat(UserOf, front), last.origin.payload);
      } else {
        assert !IsEchoed(parse, last.message);
        assert Echo(parse)(last.message) == [];
        assert EchoSent(parse)(last) == [];
        assert Flat(UserOf, wire) == Flat(UserOf, front);
      }
    }
  }

  /**
   In every reachable state of the two processes, whatever was closed, aborted, reset or lost, and
   whatever the keepalive: the consumer has seen a prefix of the echoes that the client's own
   writes asked for, in the order of the wire.
   */
  lemma ConsumedIsWireEcho(c: Config, parse: Parser, steps: seq<SystemStep>)
    ensures var s := RunSystem(c, parse, steps).client;
            s.rx.consumed <= Flat(EchoSent(parse), s.wire)
  {
    hide Sequences.Flat, RunSystem, Inv;
    var y := RunSystem(c, parse, steps);
    var s := y.client;
    SystemReachable(c, parse, steps);
    ClientShape(c, s);
    FlatPrefix(DataOf, s.rx.read, s.rx.read + s.rx.stream);
    assert s.rx.consumed <= Back(y);
    assert Back(y) <= Asked(parse, y);
    FlatPrefix(EchoSent(parse), s.wire[..y.heard], s.wire);
  }

  /**
   So, unless the keepalive is itself a request for an echo, the consumer has seen a prefix of the
   echoes of the accepted payloads, in order of acceptance, from whichever senders they came.
   */
  lemma ConsumedIsEchoPrefix(c: Config, parse: Parser, steps: seq<SystemStep>)
    requires SilentKeepalive(c, parse)
    ensures var s := RunSystem(c, parse, steps).client;
            s.rx.consumed <= Flat(EchoPayload(parse), s.tx.accepted)
  {
    hide Sequences.Flat, RunSystem, Inv;
    var s := RunSystem(c, parse, steps).client;
    ConsumedIsWireEcho(c, parse, steps);
    SystemReachable(c, parse, steps);
    ClientShape(c, s);
    WireAsksForUsers(c, parse, s.wire);
    FlatPrefix(EchoPayload(parse), Flat(UserOf, s.wire), s.tx.accepted);
  }

  lemma ClientShape(c: Config, s: Conn)
    requires Inv(c, s)
    ensures s.rx.consumed <= Flat(DataOf, s.rx.read)
    ensures Flat(UserOf, s.wire) <= s.tx.accepted
    ensures forall i :: 0 <= i < |s.wire| ==> FaithfulWrite(c, s.wire[i])
    ensures Flat(DataOf, s.rx.read) == Placed(s)
    ensures s.tx.accepted == Flat(UserOf, s.wire) + Unwritten(s)
    ensures InLoop(s.phase) ==> s.rx.lost == []
    ensures s.tx.discarded != [] ==> s.phase.Finished?
  {
    hide Sequences.Flat;
  }

  /** Everything between the sender's call and the consumer's, from the consumer back to the sender. */
  function Pipeline(parse: Parser, y: System): seq<Message>
    requires y.heard <= |y.client.wire|
  {
    var s, echo := y.client, EchoPayload(parse);
    s.rx.consumed + s.rx.queue + s.rx.abandoned + HeldFrame(s.rx.held) + Pending(s.phase)
    + Flat(DataOf, s.rx.stream) + Flat(DataFrame, y.server.out) + Owing(y.server)
    + Flat(EchoSent(parse), s.wire[y.heard..])
    + Flat(echo, Flat(FailedOf, s.tx.failed)) + Flat(echo, InFlight(s.phase)) + Flat(echo, s.tx.queue)
  }

  /**
   Conservation end to end: while both processes are running, everything accepted from any sender
   is, once and in order, consumed or at exactly one place of the pipeline, of which the queue that
   a consumer has left behind and the one payload whose write has just failed are two.
   */
  lemma PipelineIsComplete(c: Config, parse: Parser, steps: seq<SystemStep>)
    requires SilentKeepalive(c, parse)
    requires var y := RunSystem(c, parse, steps); InLoop(y.client.phase) && !y.server.phase.Gone?
    ensures var y := RunSystem(c, parse, steps);
            y.heard <= |y.client.wire| && Pipeline(parse, y) == Flat(EchoPayload(parse), y.client.tx.accepted)
  {
    hide Sequences.Flat, RunSystem, Inv;
    var y := RunSystem(c, parse, steps);
    SystemReachable(c, parse, steps);
    InboundHalf(c, parse, y);
    OutboundHalf(c, parse, y);
  }

  /** From the consumer to the server. */
  lemma InboundHalf(c: Config, parse: Parser, y: System)
    requires SystemInv(c, parse, y) && !y.server.phase.Gone? && InLoop(y.client.phase)
    ensures var s := y.client;
            s.rx.consumed + s.rx.queue + s.rx.abandoned + HeldFrame(s.rx.held) + Pending(s.phase)
            + Flat(DataOf, s.rx.stream) + Flat(DataFrame, y.server.out) + Owing(y.server) == Asked(parse, y)
  {
    hide Sequences.Flat, Inv;
    var s := y.client;
    ClientShape(c, s);
    FlatConcat(DataOf, s.rx.read, s.rx.stream);
    assert Placed(s) == s.rx.consumed + s.rx.queue + s.rx.abandoned + HeldFrame(s.rx.held) + Pending(s.phase);
  }

  /** From the server to the senders. */
  lemma OutboundHalf(c: Config, parse: Parser, y: System)
    requires SystemInv(c, parse, y) && SilentKeepalive(c, parse) && InLoop(y.client.phase)
    ensures var s, echo := y.client, EchoPayload(parse);
            Asked(parse, y) + Flat(EchoSent(parse), s.wire[y.heard..])
            + Flat(echo, Flat(FailedOf, s.tx.failed)) + Flat(echo, InFlight(s.phase)) + Flat(echo, s.tx.queue)
            == Flat(echo, s.tx.accepted)
  {
    hide Sequences.Flat, Inv;
    var s := y.client;
    var echo, users, failed := EchoPayload(parse), Flat(UserOf, s.wire), Flat(FailedOf, s.tx.failed);
    ClientShape(c, s);
    assert s.wire == s.wire[..y.heard] + s.wire[y.heard..];
    FlatConcat(EchoSent(parse), s.wire[..y.heard], s.wire[y.heard..]);
    WireAsksForUsers(c, parse, s.wire);
    assert s.tx.accepted == users + (failed + (InFlight(s.phase) + s.tx.queue));
    FlatConcat(echo, users, failed + (InFlight(s.phase) + s.tx.queue));
    FlatConcat(echo, failed, InFlight(s.phase) + s.tx.queue);
    FlatConcat(echo, InFlight(s.phase), s.tx.queue);
  }
}
