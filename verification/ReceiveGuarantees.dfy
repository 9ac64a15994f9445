/** What the consumer may rely on, over every schedule: no loss, order, bounded memory, cause last. */
module ReceiveGuarantees {
  import opened Messages
  import opened Sequences
  import opened Protocol
  import opened Outbound
  import opened Inbound
  import opened TerminalCause
  import opened Pings
  import opened Keepalive
  import opened Reachability

  // ----- conservation and memory

  /**
   The data frames read equal, in order, those consumed, queued, held back or about to be offered,
   up to at most one frame, lost only when the loop ended in an error; the frames that a consumer
   leaves behind by dropping its receiver are the only others.
   */
  lemma InboundConservation(c: Config, stream: seq<StreamEvent>, acts: seq<Action>)
    ensures var s := Exec(c, Init(stream), acts);
            && Flat(DataOf, s.rx.read) == Placed(s)
            && |s.rx.lost| <= 1 && (s.rx.lost != [] ==> Outcome(s.phase).Errored?)
            && (s.rx.receiver ==> s.rx.abandoned == [])
  {
    hide Placed;
    Reachable(c, stream, acts);
  }

  /** At most CHANNEL_SIZE + 1 inbound frames are inside the client, and at most CHANNEL_SIZE outgoing payloads wait. */
  lemma BoundedMemory(c: Config, stream: seq<StreamEvent>, acts: seq<Action>)
    ensures var s := Exec(c, Init(stream), acts);
            && |s.rx.queue| + |HeldFrame(s.rx.held)| + |Pending(s.phase)| <= c.capacity + 1
            && |s.tx.queue| <= c.capacity
  {
    Reachable(c, stream, acts);
  }

  /** While a frame is held, whatever is written meanwhile, nothing more is read and nothing overtakes it. */
  lemma {:induction false} FrozenReads(c: Config, s: Conn, acts: seq<Action>)
    requires Inv(c, s)
    requires forall n :: 0 <= n <= |acts| ==> Exec(c, s, acts[..n]).rx.held.Some?
    ensures var t := Exec(c, s, acts);
            && t.rx.read == s.rx.read && HeldFrame(t.rx.held) == HeldFrame(s.rx.held)
            && Delivered(t) == Delivered(s) && s.wire <= t.wire
  {
    hide Protocol.Step, Inv, Delivered;
    if |acts| == 0 {
      assert acts[..0] == acts;
    } else {
      var front := acts[..|acts| - 1];
      assert acts[..|acts|] == acts && front[..|front|] == front;
      forall n | 0 <= n <= |front|
        ensures Exec(c, s, front[..n]).rx.held.Some?
      {
        assert front[..n] == acts[..n];
      }
      FrozenReads(c, s, front);
      InvExec(c, s, front);
      HeldIsSuspended(c, Exec(c, s, front));
      HeldStep(c, Exec(c, s, front), acts[|acts| - 1]);
    }
  }

  lemma HeldIsSuspended(c: Config, s: Conn)
    requires Inv(c, s) && s.rx.held.Some?
    ensures InLoop(s.phase) && !s.phase.Handling?
    ensures if s.rx.receiver then s.rx.abandoned == [] else s.rx.queue == []
  {
  }

  lemma HeldStep(c: Config, s: Conn, a: Action)
    requires s.rx.held.Some? && Step(c, s, a).rx.held.Some? && !s.phase.Handling?
    requires if s.rx.receiver then s.rx.abandoned == [] else s.rx.queue == []
    ensures var t := Step(c, s, a);
            && t.rx.read == s.rx.read && HeldFrame(t.rx.held) == HeldFrame(s.rx.held)
            && Delivered(t) == Delivered(s) && s.wire <= t.wire
  {
    hide Protocol.LoopApply, Protocol.HandleApply, Delivered;
    if LoopEnabled(c, s, a) {
      HeldLoop(c, s, a);
    } else if HandleEnabled(c, s, a) {
      HeldHandle(c, s, a);
    }
  }

  lemma HeldLoop(c: Config, s: Conn, a: Action)
    requires s.rx.held.Some? && LoopEnabled(c, s, a) && LoopApply(c, s, a).rx.held.Some? && !s.phase.Handling?
    ensures var t := LoopApply(c, s, a); t.rx == s.rx && Delivered(t) == Delivered(s) && s.wire <= t.wire
  {
  }

  lemma HeldHandle(c: Config, s: Conn, a: Action)
    requires HandleEnabled(c, s, a)
    requires if s.rx.receiver then s.rx.abandoned == [] else s.rx.queue == []
    ensures var t := HandleApply(c, s, a);
            && t.rx.read == s.rx.read && HeldFrame(t.rx.held) == HeldFrame(s.rx.held)
            && Delivered(t) == Delivered(s) && s.wire == t.wire
  {
    if a.Consume? {
      assert s.rx.queue == [s.rx.queue[0]] + s.rx.queue[1..];
    }
  }

  // ----- completeness

  /** The server's events up to its Close, or up to an error or the end of the stream. */
  function DataBeforeEnd(events: seq<StreamEvent>): seq<Message> {
    if |events| == 0 || EndsReading(events[0]) then [] else DataOf(events[0]) + DataBeforeEnd(events[1..])
  }

  function ArrivalOf(a: Action): seq<StreamEvent> {
    if a.Arrive? then [a.event] else []
  }

  /** Everything the network brings to a connection over a schedule. */
  function Arrived(stream: seq<StreamEvent>, acts: seq<Action>): seq<StreamEvent> {
    stream + Flat(ArrivalOf, acts)
  }

  /** The loop reads the network's events from the first one on, without a gap or a repeat. */
  lemma {:induction false} ReadsAreArrivals(c: Config, stream: seq<StreamEvent>, acts: seq<Action>)
    ensures var s := Exec(c, Init(stream), acts); Arrived(stream, acts) == s.rx.read + s.rx.stream
  {
    hide Protocol.Step;
    if |acts| == 0 {
      assert Arrived(stream, acts) == stream;
    } else {
      var front, last := acts[..|acts| - 1], acts[|acts| - 1];
      var s := Exec(c, Init(stream), front);
      ReadsAreArrivals(c, stream, front);
      ArrivalStep(c, s, last);
      assert Arrived(stream, acts) == Arrived(stream, front) + ArrivalOf(last);
    }
  }

  lemma ArrivalStep(c: Config, s: Conn, a: Action)
    ensures var t := Step(c, s, a); t.rx.read + t.rx.stream == s.rx.read + s.rx.stream + ArrivalOf(a)
  {
    if a.ReadEvent? && LoopEnabled(c, s, a) {
      assert s.rx.stream == [s.rx.stream[0]] + s.rx.stream[1..];
    }
  }

  /** Reading stops at the first event that ends it, so the frames read are those before the end. */
  lemma {:induction false} ReadDataIsBeforeEnd(read: seq<StreamEvent>, rest: seq<StreamEvent>)
    requires forall i :: 0 <= i < |read| - 1 ==> !EndsReading(read[i])
    ensures Flat(DataOf, read) <= DataBeforeEnd(read + rest)
    ensures read != [] && EndsReading(read[|read| - 1]) ==> Flat(DataOf, read) == DataBeforeEnd(read + rest)
  {
    hide Sequences.Flat;
    if read == [] {
      FlatNothing(DataOf, read);
    } else {
      var first, tail := read[0], read[1..];
      assert read == [first] + tail;
      FlatConcat(DataOf, [first], tail);
      FlatSingle(DataOf, first);
      if EndsReading(first) {
        assert tail == [];
        FlatNothing(DataOf, tail);
      } else {
        ReadDataIsBeforeEnd(tail, rest);
        assert (read + rest)[1..] == tail + rest;
      }
    }
  }

  /** In every reachable state the consumer has seen a prefix of the frames before the end. */
  lemma ConsumedIsPrefix(c: Config, stream: seq<StreamEvent>, acts: seq<Action>)
    ensures Exec(c, Init(stream), acts).rx.consumed <= DataBeforeEnd(Arrived(stream, acts))
  {
    hide Sequences.Flat, Arrived;
    var s := Exec(c, Init(stream), acts);
    Reachable(c, stream, acts);
    ReadsAreArrivals(c, stream, acts);
    ReadDataIsBeforeEnd(s.rx.read, s.rx.stream);
    assert s.rx.consumed <= Flat(DataOf, s.rx.read);
  }

  /**
   A graceful end is complete: it follows the peer's Close, nothing is lost or held, no cause is
   recorded, and what was delivered is exactly the frames before the Close.
   */
  lemma GracefulEndIsComplete(c: Config, stream: seq<StreamEvent>, acts: seq<Action>)
    requires Outcome(Exec(c, Init(stream), acts).phase) == Closed
    ensures var s := Exec(c, Init(stream), acts);
            && s.rx.lost == [] && s.rx.held == None && s.terminal.slot == None
            && (forall t :: t in s.terminal.takes ==> t.cause == None)
            && s.rx.read != [] && s.rx.read[|s.rx.read| - 1].Frame? && s.rx.read[|s.rx.read| - 1].message.Close?
            && Delivered(s) == DataBeforeEnd(Arrived(stream, acts))
  {
    hide Sequences.Flat, Arrived;
    var s := Exec(c, Init(stream), acts);
    Reachable(c, stream, acts);
    ReadsAreArrivals(c, stream, acts);
    ReadDataIsBeforeEnd(s.rx.read, s.rx.stream);
    assert Placed(s) == Delivered(s);
    GracefulTakes(c, s);
  }

  lemma GracefulTakes(c: Config, s: Conn)
    requires TerminalInv(s) && Outcome(s.phase) == Closed
    ensures s.terminal.slot == None && forall t :: t in s.terminal.takes ==> t.cause == None
  {
    forall t | t in s.terminal.takes
      ensures t.cause == None
    {
      var i :| 0 <= i < |s.terminal.takes| && s.terminal.takes[i] == t;
    }
  }

  /** A graceful, drained run: the loop ended by the peer's Close and the consumer has taken everything. */
  ghost predicate Drained(s: Conn) {
    Outcome(s.phase) == Closed && s.rx.receiver && s.rx.queue == []
  }

  /**
   The bounded channel, the hold, the keepalive setting and the scheduler are invisible to the
   consumer: any two drained runs against the same server deliver the same frames, whatever their
   capacities, intervals, sends and interleavings.
   */
  lemma ScheduleIsInvisible(c1: Config, c2: Config, stream1: seq<StreamEvent>, stream2: seq<StreamEvent>,
      acts1: seq<Action>, acts2: seq<Action>)
    requires Arrived(stream1, acts1) <= Arrived(stream2, acts2)
    requires Drained(Exec(c1, Init(stream1), acts1)) && Drained(Exec(c2, Init(stream2), acts2))
    ensures Exec(c1, Init(stream1), acts1).rx.consumed == Exec(c2, Init(stream2), acts2).rx.consumed
  {
    hide Sequences.Flat, Arrived, Protocol.Exec;
    var s1, s2 := Exec(c1, Init(stream1), acts1), Exec(c2, Init(stream2), acts2);
    DrainedConsumed(c1, stream1, acts1);
    DrainedConsumed(c2, stream2, acts2);
    ReadsAreArrivals(c1, stream1, acts1);
    GracefulEndIsComplete(c1, stream1, acts1);
    Reachable(c1, stream1, acts1);
    var arrived1, arrived2 := Arrived(stream1, acts1), Arrived(stream2, acts2);
    var rest := s1.rx.stream + arrived2[|arrived1|..];
    assert arrived2 == s1.rx.read + rest;
    ReadDataIsBeforeEnd(s1.rx.read, s1.rx.stream);
    ReadDataIsBeforeEnd(s1.rx.read, rest);
  }

  lemma DrainedConsumed(c: Config, stream: seq<StreamEvent>, acts: seq<Action>)
    requires Drained(Exec(c, Init(stream), acts))
    ensures Exec(c, Init(stream), acts).rx.consumed == DataBeforeEnd(Arrived(stream, acts))
  {
    hide Sequences.Flat, Arrived;
    Reachable(c, stream, acts);
    GracefulEndIsComplete(c, stream, acts);
    var s := Exec(c, Init(stream), acts);
    assert Delivered(s) == s.rx.consumed;
  }

  // ----- an unbounded queue as reference

  datatype Fifo = Fifo(queue: seq<Message>, out: seq<Message>)

  datatype FifoStep = Push(m: Message) | Pop | Stutter

  function FifoApply(f: Fifo, step: FifoStep): Fifo {
    match step
    case Push(m) => f.(queue := f.queue + [m])
    case Pop => if f.queue == [] then f else Fifo(f.queue[1..], f.out + [f.queue[0]])
    case Stutter => f
  }

  /** The client seen as one unbounded queue between the stream and the consumer. */
  function AsFifo(s: Conn): Fifo {
    Fifo(s.rx.queue + (HeldFrame(s.rx.held) + (Pending(s.phase) + s.rx.lost)), s.rx.consumed)
  }

  /** Which step of the unbounded queue an action is. */
  function FifoStepOf(c: Config, s: Conn, a: Action): FifoStep {
    if a.ReadEvent? && LoopEnabled(c, s, a) && DataOf(s.rx.stream[0]) != [] then Push(DataOf(s.rx.stream[0])[0])
    else if a.Consume? && HandleEnabled(c, s, a) then Pop
    else Stutter
  }

  /** Refinement: while the consumer keeps its receiver, every step is one step of the unbounded queue. */
  lemma RefinesUnboundedFifo(c: Config, s: Conn, a: Action)
    requires Inv(c, s) && Step(c, s, a).rx.receiver
    ensures AsFifo(Step(c, s, a)) == FifoApply(AsFifo(s), FifoStepOf(c, s, a))
  {
    hide Inv, Protocol.LoopApply, Protocol.HandleApply;
    InboundOf(c, s);
    if LoopEnabled(c, s, a) {
      if a.ReadEvent? || a.Deliver? || a.Permit? {
        FifoMove(c, s, a);
      } else {
        FifoStutter(c, s, a);
      }
    } else if HandleEnabled(c, s, a) {
      FifoHandle(c, s, a);
    }
  }

  lemma InboundOf(c: Config, s: Conn)
    requires Inv(c, s)
    ensures s.rx.held.Some? ==> InLoop(s.phase) && !s.phase.Handling?
    ensures InLoop(s.phase) ==> s.rx.lost == []
  {
  }

  lemma FifoMove(c: Config, s: Conn, a: Action)
    requires LoopEnabled(c, s, a) && (a.ReadEvent? || a.Deliver? || a.Permit?)
    requires s.rx.held.Some? ==> !s.phase.Handling?
    requires s.rx.lost == [] && LoopApply(c, s, a).rx.receiver
    ensures AsFifo(LoopApply(c, s, a)) == FifoApply(AsFifo(s), FifoStepOf(c, s, a))
  {
  }

  lemma FifoStutter(c: Config, s: Conn, a: Action)
    requires LoopEnabled(c, s, a) && !a.ReadEvent? && !a.Deliver? && !a.Permit?
    requires InLoop(s.phase) ==> s.rx.lost == []
    ensures AsFifo(LoopApply(c, s, a)) == AsFifo(s)
  {
    LoopMovesRx(c, s, a);
    hide Protocol.LoopApply, Protocol.LoopEnabled;
  }

  lemma FifoHandle(c: Config, s: Conn, a: Action)
    requires HandleEnabled(c, s, a) && HandleApply(c, s, a).rx.receiver
    ensures AsFifo(HandleApply(c, s, a)) == FifoApply(AsFifo(s), if a.Consume? then Pop else Stutter)
  {
  }

  /** What the schedule does to the unbounded queue, step by step. */
  function FifoSteps(c: Config, stream: seq<StreamEvent>, acts: seq<Action>): seq<FifoStep> {
    if |acts| == 0 then []
    else
      var front := acts[..|acts| - 1];
      FifoSteps(c, stream, front) + [FifoStepOf(c, Exec(c, Init(stream), front), acts[|acts| - 1])]
  }

  function FifoRun(steps: seq<FifoStep>): Fifo {
    if |steps| == 0 then Fifo([], []) else FifoApply(FifoRun(steps[..|steps| - 1]), steps[|steps| - 1])
  }

  lemma ReceiverStaysGone(c: Config, s: Conn, a: Action)
    ensures Step(c, s, a).rx.receiver ==> s.rx.receiver
  {
  }

  /**
   Refinement over whole runs: at the end of any schedule that leaves the consumer its receiver, the
   bounded client with its hold is the unbounded queue after the same pushes and pops, so what has
   been consumed is what that queue has given out.
   */
  lemma {:induction false} RunsAsUnboundedFifo(c: Config, stream: seq<StreamEvent>, acts: seq<Action>)
    requires Exec(c, Init(stream), acts).rx.receiver
    ensures AsFifo(Exec(c, Init(stream), acts)) == FifoRun(FifoSteps(c, stream, acts))
  {
    if |acts| != 0 {
      hide Inv, AsFifo, FifoApply, FifoStepOf, Protocol.Step;
      var front, last := acts[..|acts| - 1], acts[|acts| - 1];
      var s := Exec(c, Init(stream), front);
      ReceiverStaysGone(c, s, last);
      RunsAsUnboundedFifo(c, stream, front);
      Reachable(c, stream, front);
      RefinesUnboundedFifo(c, s, last);
      var steps := FifoSteps(c, stream, acts);
      assert steps[..|steps| - 1] == FifoSteps(c, stream, front);
    }
  }

  // ----- the terminal cause

  /**
   The cause is recorded before closure can be seen and handed out once: no operation looks into
   the slot before the loop has recorded it; if the loop ended in an error the first look gets
   exactly that error, and every later look finds nothing.
   */
  lemma CauseIsTakenOnce(c: Config, stream: seq<StreamEvent>, acts: seq<Action>)
    ensures var s := Exec(c, Init(stream), acts);
            && (InLoop(s.phase) || s.phase.Left? || s.phase.Recorded? ==> s.terminal.takes == [])
            && (RxIsClosed(s.phase) && s.terminal.takes == [] ==> s.terminal.slot == Cause(s.phase.outcome))
            && (s.terminal.takes != [] ==> RxIsClosed(s.phase) && s.terminal.slot == None
                                           && s.terminal.takes[0].cause == Cause(s.phase.outcome)
                                           && forall i :: 1 <= i < |s.terminal.takes| ==>
                                              s.terminal.takes[i].cause == None)
  {
    Reachable(c, stream, acts);
    CauseShape(Exec(c, Init(stream), acts));
  }

  lemma CauseShape(s: Conn)
    requires TerminalInv(s)
    ensures InLoop(s.phase) || s.phase.Left? || s.phase.Recorded? ==> s.terminal.takes == []
    ensures RxIsClosed(s.phase) && s.terminal.takes == [] ==> s.terminal.slot == Cause(s.phase.outcome)
    ensures s.terminal.takes != [] ==>
        RxIsClosed(s.phase) && s.terminal.slot == None && TakenOnce(s.terminal.takes, Cause(s.phase.outcome))
  {
  }

  /** A receive reports a cause only after every frame that was not lost has been consumed. */
  lemma BufferedFramesComeFirst(c: Config, stream: seq<StreamEvent>, acts: seq<Action>)
    requires exists t :: t in Exec(c, Init(stream), acts).terminal.takes && t.taker.ReceiveCall?
    ensures var s := Exec(c, Init(stream), acts);
            && s.rx.queue == []
            && (s.rx.receiver ==> Flat(DataOf, s.rx.read) == s.rx.consumed + s.rx.lost)
  {
    hide Sequences.Flat;
    Reachable(c, stream, acts);
    ClosedAndEmpty(c, Exec(c, Init(stream), acts));
  }

  lemma ClosedAndEmpty(c: Config, s: Conn)
    requires InboundInv(c, s) && DrainedInv(s)
    requires exists t :: t in s.terminal.takes && t.taker.ReceiveCall?
    ensures s.rx.queue == [] && (s.rx.receiver ==> Flat(DataOf, s.rx.read) == s.rx.consumed + s.rx.lost)
  {
    hide Sequences.Flat;
    assert Pending(s.phase) == [] && HeldFrame(s.rx.held) == [];
  }

  // ----- protocol frames

  /**
   Between two iterations the loop's Pongs match the Pings read one for one, each written after its
   Ping and before the next event was read, with the constant body; and only Text and Binary
   frames ever reach the queue or the consumer.
   */
  lemma PingService(c: Config, stream: seq<StreamEvent>, acts: seq<Action>)
    ensures var s := Exec(c, Init(stream), acts);
            && (InLoop(s.phase) && !s.phase.Handling? ==> PingMarks(s.rx.read) == Flat(PongMark, s.wire))
            && Flat(PongMark, s.wire) <= PingMarks(s.rx.read)
            && (forall w :: w in s.wire && w.origin.PongReply? ==> w.message == Pong([112, 111, 110, 103]))
            && (forall m :: m in s.rx.queue || m in s.rx.consumed || m in HeldFrame(s.rx.held) ==> IsData(m))
  {
    hide Sequences.Flat, PingMarks;
    var s := Exec(c, Init(stream), acts);
    Reachable(c, stream, acts);
    forall m | m in s.rx.queue || m in s.rx.consumed || m in HeldFrame(s.rx.held)
      ensures IsData(m)
    {
      assert m in Placed(s);
      var e := FlatSource(DataOf, s.rx.read, m);
    }
    PingShape(c, s);
  }

  lemma PingShape(c: Config, s: Conn)
    requires PingInv(s) && WireInv(c, s)
    ensures InLoop(s.phase) && !s.phase.Handling? ==> PingMarks(s.rx.read) == Flat(PongMark, s.wire)
    ensures Flat(PongMark, s.wire) <= PingMarks(s.rx.read)
    ensures forall w :: w in s.wire && w.origin.PongReply? ==> w.message == Pong([112, 111, 110, 103])
  {
    hide Sequences.Flat, PingMarks;
  }

  // ----- keepalives and progress under backpressure

  /**
   With an interval of d ticks, a hold during which w frames were written lasts at most
   (w + 1) * d ticks plus the time spent inside writes.
   */
  lemma HoldIsBounded(c: Config, stream: seq<StreamEvent>, acts: seq<Action>)
    requires c.keepalive.Some? && Exec(c, Init(stream), acts).rx.held.Some?
    ensures var s := Exec(c, Init(stream), acts);
            var h := s.rx.held.value;
            && h.wireLength <= |s.wire|
            && s.clock.now - h.start <= (|s.wire| - h.wireLength + 1) * c.keepalive.value + h.busy
  {
    hide Inv, Protocol.Exec;
    Reachable(c, stream, acts);
    HoldOf(c, Exec(c, Init(stream), acts));
    HoldTime(c, Exec(c, Init(stream), acts));
  }

  lemma HoldOf(c: Config, s: Conn)
    requires Inv(c, s)
    ensures HoldInv(c, s) && (s.rx.held.Some? ==> InLoop(s.phase) && !s.phase.Handling?)
  {
    hide HoldInv;
  }

  lemma HoldTime(c: Config, s: Conn)
    requires HoldInv(c, s) && c.keepalive.Some? && s.rx.held.Some?
    requires InLoop(s.phase) && !s.phase.Handling?
    ensures var h := s.rx.held.value;
            && h.wireLength <= |s.wire|
            && s.clock.now - h.start <= (|s.wire| - h.wireLength + 1) * c.keepalive.value + h.busy
  {
    BoundGrows(c.keepalive.value, |s.wire| - s.rx.held.value.wireLength, s.rx.held.value.busy);
  }

  /** Only handles, the network and the clock act: none of these steps is the loop's. */
  ghost predicate LoopIdle(c: Config, s: Conn, acts: seq<Action>) {
    forall n :: 0 <= n < |acts| ==> !LoopEnabled(c, Exec(c, s, acts[..n]), acts[n])
  }

  lemma {:induction false} IdleKeepsTimer(c: Config, s: Conn, acts: seq<Action>)
    requires s.phase.Select? && LoopIdle(c, s, acts)
    ensures var t := Exec(c, s, acts); t.phase.Select? && t.clock.since == s.clock.since
  {
    hide Protocol.Step, Protocol.LoopEnabled;
    if |acts| != 0 {
      var front, last := acts[..|acts| - 1], acts[|acts| - 1];
      forall n | 0 <= n < |front|
        ensures !LoopEnabled(c, Exec(c, s, front[..n]), front[n])
      {
        assert front[..n] == acts[..n] && front[n] == acts[n];
      }
      IdleKeepsTimer(c, s, front);
      assert acts[..|acts| - 1] == front;
      IdleStep(c, Exec(c, s, front), last);
    }
  }

  lemma IdleStep(c: Config, s: Conn, a: Action)
    requires s.phase.Select? && !LoopEnabled(c, s, a)
    ensures var t := Step(c, s, a); t.phase.Select? && t.clock.since == s.clock.since
  {
  }

  /**
   The keepalive timer measures the time since the loop last did anything: from the moment the loop
   went round into a select, however the handles and the network are busy, its arm becomes ready
   exactly when a full interval has passed.
   */
  lemma TimerMeasuresIdleness(c: Config, s: Conn, a: Action, acts: seq<Action>)
    requires c.keepalive.Some? && LoopEnabled(c, s, a) && Step(c, s, a).phase.Select?
    requires LoopIdle(c, Step(c, s, a), acts)
    ensures var u, t := Step(c, s, a), Exec(c, Step(c, s, a), acts);
            && u.clock.now == s.clock.now
            && (LoopEnabled(c, t, Tick) <==> t.clock.now - s.clock.now >= c.keepalive.value)
  {
    hide Protocol.Exec, Protocol.Step;
    RoundRestarts(c, s, a);
    IdleKeepsTimer(c, Step(c, s, a), acts);
  }

  lemma RoundRestarts(c: Config, s: Conn, a: Action)
    requires LoopEnabled(c, s, a) && Step(c, s, a).phase.Select?
    ensures var u := Step(c, s, a); u.clock.now == s.clock.now && u.clock.since == u.clock.now
  {
  }

  /** Writes take no time: the clock advances only while the loop is suspended in a select. */
  ghost predicate InstantWrites(c: Config, s: Conn, acts: seq<Action>) {
    forall n :: 0 <= n < |acts| && acts[n].Elapse? && acts[n].duration > 0 ==> Exec(c, s, acts[..n]).phase.Select?
  }

  lemma {:induction false} HoldIsTheSame(c: Config, s: Conn, acts: seq<Action>)
    requires s.rx.held.Some? && s.phase.Select? && Inv(c, s) && InstantWrites(c, s, acts)
    requires forall n :: 0 <= n <= |acts| ==> Exec(c, s, acts[..n]).rx.held.Some?
    ensures Exec(c, s, acts).rx.held == s.rx.held
  {
    hide Inv, Protocol.Step;
    if |acts| != 0 {
      var front, last := acts[..|acts| - 1], acts[|acts| - 1];
      assert acts[..|acts|] == acts && acts[..|front|] == front;
      forall n | 0 <= n <= |front|
        ensures Exec(c, s, front[..n]).rx.held.Some?
        ensures n < |front| && front[n].Elapse? && front[n].duration > 0 ==> Exec(c, s, front[..n]).phase.Select?
      {
        assert front[..n] == acts[..n];
        assert n < |front| ==> front[n] == acts[n];
      }
      HoldIsTheSame(c, s, front);
      InvExec(c, s, front);
      HeldIsSuspended(c, Exec(c, s, front));
      HoldIsKept(c, Exec(c, s, front), last);
    }
  }

  lemma HoldIsKept(c: Config, s: Conn, a: Action)
    requires s.rx.held.Some? && Step(c, s, a).rx.held.Some? && InLoop(s.phase) && !s.phase.Handling?
    requires a.Elapse? && a.duration > 0 ==> s.phase.Select?
    ensures Step(c, s, a).rx.held == s.rx.held
  {
    if LoopEnabled(c, s, a) {
      hide Protocol.HandleEnabled, Protocol.HandleApply;
    } else {
      hide Protocol.LoopEnabled, Protocol.LoopApply;
    }
  }

  /**
   From the moment a frame is held back, as long as it is held and writes take no time: at most one
   interval for each frame written since, and one more.
   */
  lemma HoldIsBoundedFromEntry(c: Config, stream: seq<StreamEvent>, before: seq<Action>, during: seq<Action>)
    requires c.keepalive.Some? && LoopEnabled(c, Exec(c, Init(stream), before), Deliver)
    requires var u := Exec(c, Init(stream), before + [Deliver]);
             && InstantWrites(c, u, during)
             && forall n :: 0 <= n <= |during| ==> Exec(c, u, during[..n]).rx.held.Some?
    ensures var s, t := Exec(c, Init(stream), before), Exec(c, Init(stream), before + [Deliver] + during);
            && |s.wire| <= |t.wire|
            && t.clock.now - s.clock.now <= (|t.wire| - |s.wire| + 1) * c.keepalive.value
  {
    hide Inv, Protocol.Exec, Protocol.Step;
    var s, u := Exec(c, Init(stream), before), Exec(c, Init(stream), before + [Deliver]);
    ExecAppend(c, Init(stream), before, Deliver);
    ExecConcat(c, Init(stream), before + [Deliver], during);
    Reachable(c, stream, before);
    Reachable(c, stream, before + [Deliver]);
    assert during[..|during|] == during && during[..0] == [];
    ExecNothing(c, u);
    HoldStarts(c, s);
    HoldIsTheSame(c, u, during);
    HoldIsBounded(c, stream, before + [Deliver] + during);
  }

  lemma ExecNothing(c: Config, s: Conn)
    ensures Exec(c, s, []) == s
  {
  }

  lemma HoldStarts(c: Config, s: Conn)
    requires LoopEnabled(c, s, Deliver) && Step(c, s, Deliver).rx.held.Some? && Inv(c, s)
    ensures var u := Step(c, s, Deliver);
            && u.phase.Select? && u.rx.held.value.start == s.clock.now
            && u.rx.held.value.wireLength == |s.wire| && u.rx.held.value.busy == 0
  {
    hide Sequences.Flat;
  }

  /** The network and the clock, as opposed to the loop and the handles. */
  predicate IsEnvironment(a: Action) {
    a.Arrive? || a.Elapse?
  }

  /** The one way to be stuck in the hold: no keepalive, a full queue with a live receiver, and nobody sending. */
  predicate Stuck(c: Config, s: Conn) {
    && s.phase.Select? && s.rx.held.Some?
    && c.keepalive.None? && s.rx.receiver && |s.rx.queue| >= c.capacity
    && s.tx.queue == [] && s.tx.senders > 0
  }

  /** The loop has no step now, and will have none however time passes and whatever arrives. */
  ghost predicate Parked(c: Config, s: Conn) {
    forall env: seq<Action>, a: Action :: EnvironmentOnly(env) ==> !LoopEnabled(c, Exec(c, s, env), a)
  }

  ghost predicate EnvironmentOnly(env: seq<Action>) {
    forall e :: e in env ==> IsEnvironment(e)
  }

  /** A suspended hold waits for a handle forever if and only if it is stuck in that one way. */
  lemma ParkedExactly(c: Config, s: Conn)
    requires Inv(c, s) && s.phase.Select? && s.rx.held.Some?
    ensures Parked(c, s) <==> Stuck(c, s)
  {
    if Stuck(c, s) {
      forall env: seq<Action>, a: Action | EnvironmentOnly(env)
        ensures !LoopEnabled(c, Exec(c, s, env), a)
      {
        StaysStuck(c, s, env);
      }
    } else {
      NotStuckWakes(c, s);
    }
  }

  lemma {:induction false} StaysStuck(c: Config, s: Conn, env: seq<Action>)
    requires Stuck(c, s) && EnvironmentOnly(env)
    ensures Stuck(c, Exec(c, s, env))
    ensures forall a :: !LoopEnabled(c, Exec(c, s, env), a)
  {
    hide Stuck, Protocol.Step;
    if |env| != 0 {
      StaysStuck(c, s, env[..|env| - 1]);
      StuckStep(c, Exec(c, s, env[..|env| - 1]), env[|env| - 1]);
    }
    StuckHasNoStep(c, Exec(c, s, env));
  }

  lemma StuckHasNoStep(c: Config, s: Conn)
    requires Stuck(c, s)
    ensures forall a :: !LoopEnabled(c, s, a)
  {
  }

  lemma StuckStep(c: Config, s: Conn, e: Action)
    requires Stuck(c, s) && IsEnvironment(e)
    ensures Stuck(c, Step(c, s, e))
  {
  }

  lemma WakesBy(c: Config, s: Conn, env: seq<Action>, a: Action)
    requires EnvironmentOnly(env) && LoopEnabled(c, Exec(c, s, env), a)
    ensures !Parked(c, s)
  {
  }

  lemma NotStuckWakes(c: Config, s: Conn)
    requires HoldInv(c, s) && s.phase.Select? && s.rx.held.Some? && !Stuck(c, s)
    ensures !Parked(c, s)
  {
    hide Parked, Protocol.Step;
    if c.keepalive.Some? {
      // waiting until the timer is due enables its arm
      hide Protocol.LoopEnabled, Protocol.Exec;
      var wait := Elapse(s.clock.since + c.keepalive.value - s.clock.now);
      ExecSingle(c, s, wait);
      TimerComesDue(c, s);
      WakesBy(c, s, [wait], Tick);
    } else {
      WakesBy(c, s, [], if s.tx.queue != [] then Dequeue else if s.tx.senders == 0 then SeeNoSenders else Permit);
    }
  }

  lemma ExecSingle(c: Config, s: Conn, a: Action)
    ensures Exec(c, s, [a]) == Step(c, s, a)
  {
    hide Protocol.Step;
    assert [a] == [] + [a];
    ExecAppend(c, s, [], a);
  }

  lemma TimerComesDue(c: Config, s: Conn)
    requires HoldInv(c, s) && s.phase.Select? && c.keepalive.Some?
    ensures LoopEnabled(c, Step(c, s, Elapse(s.clock.since + c.keepalive.value - s.clock.now)), Tick)
  {
  }

  /** One receive by the consumer always frees the held frame. */
  lemma OneReceiveWakes(c: Config, s: Conn)
    requires c.capacity > 0 && Inv(c, s) && Stuck(c, s)
    ensures HandleEnabled(c, s, Consume)
    ensures var t := Step(c, s, Consume); LoopEnabled(c, t, Permit) && Step(c, t, Permit).rx.held.None?
    ensures Delivered(Step(c, Step(c, s, Consume), Permit)) == Delivered(s) + HeldFrame(s.rx.held)
  {
    hide Inv, Protocol.Step, Delivered;
    HeldIsSuspended(c, s);
    QueueFits(c, s);
    ConsumeFrees(c, s);
    PermitDelivers(c, Step(c, s, Consume));
  }

  lemma QueueFits(c: Config, s: Conn)
    requires Inv(c, s)
    ensures |s.rx.queue| <= c.capacity
  {
    hide Sequences.Flat;
  }

  lemma ConsumeFrees(c: Config, s: Conn)
    requires c.capacity > 0 && Stuck(c, s) && |s.rx.queue| <= c.capacity && s.rx.abandoned == []
    ensures HandleEnabled(c, s, Consume)
    ensures var t := Step(c, s, Consume);
            && LoopEnabled(c, t, Permit) && t.rx.receiver && t.rx.abandoned == []
               && HeldFrame(t.rx.held) == HeldFrame(s.rx.held)
            && Delivered(t) == Delivered(s)
  {
    assert s.rx.queue == [s.rx.queue[0]] + s.rx.queue[1..];
  }

  lemma PermitDelivers(c: Config, s: Conn)
    requires LoopEnabled(c, s, Permit) && s.rx.receiver && s.rx.abandoned == []
    ensures var t := Step(c, s, Permit); t.rx.held.None? && Delivered(t) == Delivered(s) + HeldFrame(s.rx.held)
  {
  }
}
