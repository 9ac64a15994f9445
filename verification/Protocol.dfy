/**
 The connection as a state machine: the socket loop, the two bounded channels, the one-shots,
 the terminal-error slot and the handles that share them.

 Every step is an Action that carries the choices of its environment (which arm of a select
 wins, what a write returns, what the network delivers). A disabled action changes nothing, so
 every sequence of actions is a schedule, and a state is reachable exactly when some schedule
 leads to it. Fields below the line "history" are never read by a step; they record what happened.
 */
module Protocol {
  import opened Messages

  /** CHANNEL_SIZE, the keepalive interval (in clock ticks) and the optional keepalive message. */
  datatype Config = Config(capacity: nat, keepalive: Option<nat>, keepaliveMessage: Option<Message>)

  /** A queued frame. Its id is its rank in the order of acceptance; it names the one-shot. */
  datatype Payload = Payload(id: nat, message: Message, confirmed: bool)

  datatype LoopState = Running | Errored(error: Error) | Closed

  /** Where the loop's task stands. Every change of phase is one step that others may interleave. */
  datatype Phase =
    | Select                                       // suspended in the main select, or in the hold's if a frame is held
    | Sending(payload: Payload)                    // dequeued, the write is in progress
    | Answering(payload: Payload, result: WriteResult) // written (or failed), one-shot not yet used
    | Handling(event: StreamEvent)                 // read from the stream, arm body not finished
    | Ticking                                      // the keepalive write is in progress
    | Left(outcome: LoopState)                     // the loop has ended, cause not yet recorded
    | Recorded(outcome: LoopState)                 // cause recorded, both channels still open
    | RxClosed(outcome: LoopState)                 // the loop's end of the inbound channel is dropped
    | Finished(outcome: LoopState)                 // the loop's end of the outbound channel is dropped too

  /** The one frame held under backpressure, with what the clock and the wire showed at entry. */
  datatype Hold = Hold(frame: Message, start: nat, wireLength: nat, busy: nat)

  datatype Origin = User(payload: Payload) | PongReply | Keepalive | CloseReply

  /** A frame written to the socket; `readCount` is the number of stream events read before the write. */
  datatype Sent = Sent(message: Message, origin: Origin, readCount: nat)

  datatype FailedSend = FailedSend(payload: Payload, error: WireError)

  datatype Attempt = Attempt(id: nat, result: SendResult)

  datatype Taker = SendCall | ReceiveCall | CloseConnectionCall

  /** One look into the terminal slot by an operation that observed closure. */
  datatype Taking = Taking(taker: Taker, cause: Option<Error>)

  /** The outbound channel, its one-shots, and what became of every payload. */
  datatype Tx = Tx(
    queue: seq<Payload>,
    senders: nat,                  // live clones of the sending end
    waiting: set<nat>,             // one-shots whose caller still waits
    answers: map<nat, SendResult>, // values that reached a waiting caller's one-shot
    // history
    accepted: seq<Payload>,        // every payload the channel accepted, in order
    failed: seq<FailedSend>,       // payloads whose write failed
    discarded: seq<Payload>,       // still queued when the loop's receiving end was dropped
    attempts: seq<Attempt>,        // every use of a one-shot by the loop
    panicked: set<nat>)            // callers that found their one-shot dropped without a value

  /** The inbound stream and channel, and what became of every frame. */
  datatype Rx = Rx(
    stream: seq<StreamEvent>,      // arrived at the socket, not yet read by the loop
    held: Option<Hold>,            // the frame kept back while the queue is full
    queue: seq<Message>,
    receiver: bool,                // the consumer's receiving end is alive
    // history
    read: seq<StreamEvent>,        // every event read by the loop
    consumed: seq<Message>,        // frames received by the consumer
    abandoned: seq<Message>,       // still queued when the consumer dropped its receiver
    lost: seq<Message>)            // dropped by the loop itself

  /** The shared terminal-error slot, and every look into it. */
  datatype Terminal = Terminal(slot: Option<Error>, takes: seq<Taking>)

  /** The clock, and the moment the current select was entered. */
  datatype Clock = Clock(now: nat, since: nat)

  datatype Conn = Conn(phase: Phase, tx: Tx, rx: Rx, wire: seq<Sent>, terminal: Terminal, clock: Clock)

  datatype Action =
    // the loop
    | Dequeue | SeeNoSenders | WriteUser(result: WriteResult) | Answer
    | ReadEvent | WritePong(result: WriteResult) | CloseSink(result: WriteResult)
    | Deliver | Ignore | StreamFails
    | Permit | Tick | WriteKeepalive(result: WriteResult)
    | Record | DropRxSender | DropTxReceiver
    // the handles
    | Enqueue(message: Message, confirmed: bool)
    | Resolve(id: nat) | Cancel(id: nat)
    | CloneSender | DropSender
    | Consume | DropReceiver | Take(taker: Taker)
    // the network and the clock
    | Arrive(event: StreamEvent) | Elapse(duration: nat)

  function Init(stream: seq<StreamEvent>): Conn {
    Conn(Select,
         Tx([], 1, {}, map[], [], [], [], [], {}),
         Rx(stream, None, [], true, [], [], [], []),
         [], Terminal(None, []), Clock(0, 0))
  }

  /** The loop is still inside its while loop. */
  predicate InLoop(p: Phase) {
    p.Select? || p.Sending? || p.Answering? || p.Handling? || p.Ticking?
  }

  /** The outcome of a loop that has ended; Running while it has not. */
  function Outcome(p: Phase): LoopState {
    if InLoop(p) then Running else p.outcome
  }

  /** The consumer's receive on an empty queue reports closure. */
  predicate RxIsClosed(p: Phase) {
    p.RxClosed? || p.Finished?
  }

  /** A send on the outbound channel reports closure. */
  predicate TxIsClosed(p: Phase) {
    p.Finished?
  }

  /** What the loop records on the way out. */
  function Cause(o: LoopState): Option<Error> {
    if o.Errored? then Some(o.error) else None
  }

  function HeldFrame(held: Option<Hold>): seq<Message> {
    if held.Some? then [held.value.frame] else []
  }

  /** The payload the loop has dequeued and not yet answered. */
  function Taken(p: Phase): Option<Payload> {
    if p.Sending? || p.Answering? then Some(p.payload) else None
  }

  /** The loop, or its queue, owns the sending half of this one-shot inside a payload. */
  predicate HoldsOneShot(s: Conn, id: nat) {
    || (exists p :: p in s.tx.queue && p.id == id)
    || (Taken(s.phase).Some? && Taken(s.phase).value.id == id)
  }

  /** The one-shot was dropped without a value: awaiting it yields an error. */
  predicate OneShotDropped(s: Conn, id: nat) {
    id !in s.tx.answers && !HoldsOneShot(s, id)
  }

  /** The keepalive frame. */
  function KeepaliveFrame(c: Config): Message {
    if c.keepaliveMessage.Some? then c.keepaliveMessage.value else DEFAULT_KEEPALIVE
  }

  predicate LoopEnabled(c: Config, s: Conn, a: Action) {
    match a
    case Dequeue => s.phase.Select? && s.tx.queue != []
    case SeeNoSenders => s.phase.Select? && s.tx.queue == [] && s.tx.senders == 0
    case WriteUser(_) => s.phase.Sending?
    case Answer => s.phase.Answering?
    case ReadEvent => s.phase.Select? && s.rx.held.None? && s.rx.stream != []
    case WritePong(_) => s.phase.Handling? && IsPingEvent(s.phase.event)
    case CloseSink(_) => s.phase.Handling? && s.phase.event.Frame? && s.phase.event.message.Close?
    case Deliver => s.phase.Handling? && s.phase.event.Frame? && IsData(s.phase.event.message)
    case Ignore => s.phase.Handling? && s.phase.event.Frame?
        && (s.phase.event.message.Pong? || s.phase.event.message.RawFrame?)
    case StreamFails => s.phase.Handling? && !s.phase.event.Frame?
    case Permit => s.phase.Select? && s.rx.held.Some? && (!s.rx.receiver || |s.rx.queue| < c.capacity)
    case Tick => s.phase.Select? && c.keepalive.Some? && s.clock.since + c.keepalive.value <= s.clock.now
    case WriteKeepalive(_) => s.phase.Ticking?
    case Record => s.phase.Left?
    case DropRxSender => s.phase.Recorded?
    case DropTxReceiver => s.phase.RxClosed?
    case _ => false
  }

  predicate HandleEnabled(c: Config, s: Conn, a: Action) {
    match a
    case Enqueue(_, _) => s.tx.senders > 0 && !TxIsClosed(s.phase) && |s.tx.queue| < c.capacity
    case Resolve(id) => id in s.tx.waiting && (id in s.tx.answers || OneShotDropped(s, id))
    case Cancel(id) => id in s.tx.waiting
    case CloneSender => s.tx.senders > 0
    // a waiting call borrows its sender, so the last sender outlives every waiting call
    case DropSender => s.tx.senders > 1 || (s.tx.senders == 1 && s.tx.waiting == {})
    case Consume => s.rx.receiver && s.rx.queue != []
    case DropReceiver => s.rx.receiver
    case Take(SendCall) => s.tx.senders > 0 && TxIsClosed(s.phase)
    case Take(ReceiveCall) => s.rx.receiver && s.rx.queue == [] && RxIsClosed(s.phase)
    case Take(CloseConnectionCall) => s.phase.Finished?
    case Arrive(_) => true
    // a due keepalive timer wakes the select: time does not pass it by
    case Elapse(d) => s.phase.Select? && c.keepalive.Some? ==> s.clock.now + d <= s.clock.since + c.keepalive.value
    case _ => false
  }

  /** The loop ends: a frame it still holds is dropped with it. */
  function Leave(s: Conn, outcome: LoopState): Conn {
    s.(phase := Left(outcome), rx := s.rx.(held := None, lost := s.rx.lost + HeldFrame(s.rx.held)))
  }

  /** The loop goes round: it re-enters the select and restarts the keepalive timer. */
  function Resume(s: Conn): Conn {
    s.(phase := Select, clock := s.clock.(since := s.clock.now))
  }

  function Wrote(s: Conn, m: Message, o: Origin): Conn {
    s.(wire := s.wire + [Sent(m, o, |s.rx.read|)])
  }

  /** What the loop's use of a one-shot leaves behind: the value is delivered only to a caller that waits. */
  function UseOneShot(tx: Tx, p: Payload, r: SendResult): Tx {
    if !p.confirmed then tx
    else if p.id in tx.waiting then
      tx.(attempts := tx.attempts + [Attempt(p.id, r)], answers := tx.answers[p.id := r])
    else
      tx.(attempts := tx.attempts + [Attempt(p.id, r)])
  }

  /** `send_socket_message` once the write has returned. */
  function AfterWrite(s: Conn, p: Payload, r: WriteResult): Conn {
    var t := s.(tx := UseOneShot(s.tx, p, FromWire(r)));
    if p.confirmed && p.id !in s.tx.waiting then Leave(t, Errored(SocketeerDroppedWithoutClosing))
    else if r.Err? then Leave(t, Errored(WebsocketClosed))
    else Resume(t)
  }

  /** The first attempt of `deliver_with_backpressure`, before any waiting. */
  function TryDeliver(c: Config, s: Conn, m: Message): Conn {
    if !s.rx.receiver then
      Leave(s.(rx := s.rx.(lost := s.rx.lost + [m])), Errored(SocketeerDroppedWithoutClosing))
    else if |s.rx.queue| < c.capacity then
      Resume(s.(rx := s.rx.(queue := s.rx.queue + [m])))
    else
      Resume(s.(rx := s.rx.(held := Some(Hold(m, s.clock.now, |s.wire|, 0)))))
  }

  function LoopApply(c: Config, s: Conn, a: Action): Conn
    requires LoopEnabled(c, s, a)
  {
    match a
    case Dequeue => s.(phase := Sending(s.tx.queue[0]), tx := s.tx.(queue := s.tx.queue[1..]))
    case SeeNoSenders => Leave(s, Errored(SocketeerDroppedWithoutClosing))
    case WriteUser(r) =>
      var p := s.phase.payload;
      if r.Ok? then Wrote(s, p.message, User(p)).(phase := Answering(p, r))
      else s.(phase := Answering(p, r), tx := s.tx.(failed := s.tx.failed + [FailedSend(p, r.error)]))
    case Answer => AfterWrite(s, s.phase.payload, s.phase.result)
    case ReadEvent =>
      var e := s.rx.stream[0];
      s.(phase := Handling(e), rx := s.rx.(stream := s.rx.stream[1..], read := s.rx.read + [e]))
    case WritePong(r) =>
      if r.Ok? then Resume(Wrote(s, Pong(PONG_BYTES), PongReply)) else Leave(s, Errored(WebsocketError(r.error)))
    case CloseSink(r) =>
      if r.Ok? then Leave(Wrote(s, Close(None), CloseReply), Closed) else Leave(s, Errored(WebsocketError(r.error)))
    case Deliver => TryDeliver(c, s, s.phase.event.message)
    case Ignore => Resume(s)
    case StreamFails =>
      Leave(s, Errored(if s.phase.event.Failure? then WebsocketError(s.phase.event.error) else WebsocketClosed))
    case Permit =>
      if s.rx.receiver then
        Resume(s.(rx := s.rx.(queue := s.rx.queue + [s.rx.held.value.frame], held := None)))
      else
        Leave(s, Errored(SocketeerDroppedWithoutClosing))
    case Tick => s.(phase := Ticking)
    case WriteKeepalive(r) =>
      if r.Ok? then Resume(Wrote(s, KeepaliveFrame(c), Keepalive)) else Leave(s, Errored(WebsocketError(r.error)))
    case Record =>
      s.(phase := Recorded(s.phase.outcome),
         terminal := if s.phase.outcome.Errored? then s.terminal.(slot := Some(s.phase.outcome.error)) else s.terminal)
    case DropRxSender => s.(phase := RxClosed(s.phase.outcome))
    case DropTxReceiver => s.(phase := Finished(s.phase.outcome), tx := s.tx.(discarded := s.tx.queue, queue := []))
  }

  /** A hold grows older during a write; the time spent suspended in the select is not counted as busy. */
  function Aged(s: Conn, d: nat): Option<Hold> {
    if s.rx.held.Some? && !s.phase.Select? then Some(s.rx.held.value.(busy := s.rx.held.value.busy + d)) else s.rx.held
  }

  function HandleApply(c: Config, s: Conn, a: Action): Conn
    requires HandleEnabled(c, s, a)
  {
    match a
    case Enqueue(m, confirmed) =>
      var p := Payload(|s.tx.accepted|, m, confirmed);
      s.(tx := s.tx.(queue := s.tx.queue + [p], accepted := s.tx.accepted + [p],
                     waiting := if confirmed then s.tx.waiting + {p.id} else s.tx.waiting))
    case Resolve(id) =>
      s.(tx := s.tx.(waiting := s.tx.waiting - {id},
                     panicked := if id in s.tx.answers then s.tx.panicked else s.tx.panicked + {id}))
    case Cancel(id) => s.(tx := s.tx.(waiting := s.tx.waiting - {id}))
    case CloneSender => s.(tx := s.tx.(senders := s.tx.senders + 1))
    case DropSender => s.(tx := s.tx.(senders := s.tx.senders - 1))
    case Consume => s.(rx := s.rx.(queue := s.rx.queue[1..], consumed := s.rx.consumed + [s.rx.queue[0]]))
    case DropReceiver => s.(rx := s.rx.(receiver := false, abandoned := s.rx.queue, queue := []))
    case Take(t) => s.(terminal := Terminal(None, s.terminal.takes + [Taking(t, s.terminal.slot)]))
    case Arrive(e) => s.(rx := s.rx.(stream := s.rx.stream + [e]))
    case Elapse(d) => s.(clock := s.clock.(now := s.clock.now + d), rx := s.rx.(held := Aged(s, d)))
  }

  /** One step of the schedule; a disabled action leaves the state as it is. */
  function Step(c: Config, s: Conn, a: Action): Conn {
    if LoopEnabled(c, s, a) then LoopApply(c, s, a)
    else if HandleEnabled(c, s, a) then HandleApply(c, s, a)
    else s
  }

  /** The state after a whole schedule. */
  function Exec(c: Config, s: Conn, acts: seq<Action>): Conn {
    if |acts| == 0 then s else Step(c, Exec(c, s, acts[..|acts| - 1]), acts[|acts| - 1])
  }

  lemma ExecAppend(c: Config, s: Conn, acts: seq<Action>, a: Action)
    ensures Exec(c, s, acts + [a]) == Step(c, Exec(c, s, acts), a)
  {
    assert (acts + [a])[..|acts|] == acts;
  }

  lemma {:induction false} ExecConcat(c: Config, s: Conn, first: seq<Action>, second: seq<Action>)
    ensures Exec(c, s, first + second) == Exec(c, Exec(c, s, first), second)
  {
    if |second| == 0 {
      assert first + second == first;
    } else {
      var front, last := second[..|second| - 1], second[|second| - 1];
      assert first + second == (first + front) + [last];
      ExecAppend(c, s, first + front, last);
      ExecConcat(c, s, first, front);
    }
  }
}
