/**
 The turns of the socket loop as a function of the state: what one iteration of either select does,
 given who runs beside it, which ready arm wins and what the write returns, in steps of the Protocol
 module. The code of the SocketLoop module computes this function; what a turn amounts to is proved
 of it here.
 */
module Turns {
  import opened Messages
  import opened Protocol
  import opened Inbound
  import opened Reachability

  datatype SendKind = ConfirmedSend | UnconfirmedSend | CloseRequest

  /** The operations of the handles, the network and the clock. */
  datatype Operation =
    | Send(message: Message, kind: SendKind)
    | AwaitAnswer(id: nat)
    | CancelWait(id: nat)
    | CloneTx
    | DropTx
    | Recv
    | PollNext
    | DropRx
    | JoinLoop
    | NetworkDelivers(event: StreamEvent)
    | TimePasses(duration: nat)

  datatype Arm = Outgoing | IncomingFrame | Timer | Capacity

  /** What happens in one iteration: who runs while the loop is suspended, the winner, the write's result. */
  datatype Turn = Turn(
    suspended: seq<Operation>, arm: Arm, writing: seq<Operation>, result: WriteResult, settling: seq<Operation>)

  /** Who runs between the loop's last acts: before the record, before each channel's end drops. */
  datatype Exit = Exit(leaving: seq<Operation>, recorded: seq<Operation>, closing: seq<Operation>)

  // ----- other tasks

  /** The channel send a call asks for. */
  function EnqueueFor(message: Message, kind: SendKind): Action {
    Enqueue(if kind.CloseRequest? then CLOSE_REQUEST else message, !kind.UnconfirmedSend?)
  }

  /** The step an operation amounts to in a given state; a refused close request looks for no cause. */
  function ActionOf(s: Conn, op: Operation): Option<Action> {
    match op
    case Send(m, kind) =>
      if !TxIsClosed(s.phase) then Some(EnqueueFor(m, kind))
      else if kind.CloseRequest? then None
      else Some(Take(SendCall))
    case AwaitAnswer(id) => Some(Resolve(id))
    case CancelWait(id) => Some(Cancel(id))
    case CloneTx => Some(CloneSender)
    case DropTx => Some(DropSender)
    case Recv => Some(if s.rx.queue != [] then Consume else Take(ReceiveCall))
    case PollNext => Some(if s.rx.queue != [] then Consume else Take(ReceiveCall))
    case DropRx => Some(DropReceiver)
    case JoinLoop => Some(Take(CloseConnectionCall))
    case NetworkDelivers(e) => Some(Arrive(e))
    case TimePasses(d) => Some(Elapse(d))
  }

  /** The operation happens if it can, and otherwise not. */
  function OpStep(c: Config, s: Conn, op: Operation): Conn {
    match ActionOf(s, op)
    case None => s
    case Some(a) => if HandleEnabled(c, s, a) then HandleApply(c, s, a) else s
  }

  function OpsRun(c: Config, s: Conn, ops: seq<Operation>): Conn {
    if |ops| == 0 then s else OpStep(c, OpsRun(c, s, ops[..|ops| - 1]), ops[|ops| - 1])
  }

  /** What a send comes to: one payload more, owed an answer or not, or nothing if it cannot be accepted now. */
  lemma SendEffects(c: Config, s: Conn, m: Message, kind: SendKind)
    ensures var t, id := OpStep(c, s, Send(m, kind)), |s.tx.accepted|;
            if s.phase.Finished? || s.tx.senders == 0 || |s.tx.queue| >= c.capacity then t.tx == s.tx
            else
              && t.tx.queue == s.tx.queue + [match kind
                                             case ConfirmedSend => Payload(id, m, true)
                                             case UnconfirmedSend => Payload(id, m, false)
                                             case CloseRequest => Payload(id, CLOSE_REQUEST, true)]
              && t.tx.waiting == match kind
                                 case UnconfirmedSend => s.tx.waiting
                                 case _ => s.tx.waiting + {id}
  {
  }

  /** What the operations around a send come to. */
  lemma SenderEffects(c: Config, s: Conn, op: Operation)
    requires op.AwaitAnswer? || op.CancelWait? || op.CloneTx? || op.DropTx?
    ensures var t := OpStep(c, s, op).tx;
            match op
            case AwaitAnswer(id) =>
              t.waiting == if id in s.tx.answers || !HoldsOneShot(s, id) then s.tx.waiting - {id} else s.tx.waiting
            case CancelWait(id) => t.waiting == s.tx.waiting - {id}
            case CloneTx => t.senders == if s.tx.senders > 0 then s.tx.senders + 1 else 0
            case _ =>
              t.senders == if s.tx.senders > 1 || (s.tx.senders == 1 && s.tx.waiting == {})
                           then s.tx.senders - 1 else s.tx.senders
  {
  }

  /** What the operations of the receiver, of `close_connection`, of the network and of the clock come to. */
  lemma OtherEffects(c: Config, s: Conn, op: Operation)
    ensures var t := OpStep(c, s, op);
            match op
            case Recv => Received(s, t)
            case PollNext => Received(s, t)
            case DropRx => !t.rx.receiver && t.rx.queue == if s.rx.receiver then [] else s.rx.queue
            case JoinLoop => t.terminal.slot == if s.phase.Finished? then None else s.terminal.slot
            case NetworkDelivers(e) => t.rx.stream == s.rx.stream + [e]
            case TimePasses(d) =>
              t.clock.now == if s.phase.Select? && c.keepalive.Some?
                                && s.clock.now + d > s.clock.since + c.keepalive.value
                             then s.clock.now else s.clock.now + d
            case _ => true
  {
    if !op.Recv? && !op.PollNext? {
      hide Received;
    }
  }

  /** One receive: the oldest frame, or the cause of an empty closed channel, or nothing yet. */
  predicate Received(s: Conn, t: Conn) {
    if !s.rx.receiver then t == s
    else if s.rx.queue != [] then t.rx.consumed == s.rx.consumed + [s.rx.queue[0]] && t.rx.queue == s.rx.queue[1..]
    else if s.phase.RxClosed? || s.phase.Finished? then t.terminal.slot == None && t.rx == s.rx
    else t == s
  }

  // ----- one turn

  /** A write: others run until it returns. */
  function WriteRun(c: Config, s: Conn, turn: Turn, write: Action): Conn {
    Step(c, OpsRun(c, s, turn.writing), write)
  }

  /** `send_socket_message` on a payload that has been dequeued. */
  function SendRun(c: Config, s: Conn, turn: Turn): Conn {
    Step(c, OpsRun(c, WriteRun(c, s, turn, WriteUser(turn.result)), turn.settling), Answer)
  }

  /** The outgoing arm. */
  function OutgoingRun(c: Config, s: Conn, turn: Turn): Conn {
    if s.tx.queue != [] then SendRun(c, Step(c, s, Dequeue), turn)
    else Step(c, s, SeeNoSenders)
  }

  /** `handle_incoming`, then the first attempt to deliver a data frame. */
  function HandleRun(c: Config, s: Conn, turn: Turn, event: StreamEvent): Conn {
    match event
    case Frame(Ping(_)) => WriteRun(c, s, turn, WritePong(turn.result))
    case Frame(Close(_)) => WriteRun(c, s, turn, CloseSink(turn.result))
    case Frame(m) => Step(c, s, if IsData(m) then Deliver else Ignore)
    case _ => Step(c, s, StreamFails)
  }

  /** The incoming arm; under a hold there is none. */
  function IncomingRun(c: Config, s: Conn, turn: Turn): Conn {
    if s.rx.held.Some? || s.rx.stream == [] then s
    else HandleRun(c, Step(c, s, ReadEvent), turn, s.rx.stream[0])
  }

  /** The timer's arm. */
  function TimerRun(c: Config, s: Conn, turn: Turn): Conn {
    if LoopEnabled(c, s, Tick) then WriteRun(c, Step(c, s, Tick), turn, WriteKeepalive(turn.result)) else s
  }

  /** The winning arm, run to its end; an arm that is not ready does nothing. */
  function ArmRun(c: Config, s: Conn, turn: Turn): Conn {
    match turn.arm
    case Outgoing => OutgoingRun(c, s, turn)
    case IncomingFrame => IncomingRun(c, s, turn)
    case Timer => TimerRun(c, s, turn)
    case Capacity => Step(c, s, Permit)
  }

  function TurnRun(c: Config, s: Conn, turn: Turn): Conn {
    ArmRun(c, OpsRun(c, s, turn.suspended), turn)
  }

  function TurnsRun(c: Config, s: Conn, turns: seq<Turn>): Conn {
    if |turns| == 0 then s else TurnRun(c, TurnsRun(c, s, turns[..|turns| - 1]), turns[|turns| - 1])
  }

  /** Every one of these turns found the loop suspended in a select. */
  predicate InSelect(c: Config, s: Conn, turns: seq<Turn>) {
    |turns| != 0 ==>
      var front := turns[..|turns| - 1];
      InSelect(c, s, front) && TurnsRun(c, s, front).phase.Select?
  }

  /** The end of the loop's task: the record, then both channel ends, with others in between. */
  function ExitRun(c: Config, s: Conn, exit: Exit): Conn {
    var recorded := Step(c, OpsRun(c, s, exit.leaving), Record);
    var rxClosed := Step(c, OpsRun(c, recorded, exit.recorded), DropRxSender);
    Step(c, OpsRun(c, rxClosed, exit.closing), DropTxReceiver)
  }

  lemma TurnsAppend(c: Config, s: Conn, turns: seq<Turn>, turn: Turn)
    ensures TurnsRun(c, s, turns + [turn]) == TurnRun(c, TurnsRun(c, s, turns), turn)
    ensures InSelect(c, s, turns + [turn]) <==> InSelect(c, s, turns) && TurnsRun(c, s, turns).phase.Select?
  {
    hide TurnRun;
    assert (turns + [turn])[..|turns|] == turns;
  }

  lemma NoTurns(c: Config, s: Conn)
    ensures TurnsRun(c, s, []) == s && InSelect(c, s, [])
  {
  }

  lemma {:induction false} TurnsConcat(c: Config, s: Conn, first: seq<Turn>, second: seq<Turn>)
    ensures TurnsRun(c, s, first + second) == TurnsRun(c, TurnsRun(c, s, first), second)
    ensures InSelect(c, s, first + second) <==> InSelect(c, s, first) && InSelect(c, TurnsRun(c, s, first), second)
  {
    hide TurnRun, TurnsRun, InSelect;
    if |second| == 0 {
      NoTurns(c, TurnsRun(c, s, first));
      assert first + second == first && second == [];
    } else {
      var front, last := second[..|second| - 1], second[|second| - 1];
      assert first + second == (first + front) + [last] && second == front + [last];
      TurnsAppend(c, s, first + front, last);
      TurnsAppend(c, TurnsRun(c, s, first), front, last);
      TurnsConcat(c, s, first, front);
    }
  }

  // ----- what other tasks leave in place

  /** What only the loop changes, and the frames on their way to the consumer. */
  ghost predicate LoopUntouched(s: Conn, t: Conn) {
    && t.phase == s.phase && t.wire == s.wire && t.clock.since == s.clock.since
    && t.rx.read == s.rx.read && HeldFrame(t.rx.held) == HeldFrame(s.rx.held) && t.rx.lost == s.rx.lost
    && t.tx.attempts == s.tx.attempts && t.tx.failed == s.tx.failed
    && Delivered(t) == Delivered(s)
  }

  lemma HandleKeepsLoop(c: Config, s: Conn, a: Action)
    requires s.rx.receiver ==> s.rx.abandoned == []
    requires HandleEnabled(c, s, a)
    ensures LoopUntouched(s, HandleApply(c, s, a))
  {
    if a.Consume? {
      assert s.rx.queue == [s.rx.queue[0]] + s.rx.queue[1..];
    }
  }

  lemma NotAbandoned(c: Config, s: Conn)
    requires Inv(c, s)
    ensures s.rx.receiver ==> s.rx.abandoned == []
    ensures s.rx.held.Some? ==> InLoop(s.phase) && !s.phase.Handling?
  {
  }

  /** Steps of the handles are steps of the state machine. */
  lemma HandleIsStep(c: Config, s: Conn, a: Action)
    requires HandleEnabled(c, s, a)
    ensures Step(c, s, a) == HandleApply(c, s, a)
  {
  }

  lemma OpKeepsLoop(c: Config, s: Conn, op: Operation)
    requires Inv(c, s)
    ensures Inv(c, OpStep(c, s, op)) && LoopUntouched(s, OpStep(c, s, op))
  {
    hide Inv, LoopUntouched, Protocol.Step, Protocol.HandleApply, Protocol.HandleEnabled, ActionOf;
    var a := ActionOf(s, op);
    Untouched(s);
    if a.Some? && HandleEnabled(c, s, a.value) {
      NotAbandoned(c, s);
      HandleKeepsLoop(c, s, a.value);
      HandleIsStep(c, s, a.value);
      InvStep(c, s, a.value);
    }
  }

  lemma Untouched(s: Conn)
    ensures LoopUntouched(s, s)
  {
  }

  lemma {:induction false} OthersKeepLoop(c: Config, s: Conn, ops: seq<Operation>)
    requires Inv(c, s)
    ensures Inv(c, OpsRun(c, s, ops)) && LoopUntouched(s, OpsRun(c, s, ops))
  {
    hide Inv, OpStep, Delivered;
    if |ops| != 0 {
      OthersKeepLoop(c, s, ops[..|ops| - 1]);
      OpKeepsLoop(c, OpsRun(c, s, ops[..|ops| - 1]), ops[|ops| - 1]);
    }
  }

  // ----- what a turn amounts to

  /** The outgoing arm won in state s and left t: the queue's first payload was written and answered. */
  ghost predicate OutgoingServed(s: Conn, r: WriteResult, t: Conn) {
    && t.rx.read == s.rx.read && Delivered(t) == Delivered(s)
    && if s.tx.queue != [] then
         var p := s.tx.queue[0];
         && t.wire == (if r.Ok? then s.wire + [Sent(p.message, User(p), |s.rx.read|)] else s.wire)
         && t.tx.attempts == (if p.confirmed then s.tx.attempts + [Attempt(p.id, FromWire(r))] else s.tx.attempts)
         && (r.Err? ==> Outcome(t.phase).Errored?) && !Outcome(t.phase).Closed?
       else if s.tx.senders == 0 then
         Outcome(t.phase) == Errored(SocketeerDroppedWithoutClosing) && t.wire == s.wire
       else
         t == s
  }

  /** The timer arm won: a due keepalive was written, or its failure ended the loop. */
  ghost predicate TimerServed(c: Config, s: Conn, r: WriteResult, t: Conn) {
    && t.rx.read == s.rx.read && Delivered(t) == Delivered(s)
    && if c.keepalive.Some? && s.clock.now - s.clock.since >= c.keepalive.value then
         match (r, c.keepaliveMessage)
         case (Ok(_), Some(m)) => t.phase.Select? && t.wire == s.wire + [Sent(m, Keepalive, |s.rx.read|)]
         case (Ok(_), None) => t.phase.Select? && t.wire == s.wire + [Sent(Ping([]), Keepalive, |s.rx.read|)]
         case (Err(e), _) => Outcome(t.phase) == Errored(WebsocketError(e)) && t.wire == s.wire
       else
         t == s
  }

  /** The permit arm won: the held frame moved into the queue, or the receiver was found gone. */
  ghost predicate CapacityServed(c: Config, s: Conn, t: Conn) {
    && t.rx.read == s.rx.read && t.wire == s.wire
    && if s.rx.held.None? || (s.rx.receiver && |s.rx.queue| >= c.capacity) then t == s
       else if s.rx.receiver then
         t.phase.Select? && t.rx.held.None? && Delivered(t) == Delivered(s) + HeldFrame(s.rx.held)
       else
         Outcome(t.phase) == Errored(SocketeerDroppedWithoutClosing)
  }

  /** How the main loop takes an event other than a data frame. */
  function EventOutcome(e: StreamEvent, r: WriteResult): LoopState {
    match e
    case Frame(Ping(_)) => if r.Ok? then Running else Errored(WebsocketError(r.error))
    case Frame(Close(_)) => if r.Ok? then Closed else Errored(WebsocketError(r.error))
    case Frame(_) => Running
    case Failure(error) => Errored(WebsocketError(error))
    case End => Errored(WebsocketClosed)
  }

  /** What it writes for the event. */
  function EventReply(e: StreamEvent, r: WriteResult, readCount: nat): seq<Sent> {
    if r.Err? then []
    else match e
         case Frame(Ping(_)) => [Sent(Pong(PONG_BYTES), PongReply, readCount)]
         case Frame(Close(_)) => [Sent(Close(None), CloseReply, readCount)]
         case _ => []
  }

  /** A data frame is delivered if there is room, held if there is none, lost if the receiver is gone. */
  ghost predicate FrameOffered(c: Config, s: Conn, m: Message, t: Conn) {
    if !s.rx.receiver then
      && Outcome(t.phase) == Errored(SocketeerDroppedWithoutClosing)
      && t.rx.lost == s.rx.lost + [m] && Delivered(t) == Delivered(s)
    else if |s.rx.queue| < c.capacity then
      t.phase.Select? && t.rx.held.None? && Delivered(t) == Delivered(s) + [m]
    else
      t.phase.Select? && HeldFrame(t.rx.held) == [m] && Delivered(t) == Delivered(s)
  }

  /** The incoming arm won: exactly the stream's next event was read, if there was one, and served. */
  ghost predicate IncomingServed(c: Config, s: Conn, r: WriteResult, t: Conn) {
    if s.rx.held.Some? || s.rx.stream == [] then t == s
    else
      var e := s.rx.stream[0];
      && t.rx.read == s.rx.read + [e]
      && if DataOf(e) != [] then
           t.wire == s.wire && FrameOffered(c, s, e.message, t)
         else
           && t.wire == s.wire + EventReply(e, r, |s.rx.read| + 1)
           && Outcome(t.phase) == EventOutcome(e, r) && Delivered(t) == Delivered(s)
  }

  /** One turn: others ran, then the winning arm was served, if it was ready. */
  ghost predicate TurnServed(c: Config, s: Conn, turn: Turn, t: Conn) {
    var woken := OpsRun(c, s, turn.suspended);
    && s.phase.Select? && LoopUntouched(s, woken)
    && (t.phase.Select? || t.phase.Left?)
    && match turn.arm
       case Outgoing => OutgoingServed(woken, turn.result, t)
       case IncomingFrame => IncomingServed(c, woken, turn.result, t)
       case Timer => TimerServed(c, woken, turn.result, t)
       case Capacity => CapacityServed(c, woken, t)
  }

  lemma OthersWrite(c: Config, s: Conn, turn: Turn, write: Action)
    requires Inv(c, s)
    ensures Inv(c, WriteRun(c, s, turn, write))
    ensures var w := OpsRun(c, s, turn.writing);
            Inv(c, w) && LoopUntouched(s, w) && WriteRun(c, s, turn, write) == Step(c, w, write)
  {
    hide Inv, Protocol.Step, LoopUntouched, OpsRun;
    OthersKeepLoop(c, s, turn.writing);
    InvStep(c, OpsRun(c, s, turn.writing), write);
  }

  lemma DequeueStep(c: Config, s: Conn)
    requires s.phase.Select? && s.tx.queue != []
    ensures var t := Step(c, s, Dequeue);
            && t.phase == Sending(s.tx.queue[0]) && t.wire == s.wire && t.tx.attempts == s.tx.attempts
            && t.rx == s.rx && Delivered(t) == Delivered(s)
  {
  }

  lemma WriteUserStep(c: Config, s: Conn, r: WriteResult)
    requires s.phase.Sending?
    ensures var t, p := Step(c, s, WriteUser(r)), s.phase.payload;
            && t.phase == Answering(p, r) && t.tx.attempts == s.tx.attempts && t.rx == s.rx
            && Delivered(t) == Delivered(s)
            && t.wire == if r.Ok? then s.wire + [Sent(p.message, User(p), |s.rx.read|)] else s.wire
  {
  }

  lemma AnswerStepIs(c: Config, s: Conn)
    requires s.phase.Answering?
    ensures var t, p, r := Step(c, s, Answer), s.phase.payload, s.phase.result;
            && t.wire == s.wire && t.rx.read == s.rx.read && Delivered(t) == Delivered(s)
            && t.tx.attempts == (if p.confirmed then s.tx.attempts + [Attempt(p.id, FromWire(r))] else s.tx.attempts)
            && (t.phase.Select? || t.phase.Left?)
            && (r.Err? ==> Outcome(t.phase).Errored?) && !Outcome(t.phase).Closed?
  {
  }

  lemma SeeNoSendersStep(c: Config, s: Conn)
    requires s.phase.Select? && s.tx.queue == []
    ensures var t := Step(c, s, SeeNoSenders);
            if s.tx.senders > 0 then t == s
            else && t.phase == Left(Errored(SocketeerDroppedWithoutClosing)) && t.wire == s.wire
                 && t.rx.read == s.rx.read && Delivered(t) == Delivered(s)
  {
  }

  /** Arms that are not ready. */
  lemma IdleArms(c: Config, s: Conn)
    requires s.phase.Select?
    ensures s.tx.queue != [] || s.tx.senders > 0 ==> Step(c, s, SeeNoSenders) == s
    ensures s.rx.held.None? || (s.rx.receiver && |s.rx.queue| >= c.capacity) ==> Step(c, s, Permit) == s
  {
  }

  lemma OutgoingServes(c: Config, s: Conn, turn: Turn)
    requires Inv(c, s) && s.phase.Select?
    ensures var t := OutgoingRun(c, s, turn); OutgoingServed(s, turn.result, t) && (t.phase.Select? || t.phase.Left?)
  {
    hide Inv, Protocol.Step, OpsRun, Delivered;
    if s.tx.queue != [] {
      var d := Step(c, s, Dequeue);
      DequeueStep(c, s);
      InvStep(c, s, Dequeue);
      OthersWrite(c, d, turn, WriteUser(turn.result));
      WriteUserStep(c, OpsRun(c, d, turn.writing), turn.result);
      var w := WriteRun(c, d, turn, WriteUser(turn.result));
      OthersKeepLoop(c, w, turn.settling);
      AnswerStepIs(c, OpsRun(c, w, turn.settling));
    } else {
      SeeNoSendersStep(c, s);
    }
  }

  lemma TickStep(c: Config, s: Conn)
    requires LoopEnabled(c, s, Tick)
    ensures var t := Step(c, s, Tick);
            t.phase == Ticking && t.wire == s.wire && t.rx == s.rx && Delivered(t) == Delivered(s)
  {
  }

  lemma KeepaliveStep(c: Config, s: Conn, r: WriteResult)
    requires s.phase.Ticking?
    ensures var t := Step(c, s, WriteKeepalive(r));
            && t.rx.read == s.rx.read && Delivered(t) == Delivered(s)
            && t.phase == (if r.Ok? then Select else Left(Errored(WebsocketError(r.error))))
            && t.wire == if r.Ok? then s.wire + [Sent(KeepaliveFrame(c), Keepalive, |s.rx.read|)] else s.wire
  {
  }

  lemma TimerServes(c: Config, s: Conn, turn: Turn)
    requires Inv(c, s) && s.phase.Select?
    ensures var t := TimerRun(c, s, turn); TimerServed(c, s, turn.result, t) && (t.phase.Select? || t.phase.Left?)
  {
    hide Inv, Protocol.Step, OpsRun, Delivered;
    if LoopEnabled(c, s, Tick) {
      TickStep(c, s);
      InvStep(c, s, Tick);
      OthersWrite(c, Step(c, s, Tick), turn, WriteKeepalive(turn.result));
      KeepaliveStep(c, OpsRun(c, Step(c, s, Tick), turn.writing), turn.result);
    }
  }

  lemma CapacityServes(c: Config, s: Conn)
    requires s.phase.Select? && (s.rx.receiver ==> s.rx.abandoned == [])
    ensures var t := Step(c, s, Permit); CapacityServed(c, s, t) && (t.phase.Select? || t.phase.Left?)
  {
  }

  lemma ReadStepIs(c: Config, s: Conn)
    requires s.phase.Select? && s.rx.held.None? && s.rx.stream != []
    ensures var t := Step(c, s, ReadEvent);
            && t.phase == Handling(s.rx.stream[0]) && t.rx.read == s.rx.read + [s.rx.stream[0]] && t.wire == s.wire
            && t.rx.held.None? && t.rx.queue == s.rx.queue && t.rx.receiver == s.rx.receiver
            && t.rx.lost == s.rx.lost && t.rx.abandoned == s.rx.abandoned && Delivered(t) == Delivered(s)
  {
  }

  /** A reply to a Ping or a Close. */
  lemma ReplyStep(c: Config, s: Conn, r: WriteResult)
    requires s.phase.Handling? && s.phase.event.Frame? && (s.phase.event.message.Ping? || s.phase.event.message.Close?)
    ensures var write := if s.phase.event.message.Ping? then WritePong(r) else CloseSink(r);
            var t := Step(c, s, write);
            && t.rx.read == s.rx.read && Delivered(t) == Delivered(s)
            && t.wire == s.wire + EventReply(s.phase.event, r, |s.rx.read|)
            && t.phase == (if EventOutcome(s.phase.event, r) == Running then Select
                           else Left(EventOutcome(s.phase.event, r)))
  {
  }

  /** The events that call for no write. */
  lemma QuietStep(c: Config, s: Conn, r: WriteResult)
    requires s.phase.Handling? && DataOf(s.phase.event) == []
    requires s.phase.event.Frame? ==> !s.phase.event.message.Ping? && !s.phase.event.message.Close?
    ensures var t := Step(c, s, if s.phase.event.Frame? then Ignore else StreamFails);
            && t.rx.read == s.rx.read && Delivered(t) == Delivered(s) && t.wire == s.wire
            && (s.rx.held.None? ==> t.rx.held.None?)
            && EventReply(s.phase.event, r, |s.rx.read|) == []
            && t.phase == (if EventOutcome(s.phase.event, r) == Running then Select
                           else Left(EventOutcome(s.phase.event, r)))
  {
  }

  lemma DeliverStep(c: Config, s: Conn)
    requires s.phase.Handling? && DataOf(s.phase.event) != []
    requires s.rx.held.None? && (s.rx.receiver ==> s.rx.abandoned == [])
    ensures var t := Step(c, s, Deliver);
            && t.rx.read == s.rx.read && t.wire == s.wire && (t.phase.Select? || t.phase.Left?)
            && FrameOffered(c, s, s.phase.event.message, t)
  {
  }

  lemma IncomingServes(c: Config, s: Conn, turn: Turn)
    requires Inv(c, s) && s.phase.Select?
    ensures var t := IncomingRun(c, s, turn);
            IncomingServed(c, s, turn.result, t) && (t.phase.Select? || t.phase.Left?)
  {
    hide Inv, Protocol.Step, OpsRun, Delivered, EventReply, EventOutcome;
    if s.rx.held.None? && s.rx.stream != [] {
      var e, h := s.rx.stream[0], Step(c, s, ReadEvent);
      ReadStepIs(c, s);
      InvStep(c, s, ReadEvent);
      NotAbandoned(c, s);
      if DataOf(e) != [] {
        DeliverStep(c, h);
      } else if e.Frame? && (e.message.Ping? || e.message.Close?) {
        var write := if e.message.Ping? then WritePong(turn.result) else CloseSink(turn.result);
        OthersWrite(c, h, turn, write);
        ReplyStep(c, OpsRun(c, h, turn.writing), turn.result);
      } else {
        QuietStep(c, h, turn.result);
        assert s.wire + [] == s.wire;
      }
    }
  }

  /** One turn of the loop, whichever arm wins, whatever runs beside it. */
  lemma TurnServes(c: Config, s: Conn, turn: Turn)
    requires Inv(c, s) && s.phase.Select?
    ensures Inv(c, TurnRun(c, s, turn)) && TurnServed(c, s, turn, TurnRun(c, s, turn))
  {
    hide Inv, Protocol.Step, OpsRun, Delivered, OutgoingServed, IncomingServed, TimerServed, CapacityServed;
    hide OutgoingRun, IncomingRun, TimerRun;
    var woken := OpsRun(c, s, turn.suspended);
    OthersKeepLoop(c, s, turn.suspended);
    match turn.arm
    case Outgoing =>
      OutgoingServes(c, woken, turn);
      OutgoingKeepsInv(c, woken, turn);
    case IncomingFrame =>
      IncomingServes(c, woken, turn);
      IncomingKeepsInv(c, woken, turn);
    case Timer =>
      TimerServes(c, woken, turn);
      TimerKeepsInv(c, woken, turn);
    case Capacity =>
      NotAbandoned(c, woken);
      CapacityServes(c, woken);
      InvStep(c, woken, Permit);
  }

  lemma OutgoingKeepsInv(c: Config, s: Conn, turn: Turn)
    requires Inv(c, s)
    ensures Inv(c, OutgoingRun(c, s, turn))
  {
    hide Inv, Protocol.Step, OpsRun;
    InvStep(c, s, SeeNoSenders);
    InvStep(c, s, Dequeue);
    OthersWrite(c, Step(c, s, Dequeue), turn, WriteUser(turn.result));
    var w := WriteRun(c, Step(c, s, Dequeue), turn, WriteUser(turn.result));
    OthersKeepLoop(c, w, turn.settling);
    InvStep(c, OpsRun(c, w, turn.settling), Answer);
  }

  lemma IncomingKeepsInv(c: Config, s: Conn, turn: Turn)
    requires Inv(c, s)
    ensures Inv(c, IncomingRun(c, s, turn))
  {
    hide Inv, Protocol.Step, OpsRun;
    var h := Step(c, s, ReadEvent);
    InvStep(c, s, ReadEvent);
    OthersWrite(c, h, turn, WritePong(turn.result));
    OthersWrite(c, h, turn, CloseSink(turn.result));
    InvStep(c, h, Deliver);
    InvStep(c, h, Ignore);
    InvStep(c, h, StreamFails);
  }

  lemma TimerKeepsInv(c: Config, s: Conn, turn: Turn)
    requires Inv(c, s)
    ensures Inv(c, TimerRun(c, s, turn))
  {
    hide Inv, Protocol.Step, OpsRun, Protocol.LoopEnabled;
    InvStep(c, s, Tick);
    OthersWrite(c, Step(c, s, Tick), turn, WriteKeepalive(turn.result));
  }

  /** Every turn of a run was served, one after the other. */
  ghost predicate Served(c: Config, s: Conn, turns: seq<Turn>) {
    forall i :: 0 <= i < |turns| ==>
      TurnServed(c, TurnsRun(c, s, turns[..i]), turns[i], TurnRun(c, TurnsRun(c, s, turns[..i]), turns[i]))
  }

  lemma {:induction false} RunIsServed(c: Config, s: Conn, turns: seq<Turn>)
    requires Inv(c, s) && InSelect(c, s, turns)
    ensures Inv(c, TurnsRun(c, s, turns)) && Served(c, s, turns)
  {
    hide Inv, TurnRun, TurnServed;
    if |turns| != 0 {
      var front, last := turns[..|turns| - 1], turns[|turns| - 1];
      RunIsServed(c, s, front);
      TurnServes(c, TurnsRun(c, s, front), last);
      forall i | 0 <= i < |turns|
        ensures TurnServed(c, TurnsRun(c, s, turns[..i]), turns[i], TurnRun(c, TurnsRun(c, s, turns[..i]), turns[i]))
      {
        if i < |front| {
          assert front[..i] == turns[..i] && front[i] == turns[i];
        }
      }
    }
  }

  /** From s the loop ran its script down to `rest`, each turn found in a select, and is now at t. */
  ghost predicate Ran(c: Config, s: Conn, script: seq<Turn>, rest: seq<Turn>, t: Conn) {
    && |rest| <= |script| && rest == script[|script| - |rest|..]
    && var run := script[..|script| - |rest|]; t == TurnsRun(c, s, run) && InSelect(c, s, run)
  }

  /** The turns that a run has used up. */
  function Used(script: seq<Turn>, rest: seq<Turn>): seq<Turn>
    requires |rest| <= |script|
  {
    script[..|script| - |rest|]
  }

  lemma RanNothing(c: Config, s: Conn, script: seq<Turn>)
    ensures Ran(c, s, script, script, s)
  {
    hide TurnRun;
    assert script[..0] == [] && script[0..] == script;
  }

  lemma RanTurn(c: Config, s: Conn, script: seq<Turn>, rest: seq<Turn>, t: Conn)
    requires Ran(c, s, script, rest, t) && rest != [] && t.phase.Select?
    ensures Ran(c, s, script, rest[1..], TurnRun(c, t, rest[0]))
  {
    hide TurnRun, TurnsRun, InSelect;
    var k := |script| - |rest|;
    assert script[..k + 1] == script[..k] + [rest[0]];
    TurnsAppend(c, s, script[..k], rest[0]);
  }

  lemma RanThen(c: Config, s: Conn, script: seq<Turn>, rest: seq<Turn>, t: Conn, left: seq<Turn>, u: Conn)
    requires Ran(c, s, script, rest, t) && Ran(c, t, rest, left, u)
    ensures Ran(c, s, script, left, u)
  {
    hide TurnRun, TurnsRun, InSelect;
    var first, second := Used(script, rest), Used(rest, left);
    assert script == first + rest && rest == second + left;
    assert Used(script, left) == first + second;
    TurnsConcat(c, s, first, second);
  }

  lemma RanEnds(c: Config, s: Conn, script: seq<Turn>, rest: seq<Turn>, t: Conn)
    requires Ran(c, s, script, rest, t)
    ensures |rest| <= |script| && t == TurnsRun(c, s, Used(script, rest))
  {
    hide TurnsRun, InSelect;
  }

  lemma RanIsServed(c: Config, s: Conn, script: seq<Turn>, rest: seq<Turn>, t: Conn)
    requires Inv(c, s) && Ran(c, s, script, rest, t)
    ensures Served(c, s, Used(script, rest))
  {
    hide Inv, TurnRun, TurnsRun, InSelect, Served;
    RunIsServed(c, s, Used(script, rest));
  }

  // ----- the loop's last acts

  /** Nothing was written, answered, read, delivered or lost. */
  ghost predicate SameHistory(s: Conn, t: Conn) {
    && t.wire == s.wire && t.tx.attempts == s.tx.attempts && t.tx.failed == s.tx.failed
    && t.rx.read == s.rx.read && t.rx.lost == s.rx.lost && Delivered(t) == Delivered(s)
  }

  /** The loop's last acts touch only the slot, the channels' ends and the queue. */
  lemma ExitStep(c: Config, s: Conn, a: Action)
    requires a.Record? || a.DropRxSender? || a.DropTxReceiver?
    requires LoopEnabled(c, s, a)
    ensures var t := Step(c, s, a);
            && SameHistory(s, t)
            && t.phase == (match a
                           case Record => Recorded(Outcome(s.phase))
                           case DropRxSender => RxClosed(Outcome(s.phase))
                           case _ => Finished(Outcome(s.phase)))
            && (a.DropTxReceiver? ==> t.tx.queue == [])
  {
  }

  lemma ExitKeepsHistory(c: Config, s: Conn, exit: Exit)
    requires Inv(c, s) && s.phase.Left?
    ensures var t := ExitRun(c, s, exit);
            SameHistory(s, t) && t.phase == Finished(s.phase.outcome) && t.tx.queue == []
  {
    hide Inv, Protocol.Step, OpsRun, Delivered;
    var s1 := OpsRun(c, s, exit.leaving);
    OthersKeepLoop(c, s, exit.leaving);
    ExitStep(c, s1, Record);
    InvStep(c, s1, Record);
    var s2 := OpsRun(c, Step(c, s1, Record), exit.recorded);
    OthersKeepLoop(c, Step(c, s1, Record), exit.recorded);
    ExitStep(c, s2, DropRxSender);
    InvStep(c, s2, DropRxSender);
    OthersKeepLoop(c, Step(c, s2, DropRxSender), exit.closing);
    ExitStep(c, OpsRun(c, Step(c, s2, DropRxSender), exit.closing), DropTxReceiver);
  }
}
