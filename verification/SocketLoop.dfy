/**
 The imperative code: the socket loop's functions and the operations of the handles, over one
 object that holds what they share. Each update is accompanied by the step of the Protocol module
 that it is claimed to be, and Valid ties the fields to the state those steps lead to; so every
 guarantee about reachable states is a guarantee about this code.

 An async function is cut at its awaits. Whatever other tasks do while the loop is suspended, or
 beside it, is a list of operations taken from the script, which also says which ready arm of a
 select wins and what a write returns. A script may end anywhere: then the loop stays suspended.
 */
module SocketLoop {
  import opened Messages
  import opened Sequences
  import opened Protocol
  import opened Outbound
  import opened Inbound
  import opened TerminalCause
  import opened Reachability
  import opened SendGuarantees
  import opened ReceiveGuarantees
  import opened CloseCalls
  import opened Turns

  /** One poll of the channel send inside `send_confirmed`, `send_unconfirmed` or `send_close`. */
  datatype SendPoll = Accepted(id: nat) | Full | Refused(error: Error)

  /** One poll of the one-shot a confirmed sender waits on; Unreachable is the panic. */
  datatype AnswerPoll = AnswerPending | Answered(result: SendResult) | Unreachable

  /** One poll of `recv_raw`. */
  datatype RecvPoll = RecvPending | Received(result: Result<Message, Error>)

  /** One poll of `poll_recv_raw`. */
  datatype ItemPoll = ItemPending | Item(result: Result<Message, Error>) | EndOfStream

  datatype Incoming = State(state: LoopState) | Data(frame: Message)

  /** The result of running a loop against a script. */
  datatype Progress = Ready(state: LoopState) | Suspended

  function MessageOf(w: Sent): seq<Message> {
    [w.message]
  }

  /** The handles, the network or the clock make this step. */
  ghost predicate Does(c: Config, s: Conn, a: Action, t: Conn) {
    HandleEnabled(c, s, a) && t == HandleApply(c, s, a)
  }

  /** The reading side is where it was. */
  ghost predicate SameReading(s: Conn, t: Conn) {
    t.rx.read == s.rx.read && HeldFrame(t.rx.held) == HeldFrame(s.rx.held) && Delivered(t) == Delivered(s)
  }

  lemma TerminalOf(c: Config, s: Conn)
    requires Inv(c, s)
    ensures TerminalInv(s)
  {
    hide TerminalInv;
  }

  predicate IsSendOperation(op: Operation) {
    op.Send? || op.AwaitAnswer? || op.CancelWait? || op.CloneTx? || op.DropTx?
  }

  /** What the loop's use of a one-shot changes, field by field. */
  lemma AnswerEffect(c: Config, s: Conn)
    requires s.phase.Answering?
    ensures var t, p, r := Step(c, s, Answer), s.phase.payload, s.phase.result;
            && t.tx.queue == s.tx.queue && t.tx.senders == s.tx.senders && t.tx.accepted == s.tx.accepted
            && t.tx.waiting == s.tx.waiting && t.wire == s.wire && t.terminal == s.terminal
            && t.rx.stream == s.rx.stream && t.rx.queue == s.rx.queue && t.rx.receiver == s.rx.receiver
            && t.tx.answers == (if p.confirmed && p.id in s.tx.waiting
                                then s.tx.answers[p.id := FromWire(r)] else s.tx.answers)
            && t.clock.now == s.clock.now
            && (if p.confirmed && p.id !in s.tx.waiting then t.phase == Left(Errored(SocketeerDroppedWithoutClosing))
                else if r.Err? then t.phase == Left(Errored(WebsocketClosed))
                else t.phase == Select)
            && t.clock.since == if t.phase.Select? then s.clock.now else s.clock.since
  {
    hide Protocol.HandleEnabled, Protocol.HandleApply;
  }

  class Connection {
    const config: Config
    // the outbound channel and its one-shots
    var txQueue: seq<Payload>
    var senders: nat
    var txClosed: bool
    var nextId: nat
    var waiting: set<nat>
    var answers: map<nat, SendResult>
    var taken: Option<Payload>
    // the inbound stream and channel
    var stream: seq<StreamEvent>
    var rxQueue: seq<Message>
    var receiver: bool
    var rxClosed: bool
    // the socket's sink, the terminal slot and the keepalive timer
    var sink: seq<Message>
    var slot: Option<Error>
    var now: nat
    var timerStart: nat
    // the abstract state, and the steps that led to it
    ghost var conn: Conn
    ghost const initial: seq<StreamEvent>
    ghost var schedule: seq<Action>

    ghost predicate Traced()
      reads this
    {
      conn == Exec(config, Init(initial), schedule)
    }

    ghost predicate TxAgrees()
      reads this
    {
      && txQueue == conn.tx.queue && senders == conn.tx.senders
      && nextId == |conn.tx.accepted| && waiting == conn.tx.waiting && answers == conn.tx.answers
      && taken == Taken(conn.phase)
    }

    ghost predicate RxAgrees()
      reads this
    {
      stream == conn.rx.stream && rxQueue == conn.rx.queue && receiver == conn.rx.receiver
    }

    /** The fields are those of the abstract state. */
    ghost predicate Agrees()
      reads this
    {
      && TxAgrees() && RxAgrees()
      && txClosed == TxIsClosed(conn.phase) && rxClosed == RxIsClosed(conn.phase)
      && sink == Flat(MessageOf, conn.wire)
      && slot == conn.terminal.slot && now == conn.clock.now && timerStart == conn.clock.since
    }

    ghost predicate Valid()
      reads this
    {
      Traced() && Agrees()
    }

    /** The connection as `connect_with_codec` leaves it: both channels empty, the loop about to run. */
    constructor (config: Config, stream: seq<StreamEvent>)
      ensures Valid()
      ensures this.config == config && initial == stream && conn == Init(stream) && schedule == []
      ensures txQueue == [] && senders == 1 && !txClosed && waiting == {} && answers == map[] && taken == None
      ensures this.stream == stream && rxQueue == [] && receiver && !rxClosed
      ensures sink == [] && slot == None && timerStart == now
    {
      this.config, this.stream, this.initial := config, stream, stream;
      txQueue, senders, txClosed, nextId, waiting, answers, taken := [], 1, false, 0, {}, map[], None;
      rxQueue, receiver, rxClosed := [], true, false;
      sink, slot, now, timerStart := [], None, 0, 0;
      conn, schedule := Init(stream), [];
    }

    /** Record that the code has just made this step. */
    ghost method Log(a: Action)
      requires Traced()
      modifies this`conn, this`schedule
      ensures Traced()
      ensures conn == Step(config, old(conn), a) && schedule == old(schedule) + [a]
    {
      ExecAppend(config, Init(initial), schedule, a);
      conn := Step(config, conn, a);
      schedule := schedule + [a];
    }

    // ----- the handles

    /** `take_terminal_error_opt`, by an operation that has just observed closure. */
    method TakeTerminalErrorOpt(taker: Taker) returns (cause: Option<Error>)
      requires Valid() && HandleEnabled(config, conn, Take(taker))
      modifies this`slot, this`conn, this`schedule
      ensures old(schedule) <= schedule
      ensures Valid() && Does(config, old(conn), Take(taker), conn)
      ensures cause == old(slot) && slot == None
    {
      cause := slot;
      slot := None;
      Log(Take(taker));
    }

    /** `take_terminal_error`. */
    method TakeTerminalError(taker: Taker) returns (error: Error)
      requires Valid() && HandleEnabled(config, conn, Take(taker))
      modifies this`slot, this`conn, this`schedule
      ensures old(schedule) <= schedule
      ensures Valid() && Does(config, old(conn), Take(taker), conn)
      ensures error == (if old(slot).Some? then old(slot).value else WebsocketClosed) && slot == None
    {
      var cause := TakeTerminalErrorOpt(taker);
      error := if cause.Some? then cause.value else WebsocketClosed;
    }

    /** The channel takes a payload, with the one-shot of a confirmed send. */
    method Accept(m: Message, confirmed: bool) returns (id: nat)
      requires Valid() && senders > 0 && !txClosed && |txQueue| < config.capacity
      modifies this`txQueue, this`waiting, this`nextId, this`conn, this`schedule
      ensures old(schedule) <= schedule
      ensures Valid() && id == |old(conn).tx.accepted| && Does(config, old(conn), Enqueue(m, confirmed), conn)
      ensures id == old(nextId) && nextId == id + 1
      ensures txQueue == old(txQueue) + [Payload(id, m, confirmed)]
      ensures waiting == if confirmed then old(waiting) + {id} else old(waiting)
      ensures conn.tx.accepted == old(conn).tx.accepted + [Payload(id, m, confirmed)]
    {
      hide Protocol.Exec, Sequences.Flat, Protocol.LoopApply;
      id := nextId;
      txQueue := txQueue + [Payload(id, m, confirmed)];
      if confirmed {
        waiting := waiting + {id};
      }
      nextId := nextId + 1;
      Log(Enqueue(m, confirmed));
    }

    /** The await on `sender.send` in `send_confirmed`, `send_unconfirmed` and `send_close`. */
    method PollSend(message: Message, kind: SendKind) returns (r: SendPoll)
      requires Valid() && senders > 0
      modifies this`txQueue, this`waiting, this`nextId, this`slot, this`conn, this`schedule
      ensures old(schedule) <= schedule
      ensures Valid()
      ensures match r
              case Accepted(id) =>
                id == |old(conn).tx.accepted| && !TxIsClosed(old(conn).phase)
                    && Does(config, old(conn), EnqueueFor(message, kind), conn)
              case Full => conn == old(conn) && !TxIsClosed(conn.phase) && |conn.tx.queue| >= config.capacity
              case Refused(e) =>
                && TxIsClosed(old(conn).phase)
                && if kind.CloseRequest? then conn == old(conn) && e == WebsocketClosed
                   else Does(config, old(conn), Take(SendCall), conn)
                        && e == if old(slot).Some? then old(slot).value else WebsocketClosed
      ensures r.Accepted? ==>
                var sent, id := txQueue[|old(txQueue)|..], r.id;
                && old(txQueue) <= txQueue && slot == old(slot)
                && conn.tx.accepted == old(conn).tx.accepted + sent
                && match kind
                   case ConfirmedSend => sent == [Payload(id, message, true)] && waiting == old(waiting) + {id}
                   case UnconfirmedSend => sent == [Payload(id, message, false)] && waiting == old(waiting)
                   case CloseRequest =>
                     && sent == [Payload(id, Close(Some(CloseFrame(1000, "Closing Connection"))), true)]
                     && waiting == old(waiting) + {id}
      ensures !r.Accepted? ==> txQueue == old(txQueue) && waiting == old(waiting)
      ensures r.Refused? ==> slot == if kind.CloseRequest? then old(slot) else None
    {
      hide Protocol.Exec, Sequences.Flat, Protocol.LoopApply;
      if txClosed {
        if kind.CloseRequest? {
          r := Refused(WebsocketClosed);
        } else {
          var e := TakeTerminalError(SendCall);
          r := Refused(e);
        }
      } else if |txQueue| >= config.capacity {
        r := Full;
      } else {
        var id := Accept(if kind.CloseRequest? then CLOSE_REQUEST else message, !kind.UnconfirmedSend?);
        r := Accepted(id);
      }
    }

    /** The await on the one-shot in `send_confirmed` and `send_close`. */
    method PollAnswer(id: nat) returns (r: AnswerPoll)
      requires Valid() && id in waiting
      modifies this`waiting, this`conn, this`schedule
      ensures old(schedule) <= schedule
      ensures Valid()
      ensures match r
              case AnswerPending => conn == old(conn) && id !in conn.tx.answers && HoldsOneShot(conn, id)
              case Answered(result) =>
                id in old(conn).tx.answers && result == old(conn).tx.answers[id]
                    && Does(config, old(conn), Resolve(id), conn)
              case Unreachable => OneShotDropped(old(conn), id) && Does(config, old(conn), Resolve(id), conn)
      ensures waiting == if r.AnswerPending? then old(waiting) else old(waiting) - {id}
      ensures r.Answered? <==> id in answers
      ensures r.Answered? ==> r.result == answers[id]
      ensures r.AnswerPending? <==>
                id !in answers && ((exists p :: p in txQueue && p.id == id) || (taken.Some? && taken.value.id == id))
    {
      hide Protocol.Exec, Sequences.Flat, Protocol.LoopApply;
      if id in answers {
        r := Answered(answers[id]);
        waiting := waiting - {id};
        Log(Resolve(id));
      } else if (exists p :: p in txQueue && p.id == id) || (taken.Some? && taken.value.id == id) {
        r := AnswerPending;
      } else {
        r := Unreachable;
        waiting := waiting - {id};
        Log(Resolve(id));
      }
    }

    /** `recv_raw`. */
    method PollRecv() returns (r: RecvPoll)
      requires Valid() && receiver
      modifies this`rxQueue, this`slot, this`conn, this`schedule
      ensures old(schedule) <= schedule
      ensures Valid()
      ensures match r
              case RecvPending => conn == old(conn) && conn.rx.queue == [] && !RxIsClosed(conn.phase)
              case Received(Ok(m)) => old(conn).rx.queue != [] && m == old(conn).rx.queue[0]
                  && Does(config, old(conn), Consume, conn)
              case Received(Err(e)) =>
                && old(conn).rx.queue == [] && RxIsClosed(old(conn).phase)
                && e == (if old(slot).Some? then old(slot).value else WebsocketClosed)
                && Does(config, old(conn), Take(ReceiveCall), conn)
      ensures match r
              case RecvPending => rxQueue == old(rxQueue) == [] && !rxClosed && slot == old(slot)
              case Received(Ok(m)) => old(rxQueue) == [m] + rxQueue && slot == old(slot)
              case Received(Err(_)) => rxQueue == old(rxQueue) == [] && rxClosed && slot == None
    {
      hide Protocol.Exec, Sequences.Flat, Protocol.LoopApply;
      if rxQueue != [] {
        r := Received(Ok(rxQueue[0]));
        rxQueue := rxQueue[1..];
        Log(Consume);
      } else if rxClosed {
        var e := TakeTerminalError(ReceiveCall);
        r := Received(Err(e));
      } else {
        r := RecvPending;
      }
    }

    /** `poll_recv_raw`. */
    method PollNextItem() returns (r: ItemPoll)
      requires Valid() && receiver
      modifies this`rxQueue, this`slot, this`conn, this`schedule
      ensures old(schedule) <= schedule
      ensures Valid()
      ensures match r
              case ItemPending => conn == old(conn) && conn.rx.queue == [] && !RxIsClosed(conn.phase)
              case Item(Ok(m)) => old(conn).rx.queue != [] && m == old(conn).rx.queue[0]
                  && Does(config, old(conn), Consume, conn)
              case Item(Err(e)) => old(slot) == Some(e) && old(conn).rx.queue == []
                  && Does(config, old(conn), Take(ReceiveCall), conn)
              case EndOfStream =>
                old(slot) == None && old(conn).rx.queue == [] && RxIsClosed(old(conn).phase)
                    && Does(config, old(conn), Take(ReceiveCall), conn)
      ensures match r
              case ItemPending => rxQueue == old(rxQueue) == [] && !rxClosed && slot == old(slot)
              case Item(Ok(m)) => old(rxQueue) == [m] + rxQueue && slot == old(slot)
              case Item(Err(_)) => rxQueue == old(rxQueue) == [] && rxClosed && slot == None
              case EndOfStream => rxQueue == old(rxQueue) == [] && rxClosed && slot == None
    {
      hide Protocol.Exec, Sequences.Flat, Protocol.LoopApply;
      if rxQueue != [] {
        r := Item(Ok(rxQueue[0]));
        rxQueue := rxQueue[1..];
        Log(Consume);
      } else if rxClosed {
        var cause := TakeTerminalErrorOpt(ReceiveCall);
        r := if cause.Some? then Item(Err(cause.value)) else EndOfStream;
      } else {
        r := ItemPending;
      }
    }

    /** The end of `close_connection`: wait for the loop's task, then prefer its recorded cause. */
    method PollClose(closeSent: SendResult) returns (r: Option<SendResult>)
      requires Valid()
      modifies this`slot, this`conn, this`schedule
      ensures old(schedule) <= schedule
      ensures Valid()
      ensures if TxIsClosed(old(conn).phase) then
                && Does(config, old(conn), Take(CloseConnectionCall), conn)
                && r == Some(if old(slot).Some? then Err(old(slot).value) else closeSent)
              else
                r == None && conn == old(conn)
      ensures r.Some? <==> txClosed
      ensures slot == if txClosed then None else old(slot)
    {
      hide Protocol.Exec, Sequences.Flat, Protocol.LoopApply;
      if txClosed {
        var terminal := TakeTerminalErrorOpt(CloseConnectionCall);
        r := Some(if terminal.Some? then Err(terminal.value) else closeSent);
      } else {
        r := None;
      }
    }

    /** `close_connection` from one await to the next: the request, its answer, then the loop's task. */
    method AdvanceClose(call: CloseCall) returns (next: CloseCall)
      requires Valid() && (call.Requesting? ==> senders > 0) && (call.AwaitingAnswer? ==> call.id in waiting)
      modifies this`txQueue, this`waiting, this`nextId, this`slot, this`conn, this`schedule
      ensures old(schedule) <= schedule
      ensures Valid()
      ensures next == PollCall(config, old(conn), call).0 && conn == AfterPoll(config, old(conn), call)
      ensures call.Requesting? && next.AwaitingAnswer? ==>
                var close := Close(Some(CloseFrame(1000, "Closing Connection")));
                txQueue == old(txQueue) + [Payload(next.id, close, true)] && waiting == old(waiting) + {next.id}
    {
      hide Protocol.Exec, Sequences.Flat, Protocol.LoopApply;
      next := call;
      match call
      case Requesting =>
        var sent := PollSend(CLOSE_REQUEST, CloseRequest);
        match sent {
          case Accepted(id) => next := AwaitingAnswer(id);
          case Full =>
          case Refused(error) => next := Joining(None, Err(error));
        }
      case AwaitingAnswer(id) =>
        var answer := PollAnswer(id);
        match answer {
          case AnswerPending =>
          case Answered(result) => next := Joining(Some(id), result);
          case Unreachable => next := CallerPanicked(id);
        }
      case Joining(request, sent) =>
        var joined := PollClose(sent);
        if joined.Some? {
          next := Returned(request, joined.value);
        }
      case _ =>
    }

    /** The caller of a confirmed send is cancelled: its one-shot's receiving half is gone. */
    method Forget(id: nat)
      requires Valid() && id in waiting
      modifies this`waiting, this`conn, this`schedule
      ensures old(schedule) <= schedule
      ensures Valid() && Does(config, old(conn), Cancel(id), conn)
      ensures waiting == old(waiting) - {id}
    {
      hide Protocol.Exec, Sequences.Flat, Protocol.LoopApply;
      waiting := waiting - {id};
      Log(Cancel(id));
    }

    /** `SocketeerTx::clone`. */
    method CloneSendHalf()
      requires Valid() && senders > 0
      modifies this`senders, this`conn, this`schedule
      ensures old(schedule) <= schedule
      ensures Valid() && Does(config, old(conn), CloneSender, conn)
      ensures senders == old(senders) + 1
    {
      hide Protocol.Exec, Sequences.Flat, Protocol.LoopApply;
      senders := senders + 1;
      Log(CloneSender);
    }

    method DropSendHalf()
      requires Valid() && (senders > 1 || (senders == 1 && waiting == {}))
      modifies this`senders, this`conn, this`schedule
      ensures old(schedule) <= schedule
      ensures Valid() && Does(config, old(conn), DropSender, conn)
      ensures senders == old(senders) - 1
    {
      hide Protocol.Exec, Sequences.Flat, Protocol.LoopApply;
      senders := senders - 1;
      Log(DropSender);
    }

    method DropReceiveHalf()
      requires Valid() && receiver
      modifies this`receiver, this`rxQueue, this`conn, this`schedule
      ensures old(schedule) <= schedule
      ensures Valid() && Does(config, old(conn), DropReceiver, conn)
      ensures !receiver && rxQueue == []
    {
      hide Protocol.Exec, Sequences.Flat, Protocol.LoopApply;
      receiver, rxQueue := false, [];
      Log(DropReceiver);
    }

    method NetworkDelivery(e: StreamEvent)
      requires Valid()
      modifies this`stream, this`conn, this`schedule
      ensures old(schedule) <= schedule
      ensures Valid() && Does(config, old(conn), Arrive(e), conn)
      ensures stream == old(stream) + [e]
    {
      hide Protocol.Exec, Sequences.Flat, Protocol.LoopApply;
      stream := stream + [e];
      Log(Arrive(e));
    }

    /** A due timer wakes the select before more time can pass; during a write no timer runs. */
    method Wait(d: nat, selecting: bool)
      requires Valid() && selecting == conn.phase.Select?
      requires selecting && config.keepalive.Some? ==> now + d <= timerStart + config.keepalive.value
      modifies this`now, this`conn, this`schedule
      ensures old(schedule) <= schedule
      ensures Valid() && Does(config, old(conn), Elapse(d), conn)
      ensures now == old(now) + d
    {
      hide Protocol.Exec, Sequences.Flat, Protocol.LoopApply;
      now := now + d;
      Log(Elapse(d));
    }

    /** An operation of a sender or of a call that has sent; one that cannot happen now does not. */
    method PerformSend(op: Operation)
      requires Valid() && IsSendOperation(op)
      modifies this`txQueue, this`waiting, this`nextId, this`slot, this`senders, this`conn, this`schedule
      ensures old(schedule) <= schedule
      ensures Valid()
      ensures conn == OpStep(config, old(conn), op)
    {
      hide Protocol.Exec, Sequences.Flat, Protocol.HandleApply;
      match op
      case Send(m, kind) =>
        if senders > 0 {
          var r := PollSend(m, kind);
        }
      case AwaitAnswer(id) =>
        if id in waiting {
          var r := PollAnswer(id);
        }
      case CancelWait(id) =>
        if id in waiting {
          Forget(id);
        }
      case CloneTx =>
        if senders > 0 {
          CloneSendHalf();
        }
      case DropTx =>
        if senders > 1 || (senders == 1 && waiting == {}) {
          DropSendHalf();
        }
      case _ =>
    }

    /** An operation of the receiver, of `close_connection`, of the network or of the clock. */
    method PerformOther(op: Operation, selecting: bool)
      requires Valid() && !IsSendOperation(op) && selecting == conn.phase.Select?
      modifies this`rxQueue, this`slot, this`receiver, this`stream, this`now, this`conn, this`schedule
      ensures old(schedule) <= schedule
      ensures Valid()
      ensures conn == OpStep(config, old(conn), op)
    {
      hide Protocol.Exec, Sequences.Flat, Protocol.HandleApply;
      match op
      case Recv =>
        if receiver {
          var r := PollRecv();
        }
      case PollNext =>
        if receiver {
          var r := PollNextItem();
        }
      case DropRx =>
        if receiver {
          DropReceiveHalf();
        }
      case JoinLoop =>
        var r := PollClose(Ok(()));
      case NetworkDelivers(e) =>
        NetworkDelivery(e);
      case TimePasses(d) =>
        if selecting && config.keepalive.Some? && now + d > timerStart + config.keepalive.value {
          return;
        }
        Wait(d, selecting);
      case _ =>
    }

    /** Any one operation of another task, the network or the clock. */
    method Perform(op: Operation, selecting: bool)
      requires Valid() && selecting == conn.phase.Select?
      modifies this
      ensures old(schedule) <= schedule
      ensures Valid()
      ensures conn == OpStep(config, old(conn), op)
    {
      hide Protocol.Exec, Agrees, OpStep;
      if IsSendOperation(op) {
        PerformSend(op);
      } else {
        PerformOther(op, selecting);
      }
    }

    /** Other tasks run. */
    method Others(ops: seq<Operation>, selecting: bool)
      requires Valid() && selecting == conn.phase.Select?
      modifies this
      ensures old(schedule) <= schedule
      ensures Valid() && conn == OpsRun(config, old(conn), ops) && LoopUntouched(old(conn), conn)
    {
      hide Protocol.Exec, Agrees, OpStep;
      for i := 0 to |ops|
        invariant Valid() && conn == OpsRun(config, old(conn), ops[..i]) && LoopUntouched(old(conn), conn)
        invariant old(schedule) <= schedule
      {
        OpTouchesNothing(ops[i]);
        Perform(ops[i], selecting);
        assert ops[..i + 1][..i] == ops[..i];
      }
      assert ops[..|ops|] == ops;
    }

    lemma OpTouchesNothing(op: Operation)
      requires Valid()
      ensures LoopUntouched(conn, OpStep(config, conn, op))
    {
      hide LoopUntouched, Inv, OpStep;
      Reachable(config, initial, schedule);
      OpKeepsLoop(config, conn, op);
    }

    // ----- the loop

    /** `receiver.recv()` as an arm of a select: not ready while the queue is empty and a sender is alive. */
    method ReceiverRecv() returns (ready: bool, message: Option<Payload>)
      requires Valid() && conn.phase.Select?
      modifies this`taken, this`txQueue, this`conn, this`schedule
      ensures old(schedule) <= schedule
      ensures Valid()
      ensures ready && message.Some? ==>
                LoopEnabled(config, old(conn), Dequeue) && conn == Step(config, old(conn), Dequeue)
                && conn.phase == Sending(message.value)
                && conn.rx == old(conn).rx && Delivered(conn) == Delivered(old(conn))
      ensures ready && message.None? ==> LoopEnabled(config, conn, SeeNoSenders) && conn == old(conn)
      ensures !ready ==> conn == old(conn) && conn.tx.queue == [] && conn.tx.senders > 0
      ensures match (ready, message)
              case (true, Some(p)) => old(txQueue) == [p] + txQueue && taken == Some(p)
              case (true, None) => txQueue == old(txQueue) == [] && senders == 0
              case (false, _) => txQueue == old(txQueue) == [] && senders > 0
    {
      hide Protocol.Exec, Sequences.Flat, Protocol.HandleEnabled, Protocol.HandleApply;
      ready, message := true, None;
      if txQueue != [] {
        message := Some(txQueue[0]);
        taken, txQueue := message, txQueue[1..];
        Log(Dequeue);
      } else if senders > 0 {
        ready := false;
      }
    }

    ghost predicate AgreesExceptSink()
      reads this
    {
      && TxAgrees() && RxAgrees()
      && txClosed == TxIsClosed(conn.phase) && rxClosed == RxIsClosed(conn.phase)
      && slot == conn.terminal.slot && now == conn.clock.now && timerStart == conn.clock.since
    }

    /** One `sink.send`: others run until it returns; after a success the message is on the wire. */
    method SinkSend(m: Message, turn: Turn) returns (r: WriteResult)
      requires Valid() && (conn.phase.Sending? || conn.phase.Handling? || conn.phase.Ticking?)
      modifies this
      ensures old(schedule) <= schedule
      ensures Traced() && AgreesExceptSink() && LoopUntouched(old(conn), conn)
      ensures conn == OpsRun(config, old(conn), turn.writing)
      ensures r == turn.result && sink == Flat(MessageOf, conn.wire) + if r.Ok? then [m] else []
      ensures sink == old(sink) + if turn.result.Ok? then [m] else []
    {
      hide Protocol.Exec, Sequences.Flat, Protocol.HandleEnabled, Protocol.HandleApply;
      Others(turn.writing, false);
      r := turn.result;
      if r.Ok? {
        sink := sink + [m];
      }
    }

    /** The first half of `send_socket_message`: the write. */
    method WritePayload(p: Payload, turn: Turn) returns (r: WriteResult)
      requires Valid() && conn.phase == Sending(p)
      modifies this
      ensures old(schedule) <= schedule
      ensures Valid() && conn.phase == Answering(p, r) && r == turn.result
      ensures conn == WriteRun(config, old(conn), turn, WriteUser(turn.result))
      ensures SameReading(old(conn), conn) && conn.tx.attempts == old(conn).tx.attempts
      ensures conn.wire == if r.Ok? then old(conn).wire + [Sent(p.message, User(p), |old(conn).rx.read|)]
          else old(conn).wire
      ensures sink == old(sink) + if turn.result.Ok? then [p.message] else []
    {
      hide Protocol.Exec, Sequences.Flat, Protocol.HandleEnabled, Protocol.HandleApply;
      r := SinkSend(p.message, turn);
      Log(WriteUser(r));
      if r.Ok? {
        FlatAppend(MessageOf, old(conn).wire, Sent(p.message, User(p), |conn.rx.read|));
      }
    }

    /** The second half of `send_socket_message`: the one-shot, then the verdict. */
    method Respond(p: Payload, r: WriteResult) returns (state: LoopState)
      requires Valid() && conn.phase == Answering(p, r)
      modifies this`taken, this`answers, this`timerStart, this`conn, this`schedule
      ensures old(schedule) <= schedule
      ensures Valid() && conn == Step(config, old(conn), Answer)
      ensures conn.phase == if state.Running? then Select else Left(state)
      ensures state.Running? ==> r.Ok?
      ensures !state.Closed?
      ensures p.confirmed && p.id !in old(conn).tx.waiting ==> state == Errored(SocketeerDroppedWithoutClosing)
      ensures r.Err? && (p.confirmed ==> p.id in old(conn).tx.waiting) ==> state == Errored(WebsocketClosed)
      ensures taken == None
      ensures answers == if p.confirmed && p.id in waiting
                         then old(answers)[p.id := if r.Ok? then Ok(()) else Err(WebsocketError(r.error))]
                         else old(answers)
      ensures state == if p.confirmed && p.id !in waiting then Errored(SocketeerDroppedWithoutClosing)
                       else if r.Err? then Errored(WebsocketClosed) else Running
      ensures timerStart == if state.Running? then now else old(timerStart)
    {
      hide Protocol.Exec, Sequences.Flat, Protocol.Step;
      AnswerEffect(config, conn);
      taken := None;
      var callerGone := p.confirmed && p.id !in waiting;
      if p.confirmed && !callerGone {
        answers := answers[p.id := FromWire(r)];
      }
      if callerGone {
        state := Errored(SocketeerDroppedWithoutClosing);
      } else if r.Err? {
        state := Errored(WebsocketClosed);
      } else {
        state := Running;
        timerStart := now;
      }
      Log(Answer);
    }

    /** `send_socket_message`. */
    method SendSocketMessage(message: Option<Payload>, turn: Turn) returns (state: LoopState)
      requires Valid()
      requires message.Some? ==> conn.phase == Sending(message.value)
      requires message.None? ==> LoopEnabled(config, conn, SeeNoSenders)
      modifies this
      ensures old(schedule) <= schedule
      ensures Valid() && conn.phase == if state.Running? then Select else Left(state)
      ensures !state.Closed? && conn.rx.read == old(conn).rx.read && Delivered(conn) == Delivered(old(conn))
      ensures state.Running? ==> HeldFrame(conn.rx.held) == HeldFrame(old(conn).rx.held)
      ensures conn == if message.Some? then SendRun(config, old(conn), turn) else Step(config, old(conn), SeeNoSenders)
      ensures message.None? ==> state == Errored(SocketeerDroppedWithoutClosing) && conn.wire == old(conn).wire
      ensures message.Some? ==>
                var p, r := message.value, turn.result;
                && conn.wire == (if r.Ok? then old(conn).wire + [Sent(p.message, User(p), |old(conn).rx.read|)]
                   else old(conn).wire)
                && conn.tx.attempts == (if p.confirmed then old(conn).tx.attempts + [Attempt(p.id, FromWire(r))]
                   else old(conn).tx.attempts)
                && (r.Err? ==> !state.Running?)
      ensures sink == old(sink) + if message.Some? && turn.result.Ok? then [message.value.message] else []
      ensures state.Running? ==> timerStart == now
    {
      hide Protocol.Exec, Sequences.Flat, Protocol.HandleEnabled, Protocol.HandleApply;
      if message.None? {
        Log(SeeNoSenders);
        return Errored(SocketeerDroppedWithoutClosing);
      }
      var r := WritePayload(message.value, turn);
      Others(turn.settling, false);
      state := Respond(message.value, r);
    }

    /** The keepalive timer is due; its arm of the select is ready. */
    method TimerFires() returns (ready: bool)
      requires Valid() && conn.phase.Select? && config.keepalive.Some?
      modifies this`conn, this`schedule
      ensures old(schedule) <= schedule
      ensures Valid()
      ensures ready == LoopEnabled(config, old(conn), Tick)
      ensures if ready then conn == Step(config, old(conn), Tick) && conn.phase.Ticking? else conn == old(conn)
      ensures conn.rx == old(conn).rx && Delivered(conn) == Delivered(old(conn))
      ensures ready <==> now - timerStart >= config.keepalive.value
    {
      hide Protocol.Exec, Sequences.Flat, Protocol.HandleEnabled, Protocol.HandleApply;
      ready := timerStart + config.keepalive.value <= now;
      if ready {
        Log(Tick);
      }
    }

    /** `send_keepalive`. */
    method SendKeepalive(turn: Turn) returns (state: LoopState)
      requires Valid() && conn.phase.Ticking?
      modifies this
      ensures old(schedule) <= schedule
      ensures conn == WriteRun(config, old(conn), turn, WriteKeepalive(turn.result))
      ensures Valid() && conn.phase == if state.Running? then Select else Left(state)
      ensures conn.rx.read == old(conn).rx.read && Delivered(conn) == Delivered(old(conn))
      ensures state.Running? ==> HeldFrame(conn.rx.held) == HeldFrame(old(conn).rx.held)
      ensures conn.tx.attempts == old(conn).tx.attempts
      ensures match turn.result
              case Ok(_) =>
                state == Running
                    && conn.wire == old(conn).wire + [Sent(KeepaliveFrame(config), Keepalive, |old(conn).rx.read|)]
              case Err(e) => state == Errored(WebsocketError(e)) && conn.wire == old(conn).wire
      ensures turn.result.Ok? ==>
                && timerStart == now
                && sink == old(sink) + match config.keepaliveMessage
                                       case Some(m) => [m]
                                       case None => [Ping([])]
      ensures turn.result.Err? ==> sink == old(sink)
    {
      hide Protocol.Exec, Sequences.Flat, Protocol.HandleEnabled, Protocol.HandleApply;
      var message := if config.keepaliveMessage.Some? then config.keepaliveMessage.value else DEFAULT_KEEPALIVE;
      var r := SinkSend(message, turn);
      if r.Ok? {
        FlatAppend(MessageOf, conn.wire, Sent(message, Keepalive, |conn.rx.read|));
        timerStart := now;
        state := Running;
      } else {
        state := Errored(WebsocketError(r.error));
      }
      Log(WriteKeepalive(r));
    }

    /** `receiver.recv()` and what follows it, the same in both selects. */
    method OutgoingArm(turn: Turn) returns (state: LoopState)
      requires Valid() && conn.phase.Select?
      modifies this
      ensures old(schedule) <= schedule
      ensures Valid() && conn == OutgoingRun(config, old(conn), turn)
      ensures conn.phase == (if state.Running? then Select else Left(state)) && !state.Closed?
      ensures conn.rx.read == old(conn).rx.read && Delivered(conn) == Delivered(old(conn))
      ensures state.Running? ==> HeldFrame(conn.rx.held) == HeldFrame(old(conn).rx.held)
    {
      hide Protocol.Exec, Sequences.Flat, Protocol.Step, SendRun, Agrees;
      state := Running;
      IdleArms(config, conn);
      var ready, outgoing := ReceiverRecv();
      if ready {
        state := SendSocketMessage(outgoing, turn);
      }
    }

    /** `sleep(interval)` and what follows it, the same in both selects; without a keepalive there is no such arm. */
    method TimerArm(turn: Turn) returns (state: LoopState)
      requires Valid() && conn.phase.Select?
      modifies this
      ensures old(schedule) <= schedule
      ensures Valid() && conn == TimerRun(config, old(conn), turn)
      ensures conn.phase == (if state.Running? then Select else Left(state)) && !state.Closed?
      ensures conn.rx.read == old(conn).rx.read && Delivered(conn) == Delivered(old(conn))
      ensures state.Running? ==> HeldFrame(conn.rx.held) == HeldFrame(old(conn).rx.held)
    {
      hide Protocol.Exec, Sequences.Flat, Protocol.Step, WriteRun, Agrees;
      state := Running;
      if config.keepalive.Some? {
        var ready := TimerFires();
        if ready {
          state := SendKeepalive(turn);
        }
      }
    }

    /** `stream.next()` as an arm of the main select. */
    method StreamNext() returns (event: Option<StreamEvent>)
      requires Valid() && conn.phase.Select? && conn.rx.held.None?
      modifies this`stream, this`conn, this`schedule
      ensures old(schedule) <= schedule
      ensures Valid()
      ensures if event.Some? then
                && LoopEnabled(config, old(conn), ReadEvent) && conn == Step(config, old(conn), ReadEvent)
                && conn.phase == Handling(event.value) && event.value == old(conn).rx.stream[0]
                && conn.rx.held.None?
              else
                conn == old(conn) && conn.rx.stream == []
      ensures if old(stream) == [] then event == None && stream == []
              else event.Some? && old(stream) == [event.value] + stream
    {
      hide Protocol.Exec, Sequences.Flat, Protocol.HandleEnabled, Protocol.HandleApply;
      if stream == [] {
        return None;
      }
      event := Some(stream[0]);
      stream := stream[1..];
      Log(ReadEvent);
    }

    /** The Ping arm of `handle_incoming`. */
    method ReplyPong(turn: Turn) returns (state: LoopState)
      requires Valid() && conn.phase.Handling? && IsPingEvent(conn.phase.event) && conn.rx.held.None?
      modifies this
      ensures old(schedule) <= schedule
      ensures conn == WriteRun(config, old(conn), turn, WritePong(turn.result))
      ensures Valid() && conn.phase == (if state.Running? then Select else Left(state)) && conn.rx.held.None?
      ensures conn.rx.read == old(conn).rx.read && Delivered(conn) == Delivered(old(conn))
      ensures conn.wire == if turn.result.Ok?
          then old(conn).wire + [Sent(Pong(PONG_BYTES), PongReply, |old(conn).rx.read|)] else old(conn).wire
      ensures state == if turn.result.Ok? then Running else Errored(WebsocketError(turn.result.error))
      ensures sink == old(sink) + if turn.result.Ok? then [Pong([112, 111, 110, 103])] else []
      ensures state.Running? ==> timerStart == now
    {
      hide Protocol.Exec, Sequences.Flat, Protocol.HandleEnabled, Protocol.HandleApply;
      var r := SinkSend(Pong(PONG_BYTES), turn);
      if r.Ok? {
        FlatAppend(MessageOf, conn.wire, Sent(Pong(PONG_BYTES), PongReply, |conn.rx.read|));
        timerStart := now;
        state := Running;
      } else {
        state := Errored(WebsocketError(r.error));
      }
      Log(WritePong(r));
    }

    /** The Close arm of `handle_incoming`: the only way to a graceful end. */
    method ReplyClose(turn: Turn) returns (state: LoopState)
      requires Valid() && conn.phase.Handling? && conn.phase.event.Frame? && conn.phase.event.message.Close?
          && conn.rx.held.None?
      modifies this
      ensures old(schedule) <= schedule
      ensures conn == WriteRun(config, old(conn), turn, CloseSink(turn.result))
      ensures Valid() && conn.phase == Left(state) && conn.rx.held.None?
      ensures conn.rx.read == old(conn).rx.read && Delivered(conn) == Delivered(old(conn))
          && conn.rx.lost == old(conn).rx.lost
      ensures conn.wire == if turn.result.Ok?
          then old(conn).wire + [Sent(Close(None), CloseReply, |old(conn).rx.read|)] else old(conn).wire
      ensures state == if turn.result.Ok? then Closed else Errored(WebsocketError(turn.result.error))
      ensures sink == old(sink) + if turn.result.Ok? then [Close(None)] else []
    {
      hide Protocol.Exec, Sequences.Flat, Protocol.HandleEnabled, Protocol.HandleApply;
      var r := SinkSend(Close(None), turn);
      if r.Ok? {
        FlatAppend(MessageOf, conn.wire, Sent(Close(None), CloseReply, |conn.rx.read|));
        state := Closed;
      } else {
        state := Errored(WebsocketError(r.error));
      }
      Log(CloseSink(r));
    }

    /** The last arm for frames: the loop just goes round. */
    method SkipFrame()
      requires Valid() && conn.phase.Handling? && conn.phase.event.Frame? && conn.rx.held.None?
      requires conn.phase.event.message.Pong? || conn.phase.event.message.RawFrame?
      modifies this`timerStart, this`conn, this`schedule
      ensures old(schedule) <= schedule
      ensures Valid() && conn == Step(config, old(conn), Ignore)
      ensures timerStart == now
    {
      hide Protocol.Exec, Sequences.Flat, Protocol.HandleEnabled, Protocol.HandleApply;
      timerStart := now;
      Log(Ignore);
    }

    /** The arms for an error and for the end of the stream. */
    method LeaveStream()
      requires Valid() && conn.phase.Handling? && !conn.phase.event.Frame? && conn.rx.held.None?
      modifies this`conn, this`schedule
      ensures old(schedule) <= schedule
      ensures Valid() && conn == Step(config, old(conn), StreamFails)
    {
      hide Protocol.Exec, Sequences.Flat, Protocol.HandleEnabled, Protocol.HandleApply;
      Log(StreamFails);
    }

    /** `handle_incoming`: protocol frames are served here, data frames are handed back. */
    method HandleIncoming(event: StreamEvent, turn: Turn) returns (incoming: Incoming)
      requires Valid() && conn.phase == Handling(event) && conn.rx.held.None?
      modifies this
      ensures old(schedule) <= schedule
      ensures Valid() && conn.rx.held.None?
      ensures incoming.Data? <==> DataOf(event) != []
      ensures match incoming
              case Data(frame) => event == Frame(frame) && conn == old(conn)
              case State(state) =>
                && conn == HandleRun(config, old(conn), turn, event)
                && conn.phase == if state.Running? then Select else Left(state)
      ensures conn.rx.read == old(conn).rx.read && Delivered(conn) == Delivered(old(conn))
      ensures incoming.State? ==> incoming.state == EventOutcome(event, turn.result)
      ensures incoming.State? ==> conn.wire == old(conn).wire + EventReply(event, turn.result, |conn.rx.read|)
      ensures match event
              case Frame(Text(t)) => incoming == Data(Text(t)) && sink == old(sink)
              case Frame(Binary(b)) => incoming == Data(Binary(b)) && sink == old(sink)
              case Frame(Ping(_)) =>
                if turn.result.Ok? then
                  incoming == State(Running) && sink == old(sink) + [Pong([112, 111, 110, 103])]
                else
                  incoming == State(Errored(WebsocketError(turn.result.error))) && sink == old(sink)
              case Frame(Close(_)) =>
                if turn.result.Ok? then
                  incoming == State(Closed) && sink == old(sink) + [Close(None)]
                else
                  incoming == State(Errored(WebsocketError(turn.result.error))) && sink == old(sink)
              case Frame(_) => incoming == State(Running) && sink == old(sink)
              case Failure(e) => incoming == State(Errored(WebsocketError(e))) && sink == old(sink)
              case End => incoming == State(Errored(WebsocketClosed)) && sink == old(sink)
    {
      hide Protocol.Exec, Sequences.Flat, Protocol.Step, Agrees, WriteRun, Delivered;
      if DataOf(event) == [] && !(event.Frame? && (event.message.Ping? || event.message.Close?)) {
        QuietStep(config, conn, turn.result);
        assert conn.wire + [] == conn.wire;
      }
      match event
      case Frame(message) =>
        match message {
          case Ping(_) =>
            var state := ReplyPong(turn);
            incoming := State(state);
          case Close(_) =>
            var state := ReplyClose(turn);
            incoming := State(state);
          case Text(_) =>
            incoming := Data(message);
          case Binary(_) =>
            incoming := Data(message);
          case _ =>
            SkipFrame();
            incoming := State(Running);
        }
      case Failure(e) =>
        LeaveStream();
        incoming := State(Errored(WebsocketError(e)));
      case End =>
        LeaveStream();
        incoming := State(Errored(WebsocketClosed));
    }

    /** `try_send` with its three results; None is the full queue. */
    method TryOffer(frame: Message) returns (r: Option<LoopState>)
      requires Valid() && conn.phase == Handling(Frame(frame)) && IsData(frame) && conn.rx.held.None?
      modifies this`rxQueue, this`timerStart, this`conn, this`schedule
      ensures old(schedule) <= schedule
      ensures Valid() && conn == Step(config, old(conn), Deliver)
      ensures r == if !old(receiver) then Some(Errored(SocketeerDroppedWithoutClosing))
                   else if |old(conn).rx.queue| < config.capacity then Some(Running) else None
      ensures conn.phase == if r.Some? && !r.value.Running? then Left(r.value) else Select
      ensures HeldFrame(conn.rx.held) == if r.None? then [frame] else []
      ensures rxQueue == if receiver && |old(rxQueue)| < config.capacity then old(rxQueue) + [frame] else old(rxQueue)
      ensures timerStart == if receiver then now else old(timerStart)
    {
      hide Protocol.Exec, Sequences.Flat, Protocol.HandleEnabled, Protocol.HandleApply;
      if !receiver {
        r := Some(Errored(SocketeerDroppedWithoutClosing));
      } else if |rxQueue| < config.capacity {
        rxQueue := rxQueue + [frame];
        timerStart := now;
        r := Some(Running);
      } else {
        timerStart := now;
        r := None;
      }
      Log(Deliver);
    }

    /** `sender.reserve()` as an arm of the hold's select; None while the queue is full. */
    method Reserve(frame: Message) returns (r: Option<LoopState>)
      requires Valid() && conn.phase.Select? && HeldFrame(conn.rx.held) == [frame]
      modifies this`rxQueue, this`timerStart, this`conn, this`schedule
      ensures old(schedule) <= schedule
      ensures Valid()
      ensures conn == Step(config, old(conn), Permit)
      ensures if receiver && |old(conn).rx.queue| >= config.capacity then r == None && conn == old(conn)
              else LoopEnabled(config, old(conn), Permit)
                   && r == Some(if receiver then Running else Errored(SocketeerDroppedWithoutClosing))
      ensures r.Some? ==> conn.phase == (if r.value.Running? then Select else Left(r.value)) && conn.rx.held.None?
      ensures conn.rx.read == old(conn).rx.read
      ensures Delivered(conn) == Delivered(old(conn)) + if r.Some? && r.value.Running? then [frame] else []
      ensures rxQueue == if receiver && |old(rxQueue)| < config.capacity then old(rxQueue) + [frame] else old(rxQueue)
      ensures timerStart == if receiver && r.Some? then now else old(timerStart)
    {
      hide Protocol.Exec, Sequences.Flat, Protocol.HandleEnabled, Protocol.HandleApply;
      IdleArms(config, conn);
      NothingAbandoned();
      if !receiver {
        r := Some(Errored(SocketeerDroppedWithoutClosing));
        Log(Permit);
      } else if |rxQueue| < config.capacity {
        rxQueue := rxQueue + [frame];
        timerStart := now;
        r := Some(Running);
        Log(Permit);
      } else {
        r := None;
      }
    }

    /**
     `deliver_with_backpressure`: the first attempt, then one turn of the hold after another until
     it is over or the script is. Nothing is read from the stream, and the frame is delivered right
     after everything delivered before, or it stays held, or the loop has ended.
     */
    method DeliverWithBackpressure(frame: Message, turns: seq<Turn>) returns (p: Progress, rest: seq<Turn>)
      requires Valid() && conn.phase == Handling(Frame(frame)) && IsData(frame) && conn.rx.held.None?
      modifies this
      ensures old(schedule) <= schedule
      ensures Valid() && |rest| <= |turns|
      ensures var offered := Step(config, old(conn), Deliver);
              Ran(config, offered, turns, rest, conn) && Served(config, offered, Used(turns, rest))
      ensures conn.rx.read == old(conn).rx.read
      ensures match p
              case Suspended =>
                conn.phase.Select? && HeldFrame(conn.rx.held) == [frame] && Delivered(conn) == Delivered(old(conn))
                    && rest == []
              case Ready(state) =>
                && conn.phase == (if state.Running? then Select else Left(state)) && !state.Closed?
                && conn.rx.held.None?
                && Delivered(conn) == Delivered(old(conn)) + if state.Running? then [frame] else []
    {
      hide Protocol.Exec, Sequences.Flat, Protocol.Step, Delivered, Inv;
      hide TurnRun, Ran, Used, Served, TurnServed;
      rest := turns;
      NothingAbandoned();
      DeliverStep(config, conn);
      var offered := TryOffer(frame);
      ghost var first := conn;
      KeepsInvariant();
      RanNothing(config, first, turns);
      if offered.Some? {
        RanIsServed(config, first, turns, rest, conn);
        return Ready(offered.value), rest;
      }
      while rest != []
        invariant Valid() && conn.phase.Select? && HeldFrame(conn.rx.held) == [frame]
        invariant conn.rx.read == old(conn).rx.read && Delivered(conn) == Delivered(old(conn))
        invariant old(schedule) <= schedule
        invariant |rest| <= |turns| && Ran(config, first, turns, rest, conn)
        decreases |rest|
      {
        RanTurn(config, first, turns, rest, conn);
        var ended := HoldTurn(frame, rest[0]);
        rest := rest[1..];
        if ended.Some? {
          RanIsServed(config, first, turns, rest, conn);
          return Ready(ended.value), rest;
        }
      }
      RanIsServed(config, first, turns, rest, conn);
      p := Suspended;
    }

    lemma NothingAbandoned()
      requires Valid()
      ensures receiver ==> conn.rx.abandoned == []
    {
      hide Inv;
      Reachable(config, initial, schedule);
      NotAbandoned(config, conn);
    }

    /** The object's state is a reachable one. */
    lemma KeepsInvariant()
      requires Valid()
      ensures Inv(config, conn)
    {
      hide Inv;
      Reachable(config, initial, schedule);
    }

    /** One iteration of the hold's loop: a permit, an outgoing payload or a keepalive, never a read. */
    method HoldTurn(frame: Message, turn: Turn) returns (ended: Option<LoopState>)
      requires Valid() && conn.phase.Select? && HeldFrame(conn.rx.held) == [frame]
      modifies this
      ensures old(schedule) <= schedule
      ensures conn == TurnRun(config, old(conn), turn) && TurnServed(config, old(conn), turn, conn)
      ensures Valid() && conn.rx.read == old(conn).rx.read
      ensures match ended
              case None => conn.phase.Select? && HeldFrame(conn.rx.held) == [frame]
                  && Delivered(conn) == Delivered(old(conn))
              case Some(state) =>
                && conn.phase == (if state.Running? then Select else Left(state)) && !state.Closed?
                && conn.rx.held.None?
                && Delivered(conn) == Delivered(old(conn)) + if state.Running? then [frame] else []
    {
      hide Protocol.Exec, Sequences.Flat, TurnServed, Protocol.Step, Inv;
      hide SendRun, WriteRun, OpsRun;
      ended := None;
      var state := Running;
      KeepsInvariant();
      TurnServes(config, conn, turn);
      Others(turn.suspended, true);
      IdleArms(config, conn);
      match turn.arm {
        case Capacity =>
          ended := Reserve(frame);
          return;
        case Outgoing =>
          state := OutgoingArm(turn);
        case Timer =>
          state := TimerArm(turn);
        case IncomingFrame => // not an arm of this select
      }
      NoHeldAfterLeaving();
      if !state.Running? {
        ended := Some(state);
      }
    }

    lemma NoHeldAfterLeaving()
      requires Valid()
      ensures conn.phase.Left? ==> conn.rx.held.None?
    {
      hide Protocol.Exec;
      Reachable(config, initial, schedule);
    }

    /**
     One iteration of the main loop, with the whole hold that it may lead to. It is suspended only if
     a frame is held and the script is used up.
     */
    method MainTurn(turn: Turn, turns: seq<Turn>) returns (p: Progress, rest: seq<Turn>)
      requires Valid() && conn.phase.Select? && conn.rx.held.None?
      modifies this
      ensures old(schedule) <= schedule
      ensures Valid() && |rest| <= |turns| && Ran(config, old(conn), [turn] + turns, rest, conn)
      ensures TurnServed(config, old(conn), turn, TurnRun(config, old(conn), turn))
      ensures p.Ready? ==> conn.phase == (if p.state.Running? then Select else Left(p.state)) && conn.rx.held.None?
      ensures p.Suspended? ==> conn.phase.Select? && conn.rx.held.Some? && rest == []
    {
      hide Protocol.Exec, Sequences.Flat, TurnServed, Protocol.Step, Inv, Ran, Served;
      hide SendRun, WriteRun, OpsRun;
      var state := Running;
      rest := turns;
      KeepsInvariant();
      TurnServes(config, conn, turn);
      RanNothing(config, conn, [turn] + turns);
      RanTurn(config, conn, [turn] + turns, [turn] + turns, conn);
      assert ([turn] + turns)[1..] == turns;
      Others(turn.suspended, true);
      IdleArms(config, conn);
      match turn.arm {
        case Outgoing =>
          state := OutgoingArm(turn);
        case IncomingFrame =>
          var event := StreamNext();
          if event.Some? {
            var incoming := HandleIncoming(event.value, turn);
            match incoming {
              case State(s) =>
                state := s;
              case Data(frame) =>
                p, rest := DeliverWithBackpressure(frame, turns);
                RanThen(config, old(conn), [turn] + turns, turns, TurnRun(config, old(conn), turn), rest, conn);
                return;
            }
          }
        case Timer =>
          state := TimerArm(turn);
        case Capacity => // not an arm of this select
      }
      NoHeldAfterLeaving();
      p := Ready(state);
    }

    /** The cause is written while both channels are still open. */
    method RecordCause(state: LoopState)
      requires Valid() && conn.phase == Left(state) && !state.Running?
      modifies this`slot, this`conn, this`schedule
      ensures old(schedule) <= schedule
      ensures Valid() && conn == Step(config, old(conn), Record) && conn.phase == Recorded(old(conn).phase.outcome)
      ensures slot == Cause(state) && !rxClosed && !txClosed
      ensures match state
              case Errored(e) => slot == Some(e)
              case _ => slot == None
    {
      hide Protocol.Exec, Sequences.Flat, Inv;
      Reachable(config, initial, schedule);
      NothingRecordedYet();
      if state.Errored? {
        slot := Some(state.error);
      }
      Log(Record);
    }

    lemma NothingRecordedYet()
      requires Inv(config, conn) && conn.phase.Left?
      ensures conn.terminal.slot == None
    {
    }

    /** The loop's end of the inbound channel drops first. */
    method CloseRx()
      requires Valid() && conn.phase.Recorded?
      modifies this`rxClosed, this`conn, this`schedule
      ensures old(schedule) <= schedule
      ensures Valid() && conn == Step(config, old(conn), DropRxSender)
      ensures conn.phase == RxClosed(old(conn).phase.outcome)
      ensures rxClosed && !txClosed
    {
      hide Protocol.Exec, Sequences.Flat, Protocol.HandleEnabled, Protocol.HandleApply;
      rxClosed := true;
      Log(DropRxSender);
    }

    /** Then its end of the outbound channel, with whatever is still queued. */
    method CloseTx()
      requires Valid() && conn.phase.RxClosed?
      modifies this`txClosed, this`txQueue, this`conn, this`schedule
      ensures old(schedule) <= schedule
      ensures Valid() && conn == Step(config, old(conn), DropTxReceiver)
      ensures conn.phase == Finished(old(conn).phase.outcome)
      ensures txClosed && txQueue == []
    {
      hide Protocol.Exec, Sequences.Flat, Protocol.HandleEnabled, Protocol.HandleApply;
      txClosed, txQueue := true, [];
      Log(DropTxReceiver);
    }

    /**
     The loop's last acts, with other tasks running in between: nothing more is written, read, lost or
     answered, the queue is gone, and the slot has given its cause to the first that looked, if any did.
     */
    method RecordAndDrop(state: LoopState, exit: Exit)
      requires Valid() && conn.phase == Left(state) && !state.Running?
      modifies this
      ensures old(schedule) <= schedule
      ensures Valid() && conn == ExitRun(config, old(conn), exit)
      ensures conn.phase == Finished(state) && conn.tx.queue == [] && SameHistory(old(conn), conn)
      ensures if conn.terminal.takes == [] then slot == Cause(state)
              else slot == None && TakenOnce(conn.terminal.takes, Cause(state))
    {
      hide Protocol.Exec, Sequences.Flat, TakenOnce, SameHistory, Protocol.Step, OpsRun, Inv;
      KeepsInvariant();
      ExitKeepsHistory(config, conn, exit);
      Others(exit.leaving, false);
      RecordCause(state);
      Others(exit.recorded, false);
      CloseRx();
      Others(exit.closing, false);
      CloseTx();
      SlotAtTheEnd();
    }

    lemma SlotAtTheEnd()
      requires Valid() && conn.phase.Finished?
      ensures if conn.terminal.takes == [] then slot == Cause(conn.phase.outcome)
              else slot == None && TakenOnce(conn.terminal.takes, Cause(conn.phase.outcome))
    {
      hide Protocol.Exec, Inv;
      Reachable(config, initial, schedule);
      TerminalOf(config, conn);
      CauseShape(conn);
    }

    /**
     `socket_loop_split` against any script. It serves the script's turns one after the other, each
     found in a select, until one ends the loop or the script is used up. In the first case the loop
     records its outcome and drops its channel ends; in the second it is suspended in one of its two
     selects. Either way the sink shows what was accepted, in order, and the consumer has its prefix.
     */
    method SocketLoopSplit(script: seq<Turn>, exit: Exit) returns (finished: bool, rest: seq<Turn>)
      requires Valid() && conn.phase.Select? && conn.rx.held.None?
      modifies this
      ensures old(schedule) <= schedule
      ensures Valid() && |rest| <= |script| && (!finished ==> rest == [])
      ensures var last := TurnsRun(config, old(conn), Used(script, rest));
              && Ran(config, old(conn), script, rest, last) && Served(config, old(conn), Used(script, rest))
              && (if finished then
                    && last.phase.Left? && conn == ExitRun(config, last, exit)
                    && SameHistory(last, conn) && conn.phase == Finished(last.phase.outcome)
                  else
                    conn == last)
      ensures if finished then conn.phase.Finished? else conn.phase.Select?
      ensures Flat(UserOf, conn.wire) <= conn.tx.accepted
      ensures Delivered(conn) <= Flat(DataOf, conn.rx.read) == Placed(conn)
      ensures finished ==>
          conn.tx.accepted == Flat(UserOf, conn.wire) + Flat(FailedOf, conn.tx.failed) + conn.tx.discarded
      ensures finished && conn.terminal.takes == [] ==> slot == Cause(conn.phase.outcome)
      ensures finished && conn.phase.outcome.Closed? ==>
          conn.rx.lost == [] && Delivered(conn) == DataBeforeEnd(Arrived(initial, schedule))
    {
      hide Protocol.Exec, Sequences.Flat, Delivered, Placed, Inv, TurnRun, Ran, Used, Served, TurnServed;
      hide SameHistory, ExitRun;
      var state := Running;
      rest := script;
      KeepsInvariant();
      RanNothing(config, conn, script);
      while state.Running?
        invariant Valid()
        invariant conn.phase == (if state.Running? then Select else Left(state)) && conn.rx.held.None?
        invariant old(schedule) <= schedule
        invariant |rest| <= |script| && Ran(config, old(conn), script, rest, conn)
        decreases state.Running?, |rest|
      {
        if rest == [] {
          RanIsServed(config, old(conn), script, rest, conn);
          RanEnds(config, old(conn), script, rest, conn);
          Guaranteed();
          return false, rest;
        }
        ghost var before := conn;
        assert rest == [rest[0]] + rest[1..];
        var p, left := MainTurn(rest[0], rest[1..]);
        RanThen(config, old(conn), script, rest, before, left, conn);
        rest := left;
        if p.Suspended? {
          RanIsServed(config, old(conn), script, rest, conn);
          RanEnds(config, old(conn), script, rest, conn);
          Guaranteed();
          return false, rest;
        }
        state := p.state;
      }
      RanIsServed(config, old(conn), script, rest, conn);
      RanEnds(config, old(conn), script, rest, conn);
      RecordAndDrop(state, exit);
      Guaranteed();
      finished := true;
    }

    /** What holds of every reachable state holds here. */
    lemma Guaranteed()
      requires Valid()
      ensures Flat(UserOf, conn.wire) <= conn.tx.accepted
      ensures Delivered(conn) <= Flat(DataOf, conn.rx.read) == Placed(conn)
      ensures conn.phase.Finished? ==>
          conn.tx.accepted == Flat(UserOf, conn.wire) + Flat(FailedOf, conn.tx.failed) + conn.tx.discarded
      ensures conn.phase.Finished? && conn.terminal.takes == [] ==> slot == Cause(conn.phase.outcome)
      ensures conn.phase.Finished? && conn.phase.outcome.Closed? ==>
          conn.rx.lost == [] && Delivered(conn) == DataBeforeEnd(Arrived(initial, schedule))
    {
      hide Protocol.Exec, Sequences.Flat;
      WireFollowsAcceptance(config, initial, schedule);
      InboundConservation(config, initial, schedule);
      CauseIsTakenOnce(config, initial, schedule);
      assert Placed(conn) == Delivered(conn) + (HeldFrame(conn.rx.held) + (Pending(conn.phase) + conn.rx.lost));
      if conn.phase.Finished? && conn.phase.outcome.Closed? {
        GracefulEndIsComplete(config, initial, schedule);
      }
    }
  }
}
