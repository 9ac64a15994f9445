/** `close_connection`: what its result says about the Close frame and about the loop. */
module CloseVerdict {
  import opened Messages
  import opened Sequences
  import opened Protocol
  import opened Outbound
  import opened Answers
  import opened Reachability
  import opened SendGuarantees
  import opened ReceiveGuarantees

  /**
   What became of the close request: refused by the closed channel (None), or accepted under an id.
   A request that finds the queue full is still waiting to become one or the other.
   */
  type Request = Option<nat>

  /** What `send_close` returned; None stands for its panic, when its one-shot was dropped. */
  function CloseSent(t: Conn, request: Request): Option<SendResult> {
    match request
    case None => Some(Err(WebsocketClosed))
    case Some(id) => if id in t.tx.answers then Some(t.tx.answers[id]) else None
  }

  /**
   What `close_connection` returns once the loop's task has finished: the recorded cause if the
   slot still holds one, otherwise what `send_close` returned.
   */
  function CloseConnectionResult(t: Conn, request: Request): Option<SendResult> {
    if CloseSent(t, request).None? then None
    else if t.terminal.slot.Some? then Some(Err(t.terminal.slot.value))
    else CloseSent(t, request)
  }

  predicate ReturnsOk(r: Option<SendResult>) {
    r.Some? && r.value.Ok?
  }

  /** The request was accepted and its frame is on the wire. */
  ghost predicate CloseWritten(t: Conn, request: Request) {
    request.Some? && request.value < |t.tx.accepted| && t.tx.accepted[request.value] in Flat(UserOf, t.wire)
  }

  /** A request that was made: its caller has stayed with it since. */
  ghost predicate RequestMade(t: Conn, request: Request) {
    request.Some? ==>
      var id := request.value;
      && id < |t.tx.accepted| && t.tx.accepted[id].confirmed
      && (id in t.tx.waiting || id in t.tx.answers || id in t.tx.panicked)
  }

  /** What a close request meets in a state: closure refuses it, a free place in the queue accepts it. */
  function RequestOf(s: Conn): Request {
    if TxIsClosed(s.phase) then None else Some(|s.tx.accepted|)
  }

  function RequestSteps(s: Conn): seq<Action> {
    if TxIsClosed(s.phase) then [] else [Enqueue(CLOSE_REQUEST, true)]
  }

  /** `close_connection` owns the receiver and its sender; these are the steps of other owners. */
  predicate OthersStep(a: Action, request: Request) {
    a.Take? || (request.Some? && a == Cancel(request.value))
  }

  /**
   The verdict when the handle is alone, whatever the network does and whether or not the channel
   still takes the request: Ok if and only if the Close frame was written and the loop ended by the
   peer's Close. A refused request never returns Ok.
   */
  lemma CloseConnectionVerdict(c: Config, stream: seq<StreamEvent>, before: seq<Action>, during: seq<Action>)
    requires var s := Exec(c, Init(stream), before);
             s.tx.senders > 0 && (TxIsClosed(s.phase) || |s.tx.queue| < c.capacity)
    requires var s := Exec(c, Init(stream), before); forall a :: a in during ==> !OthersStep(a, RequestOf(s))
    requires var s := Exec(c, Init(stream), before);
             Exec(c, Init(stream), before + RequestSteps(s) + during).phase.Finished?
    ensures var s := Exec(c, Init(stream), before);
            var t := Exec(c, Init(stream), before + RequestSteps(s) + during);
            && RequestMade(t, RequestOf(s))
            && (RequestOf(s).Some? ==>
                  t.tx.accepted[RequestOf(s).value] == Payload(RequestOf(s).value, CLOSE_REQUEST, true))
            && (ReturnsOk(CloseConnectionResult(t, RequestOf(s))) ==>
                  exists i :: 0 <= i < |t.wire| && t.wire[i].origin.User?
                              && t.wire[i].origin.payload.id == RequestOf(s).value
                              && t.wire[i].message == Close(Some(CloseFrame(1000, "Closing Connection"))))
            && (ReturnsOk(CloseConnectionResult(t, RequestOf(s))) <==>
                  CloseWritten(t, RequestOf(s)) && Outcome(t.phase) == Closed)
  {
    hide Sequences.Flat, Protocol.Step, Inv;
    var s := Exec(c, Init(stream), before);
    if !TxIsClosed(s.phase) {
      var close := Enqueue(CLOSE_REQUEST, true);
      var id, u := |s.tx.accepted|, Step(c, s, close);
      var t := Exec(c, u, during);
      ExecAppend(c, Init(stream), before, close);
      ExecConcat(c, Init(stream), before + [close], during);
      Reachable(c, stream, before);
      Reachable(c, stream, before + [close] + during);
      CloseAccepted(c, s);
      GrowsExec(c, u, during);
      assert u.tx.accepted[id] == t.tx.accepted[id];
      AloneExec(c, u, during, id);
      if !InLoop(s.phase) {
        LateSendIsNeverAnswered(c, stream, before, CLOSE_REQUEST, true, during);
      } else {
        TakesStartLate(c, s);
      }
      AloneVerdict(c, t, id, u.terminal.takes);
      if CloseWritten(t, RequestOf(s)) {
        var i := CloseFrameOnWire(c, t, id);
      }
    }
  }

  /** A close request that was written put a Close frame with its code and reason on the wire. */
  lemma CloseFrameOnWire(c: Config, t: Conn, id: nat) returns (i: nat)
    requires Inv(c, t) && CloseWritten(t, Some(id)) && t.tx.accepted[id] == Payload(id, CLOSE_REQUEST, true)
    ensures i < |t.wire| && t.wire[i].origin.User? && t.wire[i].origin.payload.id == id
    ensures t.wire[i].message == Close(Some(CloseFrame(1000, "Closing Connection")))
  {
    hide Sequences.Flat;
    var w := FlatSource(UserOf, t.wire, t.tx.accepted[id]);
    i :| 0 <= i < |t.wire| && t.wire[i] == w;
    assert FaithfulWrite(c, t.wire[i]);
  }

  lemma CloseAccepted(c: Config, s: Conn)
    requires HandleEnabled(c, s, Enqueue(CLOSE_REQUEST, true))
    ensures var u := Step(c, s, Enqueue(CLOSE_REQUEST, true));
            && u.tx.accepted == s.tx.accepted + [Payload(|s.tx.accepted|, CLOSE_REQUEST, true)]
            && |s.tx.accepted| in u.tx.waiting && u.terminal == s.terminal && u.phase == s.phase
  {
  }

  lemma TakesStartLate(c: Config, s: Conn)
    requires Inv(c, s) && InLoop(s.phase)
    ensures s.terminal.takes == []
  {
  }

  /** A lone handle's one-shot stays in hand, and nobody else looks into the slot. */
  lemma {:induction false} AloneExec(c: Config, u: Conn, during: seq<Action>, id: nat)
    requires id in u.tx.waiting
    requires forall a :: a in during ==> !OthersStep(a, Some(id))
    ensures var t := Exec(c, u, during);
            t.terminal.takes == u.terminal.takes && (id in t.tx.waiting || id in t.tx.answers || id in t.tx.panicked)
  {
    if |during| != 0 {
      AloneExec(c, u, during[..|during| - 1], id);
      AloneStep(c, Exec(c, u, during[..|during| - 1]), during[|during| - 1], id);
    }
  }

  lemma AloneStep(c: Config, s: Conn, a: Action, id: nat)
    requires !OthersStep(a, Some(id)) && (id in s.tx.waiting || id in s.tx.answers || id in s.tx.panicked)
    ensures var t := Step(c, s, a);
            t.terminal.takes == s.terminal.takes && (id in t.tx.waiting || id in t.tx.answers || id in t.tx.panicked)
  {
  }

  lemma AloneVerdict(c: Config, t: Conn, id: nat, takes: seq<Taking>)
    requires Inv(c, t) && t.phase.Finished? && t.terminal.takes == takes
    requires id < |t.tx.accepted| && t.tx.accepted[id].confirmed && t.tx.accepted[id].id == id
    requires id in t.tx.waiting || id in t.tx.answers || id in t.tx.panicked
    requires takes == [] || (id !in t.tx.answers && t.tx.accepted[id] !in Flat(UserOf, t.wire))
    ensures ReturnsOk(CloseConnectionResult(t, Some(id))) <==> CloseWritten(t, Some(id)) && Outcome(t.phase) == Closed
  {
    hide Sequences.Flat;
    var p := t.tx.accepted[id];
    if id in t.tx.answers {
      AnswerIsOwnResult(c, t, id);
    } else if p in Flat(UserOf, t.wire) {
      WrittenIsNeverDropped(c, t, id);
    }
  }

  /** A caller that kept waiting for a payload that got written has its value once the loop is done. */
  lemma WrittenIsNeverDropped(c: Config, t: Conn, id: nat)
    requires Inv(c, t) && t.phase.Finished?
    requires id < |t.tx.accepted| && t.tx.accepted[id].confirmed && t.tx.accepted[id] in Flat(UserOf, t.wire)
    requires id in t.tx.waiting || id in t.tx.answers || id in t.tx.panicked
    ensures id in t.tx.answers
  {
    hide Sequences.Flat;
    var p := t.tx.accepted[id];
    if p in t.tx.discarded {
      RankOrder(t.tx.accepted, Flat(UserOf, t.wire), Unwritten(t), p, p);
    }
    if id in t.tx.waiting {
      WrittenIsNotDropped(t, p);
    }
  }

  lemma {:induction false} AbandonedFits(c: Config, stream: seq<StreamEvent>, acts: seq<Action>)
    ensures var s := Exec(c, Init(stream), acts);
            |s.rx.queue| + |s.rx.abandoned| <= c.capacity
  {
    hide Inv, Protocol.Step, Sequences.Flat;
    if |acts| != 0 {
      var s, a := Exec(c, Init(stream), acts[..|acts| - 1]), acts[|acts| - 1];
      AbandonedFits(c, stream, acts[..|acts| - 1]);
      Reachable(c, stream, acts);
      QueueShape(c, Exec(c, Init(stream), acts));
      AbandonedStep(c, s, a);
    }
  }

  lemma QueueShape(c: Config, s: Conn)
    requires Inv(c, s)
    ensures |s.rx.queue| <= c.capacity && (if s.rx.receiver then s.rx.abandoned == [] else s.rx.queue == [])
  {
    hide Sequences.Flat;
  }

  lemma AbandonedStep(c: Config, s: Conn, a: Action)
    ensures var t := Step(c, s, a); t.rx.abandoned == s.rx.abandoned || t.rx.abandoned == s.rx.queue
  {
  }

  /** Without a receive the consumer's share does not grow. */
  lemma {:induction false} ConsumesNothing(c: Config, s: Conn, acts: seq<Action>)
    requires forall a :: a in acts ==> !a.Consume?
    ensures Exec(c, s, acts).rx.consumed == s.rx.consumed
  {
    hide Protocol.Step;
    if |acts| != 0 {
      ConsumesNothing(c, s, acts[..|acts| - 1]);
      ConsumeStep(c, Exec(c, s, acts[..|acts| - 1]), acts[|acts| - 1]);
    }
  }

  lemma ConsumeStep(c: Config, s: Conn, a: Action)
    requires !a.Consume?
    ensures Step(c, s, a).rx.consumed == s.rx.consumed
  {
  }

  /** If nobody receives from some point on, a graceful end leaves no more than a channel of frames unconsumed. */
  lemma GracefulEndNeedsRoom(c: Config, stream: seq<StreamEvent>, before: seq<Action>, during: seq<Action>)
    requires forall a :: a in during ==> !a.Consume?
    requires Outcome(Exec(c, Init(stream), before + during).phase) == Closed
    ensures var s := Exec(c, Init(stream), before);
            |DataBeforeEnd(Arrived(stream, before + during))| <= |s.rx.consumed| + c.capacity
  {
    hide Protocol.Step, Protocol.Exec, Sequences.Flat, Arrived;
    GracefulEndIsComplete(c, stream, before + during);
    AbandonedFits(c, stream, before + during);
    ExecConcat(c, Init(stream), before, during);
    ConsumesNothing(c, Exec(c, Init(stream), before), during);
  }

  /**
   When a lone `close_connection` can succeed at all: the call owns the receiver, so nobody receives
   while it waits. If the server sends more than CHANNEL_SIZE data frames before its Close that had
   not been received before the call, the call cannot return Ok.
   */
  lemma LoneCloseNeedsRoom(c: Config, stream: seq<StreamEvent>, before: seq<Action>, during: seq<Action>)
    requires var s := Exec(c, Init(stream), before);
             s.tx.senders > 0 && (TxIsClosed(s.phase) || |s.tx.queue| < c.capacity)
    requires var s := Exec(c, Init(stream), before);
             forall a :: a in during ==> !OthersStep(a, RequestOf(s)) && !a.Consume?
    requires var acts := before + RequestSteps(Exec(c, Init(stream), before)) + during;
             && Exec(c, Init(stream), acts).phase.Finished?
             && |DataBeforeEnd(Arrived(stream, acts))| > |Exec(c, Init(stream), before).rx.consumed| + c.capacity
    ensures var s := Exec(c, Init(stream), before);
            !ReturnsOk(CloseConnectionResult(Exec(c, Init(stream), before + RequestSteps(s) + during), RequestOf(s)))
  {
    hide Protocol.Step, Protocol.Exec, Sequences.Flat, Arrived, CloseConnectionResult, OthersStep;
    var s := Exec(c, Init(stream), before);
    var steps := RequestSteps(s);
    CloseConnectionVerdict(c, stream, before, during);
    if Outcome(Exec(c, Init(stream), before + steps + during).phase) == Closed {
      assert before + steps + during == before + (steps + during);
      GracefulEndNeedsRoom(c, stream, before, steps + during);
    }
  }

  /** The verdict with others about, in any finished state that keeps the invariant. */
  lemma SharedVerdict(c: Config, t: Conn, request: Request)
    requires Inv(c, t) && t.phase.Finished? && RequestMade(t, request)
    ensures ReturnsOk(CloseConnectionResult(t, request)) <==>
              CloseWritten(t, request) && (Outcome(t.phase) == Closed || t.terminal.takes != [])
  {
    hide Sequences.Flat;
    if request.Some? {
      var id := request.value;
      if id in t.tx.answers {
        AnswerIsOwnResult(c, t, id);
      } else if t.tx.accepted[id] in Flat(UserOf, t.wire) {
        WrittenIsNeverDropped(c, t, id);
      }
    }
  }

  /**
   With other clones alive the verdict is weaker, exactly by the cause that another operation may
   have taken first: Ok means that the Close frame was written and that the loop ended by the
   peer's Close or its cause had already been handed out. It holds of every request made: refused,
   answered, still unanswered, or met by the panic.
   */
  lemma SharedCloseVerdict(c: Config, stream: seq<StreamEvent>, acts: seq<Action>, request: Request)
    requires var t := Exec(c, Init(stream), acts); t.phase.Finished? && RequestMade(t, request)
    ensures var t := Exec(c, Init(stream), acts);
            ReturnsOk(CloseConnectionResult(t, request)) <==>
              CloseWritten(t, request) && (Outcome(t.phase) == Closed || t.terminal.takes != [])
  {
    hide Sequences.Flat, Inv, Protocol.Exec;
    Reachable(c, stream, acts);
    SharedVerdict(c, Exec(c, Init(stream), acts), request);
  }

  /** The two verdicts do differ: a clone's failing send takes the cause, and the close reports success. */
  lemma SharedCloseHidesCause(c: Config)
    requires c.capacity > 0
    ensures exists acts :: var t := Exec(c, Init([]), acts);
              t.phase == Finished(Errored(WebsocketClosed)) && ReturnsOk(CloseConnectionResult(t, Some(0)))
  {
    var sent := [CloneSender, Enqueue(CLOSE_REQUEST, true), Dequeue];
    var answered := [WriteUser(Ok(())), Answer, Arrive(End)];
    var left := [ReadEvent, StreamFails, Record];
    var closed := [DropRxSender, DropTxReceiver, Take(SendCall)];
    var s1 := Exec(c, Init([]), sent);
    CloseDequeued(c, sent);
    HiddenCause(c, s1, answered, left, closed);
    ExecConcat(c, Init([]), sent, answered + left + closed);
  }

  lemma CloseDequeued(c: Config, acts: seq<Action>)
    requires c.capacity > 0 && acts == [CloneSender, Enqueue(CLOSE_REQUEST, true), Dequeue]
    ensures var s := Exec(c, Init([]), acts);
            && s.phase.Sending? && s.phase.payload == Payload(0, CLOSE_REQUEST, true) && 0 in s.tx.waiting
            && s.tx.senders == 2 && s.rx == Init([]).rx
  {
    ExecSteps3(c, Init([]), acts[0], acts[1], acts[2]);
  }

  lemma HiddenCause(c: Config, s: Conn, answered: seq<Action>, left: seq<Action>, closed: seq<Action>)
    requires s.phase.Sending? && s.phase.payload == Payload(0, CLOSE_REQUEST, true) && 0 in s.tx.waiting
    requires s.tx.senders == 2 && s.rx == Init([]).rx
    requires answered == [WriteUser(Ok(())), Answer, Arrive(End)]
    requires left == [ReadEvent, StreamFails, Record]
    requires closed == [DropRxSender, DropTxReceiver, Take(SendCall)]
    ensures var t := Exec(c, s, answered + left + closed);
            t.phase == Finished(Errored(WebsocketClosed)) && ReturnsOk(CloseConnectionResult(t, Some(0)))
  {
    ExecConcat(c, s, answered + left, closed);
    ExecConcat(c, s, answered, left);
    AnsweredThenEnded(c, s, answered);
    EndedThenRecorded(c, Exec(c, s, answered), left);
    RecordedThenTaken(c, Exec(c, Exec(c, s, answered), left), closed);
  }

  lemma AnsweredThenEnded(c: Config, s: Conn, acts: seq<Action>)
    requires s.phase.Sending? && s.phase.payload == Payload(0, CLOSE_REQUEST, true) && 0 in s.tx.waiting
    requires s.rx == Init([]).rx
    requires acts == [WriteUser(Ok(())), Answer, Arrive(End)]
    ensures var t := Exec(c, s, acts);
            && t.phase.Select? && t.tx.senders == s.tx.senders && t.rx == s.rx.(stream := [End])
            && 0 in t.tx.answers && t.tx.answers[0].Ok?
  {
    ExecSteps3(c, s, acts[0], acts[1], acts[2]);
  }

  lemma EndedThenRecorded(c: Config, s: Conn, acts: seq<Action>)
    requires s.phase.Select? && s.rx == Init([]).rx.(stream := [End])
    requires acts == [ReadEvent, StreamFails, Record]
    ensures var t := Exec(c, s, acts);
            t.phase == Recorded(Errored(WebsocketClosed)) && t.tx == s.tx
  {
    ExecSteps3(c, s, acts[0], acts[1], acts[2]);
  }

  lemma RecordedThenTaken(c: Config, s: Conn, acts: seq<Action>)
    requires s.phase == Recorded(Errored(WebsocketClosed)) && s.tx.senders > 0
    requires 0 in s.tx.answers && s.tx.answers[0].Ok?
    requires acts == [DropRxSender, DropTxReceiver, Take(SendCall)]
    ensures var t := Exec(c, s, acts);
            t.phase == Finished(Errored(WebsocketClosed)) && ReturnsOk(CloseConnectionResult(t, Some(0)))
  {
    ExecSteps3(c, s, acts[0], acts[1], acts[2]);
  }
}
