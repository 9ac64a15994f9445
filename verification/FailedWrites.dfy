/** Who learns that a user write failed, and which cause the loop records when an answer ends it. */
module FailedWrites {
  import opened Messages
  import opened Sequences
  import opened Protocol
  import opened Outbound
  import opened Answers
  import opened TerminalCause
  import opened Reachability
  import opened SendGuarantees

  /** The caller of this send no longer waited when the loop used its one-shot, or was yet to use it. */
  predicate CallerGone(tx: Tx, p: Payload) {
    p.confirmed && p.id !in tx.answers
  }

  /** The last answer the loop attempted found nobody. */
  predicate LastUnheard(tx: Tx) {
    tx.attempts != [] && tx.attempts[|tx.attempts| - 1].id !in tx.answers
  }

  /** The cause that stands for a failed user write. */
  function FailureCause(tx: Tx, p: Payload): Error {
    if CallerGone(tx, p) then SocketeerDroppedWithoutClosing else WebsocketClosed
  }

  /** An answer that nobody hears ends the loop; so does a failed write, with one of two causes. */
  ghost predicate CauseInv(s: Conn) {
    && (forall i :: 0 <= i < |s.tx.attempts| - 1 ==> s.tx.attempts[i].id in s.tx.answers)
    && (if InLoop(s.phase) then !LastUnheard(s.tx) else LeftInv(s))
  }

  ghost predicate LeftInv(s: Conn) {
    && (s.tx.failed != [] ==> Outcome(s.phase) == Errored(FailureCause(s.tx, s.tx.failed[0].payload)))
    && (LastUnheard(s.tx) ==> Outcome(s.phase) == Errored(SocketeerDroppedWithoutClosing))
    && (Outcome(s.phase) == Errored(SocketeerDroppedWithoutClosing) ==>
          LastUnheard(s.tx) || s.tx.senders == 0 || !s.rx.receiver)
  }

  lemma CauseAnswer(c: Config, s: Conn)
    requires CauseInv(s) && FailureInv(s) && s.phase.Answering?
    requires s.phase.payload.confirmed ==> s.phase.payload.id !in s.tx.answers
    ensures CauseInv(LoopApply(c, s, Answer))
  {
  }

  lemma CauseOther(c: Config, s: Conn, a: Action)
    requires CauseInv(s) && FailureInv(s) && LoopEnabled(c, s, a) && !a.Answer?
    ensures CauseInv(LoopApply(c, s, a))
  {
    var t := LoopApply(c, s, a);
    assert t.tx.attempts == s.tx.attempts && t.tx.answers == s.tx.answers;
  }

  lemma CauseHandle(c: Config, s: Conn, a: Action)
    requires CauseInv(s) && HandleEnabled(c, s, a)
    ensures CauseInv(HandleApply(c, s, a))
  {
  }

  lemma CauseStep(c: Config, s: Conn, a: Action)
    requires Inv(c, s) && CauseInv(s)
    ensures CauseInv(Step(c, s, a))
  {
    hide Inv, CauseInv, FailureInv, Protocol.LoopApply, Protocol.HandleApply;
    FailureOf(c, s);
    if LoopEnabled(c, s, a) {
      if a.Answer? {
        if s.phase.payload.confirmed {
          OwedIsNew(c, s);
        }
        CauseAnswer(c, s);
      } else {
        CauseOther(c, s, a);
      }
    } else if HandleEnabled(c, s, a) {
      CauseHandle(c, s, a);
    }
  }

  lemma FailureOf(c: Config, s: Conn)
    requires Inv(c, s)
    ensures FailureInv(s) && TerminalInv(s)
  {
    hide FailureInv, TerminalInv;
  }

  lemma {:induction false} CauseReachable(c: Config, stream: seq<StreamEvent>, acts: seq<Action>)
    ensures CauseInv(Exec(c, Init(stream), acts))
  {
    hide Inv, Protocol.Step;
    if |acts| != 0 {
      hide CauseInv;
      var front := acts[..|acts| - 1];
      CauseReachable(c, stream, front);
      Reachable(c, stream, front);
      CauseStep(c, Exec(c, Init(stream), front), acts[|acts| - 1]);
    }
  }

  /**
   A failed user write, in every run that it ended: the recorded cause is never its error, but that
   a handle was dropped if its caller had gone, and a plain closure otherwise. The error itself is
   in the one-shot of its own caller, or nowhere.
   */
  lemma FailedWriteCause(c: Config, stream: seq<StreamEvent>, acts: seq<Action>, p: Payload, e: WireError)
    requires var s := Exec(c, Init(stream), acts); s.tx.failed == [FailedSend(p, e)] && !InLoop(s.phase)
    ensures var s := Exec(c, Init(stream), acts);
            && (Outcome(s.phase) == Errored(SocketeerDroppedWithoutClosing) <==> p.confirmed && p.id !in s.tx.answers)
            && (Outcome(s.phase) == Errored(WebsocketClosed) <==> !p.confirmed || p.id in s.tx.answers)
            && (p.id in s.tx.answers ==> s.tx.answers[p.id] == Err(WebsocketError(e)))
            && (forall id :: id in s.tx.answers && s.tx.answers[id].Err? ==> id == p.id)
            && s.terminal.slot != Some(WebsocketError(e))
            && (forall t :: t in s.terminal.takes ==> t.cause != Some(WebsocketError(e)))
  {
    hide Sequences.Flat, Inv, Protocol.Exec;
    var s := Exec(c, Init(stream), acts);
    Reachable(c, stream, acts);
    CauseReachable(c, stream, acts);
    FailureOf(c, s);
    FailedIsAccepted(c, s, p);
    forall id | id in s.tx.answers && s.tx.answers[id].Err?
      ensures id == p.id && s.tx.answers[id] == Err(WebsocketError(e))
    {
      AnswerIsOwnResult(c, s, id);
    }
    if p.id in s.tx.answers {
      AnswerIsOwnResult(c, s, p.id);
    }
    forall t | t in s.terminal.takes
      ensures t.cause != Some(WebsocketError(e))
    {
      var i :| 0 <= i < |s.terminal.takes| && s.terminal.takes[i] == t;
    }
  }

  /** A payload whose write failed was accepted, under its own id, and is not on the wire. */
  lemma FailedIsAccepted(c: Config, s: Conn, p: Payload)
    requires Inv(c, s) && s.tx.failed != [] && s.tx.failed[0].payload == p
    ensures p.id < |s.tx.accepted| && s.tx.accepted[p.id] == p && p !in Flat(UserOf, s.wire)
    ensures forall i :: 0 <= i < |s.tx.accepted| ==> s.tx.accepted[i].id == i
  {
    hide Sequences.Flat;
    var users := Flat(UserOf, s.wire);
    FlatContains(FailedOf, s.tx.failed, s.tx.failed[0], p);
    assert p in Unwritten(s) && p in s.tx.accepted;
    if p in users {
      RankOrder(s.tx.accepted, users, Unwritten(s), p, p);
    }
  }

  /**
   Who is told: when the loop is about to answer a failed write, its error reaches a caller if and
   only if the send was confirmed and its caller still waits at that moment; and it reaches nobody
   else, whatever happens afterwards.
   */
  lemma FailedWriteReaches(c: Config, stream: seq<StreamEvent>, before: seq<Action>, after: seq<Action>)
    requires var s := Exec(c, Init(stream), before); s.phase.Answering? && s.phase.result.Err?
    ensures var s, t := Exec(c, Init(stream), before), Exec(c, Init(stream), before + [Answer] + after);
            var p, e := s.phase.payload, s.phase.result.error;
            && (p.id in t.tx.answers <==> p.confirmed && p.id in s.tx.waiting)
            && (p.id in t.tx.answers ==> t.tx.answers[p.id] == Err(WebsocketError(e)))
            && (forall id :: id in t.tx.answers && t.tx.answers[id].Err? ==> id == p.id)
            && Outcome(t.phase) == Errored(if p.confirmed && p.id !in s.tx.waiting
                                           then SocketeerDroppedWithoutClosing else WebsocketClosed)
  {
    hide Sequences.Flat, Inv, Protocol.Step, Frozen;
    var s := Exec(c, Init(stream), before);
    var p, e := s.phase.payload, s.phase.result.error;
    var u := Step(c, s, Answer);
    ExecAppend(c, Init(stream), before, Answer);
    ExecConcat(c, Init(stream), before + [Answer], after);
    Reachable(c, stream, before);
    FailureOf(c, s);
    if p.confirmed {
      OwedIsNew(c, s);
    } else {
      UnconfirmedIsUnanswered(c, s);
    }
    AnswerEnds(c, s);
    NothingAfterLeaving(c, u, after);
    FrozenAnswers(u, Exec(c, u, after));
    FailedWriteCause(c, stream, before + [Answer], p, e);
  }

  lemma FrozenAnswers(u: Conn, t: Conn)
    requires Frozen(u, t)
    ensures t.tx.answers == u.tx.answers && Outcome(t.phase) == Outcome(u.phase)
  {
  }

  lemma UnconfirmedIsUnanswered(c: Config, s: Conn)
    requires Inv(c, s) && s.phase.Answering? && !s.phase.payload.confirmed
    ensures s.phase.payload.id !in s.tx.answers
  {
    hide Sequences.Flat;
    var p := s.phase.payload;
    AnsweringIsAccepted(c, s);
    if p.id in s.tx.answers {
      AnswerIsOwnResult(c, s, p.id);
    }
  }

  lemma AnswerEnds(c: Config, s: Conn)
    requires s.phase.Answering? && s.phase.result.Err? && FailureInv(s)
    ensures var t, p := Step(c, s, Answer), s.phase.payload;
            && t.phase == Left(Errored(if p.confirmed && p.id !in s.tx.waiting
                                       then SocketeerDroppedWithoutClosing else WebsocketClosed))
            && t.tx.failed == [FailedSend(p, s.phase.result.error)]
            && (p.confirmed && p.id in s.tx.waiting ==> p.id in t.tx.answers)
            && (!(p.confirmed && p.id in s.tx.waiting) ==> t.tx.answers == s.tx.answers)
  {
  }

  /**
   "Dropped without closing", exactly: while a sender and the receiver are still alive, the loop has
   recorded it if and only if the last answer it attempted found its caller gone.
   */
  lemma DroppedExactly(c: Config, stream: seq<StreamEvent>, acts: seq<Action>)
    requires var s := Exec(c, Init(stream), acts); !InLoop(s.phase) && s.tx.senders > 0 && s.rx.receiver
    ensures var s := Exec(c, Init(stream), acts);
            Outcome(s.phase) == Errored(SocketeerDroppedWithoutClosing) <==> LastUnheard(s.tx)
  {
    hide Protocol.Exec;
    CauseReachable(c, stream, acts);
  }

  /** Every answer but the last was heard, and while the loop runs all were. */
  lemma UnheardEndsTheLoop(c: Config, stream: seq<StreamEvent>, acts: seq<Action>)
    ensures var s := Exec(c, Init(stream), acts);
            && (forall i :: 0 <= i < |s.tx.attempts| - 1 ==> s.tx.attempts[i].id in s.tx.answers)
            && (LastUnheard(s.tx) ==> Outcome(s.phase) == Errored(SocketeerDroppedWithoutClosing))
  {
    hide Protocol.Exec;
    CauseReachable(c, stream, acts);
  }

  // ----- the documented promise fails

  /**
   A fire-and-forget send is documented to surface a later socket failure through the terminal
   error. Whatever the frame and the error, it does not: the consumer finds a plain closure.
   */
  lemma FailedSendIsSwallowed(c: Config, m: Message, e: WireError)
    requires c.capacity > 0
    ensures var s := Exec(c, Init([]), [Enqueue(m, false), Dequeue, WriteUser(Err(e))]
                                       + [Answer, Record, DropRxSender] + [Take(ReceiveCall)]);
            && s.tx.failed == [FailedSend(Payload(0, m, false), e)] && s.tx.answers == map[]
            && s.terminal.takes == [Taking(ReceiveCall, Some(WebsocketClosed))]
  {
    hide Protocol.Step, Protocol.Exec;
    var send, exit := [Enqueue(m, false), Dequeue, WriteUser(Err(e))], [Answer, Record, DropRxSender];
    var s3 := Exec(c, Init([]), send);
    ExecSteps3(c, Init([]), send[0], send[1], send[2]);
    SendFails(c, m, e);
    ExecSteps3(c, s3, Answer, Record, DropRxSender);
    ExecConcat(c, Init([]), send, exit);
    ExecAppend(c, Init([]), send + exit, Take(ReceiveCall));
    FailureIsTaken(c, s3, e);
  }

  lemma SendFails(c: Config, m: Message, e: WireError)
    requires c.capacity > 0
    ensures var s := Step(c, Step(c, Step(c, Init([]), Enqueue(m, false)), Dequeue), WriteUser(Err(e)));
            && s.phase == Answering(Payload(0, m, false), Err(e)) && s.tx.answers == map[]
            && s.tx.failed == [FailedSend(Payload(0, m, false), e)]
            && s.rx == Init([]).rx && s.terminal == Terminal(None, [])
  {
  }

  lemma FailureIsTaken(c: Config, s: Conn, e: WireError)
    requires s.phase.Answering? && !s.phase.payload.confirmed && s.phase.result == Err(e)
    requires s.rx == Init([]).rx && s.terminal == Terminal(None, [])
    ensures var t := Step(c, Step(c, Step(c, Step(c, s, Answer), Record), DropRxSender), Take(ReceiveCall));
            && t.terminal.takes == [Taking(ReceiveCall, Some(WebsocketClosed))] && t.tx == s.tx
  {
  }

  /**
   A caller that is cancelled while its frame waits in the queue ends a live connection, even if
   the write succeeds: a sender and the receiver are still there, and the cause says otherwise.
   */
  lemma CancelledSendEndsConnection(c: Config, m: Message, r: WriteResult)
    requires c.capacity > 0
    ensures var s := Exec(c, Init([]), [Enqueue(m, true), Cancel(0), Dequeue] + [WriteUser(r), Answer, Record]);
            && s.phase == Recorded(Errored(SocketeerDroppedWithoutClosing))
            && s.terminal.slot == Some(SocketeerDroppedWithoutClosing)
            && s.tx.senders == 1 && s.rx.receiver && s.tx.answers == map[]
            && (r.Ok? ==> s.wire == [Sent(m, User(Payload(0, m, true)), 0)])
  {
    hide Protocol.Step, Protocol.Exec;
    var send, exit := [Enqueue(m, true), Cancel(0), Dequeue], [WriteUser(r), Answer, Record];
    ExecSteps3(c, Init([]), send[0], send[1], send[2]);
    CancelledBeforeWrite(c, m);
    ExecSteps3(c, Exec(c, Init([]), send), exit[0], exit[1], exit[2]);
    ExecConcat(c, Init([]), send, exit);
    CancelledWriteEnds(c, Exec(c, Init([]), send), m, r);
  }

  lemma CancelledBeforeWrite(c: Config, m: Message)
    requires c.capacity > 0
    ensures var s := Step(c, Step(c, Step(c, Init([]), Enqueue(m, true)), Cancel(0)), Dequeue);
            && s.phase == Sending(Payload(0, m, true)) && s.tx.waiting == {} && s.tx.answers == map[]
            && s.tx.senders == 1 && s.rx == Init([]).rx && s.wire == [] && s.terminal == Terminal(None, [])
  {
  }

  lemma CancelledWriteEnds(c: Config, s: Conn, m: Message, r: WriteResult)
    requires s.phase == Sending(Payload(0, m, true)) && s.tx.waiting == {} && s.tx.answers == map[]
    requires s.tx.senders == 1 && s.rx == Init([]).rx && s.wire == []
    ensures var t := Step(c, Step(c, Step(c, s, WriteUser(r)), Answer), Record);
            && t.phase == Recorded(Errored(SocketeerDroppedWithoutClosing))
            && t.terminal.slot == Some(SocketeerDroppedWithoutClosing)
            && t.tx.senders == 1 && t.rx.receiver && t.tx.answers == map[]
            && (r.Ok? ==> t.wire == [Sent(m, User(Payload(0, m, true)), 0)])
  {
  }
}
