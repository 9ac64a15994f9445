/** What a sender may rely on, over every schedule: order, answers, flushing and the verdict of a close. */
module SendGuarantees {
  import opened Messages
  import opened Sequences
  import opened Protocol
  import opened Outbound
  import opened Answers
  import opened Reachability

  // ----- order

  /**
   However many clones send, the wire carries a prefix of what was accepted, in order of
   acceptance. The rest has failed (once at most), is on its way, or was discarded at the end.
   */
  lemma WireFollowsAcceptance(c: Config, stream: seq<StreamEvent>, acts: seq<Action>)
    ensures var s := Exec(c, Init(stream), acts);
            && Flat(UserOf, s.wire) <= s.tx.accepted
            && (s.phase.Select? ==> s.tx.accepted == Flat(UserOf, s.wire) + s.tx.queue)
            && (s.phase.Finished? ==>
                  s.tx.accepted == Flat(UserOf, s.wire) + Flat(FailedOf, s.tx.failed) + s.tx.discarded)
            && |s.tx.failed| <= 1 && |s.tx.queue| <= c.capacity
  {
    Reachable(c, stream, acts);
    OutboundShape(c, Exec(c, Init(stream), acts));
  }

  lemma OutboundShape(c: Config, s: Conn)
    requires OutboundInv(c, s)
    ensures Flat(UserOf, s.wire) <= s.tx.accepted
    ensures s.phase.Select? ==> s.tx.accepted == Flat(UserOf, s.wire) + s.tx.queue
    ensures s.phase.Finished? ==> s.tx.accepted == Flat(UserOf, s.wire) + Flat(FailedOf, s.tx.failed) + s.tx.discarded
    ensures |s.tx.failed| <= 1 && |s.tx.queue| <= c.capacity
  {
    hide Sequences.Flat;
    if s.tx.failed == [] {
      FlatNothing(FailedOf, s.tx.failed);
    }
  }

  /**
   A confirmed send that has returned Ok is on the wire, and whatever any clone gets accepted
   afterwards comes later on the wire.
   */
  lemma ConfirmedBeforeBegun(c: Config, stream: seq<StreamEvent>, first: seq<Action>, second: seq<Action>, id: nat)
    requires var s := Exec(c, Init(stream), first); id in s.tx.answers && s.tx.answers[id].Ok?
    ensures var s, t := Exec(c, Init(stream), first), Exec(c, Init(stream), first + second);
            && s.wire <= t.wire && s.tx.accepted <= t.tx.accepted && id < |s.tx.accepted|
            && exists i :: 0 <= i < |s.wire| && s.wire[i].origin == User(s.tx.accepted[id])
                     && forall j, p :: 0 <= j < |t.wire| && p in t.tx.accepted[|s.tx.accepted|..] ==>
                          t.wire[j].origin == User(p) ==> i < j
  {
    hide Sequences.Flat, Protocol.Step, Protocol.Exec, Inv;
    var s, t := Exec(c, Init(stream), first), Exec(c, Init(stream), first + second);
    ExecConcat(c, Init(stream), first, second);
    Reachable(c, stream, first);
    Reachable(c, stream, first + second);
    GrowsExec(c, s, second);
    var i := AnsweredIsOnWire(c, s, id);
    forall j, p | 0 <= j < |t.wire| && p in t.tx.accepted[|s.tx.accepted|..] && t.wire[j].origin == User(p)
      ensures i < j
    {
      if j < |s.wire| {
        PartsOf(c, s, t);
        LaterIsNotWritten(c, s, t, j, p);
      }
    }
  }

  lemma PartsOf(c: Config, s: Conn, t: Conn)
    requires Inv(c, s) && Inv(c, t)
    ensures OutboundInv(c, s) && IdentityInv(t)
  {
    hide OutboundInv, IdentityInv;
  }

  lemma AnsweredIsOnWire(c: Config, s: Conn, id: nat) returns (i: nat)
    requires Inv(c, s) && id in s.tx.answers && s.tx.answers[id].Ok?
    ensures id < |s.tx.accepted| && i < |s.wire| && s.wire[i].origin == User(s.tx.accepted[id])
  {
    hide Sequences.Flat, Inv;
    AnswerIsOwnResult(c, s, id);
    var w := FlatSource(UserOf, s.wire, s.tx.accepted[id]);
    i :| 0 <= i < |s.wire| && s.wire[i] == w;
  }

  /** What was written by now had been accepted by now. */
  lemma LaterIsNotWritten(c: Config, s: Conn, t: Conn, j: nat, p: Payload)
    requires OutboundInv(c, s) && IdentityInv(t)
    requires s.tx.accepted <= t.tx.accepted && p in t.tx.accepted[|s.tx.accepted|..]
    requires j < |s.wire|
    ensures s.wire[j].origin != User(p)
  {
    hide Sequences.Flat;
    var later := t.tx.accepted[|s.tx.accepted|..];
    if s.wire[j].origin == User(p) {
      FlatContains(UserOf, s.wire, s.wire[j], p);
      assert t.tx.accepted == s.tx.accepted + later;
      RankOrder(t.tx.accepted, s.tx.accepted, later, p, p);
    }
  }

  // ----- answers

  /** A value in a one-shot is the result of that payload's own write. */
  lemma AnswerIsOwnResult(c: Config, s: Conn, id: nat)
    requires Inv(c, s) && id in s.tx.answers
    ensures id < |s.tx.accepted| && s.tx.accepted[id].confirmed
    ensures s.tx.answers[id].Ok? <==> s.tx.accepted[id] in Flat(UserOf, s.wire)
    ensures s.tx.answers[id].Err? ==>
              exists e :: s.tx.answers[id] == Err(WebsocketError(e))
                  && s.tx.failed == [FailedSend(s.tx.accepted[id], e)]
  {
    hide Sequences.Flat;
    var at := Attempt(id, s.tx.answers[id]);
    var p := AttemptedIsWritten(s, at);
    var done, failed := Flat(UserOf, s.wire), Flat(FailedOf, s.tx.failed);
    assert p in done || p in failed;
    assert p in s.tx.accepted;
    if p in failed {
      var f := FlatSource(FailedOf, s.tx.failed, p);
      if p in done {
        RankOrder(s.tx.accepted, done, Unwritten(s), p, p);
      }
    }
  }

  ghost predicate Increasing(attempts: seq<Attempt>) {
    forall i, j :: 0 <= i < j < |attempts| ==> attempts[i].id < attempts[j].id
  }

  lemma {:induction false} OkAttemptsIncrease(wire: seq<Sent>, users: seq<Payload>)
    requires users == Flat(UserOf, wire)
    requires forall i :: 0 <= i < |users| ==> users[i].id == i
    ensures Increasing(Flat(OkAttempt, wire))
    ensures forall at :: at in Flat(OkAttempt, wire) ==> at.id < |users|
  {
    if |wire| != 0 {
      var front := wire[..|wire| - 1];
      var earlier := Flat(UserOf, front);
      assert users == earlier + UserOf(wire[|wire| - 1]);
      assert forall i :: 0 <= i < |earlier| ==> earlier[i] == users[i];
      OkAttemptsIncrease(front, earlier);
      var last := wire[|wire| - 1];
      assert Flat(OkAttempt, wire) == Flat(OkAttempt, front) + OkAttempt(last);
      if last.origin.User? {
        assert users[|earlier|] == last.origin.payload;
      }
    }
  }

  /** The write of this payload has returned, with whatever result. */
  ghost predicate WriteReturned(s: Conn, p: Payload) {
    p in Flat(UserOf, s.wire) || p in Flat(FailedOf, s.tx.failed)
  }

  /**
   Answer accounting: every confirmed payload whose write has returned is answered exactly once,
   in order, and between two selects no answer is owed.
   */
  lemma EveryWriteAnsweredOnce(c: Config, stream: seq<StreamEvent>, acts: seq<Action>)
    ensures var s := Exec(c, Init(stream), acts);
            && Increasing(s.tx.attempts)
            && (forall p: Payload ::
                  p.confirmed && !s.phase.Answering? && WriteReturned(s, p) ==>
                  exists r :: Attempt(p.id, r) in s.tx.attempts)
            && (forall id :: id in s.tx.answers ==>
                  && id < |s.tx.accepted| && s.tx.accepted[id].confirmed
                  && (s.tx.answers[id].Ok? <==> s.tx.accepted[id] in Flat(UserOf, s.wire)))
  {
    var s := Exec(c, Init(stream), acts);
    Reachable(c, stream, acts);
    AttemptsIncrease(c, s);
    forall p: Payload | p.confirmed && !s.phase.Answering? && WriteReturned(s, p)
      ensures exists r :: Attempt(p.id, r) in s.tx.attempts
    {
      WrittenIsAttempted(s, p);
    }
    forall id | id in s.tx.answers
      ensures id < |s.tx.accepted| && s.tx.accepted[id].confirmed
      ensures s.tx.answers[id].Ok? <==> s.tx.accepted[id] in Flat(UserOf, s.wire)
    {
      AnswerIsOwnResult(c, s, id);
    }
  }

  /** The uses of one-shots, with the one that is owed now, are for ever later payloads. */
  lemma AttemptsIncrease(c: Config, s: Conn)
    requires Inv(c, s)
    ensures Increasing(s.tx.attempts + Owed(s.phase))
    ensures Increasing(s.tx.attempts)
  {
    hide Sequences.Flat;
    var users, oks := Flat(UserOf, s.wire), Flat(OkAttempt, s.wire);
    var all := s.tx.attempts + Owed(s.phase);
    assert users == s.tx.accepted[..|users|];
    OkAttemptsIncrease(s.wire, users);
    if s.tx.failed == [] {
      FlatNothing(ErrAttempt, s.tx.failed);
      assert all == oks;
    } else {
      assert s.tx.failed == [s.tx.failed[0]];
      FlatSingle(ErrAttempt, s.tx.failed[0]);
      FlatSingle(FailedOf, s.tx.failed[0]);
      assert s.tx.accepted[|users|] == s.tx.failed[0].payload;
      assert all == oks + ErrAttempt(s.tx.failed[0]);
    }
    assert s.tx.attempts == all[..|s.tx.attempts|];
  }

  /** The one-shot that is about to be used has not been used before. */
  lemma OwedIsNew(c: Config, s: Conn)
    requires Inv(c, s) && s.phase.Answering? && s.phase.payload.confirmed
    ensures s.phase.payload.id !in s.tx.answers
  {
    hide Sequences.Flat;
    var id := s.phase.payload.id;
    AttemptsIncrease(c, s);
    var all := s.tx.attempts + Owed(s.phase);
    assert all[|s.tx.attempts|].id == id;
    forall i | 0 <= i < |s.tx.attempts|
      ensures s.tx.attempts[i].id < id
    {
      assert all[i] == s.tx.attempts[i];
    }
  }

  /** A value in a one-shot is never replaced. */
  lemma AnswerStays(c: Config, s: Conn, a: Action, id: nat)
    requires Inv(c, s) && id in s.tx.answers
    ensures id in Step(c, s, a).tx.answers && Step(c, s, a).tx.answers[id] == s.tx.answers[id]
  {
    hide Inv;
    if LoopEnabled(c, s, a) {
      hide Protocol.HandleEnabled;
      if a.Answer? && s.phase.payload.confirmed {
        OwedIsNew(c, s);
      }
    } else {
      hide Protocol.LoopEnabled;
    }
  }

  /**
   The `unreachable!` arm, exactly: a waiting caller finds its one-shot dropped without a value
   if and only if its payload was still queued when the loop's receiving end was dropped.
   */
  lemma UnreachableExactly(c: Config, stream: seq<StreamEvent>, acts: seq<Action>)
    ensures var s := Exec(c, Init(stream), acts);
            && (forall id :: id in s.tx.waiting ==>
                  id < |s.tx.accepted| && (OneShotDropped(s, id) <==> s.tx.accepted[id] in s.tx.discarded))
            && (forall id :: id in s.tx.panicked ==>
                  id < |s.tx.accepted| && s.tx.accepted[id].confirmed && s.tx.accepted[id] in s.tx.discarded)
  {
    var s := Exec(c, Init(stream), acts);
    Reachable(c, stream, acts);
    forall id | id in s.tx.waiting
      ensures id < |s.tx.accepted| && (OneShotDropped(s, id) <==> s.tx.accepted[id] in s.tx.discarded)
    {
      if OneShotDropped(s, id) {
        DroppedIsDiscarded(c, s, id);
      } else if s.tx.accepted[id] in s.tx.discarded {
        DiscardedIsDropped(c, s, id);
      }
    }
  }

  /**
   The comment beside that arm is too strong: the stream ends, and a send that slips in before the
   channel closes panics.
   */
  lemma UnreachableIsReached(c: Config, m: Message)
    requires c.capacity > 0
    ensures 0 in Exec(c, Init([End]),
        [ReadEvent, StreamFails, Enqueue(m, true), Record, DropRxSender, DropTxReceiver, Resolve(0)]).tx.panicked
  {
    hide Protocol.Step, Protocol.Exec;
    var s0 := Init([End]);
    var leave, exit := [ReadEvent, StreamFails, Enqueue(m, true)], [Record, DropRxSender, DropTxReceiver];
    var s3 := Exec(c, s0, leave);
    ExecSteps3(c, s0, ReadEvent, StreamFails, Enqueue(m, true));
    SendSlipsIn(c, m);
    ExecSteps3(c, s3, Record, DropRxSender, DropTxReceiver);
    ExecConcat(c, s0, leave, exit);
    ExecAppend(c, s0, leave + exit, Resolve(0));
    assert [ReadEvent, StreamFails, Enqueue(m, true), Record, DropRxSender, DropTxReceiver, Resolve(0)] ==
        leave + exit + [Resolve(0)];
    ExitDropsQueue(c, s3, 0);
  }

  lemma SendSlipsIn(c: Config, m: Message)
    requires c.capacity > 0
    ensures var s := Step(c, Step(c, Step(c, Init([End]), ReadEvent), StreamFails), Enqueue(m, true));
            s.phase.Left? && 0 in s.tx.waiting && 0 !in s.tx.answers
  {
  }

  lemma ExitDropsQueue(c: Config, s: Conn, id: nat)
    requires s.phase.Left? && id in s.tx.waiting && id !in s.tx.answers
    ensures id in Step(c, Step(c, Step(c, Step(c, s, Record), DropRxSender), DropTxReceiver), Resolve(id)).tx.panicked
  {
  }

  lemma ExecSteps3(c: Config, s: Conn, x: Action, y: Action, z: Action)
    ensures Exec(c, s, [x, y, z]) == Step(c, Step(c, Step(c, s, x), y), z)
  {
    hide Protocol.Step;
    assert [x, y, z] == [x, y] + [z] && [x, y] == [x] + [y] && [x] == [] + [x];
    ExecAppend(c, s, [x, y], z);
    ExecAppend(c, s, [x], y);
    ExecAppend(c, s, [], x);
  }

  /** A payload accepted after the loop has left is never written and never answered. */
  lemma LateSendIsNeverAnswered(c: Config, stream: seq<StreamEvent>, before: seq<Action>, m: Message, confirmed: bool,
      after: seq<Action>)
    requires var s := Exec(c, Init(stream), before); !InLoop(s.phase) && HandleEnabled(c, s, Enqueue(m, confirmed))
    ensures var s := Exec(c, Init(stream), before);
            var t := Exec(c, Init(stream), before + [Enqueue(m, confirmed)] + after);
            && |s.tx.accepted| !in t.tx.answers
            && |s.tx.accepted| < |t.tx.accepted|
            && t.tx.accepted[|s.tx.accepted|] !in Flat(UserOf, t.wire)
  {
    hide Sequences.Flat;
    var s, a := Exec(c, Init(stream), before), Enqueue(m, confirmed);
    var t := Exec(c, Init(stream), before + [a] + after);
    ExecAppend(c, Init(stream), before, a);
    ExecConcat(c, Init(stream), before + [a], after);
    Reachable(c, stream, before);
    Reachable(c, stream, before + [a] + after);
    var u := Step(c, s, a);
    NothingAfterLeaving(c, u, after);
    GrowsExec(c, u, after);
    LateIsLast(c, s, u, t);
  }

  lemma LateIsLast(c: Config, s: Conn, u: Conn, t: Conn)
    requires Inv(c, s) && Inv(c, t)
    requires u.tx.answers == s.tx.answers && u.wire == s.wire && |u.tx.accepted| == |s.tx.accepted| + 1
    requires t.tx.answers == u.tx.answers && t.wire == u.wire && u.tx.accepted <= t.tx.accepted
    ensures |s.tx.accepted| !in t.tx.answers
    ensures t.tx.accepted[|s.tx.accepted|] !in Flat(UserOf, t.wire)
  {
    hide Sequences.Flat;
    var n := |s.tx.accepted|;
    if n in s.tx.answers {
      AnswerIsOwnResult(c, s, n);
    }
    assert Flat(UserOf, t.wire) == s.tx.accepted[..|Flat(UserOf, t.wire)|];
    assert forall p :: p in Flat(UserOf, t.wire) ==> p in s.tx.accepted;
  }

  // ----- flushing

  /**
   If the loop ends because its receive found no sender left, everything ever accepted has been
   written, successfully and in order, and the recorded cause says that the handle was dropped.
   */
  lemma SenderDropFlushes(c: Config, stream: seq<StreamEvent>, before: seq<Action>, after: seq<Action>)
    requires LoopEnabled(c, Exec(c, Init(stream), before), SeeNoSenders)
    ensures var t := Exec(c, Init(stream), before + [SeeNoSenders] + after);
            && Flat(UserOf, t.wire) == t.tx.accepted
            && t.tx.failed == [] && t.tx.discarded == [] && t.tx.panicked == {}
            && Outcome(t.phase) == Errored(SocketeerDroppedWithoutClosing)
  {
    hide Sequences.Flat, Inv, Protocol.Step, Frozen;
    var s := Exec(c, Init(stream), before);
    var u := Step(c, s, SeeNoSenders);
    var t := Exec(c, u, after);
    ExecAppend(c, Init(stream), before, SeeNoSenders);
    ExecConcat(c, Init(stream), before + [SeeNoSenders], after);
    Reachable(c, stream, before);
    Reachable(c, stream, before + [SeeNoSenders] + after);
    NoSendersLeave(c, s);
    NothingAfterLeaving(c, u, after);
    NoSendersNoSends(c, u, after);
    FlushedState(c, s, u, t);
  }

  lemma NoSendersLeave(c: Config, s: Conn)
    requires LoopEnabled(c, s, SeeNoSenders)
    ensures var u := Step(c, s, SeeNoSenders);
            u.tx == s.tx && u.wire == s.wire && u.phase == Left(Errored(SocketeerDroppedWithoutClosing))
  {
  }

  lemma FlushedState(c: Config, s: Conn, u: Conn, t: Conn)
    requires Inv(c, s) && LoopEnabled(c, s, SeeNoSenders)
    requires u.tx == s.tx && u.wire == s.wire && u.phase == Left(Errored(SocketeerDroppedWithoutClosing))
    requires Inv(c, t) && Frozen(u, t) && t.tx.accepted == u.tx.accepted
    ensures Flat(UserOf, t.wire) == t.tx.accepted
    ensures t.tx.failed == [] && t.tx.discarded == [] && t.tx.panicked == {}
    ensures Outcome(t.phase) == Errored(SocketeerDroppedWithoutClosing)
  {
    hide Sequences.Flat;
    OutboundShape(c, s);
    FlatNothing(FailedOf, t.tx.failed);
    assert t.tx.accepted == Flat(UserOf, t.wire) + Unwritten(t);
    assert Unwritten(t) == [];
    assert t.tx.discarded == [];
    assert forall id :: id !in t.tx.panicked;
  }

  lemma {:induction false} NoSendersNoSends(c: Config, s: Conn, acts: seq<Action>)
    requires s.tx.senders == 0 && !InLoop(s.phase)
    ensures var t := Exec(c, s, acts); t.tx.senders == 0 && !InLoop(t.phase) && t.tx.accepted == s.tx.accepted
  {
    if |acts| != 0 {
      NoSendersNoSends(c, s, acts[..|acts| - 1]);
      NoSendersStep(c, Exec(c, s, acts[..|acts| - 1]), acts[|acts| - 1]);
    }
  }

  lemma NoSendersStep(c: Config, s: Conn, a: Action)
    requires s.tx.senders == 0 && !InLoop(s.phase)
    ensures var t := Step(c, s, a); t.tx.senders == 0 && !InLoop(t.phase) && t.tx.accepted == s.tx.accepted
  {
  }

  /** A close request that was answered Ok has on the wire, before it, everything accepted before it. */
  lemma CloseFlushes(c: Config, stream: seq<StreamEvent>, acts: seq<Action>, id: nat)
    requires var s := Exec(c, Init(stream), acts); id in s.tx.answers && s.tx.answers[id].Ok?
    ensures var s := Exec(c, Init(stream), acts);
            && id < |s.tx.accepted| && id < |Flat(UserOf, s.wire)|
            && Flat(UserOf, s.wire)[..id + 1] == s.tx.accepted[..id + 1]
  {
    hide Sequences.Flat;
    var s := Exec(c, Init(stream), acts);
    Reachable(c, stream, acts);
    AnswerIsOwnResult(c, s, id);
    var users := Flat(UserOf, s.wire);
    var i :| 0 <= i < |users| && users[i] == s.tx.accepted[id];
    assert s.tx.accepted[i] == s.tx.accepted[id];
  }
}
