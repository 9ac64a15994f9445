/** The one-shots of confirmed sends: who is answered, with what, and who never is. */
module Answers {
  import opened Messages
  import opened Sequences
  import opened Protocol
  import opened Outbound

  /** The answer owed for a successful write. */
  function OkAttempt(w: Sent): seq<Attempt> {
    if w.origin.User? && w.origin.payload.confirmed then [Attempt(w.origin.payload.id, Ok(()))] else []
  }

  /** The answer owed for a failed write. */
  function ErrAttempt(f: FailedSend): seq<Attempt> {
    if f.payload.confirmed then [Attempt(f.payload.id, Err(WebsocketError(f.error)))] else []
  }

  /** The answer owed for the write that has just returned. */
  function Owed(p: Phase): seq<Attempt> {
    if p.Answering? && p.payload.confirmed then [Attempt(p.payload.id, FromWire(p.result))] else []
  }

  /** Ids are ranks of acceptance, and only confirmed sends wait. */
  ghost predicate IdentityInv(s: Conn) {
    && (forall i :: 0 <= i < |s.tx.accepted| ==> s.tx.accepted[i].id == i)
    && (forall id :: id in s.tx.waiting ==> id < |s.tx.accepted| && s.tx.accepted[id].confirmed)
  }

  /** Every write of a confirmed payload is answered once, in order, with its own result. */
  ghost predicate AttemptInv(s: Conn) {
    s.tx.attempts + Owed(s.phase) == Flat(OkAttempt, s.wire) + Flat(ErrAttempt, s.tx.failed)
  }

  /** A value sits in a one-shot exactly because the loop put it there while the caller waited. */
  ghost predicate AnswerInv(s: Conn) {
    && (forall id :: id in s.tx.answers ==> Attempt(id, s.tx.answers[id]) in s.tx.attempts)
    && (forall at :: at in s.tx.attempts ==> at.id < |s.tx.accepted|)
    && (forall at :: at in s.tx.attempts ==> at.id in s.tx.answers || at.id !in s.tx.waiting)
  }

  lemma IdentityStep(c: Config, s: Conn, a: Action)
    requires IdentityInv(s)
    ensures IdentityInv(Step(c, s, a))
  {
    if LoopEnabled(c, s, a) {
      hide Protocol.HandleEnabled;
    } else {
      hide Protocol.LoopEnabled;
    }
  }

  lemma AttemptOther(c: Config, s: Conn, a: Action)
    requires AttemptInv(s) && LoopEnabled(c, s, a) && !IsWrite(a)
    ensures AttemptInv(LoopApply(c, s, a))
  {
    hide Sequences.Flat;
    var t := LoopApply(c, s, a);
    assert t.wire == s.wire && t.tx.failed == s.tx.failed;
    assert t.tx.attempts + Owed(t.phase) == s.tx.attempts + Owed(s.phase);
  }

  lemma AttemptWrite(c: Config, s: Conn, a: Action)
    requires FailureInv(s) && AttemptInv(s) && LoopEnabled(c, s, a) && IsWrite(a)
    ensures AttemptInv(LoopApply(c, s, a))
  {
    hide Sequences.Flat;
    var t := LoopApply(c, s, a);
    if |t.wire| > |s.wire| {
      FlatAppend(OkAttempt, s.wire, t.wire[|s.wire|]);
    } else if a.WriteUser? {
      FlatSingle(ErrAttempt, t.tx.failed[0]);
      assert t.tx.failed == [t.tx.failed[0]];
    }
    FlatNothing(ErrAttempt, s.tx.failed);
    assert t.tx.attempts + Owed(t.phase) == s.tx.attempts + Owed(s.phase) + Owed(t.phase);
  }

  lemma AttemptStep(c: Config, s: Conn, a: Action)
    requires OutboundInv(c, s) && AttemptInv(s)
    ensures AttemptInv(Step(c, s, a))
  {
    if LoopEnabled(c, s, a) {
      hide AttemptInv, FailureInv, Protocol.LoopApply;
      if IsWrite(a) {
        AttemptWrite(c, s, a);
      } else {
        AttemptOther(c, s, a);
      }
    }
  }

  /** The payload that is about to be answered is an accepted one. */
  lemma AnsweringIsAccepted(c: Config, s: Conn)
    requires OutboundInv(c, s) && s.phase.Answering?
    ensures s.phase.payload in s.tx.accepted
  {
    var p := s.phase.payload;
    if s.phase.result.Ok? {
      FlatContains(UserOf, s.wire, s.wire[|s.wire| - 1], p);
    } else {
      FlatContains(FailedOf, s.tx.failed, s.tx.failed[0], p);
    }
  }

  lemma AnswerStep(c: Config, s: Conn, a: Action)
    requires OutboundInv(c, s) && IdentityInv(s) && AnswerInv(s)
    ensures AnswerInv(Step(c, s, a))
  {
    hide OutboundInv;
    if a.Answer? && LoopEnabled(c, s, a) {
      AnsweringIsAccepted(c, s);
      AnswerUse(s, s.phase.payload, FromWire(s.phase.result));
    } else if LoopEnabled(c, s, a) {
      hide AnswerInv;
      AnswerOther(c, s, a);
    } else {
      hide Protocol.LoopEnabled;
    }
  }

  lemma AnswerUse(s: Conn, p: Payload, r: SendResult)
    requires IdentityInv(s) && AnswerInv(s) && p in s.tx.accepted
    ensures AnswerInv(s.(tx := UseOneShot(s.tx, p, r)))
  {
  }

  lemma AnswerOther(c: Config, s: Conn, a: Action)
    requires AnswerInv(s) && LoopEnabled(c, s, a) && !a.Answer?
    ensures AnswerInv(LoopApply(c, s, a))
  {
    var t := LoopApply(c, s, a);
    assert t.tx.answers == s.tx.answers && t.tx.attempts == s.tx.attempts;
    assert t.tx.accepted == s.tx.accepted && t.tx.waiting == s.tx.waiting;
  }

  // ----- who is never answered

  /** In a sequence whose ids are ranks, an element of the front part comes before one of the back part. */
  lemma RankOrder(all: seq<Payload>, front: seq<Payload>, back: seq<Payload>, p: Payload, q: Payload)
    requires all == front + back && p in front && q in back
    requires forall i :: 0 <= i < |all| ==> all[i].id == i
    ensures p.id < |front| <= q.id < |all| && all[p.id] == p && all[q.id] == q
  {
    var i :| 0 <= i < |front| && front[i] == p;
    var j :| 0 <= j < |back| && back[j] == q;
    assert all[i] == p && all[|front| + j] == q;
  }

  /** A payload that reached the end of its write has its attempt made or owed. */
  lemma WrittenIsAttempted(s: Conn, p: Payload)
    requires AttemptInv(s) && p.confirmed
    requires p in Flat(UserOf, s.wire) || p in Flat(FailedOf, s.tx.failed)
    ensures exists r :: Attempt(p.id, r) in s.tx.attempts + Owed(s.phase)
  {
    if p in Flat(UserOf, s.wire) {
      var w := FlatSource(UserOf, s.wire, p);
      FlatContains(OkAttempt, s.wire, w, Attempt(p.id, Ok(())));
      assert Attempt(p.id, Ok(())) in s.tx.attempts + Owed(s.phase);
    } else {
      var f := FlatSource(FailedOf, s.tx.failed, p);
      var at := Attempt(p.id, Err(WebsocketError(f.error)));
      FlatContains(ErrAttempt, s.tx.failed, f, at);
      assert at in s.tx.attempts + Owed(s.phase);
    }
  }

  /** Whatever was attempted had been written, or its write had failed. */
  lemma AttemptedIsWritten(s: Conn, at: Attempt) returns (p: Payload)
    requires AttemptInv(s) && at in s.tx.attempts
    ensures p.id == at.id && p.confirmed
    ensures at.result.Ok? ==> p in Flat(UserOf, s.wire)
    ensures at.result.Err? ==> p in Flat(FailedOf, s.tx.failed)
    ensures at.result.Err? ==> exists e :: at.result == Err(WebsocketError(e)) && FailedSend(p, e) in s.tx.failed
  {
    assert at in s.tx.attempts + Owed(s.phase);
    if at in Flat(OkAttempt, s.wire) {
      var w := FlatSource(OkAttempt, s.wire, at);
      p := w.origin.payload;
      FlatContains(UserOf, s.wire, w, p);
    } else {
      var f := FlatSource(ErrAttempt, s.tx.failed, at);
      p := f.payload;
      FlatContains(FailedOf, s.tx.failed, f, p);
      assert FailedSend(p, f.error) in s.tx.failed;
    }
  }

  /** A waiting caller whose payload was written, or failed, has its value or is about to get it. */
  lemma WrittenIsNotDropped(s: Conn, p: Payload)
    requires AttemptInv(s) && AnswerInv(s) && p.confirmed && p.id in s.tx.waiting
    requires p in Flat(UserOf, s.wire) || p in Flat(FailedOf, s.tx.failed)
    ensures !OneShotDropped(s, p.id)
  {
    WrittenIsAttempted(s, p);
    var r :| Attempt(p.id, r) in s.tx.attempts + Owed(s.phase);
    assert Attempt(p.id, r) in s.tx.attempts || Attempt(p.id, r) in Owed(s.phase);
  }

  lemma DroppedIsDiscarded(c: Config, s: Conn, id: nat)
    requires OutboundInv(c, s) && IdentityInv(s) && AttemptInv(s) && AnswerInv(s)
    requires id in s.tx.waiting && OneShotDropped(s, id)
    ensures s.tx.accepted[id] in s.tx.discarded
  {
    var p := s.tx.accepted[id];
    assert p in Flat(UserOf, s.wire) + Unwritten(s);
    assert p !in Flat(UserOf, s.wire) && p !in Flat(FailedOf, s.tx.failed) by {
      if p in Flat(UserOf, s.wire) || p in Flat(FailedOf, s.tx.failed) {
        WrittenIsNotDropped(s, p);
      }
    }
    assert p !in InFlight(s.phase) && p !in s.tx.queue;
  }

  lemma DiscardedIsDropped(c: Config, s: Conn, id: nat)
    requires OutboundInv(c, s) && IdentityInv(s) && AttemptInv(s) && AnswerInv(s)
    requires id in s.tx.waiting && s.tx.accepted[id] in s.tx.discarded
    ensures OneShotDropped(s, id)
  {
    if id in s.tx.answers {
      var q := AttemptedIsWritten(s, Attempt(id, s.tx.answers[id]));
      var done := Flat(UserOf, s.wire) + Flat(FailedOf, s.tx.failed);
      assert q in done;
      var rest := InFlight(s.phase) + (s.tx.queue + s.tx.discarded);
      assert s.tx.accepted == done + rest;
      RankOrder(s.tx.accepted, done, rest, q, s.tx.accepted[id]);
    }
  }

  /** Callers that met the `unreachable!` arm were waiting on a discarded payload. */
  ghost predicate PanicInv(s: Conn) {
    forall id :: id in s.tx.panicked ==>
        id < |s.tx.accepted| && s.tx.accepted[id] in s.tx.discarded && s.tx.accepted[id].confirmed
  }

  lemma PanicLoop(c: Config, s: Conn, a: Action)
    requires LoopEnabled(c, s, a) && PanicInv(s) && (s.tx.discarded != [] ==> s.phase.Finished?)
    ensures PanicInv(LoopApply(c, s, a))
  {
    var t := LoopApply(c, s, a);
    assert t.tx.panicked == s.tx.panicked && t.tx.accepted == s.tx.accepted;
    assert s.tx.discarded == t.tx.discarded || s.tx.discarded == [];
  }

  lemma PanicStep(c: Config, s: Conn, a: Action)
    requires OutboundInv(c, s) && IdentityInv(s) && AttemptInv(s) && AnswerInv(s) && PanicInv(s)
    ensures PanicInv(Step(c, s, a))
  {
    hide AttemptInv, AnswerInv;
    if LoopEnabled(c, s, a) {
      hide PanicInv, Protocol.LoopApply;
      PanicLoop(c, s, a);
    } else if HandleEnabled(c, s, a) {
      if a.Resolve? && a.id !in s.tx.answers {
        DroppedIsDiscarded(c, s, a.id);
      }
    }
  }
}
