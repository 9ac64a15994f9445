/** The outbound direction: what becomes of every payload a sender hands over. */
module Outbound {
  import opened Messages
  import opened Sequences
  import opened Protocol

  /** The user payload a write carried, if any. */
  function UserOf(w: Sent): seq<Payload> {
    if w.origin.User? then [w.origin.payload] else []
  }

  function FailedOf(f: FailedSend): seq<Payload> {
    [f.payload]
  }

  /** The payload whose write is in progress. */
  function InFlight(p: Phase): seq<Payload> {
    if p.Sending? then [p.payload] else []
  }

  /** What has been accepted and not been written: failed, being written, queued or discarded. */
  function Unwritten(s: Conn): seq<Payload> {
    Flat(FailedOf, s.tx.failed) + (InFlight(s.phase) + (s.tx.queue + s.tx.discarded))
  }

  /**
   Conservation: every accepted payload is, in order of acceptance, written, failed, being
   written, queued, or discarded with the queue at the very end.
   */
  ghost predicate OutboundInv(c: Config, s: Conn) {
    && s.tx.accepted == Flat(UserOf, s.wire) + Unwritten(s)
    && |s.tx.queue| <= c.capacity
    && (s.phase.Finished? ==> s.tx.queue == [])
    && (s.tx.discarded != [] ==> s.phase.Finished?)
    && FailureInv(s)
  }

  /** At most one write of a payload fails, and nothing is written after it. */
  ghost predicate FailureInv(s: Conn) {
    && (s.phase.Answering? ==>
          if s.phase.result.Ok? then
            s.tx.failed == [] && s.wire != [] && s.wire[|s.wire| - 1].origin == User(s.phase.payload)
          else
            s.tx.failed == [FailedSend(s.phase.payload, s.phase.result.error)])
    && (InLoop(s.phase) && !s.phase.Answering? ==> s.tx.failed == [])
    && |s.tx.failed| <= 1
  }

  predicate IsWrite(a: Action) {
    a.WriteUser? || a.WritePong? || a.CloseSink? || a.WriteKeepalive?
  }

  lemma OutboundWrite(c: Config, s: Conn, a: Action)
    requires OutboundInv(c, s) && LoopEnabled(c, s, a) && IsWrite(a)
    ensures OutboundInv(c, LoopApply(c, s, a))
  {
    hide Sequences.Flat;
    var t := LoopApply(c, s, a);
    if |t.wire| > |s.wire| {
      FlatAppend(UserOf, s.wire, t.wire[|s.wire|]);
    } else if a.WriteUser? {
      FlatSingle(FailedOf, t.tx.failed[0]);
      FlatNothing(FailedOf, s.tx.failed);
      assert t.tx.failed == [t.tx.failed[0]];
    }
    if a.WriteUser? {
      FlatNothing(FailedOf, s.tx.failed);
    }
  }

  lemma OutboundMove(c: Config, s: Conn, a: Action)
    requires OutboundInv(c, s) && LoopEnabled(c, s, a) && (a.Dequeue? || a.DropTxReceiver?)
    ensures OutboundInv(c, LoopApply(c, s, a))
  {
    hide Sequences.Flat;
  }

  lemma OutboundOther(c: Config, s: Conn, a: Action)
    requires OutboundInv(c, s) && LoopEnabled(c, s, a) && !IsWrite(a) && !a.Dequeue? && !a.DropTxReceiver?
    ensures OutboundInv(c, LoopApply(c, s, a))
  {
    hide Sequences.Flat;
    var t := LoopApply(c, s, a);
    assert t.wire == s.wire && t.tx.queue == s.tx.queue && t.tx.accepted == s.tx.accepted;
    assert Unwritten(t) == Unwritten(s);
  }

  /** Every step of the loop or of a handle keeps the equation. */
  lemma OutboundStep(c: Config, s: Conn, a: Action)
    requires OutboundInv(c, s)
    ensures OutboundInv(c, Step(c, s, a))
  {
    hide Sequences.Flat, OutboundInv, Protocol.LoopApply, Protocol.HandleApply;
    if LoopEnabled(c, s, a) {
      if IsWrite(a) {
        OutboundWrite(c, s, a);
      } else if a.Dequeue? || a.DropTxReceiver? {
        OutboundMove(c, s, a);
      } else {
        OutboundOther(c, s, a);
      }
    } else if HandleEnabled(c, s, a) {
      OutboundHandle(c, s, a);
    }
  }

  lemma OutboundHandle(c: Config, s: Conn, a: Action)
    requires OutboundInv(c, s) && HandleEnabled(c, s, a)
    ensures OutboundInv(c, HandleApply(c, s, a))
  {
    hide Sequences.Flat;
  }

  // ----- what the wire shows

  /** The frame a write put on the wire is the one its origin calls for. */
  predicate FaithfulWrite(c: Config, w: Sent) {
    w.message == match w.origin
                 case User(p) => p.message
                 case PongReply => Pong([112, 111, 110, 103])
                 case Keepalive =>
                   (match c.keepaliveMessage
                    case Some(m) => m
                    case None => Ping([]))
                 case CloseReply => Close(None)
  }

  ghost predicate WireInv(c: Config, s: Conn) {
    forall i :: 0 <= i < |s.wire| ==> FaithfulWrite(c, s.wire[i])
  }

  lemma WireStep(c: Config, s: Conn, a: Action)
    requires WireInv(c, s)
    ensures WireInv(c, Step(c, s, a))
  {
    hide Protocol.HandleEnabled;
  }
}
