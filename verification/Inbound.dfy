/** The inbound direction: what becomes of every event the loop reads from the stream. */
module Inbound {
  import opened Messages
  import opened Sequences
  import opened Protocol

  /** A data frame that has been read and not yet offered to the channel. */
  function Pending(p: Phase): seq<Message> {
    if p.Handling? then DataOf(p.event) else []
  }

  /** The frames that have left the loop for the consumer. */
  function Delivered(s: Conn): seq<Message> {
    s.rx.consumed + (s.rx.queue + s.rx.abandoned)
  }

  /** Where the data frames read so far are. */
  function Placed(s: Conn): seq<Message> {
    s.rx.consumed + (s.rx.queue + (s.rx.abandoned + (HeldFrame(s.rx.held) + (Pending(s.phase) + s.rx.lost))))
  }

  /**
   Conservation: the data frames read are, in order, consumed, queued (or abandoned by the
   consumer), held back, about to be offered, or lost with the loop.
   */
  ghost predicate InboundInv(c: Config, s: Conn) {
    && Flat(DataOf, s.rx.read) == Placed(s)
    && |s.rx.queue| <= c.capacity
    && (if s.rx.receiver then s.rx.abandoned == [] else s.rx.queue == [])
    && (s.rx.held.Some? ==> InLoop(s.phase) && !s.phase.Handling?)
    && |s.rx.lost| <= 1
    && (s.rx.lost != [] ==> Outcome(s.phase).Errored?)
  }

  lemma InboundDeliver(c: Config, s: Conn)
    requires InboundInv(c, s) && LoopEnabled(c, s, Deliver)
    ensures InboundInv(c, LoopApply(c, s, Deliver))
  {
    hide Sequences.Flat;
  }

  lemma InboundPermit(c: Config, s: Conn)
    requires InboundInv(c, s) && LoopEnabled(c, s, Permit)
    ensures InboundInv(c, LoopApply(c, s, Permit))
  {
    hide Sequences.Flat;
  }

  /** Apart from reading and delivering, the loop touches the inbound side only to drop the held frame on leaving. */
  lemma LoopMovesRx(c: Config, s: Conn, a: Action)
    requires LoopEnabled(c, s, a) && !a.ReadEvent? && !a.Deliver? && !a.Permit?
    ensures var t := LoopApply(c, s, a);
            && Pending(s.phase) == [] && Pending(t.phase) == []
            && (t.phase.Left? ==>
                  InLoop(s.phase) && t.rx == s.rx.(held := None, lost := s.rx.lost + HeldFrame(s.rx.held)))
            && (!t.phase.Left? ==>
                  && t.rx == s.rx && Outcome(t.phase) == Outcome(s.phase)
                  && InLoop(t.phase) == InLoop(s.phase) && !t.phase.Handling?)
  {
  }

  lemma InboundLoop(c: Config, s: Conn, a: Action)
    requires InboundInv(c, s) && LoopEnabled(c, s, a) && !a.ReadEvent? && !a.Deliver? && !a.Permit?
    ensures InboundInv(c, LoopApply(c, s, a))
  {
    hide Sequences.Flat;
    var t := LoopApply(c, s, a);
    LoopMovesRx(c, s, a);
    if t.phase.Left? {
      assert InLoop(s.phase) && s.rx.lost == [];
    }
    assert Placed(t) == Placed(s);
  }

  lemma InboundRead(c: Config, s: Conn, a: Action)
    requires InboundInv(c, s) && LoopEnabled(c, s, a) && a.ReadEvent?
    ensures InboundInv(c, LoopApply(c, s, a))
  {
    hide Sequences.Flat;
    FlatAppend(DataOf, s.rx.read, s.rx.stream[0]);
  }

  lemma InboundConsume(c: Config, s: Conn)
    requires InboundInv(c, s) && HandleEnabled(c, s, Consume)
    ensures InboundInv(c, HandleApply(c, s, Consume))
  {
    hide Sequences.Flat;
    assert s.rx.queue == [s.rx.queue[0]] + s.rx.queue[1..];
  }

  lemma InboundDrop(c: Config, s: Conn)
    requires InboundInv(c, s) && HandleEnabled(c, s, DropReceiver)
    ensures InboundInv(c, HandleApply(c, s, DropReceiver))
  {
    hide Sequences.Flat;
  }

  lemma InboundHandle(c: Config, s: Conn, a: Action)
    requires InboundInv(c, s) && HandleEnabled(c, s, a) && !a.Consume? && !a.DropReceiver?
    ensures InboundInv(c, HandleApply(c, s, a))
  {
    hide Sequences.Flat;
    var t := HandleApply(c, s, a);
    assert HeldFrame(t.rx.held) == HeldFrame(s.rx.held);
    assert Placed(t) == Placed(s);
  }

  /** Every step of the loop or of a handle keeps the equation. */
  lemma InboundStep(c: Config, s: Conn, a: Action)
    requires InboundInv(c, s)
    ensures InboundInv(c, Step(c, s, a))
  {
    hide InboundInv, Protocol.LoopApply, Protocol.HandleApply;
    if LoopEnabled(c, s, a) {
      if a.ReadEvent? {
        InboundRead(c, s, a);
      } else if a.Deliver? {
        InboundDeliver(c, s);
      } else if a.Permit? {
        InboundPermit(c, s);
      } else {
        InboundLoop(c, s, a);
      }
    } else if HandleEnabled(c, s, a) {
      if a.Consume? {
        InboundConsume(c, s);
      } else if a.DropReceiver? {
        InboundDrop(c, s);
      } else {
        InboundHandle(c, s, a);
      }
    }
  }

  // ----- the shape of the read trace

  /** After such an event the loop reads nothing more. */
  predicate EndsReading(e: StreamEvent) {
    !e.Frame? || e.message.Close?
  }

  /** Only the last event read can end the loop, and a graceful end follows the peer's Close. */
  ghost predicate ReadInv(s: Conn) {
    && (forall i :: 0 <= i < |s.rx.read| - 1 ==> !EndsReading(s.rx.read[i]))
    && (s.phase.Handling? ==> s.rx.read != [] && s.rx.read[|s.rx.read| - 1] == s.phase.event)
    && (InLoop(s.phase) && !s.phase.Handling? && s.rx.read != [] ==> !EndsReading(s.rx.read[|s.rx.read| - 1]))
    && (Outcome(s.phase).Closed? ==>
          s.rx.read != [] && s.rx.read[|s.rx.read| - 1].Frame? && s.rx.read[|s.rx.read| - 1].message.Close?)
    && (!InLoop(s.phase) ==> !Outcome(s.phase).Running?)
  }

  lemma ReadLoop(c: Config, s: Conn, a: Action)
    requires ReadInv(s) && LoopEnabled(c, s, a) && !a.ReadEvent?
    ensures ReadInv(LoopApply(c, s, a))
  {
    assert LoopApply(c, s, a).rx.read == s.rx.read;
  }

  lemma ReadStep(c: Config, s: Conn, a: Action)
    requires ReadInv(s)
    ensures ReadInv(Step(c, s, a))
  {
    if LoopEnabled(c, s, a) && !a.ReadEvent? {
      hide ReadInv, Protocol.LoopApply;
      ReadLoop(c, s, a);
    } else {
      hide Protocol.HandleEnabled, Protocol.LoopEnabled;
    }
  }
}
