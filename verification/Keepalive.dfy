/** Timing under backpressure: how long a frame can be held between two writes. */
module Keepalive {
  import opened Protocol

  /** The longest a hold can have lasted after w successful writes, with `busy` ticks spent in writes. */
  function Bound(interval: nat, writes: nat, busy: nat): nat {
    writes * interval + busy
  }

  lemma BoundGrows(interval: nat, writes: nat, busy: nat)
    ensures Bound(interval, writes + 1, busy) == Bound(interval, writes, busy) + interval
  {
  }

  /**
   Suspended in the select, the time up to its entry is paid for by writes that succeeded and by
   the time they took, and the timer bounds the rest; during a write one more interval is due.
   */
  ghost predicate HoldInv(c: Config, s: Conn) {
    && s.clock.since <= s.clock.now
    && (s.phase.Select? && c.keepalive.Some? ==> s.clock.now <= s.clock.since + c.keepalive.value)
    && (c.keepalive.Some? && s.rx.held.Some? ==>
          var h, d := s.rx.held.value, c.keepalive.value;
          && h.wireLength <= |s.wire|
          && var w := |s.wire| - h.wireLength;
          && (s.phase.Select? ==> s.clock.since <= h.start + Bound(d, w, h.busy))
          && (s.phase.Sending? || s.phase.Ticking? ==> s.clock.now <= h.start + Bound(d, w, h.busy) + d)
          && (s.phase.Answering? ==>
                s.clock.now <= h.start + Bound(d, w, h.busy) + if s.phase.result.Ok? then 0 else d))
  }

  lemma HoldLoop(c: Config, s: Conn, a: Action)
    requires HoldInv(c, s) && LoopEnabled(c, s, a)
    requires s.rx.held.Some? ==> InLoop(s.phase) && !s.phase.Handling?
    ensures HoldInv(c, LoopApply(c, s, a))
  {
    hide Bound;
    if c.keepalive.Some? && s.rx.held.Some? && s.rx.held.value.wireLength <= |s.wire| {
      BoundGrows(c.keepalive.value, |s.wire| - s.rx.held.value.wireLength, s.rx.held.value.busy);
    }
    if a.Deliver? && c.keepalive.Some? {
      ZeroBound(c.keepalive.value);
    }
  }

  lemma ZeroBound(interval: nat)
    ensures Bound(interval, 0, 0) == 0
  {
  }

  lemma HoldHandle(c: Config, s: Conn, a: Action)
    requires HoldInv(c, s) && HandleEnabled(c, s, a)
    requires s.rx.held.Some? ==> InLoop(s.phase) && !s.phase.Handling?
    ensures HoldInv(c, HandleApply(c, s, a))
  {
  }

  lemma HoldStep(c: Config, s: Conn, a: Action)
    requires HoldInv(c, s)
    requires s.rx.held.Some? ==> InLoop(s.phase) && !s.phase.Handling?
    ensures HoldInv(c, Step(c, s, a))
  {
    hide HoldInv, Protocol.LoopApply, Protocol.HandleApply;
    if LoopEnabled(c, s, a) {
      HoldLoop(c, s, a);
    } else if HandleEnabled(c, s, a) {
      HoldHandle(c, s, a);
    }
  }
}
