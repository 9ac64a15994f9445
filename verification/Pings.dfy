/** Ping service: each Ping read is answered by one Pong before anything else is read. */
module Pings {
  import opened Messages
  import opened Sequences
  import opened Protocol
  import opened Outbound

  /** For each Ping read, how many events had been read when it had just been read. */
  function PingMarks(events: seq<StreamEvent>): seq<int> {
    if |events| == 0 then []
    else PingMarks(events[..|events| - 1]) + (if IsPingEvent(events[|events| - 1]) then [|events|] else [])
  }

  /** For each of the loop's own Pongs, how many events had been read when it was written. */
  function PongMark(w: Sent): seq<int> {
    if w.origin.PongReply? then [w.readCount] else []
  }

  /** The Ping that is being answered. */
  function Unanswered(s: Conn): seq<int> {
    if s.phase.Handling? && IsPingEvent(s.phase.event) then [|s.rx.read|] else []
  }

  ghost predicate PingInv(s: Conn) {
    var pings, pongs := PingMarks(s.rx.read), Flat(PongMark, s.wire);
    if InLoop(s.phase) then
      pings == pongs + Unanswered(s)
    else
      pings == pongs || pings == pongs + [|s.rx.read|]
  }

  lemma PingRead(c: Config, s: Conn)
    requires PingInv(s) && LoopEnabled(c, s, ReadEvent)
    ensures PingInv(LoopApply(c, s, ReadEvent))
  {
    hide Sequences.Flat;
    var t := LoopApply(c, s, ReadEvent);
    assert t.rx.read[..|s.rx.read|] == s.rx.read;
  }

  lemma PingWrite(c: Config, s: Conn, a: Action)
    requires PingInv(s) && LoopEnabled(c, s, a) && IsWrite(a)
    ensures PingInv(LoopApply(c, s, a))
  {
    hide Sequences.Flat, PingMarks;
    var t := LoopApply(c, s, a);
    if |t.wire| > |s.wire| {
      FlatAppend(PongMark, s.wire, t.wire[|s.wire|]);
    }
    if a.WritePong? && a.result.Ok? {
      assert t.wire[|s.wire|].readCount == |s.rx.read|;
      assert Flat(PongMark, t.wire) == Flat(PongMark, s.wire) + [|s.rx.read|];
    } else {
      assert Flat(PongMark, t.wire) == Flat(PongMark, s.wire);
    }
  }

  lemma PingOther(c: Config, s: Conn, a: Action)
    requires PingInv(s) && LoopEnabled(c, s, a) && !IsWrite(a) && !a.ReadEvent?
    ensures PingInv(LoopApply(c, s, a))
  {
    hide Sequences.Flat, PingMarks;
    var t := LoopApply(c, s, a);
    assert t.wire == s.wire && t.rx.read == s.rx.read;
  }

  lemma PingStep(c: Config, s: Conn, a: Action)
    requires PingInv(s)
    ensures PingInv(Step(c, s, a))
  {
    hide Sequences.Flat, PingMarks;
    if LoopEnabled(c, s, a) {
      hide PingInv, Protocol.LoopApply;
      if a.ReadEvent? {
        PingRead(c, s);
      } else if IsWrite(a) {
        PingWrite(c, s, a);
      } else {
        PingOther(c, s, a);
      }
    }
  }
}
