/** The whole invariant, in every state that any schedule can reach. */
module Reachability {
  import opened Messages
  import opened Protocol
  import opened Outbound
  import opened Answers
  import opened Inbound
  import opened TerminalCause
  import opened Pings
  import opened Keepalive

  ghost predicate Inv(c: Config, s: Conn) {
    && OutboundInv(c, s) && WireInv(c, s)
    && IdentityInv(s) && AttemptInv(s) && AnswerInv(s) && PanicInv(s)
    && InboundInv(c, s) && ReadInv(s)
    && TerminalInv(s) && DrainedInv(s)
    && PingInv(s) && HoldInv(c, s)
  }

  lemma InvInit(c: Config, stream: seq<StreamEvent>)
    ensures Inv(c, Init(stream))
  {
  }

  lemma InvStep(c: Config, s: Conn, a: Action)
    requires Inv(c, s)
    ensures Inv(c, Step(c, s, a))
  {
    assert s.rx.held.Some? ==> InLoop(s.phase) && !s.phase.Handling?;
    hide OutboundInv, WireInv, IdentityInv, AttemptInv, AnswerInv, PanicInv, InboundInv, ReadInv;
    hide TerminalInv, DrainedInv, PingInv, HoldInv, Protocol.Step;
    OutboundStep(c, s, a);
    WireStep(c, s, a);
    IdentityStep(c, s, a);
    AttemptStep(c, s, a);
    AnswerStep(c, s, a);
    PanicStep(c, s, a);
    InboundStep(c, s, a);
    ReadStep(c, s, a);
    TerminalStep(c, s, a);
    DrainedStep(c, s, a);
    PingStep(c, s, a);
    HoldStep(c, s, a);
  }

  lemma {:induction false} InvExec(c: Config, s: Conn, acts: seq<Action>)
    requires Inv(c, s)
    ensures Inv(c, Exec(c, s, acts))
  {
    hide Inv, Protocol.Step;
    if |acts| != 0 {
      InvExec(c, s, acts[..|acts| - 1]);
      InvStep(c, Exec(c, s, acts[..|acts| - 1]), acts[|acts| - 1]);
    }
  }

  /** Whatever the network, the handles and the scheduler do, the invariant holds. */
  lemma {:induction false} Reachable(c: Config, stream: seq<StreamEvent>, acts: seq<Action>)
    ensures Inv(c, Exec(c, Init(stream), acts))
  {
    hide Inv;
    InvInit(c, stream);
    InvExec(c, Init(stream), acts);
  }

  // ----- what grows, and what stops

  /** Nothing that happened is ever taken back. */
  ghost predicate Grows(s: Conn, t: Conn) {
    && s.wire <= t.wire
    && s.tx.accepted <= t.tx.accepted
    && s.tx.attempts <= t.tx.attempts
    && s.rx.read <= t.rx.read
    && s.rx.consumed <= t.rx.consumed
    && s.terminal.takes <= t.terminal.takes
    && s.clock.now <= t.clock.now
  }

  /** The loop's own part of the history no longer changes. */
  ghost predicate Frozen(s: Conn, t: Conn) {
    && t.wire == s.wire
    && t.rx.read == s.rx.read
    && t.tx.attempts == s.tx.attempts
    && t.tx.answers == s.tx.answers
    && t.tx.failed == s.tx.failed
    && t.rx.lost == s.rx.lost
    && !InLoop(t.phase) && Outcome(t.phase) == Outcome(s.phase)
  }

  lemma GrowsStep(c: Config, s: Conn, a: Action)
    ensures Grows(s, Step(c, s, a))
  {
    if LoopEnabled(c, s, a) {
      hide Protocol.HandleEnabled;
    } else {
      hide Protocol.LoopEnabled;
    }
  }

  lemma {:induction false} GrowsExec(c: Config, s: Conn, acts: seq<Action>)
    ensures Grows(s, Exec(c, s, acts))
  {
    hide Protocol.Step;
    if |acts| != 0 {
      GrowsExec(c, s, acts[..|acts| - 1]);
      GrowsStep(c, Exec(c, s, acts[..|acts| - 1]), acts[|acts| - 1]);
    }
  }

  lemma FrozenStep(c: Config, s: Conn, a: Action)
    requires !InLoop(s.phase)
    ensures Frozen(s, Step(c, s, a))
  {
    if LoopEnabled(c, s, a) {
      hide Protocol.HandleEnabled;
    } else {
      hide Protocol.LoopEnabled;
    }
  }

  /** Once the loop has left, whatever the handles still do, nothing is written, read or answered. */
  lemma {:induction false} NothingAfterLeaving(c: Config, s: Conn, acts: seq<Action>)
    requires !InLoop(s.phase)
    ensures Frozen(s, Exec(c, s, acts))
  {
    hide Protocol.Step;
    if |acts| != 0 {
      NothingAfterLeaving(c, s, acts[..|acts| - 1]);
      FrozenStep(c, Exec(c, s, acts[..|acts| - 1]), acts[|acts| - 1]);
    }
  }
}
