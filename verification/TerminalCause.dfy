/** The terminal-error slot: written once, before closure can be seen, and taken at most once. */
module TerminalCause {
  import opened Messages
  import opened Protocol

  /** The first look takes the cause and every later one finds nothing. */
  ghost predicate TakenOnce(takes: seq<Taking>, cause: Option<Error>) {
    && takes != []
    && takes[0].cause == cause
    && (forall i :: 1 <= i < |takes| ==> takes[i].cause == None)
  }

  ghost predicate TerminalInv(s: Conn) {
    if InLoop(s.phase) || s.phase.Left? then
      s.terminal == Terminal(None, [])
    else if s.phase.Recorded? then
      s.terminal == Terminal(Cause(s.phase.outcome), [])
    else
      || s.terminal == Terminal(Cause(s.phase.outcome), [])
      || (s.terminal.slot == None && TakenOnce(s.terminal.takes, Cause(s.phase.outcome)))
  }

  /** A receive call looks into the slot only after the last buffered frame is gone. */
  ghost predicate DrainedInv(s: Conn) {
    (exists t :: t in s.terminal.takes && t.taker.ReceiveCall?) ==> s.rx.queue == [] && RxIsClosed(s.phase)
  }

  lemma TerminalLoop(c: Config, s: Conn, a: Action)
    requires TerminalInv(s) && LoopEnabled(c, s, a)
    ensures TerminalInv(LoopApply(c, s, a))
  {
  }

  lemma TerminalHandle(c: Config, s: Conn, a: Action)
    requires TerminalInv(s) && HandleEnabled(c, s, a)
    ensures TerminalInv(HandleApply(c, s, a))
  {
  }

  lemma TerminalStep(c: Config, s: Conn, a: Action)
    requires TerminalInv(s)
    ensures TerminalInv(Step(c, s, a))
  {
    hide TerminalInv, Protocol.LoopApply, Protocol.HandleApply;
    if LoopEnabled(c, s, a) {
      TerminalLoop(c, s, a);
    } else if HandleEnabled(c, s, a) {
      TerminalHandle(c, s, a);
    }
  }

  lemma DrainedLoop(c: Config, s: Conn, a: Action)
    requires DrainedInv(s) && LoopEnabled(c, s, a)
    ensures DrainedInv(LoopApply(c, s, a))
  {
    var t := LoopApply(c, s, a);
    assert t.terminal.takes == s.terminal.takes;
    assert RxIsClosed(s.phase) ==> RxIsClosed(t.phase) && t.rx == s.rx;
  }

  lemma DrainedHandle(c: Config, s: Conn, a: Action)
    requires DrainedInv(s) && HandleEnabled(c, s, a)
    ensures DrainedInv(HandleApply(c, s, a))
  {
  }

  lemma DrainedStep(c: Config, s: Conn, a: Action)
    requires DrainedInv(s)
    ensures DrainedInv(Step(c, s, a))
  {
    hide DrainedInv, Protocol.LoopApply, Protocol.HandleApply;
    if LoopEnabled(c, s, a) {
      DrainedLoop(c, s, a);
    } else if HandleEnabled(c, s, a) {
      DrainedHandle(c, s, a);
    }
  }
}
