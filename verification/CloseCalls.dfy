/**
 `close_connection` as the future that it is: each poll takes it at most from one await to the next,
 and in between anything else may happen.
 */
module CloseCalls {
  import opened Messages
  import opened Protocol
  import opened Answers
  import opened TerminalCause
  import opened Reachability
  import opened SendGuarantees
  import opened CloseVerdict

  /** Where a call of `close_connection` stands. */
  datatype CloseCall =
    | Requesting                                           // awaiting a place in the queue
    | AwaitingAnswer(id: nat)                              // awaiting the one-shot
    | Joining(request: Request, sent: SendResult)          // awaiting the loop's task
    | Returned(request: Request, result: SendResult)
    | CallerPanicked(id: nat)                              // met the `unreachable!` arm

  /** One poll: where the call stands next, and the step it makes on what is shared, if any. */
  function PollCall(c: Config, s: Conn, call: CloseCall): (CloseCall, Option<Action>) {
    match call
    case Requesting =>
      if TxIsClosed(s.phase) then (Joining(None, Err(WebsocketClosed)), None)
      else if HandleEnabled(c, s, Enqueue(CLOSE_REQUEST, true)) then
        (AwaitingAnswer(|s.tx.accepted|), Some(Enqueue(CLOSE_REQUEST, true)))
      else (call, None)
    case AwaitingAnswer(id) =>
      if id in s.tx.answers then (Joining(Some(id), s.tx.answers[id]), Some(Resolve(id)))
      else if HoldsOneShot(s, id) then (call, None)
      else (CallerPanicked(id), Some(Resolve(id)))
    case Joining(request, sent) =>
      if !s.phase.Finished? then (call, None)
      else
        (Returned(request, if s.terminal.slot.Some? then Err(s.terminal.slot.value) else sent),
         Some(Take(CloseConnectionCall)))
    case _ => (call, None)
  }

  function AfterPoll(c: Config, s: Conn, call: CloseCall): Conn {
    match PollCall(c, s, call).1
    case None => s
    case Some(a) => Step(c, s, a)
  }

  datatype Move = Poll | Other(action: Action)

  /** Only the call itself awaits its one-shot, and only it joins the loop's task. */
  predicate Owned(call: CloseCall, a: Action) {
    || a == Take(CloseConnectionCall)
    || (call.AwaitingAnswer? && (a == Resolve(call.id) || a == Cancel(call.id)))
  }

  datatype Session = Session(conn: Conn, call: CloseCall)

  function MoveSession(c: Config, v: Session, move: Move): Session {
    match move
    case Poll => Session(AfterPoll(c, v.conn, v.call), PollCall(c, v.conn, v.call).0)
    case Other(a) => if Owned(v.call, a) then v else v.(conn := Step(c, v.conn, a))
  }

  /** The connection and one call of `close_connection`, after any interleaving of the two. */
  function RunSession(c: Config, stream: seq<StreamEvent>, moves: seq<Move>): Session {
    if |moves| == 0 then Session(Init(stream), Requesting)
    else MoveSession(c, RunSession(c, stream, moves[..|moves| - 1]), moves[|moves| - 1])
  }

  // ----- what a call knows

  predicate IsCloseRequest(s: Conn, id: nat) {
    id < |s.tx.accepted| && s.tx.accepted[id] == Payload(id, CLOSE_REQUEST, true)
  }

  /** Look number k into the slot is this call's, and no other is. */
  ghost predicate OnlyLook(takes: seq<Taking>, k: nat) {
    && k < |takes| && takes[k].taker.CloseConnectionCall?
    && forall j :: 0 <= j < |takes| && j != k ==> !takes[j].taker.CloseConnectionCall?
  }

  ghost predicate NotLooked(takes: seq<Taking>) {
    forall j :: 0 <= j < |takes| ==> !takes[j].taker.CloseConnectionCall?
  }

  /** `send_close` returned this. */
  ghost predicate SentBy(s: Conn, request: Request, sent: SendResult) {
    && CloseSent(s, request) == Some(sent)
    && (if request.Some? then IsCloseRequest(s, request.value) else s.phase.Finished?)
  }

  ghost predicate ReturnedBy(s: Conn, request: Request, result: SendResult) {
    && s.phase.Finished? && CloseSent(s, request).Some? && SentBy(s, request, CloseSent(s, request).value)
    && exists k: nat :: OnlyLook(s.terminal.takes, k)
                && result == if s.terminal.takes[k].cause.Some? then Err(s.terminal.takes[k].cause.value)
                             else CloseSent(s, request).value
  }

  ghost predicate CallInv(s: Conn, call: CloseCall) {
    && (!call.Returned? ==> NotLooked(s.terminal.takes))
    && match call
       case Requesting => true
       case AwaitingAnswer(id) => IsCloseRequest(s, id) && id in s.tx.waiting
       case Joining(request, sent) => SentBy(s, request, sent)
       case Returned(request, result) => ReturnedBy(s, request, result)
       case CallerPanicked(id) => IsCloseRequest(s, id) && s.phase.Finished? && s.tx.accepted[id] in s.tx.discarded
  }

  /** What every step but the call's own leaves in place. */
  ghost predicate Kept(s: Conn, t: Conn) {
    && s.tx.accepted <= t.tx.accepted
    && (forall id :: id in s.tx.answers ==> id in t.tx.answers && t.tx.answers[id] == s.tx.answers[id])
    && (s.phase.Finished? ==> t.phase == s.phase && t.tx.discarded == s.tx.discarded)
  }

  lemma StepKeeps(c: Config, s: Conn, a: Action)
    requires Inv(c, s)
    ensures Kept(s, Step(c, s, a))
  {
    hide Inv, Protocol.Step;
    GrowsStep(c, s, a);
    forall id | id in s.tx.answers
      ensures id in Step(c, s, a).tx.answers && Step(c, s, a).tx.answers[id] == s.tx.answers[id]
    {
      AnswerStays(c, s, a, id);
    }
    FinishedStays(c, s, a);
  }

  lemma FinishedStays(c: Config, s: Conn, a: Action)
    ensures s.phase.Finished? ==> Step(c, s, a).phase == s.phase && Step(c, s, a).tx.discarded == s.tx.discarded
  {
    if s.phase.Finished? {
      assert !LoopEnabled(c, s, a);
    }
  }

  lemma OtherLooks(c: Config, s: Conn, a: Action)
    requires a != Take(CloseConnectionCall)
    ensures var t := Step(c, s, a).terminal.takes;
            t == s.terminal.takes
            || exists x: Taking :: !x.taker.CloseConnectionCall? && t == s.terminal.takes + [x]
  {
    if LoopEnabled(c, s, a) {
      hide Protocol.HandleEnabled;
    } else if a.Take? && HandleEnabled(c, s, a) {
      assert Step(c, s, a).terminal.takes == s.terminal.takes + [Taking(a.taker, s.terminal.slot)];
    }
  }

  lemma WaitsOn(c: Config, s: Conn, a: Action, id: nat)
    requires id in s.tx.waiting && a != Resolve(id) && a != Cancel(id)
    ensures id in Step(c, s, a).tx.waiting
  {
    if LoopEnabled(c, s, a) {
      hide Protocol.HandleEnabled;
    } else {
      hide Protocol.LoopEnabled;
    }
  }

  lemma LooksExtend(takes: seq<Taking>, more: seq<Taking>, k: nat, x: Taking)
    requires more == takes || (!x.taker.CloseConnectionCall? && more == takes + [x])
    ensures NotLooked(takes) ==> NotLooked(more)
    ensures OnlyLook(takes, k) ==> OnlyLook(more, k) && more[k] == takes[k]
  {
  }

  lemma ReturnedStays(s: Conn, t: Conn, request: Request, result: SendResult, x: Taking)
    requires ReturnedBy(s, request, result) && Kept(s, t)
    requires t.terminal.takes == s.terminal.takes
             || (!x.taker.CloseConnectionCall? && t.terminal.takes == s.terminal.takes + [x])
    ensures ReturnedBy(t, request, result)
  {
    var k: nat :| OnlyLook(s.terminal.takes, k)
             && result == if s.terminal.takes[k].cause.Some? then Err(s.terminal.takes[k].cause.value)
                          else CloseSent(s, request).value;
    LooksExtend(s.terminal.takes, t.terminal.takes, k, x);
  }

  /** Whatever else happens, the call still knows what it knew. */
  lemma OtherKeepsCall(c: Config, s: Conn, call: CloseCall, a: Action)
    requires Inv(c, s) && CallInv(s, call) && !Owned(call, a)
    ensures CallInv(Step(c, s, a), call)
  {
    hide Inv, Protocol.Step, ReturnedBy, OnlyLook, NotLooked;
    var t := Step(c, s, a);
    StepKeeps(c, s, a);
    OtherLooks(c, s, a);
    var x: Taking :| t.terminal.takes == s.terminal.takes
                     || (!x.taker.CloseConnectionCall? && t.terminal.takes == s.terminal.takes + [x]);
    LooksExtend(s.terminal.takes, t.terminal.takes, 0, x);
    match call
    case AwaitingAnswer(id) => WaitsOn(c, s, a, id);
    case Returned(request, result) => ReturnedStays(s, t, request, result, x);
    case _ =>
  }

  lemma PollKeepsCall(c: Config, s: Conn, call: CloseCall)
    requires Inv(c, s) && CallInv(s, call)
    ensures CallInv(AfterPoll(c, s, call), PollCall(c, s, call).0)
  {
    hide Inv, Protocol.Step;
    match call
    case Requesting => PollRequest(c, s);
    case AwaitingAnswer(id) => PollAnswered(c, s, id);
    case Joining(request, sent) =>
      if s.phase.Finished? {
        PollJoined(c, s, request, sent);
      }
    case _ =>
  }

  lemma PollRequest(c: Config, s: Conn)
    requires NotLooked(s.terminal.takes)
    ensures CallInv(AfterPoll(c, s, Requesting), PollCall(c, s, Requesting).0)
  {
    if !TxIsClosed(s.phase) && HandleEnabled(c, s, Enqueue(CLOSE_REQUEST, true)) {
      CloseAccepted(c, s);
    }
  }

  lemma PollAnswered(c: Config, s: Conn, id: nat)
    requires Inv(c, s) && CallInv(s, AwaitingAnswer(id))
    ensures CallInv(AfterPoll(c, s, AwaitingAnswer(id)), PollCall(c, s, AwaitingAnswer(id)).0)
  {
    hide Inv, Protocol.Step, NotLooked;
    if id in s.tx.answers || !HoldsOneShot(s, id) {
      ResolveTakes(c, s, id);
      if id !in s.tx.answers {
        PanicIsLate(c, s, id);
      }
    }
  }

  lemma ResolveTakes(c: Config, s: Conn, id: nat)
    requires id in s.tx.waiting && (id in s.tx.answers || !HoldsOneShot(s, id))
    ensures var t := Step(c, s, Resolve(id));
            && t.tx.answers == s.tx.answers && t.tx.accepted == s.tx.accepted && t.tx.discarded == s.tx.discarded
            && t.terminal == s.terminal && t.phase == s.phase
  {
  }

  lemma PanicIsLate(c: Config, s: Conn, id: nat)
    requires Inv(c, s) && id in s.tx.waiting && OneShotDropped(s, id) && id < |s.tx.accepted|
    ensures s.tx.accepted[id] in s.tx.discarded && s.phase.Finished?
  {
    hide Sequences.Flat;
    DroppedIsDiscarded(c, s, id);
  }

  lemma PollJoined(c: Config, s: Conn, request: Request, sent: SendResult)
    requires s.phase.Finished? && CallInv(s, Joining(request, sent))
    ensures CallInv(AfterPoll(c, s, Joining(request, sent)), PollCall(c, s, Joining(request, sent)).0)
  {
    var t := AfterPoll(c, s, Joining(request, sent));
    assert t.terminal.takes == s.terminal.takes + [Taking(CloseConnectionCall, s.terminal.slot)];
    assert t.tx == s.tx && t.phase == s.phase;
    assert OnlyLook(t.terminal.takes, |s.terminal.takes|);
  }

  lemma {:induction false} SessionReachable(c: Config, stream: seq<StreamEvent>, moves: seq<Move>)
    ensures var v := RunSession(c, stream, moves); Inv(c, v.conn) && CallInv(v.conn, v.call)
  {
    hide Inv, CallInv, Protocol.Step, PollCall;
    if |moves| == 0 {
      InvInit(c, stream);
      assert CallInv(Init(stream), Requesting) by { NothingKnown(stream); }
    } else {
      var v, move := RunSession(c, stream, moves[..|moves| - 1]), moves[|moves| - 1];
      SessionReachable(c, stream, moves[..|moves| - 1]);
      match move
      case Poll =>
        PollKeepsCall(c, v.conn, v.call);
        if PollCall(c, v.conn, v.call).1.Some? {
          InvStep(c, v.conn, PollCall(c, v.conn, v.call).1.value);
        }
      case Other(a) =>
        if !Owned(v.call, a) {
          OtherKeepsCall(c, v.conn, v.call, a);
          InvStep(c, v.conn, a);
        }
    }
  }

  lemma NothingKnown(stream: seq<StreamEvent>)
    ensures CallInv(Init(stream), Requesting)
  {
  }

  // ----- the verdict of a call

  /** Some other operation looked into the slot before the call did. */
  predicate LookedBefore(s: Conn) {
    s.terminal.takes != [] && !s.terminal.takes[0].taker.CloseConnectionCall?
  }

  /**
   A call that has returned, after any interleaving: it returns Ok if and only if its Close frame is
   on the wire and the loop ended by the peer's Close or some other operation had looked into the
   slot before. If none had, an error that ended the loop is what it returns. A call panics only
   over a request that was still queued when the loop was gone.
   */
  lemma CloseCallVerdict(c: Config, stream: seq<StreamEvent>, moves: seq<Move>)
    ensures var v := RunSession(c, stream, moves);
            match v.call
            case Returned(request, result) =>
              && v.conn.phase.Finished?
              && (result.Ok? <==>
                    CloseWritten(v.conn, request) && (Outcome(v.conn.phase) == Closed || LookedBefore(v.conn)))
              && (result.Ok? ==>
                    exists i :: 0 <= i < |v.conn.wire| && v.conn.wire[i].origin.User?
                                && request == Some(v.conn.wire[i].origin.payload.id)
                                && v.conn.wire[i].message == Close(Some(CloseFrame(1000, "Closing Connection"))))
              && (Outcome(v.conn.phase).Errored? && !LookedBefore(v.conn) ==>
                    result == Err(Outcome(v.conn.phase).error))
            case CallerPanicked(id) =>
              id < |v.conn.tx.accepted| && v.conn.phase.Finished? && v.conn.tx.accepted[id] in v.conn.tx.discarded
            case _ => true
  {
    hide Sequences.Flat, Inv, RunSession, LookedBefore, Outcome, CloseWritten, ReturnedBy;
    var v := RunSession(c, stream, moves);
    SessionReachable(c, stream, moves);
    if v.call.Returned? {
      ReturnedVerdict(c, v.conn, v.call.request, v.call.result);
      if v.call.result.Ok? {
        WrittenIsRequest(v.conn, v.call.request, v.call.result);
        var i := CloseFrameOnWire(c, v.conn, v.call.request.value);
      }
    }
  }

  lemma WrittenIsRequest(s: Conn, request: Request, result: SendResult)
    requires ReturnedBy(s, request, result) && CloseWritten(s, request)
    ensures request.Some? && IsCloseRequest(s, request.value)
  {
  }

  lemma ReturnedVerdict(c: Config, s: Conn, request: Request, result: SendResult)
    requires Inv(c, s) && ReturnedBy(s, request, result)
    ensures s.phase.Finished?
    ensures result.Ok? <==> CloseWritten(s, request) && (Outcome(s.phase) == Closed || LookedBefore(s))
    ensures Outcome(s.phase).Errored? && !LookedBefore(s) ==> result == Err(Outcome(s.phase).error)
  {
    hide Sequences.Flat, Inv;
    var k: nat :| OnlyLook(s.terminal.takes, k)
             && result == if s.terminal.takes[k].cause.Some? then Err(s.terminal.takes[k].cause.value)
                          else CloseSent(s, request).value;
    CausesOf(c, s);
    if request.Some? {
      AnswerIsOwnResult(c, s, request.value);
    }
  }

  lemma CausesOf(c: Config, s: Conn)
    requires Inv(c, s) && s.phase.Finished? && s.terminal.takes != []
    ensures TakenOnce(s.terminal.takes, Cause(s.phase.outcome)) && !s.phase.outcome.Running?
  {
    hide Sequences.Flat;
  }

  /** The poll that returns gives `close_connection`'s result in the state it looks at. */
  lemma CloseCallReturns(c: Config, stream: seq<StreamEvent>, moves: seq<Move>)
    requires var v := RunSession(c, stream, moves); v.call.Joining? && v.conn.phase.Finished?
    ensures var v, w := RunSession(c, stream, moves), RunSession(c, stream, moves + [Poll]);
            && w.call.Returned? && w.call.request == v.call.request
            && CloseConnectionResult(v.conn, v.call.request) == Some(w.call.result)
  {
    hide Inv, Protocol.Step;
    SessionReachable(c, stream, moves);
    assert (moves + [Poll])[..|moves|] == moves;
  }

  /** The handle is alone from its first poll that made the request: nobody else looks from then on. */
  ghost predicate Alone(c: Config, stream: seq<StreamEvent>, moves: seq<Move>) {
    forall n :: 0 <= n < |moves| && moves[n].Other? && moves[n].action.Take? ==>
      RunSession(c, stream, moves[..n]).call.Requesting?
  }

  /** Looks from before the request mean that it came too late to be written. */
  ghost predicate LateInv(s: Conn, call: CloseCall) {
    s.terminal.takes == [] ||
    match call
    case Requesting => true
    case AwaitingAnswer(id) => !InLoop(s.phase) && id !in s.tx.answers
    case Joining(request, _) => request.None?
    case Returned(request, _) => request.None? || s.terminal.takes[0].taker.CloseConnectionCall?
    case CallerPanicked(_) => true
  }

  lemma LateOther(c: Config, s: Conn, call: CloseCall, a: Action)
    requires LateInv(s, call) && (a.Take? ==> call.Requesting?)
    ensures LateInv(Step(c, s, a), call)
  {
    if LoopEnabled(c, s, a) {
      hide Protocol.HandleEnabled;
    } else {
      hide Protocol.LoopEnabled;
    }
  }

  lemma LatePoll(c: Config, s: Conn, call: CloseCall)
    requires Inv(c, s) && CallInv(s, call) && LateInv(s, call)
    ensures LateInv(AfterPoll(c, s, call), PollCall(c, s, call).0)
  {
    hide Inv;
    if call.Requesting? {
      LateRequest(c, s);
    }
  }

  /** A request accepted after somebody has looked finds no loop, and its one-shot has no value. */
  lemma LateRequest(c: Config, s: Conn)
    requires Inv(c, s)
    ensures s.terminal.takes != [] ==> !InLoop(s.phase)
    ensures |s.tx.accepted| !in s.tx.answers
  {
    hide Sequences.Flat;
    if |s.tx.accepted| in s.tx.answers {
      AnswerIsOwnResult(c, s, |s.tx.accepted|);
    }
  }

  lemma {:induction false} LateReachable(c: Config, stream: seq<StreamEvent>, moves: seq<Move>)
    requires Alone(c, stream, moves)
    ensures var v := RunSession(c, stream, moves); LateInv(v.conn, v.call)
  {
    hide Inv, CallInv, LateInv, Protocol.Step, PollCall;
    if |moves| == 0 {
      assert LateInv(Init(stream), Requesting) by { NothingLate(stream); }
    } else {
      var front := moves[..|moves| - 1];
      var v, move := RunSession(c, stream, front), moves[|moves| - 1];
      forall n | 0 <= n < |front| && front[n].Other? && front[n].action.Take?
        ensures RunSession(c, stream, front[..n]).call.Requesting?
      {
        assert front[..n] == moves[..n] && front[n] == moves[n];
      }
      LateReachable(c, stream, front);
      SessionReachable(c, stream, front);
      match move
      case Poll => LatePoll(c, v.conn, v.call);
      case Other(a) => LateOther(c, v.conn, v.call, a);
    }
  }

  lemma NothingLate(stream: seq<StreamEvent>)
    ensures LateInv(Init(stream), Requesting)
  {
  }

  /**
   A lone handle's call, after any interleaving with the loop, the network and the clock, whatever
   the handle did before it closed: Ok if and only if its Close frame was written and the loop ended
   by the peer's Close.
   */
  lemma LoneCloseCallVerdict(c: Config, stream: seq<StreamEvent>, moves: seq<Move>)
    requires Alone(c, stream, moves) && RunSession(c, stream, moves).call.Returned?
    ensures var v := RunSession(c, stream, moves);
            v.call.result.Ok? <==> CloseWritten(v.conn, v.call.request) && Outcome(v.conn.phase) == Closed
  {
    hide Sequences.Flat, Inv, CallInv, RunSession, Alone;
    LateReachable(c, stream, moves);
    CloseCallVerdict(c, stream, moves);
  }
}
