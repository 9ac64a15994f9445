/** The two receive views of a handle, `next_message` and `Stream::poll_next`, over the same run. */
module ReceiveViews {
  import opened Messages
  import opened Sequences
  import opened Protocol
  import opened TerminalCause
  import opened Reachability
  import opened ReceiveGuarantees

  type Decoder<V> = Message -> Result<V, Error>

  /** One result of the stream: an item, or the end. */
  type StreamItem<V> = Option<Result<V, Error>>

  /** What `next_message` returns on a closed channel, given what the slot held. */
  function ClosedResult<V>(cause: Option<Error>): Result<V, Error> {
    Err(if cause.Some? then cause.value else WebsocketClosed)
  }

  /** What `poll_next` returns on a closed channel, given what the slot held. */
  function ClosedItem<V>(cause: Option<Error>): StreamItem<V> {
    if cause.Some? then Some(Err(cause.value)) else None
  }

  /** The result that a step of the schedule gives to a consumer that calls `next_message`. */
  function CallOutput<V>(c: Config, decode: Decoder<V>, s: Conn, a: Action): seq<Result<V, Error>> {
    if !HandleEnabled(c, s, a) then []
    else if a.Consume? then [decode(s.rx.queue[0])]
    else if a == Take(ReceiveCall) then [ClosedResult(s.terminal.slot)]
    else []
  }

  /** The same step for a consumer that polls the stream. */
  function PollOutput<V>(c: Config, decode: Decoder<V>, s: Conn, a: Action): seq<StreamItem<V>> {
    if !HandleEnabled(c, s, a) then []
    else if a.Consume? then [Some(decode(s.rx.queue[0]))]
    else if a == Take(ReceiveCall) then [ClosedItem(s.terminal.slot)]
    else []
  }

  function CallOutputs<V>(c: Config, decode: Decoder<V>, s: Conn, acts: seq<Action>): seq<Result<V, Error>> {
    if |acts| == 0 then []
    else
      CallOutputs(c, decode, s, acts[..|acts| - 1])
      + CallOutput(c, decode, Exec(c, s, acts[..|acts| - 1]), acts[|acts| - 1])
  }

  function PollOutputs<V>(c: Config, decode: Decoder<V>, s: Conn, acts: seq<Action>): seq<StreamItem<V>> {
    if |acts| == 0 then []
    else
      PollOutputs(c, decode, s, acts[..|acts| - 1])
      + PollOutput(c, decode, Exec(c, s, acts[..|acts| - 1]), acts[|acts| - 1])
  }

  /** What each look into the slot by a receive found. */
  function SeenByReceive(t: Taking): seq<Option<Error>> {
    if t.taker.ReceiveCall? then [t.cause] else []
  }

  /** The outputs so far are fixed by what was consumed and by what the slot held at each later look. */
  ghost predicate Explained<V>(decode: Decoder<V>, s: Conn, calls: seq<Result<V, Error>>, items: seq<StreamItem<V>>) {
    var frames, causes := s.rx.consumed, Flat(SeenByReceive, s.terminal.takes);
    && |calls| == |items| == |frames| + |causes|
    && (forall i :: 0 <= i < |frames| ==> calls[i] == decode(frames[i]) && items[i] == Some(calls[i]))
    && (forall i :: |frames| <= i < |calls| ==>
          calls[i] == ClosedResult(causes[i - |frames|]) && items[i] == ClosedItem(causes[i - |frames|]))
    && (causes != [] ==> exists t :: t in s.terminal.takes && t.taker.ReceiveCall?)
  }

  lemma ExplainedStep<V>(c: Config, decode: Decoder<V>, s: Conn, a: Action, calls: seq<Result<V, Error>>,
      items: seq<StreamItem<V>>)
    requires DrainedInv(s) && Explained(decode, s, calls, items)
    ensures Explained(decode, Step(c, s, a), calls + CallOutput(c, decode, s, a), items + PollOutput(c, decode, s, a))
  {
    hide Sequences.Flat;
    if LoopEnabled(c, s, a) {
      LoopKeepsViews(c, s, a);
      assert calls + CallOutput(c, decode, s, a) == calls && items + PollOutput(c, decode, s, a) == items;
    } else if HandleEnabled(c, s, a) {
      hide Protocol.LoopEnabled;
      if a.Consume? {
        FlatNothingSeen(s);
      } else if a.Take? {
        hide Explained;
        ExplainedTake(c, decode, s, a.taker, calls, items);
      }
    }
  }

  /** While something can still be consumed, no receive has looked into the slot. */
  lemma FlatNothingSeen(s: Conn)
    requires DrainedInv(s) && s.rx.queue != []
    ensures Flat(SeenByReceive, s.terminal.takes) == []
  {
    hide Sequences.Flat;
    forall t | t in s.terminal.takes
      ensures SeenByReceive(t) == []
    {
    }
    FlatNothing(SeenByReceive, s.terminal.takes);
  }

  lemma ExplainedTake<V>(c: Config, decode: Decoder<V>, s: Conn, taker: Taker, calls: seq<Result<V, Error>>,
      items: seq<StreamItem<V>>)
    requires Explained(decode, s, calls, items) && HandleEnabled(c, s, Take(taker))
    ensures Explained(decode, Step(c, s, Take(taker)),
                      calls + CallOutput(c, decode, s, Take(taker)), items + PollOutput(c, decode, s, Take(taker)))
  {
    hide Sequences.Flat;
    var t := Step(c, s, Take(taker));
    FlatAppend(SeenByReceive, s.terminal.takes, Taking(taker, s.terminal.slot));
    SawClosure(s, t, taker);
    assert t.rx.consumed == s.rx.consumed;
  }

  lemma LoopKeepsViews(c: Config, s: Conn, a: Action)
    requires LoopEnabled(c, s, a)
    ensures var t := Step(c, s, a); t.rx.consumed == s.rx.consumed && t.terminal.takes == s.terminal.takes
    ensures !a.Consume? && !a.Take?
  {
  }

  lemma SawClosure(s: Conn, t: Conn, taker: Taker)
    requires t.terminal.takes == s.terminal.takes + [Taking(taker, s.terminal.slot)]
    ensures forall x :: x in s.terminal.takes ==> x in t.terminal.takes
    ensures Taking(taker, s.terminal.slot) in t.terminal.takes
  {
  }

  lemma {:induction false} OutputsExplained<V>(c: Config, decode: Decoder<V>, stream: seq<StreamEvent>,
      acts: seq<Action>)
    ensures Explained(decode, Exec(c, Init(stream), acts),
                      CallOutputs(c, decode, Init(stream), acts), PollOutputs(c, decode, Init(stream), acts))
  {
    if |acts| == 0 {
      assert Flat(SeenByReceive, Init(stream).terminal.takes) == [];
    } else {
      hide Explained, Protocol.Step, Inv;
      var front, last := acts[..|acts| - 1], acts[|acts| - 1];
      OutputsExplained(c, decode, stream, front);
      Reachable(c, stream, front);
      DrainedOf(c, Exec(c, Init(stream), front));
      ExplainedStep(c, decode, Exec(c, Init(stream), front), last, CallOutputs(c, decode, Init(stream), front),
          PollOutputs(c, decode, Init(stream), front));
    }
  }

  lemma DrainedOf(c: Config, s: Conn)
    requires Inv(c, s)
    ensures DrainedInv(s) && TerminalInv(s)
  {
  }

  /** Of several looks into the slot only the first can have found anything. */
  lemma {:induction false} OnlyFirstSeen(takes: seq<Taking>)
    requires forall i :: 1 <= i < |takes| ==> takes[i].cause == None
    ensures var causes := Flat(SeenByReceive, takes);
            && (forall j :: 1 <= j < |causes| ==> causes[j] == None)
            && (causes != [] && causes[0].Some? ==> takes != [] && takes[0] == Taking(ReceiveCall, causes[0]))
            && (takes != [] && takes[0].taker.ReceiveCall? ==> causes != [] && causes[0] == takes[0].cause)
            && |causes| <= |takes|
  {
    if |takes| != 0 {
      OnlyFirstSeen(takes[..|takes| - 1]);
    }
  }

  /**
   The two views agree. On one and the same run, whatever the codec rejects, both give the decoded
   frames in order, one result per frame consumed; then, once, the loop's recorded cause, if the
   receive was the first operation to look for it; and from then on the stream has ended exactly
   where `next_message` keeps returning WebsocketClosed.
   */
  lemma ViewsAgree<V>(c: Config, decode: Decoder<V>, stream: seq<StreamEvent>, acts: seq<Action>)
    ensures var s := Exec(c, Init(stream), acts);
            var calls, items := CallOutputs(c, decode, Init(stream), acts), PollOutputs(c, decode, Init(stream), acts);
            var n := |s.rx.consumed|;
            && |calls| == |items| >= n
            && (forall i :: 0 <= i < n ==> calls[i] == decode(s.rx.consumed[i]) && items[i] == Some(calls[i]))
            && (|calls| > n ==> s.terminal.takes != [])
            && (|calls| > n && s.terminal.takes[0].taker.ReceiveCall? && Outcome(s.phase).Errored? ==>
                  calls[n] == Err(Outcome(s.phase).error) && items[n] == Some(calls[n]))
            && (|calls| > n && !(s.terminal.takes[0].taker.ReceiveCall? && Outcome(s.phase).Errored?) ==>
                  calls[n] == Err(WebsocketClosed) && items[n] == None)
            && (forall i :: n < i < |calls| ==> calls[i] == Err(WebsocketClosed) && items[i] == None)
  {
    hide Protocol.Exec, CallOutputs, PollOutputs, Inv, Sequences.Flat;
    var s := Exec(c, Init(stream), acts);
    OutputsExplained(c, decode, stream, acts);
    Reachable(c, stream, acts);
    DrainedOf(c, s);
    CauseShape(s);
    OnlyFirstSeen(s.terminal.takes);
  }
}
