# socketeer: a verified model of the connection protocol

`socketeer` is an asynchronous WebSocket client. A background task owns the socket; handles talk to
it only through two bounded channels, one-shot answers and a shared slot for the error that ended
the task. This project models that protocol and proves what it promises over every interleaving:
no frame lost, order kept, memory bounded, every written send answered, the terminal cause handed
out once.

The model has two layers.

**The state machine** (`Protocol.dfy`). A `Conn` is the loop's phase, the two channels, the
one-shots, the terminal slot and the clock, together with the history of what happened. An `Action`
is one step of the loop, of a handle, of the network or of the clock; it carries the choices of its
environment, such as the arm of a select that wins and the result of a write. A disabled action
changes nothing, so any sequence of actions is a schedule and `Exec(c, Init(stream), acts)` ranges
over exactly the reachable states. Every theorem below is for all configurations, all server sequences
and all schedules; a row names every further hypothesis of its member. Steps that the loop makes
without an await (a dequeue, a write's return, an answer, the record of the cause, the drop of each
channel end) are separate actions, because other threads can run between them.

**The code** (`SocketLoop.dfy`, `Handshake.dfy`, `EchoServer.dfy`, `Connect.dfy`). Classes whose
methods follow the source function by function, branch by branch. An async function is cut at its
awaits; what other tasks do at such a point comes from a script, as does the winner of a select.
`Connection.Valid` ties the fields to the state that the logged steps lead to, and every method only
adds to the log, so the methods make only steps of the state machine and everything proved about
reachable states holds of them. The loop's methods compute the functions of `Turns.dfy`.

| file | content |
|---|---|
| `Sequences.dfy`, `Messages.dfy` | projections of traces; frames, errors, stream events |
| `Protocol.dfy` | the state machine |
| `Outbound.dfy`, `Answers.dfy`, `Inbound.dfy`, `TerminalCause.dfy`, `Pings.dfy`, `Keepalive.dfy` | the parts of the invariant, each with its step lemmas |
| `Reachability.dfy` | the whole invariant in every reachable state; what grows and what freezes |
| `SendGuarantees.dfy`, `FailedWrites.dfy` | the theorems for senders |
| `CloseVerdict.dfy`, `CloseCalls.dfy` | `close_connection`: its result, and the call itself as a future among other tasks |
| `ReceiveGuarantees.dfy`, `ReceiveViews.dfy` | the theorems for the consumer |
| `Turns.dfy` | the loop's turns and its exit as functions of the state, and what each amounts to |
| `SocketLoop.dfy` | the socket loop and the handle operations as code, computing those functions |
| `Handshake.dfy`, `Connect.dfy` | the handshake context and the hand-off to the loop |
| `Halves.dfy` | split, clone, reunite and reconnect |
| `EchoServer.dfy`, `EchoSystem.dfy`, `EchoClose.dfy` | the mock echo server, the client composed with it, and a graceful end of both |

## Where the code and its words differ

The model follows the code.

- The two `unreachable!` arms (src/socket_loop.rs:87 and :123) say that the loop always answers. It
  answers every payload it dequeues; a payload still queued when the loop's receiving end is dropped
  is not answered, and its caller panics. `SendGuarantees.UnreachableIsReached` gives such a run and
  `SendGuarantees.UnreachableExactly` says exactly when it happens.
- `reunite` is documented to reject halves of another split (src/split.rs:149-151). It compares the
  terminal slot's address, so it accepts any half of the same connection:
  `Halves.EarlierCloneStillMatches` and, exactly, `Halves.ReuniteExactly`.
- `close_connection` prefers the recorded cause over the answer to its Close frame. With another
  clone alive that cause may already be gone, and a close that ended in an error reports Ok:
  `CloseVerdict.SharedCloseHidesCause` and, exactly, `CloseVerdict.SharedCloseVerdict`.
- A fire-and-forget send is documented to surface a later socket failure through the terminal error
  (src/socket_loop.rs:91-93, src/split.rs:67-70). It never does with its own error: the recorded
  cause of a failed user write is `WebsocketClosed`, or `SocketeerDroppedWithoutClosing` if its caller had gone, and the error
  itself is dropped unless a confirmed caller still waits for it (src/socket_loop.rs:235-245).
  `FailedWrites.FailedSendIsSwallowed` gives such a run for every frame and error;
  `FailedWrites.FailedWriteCause` and `FailedWrites.FailedWriteReaches` say exactly which cause is
  recorded and who is told.
- A confirmed send that is cancelled before its answer ends a live connection, even if its write
  succeeds, and the recorded cause says that the handle was dropped although a sender and the receiver
  are still there: `FailedWrites.CancelledSendEndsConnection` and, exactly,
  `FailedWrites.DroppedExactly`.
- `reconnect` is documented not to fail on a connection that is already closed (src/lib.rs:274-276). It
  awaits all of `send_close` (src/lib.rs:292), so a request that is still queued when the loop's
  receiving end drops panics inside it: `SendGuarantees.UnreachableIsReached` with the close frame, and
  `CloseCalls.CloseCallVerdict` for when.
- The loop's own Pong carries a constant body, not the Ping's payload that section 5.5.3 of
  RFC 6455 asks for; only the number and the order of Pongs are claimed.

## Assumptions about the environment

A channel is a FIFO that holds at most CHANNEL_SIZE elements and drains before it reports closure; a
one-shot is one cell; `select!` picks any ready arm and drops the others without effect; a due timer
is noticed before more time passes; the loop's parameters drop in reverse order of declaration.
`sink.close()` counts as one write of a Close frame. Nothing is assumed about what the network
delivers, when writes fail, or how long they take. Stream events and write results are parameters.

## Model

| member | source | states |
|---|---|---|
| `Reachability.Reachable` | src/socket_loop.rs:176-223 | In every state of every schedule the conjunction of all invariants holds: both conservation equations, answer accounting, the life of the terminal slot, ping accounting and the hold's clock |
| `Reachability.NothingAfterLeaving` | src/socket_loop.rs:177-210 | Once the loop has left Running, no schedule makes it write, read, answer or lose anything more, and its outcome stays |
| `Reachability.GrowsExec` | src/socket_loop.rs:176-223 | Writes, acceptances, answers, reads and consumed frames are never taken back |
| `Outbound.OutboundStep` | src/socket_loop.rs:227-251 | Every step keeps: accepted payloads = written ++ failed (at most one) ++ being written ++ queued ++ discarded, in order |
| `Outbound.WireStep` | src/socket_loop.rs:234-270 | Every frame on the wire is the one its origin calls for |
| `Answers.AttemptStep` | src/socket_loop.rs:234-240 | Every step keeps: the uses of one-shots, plus the one owed, are the results of the confirmed writes, one each, in order |
| `Answers.AnswerStep` | src/socket_loop.rs:236-240 | Every step keeps: a value in a one-shot was put there by the loop while the caller waited |
| `Answers.DroppedIsDiscarded` | src/socket_loop.rs:85-88 | A waiting caller whose one-shot is dropped without a value had its payload discarded with the queue |
| `Answers.DiscardedIsDropped` | src/socket_loop.rs:85-88 | The converse |
| `Inbound.InboundStep` | src/socket_loop.rs:181-191 | Every step keeps: data frames read = consumed ++ queued ++ abandoned ++ held ++ being offered ++ lost, in order |
| `Inbound.ReadStep` | src/socket_loop.rs:264-303 | Every step keeps: only the last event read can end the loop, and Closed follows a Close |
| `TerminalCause.TerminalStep` | src/socket_loop.rs:211-223 | Every step keeps: nobody looks into the slot before the cause is in it, and only the first look finds it |
| `Pings.PingStep` | src/socket_loop.rs:266-279 | Every step keeps: Pongs match Pings one for one, by the position in the read trace at which each was written |
| `Keepalive.HoldStep` | src/socket_loop.rs:332-350 | Every step keeps the accounting of time in a hold against successful writes and time spent writing |
| `SendGuarantees.WireFollowsAcceptance` | src/socket_loop.rs:227-251 | With any number of clones the user frames on the wire are a prefix of the acceptance order; the remainder is accounted for in the select and at the end |
| `SendGuarantees.ConfirmedBeforeBegun` | src/socket_loop.rs:72-89 | A confirmed send that returned Ok is on the wire before anything accepted afterwards on any clone |
| `SendGuarantees.AnswerIsOwnResult` | src/socket_loop.rs:234-240 | An answer is Ok if and only if that payload is on the wire; an error answer carries that write's own error |
| `SendGuarantees.EveryWriteAnsweredOnce` | src/socket_loop.rs:231-245 | Each confirmed payload whose write returned has exactly one answer attempt, and none is owed outside the answering step |
| `SendGuarantees.UnreachableExactly` | src/socket_loop.rs:85-88 | A waiting caller reaches the `unreachable!` arm if and only if its payload was still queued when the loop dropped its receiving end |
| `SendGuarantees.UnreachableIsReached` | src/socket_loop.rs:87 | A concrete run, for every capacity above zero, in which that arm is reached |
| `SendGuarantees.LateSendIsNeverAnswered` | src/socket_loop.rs:211-223 | A payload accepted after the loop has left is never written and never answered |
| `SendGuarantees.SenderDropFlushes` | src/socket_loop.rs:246-250 | If the loop ends because no sender is left, everything accepted was written in order and the cause is SocketeerDroppedWithoutClosing |
| `SendGuarantees.CloseFlushes` | src/split.rs:86-92 | An Ok answer to a close implies that everything accepted before it, fire-and-forget included, is on the wire before it |
| `FailedWrites.FailedWriteCause` | src/socket_loop.rs:235-245 | In every run that a failed user write ended: the cause is SocketeerDroppedWithoutClosing if and only if the send was confirmed and not answered, else WebsocketClosed; the error is in its own caller's one-shot or nowhere, never in the slot |
| `FailedWrites.FailedWriteReaches` | src/socket_loop.rs:236-245 | When the answer to a failed write is due, its error reaches a caller if and only if the send was confirmed and its caller waits at that moment, and nobody else ever |
| `FailedWrites.DroppedExactly` | src/socket_loop.rs:236-250 | With a sender and the receiver alive, a loop that has left recorded SocketeerDroppedWithoutClosing if and only if its last answer found its caller gone |
| `FailedWrites.UnheardEndsTheLoop` | src/socket_loop.rs:236-240 | Every answer attempted before the last was heard, and an unheard one ends the loop |
| `FailedWrites.CauseStep` | src/socket_loop.rs:227-251 | Every step keeps the accounting of unheard answers, failed writes and the outcome |
| `FailedWrites.FailedSendIsSwallowed` | src/socket_loop.rs:91-93 | For every capacity above zero, frame and error, a run in which a fire-and-forget write fails and the consumer finds only WebsocketClosed |
| `FailedWrites.CancelledSendEndsConnection` | src/socket_loop.rs:236-240 | For every capacity above zero and write result, a run in which a cancelled caller ends a connection whose sender and receiver are alive |
| `CloseVerdict.CloseConnectionVerdict` | src/lib.rs:309-330 | A lone handle's `close_connection`, whether its request is accepted or refused by the closed channel, returns Ok if and only if its Close frame was written and the loop ended Closed; Ok implies that a Close with code 1000 and "Closing Connection" is on the wire under its id |
| `CloseVerdict.SharedCloseVerdict` | src/lib.rs:317-329 | With clones alive, for every request made and not cancelled: Ok if and only if the Close frame was written and the loop ended Closed or the cause had been taken before |
| `CloseVerdict.LoneCloseNeedsRoom` | src/lib.rs:309-330 | A lone handle's `close_connection`, during which nobody receives, cannot return Ok if more than CHANNEL_SIZE data frames not received before the call precede the server's Close |
| `CloseVerdict.GracefulEndNeedsRoom` | src/socket_loop.rs:315-367 | With no receive from some point on, a loop that ended Closed was sent at most CHANNEL_SIZE frames more than had been consumed by then |
| `CloseVerdict.SharedCloseHidesCause` | src/lib.rs:321-329 | For every capacity above zero, a run in which a clone takes the cause and the close reports Ok |
| `CloseCalls.CloseCallVerdict` | src/lib.rs:309-330 | The call as a future, under any interleaving of its polls with all other steps: when it has returned, Ok if and only if its Close frame is on the wire and the loop ended Closed or another operation looked into the slot first; an Ok has its Close, with code and reason, on the wire; it panics only over a discarded request |
| `CloseCalls.LoneCloseCallVerdict` | src/lib.rs:309-330 | The same call when nobody else looks once it is past its first await: Ok if and only if written and Closed |
| `CloseCalls.CloseCallReturns` | src/lib.rs:315-329 | The poll that finds the task finished returns `CloseConnectionResult` of the state it looks at |
| `ReceiveGuarantees.InboundConservation` | src/socket_loop.rs:315-367 | Data frames read are in order at exactly one place; at most one is lost, and only if the loop ended in an error |
| `ReceiveGuarantees.BoundedMemory` | src/lib.rs:169-170 | At most CHANNEL_SIZE + 1 inbound frames in the client and CHANNEL_SIZE queued payloads |
| `ReceiveGuarantees.FrozenReads` | src/socket_loop.rs:307-314 | From hold entry to hold exit nothing is read and nothing overtakes the held frame, whatever is written meanwhile |
| `ReceiveGuarantees.ReadsAreArrivals` | src/socket_loop.rs:181-181 | The events read, then those waiting, are what the network brought, with no gap or repeat |
| `ReceiveGuarantees.ConsumedIsPrefix` | src/socket_loop.rs:315-367 | In every reachable state the consumer has a prefix of the data before the server's end |
| `ReceiveGuarantees.GracefulEndIsComplete` | src/socket_loop.rs:280-283 | Closed implies: a Close was read last, nothing held or lost, no cause ever found, and exactly the data before the Close delivered |
| `ReceiveGuarantees.ScheduleIsInvisible` | src/socket_loop.rs:323-359 | Two drained graceful runs against the same server give the consumer the same frames, whatever their capacities, keepalives, sends and schedules |
| `ReceiveGuarantees.RefinesUnboundedFifo` | src/socket_loop.rs:323-340 | While the receiver lives, every step of the bounded client is a push, a pop or a stutter of one unbounded queue |
| `ReceiveGuarantees.RunsAsUnboundedFifo` | src/socket_loop.rs:323-359 | After any schedule that leaves the consumer its receiver, the client is that queue after the same pushes and pops |
| `ReceiveGuarantees.CauseIsTakenOnce` | src/socket_loop.rs:211-223 | No look into the slot before closure; if the loop ended in an error the first look gets exactly it and later looks nothing |
| `ReceiveGuarantees.BufferedFramesComeFirst` | src/socket_loop.rs:135-142 | A receive looks for a cause only when every frame read and not lost has been consumed |
| `ReceiveGuarantees.PingService` | src/socket_loop.rs:264-292 | Between iterations Pongs equal Pings, each written before the next read; only Text and Binary frames reach the queue |
| `ReceiveGuarantees.HoldIsBounded` | src/socket_loop.rs:332-350 | A hold with w successful writes and keepalive interval d lasts at most (w + 1) * d plus the time spent in writes |
| `ReceiveGuarantees.HoldIsBoundedFromEntry` | src/socket_loop.rs:332-350 | Counted from the step that held the frame back, with writes that take no time: at most (w + 1) * d for the w frames written since |
| `ReceiveGuarantees.TimerMeasuresIdleness` | src/socket_loop.rs:179-193 | Whatever the handles and the network do meanwhile, the timer's arm is ready if and only if a full interval has passed since the loop last went round |
| `ReceiveGuarantees.ParkedExactly` | src/socket_loop.rs:332-366 | The hold never has a step again without a handle if and only if keepalive is off, the queue full, the receiver alive, the outgoing queue empty and a sender alive |
| `ReceiveGuarantees.OneReceiveWakes` | src/socket_loop.rs:353-357 | From that state, with a capacity above zero, one receive enables the permit, and the permit delivers the held frame |
| `ReceiveViews.ViewsAgree` | src/lib.rs:97-101 | For every run and decoder, the stream's items are the results of `next_message`, then the cause if still recorded, then the end where `next_message` returns WebsocketClosed |
| `ReceiveViews.OutputsExplained` | src/socket_loop.rs:131-161 | The outputs of both views are a function of the frames consumed and of what the slot held at each look |
| `Handshake.HandshakeContext.RecvRaw` | src/handler.rs:103-113 | Everything taken in front of the last event is a Ping or a Pong; the last is a frame that is neither, returned as it is, or an error, returned as WebsocketError, or the end; a stream that runs out is WebsocketClosed |
| `Handshake.HandshakeContext.Recv` | src/handler.rs:53-58 | A Close is WebsocketClosed whatever the codec; other frames are decoded |
| `Handshake.HandshakeContext.RecvText` | src/handler.rs:90-95 | Text is returned, any other frame is the error that carries it |
| `Handshake.HandshakeSkipsOnlyControl` | src/handler.rs:103-113 | Any number of calls returns exactly the stream without Pings and Pongs, then "closed" |
| `Handshake.RunHandshake` | src/handler.rs:103-113 | A run of calls returns those results and leaves the stream after the last event taken |
| `Handshake.HandOffLosesNothing` | src/lib.rs:160-185 | Handshake events, then loop events, then waiting events are the server's sequence, under every schedule |
| `Handshake.ConverseReceives` | src/handler.rs:103-113 | Whatever a handler does, its receives are successive receives of one stream, unaffected by what it sends in between |
| `Handshake.ConversationHandsOff` | src/lib.rs:160-185 | The hand-off loses nothing after any handler's handshake |
| `Handshake.PropagatingStops` | src/handler.rs:137-148 | A handler that returns its first error goes on after none, so one that accepts has had none |
| `Handshake.HandshakeContext.SendFrame` | src/handler.rs:66-81 | The frame reaches the socket, or the write's error is returned |
| `Connect.MakeCall` | src/handler.rs:66-113 | One call of a handler: a receive takes what `recv_raw` takes, a send adds its frame or returns the write's error |
| `Connect.OnConnected` | src/lib.rs:160-164 | Any handler, run on its context: replies, frames sent and events taken are those of its conversation, up to the move by which it returns |
| `Connect.ConnectWithCodec` | src/lib.rs:143-196 | If the handler accepts, a valid connection with empty channels on the rest of the stream; if it refuses, its error and no connection |
| `Halves.WorldStep` | src/split.rs:155-173 | Every handle operation keeps every handle genuine, slots tied to connections and receivers with one owner |
| `Halves.ReuniteExactly` | src/split.rs:155-173 | Over any program: `reunite` succeeds if and only if both halves have the same connection, giving back the handle as first returned, else both halves unchanged |
| `Halves.HalvesBelongTogether` | src/lib.rs:345-361 | Every handle, whole or half: field by field, what it holds is what its connection was first returned with; handles that share its slot share that connection, and a receiver has one owner |
| `Halves.HandlesMove` | src/split.rs:33-173 | What each operation consumes and leaves: split, clone, reunite, a failed reconnect and a drop; other handles stay as they are |
| `Halves.SettingsCarryOver` | src/lib.rs:283-301 | `connect` returns its own settings; `reconnect` keeps the url, the options and the codec, on a new connection with a new slot |
| `Halves.OldHalvesNeverMatch` | src/lib.rs:283-301 | A half made before a reconnection never matches the new connection |
| `Halves.EarlierCloneStillMatches` | src/split.rs:149-159 | A concrete program in which a clone of an earlier split is accepted |
| `EchoServer.EchoTask.Serve` | src/mock_server.rs:49-99 | The server's loop computes `Run` on the messages it has heard; it returns true if and only if it heard a request to close or to abort; otherwise it ends as its last message says |
| `EchoServer.EchoTask.Respond` | src/mock_server.rs:53-96 | Each message's own write: the message itself for an echo, a Ping for `SendPing`, a Pong for a Ping, a Close with code 1000 for a close request, a Close for a Close unless shutting down, else none; and how it ends the task |
| `EchoServer.CloseIsAnswered` | src/mock_server.rs:86-94 | A server still reading when it hears a Close, and whose write succeeds or that was shutting down, has a Close in its output |
| `EchoServer.RunEchoes` | src/mock_server.rs:52-60 | While it runs it has echoed exactly what asked for it, in order; afterwards a prefix |
| `EchoSystem.SystemStepKeeps` | src/mock_server.rs:52-97 | Every step of the two processes and the network keeps: data on its way back plus what is owed = echoes asked for by what was heard |
| `EchoSystem.ConsumedIsWireEcho` | src/mock_server.rs:52-60 | In every reachable state the consumer has a prefix of the echoes the client's writes ask for, after any close, abort, reset or error |
| `EchoSystem.ConsumedIsEchoPrefix` | src/mock_server.rs:52-60 | If the keepalive asks for no echo, a prefix of the echoes of the accepted payloads in acceptance order |
| `EchoSystem.PipelineIsComplete` | src/socket_loop.rs:176-210 | While both processes run, if the keepalive asks for no echo: consumed ++ queue ++ abandoned ++ held ++ being offered ++ unread ++ downstream ++ owed ++ upstream ++ failed ++ in flight ++ outgoing queue = echoes of everything accepted |
| `EchoClose.ExchangeStep` | src/mock_server.rs:63-94 | Every step of the two processes and the network keeps: in front of the server's first Close are exactly the echoes of what it heard before the first request to close |
| `EchoClose.GracefulExchange` | src/mock_server.rs:52-97 | If the client ended Closed, what it delivered is exactly the echoes of its writes before the first one that asked the server to close, whatever the keepalive |
| `EchoClose.GracefulExchangeIsExact` | src/mock_server.rs:52-97 | If moreover the keepalive asks for neither echo nor Close: exactly the echoes of the payloads accepted before the first that asked to close, and all of them are consumed once drained |
| `EchoClose.GracefulCloseHappens` | src/lib.rs:309-330 | For every capacity above zero, a run of both processes in which the close request crosses the wire, the server answers it, the loop ends Closed and `close_connection` returns Ok |
| `Turns.TurnServes` | src/socket_loop.rs:177-209 | One turn from any reachable select, whichever arm wins and whatever runs beside it: others leave the loop's part alone, the winning arm is served if it is ready, and the loop is in a select again or has left |
| `Turns.RunIsServed` | src/socket_loop.rs:177-209 | In any run of turns that each find the loop in a select, every turn is served, one after the other |
| `Turns.OutgoingServes` | src/socket_loop.rs:180-180 | The outgoing arm writes and answers the queue's first payload, or ends the loop if no sender is left, or is not ready |
| `Turns.IncomingServes` | src/socket_loop.rs:181-191 | The incoming arm reads exactly the next event and serves it: reply, verdict, or a data frame delivered, held or lost with the receiver |
| `Turns.TimerServes` | src/socket_loop.rs:192-192 | The timer's arm writes one keepalive when it is due, or ends the loop with the write's error |
| `Turns.CapacityServes` | src/socket_loop.rs:335-341 | The permit's arm delivers the held frame next, or ends the loop over a dropped receiver, or is not ready |
| `Turns.SendEffects` | src/socket_loop.rs:72-106 | A send that can be accepted queues the caller's frame at the end, owed an answer if confirmed and not otherwise |
| `Turns.SenderEffects` | src/split.rs:33-41 | What awaiting or giving up an answer, cloning and dropping a sender change |
| `Turns.OtherEffects` | src/socket_loop.rs:131-161 | What a receive, a dropped receiver, a join, an arrival and the passing of time change |
| `Turns.ExitKeepsHistory` | src/socket_loop.rs:211-223 | The loop's last acts, with others in each of the three gaps, write, read, lose and answer nothing more |
| `SocketLoop.Connection.SocketLoopSplit` | src/socket_loop.rs:167-224 | From its select with no frame held, the loop runs the script's turns in order, each found in a select and served, and stops only when one ended it or none is left; then it has recorded and dropped exactly as the exit says, or is suspended; with the conservation and completeness results on the state its fields stay tied to |
| `SocketLoop.Connection.Others` | src/socket_loop.rs:179-208 | What other tasks do is exactly the operations given, each if it can happen, and touches nothing of the loop |
| `SocketLoop.Connection.MainTurn` | src/socket_loop.rs:177-209 | One iteration, with the whole hold it may lead to, is exactly those turns; the arm that won is served |
| `SocketLoop.Connection.DeliverWithBackpressure` | src/socket_loop.rs:315-367 | The first attempt, then the hold's turns in order, each served, until it is over or none is left; nothing is read; the frame is delivered right after everything before it, or stays held, or the loop has ended and not by Closed |
| `SocketLoop.Connection.HoldTurn` | src/socket_loop.rs:332-366 | One iteration of the hold is exactly one turn, served: a permit, an outgoing payload or a keepalive, never a read |
| `SocketLoop.Connection.TryOffer` | src/socket_loop.rs:323-329 | Delivered if there is room, the error if the receiver is gone (even when full), else held |
| `SocketLoop.Connection.Reserve` | src/socket_loop.rs:335-341 | The permit delivers the held frame, or reports the dropped receiver, or is not ready |
| `SocketLoop.Connection.SendSocketMessage` | src/socket_loop.rs:227-251 | Writes the payload, answers its one-shot once with that result, and never ends by Closed |
| `SocketLoop.Connection.WritePayload` | src/socket_loop.rs:234-235 | A successful write appends that payload's frame to the wire, a failed one nothing |
| `SocketLoop.Connection.Respond` | src/socket_loop.rs:235-245 | A gone caller ends the loop first, then a failed write, otherwise the loop goes on |
| `SocketLoop.Connection.HandleIncoming` | src/socket_loop.rs:259-305 | Data frames are handed back untouched; every other event has its own verdict and exactly its own write: a Pong, the Close, or none |
| `SocketLoop.Connection.ReplyPong` | src/socket_loop.rs:266-279 | One Pong with the constant body, or the write's error |
| `SocketLoop.Connection.ReplyClose` | src/socket_loop.rs:280-290 | Closed if the sink closes, otherwise its error |
| `SocketLoop.Connection.SendKeepalive` | src/socket_loop.rs:370-389 | Writes the configured message, or an empty Ping if there is none, and restarts the timer; a failure is the recorded error |
| `SocketLoop.Connection.TimerFires` | src/socket_loop.rs:192-192 | The timer's arm is ready if and only if a full interval has passed since the select was entered |
| `SocketLoop.Connection.RecordCause` | src/socket_loop.rs:215-221 | The slot holds the cause while both channels are still open |
| `SocketLoop.Connection.RecordAndDrop` | src/socket_loop.rs:215-224 | Record, then drop both ends, with other tasks in each gap: nothing more is written, read, lost or answered, and the slot still holds the cause unless somebody looked, and then the first look had it |
| `SocketLoop.Connection.PollSend` | src/socket_loop.rs:72-124 | Accepted at the end of the queue: the caller's frame with a one-shot it waits on for a confirmed send, the caller's frame without one for a fire-and-forget send, and a Close with code 1000 and "Closing Connection", waited on, for a close; waiting on a full queue; or refused with the cause, which a close request never takes |
| `SocketLoop.Connection.PollAnswer` | src/socket_loop.rs:85-88 | The value put there by the loop, or pending while the loop holds the one-shot, or the panic |
| `SocketLoop.Connection.PollRecv` | src/socket_loop.rs:131-143 | The oldest frame first; the cause or WebsocketClosed only on an empty closed channel |
| `SocketLoop.Connection.PollNextItem` | src/socket_loop.rs:148-161 | The same, with the end of the stream where no cause is recorded |
| `SocketLoop.Connection.PollClose` | src/lib.rs:314-329 | Waits for the loop's task, then prefers the recorded cause over the answer to the Close frame |
| `SocketLoop.Connection.AdvanceClose` | src/lib.rs:309-330 | `PollSend`, `PollAnswer` and `PollClose` in sequence are one call of `close_connection`, poll by poll; what it queues is the Close frame |
| `SocketLoop.Connection.TakeTerminalErrorOpt` | src/socket_loop.rs:61-63 | Returns what the slot held and empties it |
| `SocketLoop.Connection.TakeTerminalError` | src/socket_loop.rs:67-69 | The same, with WebsocketClosed for an empty slot |
| `SocketLoop.Connection.CloneSendHalf` | src/split.rs:33-41 | One more live sender of the same channel |

## Left out

- TCP, TLS, the HTTP upgrade, URL parsing and the mock server's accept loop: a connection starts after the upgrade, as a sequence of stream events.
- The WebSocket library's framing, masking, automatic replies and refusal of writes after a Close: a write may fail at any time, which covers them.
- Panics of the loop's task, a poisoned mutex, and a send that holds a permit when the channel closes.
- Codec bodies: encoding happens before the modelled operations and an encoding error never reaches a channel; decoding is an arbitrary function that may fail.
- The option builder, headers, `Debug` and `Display`, and tracing.
- `msgpack_echo_server` and `auth_echo_server`: the first repeats `echo_server` on binary frames, the second precedes it with one exchange.
- `reconnect` as code: its close request is the first two awaits of `SocketLoop.Connection.AdvanceClose`, `PollSend` then `PollAnswer` with its panic, the result ignored; its new connection is `Connect.ConnectWithCodec`, and what it does to halves is in `Halves.dfy`.
- Liveness that needs the peer or a fair scheduler, for example that `close_connection` returns.
- Halves: handles there are values, because the source only moves them; their operations on channels and slots are in `SocketLoop.dfy`.
- Connect.ConnectWithCodec: a handler still at its handshake when the given write results are used up is left there (None); its codec calls and `on_disconnected` are not modelled.
- EchoServer.EchoTask.Serve: a read error is skipped as in the source and uses no write result.
- SocketLoop.Connection.SocketLoopSplit: a script that ends in a hold leaves the loop there; the method is not entered again in the middle of a hold.
