# A verified model of the asyncnsq TCP client

The project models four parts of the client that work together, and proves what they keep
over all inputs and all runs:

* the incremental frame parser and the command encoder (`Frames`, `StrictPrefix`, `FrameReader`,
  `Commands`, `MpubBody`), against a pure parser of a byte stream and a decoder of a command stream,
  and both byte by byte in numbers (`FrameBytes`, `CommandBytes`);
* one connection to nsqd (`ConnectionState`, `ConnectionLaws`, `Replies`, and the classes of
  `Connection`): reply waiters, message objects, the ledger of unfinished messages, the
  in-flight counter and the RDY credit; what it writes and when it closes (`WireLaws`,
  `ClosingLaws`); and its reader task (`ReadLoop`, `ReadLaws`);
* the RDY scheduler (`RdyShares`, `RdyWakes`, `WakeOrder`, `Credit`, `RdyScheduler`, and the class
  of `RdyControl`), alone and together with its connections (`ClientSystem`, and the objects that
  do its steps in `ClientObjects`), with its threshold in numbers (`RefillLaws`) and nsqd's side of
  the credit (`NsqdCredit`);
* the consumer with its handlers and its graceful shutdown (`Shutdown`, `ShutdownRuns`,
  `ShutdownLosses`, `ShutdownWire`, and the class of `Consumer`), where a shared queue and the
  ledgers of the connections overlap.

Code that changes objects is modelled by classes whose methods have the fields, branches and
loops of the original. Each such method is proved to take the abstract value of its object
(`Abs()`) to what a step function makes of it. The laws are then proved about those step
functions: for every state, for every run, for every way to cut a stream.

A step function says how a result is computed; what it has to be is said without it. `WireLaws`,
`ClosingLaws` and `NsqdCredit` tie the whole output of a connection to the history of its events:
which FINs, REQs, TOUCHes, NOPs, CLSs and commands were written and why, what the written RDYs and
the delivered messages leave nsqd with, when the connection closed and what its futures failed
with. `FrameBytes` and `CommandBytes` do the same for the bytes of frames and commands.

`ReadLoop` is about any step that is done with a frame (`FrameStep`), so its laws hold for
messages that are queued (`Dispatch`), for a handler that settles them inside the drain
(`ReadLaws.Direct`), and for the frames themselves with all that they hold.

A step is one piece of code that runs without yielding to the event loop. `execute` of FIN,
REQ, RDY and TOUCH answers a future that is already complete
(asyncnsq/tcp/connection.py:87-89), so awaiting it is part of the same step. Where the code
yields at a `gather`, the pieces are separate steps: the jobs of a redistribution, and the
pieces of `graceful_close` in `ShutdownRuns`. A call that can
raise returns a `CallResult` or an `Option`, and its error branches are modelled.

## What holds only under a condition

* **Chunks.** Between two reads the event loop runs a close that a fatal error or a malformed
  frame has scheduled, and the reader task ends there (asyncnsq/tcp/connection.py:219-233,
  asyncnsq/tcp/connection.py:296-309). A stream without either leads to one state however it is
  cut: `ReadLaws.ClosedIffPoisoned`. Past a fatal frame the cut can matter, exactly under the
  condition of `ReadLaws.TwoReadingsAgreeIff`; `ReadLaws.TheCutDecides` is two cuts of one
  stream of which one delivers a message and the other does not.
* **Shutdown.** The documentation says that `graceful_close` requeues the queued and the
  unfinished messages (README.md:109-111, README.md:144-146). `requeue_queued_messages` catches
  `RuntimeWarning` only, so a queued unprocessed message of a closed connection ends the
  shutdown with an exception: `Shutdown.QueuedRaisesIff`. With all connections open, nothing is
  lost exactly under the condition of `Shutdown.ShutDownIsCompleteIff`; a message that nsqd
  delivered twice under one id can be lost otherwise. While nsqd still delivers and connections
  are lost between its pieces, a message that is there when the requeueing of its connection runs
  ends settled exactly if it was settled, or the connection open, by then:
  `ShutdownLosses.WhatShutdownSettles`. One that comes later, and that no other task settles, is lost.
* **Ledger.** It is keyed by message id. A delivery keeps every unprocessed object in it exactly
  if its id is not live: `ConnectionLaws.DeliveryIsTrackedIff`.
* **Replies.** A command that cannot be encoded leaves its waiter behind:
  `ConnectionLaws.FuturesMatchWrittenCommandsIff`. Any error frame takes the oldest waiter, also
  one that answers a FIN, a REQ or a TOUCH. `Replies.OwnRepliesIff` says exactly when every reply
  settles its own command.
* **In-flight counter.** A FIN that bypasses the message object breaks it:
  `ConnectionLaws.RawFinKeepsConservationIff`.
* **Unread bytes.** The type of a frame is looked at only when the whole frame has arrived, so
  what a drain leaves need not be the beginning of a frame: `StrictPrefix.DrainLeavesAPrefixIff`.
* **Flow control.** The bound is for a fixed or shrinking set of connections. A connection that
  joins adds its whole target: `RdyScheduler.JoiningAddsItsTarget` says exactly when the bound
  survives, and `RdyScheduler.RecoveryAfterAnyRun` how a redistribution restores it.
* **Wake-ups.** Removing a connection forgets its mark but not its queued command:
  `RdyWakes.RemovalBreaksCoalescing`. RDY 0 while the scheduler works can leave a connection
  that no signal will ever serve: `RdyScheduler.StopKeepsWakeUpsIff`. A redistribution fills it
  again: `RdyScheduler.RecoveryAfterAnyRun`.

`Counterexamples`, `StrictPrefix.WaitsBehindAnUnknownType`, `ReadLaws.TheCutDecides`,
`ShutdownLosses.LateMessagesAreLost`, `RdyScheduler.JoiningExceedsTheBound`,
`RdyScheduler.StoppingCanStarve` and `RdyWakes.SignalThenRemove` show, for each condition, how it fails.

## Model

| member | source | states |
|---|---|---|
| `Frames.Next` | asyncnsq/tcp/protocol.py:155-178 | Reference parser of the first frame; a frame it finds consumes at least 8 bytes, which is why every drain ends |
| `Frames.Payload` | asyncnsq/tcp/protocol.py:193-227 | A complete payload is malformed exactly when it is a message shorter than its 26-byte header |
| `Frames.Partition` | asyncnsq/tcp/protocol.py:206-211 | An error payload is its code, one space and its text, cut at the first space; without a space it is all code |
| `Frames.PartitionJoin` | asyncnsq/tcp/protocol.py:210-210 | Cutting a joined code and text gives them back for every code without a space, whatever spaces the text has |
| `Frames.ParseAppend` | asyncnsq/tcp/protocol.py:147-178 | Parsing a stream in two parts, the unread rest carried over, is parsing it at once; after an error more bytes change nothing |
| `Frames.RunRefinesParse` | asyncnsq/tcp/protocol.py:147-178 | For any interleaving of `feed` and `gets`, frames returned so far followed by the parse of the unread bytes equal the parse of everything fed |
| `Frames.ErrorsAreSticky` | asyncnsq/tcp/protocol.py:162-174 | Once the unread bytes are malformed, every later `gets` raises the same error after any further feeding |
| `Frames.NothingLostBeforeAnError` | asyncnsq/tcp/protocol.py:162-178 | When a call raises first, the frames returned before it are exactly the well-formed frames before the bad one |
| `Frames.FramesRoundTrip` | asyncnsq/tcp/protocol.py:155-227 | Parsing the encoding of any list of frames returns that list, whatever follows it in the stream |
| `Frames.NextEncode` | asyncnsq/tcp/protocol.py:193-227 | One encoded frame is read back and leaves exactly the bytes after it |
| `Frames.NextIsCanonical` | asyncnsq/tcp/protocol.py:155-227 | Every byte string that parses as a frame is that frame's encoding, except an error payload without a space |
| `StrictPrefix.StrictPrefixIff` | asyncnsq/tcp/protocol.py:155-178 | Some more bytes complete the unread bytes to exactly one frame if and only if `gets` wants more and the bytes present allow it: a size of at least 4, a type that is still possible, and for a message room for its header |
| `StrictPrefix.DrainLeavesAPrefixIff` | asyncnsq/tcp/connection.py:394-397 | A drain without error leaves a strict prefix of a frame if and only if the bytes left allow a frame; otherwise nothing that follows is ever a frame |
| `StrictPrefix.WaitsBehindAnUnknownType` | asyncnsq/tcp/protocol.py:162-174 | The condition is needed: after a size of 100 and the type 7, `gets` waits for all 100 bytes and only then rejects the type |
| `Frames.ParseStops` | asyncnsq/tcp/connection.py:394-397 | What a drain leaves unread parses to nothing new, or to the error that stopped it |
| `FrameBytes.NextByBytes` | asyncnsq/tcp/protocol.py:155-204 | In numbers: a frame waits for 4 bytes and as many more as they announce, in two's complement; a size below 4, a type other than 0, 1 and 2, and a message of fewer than 30 bytes are the three errors; type 0 is a response, 1 an error, 2 a message |
| `FrameBytes.TypeByte` | asyncnsq/tcp/protocol.py:193-204 | A frame that is found has zeros at bytes 4 to 6, and byte 7 says what it is |
| `FrameBytes.ResponseFields` | asyncnsq/tcp/protocol.py:213-217 | A response is the bytes from 8 to the end of the frame |
| `FrameBytes.ErrorFields` | asyncnsq/tcp/protocol.py:206-211 | An error is its code and its text around the first byte 32 from byte 8 on, or all code |
| `FrameBytes.MessageFields` | asyncnsq/tcp/protocol.py:219-227 | A message has its signed timestamp at byte 8, its attempts at 16, its id at 18 and its body from 34 on, numbers most significant byte first |
| `FrameBytes.OkReply` | asyncnsq/tcp/consts.py:18-18 | The ten bytes of an OK reply parse as the response OK |
| `FrameBytes.LengthBytesWritten` | asyncnsq/tcp/protocol.py:124-127 | A length is written in four bytes, most significant first |
| `FrameReader.AccountsRefineParse` | asyncnsq/tcp/protocol.py:147-191 | The invariant of the reader object implies the refinement: returned frames and the parse of the view are the parse of all bytes fed |
| `FrameReader.Reader.constructor` | asyncnsq/tcp/protocol.py:132-139 | A reader starts with its initial bytes unread and nothing returned |
| `FrameReader.Reader.Feed` | asyncnsq/tcp/protocol.py:147-153 | The view grows by the chunk, through a cached header and a shifted buffer; the invariant and the residency bound stay |
| `FrameReader.Reader.Gets` | asyncnsq/tcp/protocol.py:155-178 | The in-place parser answers what the reference parser finds in the view and leaves what it leaves; an error leaves every byte; offset <= 65536 and (offset = 0 or offset < length) |
| `FrameReader.Reader.Reset` | asyncnsq/tcp/protocol.py:180-191 | Clearing, compacting or only moving the offset, the view loses exactly one frame and the residency bound holds again |
| `FrameReader.Reader.ParsePayload` | asyncnsq/tcp/protocol.py:193-204 | The slices taken at absolute offsets are the reference reading of the payload |
| `FrameReader.Reader.UnpackMessage` | asyncnsq/tcp/protocol.py:219-227 | Timestamp, attempts, 16-byte id and body are cut at the offsets of the reference format, a short frame is refused |
| `FrameReader.Reader.UnpackError` | asyncnsq/tcp/protocol.py:206-211 | The error frame of exactly the payload bytes |
| `FrameReader.Reader.UnpackResponse` | asyncnsq/tcp/protocol.py:213-217 | The response frame of exactly the payload bytes |
| `Commands.EncodableIff` | asyncnsq/tcp/protocol.py:124-127 | Encoding succeeds exactly when every length in the command fits in 31 bits |
| `Commands.DecodeEncodeCommand` | asyncnsq/tcp/protocol.py:234-251 | A decoder reads any encoded command back, upper-cased and stripped, and stops where it ends |
| `Commands.CommandsRoundTrip` | asyncnsq/tcp/protocol.py:234-251 | Decoding the concatenation of any list of encoded commands (no data, one body, or several) returns that list |
| `Commands.EncodingIsInjective` | asyncnsq/tcp/protocol.py:234-251 | Two command lists with the same bytes are the same list |
| `Commands.EncodePubAgrees` | asyncnsq/tcp/protocol.py:229-232 | The PUB fast path writes the bytes of the general encoder, and fails on the same data |
| `CommandBytes.CommandLayout` | asyncnsq/tcp/protocol.py:234-251 | In numbers: the canonical name, every argument behind byte 32, byte 10, and the data behind its four length bytes; of a list, its number and every part behind its length |
| `CommandBytes.UpperBytes` | asyncnsq/tcp/protocol.py:236-236 | The bytes 97 to 122 of a name move down by 32, and no other byte changes |
| `CommandBytes.StripBytes` | asyncnsq/tcp/protocol.py:236-236 | White space goes from both ends of a name, all of it and nothing else |
| `CommandBytes.BareCommand` | asyncnsq/tcp/connection.py:243-253 | NOP and CLS are written as their name and byte 10 |
| `MpubBody.EncodeHttpMpubBody` | asyncnsq/http/writer.py:7-13 | The collecting loop gives the count followed by every part behind its length, and fails exactly when a length does not fit |
| `MpubBody.MpubBodiesAgree` | asyncnsq/tcp/protocol.py:243-247 | The TCP MPUB body is the HTTP body h behind its own length, with h of 4 + sum(4 + part length) bytes; exactly when h itself is too long, TCP refuses |
| `RdyShares.TargetRdyById` | asyncnsq/tcp/reader_rdy.py:72-84 | The loop gives each open connection its capped share by rank, and nothing to others; empty for max_in_flight <= 0 |
| `RdyShares.ShareIsCeiling` | asyncnsq/tcp/reader_rdy.py:77-80 | The share at position i is the ceiling of (max_in_flight - i) / n |
| `RdyShares.SharesDifferByAtMostOne` | asyncnsq/tcp/reader_rdy.py:77-80 | Uncapped shares differ pairwise by at most 1 and do not grow with the position |
| `RdyShares.SharesSumExactly` | asyncnsq/tcp/reader_rdy.py:72-84 | Uncapped shares add up to exactly max_in_flight |
| `RdyShares.TargetsSum` | asyncnsq/tcp/reader_rdy.py:72-84 | Capped targets add up to at most max_in_flight, and to exactly that if and only if no cap binds |
| `RdyShares.TargetMonotone` | asyncnsq/tcp/reader_rdy.py:72-84 | Removing connections never lowers a survivor's target; adding some never raises an existing one |
| `RdyWakes.QueueBound` | asyncnsq/tcp/reader_rdy.py:33-56 | With marks exact, the command queue is as long as the pending set plus the redistribute flag |
| `RdyWakes.RemovalBreaksCoalescing` | asyncnsq/tcp/reader_rdy.py:58-60 | Removing a connection keeps the marks exact if and only if its id is not pending; otherwise its next signal queues a duplicate |
| `RdyWakes.SignalThenRemove` | asyncnsq/tcp/reader_rdy.py:58-60 | The condition is needed: one signal, the removal, and the next signal queues the same command twice |
| `RdyWakes.WakeQueue.RdyChanged` | asyncnsq/tcp/reader_rdy.py:33-37 | One command per id until it is taken, none once closed |
| `RdyWakes.WakeQueue.Redistribute` | asyncnsq/tcp/reader_rdy.py:39-43 | One redistribution until it is taken, none once closed |
| `RdyWakes.WakeQueue.Get` | asyncnsq/tcp/reader_rdy.py:47-53 | Commands leave in order, each with its own mark |
| `RdyWakes.WakeQueue.Close` | asyncnsq/tcp/reader_rdy.py:121-124 | Marks are cleared and the scheduler stops accepting signals |
| `WakeOrder.CommandsLeaveInOrder` | asyncnsq/tcp/reader_rdy.py:33-56 | Over every sequence of signals, requests, turns and a close: the commands taken, followed by those still queued, are exactly what was asked for before the close and was not queued already, in order |
| `RdyScheduler.CreditInvStep` | asyncnsq/tcp/reader_rdy.py:86-119 | Every delivery, FIN or REQ, queued refill, gathered update, loss of a connection and close keeps each connection within its target and each target within a fresh division |
| `RdyScheduler.CreditSafety` | asyncnsq/tcp/reader_rdy.py:72-119 | Over every such run, rdy_count + in_flight <= target on each open connection, and their sum <= max_in_flight |
| `RdyScheduler.JoiningAddsItsTarget` | asyncnsq/tcp/reader_rdy.py:95-107 | In any state of the scheduler, first serving a connection that joined adds exactly its target, so the bound survives if and only if that much was free |
| `RdyScheduler.JoiningExceedsTheBound` | asyncnsq/tcp/reader_rdy.py:29-31 | From the start of a run: one connection is signalled and served, a second one joins and is served, and the total is over max_in_flight |
| `RdyScheduler.WakeInvStep` | asyncnsq/tcp/connection.py:384-392 | Every step keeps each targeted open connection awake, connections joining and RDY 0 where it is harmless included, also when the stored low-water mark is older than the target |
| `RdyScheduler.StopKeepsWakeUpsIff` | asyncnsq/tcp/connection.py:167-171 | While the scheduler works, RDY 0 on an open connection keeps every wake-up if and only if it has no target, or a message in flight, or a queued refill |
| `RdyScheduler.StoppingCanStarve` | asyncnsq/tcp/reader.py:380-393 | The condition is needed: a connection that was just filled is stopped, and then has a target, holds nothing, and nothing is queued for it |
| `RdyScheduler.NoLostWakeUp` | asyncnsq/tcp/reader_rdy.py:33-56 | Over every run in which RDY 0 meets that condition, while the scheduler works, an open connection with a target has rdy_count + in_flight >= 1 or its command in the queue |
| `RdyScheduler.QueueStaysShort` | asyncnsq/tcp/reader_rdy.py:33-56 | Over every run before close, marks are exact, no command is queued twice, and the queue is at most the number of connections + 1 long |
| `RdyScheduler.QuiescedIsAwake` | asyncnsq/tcp/reader_rdy.py:45-56 | With no new signals the distributor empties its queue in finitely many steps, and then no targeted connection is idle |
| `RdyScheduler.RedistributionConverges` | asyncnsq/tcp/reader_rdy.py:86-93 | Once a redistribution is asked for, the distributor alone brings every open connection to the target of a fresh division, with credit for exactly what is missing |
| `RdyScheduler.RedistributionRecovers` | asyncnsq/tcp/reader_rdy.py:109-119 | From any state with a redistribution queued: at rest each open connection holds the larger of its messages in flight and its target, so none with a target is idle; the flow-control bounds hold again if and only if those messages fit the targets |
| `RdyScheduler.RecoveryAfterAnyRun` | asyncnsq/tcp/reader_rdy.py:39-43 | After any run, joined and starved connections included, `redistribute` wakes every open connection with a target and brings the total back within max_in_flight once the messages in flight fit |
| `RefillLaws.RefillsExactlyWhenLow` | asyncnsq/tcp/reader_rdy.py:95-119 | In numbers: serving a connection with a positive fresh target t gives it t, and then max(in_flight, t) of credit and messages, if and only if it holds at most 1 or four times what it holds is at most t; otherwise it stays as it is; with t <= 0 its credit goes to 0; nothing else changes |
| `RefillLaws.RetargetMarks` | asyncnsq/tcp/reader_rdy.py:112-113 | The stored low-water mark is 1 below a target of 8, its quarter rounded down from there, and 0 without a target |
| `RefillLaws.SignalsExactlyWhenLow` | asyncnsq/tcp/connection.py:384-392 | Over every run of the client: an event signals the scheduler if and only if it writes a FIN or a REQ and leaves the connection without a target, or holding at most 1, or at most a quarter of its target |
| `RefillLaws.ClosedSchedulerIsSilent` | asyncnsq/tcp/reader_rdy.py:121-126 | Once the scheduler is closed, whatever it had queued or gathered, nothing it does touches a connection again |
| `NsqdCredit.CreditIsWhatNsqdHolds` | asyncnsq/tcp/connection.py:131-132 | Over every run of a connection, rdy_count is what nsqd holds: the count of the last RDY that was written, less the messages delivered since, never below 0; once closed it is 0 |
| `NsqdCredit.ClientCreditIsWhatNsqdHolds` | asyncnsq/tcp/reader_rdy.py:109-119 | The same over every run of the whole client: with the scheduler's refills and gathered updates, RDY 0, closes, and connections that join |
| `NsqdCredit.NsqdNeverHoldsTooMuch` | asyncnsq/tcp/reader_rdy.py:72-119 | Flow control in terms of nsqd: unsettled messages and what the written RDYs still allow never exceed max_in_flight together |
| `RdyControl.RdyControl.AddConnection` | asyncnsq/tcp/reader_rdy.py:29-31 | The scheduler gains one connection, or replaces the one of that id, with its callback installed; it is the client's step of joining |
| `RdyControl.RdyControl.TargetRdyById` | asyncnsq/tcp/reader_rdy.py:66-84 | The dictionary of targets is that of the open connections, `get(id, 0)` the target of the state machine |
| `RdyControl.RdyControl.SetConnRdy` | asyncnsq/tcp/reader_rdy.py:109-119 | Target, low-water mark and, only when it differs, one RDY; a closed connection is left alone |
| `RdyControl.RdyControl.SetOwnRdy` | asyncnsq/tcp/reader_rdy.py:109-119 | Setting one connection's credit changes that connection of the client and nothing else |
| `RdyControl.RdyControl.UpdateRdy` | asyncnsq/tcp/reader_rdy.py:95-107 | Serving an id uses the target and the low-water mark of a fresh division; unknown and closed ids do nothing |
| `RdyControl.RdyControl.RedistributeRdyState` | asyncnsq/tcp/reader_rdy.py:86-93 | One job for each open connection, in order of id, with its fresh target |
| `RdyControl.RdyControl.RunGathered` | asyncnsq/tcp/reader_rdy.py:92-93 | Any gathered call may run next, on a connection that may have closed meanwhile; it is the client's step and the scheduler's |
| `RdyControl.RdyControl.Distribute` | asyncnsq/tcp/reader_rdy.py:45-56 | One turn of the distributor is the client's step and the scheduler's, the mark cleared before the work |
| `RdyControl.RdyControl.RdyChanged` | asyncnsq/tcp/reader.py:326-329 | The callback that `subscribe` makes is the client's signal |
| `RdyControl.RdyControl.Redistribute` | asyncnsq/tcp/reader_rdy.py:39-43 | Asking for a redistribution is the client's step |
| `RdyControl.RdyControl.Close` | asyncnsq/tcp/reader_rdy.py:121-126 | No further signals are taken and what was gathered is cancelled, as the client's step |
| `ConnectionState.StepKeeps` | asyncnsq/tcp/connection.py:82-136 | Every frame, call, handler outcome, retarget, requeueing and close keeps the counter, the ledger and the waiter queue right |
| `ConnectionState.AtMostOnceSettlement` | asyncnsq/tcp/messages.py:25-89 | Over all runs, each message object causes at most one FIN or REQ, and is processed exactly when one was written |
| `ConnectionState.InFlightConservation` | asyncnsq/tcp/connection.py:361-365 | Over all runs, in_flight is the number of delivered unprocessed objects, duplicates of an id included, so the clamp at 0 never bites |
| `ConnectionState.WaiterPairing` | asyncnsq/tcp/connection.py:336-360 | Over all runs, the k-th reply that took a waiter settled the k-th future unless cancelled; after the close nothing is pending, nobody waits, the callback ran at most once |
| `ConnectionState.OldestWaiterIsUnsettled` | asyncnsq/tcp/connection.py:344-355 | The future that a reply settles is pending or cancelled, so settling it cannot raise though the code asks only whether it was cancelled |
| `ConnectionState.SettledForGood` | asyncnsq/tcp/connection.py:336-360 | Every future is settled at most once: what it was settled with it keeps over every run that follows |
| `ConnectionState.RequeueEachKeeps` | asyncnsq/tcp/message_tracker.py:16-28 | The loop over a snapshot of the shrinking ledger requeues every entry, empties the ledger and counts exactly |
| `ConnectionState.PairingClosed` | asyncnsq/tcp/connection.py:219-241 | Closing fails exactly the futures that are pending, with its reason, keeps every other one as it was, and runs an installed callback once |
| `ConnectionState.HandlerKeeps` | asyncnsq/tcp/reader.py:205-263 | A handler's auto-FIN, its auto-REQ and a FIN that itself raises keep all three invariants |
| `WireLaws.StepWrites` | asyncnsq/tcp/connection.py:82-136 | Every event appends exactly these entries to what was written, in terms of the open connection, the unsettled message, the ledger and the missing credit |
| `WireLaws.FramesWriteOnlyPulses` | asyncnsq/tcp/connection.py:335-379 | A frame is answered by NOP if it is a response of the eleven bytes of the heartbeat, and by nothing otherwise |
| `WireLaws.HeartbeatsAreAnswered` | asyncnsq/tcp/connection.py:251-253 | Over all runs, as many NOPs are written as heartbeats arrive |
| `WireLaws.OneSettlement` | asyncnsq/tcp/reader.py:205-263 | On an open connection, a handler that returned adds one FIN if auto-FIN is on, one that raised adds exactly REQ 0 if auto-REQ is on; a call of `fin` adds one FIN, a call of `req` one REQ with its timeout |
| `WireLaws.MessagesAreSettledAsAsked` | asyncnsq/tcp/messages.py:25-100 | Over all runs and for each message object, its FINs, its REQs with each timeout and its TOUCHes are exactly the moments at which a call, a handler's outcome or a requeueing asked for them while it was unsettled on an open connection |
| `WireLaws.FailedHandlersLoseNothing` | asyncnsq/tcp/reader.py:223-228 | A message whose handlers all raise, and that the user does not finish, never gets a FIN, whatever else happens |
| `WireLaws.SettleAnswers` | asyncnsq/tcp/messages.py:25-100 | `fin`, `req` and `touch` succeed exactly if they wrote their command, and change nothing when they raise; a processed message is the reason before a closed connection is |
| `WireLaws.ExecuteAnswers` | asyncnsq/tcp/connection.py:82-97 | `execute` succeeds exactly if it wrote the command, raises for the connection exactly if nothing changed, and for the encoding exactly if only a waiter was added |
| `WireLaws.CommandsAreWrittenInOrder` | asyncnsq/tcp/connection.py:82-97 | Over all runs, the commands written to be answered are exactly those executed on the open connection that could be encoded, in order; all of them but NOP, FIN, REQ, RDY and TOUCH have a future |
| `WireLaws.MessagesAreThoseDelivered` | asyncnsq/tcp/connection.py:361-379 | Over all runs there is one message object for each message frame, in order, with its id |
| `WireLaws.ClsIsWrittenOnce` | asyncnsq/tcp/connection.py:219-246 | Over all runs CLS is written at most once, when the user closes a connection that is not closed and can write; only answers to heartbeats come behind it |
| `ClosingLaws.ClsIsForTheUser` | asyncnsq/tcp/connection.py:163-165 | Told by the events alone: one CLS if the first close is the user's and the writer was not lost before, otherwise none |
| `ClosingLaws.FatalCodes` | asyncnsq/tcp/exceptions.py:107-125 | Byte by byte, every error code is fatal but the five of refused FIN, REQ and TOUCH |
| `ClosingLaws.OpenUntilACause` | asyncnsq/tcp/connection.py:319-360 | Over all runs a connection is open exactly as long as the user has not closed it and no malformed frame, fatal error or end of the stream has come |
| `ClosingLaws.ClosesForTheFirstReason` | asyncnsq/tcp/connection.py:219-241 | Over all runs a connection is closed exactly if the user has closed it or the loop has run after such a cause; and then every future that no reply reached has failed with the first reason, or was cancelled |
| `ClosingLaws.CallbackRunsAtTheClose` | asyncnsq/tcp/connection.py:234-236 | Over all runs the close callback runs once if the connection closes after it was installed, and otherwise never |
| `ConnectionLaws.DeliveryIsTrackedIff` | asyncnsq/tcp/message_tracker.py:7-8 | A delivery keeps all unprocessed objects in the ledger if and only if its id is not live |
| `ConnectionLaws.LedgerIsExact` | asyncnsq/tcp/message_tracker.py:7-14 | Over all runs with distinct live ids, the ledger of a connection that is not closed is exactly its unprocessed messages |
| `ConnectionLaws.RequeuedLeavesTheLedger` | asyncnsq/tcp/message_tracker.py:18-27 | Once the requeueing loop has met a message, it is processed, and of the ledger exactly the entry of its id is gone |
| `OrderedDict.PutKeepsOrder` | asyncnsq/tcp/message_tracker.py:7-8 | A message under a known id takes the place of the earlier one, and a new id comes last |
| `OrderedDict.PopKeepsOrder` | asyncnsq/tcp/message_tracker.py:10-11 | The other entries keep their order when one goes |
| `ConnectionLaws.RawFinKeepsConservationIff` | asyncnsq/tcp/connection.py:133-135 | A FIN past the message object keeps the counter right if and only if nothing is in flight or the connection refuses it |
| `Replies.RepliesSettleCommandsInOrderIff` | asyncnsq/tcp/connection.py:335-360 | Over all runs, the replies that arrive are all answers, in order, if and only if none arrives while nobody waits; then the i-th reply settles the i-th command that expects one, and heartbeats and messages settle none |
| `Replies.OwnRepliesIff` | asyncnsq/tcp/connection.py:349-357 | When nsqd answers written commands in order, every future is settled by the reply to its own command if and only if, while a command waits, no error arrives that answers a FIN, REQ or TOUCH, and no reply to a command behind one that was not encoded |
| `ConnectionLaws.FuturesMatchWrittenCommandsIff` | asyncnsq/tcp/connection.py:91-96 | Over all runs, future k is that of written command k for every k if and only if no `execute` raised on encoding |
| `Counterexamples.RefusedFinFailsAPub` | asyncnsq/tcp/connection.py:349-357 | The first condition is needed: nsqd refuses a FIN while a PUB waits, the PUB fails with that refusal, and its own reply settles nothing |
| `Counterexamples.UnencodableLeavesAWaiter` | asyncnsq/tcp/connection.py:91-96 | One PUB with a body of 2^31 bytes, and futures no longer match written commands |
| `Counterexamples.RawFinMiscounts` | asyncnsq/tcp/connection.py:133-135 | One delivery, one FIN past the message object: in_flight is 0 and one message is unprocessed |
| `ReadLoop.DrainedInTwo` | asyncnsq/tcp/connection.py:394-397 | Draining may be interrupted after any byte without changing where it ends, whatever is done with a frame, while no close runs in between |
| `ReadLoop.ReadingIsOneDrain` | asyncnsq/tcp/connection.py:294-309 | For every way to cut a stream, every choice of reads that wait, and every step done with a frame: the connection ends as if the bytes that the task takes had come at once and the close that is due had followed |
| `ReadLoop.TakenIsAPrefix` | asyncnsq/tcp/connection.py:225-233 | The task takes the whole stream, unless it stops where it waits with a close due |
| `ReadLoop.TakenUpToTheFirstStop` | asyncnsq/tcp/connection.py:294-309 | Exactly: it takes the reads up to the first at which it waits with a close due, and all of them if there is none |
| `ReadLoop.FramesOfOneDrain` | asyncnsq/tcp/connection.py:319-333 | Chunk after chunk, exactly the frames of the bytes that are taken are handed over, in order, with timestamp, attempts, id and body |
| `ReadLaws.ClosedIffPoisoned` | asyncnsq/tcp/connection.py:319-360 | For every way to cut a stream, an open connection ends closed if and only if the stream holds a malformed frame or a fatal error; when it holds none, the state and the unread bytes are those of the whole stream at once |
| `ReadLaws.DispatchClosesOnFatal` | asyncnsq/tcp/connection.py:349-360 | Of the frames that are dispatched, exactly the fatal errors schedule a close |
| `ReadLaws.DirectClosesOnFatal` | asyncnsq/tcp/reader.py:205-217 | That also holds when a handler is called inside the drain and settles its message there |
| `ReadLaws.DirectKeeps` | asyncnsq/tcp/reader.py:205-217 | Settling messages inside the drain keeps the counter, the ledger and the waiter queue right, for any frames and any outcomes |
| `ReadLaws.DirectIsARun` | asyncnsq/tcp/reader.py:205-217 | A frame for a direct handler is two steps of the machine: its arrival and the handler's outcome |
| `ReadLaws.ReadingIsARun` | asyncnsq/tcp/connection.py:294-333 | Every reading, however cut, is a run of the machine: the frames taken, the error that stopped them, and the loop; so all run laws hold of it |
| `ReadLaws.TwoReadingsAgreeIff` | asyncnsq/tcp/connection.py:294-309 | Two readings of one stream end in the same connection if and only if none of the frames that only the longer one takes has any effect: each is a reply that nobody waits for, and no heartbeat |
| `ReadLaws.ReadingsAreOrdered` | asyncnsq/tcp/connection.py:294-309 | Of two readings of one stream one takes a prefix of what the other takes, so the condition above decides every pair |
| `ReadLaws.TheCutDecides` | asyncnsq/tcp/connection.py:358-360 | The condition is needed: a fatal error and a message in one chunk deliver the message, in two chunks they do not |
| `Connection.MessageTracker.Add` | asyncnsq/tcp/message_tracker.py:7-8 | A second message under a live id replaces the first in its place; other entries and their order stay |
| `Connection.MessageTracker.Discard` | asyncnsq/tcp/message_tracker.py:10-11 | The entry of the message's id goes, whichever object holds it; a missing id is no error |
| `Connection.MessageTracker.RequeueUnprocessed` | asyncnsq/tcp/message_tracker.py:16-28 | The loop over the snapshot, on objects, is the requeueing of the ledger; the scheduler is signalled if and only if something was requeued, the callback is installed and a refill is due |
| `Connection.MessageTracker.RequeueOne` | asyncnsq/tcp/message_tracker.py:18-27 | A processed entry is dropped, an unprocessed one requeued, and only a successful REQ is counted and signals |
| `Connection.NsqMessage.Fin` | asyncnsq/tcp/messages.py:25-55 | Refused when processed or closed; otherwise one FIN, counter, mark, ledger entry and, when due, one signal |
| `Connection.NsqMessage.Req` | asyncnsq/tcp/messages.py:57-89 | The same for REQ and its timeout |
| `Connection.NsqMessage.Touch` | asyncnsq/tcp/messages.py:91-100 | Writes without settling, and is refused like `fin` |
| `Connection.NsqMessage.MarkProcessed` | asyncnsq/tcp/messages.py:51-54 | The mark and the removal from the ledger go together and touch nothing else |
| `Connection.TcpConnection.constructor` | asyncnsq/tcp/connection.py:46-77 | A connection starts open, with no credit, nothing in flight and nobody waiting |
| `Connection.TcpConnection.ExecuteNoResponse` | asyncnsq/tcp/connection.py:125-136 | Raises when closed and then writes nothing; RDY sets the credit, FIN and REQ count down and signal, others change no counter |
| `Connection.TcpConnection.NotifyRdyChanged` | asyncnsq/tcp/connection.py:384-392 | A signal exactly when the callback is installed, the connection open and a refill due |
| `Connection.TcpConnection.Execute` | asyncnsq/tcp/connection.py:82-97 | The waiter is queued before encoding, so it stays when encoding raises; nothing happens on a closed connection |
| `Connection.TcpConnection.Pub` | asyncnsq/tcp/connection.py:108-115 | The fast path does what `execute` of that PUB does |
| `Connection.TcpConnection.CancelFuture` | asyncnsq/tcp/connection.py:345-346 | A caller may cancel the future that it waits for, but not one that is settled |
| `Connection.TcpConnection.StopReceiving` | asyncnsq/tcp/connection.py:167-171 | RDY 0 on an open connection, without a signal; nothing on a closed one |
| `Connection.TcpConnection.RequeueInFlight` | asyncnsq/tcp/connection.py:173-177 | The ledger is requeued, counted and signalled for, or 0 on a closed connection |
| `Connection.TcpConnection.OnResponse` | asyncnsq/tcp/connection.py:335-348 | A heartbeat is answered by NOP and takes no waiter; another response takes the oldest one, or none |
| `Connection.TcpConnection.OnError` | asyncnsq/tcp/connection.py:349-360 | The oldest waiter fails with the error; a fatal or unknown code also starts the close |
| `Connection.TcpConnection.OnMessage` | asyncnsq/tcp/connection.py:361-379 | Counters and ledger gain the message; its object has the four fields of the frame; the queue gains it unless a handler takes it directly |
| `Connection.TcpConnection.ParseData` | asyncnsq/tcp/connection.py:319-370 | One frame is dispatched, a message frame with its four fields unchanged; a malformed one is fatal and stays unread |
| `Connection.TcpConnection.ReadBuffer` | asyncnsq/tcp/connection.py:394-397 | The loop ends, having dispatched every complete frame in order; each message frame became one object with its timestamp, attempts, id and body, and the queue grew by exactly those objects |
| `Connection.TcpConnection.ReadChunk` | asyncnsq/tcp/connection.py:308-309 | Feeding and draining on the objects is the drain of the unread bytes and the chunk; new objects have the fields of their frames |
| `Connection.TcpConnection.ReadData` | asyncnsq/tcp/connection.py:294-309 | The loop of the reader task on the objects, closes between two reads included, is the reading above; it creates one object for each message frame taken, with its fields, and queues them in order |
| `Connection.TcpConnection.NoticeEof` | asyncnsq/tcp/connection.py:151-157 | The end of the stream starts the close of an open connection, once |
| `Connection.TcpConnection.DoClose` | asyncnsq/tcp/connection.py:219-246 | CLS if asked and the writer is open, flags, credit, ledger, an installed callback once, every waiter failed; a second close does nothing |
| `Connection.TcpConnection.FailAll` | asyncnsq/tcp/connection.py:238-241 | The loop empties the waiters and fails those that are not done, leaving cancelled ones |
| `Connection.TcpConnection.Close` | asyncnsq/tcp/connection.py:163-165 | The close that a user asks for |
| `Connection.TcpConnection.RunScheduledClose` | asyncnsq/tcp/connection.py:358-360 | The close that a fatal error, a bad frame or the end of the stream left to the event loop, without CLS |
| `ClientSystem.StepFollows` | asyncnsq/tcp/connection.py:384-392 | Every step of connections and scheduler together is a run of the scheduler's machine, as far as open connections go |
| `ClientSystem.OpenCredit` | asyncnsq/tcp/connection.py:131-135 | On a connection that stays open, an event changes the credit by its delivery, its RDY 0 or its FINs and REQs, and by nothing else |
| `ClientSystem.UnfinishedMessagesAreBounded` | asyncnsq/tcp/reader_rdy.py:72-119 | Over every run of the whole client, unfinished messages of open connections plus the credit left at nsqd never exceed max_in_flight, nor a connection its target |
| `ClientSystem.JoinFollows` | asyncnsq/tcp/reader_rdy.py:29-31 | A connection that joins the client, or replaces one, does so in the scheduler's machine |
| `ClientSystem.NoConnectionStarves` | asyncnsq/tcp/reader_rdy.py:95-119 | Over every run of the whole client, connections joining included, in which RDY 0 meets the condition above, a targeted open connection has credit, an unfinished message, or a queued refill |
| `ClientObjects.Read` | asyncnsq/tcp/connection.py:308-309 | A chunk, on the objects, is a run of the client: one event for each frame, and one for the malformed one |
| `ClientObjects.Finish` | asyncnsq/tcp/messages.py:25-55 | `fin`, on the objects, is the client's step, its signal to the scheduler included |
| `ClientObjects.Requeue` | asyncnsq/tcp/messages.py:57-89 | `req`, on the objects, is the client's step, its signal included |
| `ClientObjects.Handle` | asyncnsq/tcp/reader.py:255-263 | A handler's outcome, on the objects, is the client's step, with a signal if and only if it settled the message and a refill is due |
| `ClientObjects.StopReceiving` | asyncnsq/tcp/connection.py:167-171 | RDY 0, on the objects, is the client's step and signals nothing |
| `ClientObjects.RequeueInFlight` | asyncnsq/tcp/connection.py:173-177 | Requeueing one ledger, on the objects, is the client's step, its signal included |
| `ClientObjects.Close` | asyncnsq/tcp/connection.py:163-165 | Closing one connection, on the objects, is the client's step |
| `Shutdown.QueuedRaisesIff` | asyncnsq/tcp/reader.py:395-411 | Requeueing the queue raises if and only if it holds an unprocessed message of a closed connection |
| `Counterexamples.QueuedOnAClosedConnectionRaises` | asyncnsq/tcp/reader.py:404-406 | One delivery, a close, and the message still queued: requeueing raises |
| `Shutdown.QueuedEffect` | asyncnsq/tcp/reader.py:395-411 | Without raising, it processes exactly the queued messages, writes no FIN, and takes from each ledger exactly the ids of unprocessed queued messages |
| `Shutdown.QueuedCount` | asyncnsq/tcp/reader.py:395-411 | The number it answers is the drop of the in-flight total |
| `Shutdown.ShutDownEffect` | asyncnsq/tcp/reader.py:440-454 | With connections open, shutdown processes exactly the messages that are queued, or tracked without a queued twin, and keeps every invariant |
| `Shutdown.ShutDownIsCompleteIff` | asyncnsq/tcp/reader.py:440-454 | Shutdown loses no message if and only if every unprocessed one is queued, or tracked without a queued twin |
| `Counterexamples.RedeliveryLosesAMessage` | asyncnsq/tcp/message_tracker.py:7-8 | An id delivered twice, both objects taken from the queue: shutdown requeues the second object and not the first |
| `Shutdown.ShutDownIsExact` | asyncnsq/tcp/reader.py:440-454 | With all messages tracked, one REQ for each unprocessed message, none for the others, and no FIN |
| `Shutdown.ShutDownCount` | asyncnsq/tcp/reader.py:440-454 | It does not raise, answers the in-flight total and empties the queue |
| `Shutdown.ShutDownCloses` | asyncnsq/tcp/reader.py:452-453 | Every connection ends closed, with an empty ledger and nobody waiting |
| `Shutdown.GracefulCloseRequeuesOnce` | asyncnsq/tcp/reader.py:440-454 | When no other task runs in between: after any life of the connections with distinct live ids, `graceful_close` of open connections writes one REQ for each unfinished message, queued or in user hands, none for any other |
| `Shutdown.GracefulCloseCounts` | asyncnsq/tcp/reader.py:440-454 | And then it answers exactly the number of unfinished messages, leaving the queue empty |
| `ShutdownWire.GracefulCloseWrites` | asyncnsq/tcp/reader.py:440-454 | And it writes, on each connection and in this order, RDY 0, then only REQs with the given timeout, then CLS if the writer is open, and nothing else |
| `ShutdownWire.CloseWithoutRequeueing` | asyncnsq/tcp/reader.py:440-454 | Without requeueing, RDY 0 and CLS are all that an open connection writes |
| `ShutdownWire.RaisesAtTheFirstStuck` | asyncnsq/tcp/reader.py:395-411 | When requeueing the queue raises, it has stopped at the first unprocessed message of a closed connection: those before it are processed, it is gone from the queue, those behind it are still queued, and no other message has changed |
| `ShutdownRuns.EveryMessageIsSettledOnce` | asyncnsq/tcp/reader.py:440-454 | In any interleaving of its pieces with other tasks that settle, touch, execute or take messages, on open connections without deliveries, every message ends with exactly one FIN or REQ, every connection closed with an empty ledger |
| `ShutdownRuns.AnswerAndOthersAreAll` | asyncnsq/tcp/reader.py:448-454 | In any such interleaving, the answer and the messages that other tasks settled are together the messages unfinished at the start |
| `ShutdownRuns.AnswerCountsOwnReqs` | asyncnsq/tcp/reader.py:448-454 | In every interleaving, with connections open or not, the answer is the number of REQs that the shutdown itself wrote |
| `ShutdownRuns.GracefulAfterAnyLife` | asyncnsq/tcp/reader.py:440-454 | All three after any life of the connections with distinct live ids |
| `ShutdownRuns.AtomicIsOneRun` | asyncnsq/tcp/reader.py:440-454 | The shutdown without other tasks is one of those interleavings |
| `ShutdownLosses.SettledIffOpenThen` | asyncnsq/tcp/reader.py:413-430 | Whatever other tasks and nsqd do afterwards, a message that is there when the requeueing of its connection runs ends with one FIN or REQ if and only if it has been settled or the connection is open then, and otherwise with none |
| `ShutdownLosses.WhatShutdownSettles` | asyncnsq/tcp/reader.py:440-454 | That after any life with distinct live ids, and with deliveries, settlements and lost connections between the pieces |
| `ShutdownLosses.LateMessagesAreLost` | asyncnsq/tcp/reader.py:448-453 | A message delivered after the requeueing of its connection, which no other task settles, ends without FIN and REQ |
| `Consumer.Reader.constructor` | asyncnsq/tcp/reader.py:87-111 | A consumer starts without connections, auto-FIN and auto-REQ on |
| `Consumer.Reader.Connect` | asyncnsq/tcp/reader.py:113-121 | A connection joins the consumer and its scheduler, or replaces the one of its address, with the callback installed; the state of the others and the queue stay, and every queued message still belongs to a connection |
| `Consumer.Reader.Read` | asyncnsq/tcp/connection.py:308-379 | A chunk changes the one connection by its drain, and the shared queue gains exactly that connection's new messages, in order |
| `Consumer.Reader.FinishHandledMessage` | asyncnsq/tcp/reader.py:219-221 | The auto-FIN, which may raise on a closed connection, and its signal |
| `Consumer.Reader.RequeueFailedHandlerMessage` | asyncnsq/tcp/reader.py:223-228 | The auto-REQ of a failed handler and its signal; its own failure is swallowed |
| `Consumer.Reader.HandleMessage` | asyncnsq/tcp/reader.py:255-263 | A handler's outcome is the machine's handler step, a raising auto-FIN counting as a failed handler, with a signal exactly when something was settled and a refill is due |
| `Consumer.Reader.StopOne` | asyncnsq/tcp/reader.py:383-391 | The first piece of shutdown, on the objects: RDY 0 on one connection, the others and the queue untouched |
| `Consumer.Reader.RequeueOne` | asyncnsq/tcp/reader.py:416-420 | The third piece, on the objects: one ledger is requeued and counted, and the scheduler signalled |
| `Consumer.Reader.ServeNext` | asyncnsq/tcp/reader.py:398-410 | One turn of the queue loop: skip, requeue or raise, with the message taken off in each case |
| `Consumer.Reader.RequeueQueuedMessages` | asyncnsq/tcp/reader.py:395-411 | The loop on shared objects is the requeueing of the queue, its number and its exception included |
| `Consumer.Reader.StopReceiving` | asyncnsq/tcp/reader.py:380-393 | RDY 0 on each open connection, in whatever order they are visited |
| `Consumer.Reader.RequeueInFlight` | asyncnsq/tcp/reader.py:413-430 | Every ledger is requeued, and the answer is the sum over the connections |
| `Consumer.Reader.CloseConnections` | asyncnsq/tcp/reader.py:452-453 | Every connection is closed |
| `Consumer.Reader.GracefulClose` | asyncnsq/tcp/reader.py:440-454 | Without other tasks in between, the scheduler is stopped, RDY 0 sent, the flags set, and then state, count and exception are those of the shutdown that the laws are about |

## Left out

- ClientSystem.UnfinishedMessagesAreBounded: connections are not added during the run, and nsqd delivers within credit or target; `RdyScheduler.JoiningAddsItsTarget` is the exact condition for an addition.
- Connection.NsqMessage.Fin: the wire carries the message id and the timeout in decimal; the model records the number of the message object and the integer.
- Connection.TcpConnection.Execute: the `cb` of a waiter is not modelled, nor the TypeError for a None argument.
- RdyControl.RdyControl.AddConnection: a known id is replaced only while no gathered call waits for it, since the code's call would still hold the earlier object.
- Consumer.Reader.Connect: for the same reason, and only while no message of the earlier connection is queued, since those would belong to a connection that the consumer has lost; so two lookups that race for one address after messages came are left out.
- Consumer.Reader.GracefulClose: one method without other tasks in between; `ShutdownRuns` has the interleavings, and each of its pieces is a method of its own.
- ShutdownRuns.EveryMessageIsSettledOnce: other tasks close no connection and nsqd delivers nothing meanwhile; without these conditions `ShutdownLosses.WhatShutdownSettles` says which messages are settled, and the count that shutdown answers is `ShutdownRuns.AnswerCountsOwnReqs`.
- Connection.TcpConnection.NoticeEof: `closed` and the reader task both notice the end of the stream; one event stands for whichever comes first.
- Connection.TcpConnection.RunScheduledClose: of several scheduled closes only the first is kept, since the later ones find the connection closed.
- Consumer.Reader.RequeueInFlight: no call it gathers can raise on a single thread of synchronous steps, so the branch that logs an exception is absent.
- Asyncio futures are numbered entries of a table, message objects are numbered per connection, and connection ids are integers in the order of the endpoint texts.
- `RdyControl` keeps its queue, its marks and its flag in an object of their own, which the connections hold for their callback.
- A gather of coroutines is a set of jobs that run in any order, one per step, and that close cancels.
- Inputs are bytes already; conversions of text and numbers, and the unlimited decimal text of a timeout, are not modelled.
- Connection.TcpConnection.ReadBuffer: a handler that is called directly, inside the drain, is not called by this method; `ReadLaws.Direct` has it as a step on values.
- `remove_connection` and `remove_all` appear only in `RdyWakes.RemovalBreaksCoalescing`; library code does not call them.
- TLS, snappy and deflate, `identify`, `auth` and the upgrade hand-off: foreign codecs behind the same parser interface.
- `TcpConnection.graceful_close`: the one-connection case of the consumer's shutdown, built from the same three calls.
- Handler workers, semaphores and task sets: their effect on a message is the handler event, and a cancelled worker is one that never comes.
- `wait_handler_tasks`, the `messages` and `wait_messages` generators, lookupd polling, `Writer`, the HTTP clients, timeouts and logging.
