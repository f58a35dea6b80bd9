# Verified model of an asynchronous TCP client

A Dafny 4.11 model of ESPAsyncTCP: the client that sits on lwIP, the buffer that
applications use on top of it, the tracker that decides what callbacks answer to
lwIP, and the TLS glue between lwIP and BearSSL.

Each component has three layers.

* A specification over values: the state is a datatype, each operation a function,
  and whatever the code asks of its surroundings (answers of lwIP, heap tests, clock
  readings, the engine's offers, the calls a handler makes) is an input. A statement
  about all inputs is therefore a statement about every lwIP and every application.
* Theorems about whole runs of that specification.
* A class that works as the source does, on fields, arrays and linked nodes, each of
  whose methods is proved to make exactly the transition the specification gives.

| Files | Source | About |
|---|---|---|
| `Words`, `ErrorTracker` | `src/ESPAsyncTCPErrorTracker.cpp` | 32-bit clock arithmetic; the close-error tracker |
| `ClientSpec`, `ClientProofs`, `ClientRuns`, `ClientHandlers`, `ClientAnswers`, `ClientLate`, `ClientNotices`, `ClientCalls`, `ClientLedger`, `ClientClock`, `AsyncClient` | `src/ESPAsyncTCPClient.cpp` | life cycle, ERR_ABRT, which handlers run, what each call achieves, counters, credits, timeouts |
| `Cbuf`, `Transmit`, `TransmitRuns`, `TransmitWrite`, `TransmitEnding`, `TransmitBuffer` | `src/ESPAsyncTCPBuffer.cpp` | the chain of transmit buffers |
| `Receive`, `ReceiveRuns`, `ReceiveInduction`, `ReceivePieces`, `ReceiveOffers`, `ReceiveSegments`, `ReceiveParser`, `ReceiveRearming`, `ReceiveZeroReads`, `ReceiveBuffer` | `src/ESPAsyncTCPBuffer.cpp` | the receive parser that callbacks re-arm |
| `TlsAccumulator`, `TlsConnection`, `TlsPump`, `TlsEngine`, `TlsConnections` | `src/tcp_bearssl.cpp` | record accumulator, engine pump, connection list |

## How to read the statements

* A handler of the application is a finite list of client calls (`Program`), of buffer
  calls (`Answer`), or of TLS writes. It is not restricted further, so it may close,
  abort, send, re-arm or pump again from inside any callback. A handler that is not set
  is one that makes no calls. Callbacks do not delete the objects.
* `ClientSpec.Allowed` is all that is asked of lwIP: it calls back only through the
  callbacks registered at that moment, acknowledges only what was queued, and passes
  the pcb it registered. `tcp_abort` reports ERR_ABRT through an error callback that
  is still registered, as lwIP does.
* `ClientRuns.RunKeepsLifeCycle` says that every reachable client is dialing, healthy or
  torn down in one of four ways; `Healthy` is the live connection that several
  statements start from.
* A client is modelled from construction to the end of its first connection. Counters
  and tracker are not reset by the source when a client connects again.
* The plain build is modelled for the client (ASYNC_TCP_SSL_ENABLED 0, the default).

## Where the code is not what one would expect

Each of these is proved about the code as it is.

* The comment at `src/ESPAsyncTCPClient.cpp:209-214` says that one callback returns
  ERR_ABRT after an `abort()`. That holds only for the abort inside `_close`: the own
  `abort()` of any handler makes its callback return ERR_OK
  (`ClientAnswers.DirectAbortAnswersOk`), because lwIP reports the abort first. A callback
  answers ERR_ABRT if and only if `tcp_close` fails and the callback closes: by a
  deferred close, a receive timeout, the NULL pbuf, or a handler whose first call that
  gives up the pcb is `close(true)` (`ClientAnswers.AnswerForeseen`, on the state before
  the callback).
* `_recv` goes on through its chain after a handler has given up the pcb, so the data
  handler can run behind the disconnect handler (`ClientLate.DataAfterDisconnect`). Over
  a run what runs there is exactly the data handler of each pbuf that follows, in its
  chain, one whose handler aborted or closed at once (`ClientLate.LateExactly`); nothing
  does if and only if in every chain only the last handler gives up the pcb
  (`ClientLate.DisconnectLast`).
* `send()` and `ack()` do not test `_pcb`; after a teardown they pass NULL to lwIP
  (`ClientRuns.CallsOnNullPcb`). Such calls are recorded as not `live`.
* The end of `_recv` credits a pbuf to a pcb already given up if and only if this pbuf's
  handler or an earlier one of the chain aborted or closed at once and this one does not
  withhold it (`ClientHandlers.RecvEventStrays`, `ClientHandlers.StraysExactly`).
* `close()` credits the withheld bytes without resetting `_rx_ack_len`, so a second
  `close()` credits them again. The window is exact if and only if no `close()` found
  bytes withheld (`ClientLedger.WindowBalance`, `ClientLedger.CloseSettlesOnce`).
* `write()` returns 0 when `tcp_output` fails although `tcp_write` has queued the bytes,
  so the buffer offers them again. The stream is exact if and only if that never
  happens (`TransmitRuns.ExactlyOnceInOrder`, `TransmitRuns.OutputFailureRepeats`).
* Re-arming reads do not depend on how TCP cut the stream, as long as every read asks for
  at least one byte and has a destination and a done callback, no done callback stops or
  goes over to the data callback, and what was buffered when the stream began does not
  finish the armed read (`ReceiveParser.RearmingCutsAgree`). When it does finish it they
  may: a reader of single bytes is independent of the cuts if and only if nothing was
  buffered or at most one re-arming is to come (`ReceiveRearming.OneByteCutsAgree`).
* A read of no bytes, which `readBytes` accepts, is answered once for every call of the
  parser. Re-armed from its own done callback it is independent of the cuts if and only
  if at most one re-arming is to come (`ReceiveZeroReads.ZeroReadsSpin`,
  `ReceiveZeroReads.ZeroReadsCutsAgree`), even if the read before it asked for a byte and
  nothing was buffered (`ReceiveZeroReads.ZeroReadsSeeSegments`).
* A read armed from inside the data callback is passed over by the segment in hand if and
  only if that callback was offered buffered bytes, claimed them all, did not stop, and
  claims some of the segment as well (`ReceiveRearming.SegmentPassesNewRead`).
* The loop of `_sendBuffer` need not end: with `tcp_write` refused while there is space it
  goes round for ever. It ends if and only if some turn goes well or finds no memory, or
  failed outputs use up the send buffer (`TransmitEnding.EndsExactly`,
  `TransmitEnding.RefusedForEver`).
* A TLS segment that arrives while bytes are carried over is put in front of them. The
  order is kept if and only if that never happens
  (`TlsAccumulator.InOrderIffNoCarryOver`, `TlsAccumulator.CarryOverOvertakes`).
* The TLS pump does not look at what `tcp_write` answers. TCP gets exactly the records
  the engine made if and only if it never fails (`TlsPump.RecordsReachTcp`).

## Model

| member | source | states |
|---|---|---|
| `ErrorTracker.SilentAfterError` | src/ESPAsyncTCPErrorTracker.cpp:88-103 | once an error event is recorded every later answer is ERR_OK, whatever is set meanwhile |
| `ErrorTracker.AbortAnsweredOnce` | src/ESPAsyncTCPErrorTracker.cpp:94-103 | in any run of tracker operations ERR_ABRT is answered at most once and only ERR_OK follows it |
| `ErrorTracker.ACErrorTracker.SetCloseError` | src/ESPAsyncTCPErrorTracker.cpp:77-82 | the object's new state: the close error is replaced only while no error event is recorded |
| `ErrorTracker.ACErrorTracker.SetErrored` | src/ESPAsyncTCPErrorTracker.cpp:88-93 | the object's new state: the first error event stays |
| `ErrorTracker.ACErrorTracker.GetCallbackCloseError` | src/ESPAsyncTCPErrorTracker.cpp:99-103 | the answer and the new state, which consumes an ERR_ABRT |
| `Words.ElapsedSurvivesWrap` | src/ESPAsyncTCPClient.cpp:563-569 | the 32-bit difference of two clock readings is the true elapsed time below 2^32, across any wrap |
| `ClientProofs.KeptRun` | src/ESPAsyncTCPClient.cpp:208-305 | any calls any handler makes keep the window balance, the ack counters and the answers, never clear the busy or the deferred-close flag, and only extend what is queued |
| `ClientProofs.AbortEnds` | src/ESPAsyncTCPClient.cpp:208-227 | aborting a live connection issues one tcp_abort, runs the disconnect handler once, and leaves it torn down by user abort |
| `ClientProofs.CloseEnds` | src/ESPAsyncTCPClient.cpp:381-409 | closing a live connection issues tcp_close, then tcp_abort exactly if that failed, and runs the disconnect handler once |
| `ClientProofs.DeadRun` | src/ESPAsyncTCPClient.cpp:208-305 | a handler running after the pcb is gone changes nothing but local fields and stray calls, and causes no notice |
| `ClientProofs.HealthyRun` | src/ESPAsyncTCPClient.cpp:208-305 | any handler leaves a live connection live or torn down in exactly one way |
| `ClientRuns.StepKeepsLifeCycle` | src/ESPAsyncTCPClient.cpp:309-648 | every event keeps the client dialing, healthy, or torn down with the call log that goes with the way it ended |
| `ClientRuns.RunKeepsLifeCycle` | src/ESPAsyncTCPClient.cpp:309-648 | the same over whole runs |
| `ClientRuns.TeardownOnce` | src/ESPAsyncTCPClient.cpp:208-237 | over every run the disconnect handler runs exactly once when the connection ends and never before; tcp_close and tcp_abort are issued at most once, at the very end of the calls on the pcb |
| `ClientRuns.AfterTeardown` | src/ESPAsyncTCPClient.cpp:381-426 | no event after the one that ended the connection runs a handler or queues anything, and lwIP is reached only through stray calls; the rest of that one event is the subject of `ClientLate` |
| `ClientRuns.CallsOnNullPcb` | src/ESPAsyncTCPClient.cpp:208-305 | with the pcb cleared a call reaches lwIP if and only if it is a send, or an ack with something to credit |
| `ClientRuns.AbortAnsweredExactly` | src/ESPAsyncTCPClient.cpp:614-648 | each callback gives one answer, ERR_ABRT if and only if it ended the connection by a failed tcp_close |
| `ClientRuns.AbortAnsweredLast` | src/ESPAsyncTCPErrorTracker.cpp:94-103 | over every run at most one callback returns ERR_ABRT, after a failed close, and it is the last one to answer |
| `ClientAnswers.AnswerForeseen` | src/ESPAsyncTCPClient.cpp:614-648 | a callback answers ERR_ABRT if and only if tcp_close fails and the callback closes, decided on the state before it: by its deferred close, a receive timeout, the NULL pbuf, or the first handler it runs that gives up the pcb |
| `ClientAnswers.HandlerAnswers` | src/ESPAsyncTCPClient.cpp:208-237 | a handler leaves ERR_ABRT to be answered if and only if tcp_close fails and its first call that gives up the pcb is close(true) |
| `ClientAnswers.ChainAnswers` | src/ESPAsyncTCPClient.cpp:510-545 | a chain does if and only if tcp_close fails and the first of its handlers that gives up the pcb does so by close(true) |
| `ClientAnswers.DirectAbortAnswersOk` | src/ESPAsyncTCPClient.cpp:208-227 | a handler of any callback, of any pbuf reached with the pcb owned, whose first call to give up the connection is an abort makes that callback answer ERR_OK although tcp_abort was issued |
| `ClientLate.ReceiveAllAdds` | src/ESPAsyncTCPClient.cpp:510-545 | after a chain the handler calls behind the disconnect handler have grown by exactly the data handlers of the pbufs reached with the pcb given up |
| `ClientLate.LateExactly` | src/ESPAsyncTCPClient.cpp:510-545 | over every run of a fresh client what runs behind the disconnect handler is exactly the data handler of each pbuf that follows, in its chain, one whose handler aborted or closed at once |
| `ClientLate.DisconnectLast` | src/ESPAsyncTCPClient.cpp:510-545 | nothing runs there if and only if in every chain of the run no handler but the last gives up the pcb |
| `ClientLate.DataAfterDisconnect` | src/ESPAsyncTCPClient.cpp:510-545 | the smallest case: two pbufs, the first of whose handlers aborts |
| `ClientHandlers.HandlerKeepsPcb` | src/ESPAsyncTCPClient.cpp:208-237 | a handler leaves the client its pcb if and only if it neither aborts nor closes at once |
| `ClientHandlers.HandlerWithholds` | src/ESPAsyncTCPClient.cpp:523-542 | the pbuf of a handler is still to be credited if and only if neither it nor a handler it sets off calls ackLater |
| `ClientHandlers.ReceiveCredits` | src/ESPAsyncTCPClient.cpp:523-542 | what one pbuf credits, exactly: its whole length unless it is withheld, on a live pcb or on one given up |
| `ClientHandlers.LiveCreditsExactly` | src/ESPAsyncTCPClient.cpp:510-545 | a chain credits the window of a live connection with exactly the lengths, in order, of the pbufs whose handler keeps the pcb and does not withhold |
| `ClientHandlers.WithheldExactly` | src/ESPAsyncTCPClient.cpp:533-542 | when no handler acks, the bytes left to be acked grow by exactly those of the withheld pbufs |
| `ClientHandlers.RecvEventStrays` | src/ESPAsyncTCPClient.cpp:510-545 | the credits a received chain makes to a pcb given up are exactly those its handlers predict |
| `ClientHandlers.StraysExactly` | src/ESPAsyncTCPClient.cpp:510-545 | there is one if and only if some handler gave up the pcb and it or a later one does not withhold its pbuf |
| `ClientNotices.HandlersForeseen` | src/ESPAsyncTCPClient.cpp:309-648 | every event of a reachable client runs exactly the handlers, in the order and with the arguments, that the state before it and the programs of its handlers give |
| `ClientNotices.HandlerRuns` | src/ESPAsyncTCPClient.cpp:208-237 | a handler on a live connection sets off nothing, or the disconnect handler after a close, or the error and the disconnect handler after an abort |
| `ClientCalls.AddQueuesWhatFits` | src/ESPAsyncTCPClient.cpp:251-282 | add queues all of the data or enough to fill the send buffer, from the front, and counts and reports what it queued; nothing without a connection, room or data, or if refused |
| `ClientCalls.WriteReportsSent` | src/ESPAsyncTCPClient.cpp:240-297 | write reports what it queued if it could also be sent, and only then makes the client busy |
| `ClientCalls.AckCreditsWhatItCan` | src/ESPAsyncTCPClient.cpp:300-305 | ack credits all that is asked or all that is withheld, in one call |
| `ClientCalls.SpaceIsFree` | src/ESPAsyncTCPClient.cpp:801-815 | free space and outstanding bytes together are the send buffer of a connection |
| `ClientRuns.BookedSent` | src/ESPAsyncTCPClient.cpp:429-449 | an ack runs the ack handler exactly when the counter reaches zero, reports everything acked since the last report, and resets the count even if the handler queues more |
| `ClientLedger.TransmitAccounting` | src/ESPAsyncTCPClient.cpp:251-282 | at every reachable state, connected or not, the unacked counter is bytes queued minus bytes acked, and reports plus the saved-up count are the bytes acked |
| `ClientLedger.AckHandlerExactly` | src/ESPAsyncTCPClient.cpp:429-449 | the ack handler runs precisely on the ack that leaves nothing outstanding, even when it queues more |
| `ClientLedger.BusyUntilReleased` | src/ESPAsyncTCPClient.cpp:562-567 | the busy flag is cleared by nothing but a full ack, the ack timeout or a connect |
| `ClientLedger.WindowBalance` | src/ESPAsyncTCPClient.cpp:510-545 | credited plus withheld bytes equal processed bytes plus what close gave away; exact if and only if close never found bytes withheld |
| `ClientLedger.CloseSettlesOnce` | src/ESPAsyncTCPClient.cpp:229-237 | after any run the first deferred close credits everything processed, and a second one credits the withheld bytes again |
| `ClientLedger.CloseNowSettles` | src/ESPAsyncTCPClient.cpp:229-237 | an immediate close does too, and afterwards credited is processed if and only if the disconnect handler acks nothing |
| `ClientLedger.RxTimeoutIsTrueTime` | src/ESPAsyncTCPClient.cpp:568-573 | the receive timeout fires if and only if the true elapsed time has reached it, across the wrap of the clock |
| `ClientLedger.SilentConnectionCloses` | src/ESPAsyncTCPClient.cpp:549-585 | a silent connection is closed by the second poll after its deadline even if an ack timeout pre-empts the first, whatever silent calls come between |
| `ClientLedger.CloseAskedIsCarriedOut` | src/ESPAsyncTCPClient.cpp:229-237 | a close asked for at any time, even before the connection is made, is carried out by the next poll that reaches it |
| `ClientClock.AckTimeoutIsTrueTime` | src/ESPAsyncTCPClient.cpp:560-567 | a poll without a deferred close ends in the timeout handler, told the true time since the last output, if and only if the client is busy, has an ack timeout, and that time has passed, across the wrap of the clock |
| `ClientClock.PollInTrueTime` | src/ESPAsyncTCPClient.cpp:549-586 | what a poll does in every case, decided by true time: deferred close, then ack timeout, then receive timeout, then the poll handler |
| `ClientClock.AckReportsTrueTime` | src/ESPAsyncTCPClient.cpp:440-449 | the ack handler is told the true time since the last output |
| `ClientClock.ZeroNeverTimesOut` | src/ESPAsyncTCPClient.cpp:562-573 | a timeout set to zero never fires |
| `ClientClock.StampsMeanTime` | src/ESPAsyncTCPClient.cpp:429-487 | over every run the two stamps are the times of the last successful tcp_output and of the last packet, whatever handlers do |
| `ClientLedger.DeferredCloseCarriedOut` | src/ESPAsyncTCPClient.cpp:553-559 | a deferred close is carried out by the next poll whatever comes between |
| `AsyncClientObject.AsyncClient.constructor` | src/ESPAsyncTCPClient.cpp:12-77 | a fresh client around an accepted pcb, stamped with the time, or connecting |
| `AsyncClientObject.AsyncClient.Add` | src/ESPAsyncTCPClient.cpp:251-282 | new state and result: at most the free space is queued, counted only if tcp_write takes it |
| `AsyncClientObject.AsyncClient.Send` | src/ESPAsyncTCPClient.cpp:284-298 | new state and result: busy and stamped exactly if tcp_output succeeds |
| `AsyncClientObject.AsyncClient.Write` | src/ESPAsyncTCPClient.cpp:244-249 | new state and result of add followed by send |
| `AsyncClientObject.AsyncClient.Ack` | src/ESPAsyncTCPClient.cpp:300-305 | new state and result: credits at most what is withheld |
| `AsyncClientObject.AsyncClient.Abort` | src/ESPAsyncTCPClient.cpp:221-227 | new state of abort, including the error callback it triggers |
| `AsyncClientObject.AsyncClient.CloseConnection` | src/ESPAsyncTCPClient.cpp:381-409 | new state of `_close`, including the abort after a failed tcp_close |
| `AsyncClientObject.AsyncClient.Close` | src/ESPAsyncTCPClient.cpp:229-237 | new state of close, immediate or deferred |
| `AsyncClientObject.AsyncClient.Error` | src/ESPAsyncTCPClient.cpp:411-426 | new state of `_error`: pcb cleared, error handler, then disconnect handler |
| `AsyncClientObject.AsyncClient.OnLwipError` | src/ESPAsyncTCPClient.cpp:628-634 | new state of the error trampoline |
| `AsyncClientObject.AsyncClient.OnConnected` | src/ESPAsyncTCPClient.cpp:643-648 | new state and answer of the connect trampoline |
| `AsyncClientObject.AsyncClient.OnSent` | src/ESPAsyncTCPClient.cpp:636-641 | new state and answer of the sent trampoline |
| `AsyncClientObject.AsyncClient.DeliverChain` | src/ESPAsyncTCPClient.cpp:510-546 | the loop over a pbuf chain of any length delivers and credits each pbuf in order |
| `AsyncClientObject.AsyncClient.OnRecv` | src/ESPAsyncTCPClient.cpp:621-626 | new state and answer of the recv trampoline |
| `AsyncClientObject.AsyncClient.PollChecks` | src/ESPAsyncTCPClient.cpp:549-585 | which of deferred close, ack timeout, receive timeout and poll handler applies, in this order |
| `AsyncClientObject.AsyncClient.OnPoll` | src/ESPAsyncTCPClient.cpp:614-619 | new state and answer of the poll trampoline |
| `AsyncClientObject.AsyncClient.Handle` | src/ESPAsyncTCPClient.cpp:604-648 | every event takes the object exactly as the transition system says, so the theorems on runs hold of it |
| `Transmit.EmptyTestsAgree` | src/ESPAsyncTCPBuffer.cpp:280-331 | an empty head and an empty tail are each equivalent to nothing pending |
| `Transmit.SendKeepsShape` | src/ESPAsyncTCPBuffer.cpp:329-376 | sending keeps the chain shape: no empty node but a sole one, interior nodes full |
| `Transmit.WriteKeepsShape` | src/ESPAsyncTCPBuffer.cpp:98-137 | so does writing, over any faults and refusals of memory |
| `TransmitWrite.WriteTakesAll` | src/ESPAsyncTCPBuffer.cpp:98-137 | with a connection, busy or not, write takes everything if no memory test fails |
| `TransmitWrite.WriteAnswers` | src/ESPAsyncTCPBuffer.cpp:98-137 | with a connection the bytes reported are those that joined the stream, and they are all unless memory was refused behind a tail that is full |
| `TransmitWrite.WriteAnswersZero` | src/ESPAsyncTCPBuffer.cpp:98-117 | the answer is 0 if and only if there is no connection or no data, or the tail is full, sending leaves it full and the first memory test is refused |
| `TransmitWrite.BusyWriteAppends` | src/ESPAsyncTCPBuffer.cpp:103-133 | a write to a busy client stores behind what is pending exactly what the tail and the nodes it may add hold |
| `TransmitWrite.PumpHandsOver` | src/ESPAsyncTCPBuffer.cpp:329-376 | an undisturbed pump hands over as much of the head as fits, if and only if there is a connection with room, something pending and the client not busy |
| `Transmit.TakesAllUnlessRefused` | src/ESPAsyncTCPBuffer.cpp:111-135 | write takes everything unless the heap test before a new node fails |
| `Transmit.SendExtends` | src/ESPAsyncTCPBuffer.cpp:336-374 | sending neither loses, reorders nor repeats bytes while no tcp_output fails, and repeats at least one per failure |
| `Transmit.WriteExtends` | src/ESPAsyncTCPBuffer.cpp:98-137 | write adds to the stream exactly the prefix it reports |
| `TransmitRuns.ExactlyOnceInOrder` | src/ESPAsyncTCPBuffer.cpp:98-137 | over every interleaving, bytes handed to TCP then bytes pending are the bytes accepted, if and only if no tcp_output failed |
| `TransmitRuns.OutputFailureRepeats` | src/ESPAsyncTCPClient.cpp:244-249 | what a failed tcp_output does to the stream |
| `TransmitRuns.TransferSetsBusy` | src/ESPAsyncTCPBuffer.cpp:353-363 | data leaves the chain only by a write that makes the client busy |
| `TransmitRuns.BusyWriteStores` | src/ESPAsyncTCPBuffer.cpp:103-133 | while the client is busy, write leaves it alone |
| `TransmitRuns.StopAndWait` | src/ESPAsyncTCPClient.h:90 | after a transfer the buffer hands over nothing more, through any run, until everything is acked or the ack timeout fires |
| `TransmitRuns.PumpIsProgram` | src/ESPAsyncTCPBuffer.cpp:329-376 | sending acts on the client only through its calls, so an attached buffer is one of the handlers the client theorems cover |
| `TransmitRuns.AcknowledgedIsClientEvent` | src/ESPAsyncTCPBuffer.cpp:288-294 | an ack reaching a client with its buffer attached is one client event |
| `TransmitRuns.RoundProgresses` | src/ESPAsyncTCPBuffer.cpp:336-374 | each ack of everything outstanding hands over at least one more pending byte |
| `TransmitRuns.Drains` | src/ESPAsyncTCPBuffer.cpp:336-374 | once something is outstanding, everything pending is handed over within as many acks as there are bytes |
| `TransmitRuns.DrainsFromPoll` | src/ESPAsyncTCPBuffer.cpp:277-286 | with nothing outstanding and the client free, the next poll starts this |
| `TransmitRuns.PolledIsClientEvent` | src/ESPAsyncTCPBuffer.cpp:277-286 | such a poll is one client event whose handler makes the calls the buffer makes |
| `TransmitRuns.PollIsClientEvent` | src/ESPAsyncTCPBuffer.cpp:277-321 | whichever handler it reaches, a poll of a client with its buffer is one client event with the calls of that handler, and the buffer lets go of the client exactly if it closes |
| `TransmitRuns.TimeoutDefersClose` | src/ESPAsyncTCPBuffer.cpp:316-320 | an ack timeout, in true time, makes the buffer ask for a close |
| `TransmitRuns.PollExtends` | src/ESPAsyncTCPBuffer.cpp:277-321 | a poll reaching a client with its buffer attached, whichever handler it ends in, only moves the stream on |
| `TransmitEnding.EndsExactly` | src/ESPAsyncTCPBuffer.cpp:336-374 | over an endless source of faults the send loop ends if and only if it does not start, or some turn goes well or finds no memory, or failed outputs use up the space |
| `TransmitEnding.RefusedForEver` | src/ESPAsyncTCPBuffer.cpp:336-374 | it does not end while tcp_write is refused for ever |
| `TransmitEnding.EndingIsSendLoop` | src/ESPAsyncTCPBuffer.cpp:336-374 | a loop that ends is the loop of the specification on the faults it has met |
| `TransmitBufferObject.TransmitBuffer.constructor` | src/ESPAsyncTCPBuffer.cpp:27-47 | a chain of one empty node of one segment's size |
| `TransmitBufferObject.TransmitBuffer.RemoveSent` | src/ESPAsyncTCPBuffer.cpp:362-371 | what was sent leaves the head, and a drained head with a successor is unlinked |
| `TransmitBufferObject.TransmitBuffer.SendBuffer` | src/ESPAsyncTCPBuffer.cpp:329-376 | the linked chain and the client after sending are those of the specification, and the chain is settled |
| `TransmitBufferObject.TransmitBuffer.AddNode` | src/ESPAsyncTCPBuffer.cpp:119-131 | an empty node joins the tail and all else stays |
| `TransmitBufferObject.TransmitBuffer.WriteTurn` | src/ESPAsyncTCPBuffer.cpp:104-133 | one pass, with the lexicographic measure on which write terminates |
| `TransmitBufferObject.TransmitBuffer.Write` | src/ESPAsyncTCPBuffer.cpp:98-137 | the linked chain, the client and the count reported are those of the specification |
| `TransmitBufferObject.TransmitBuffer.PollHandler` | src/ESPAsyncTCPBuffer.cpp:277-286 | testing the head first makes no difference to the outcome |
| `TransmitBufferObject.TransmitBuffer.OnAck` | src/ESPAsyncTCPBuffer.cpp:288-294 | an ack event of the client whose handler is the buffer |
| `TransmitBufferObject.TransmitBuffer.OnPoll` | src/ESPAsyncTCPBuffer.cpp:277-321 | a poll event of the client whose poll, timeout and disconnect handlers are the buffer's |
| `TransmitBufferObject.TransmitBuffer.Flush` | src/ESPAsyncTCPBuffer.cpp:142-151 | returns only with nothing pending or the connection gone, and only moves the stream on |
| `Receive.ScanIs` | src/ESPAsyncTCPBuffer.cpp:519-544 | the position of the first terminator or zero byte is the only one with no end before it |
| `ReceiveRuns.CallsKeep` | src/ESPAsyncTCPBuffer.cpp:153-259 | whatever calls a callback makes, the stream is untouched and the log of completions stays in order |
| `ReceiveRuns.CompleteKeeps` | src/ESPAsyncTCPBuffer.cpp:501-504 | a completion logs its arming once, whatever its callback re-arms or stops |
| `ReceiveRuns.HandleAnyKeeps` | src/ESPAsyncTCPBuffer.cpp:444-550 | one call of the parser, in any mode, conserves bytes and order and keeps the log |
| `ReceiveRuns.StepKeeps` | src/ESPAsyncTCPBuffer.cpp:383-439 | so does a whole segment, and any other event |
| `ReceiveRuns.ReceivedInOrder` | src/ESPAsyncTCPBuffer.cpp:383-550 | over every run, bytes consumed then bytes buffered are the bytes received, if and only if none was dropped for want of room |
| `ReceiveRuns.NothingLostIfGrown` | src/ESPAsyncTCPBuffer.cpp:411-424 | none is dropped when growth is granted |
| `ReceiveRuns.CompletedAtMostOnce` | src/ESPAsyncTCPBuffer.cpp:157-259 | each arming is answered at most once; answers come from consecutive stretches of the stream; a failure is the last answer |
| `ReceiveRuns.EachCompletionSound` | src/ESPAsyncTCPBuffer.cpp:157-259 | every answer, a sole one included, delivered exactly what was asked for, and is a failure only once the client is let go |
| `ReceiveRuns.NoAnswerWithoutClient` | src/ESPAsyncTCPBuffer.cpp:238-308 | once the client is gone no read is answered any more, so one armed when the connection was lost never is |
| `ReceiveInduction.RunKept` | src/ESPAsyncTCPBuffer.cpp:153-550 | an induction principle: what the elementary changes keep (a read armed, disarmed, answered or served, a claim of a data callback) every run keeps |
| `ReceivePieces.ConsumedIsPieces` | src/ESPAsyncTCPBuffer.cpp:383-550 | over every run what was consumed is, in order, the claims of data callbacks, each a prefix of what it was offered, and one stretch for each read that was served |
| `ReceivePieces.AnswersGotTheirs` | src/ESPAsyncTCPBuffer.cpp:477-547 | the stretch an answer tells of was given to that read |
| `ReceiveOffers.FreeOffersSegment` | src/ESPAsyncTCPBuffer.cpp:456-475 | in free mode with nothing buffered the data callback is called with the whole segment, its claim is all that is consumed, and its calls take effect |
| `ReceiveOffers.FreeOffersBufferFirst` | src/ESPAsyncTCPBuffer.cpp:461-475 | with something buffered it is called with all of that, keeps what it does not claim, and gets the segment if and only if it claimed everything |
| `ReceiveOffers.NothingWaitsUnoffered` | src/ESPAsyncTCPBuffer.cpp:383-439 | after a segment in free mode whatever stays buffered has been offered, all of it, in the last call, and not claimed |
| `ReceiveOffers.EverythingClaimed` | src/ESPAsyncTCPBuffer.cpp:456-475 | a callback that claims everything is called once per segment and nothing stays buffered |
| `ReceiveOffers.UnservedReadBuffers` | src/ESPAsyncTCPBuffer.cpp:477-481 | a read without a destination or a done callback takes nothing and bytes are buffered behind it |
| `ReceiveOffers.RefusedGrowthFills` | src/ESPAsyncTCPBuffer.cpp:411-424 | when growth is refused the buffer is filled and only the rest is lost |
| `ReceiveOffers.GrantedGrowthDoubles` | src/ESPAsyncTCPBuffer.cpp:411-424 | growth that is granted stores everything and leaves twice the room there was |
| `ReceiveOffers.StopAnswers` | src/ESPAsyncTCPBuffer.cpp:238-259 | stop tells an armed read with a done callback once that it failed, and nobody else |
| `ReceiveOffers.InvokedArms` | src/ESPAsyncTCPBuffer.cpp:157-196 | an arming from outside a callback is in force exactly if the client is there |
| `ReceiveOffers.DisconnectedLetsGo` | src/ESPAsyncTCPBuffer.cpp:296-308 | after the connection is lost the client is gone and the user's calls do nothing but disarm |
| `ReceiveOffers.StringStopsAtEitherEnd` | src/ESPAsyncTCPBuffer.cpp:519-546 | a string read is given the segment up to the first terminator or zero byte, and completes exactly if there is one |
| `ReceiveRearming.LastArmingStands` | src/ESPAsyncTCPBuffer.cpp:157-259 | the arming a callback makes last is in force if and only if none of its earlier calls stopped |
| `ReceiveRearming.BytesRearmStands` | src/ESPAsyncTCPBuffer.cpp:501-507 | a byte read satisfied and re-armed by its callback, for bytes or a string, is left as armed by the code that called the callback |
| `ReceiveRearming.StringRearmStands` | src/ESPAsyncTCPBuffer.cpp:521-540 | so is a string read, ended in the buffer or in the segment |
| `ReceiveRearming.StopNeverRearms` | src/ESPAsyncTCPBuffer.cpp:238-259 | after stop the client is let go and no read is armed, whatever the done callback did |
| `ReceiveSegments.HandleParses` | src/ESPAsyncTCPBuffer.cpp:444-550 | one call of the parser on an armed read agrees with the simple parse |
| `ReceiveSegments.SegmentParses` | src/ESPAsyncTCPBuffer.cpp:383-439 | a whole segment does, including what is buffered for later |
| `ReceiveSegments.SegmentationIndependent` | src/ESPAsyncTCPBuffer.cpp:383-550 | however a stream is cut, an armed read delivers, completes and leaves behind what the simple parse of buffered bytes and stream does |
| `ReceiveSegments.CutsAgree` | src/ESPAsyncTCPBuffer.cpp:383-550 | any two cuts of the same stream end alike |
| `ReceiveParser.HandleTakes` | src/ESPAsyncTCPBuffer.cpp:477-546 | one call of the parser on a read that its buffer does not finish is what the byte-at-a-time reference does, re-arming included |
| `ReceiveParser.SegmentEats` | src/ESPAsyncTCPBuffer.cpp:383-439 | so is a whole segment, through any number of re-armings |
| `ReceiveParser.RearmingParses` | src/ESPAsyncTCPBuffer.cpp:383-550 | and a stream cut in any way: re-arming reads get what the reference gives them byte by byte |
| `ReceiveParser.RearmingCutsAgree` | src/ESPAsyncTCPBuffer.cpp:383-550 | so two cuts of a stream agree whatever reads the done callbacks arm, each of at least one byte with a destination and a done callback, and without stop or onData, unless the bytes buffered before finish the armed read |
| `ReceiveRearming.OneByteCutsAgree` | src/ESPAsyncTCPBuffer.cpp:402-432 | a reader of single bytes is independent of the cuts if and only if nothing was buffered or at most one re-arming is to come |
| `ReceiveRearming.RearmingSeesSegments` | src/ESPAsyncTCPBuffer.cpp:402-432 | the smallest case in which two cuts end differently, with both outcomes |
| `ReceiveZeroReads.ZeroReadsSpin` | src/ESPAsyncTCPBuffer.cpp:383-507 | however a stream is cut, a read of no bytes that is armed again is answered once for every call of the parser until a completion arms none, and the stream is only stored |
| `ReceiveZeroReads.ZeroReadsCutsAgree` | src/ESPAsyncTCPBuffer.cpp:477-507 | it is independent of the cuts if and only if at most one re-arming is to come |
| `ReceiveZeroReads.ZeroReadsAnyCutsAgree` | src/ESPAsyncTCPBuffer.cpp:477-507 | with empty segments among the cuts, if and only if none is to come, or one and something was buffered |
| `ReceiveZeroReads.ZeroReadsSeeSegments` | src/ESPAsyncTCPBuffer.cpp:402-432 | after a read of one byte with nothing buffered: three bytes bring three completions in one segment and up to five in three |
| `ReceiveRearming.SegmentPassesNewRead` | src/ESPAsyncTCPBuffer.cpp:456-475 | exactly when a read of either kind armed by the data callback is passed over by the segment in hand |
| `ReceiveRearming.PassedReadWaits` | src/ESPAsyncTCPBuffer.cpp:456-475 | what passes it is consumed by the data callback, and the read still waits for its first byte |
| `ReceiveBufferObject.ReceiveBuffer.ReadBytes` | src/ESPAsyncTCPBuffer.cpp:186-196 | new state of arming a byte read |
| `ReceiveBufferObject.ReceiveBuffer.ReadStringUntil` | src/ESPAsyncTCPBuffer.cpp:157-168 | new state of arming a string read |
| `ReceiveBufferObject.ReceiveBuffer.Stop` | src/ESPAsyncTCPBuffer.cpp:238-259 | new state of stop, including what the failed done callback does |
| `ReceiveBufferObject.ReceiveBuffer.HandleFreeMode` | src/ESPAsyncTCPBuffer.cpp:456-475 | new state and count in free mode |
| `ReceiveBufferObject.ReceiveBuffer.HandleBytesMode` | src/ESPAsyncTCPBuffer.cpp:477-507 | new state and count of a byte read |
| `ReceiveBufferObject.ReceiveBuffer.ScanBuffer` | src/ESPAsyncTCPBuffer.cpp:519-528 | the byte-by-byte loop over the buffer delivers up to the first end and consumes it |
| `ReceiveBufferObject.ReceiveBuffer.ScanSegment` | src/ESPAsyncTCPBuffer.cpp:531-546 | the loop over the segment does, and counts what it handled |
| `ReceiveBufferObject.ReceiveBuffer.HandleStringMode` | src/ESPAsyncTCPBuffer.cpp:512-547 | new state and count of a string read |
| `ReceiveBufferObject.ReceiveBuffer.HandleRxBuffer` | src/ESPAsyncTCPBuffer.cpp:444-550 | new state and count in any mode |
| `ReceiveBufferObject.ReceiveBuffer.RxData` | src/ESPAsyncTCPBuffer.cpp:383-439 | the object after a segment is as the specification says |
| `ReceiveBufferObject.ReceiveBuffer.Disconnect` | src/ESPAsyncTCPBuffer.cpp:296-308 | new state when the connection is lost: the client is cleared and no done callback is called |
| `ReceiveBufferObject.ReceiveBuffer.HandleEvent` | src/ESPAsyncTCPBuffer.cpp:271-439 | every event takes the object as the specification says, so the theorems on runs hold of it |
| `TlsAccumulator.OverflowsExactly` | src/tcp_bearssl.cpp:760-788 | a segment overflows if and only if it and what is retained do not fit the array together |
| `TlsAccumulator.FeedsWhatFits` | src/tcp_bearssl.cpp:796-847 | a call feeds, front first, exactly what the engine has room for in ten rounds, up to the first that offers nothing even after processing, and retains the rest |
| `TlsAccumulator.FeedDrains` | src/tcp_bearssl.cpp:796-830 | rounds that each offer k bytes drain what k times their number covers |
| `TlsAccumulator.KeepingUpFeedsInOrder` | src/async_config.h:31 | if ten offers of k bytes cover the accumulator, every accepted call drains it and the engine is fed what was received, in arrival order |
| `TlsAccumulator.ReadKeepsBytes` | src/tcp_bearssl.cpp:796-847 | fed and retained bytes are the earlier ones, the new segment, then the bytes carried over |
| `TlsAccumulator.OrderAfterCall` | src/tcp_bearssl.cpp:773-775 | one call keeps the arrival order if and only if it was kept so far and nothing was carried over or nothing came |
| `TlsAccumulator.InOrderIffNoCarryOver` | src/tcp_bearssl.cpp:773-824 | over a run the arrival order holds if and only if no call that brought something started with bytes carried over |
| `TlsAccumulator.CarryOverOvertakes` | src/tcp_bearssl.cpp:773-775 | a segment carried over whole is fed after the one that follows it |
| `TlsConnectionObject.TlsConnection.StoreFront` | src/tcp_bearssl.cpp:772-778 | bytes are stored in front of what the array holds, which stays |
| `TlsConnectionObject.TlsConnection.Accumulate` | src/tcp_bearssl.cpp:760-788 | overflow exactly if the segment is longer than the position; otherwise the whole segment lies before the retained bytes |
| `TlsConnectionObject.TlsConnection.Feed` | src/tcp_bearssl.cpp:794-830 | at most ten rounds hand over a prefix of the content, as long as the engine's offers allow |
| `TlsConnectionObject.TlsConnection.Compact` | src/tcp_bearssl.cpp:837-847 | the position advances by exactly the consumed count and the array does not change: a range is copied onto itself |
| `TlsConnectionObject.TlsConnection.Read` | src/tcp_bearssl.cpp:739-858 | the object after a segment is as the specification says, an accepted segment is credited once, and the result is -1 exactly when the segment is longer than the free space or the engine has closed; an overflow credits and feeds nothing |
| `TlsPump.HandshakeOnce` | src/tcp_bearssl.cpp:679-698 | however deeply callbacks pump again, the handshake completes at most once per connection |
| `TlsPump.RecordsFitTcp` | src/tcp_bearssl.cpp:666-674 | every record handed to TCP fits whole into the space that earlier writes and acknowledgements have left |
| `TlsPump.RecordsReachTcp` | src/tcp_bearssl.cpp:666-674 | bytes queued on TCP then bytes the engine still holds are all the record bytes it made, in order, if and only if tcp_write never failed |
| `TlsPump.DataReachesCallback` | src/tcp_bearssl.cpp:654-664 | bytes given to the data callback then bytes the engine still holds are all it decrypted, in order, if and only if the callback was attached whenever data was taken |
| `TlsPump.ProcessIdles` | src/tcp_bearssl.cpp:643-698 | a pump stops only at a turn that finds the engine closed or nothing to move in the state it leaves, and with the handshake done if it is found established; the last turn of a script that is used up has moved something, or found no data to take and the handshake settled |
| `TlsPump.SslWriteIdles` | src/tcp_bearssl.cpp:704-737 | so does a TLS write that pumps, from inside a callback or not |
| `TlsPump.RoomIsExact` | src/tcp_bearssl.cpp:666-674 | TCP's free space is always what earlier writes and acknowledgements have left |
| `TlsPump.TurnDecides` | src/tcp_bearssl.cpp:643-698 | one turn tells of a closed engine, or takes data of less than a buffer, or sends a record of less than a buffer that TCP has room for, or completes the handshake, in this order, and nothing else |
| `TlsPump.TurnCallsBack` | src/tcp_bearssl.cpp:643-698 | the callbacks make all their TLS writes exactly when a turn calls them and they are attached |
| `TlsPump.WriteTakesAndPumps` | src/tcp_bearssl.cpp:704-737 | a TLS write takes all of the data or all the engine has room for, and pumps if and only if the engine takes application data |
| `TlsEngineObject.TlsEngine.Send` | src/tcp_bearssl.cpp:666-674 | a record goes to TCP and then leaves the engine, whatever TCP answered |
| `TlsEngineObject.TlsEngine.ProcessEngine` | src/tcp_bearssl.cpp:629-699 | the loop, with callbacks that call back into it, does what the specification says |
| `TlsEngineObject.TlsEngine.Write` | src/tcp_bearssl.cpp:704-737 | so does a TLS write, which reports how much the engine took |
| `TlsConnections.FoundIsNewest` | src/tcp_bearssl.cpp:100-109 | lookup finds the newest state of a control block |
| `TlsConnections.WithoutOf` | src/tcp_bearssl.cpp:608-625 | freeing pops the newest state of one control block and touches no other |
| `TlsConnections.LookupSeesOwnStack` | src/tcp_bearssl.cpp:100-109 | after any run of openings and frees each control block sees a stack of its own |
| `TlsConnections.FreeUndoesNew` | src/tcp_bearssl.cpp:608-625 | freeing undoes opening |
| `TlsConnections.Connections.Insert` | src/tcp_bearssl.cpp:544-545 | the new node heads the linked list, which stays acyclic |
| `TlsConnections.Connections.Find` | src/tcp_bearssl.cpp:100-109 | the node returned holds the first state of the control block, or there is none |
| `TlsConnections.Connections.Free` | src/tcp_bearssl.cpp:608-625 | the first state of the control block is unlinked, and the result says whether there was one |

## Left out

- `connect()`, DNS, `AsyncServer`, address getters, string tables, debug output and copying: plumbing or easy members.
- The TLS build of the client (`_use_tls`): its handshake timeout, its `add` and its `_recv` branch. Application bytes are counted when queued and record bytes when acked, so no exact equation exists there.
- BearSSL, X.509 validation, PEM parsing, SSL contexts and session start-up: foreign code. The engine appears as what it offers and answers.
- Deleting an object inside a callback, and the deletions made by the buffer's disconnect handler: lifetime rather than protocol. That the handler clears `_client` is modelled in both halves.
- `onPacket` and `ackPacket`: the data handler is modelled.
- ClientLedger.WindowBalance: `_rx_ack_len` is unbounded here, not a 32-bit word, and `tcp_recved` takes any length; with a 16-bit window the balance itself keeps it small until a `close` gives bytes away.
- ClientLedger.TransmitAccounting: the sum of the lengths reported to the ack handler is exact modulo 2^32, as `_tx_acked_len` is; the unacked counter is exact.
- CbufObject.Cbuf.Resize: cbuf is not part of the repository; it is a bounded byte queue with a capacity, growth may be refused, and shrinking back to 100 bytes is granted.
- Transmit.SendLoop: a run is given finitely many faults, so that the loop ends; `TransmitEnding` says exactly which runs of the source this leaves out.
- TransmitBufferObject.TransmitBuffer.Flush: the waits in `delay(0)` are a finite list of acks, polls and disconnections, after which it reports that it is still waiting; data received and application calls made during the wait are not modelled.
- TransmitBufferObject.TransmitBuffer.Write: a failing `new` after the heap test, which panics, and a NULL data pointer are not modelled.
- The two halves of AsyncTCPBuffer are two objects: the receive half sees the client as present or absent and connected or not, and `_client->stop()` is the client's deferred close.
- ReceiveBufferObject.ReceiveBuffer.HandleFreeMode: a data callback never claims more than it was offered; the source trusts it.
- ReceiveBufferObject.ReceiveBuffer.RxData: the loop around the second pass over buffered bytes is one call, because that call, having no segment, always reports 0.
- The terminator mode that only has a placeholder, and `onData(NULL)`.
- TlsConnectionObject.TlsConnection.Read: the engine is processed at three points of a read; this leaves the accumulator alone and is described by the pump on its own.
- TlsPump.Process: the three callbacks are attached together, as the client does; a callback that closes the connection is not modelled; a script that has ended is an engine with nothing to move, so records a callback makes after the last turn stay unsent; what records the engine makes of what it is given is an input.
- TlsEngineObject.TlsEngine.Write: the answer -1 for an unknown control block belongs to the lookup, `TlsConnections.Connections.Find`.
- Nothing here was executed against the original program.
