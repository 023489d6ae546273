# Verified model of stakker_mio

`stakker_mio` connects `mio` to the Stakker actor runtime.  This project models its stateful parts in
Dafny and proves what they keep on every run:

- **The event scheduler** (`src/miopoll.rs`).  `Scheduler.dfy` is the simple idea: eleven queues, one for
  each priority; a poll queues every event of a registered token and then drains the levels from the top
  until one held a live event.  `Control.dfy` is the code as it stands: ten queues, a fast path for the
  highest priority, the counter of queued events, the high-water mark and the 16-bit bitmap.  Every method
  is proved to do what the simple scheduler does, and `RunControl` carries that over whole runs.  The
  properties of runs are proved on the simple scheduler (`SchedulerInvariant.dfy`, `SchedulerRuns.dfy`,
  `SchedulerDelivery.dfy`) and summed up for every reachable state in `SchedulerTheorems.dfy`;
  `SchedulerOutcomes.dfy` states what each operation answers and calls in the caller's own terms.
- **The TCP stream buffer** (`src/tcpstrbuf.rs`).  `StreamModel.dfy` sees two byte queues, some flags and a
  stream that answers every system call as it likes; `TcpStreamBuf.dfy` is the code with its array, offsets,
  growth and retry loops; `StreamRuns.dfy` holds the properties of runs, and `StreamOutcomes.dfy` what each
  operation comes to, given the stream's answers alone.
- **The TLS wrapper** (`src/tls_rustls.rs`).  `PassThrough.dfy` covers the branch without TLS end to end;
  `TlsModel.dfy` is the pump loop on values, over an engine (`Engine.dfy`) that answers as it likes;
  `TlsServerEngine.dfy` is the code, proved to do what that loop does; `TlsRuns.dfy` holds the properties of
  calls and of whole runs, `TlsEnds.dfy` those of the two ends, `TlsReading.dfy` those of reading plaintext,
  and `TlsOutcomes.dfy` what rounds and calls come to, given the answers of the engine and the stream alone.
- **The UDP send queues** (`src/udpqueue.rs`, `src/udpserverqueue.rs`).  One generic model with an address
  type: `UdpModel.dfy` and `UdpSendQueue.dfy`.

The outside world is adversarial.  The slab hands out any unused key, `mio` reports any events or an error,
streams and UDP sockets follow any finite script of interruptions, refusals, errors and partial results,
and the TLS engine follows any script of answers.  `Fwd` handlers are entries in a log of calls; a handler
is identified by a number that is fresh for each registration, because slab slots are reused.  Fields that
only record history (what was accepted, delivered, sent, consumed) decide nothing.

Where the code does less than its documentation says, the model follows the code:

- A handler of lower priority can be called while an event waits for one of higher priority, when its source
  has taken over a slot for which an event is still queued (`SchedulerOutcomes.LeftoverIsCalledFirst`).  That is
  so if and only if such an event is queued at the level served (`SchedulerOutcomes.LowerCalledIff`); otherwise
  higher priorities come first (`SchedulerOutcomes.HigherPriorityFirst`).
- A UDP packet whose send would block has been taken from the queue and is not put back, so it is lost,
  although the documentation expects packets to build up in the queue (`UdpModel.WouldBlockLosesPacket`).
  A flush loses nothing if and only if the socket's answers, interruptions aside, accept every waiting packet
  with its whole length (`UdpModel.FlushLosesNothingIff`); a run, if and only if that holds of every flush
  (`UdpModel.LosslessIff`).
- Attaching a new stream does not clear the end-of-input flag, so the `Read` implementation can report the
  end of a stream that has not ended: with nothing unread, if and only if an earlier stream had ended
  (`StreamRuns.EndOnOneStream`, `StreamRuns.StaleEndOfStream`).
- A TCP_NODELAY setting that could not be applied is not tried again until it is changed or a stream is
  attached (`StreamRuns.NodelayIsNotRetried`, `StreamRuns.NodelayCanBeMissed`).  After a flush that had a change
  to apply, and until then, it is in force if and only if the first answer that is not an interruption accepts
  it, or it was in force before (`StreamRuns.NodelayAppliedIff`, `StreamRuns.NodelayInForceIff`).
- With TLS, the end of the TCP stream is never shown to the engine, and the reader is asked about the end of the
  plaintext only after plaintext was announced, so a connection that just ends is not reported
  (`TlsEnds.SilentEnd`).  A call gives the same result whether or not the connection has ended
  (`TlsEnds.CallIgnoresEnd`).  With nothing to take in it reports an end if and only if one was reported before
  (`TlsEnds.ConnectionEndUnreported`); if it takes data in without plaintext being announced, it changes nothing
  either (`TlsEnds.EndNeedsPlaintext`).
- With TLS, the end of the application's output does not always reach the connection: `TlsEnds.EndNotPassedOn` is
  a call that sends close_notify and returns without it.  A call passes the end on if and only if in some round
  after close_notify the engine has data to write, writes it and then has none left
  (`TlsEnds.CallPassesEndOnIff`).
- With TLS, a read without room is taken for a clean end; `TlsServerEngine.FalseClose` is a run in which a full
  buffer is reported as one.  Whatever the reader answers, it is asked without room if and only if, before it
  stops, its answers fill the room and it gives another one, or they hold more than the room
  (`TlsReading.DrainSignals`); when the plaintext does not really end, that is exactly when a clean end is
  reported (`TlsReading.FalseCloseIff`).  How much room there is depends on the length and the offsets of the
  application's buffer (`TlsServerEngine.FalseCloseByLayout`).
- With TLS, a call goes on reading plaintext until the reader has no more for now or fails, and it gets there only
  if what it hands out before fits into the room (`TlsReading.DrainEndsIff`, `TlsReading.RoundEndsIff`).  So a
  reader that keeps reporting the end, or that holds more than there is room for, keeps the call from returning
  (`TlsReading.EndKeepsReading`).

## Model

| member | source | states |
|---|---|---|
| Control.RunControl | src/miopoll.rs:235-322 | on every run the scheduler with its counters, bitmap and fast path makes the same handler calls in the same order, and returns the same results, as eleven plain queues |
| Control.Control.constructor | src/miopoll.rs:81-106 | the initial state is that of the simple scheduler, with the waker in slot 0 at its clamped priority |
| Control.Control.Add | src/miopoll.rs:261-274 | registering raises the high-water mark, sets the bitmap bit and takes the slot even when mio refuses; the counters stay right |
| Control.Control.Del | src/miopoll.rs:251-258 | the token is removed if present; a deregistration error takes precedence over NotFound |
| Control.Control.DropSource | src/miopoll.rs:29-37 | dropping a source unregisters it and keeps any error |
| Control.Control.SetWakeFwd | src/miopoll.rs:319-321 | replaces the waker's handler at the waker's priority |
| Control.Control.Dispatch | src/miopoll.rs:279-294 | an event at the highest priority is delivered at once, any other live one is queued and counted, a dead one is ignored |
| Control.Control.FastPath | src/miopoll.rs:278-295 | the first loop comes to queueing all events and draining the highest level |
| Control.Control.SlowPath | src/miopoll.rs:297-314 | the second loop serves the highest level with a live event and recounts exactly what is left, although it trusts the bitmap |
| Control.Control.Poll | src/miopoll.rs:276-317 | one poll is one step of the simple scheduler, with the flags it returns |
| Control.AddTracked | src/miopoll.rs:268-271 | the high-water mark is the highest level ever registered, the bitmap holds exactly those levels, and queued levels stay below the mark |
| Control.DispatchedStep | src/miopoll.rs:282-292 | delivering highest-priority events at once is the same as queueing them first and draining that level afterwards |
| Control.PollFromTop | src/miopoll.rs:297-299 | nothing above the high-water mark can be queued, and lower levels are served only if the highest called no handler |
| Control.PendingExact | src/miopoll.rs:315 | the counter is positive exactly when some event is queued |
| Bitmap.SetBit | src/miopoll.rs:270 | or-ing in `1 << pri` changes membership of that level only |
| Bitmap.SingleBit | src/miopoll.rs:99 | the initial bitmap holds the waker's level only |
| SchedulerInvariant.PollServesHighestLiveLevel | src/miopoll.rs:154-166 | all calls of a poll come from one level, the highest with a live event; levels above it held dead events only and end up empty, levels below are untouched |
| SchedulerInvariant.DropInv | src/miopoll.rs:251-258 | dropping a live source never reports NotFound and its registration is gone |
| SchedulerInvariant.SetWakeFwdInv | src/miopoll.rs:197-206 | the previous wake handler is dropped |
| SchedulerInvariant.PollInv | src/miopoll.rs:276-317 | a poll keeps conservation, order, registration safety and the emptiness of the top level |
| SchedulerInvariant.RunInv | src/miopoll.rs:235-322 | the invariant holds after every run of add, drop, wake handler changes and polls |
| SchedulerTheorems.Conservation | src/miopoll.rs:279-313 | on every run, per level, accepted events are the delivered or discarded ones followed by the queued ones, in order, and the handler calls are exactly the delivered ones |
| SchedulerTheorems.RegistrationSafety | src/miopoll.rs:15-20 | on every run, live sources hold distinct registered tokens other than the waker's, the waker stays registered and no drop has reported NotFound |
| SchedulerTheorems.CallSafety | src/miopoll.rs:128-137 | on every run, a handler is called by the token of its own slot: at its own priority for its own event, or for the event of an earlier registration that held the same slot and no longer exists |
| SchedulerTheorems.NoPriorityInversion | src/miopoll.rs:154-172 | in every reachable state, a poll calls handlers for one level only, the highest with a live event; higher levels held dead events; events stay queued only if a handler was called |
| SchedulerTheorems.WaitingIsBounded | src/miopoll.rs:161-166 | from every reachable state, what waits at a level is handled once there have been more polls than busy higher levels plus higher-priority events accepted meanwhile |
| SchedulerTheorems.QuietLevelIsServed | src/miopoll.rs:297-314 | from every reachable state, without higher-priority events, what waits at level p is handled within (highest level - p) polls |
| SchedulerTheorems.DroppedStaysSilent | src/miopoll.rs:122-124 | once a source is dropped its handler is never called again, even if its events are queued and its slot is reused |
| SchedulerTheorems.ReplacedWakeFwdStaysSilent | src/miopoll.rs:197-206 | once the wake handler is replaced the previous one is never called again |
| SchedulerOutcomes.AddGivesPriority | src/miopoll.rs:261-274 | a new entry gets the priority asked for, or 10 if that is more; a source is returned exactly when mio registers it; nothing else changes |
| SchedulerOutcomes.StartGivesPriority | src/miopoll.rs:81-106 | the waker gets the priority asked for, or 10 if that is more, and nothing is queued |
| SchedulerOutcomes.PriorityAsAsked | src/miopoll.rs:261-274 | on every run every entry has the priority that the caller asked for, or 10 if that was more |
| SchedulerOutcomes.DropAnswers | src/miopoll.rs:29-37 | in every reachable state dropping a source takes away its entry only, and records an error exactly when mio fails to deregister it |
| SchedulerOutcomes.SetWakeFwdAnswers | src/miopoll.rs:319-321 | only the waker's handler changes, not its priority |
| SchedulerOutcomes.PollAnswers | src/miopoll.rs:168-172 | `activity` holds exactly when a queued or reported event has a registered token, `io_pending` exactly when besides something waits at a lower level, and then `activity` holds too |
| SchedulerOutcomes.PollCalls | src/miopoll.rs:278-314 | a poll in full: at the highest level with a live event every waiting event is handed to its token's present handler, in order and with its readiness; above it all is discarded, below it all stays; the reported events of registered tokens are accepted |
| SchedulerOutcomes.HigherPriorityFirst | src/miopoll.rs:132-136 | in every reachable state, while an event waits for a source added with a higher priority, no handler of a lower one is called for an event of its own |
| SchedulerOutcomes.LowerCalledIff | src/miopoll.rs:303-308 | and for one of another exactly if an event of an earlier holder of its slot is queued at the level served |
| SchedulerOutcomes.LeftoverIsCalledFirst | src/miopoll.rs:303-308 | a run in which that happens |
| SchedulerDelivery.RunDelivers | src/miopoll.rs:303-308 | the handler calls for a level are the delivered events of that level, in order |
| SchedulerRuns.IoPendingExact | src/miopoll.rs:174-192 | in the documented main loop `io_pending` says at every iteration whether events are queued |
| SchedulerRuns.BoundedWaiting | src/miopoll.rs:276-317 | the waiting bound, from any state that satisfies the invariant |
| SchedulerRuns.PollMakesProgress | src/miopoll.rs:299-313 | a poll empties a given level or serves a busy higher one |
| SchedulerRuns.StarvationIsPossible | src/miopoll.rs:135-136 | from the start there is a run after which, under constant higher-priority load, an event waits for any number of polls |
| TcpStreamBuf.RunStreamBuf | src/tcpstrbuf.rs:48-115 | on every run the buffer gives the results of two byte queues |
| TcpStreamBuf.Perform | src/tcpstrbuf.rs:256-262 | an operation leaves the length of the buffer within max(8, 2 * (unread + requested)) or as it was |
| TcpStreamBuf.TcpStreamBuf.InpMakespace | src/tcpstrbuf.rs:236-265 | the unread bytes survive reset, overlapping move and growth; there is room for the request; the buffer grows only when moving cannot make room, and otherwise what is left free is fixed by its length and offsets |
| TcpStreamBuf.TcpStreamBuf.Flush | src/tcpstrbuf.rs:184-234 | the stages of a flush and the error it returns, for every answer of the stream, on every exit path |
| TcpStreamBuf.TcpStreamBuf.WriteOut | src/tcpstrbuf.rs:201-212 | the write loop removes from the buffer what the stream accepted |
| TcpStreamBuf.TcpStreamBuf.Read | src/tcpstrbuf.rs:278-307 | appends what the stream delivers, in bounds, and reports the status |
| TcpStreamBuf.TcpStreamBuf.Exchange | src/tcpstrbuf.rs:312-334 | output and received data move between two buffers with the end flags |
| TcpStreamBuf.TcpStreamBuf.ReadInto | src/tcpstrbuf.rs:337-356 | copies the first unread bytes out, touching nothing else of the destination |
| TcpStreamBuf.TcpStreamBuf.Write | src/tcpstrbuf.rs:358-371 | appends to the output buffer |
| TcpStreamBuf.TcpStreamBuf.Init | src/tcpstrbuf.rs:147-151 | attaching a stream allows one more shutdown, makes TCP_NODELAY pending and leaves the end-of-input flag alone |
| TcpStreamBuf.TcpStreamBuf.SetNodelay | src/tcpstrbuf.rs:161-169 | a change of the setting becomes pending |
| StreamRuns.RunKeeps | src/tcpstrbuf.rs:117-335 | on every run over any streams both directions are lossless byte queues, each attachment is shut down at most once and only with everything accepted, and TCP_NODELAY is in force unless pending or failed |
| StreamOutcomes.EndToEnd | src/tcpstrbuf.rs:117-385 | on every run, what the operations appended is what was accepted plus what waits, what was delivered is what they were given plus what waits, and the settings are those last made |
| StreamRuns.FlushKeeps | src/tcpstrbuf.rs:183-234 | a flush keeps all that on every exit path and does not touch the input side |
| StreamRuns.WriteLoopConserves | src/tcpstrbuf.rs:201-212 | accepted bytes followed by remaining bytes are the output, whatever the stream answers |
| StreamRuns.ShutdownStageKeeps | src/tcpstrbuf.rs:221-231 | the shutdown keeps the invariant: at most one for each attachment, each when all that was appended has been accepted |
| StreamRuns.FlushSendsAll | src/tcpstrbuf.rs:62-69 | if the stream keeps taking bytes, one flush empties the output and performs a requested shutdown |
| StreamOutcomes.FlushAnswers | src/tcpstrbuf.rs:184-234 | for every stream, in terms of its answers: how much output a flush accepts, whether it shuts down, and that it returns an error exactly when the deciding answer is a fault or a pending TCP_NODELAY would block |
| StreamOutcomes.FlushFailsIff | src/tcpstrbuf.rs:184-234 | a flush returns an error exactly when the stream's answers say so, whatever has been recorded |
| StreamRuns.ReadStatusExact | src/tcpstrbuf.rs:373-385 | what each read status says about the data, the limit asked for and the end flag |
| StreamOutcomes.ReadAnswers | src/tcpstrbuf.rs:278-307 | for every stream, the status and the data of a read are those of its first answer that is not an interruption |
| StreamOutcomes.ReadBytesAnswers | src/tcpstrbuf.rs:337-356 | as many of the first unread bytes are handed out as there are and there is room for; the end or nothing yet only when none is unread |
| StreamRuns.ZeroReadMeansEnd | src/tcpstrbuf.rs:337-348 | reading nothing into a nonempty buffer happens exactly when all is consumed and an end was seen, or a read without room was taken for one |
| StreamRuns.EndOnOneStream | src/tcpstrbuf.rs:87-93 | on the first stream the end is reported exactly when it has ended and all is consumed; on a later one also, and only, if an earlier stream had ended |
| StreamRuns.StaleEndOfStream | src/tcpstrbuf.rs:147-151 | a run in which a second stream that has not ended is reported as ended |
| StreamRuns.FlushNodelay | src/tcpstrbuf.rs:184-199 | paused or without a stream a flush leaves TCP_NODELAY alone; otherwise nothing is pending afterwards and a pending change was applied exactly when the first answer that is not an interruption accepts it |
| StreamRuns.NodelayAppliedIff | src/tcpstrbuf.rs:190-199 | after a flush with a change to apply, the setting is in force exactly when the stream accepted it or it was in force before |
| StreamRuns.NodelayIsNotRetried | src/tcpstrbuf.rs:161-169 | with nothing pending, the stream's setting stays as it is over every run that attaches no stream and changes no setting |
| StreamRuns.NodelayInForceIff | src/tcpstrbuf.rs:190-199 | over every such run after the flush that tried to apply a change, the setting is in force exactly when that attempt was accepted or it was in force before |
| StreamRuns.NodelayCanBeMissed | src/tcpstrbuf.rs:190-199 | a run in which the setting is neither pending nor applied |
| PassThrough.EndToEnd | src/tls_rustls.rs:143-152 | without TLS, on every run, what the application's operations wrote is what was sent plus what waits in both buffers, and what was received is what they were given plus what waits |
| TlsServerEngine.RunPass | src/tls_rustls.rs:69-153 | on every run without an engine the outcomes and what waits are the model's, and nothing is lost either way |
| PassThrough.CloseIsExact | src/tls_rustls.rs:67-68 | the end is reported exactly when it was seen, and then every received byte is with the application |
| PassThrough.FailsIff | src/tls_rustls.rs:149-152 | a call fails exactly when the flush of the connection does, with all output handed over |
| PassThrough.OutputPassedOn | src/tls_rustls.rs:63-65 | a call hands over all output and offers it to the stream, and the connection is to be closed exactly when either side has ended its output |
| PassThrough.ShutdownAfterAll | src/tls_rustls.rs:63-65 | when a call shuts the connection's output down, the stream has accepted all that the application wrote |
| TlsServerEngine.TlsServerEngine.PassThrough | src/tls_rustls.rs:144-151 | the branch without TLS: exchange, note the end, flush |
| TlsServerEngine.TlsServerEngine.Round | src/tls_rustls.rs:76-142 | the code's round is the round on values, for the room that the buffer happens to leave, which its length and offsets fix unless it grows |
| TlsServerEngine.TlsServerEngine.WriteBranch | src/tls_rustls.rs:77-90 | the write branch does what it does on values: protocol data is appended, a finish after close_notify is noted before the flush, either failure ends the call |
| TlsServerEngine.TlsServerEngine.PlainBranch | src/tls_rustls.rs:91-100 | the application's output loses exactly the bytes the engine accepted |
| TlsServerEngine.TlsServerEngine.CloseBranch | src/tls_rustls.rs:101-105 | close_notify is sent and recorded with the state of the output at that time |
| TlsServerEngine.TlsServerEngine.ReadBranch | src/tls_rustls.rs:106-140 | protocol data is taken in and announced plaintext is read into the room made, in bounds, as on values |
| TlsServerEngine.TlsServerEngine.Pump | src/tls_rustls.rs:76-142 | the code's loop is the loop on values, observed for the given number of rounds or until it ends |
| TlsServerEngine.TlsServerEngine.Process | src/tls_rustls.rs:69-153 | with an engine the loop on values, without one the pass-through |
| TlsServerEngine.RunTls | src/tls_rustls.rs:69-153 | on every run with an engine the outcomes and the final state are the model's; what the operations wrote and took is the engine's plaintext but for what waits; unless its owner ends it, the connection is told to close only after close_notify |
| TlsRuns.RunKeeps | src/tls_rustls.rs:69-153 | the links through the engine, the order of closing and the meaning of the reported end hold after every run |
| TlsRuns.EndToEnd | src/tls_rustls.rs:54-58 | on every run what the application wrote is the plaintext the engine accepted plus what waits, the plaintext it handed out is what the application was given plus what waits, and likewise for protocol data and the streams |
| TlsRuns.CloseOrder | src/tls_rustls.rs:84-105 | on every run close_notify is sent at most once, after all output; unless its owner ends it, the connection is told to close, and is shut down, only after close_notify and with the streams having accepted all protocol data up to the finish |
| TlsRuns.CallCloses | src/tls_rustls.rs:84-88 | in one call the connection is told to close exactly when a write after close_notify left nothing to write, or it was before; a call that ends by itself has sent close_notify if the output has ended; what was appended was offered |
| TlsRuns.RoundKeeps | src/tls_rustls.rs:76-142 | a round keeps all that, and the last one leaves nothing to do |
| TlsRuns.PumpKeeps | src/tls_rustls.rs:76-142 | a call keeps all that wherever its observation stops, and ends by itself only with nothing left to do |
| TlsOutcomes.RoundAnswers | src/tls_rustls.rs:76-142 | for every state, a round fails, rests, goes on, panics or does not end exactly when the answers of the engine and the stream say so |
| TlsOutcomes.CallAnswers | src/tls_rustls.rs:69-153 | a call returns an error exactly when some round fails, and the state of the input exactly when it comes to rest |
| TlsOutcomes.RoundMoves | src/tls_rustls.rs:76-117 | what crosses the engine's interface in a round: the data to write, or else the output it accepts, or else close_notify, or else as much received data as it has room for |
| TlsEnds.ConnectionEndUnreported | src/tls_rustls.rs:106-140 | a call with nothing to take in leaves the reported end as it is, even if the connection has ended |
| TlsEnds.EndNeedsPlaintext | src/tls_rustls.rs:120-136 | the reported end is what the reader signalled last; it changes only if data was taken in and plaintext was announced |
| TlsEnds.SilentEnd | src/tls_rustls.rs:67-68 | a run in which the connection has ended, all is consumed and no end is reported |
| TlsEnds.CallIgnoresEnd | src/tls_rustls.rs:75-142 | a call gives the same result and leaves the same state whether or not the connection's end-of-input flag is set |
| TlsEnds.CallPassesEndOnIff | src/tls_rustls.rs:63-65 | the end of the output is passed on to the connection in a call exactly when, in a round after close_notify, the engine has data to write, writes it and then has none left |
| TlsEnds.EndNotPassedOn | src/tls_rustls.rs:84-105 | a call that sends close_notify and returns without telling the connection to close |
| TlsEnds.CloseMeans | src/tls_rustls.rs:124-136 | on every run a clean end is reported exactly when the last signal was a clean end or a read without room, an unclean one exactly when it was an unclean end |
| TlsReading.DrainSignals | src/tls_rustls.rs:122-137 | for every reader and room, exactly which ends reading signals, in terms of the reader's answers; the state of the input becomes the last of them |
| TlsReading.FalseCloseIff | src/tls_rustls.rs:121-130 | for every reader whose plaintext does not really end, a clean end is reported exactly when its answers use up the room before it stops |
| TlsServerEngine.FalseCloseByLayout | src/tcpstrbuf.rs:239-257 | for every reader, whether it is asked without room is decided by the length and offsets of the buffer with its answers; a buffer that grows has room for what was announced and for twice that less what is unread |
| TlsServerEngine.FalseClose | src/tls_rustls.rs:121-130 | a run of the code in which a full buffer is reported as a clean end |
| TlsReading.DrainEndsIff | src/tls_rustls.rs:122-137 | reading plaintext ends exactly when the reader has no more for now or fails, having handed out no more than there is room for |
| TlsReading.RoundEndsIff | src/tls_rustls.rs:106-140 | a round does not end exactly when it reads announced plaintext and the reader does not stop like that |
| TlsReading.EndKeepsReading | src/tls_rustls.rs:76-142 | a call that comes to such a round does not return, however long it is observed |
| UdpModel.Accounting | src/udpqueue.rs:132-150 | packets sent whole are a subsequence of those the operations pushed, in order and with their addresses, the queued ones are the last pushed, and pushed = sent + queued + flushes that stopped early |
| UdpModel.FlushAnswers | src/udpqueue.rs:132-150 | for every socket, in terms of its answers: which packets a flush sends, which it leaves, and whether it returns nothing, the socket's error or that a packet was sent in part |
| UdpModel.FlushLosesNothingIff | src/udpqueue.rs:132-150 | a flush loses nothing exactly when there is no socket or its answers, interruptions aside, accept each waiting packet in turn with its length |
| UdpModel.LosslessIff | src/udpserverqueue.rs:131-149 | a run loses none of the packets its operations push exactly when that holds of the sockets' scripts at each of its flushes |
| UdpModel.WouldBlockLosesPacket | src/udpqueue.rs:134-138 | a packet whose send would block is lost while the flush reports success |
| UdpSendQueue.SendQueue.Flush | src/udpqueue.rs:132-150 | the nested send and retry loops, with the result for each answer |
| UdpSendQueue.RunSendQueue | src/udpserverqueue.rs:27-149 | on every run the queue's results and contents are those of the model |

## Left out

- `mio` itself, the slab crate and rustls: foreign code, present only as arbitrary answers.  That the first
  slab key is 0 is taken for granted, as the assertion in `MioPoll::new` does.
- Retrying interrupted `mio` calls in the scheduler: the model starts from the final answer of `retry`.
- Stakker's deferrer, `Fwd` internals, timers and `RefCell` borrow panics; handlers cannot re-enter the
  scheduler during a poll.
- The encoding of readiness flags in `Ready`: finite and separate from scheduling.
- Waking from other threads: the waker is an ordinary token to the scheduler.
- Allocation failure: `Vec::reserve` is free to pick any capacity up to the usual doubling, and requests
  larger than a vector can hold are excluded by preconditions, or end the observation in the TLS model.
- TlsServerEngine.TlsServerEngine.Pump: the loop is observed for a finite number of rounds and reads, because
  it ends only if the engine makes progress; what is proved holds wherever the observation stops.
- TlsServerEngine.RunTls: the interior of TLS (records, handshakes, alerts other than close_notify) is not
  modelled; the results concern bytes crossing the engine's interface.
- TlsServerEngine.FalseCloseByLayout: one way only for a buffer that must grow, because the allocator then
  decides how much room there is.
- Receiving UDP packets (`read`, `read_to_vec`) and the Windows error codes: simple case distinctions.
- The direct use of public fields beyond appending output, reading input and setting the end flags.
- Error texts, and the echo server's actors.
