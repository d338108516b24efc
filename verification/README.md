# CAN motor control: a verified model

The system controls groups of CAN motors. A robot has named buses and groups of
motors on them; it connects, verifies and enables the motors, and then ticks:
it drains the buses, decodes the frames and updates a cache per motor. One kind
of bus is a gs_usb adapter on macOS, driven by a worker thread. This project
models the four parts of it that are hard to get right and proves what they
promise.

- **The gs_usb session** (`GsUsbSession`, `SessionProperties`, `SessionProgress`,
  `GsUsbWorker`, `EchoCredits`, `RxQueue`, `Retry`). A caller and a worker share
  a bounded channel, a bounded receive queue, an error cell, a shutdown flag and
  four counters, and the worker shares 32 echo credits with its device.
  `GsUsbSession` is a state machine whose steps are the atomic sections of both
  threads; the device answers as it likes, with any completion and any bytes.
  `SessionProperties` proves what holds of all runs, and `SessionProgress` how
  soon accepted frames are delivered. `GsUsbWorker` is the same session as an
  object updated in place, with the loops of the source; its methods are runs of
  the state machine.
- **Nominal bit timing** (`BitTiming`). The nested search for a bit timing
  (section 10 of Part B of the Bosch CAN Specification 2.0), in u32 arithmetic.
- **The robot** (`Robot`, `Topology`, `Replay`, `Evidence`, `Dispatch`, `Group`,
  `Motor`, `Opening`, `Wire`, `Builder`). Routing, the batched tick, the
  verify-before-enable protocol, calibration, and failures half way through a
  batch. Codecs are arbitrary functions, any send may fail and any drain may
  return any frames. A ghost log records every frame sent and received and where
  ticks begin and end; `Replay` computes every motor's state from it, and the
  robot's main invariant is that the motors are in that state. What a tick brings
  a motor is also stated from the codecs and the routing tables alone.
- **The codecs** (`HostFrame`, `CanFrame`, `MachineInts`, `BitPack`,
  `DamiaoCodec`, `DamiaoBus`, `RealArithmetic`). gs_usb host frames and Damiao
  MIT frames: round trips, rejected inputs, quantization bounds, mode read-back.

Floating point is modelled over the reals, counters as unbounded naturals,
atomics as sequentially consistent, and durations as loops the environment ends
at any point. Fixed-width integers wrap where the source wraps.

## Where the code and its promises differ

Each of these is a lemma with the exact condition, or with an input that shows it.

- A send is accepted after the worker has failed as long as the error is not
  recorded, and after that if it had passed its check before, although the
  requirements of the native-macos-gs-usb change say in their scenario "Faulted
  bus rejects sends" that none is: `FailedAcceptsIff`, `UnrecordedAcceptsIff`,
  `FaultedAcceptsIffRace`, `RaceReachable`.
- `1 + tseg2` overflows for tseg2 = 2^32 - 1. A debug build panics there; a
  release build, which is what is modelled, can return a timing that does not
  give the bitrate: `InexactIffWrapWins`, `UnreachableIff`, `WrappedTimingIsWrong`.
- The Damiao decoder looks at the third payload byte before it looks at the
  length, so a shorter frame makes it panic instead of being ignored:
  `DecodePanicsOnShortFrames`, `ShortFramePanics`.
- For the same reason a state reply whose position code ends in 0x33 or 0x55 is
  dropped: `StateReplyDecodes`, `LostFeedbackExample`.
- A mode read-back is lost when another frame on the same identifier follows it
  in the same tick, and is believed from any bus: `StateHidesReadback`,
  `ForeignReadback`, `ModeFromBusIff`.
- A failed `enable` does not roll back the groups enabled before the failure, and
  a failed verification leaves an older calibration in place: `Enable`.

## Model

| member | source | states |
|---|---|---|
| SessionProperties.TransmitOrder | crates/can-motor-control/src/transport/gs_usb/macos.rs:194-226 | in every interleaving, submitted + pending + channel frames are exactly the frames `send` enqueued, in order; both queues stay at or below 256; completions are a prefix of the enqueued frames |
| SessionProgress.EveryFrameIsDelivered | crates/can-motor-control/src/transport/gs_usb/macos.rs:623-671 | from any reachable state at the head of the loop: if the device completes what is in flight whenever it is asked, returns well-formed reads, and echoes when no credit is free, and if the bus is not dropped, then every frame `send` had accepted has been delivered in its place after 515 rounds of at most 262 turns plus the host frames in a read, whatever the caller does |
| SessionProgress.AcceptedIsDelivered | crates/can-motor-control/src/transport/gs_usb/macos.rs:623-671 | the same from any state of a healthy session, with the bound counted frame by frame: one round for each frame ahead, and one more if the endpoint is busy or no credit is free |
| SessionProgress.WaitBound | crates/can-motor-control/src/transport/gs_usb/macos.rs:623-671 | that bound is at most 515 rounds |
| SessionProgress.CanAnswer | crates/can-motor-control/src/transport/gs_usb/worker_core.rs:123-149 | such an answer of the device exists in every state |
| SessionProgress.SubmitEither | crates/can-motor-control/src/transport/gs_usb/macos.rs:636-644 | the submit section sends the oldest waiting frame if the endpoint and a credit are free, and does nothing otherwise |
| SessionProperties.CounterConservation | crates/can-motor-control/src/transport/gs_usb/macos.rs:213-217 | in every interleaving completions never exceed acceptances, but for one frame of a `send` that has enqueued and not yet counted; a healthy worker's completions plus its transfer in flight are the frames submitted; received = drained + queued + dropped |
| SessionProperties.CreditOwnership | crates/can-motor-control/src/transport/gs_usb/macos.rs:636-643 | in every interleaving a credit is in use exactly while one submitted frame under that id awaits its echo, never two, at most 32; so the two unwraps and the encoding of the submit step never fail |
| SessionProperties.RecoveryBounded | crates/can-motor-control/src/transport/gs_usb/macos.rs:646-709 | each endpoint is recovered from a halt at most once in a session, and a healthy worker has four reads pending whenever it is not in the middle of one's data |
| SessionProperties.ReceiveOrder | crates/can-motor-control/src/transport/gs_usb/macos.rs:673-690 | whatever the interleaving, the RX queue and what the caller drained refine the unbounded log of frames received, with oldest-first loss |
| SessionProperties.InputEffects | crates/can-motor-control/src/transport/gs_usb/worker_core.rs:137-149 | a received frame enters the queue and nothing else changes; an echo frees exactly its credit, leaves every other credit, the cursor and all that is shared as they were, and is not queued; anything else is refused with nothing changed but that the worker fails |
| SessionProperties.TerminalIsFinal | crates/can-motor-control/src/transport/gs_usb/macos.rs:326-331 | after a fault is recorded nothing more is submitted, completed or received in any continuation, nothing is drained unless a drain was already past its check, and at most one more frame is accepted |
| SessionProperties.FailedAcceptsIff | crates/can-motor-control/src/transport/gs_usb/macos.rs:194-218 | for any session whose worker has failed or is on its way out: some continuation still accepts a frame if and only if the worker has not gone yet, the channel has room, and a `send` is past its check or, as long as no error is recorded and the bus is not being dropped, can still get past it |
| SessionProperties.UnrecordedAcceptsIff | crates/can-motor-control/src/transport/gs_usb/macos.rs:326-331 | between the failure of the worker and the recording of its error, a frame can still be accepted if and only if the channel has room and the bus is not being dropped, also by a `send` that has not started yet |
| SessionProperties.FaultedAcceptsIffRace | crates/can-motor-control/src/transport/gs_usb/macos.rs:194-218 | once the error is recorded, a frame can still be accepted if and only if a `send` has passed its check, the worker has not gone yet and the channel has room |
| SessionProperties.RaceReachable | crates/can-motor-control/src/transport/gs_usb/macos.rs:194-218 | a concrete run in which a device disconnects between the check and the enqueue of one `send`, and the frame is then accepted on the faulted session |
| SessionProperties.ShutdownIsBounded | crates/can-motor-control/src/transport/gs_usb/macos.rs:623-634 | once shutdown is requested the worker is gone after a bounded number of its own steps, whatever the device and the caller do |
| SessionProperties.RankBound | crates/can-motor-control/src/transport/gs_usb/macos.rs:623-634 | that bound is at most 264 plus the host frames in one read |
| GsUsbSession.InitialInv | crates/can-motor-control/src/transport/gs_usb/macos.rs:611-622 | a session starts in the invariant of transmit order, credits, counters, transfers and control state |
| GsUsbSession.StepKeepsInv | crates/can-motor-control/src/transport/gs_usb/macos.rs:623-709 | every atomic step of worker or caller, against any device, keeps that invariant |
| GsUsbSession.RunKeepsInv | crates/can-motor-control/src/transport/gs_usb/macos.rs:623-709 | every run keeps it, so it holds in every reachable state |
| GsUsbSession.NextPendingEncodes | crates/can-motor-control/src/transport/gs_usb/macos.rs:205-206 | a frame waiting in the worker can be encoded under any credit, because `send` checked it under credit 0 |
| GsUsbSession.SubmitKeepsCredits | crates/can-motor-control/src/transport/gs_usb/macos.rs:636-644 | taking a free credit for a new submission keeps the one-to-one match of credits and submissions owed an echo |
| GsUsbSession.FillMoves | crates/can-motor-control/src/transport/gs_usb/macos.rs:628-634 | the fill takes the oldest frame of the channel as long as there is one and fewer than 256 wait, goes on to submit once it stops, and ends the session only when the channel is empty and closed; no frame is lost and nothing else changes |
| GsUsbSession.ReleaseKeepsCredits | crates/can-motor-control/src/transport/gs_usb/worker_core.rs:123-130 | accepting an echo of an id in use keeps that match, and counts one more echo |
| GsUsbSession.OutDelivers | crates/can-motor-control/src/transport/gs_usb/macos.rs:646-671 | the frame in flight stays in flight, or is counted delivered, or is given up by a worker that fails; a cleared halt keeps it |
| GsUsbSession.OutOutcomes | crates/can-motor-control/src/transport/gs_usb/macos.rs:646-671 | a transfer in flight is delivered and counted on a completion of twenty bytes, kept on the first stall that can be cleared, and given up by a worker that fails on anything else |
| GsUsbSession.InOutcomes | crates/can-motor-control/src/transport/gs_usb/macos.rs:673-709 | a read is processed if it has a positive number of whole host frames, put back with all four reads on the first stall that can be cleared, and fails the worker otherwise |
| GsUsbSession.ExitOutcomes | crates/can-motor-control/src/transport/gs_usb/macos.rs:326-331 | a worker that failed records its error and cleans up, and one that cleans up gives up its transfer and is gone |
| GsUsbSession.CallerOutcomes | crates/can-motor-control/src/transport/gs_usb/macos.rs:194-247 | a send or a drain goes ahead exactly if no error is recorded, and for a send the frame can be encoded; a drain takes all that is queued; a drop closes the channel before it requests shutdown |
| GsUsbSession.InTouches | crates/can-motor-control/src/transport/gs_usb/macos.rs:673-709 | polling the read endpoint, halt recovery included, leaves transmission, credits and queues alone and keeps the recovery and pending counts |
| GsUsbSession.CallerKeepsInv | crates/can-motor-control/src/transport/gs_usb/macos.rs:194-247 | each atomic section of `send`, the inbound drain and drop keeps the invariant |
| GsUsbWorker.Session.SubmitNext | crates/can-motor-control/src/transport/gs_usb/macos.rs:636-644 | the in-place submit section changes the session as one step of the state machine |
| GsUsbWorker.Session.PollOutput | crates/can-motor-control/src/transport/gs_usb/macos.rs:646-671 | the in-place completion section, with its one recovery, changes the session as one step of the state machine |
| GsUsbWorker.Session.PollInput | crates/can-motor-control/src/transport/gs_usb/macos.rs:673-709 | the in-place read section, with its one recovery, changes the session as one step of the state machine |
| GsUsbWorker.Session.ProcessChunk | crates/can-motor-control/src/transport/gs_usb/worker_core.rs:137-149 | processing one host frame in place changes queue, credits and counters as one step of the state machine |
| GsUsbWorker.Session.CallerSection | crates/can-motor-control/src/transport/gs_usb/macos.rs:194-247 | each section of `send`, drain and drop in place is one step of the state machine |
| GsUsbWorker.Session.Turn | crates/can-motor-control/src/transport/gs_usb/macos.rs:623-709 | with the caller acting first, one turn of the worker is a run of the state machine that keeps its invariant, follows the order of the loop, submits a frame exactly when the submit section can, and completes at most one, in the completion section only |
| GsUsbWorker.Session.Round | crates/can-motor-control/src/transport/gs_usb/macos.rs:623-709 | one iteration of the worker loop, with the caller acting before every section, is a run with at least one turn of the worker and at least five if it gets back to the head; when it reaches its submit section it has taken all it can from the channel, and it submits the oldest accepted frame that was not submitted yet if the endpoint and a credit were free when it began; it submits and completes at most one |
| GsUsbWorker.Session.RunSession | crates/can-motor-control/src/transport/gs_usb/macos.rs:611-710 | any number of iterations, against any device and caller, is a run with at least five turns of the worker for each iteration, and at most one frame submitted and at most one completed in each; every whole iteration that begins with the endpoint and a credit free and a frame waiting submits the oldest one; it ends early only by a worker on its way out |
| GsUsbWorker.Session.Send | crates/can-motor-control/src/transport/gs_usb/macos.rs:194-226 | `send`, with the worker acting at every point inside it, is a run of the state machine; it succeeds exactly when it enqueued its frame, counts exactly then, never on a session already faulted when it starts, and fails only on such a session, on a frame that cannot be encoded, or when the channel was full or its worker gone |
| GsUsbWorker.PhaseFollows | crates/can-motor-control/src/transport/gs_usb/macos.rs:623-709 | the worker goes through its loop in the order of the source and each inner loop makes progress |
| Retry.RetryInitialization | crates/can-motor-control/src/transport/gs_usb/macos.rs:343-365 | initialization stops at the first success or terminal failure, fails as not ready only at or after its deadline, and makes at most ceil(timeout / 50 ms) + 1 attempts however long each takes |
| SessionProperties.ReadJoinsLog | crates/can-motor-control/src/transport/gs_usb/macos.rs:683-685 | processing a read, of any length, adds exactly its received frames to the log, in order, up to the host frame that faults the worker, and all of them otherwise |
| SessionProperties.ReadDelivered | crates/can-motor-control/src/transport/gs_usb/macos.rs:678-690 | a well-formed read of any allowed size is taken whole; if no host frame in it faults the worker, that is if the worker gets back to the head of its loop, all its received frames joined the log and its transfer is pending again |
| SessionProperties.ProcessedIsRun | crates/can-motor-control/src/transport/gs_usb/macos.rs:683-685 | processing a read is a run of the worker's own turns |
| EchoCredits.Next | crates/can-motor-control/src/transport/gs_usb/worker_core.rs:111-121 | the id handed out is the free one nearest after the cursor, and there is none only if none is free |
| EchoCredits.EchoTable.Allocate | crates/can-motor-control/src/transport/gs_usb/worker_core.rs:111-121 | in place: returns that id, marks only it and moves the cursor just past it, or changes nothing |
| EchoCredits.EchoTable.ReleaseId | crates/can-motor-control/src/transport/gs_usb/worker_core.rs:123-130 | succeeds exactly on an id in range and in use, frees only that id, and otherwise changes nothing |
| EchoCredits.EchoTable.CountInUse | crates/can-motor-control/src/transport/gs_usb/worker_core.rs:132-134 | the loop counts the ids in use |
| EchoCredits.AllocateSucceedsBelowLimit | crates/can-motor-control/src/transport/gs_usb/worker_core.rs:111-134 | allocation succeeds exactly when fewer than 32 ids are in use |
| EchoCredits.InUseUpdate | crates/can-motor-control/src/transport/gs_usb/worker_core.rs:132-134 | taking or freeing an id changes the count by exactly one |
| EchoCredits.PassedOverComesNearer | crates/can-motor-control/src/transport/gs_usb/worker_core.rs:111-121 | an allocation that passes a free id over brings the cursor strictly nearer to it |
| EchoCredits.FreeIdIsIssued | crates/can-motor-control/src/transport/gs_usb/worker_core.rs:110-130 | bounded waiting: whatever releases interleave, a free id is handed out within its distance from the cursor plus one allocations, hence 32 |
| EchoCredits.LastIssuedIsReusedLast | crates/can-motor-control/src/transport/gs_usb/worker_core.rs:110-130 | the id handed out last, once freed, is handed out next if and only if every other id is in use |
| EchoCredits.IssuedInOrder | crates/can-motor-control/src/transport/gs_usb/worker_core.rs:110-121 | from the start and without releases the ids 0 to 31 are handed out in order and then none |
| RxQueue.Queue.PushBack | crates/can-motor-control/src/transport/gs_usb/worker_core.rs:71-85 | in place: evicts the oldest frame exactly when full, and counts receptions and drops |
| RxQueue.Queue.Drain | crates/can-motor-control/src/transport/gs_usb/worker_core.rs:87-93 | in place: hands over the whole queue in order and empties it |
| RxQueue.PushRefines | crates/can-motor-control/src/transport/gs_usb/worker_core.rs:71-85 | a push keeps the refinement: the queue is the newest min(n, 8192) of the n frames since the last drain, what came out then what is queued are increasing positions of the log, and the rest of the log is what was dropped |
| RxQueue.DrainRefines | crates/can-motor-control/src/transport/gs_usb/worker_core.rs:87-93 | a drain keeps it and hands over exactly the queued positions of the log |
| RxQueue.Run | crates/can-motor-control/src/transport/gs_usb/worker_core.rs:71-93 | every run of pushes and drains from an empty queue satisfies it and stays at or below 8192 frames |
| BitTiming.CalculateNominalTiming | crates/can-motor-control/src/transport/gs_usb/timing.rs:5-66 | the nested search refuses exactly invalid constraints, fails as unreachable exactly when no candidate is considered, and otherwise returns the candidate of least key over all prescalers on the grid and all tseg2; it terminates, also when the prescaler would overflow |
| BitTiming.SearchTseg2 | crates/can-motor-control/src/transport/gs_usb/timing.rs:15-46 | the inner loop returns the least of what it was given and every candidate of one prescaler |
| BitTiming.ConsideredIffFeasible | crates/can-motor-control/src/transport/gs_usb/timing.rs:13-26 | the search considers exactly the splits that give the bitrate exactly within the reported ranges, plus tseg2 = 2^32 - 1 when `1 + tseg2` wraps |
| BitTiming.SearchExactIffNoWrap | crates/can-motor-control/src/transport/gs_usb/timing.rs:13-26 | the search space is exactly the feasible timings if and only if no prescaler has a wrapping candidate |
| BitTiming.OptimumSound | crates/can-motor-control/src/transport/gs_usb/timing.rs:27-45 | the chosen timing meets every reported limit with one quantum of propagation and of jump width, and gives the bitrate exactly if and only if its tseg2 is not 2^32 - 1 |
| BitTiming.InexactIffWrapWins | crates/can-motor-control/src/transport/gs_usb/timing.rs:15-45 | for any valid constraints, the chosen timing fails to give the bitrate if and only if some prescaler has a wrapping candidate whose key is below that of every timing that does give it |
| BitTiming.WrapKeyClosedForm | crates/can-motor-control/src/transport/gs_usb/timing.rs:19-27 | a wrapping candidate competes with a sample error of 125 times the quanta in a bit plus eight |
| BitTiming.WrapCandidateCanLose | crates/can-motor-control/src/transport/gs_usb/timing.rs:19-45 | concrete constraints with a wrapping candidate that an exact timing beats |
| BitTiming.UnreachableIff | crates/can-motor-control/src/transport/gs_usb/timing.rs:53-65 | for any valid constraints, the search fails if and only if no timing gives the bitrate and no candidate wraps |
| BitTiming.WrappedTimingIsWrong | crates/can-motor-control/src/transport/gs_usb/timing.rs:19-26 | concrete constraints for which wrapping makes the search return a timing that does not give the bitrate |
| BitTiming.OptimumOverFeasible | crates/can-motor-control/src/transport/gs_usb/timing.rs:35-43 | with tseg2_max below 2^32 - 1, the chosen timing is feasible and strictly below every other feasible one in sample error, then quanta, prescaler, tseg2 |
| BitTiming.OptimumIsPreferred | crates/can-motor-control/src/transport/gs_usb/timing.rs:27-45 | for any valid constraints, against every timing that gives the bitrate and every wrapping candidate: the chosen timing samples nearer to 87.5 % of its bit, or as near with more quanta in the bit, or with as many and a lower prescaler, or the same prescaler and a lower tseg2 |
| BitTiming.OptimumPrefersQuanta | crates/can-motor-control/src/transport/gs_usb/timing.rs:27-43 | with tseg2_max below 2^32 - 1, of all timings within the limits that give the bitrate the chosen one has 8 * tseg2 nearest to its quanta, then the most quanta, then the lowest prescaler and tseg2 |
| BitTiming.PerfectSplitWins | crates/can-motor-control/src/transport/gs_usb/timing.rs:27-43 | if the lowest prescaler splits the bit at exactly 87.5 % within the limits, that timing is chosen |
| BitTiming.ValidIffInhabited | crates/can-motor-control/src/transport/gs_usb/timing.rs:72-90 | constraints are refused exactly when a quantity that must be positive is zero or a range is empty |
| BitTiming.UnreachableIffInfeasible | crates/can-motor-control/src/transport/gs_usb/timing.rs:53-65 | with tseg2_max below 2^32 - 1, the search fails if and only if no feasible timing exists |
| BitTiming.OptimumUnique | crates/can-motor-control/src/transport/gs_usb/timing.rs:68-70 | the optimum is unique, so the answer does not depend on the search order |
| BitTiming.SampleErrorClosedForm | crates/can-motor-control/src/transport/gs_usb/timing.rs:27-27 | the sample error of a candidate is 125 times the distance of 8 * tseg2 from the quanta in a bit |
| BitTiming.NearestEighthWins | crates/can-motor-control/src/transport/gs_usb/timing.rs:35-43 | for one prescaler the winner is the tseg2 nearest an eighth of the bit, the lower on a tie |
| BitTiming.OptimumNearIdeal | crates/can-motor-control/src/transport/gs_usb/timing.rs:27-43 | if any feasible timing samples within half a quantum of 87.5 %, the chosen one does, with error at most 500 |
| HostFrames.EncodeSucceedsExactlyOn | crates/can-motor-control/src/transport/gs_usb/protocol.rs:131-153 | encodability is independent of the echo id: classical, at most 8 bytes, identifier in range for its format |
| HostFrames.DecodeEncode | crates/can-motor-control/src/transport/gs_usb/protocol.rs:131-209 | decoding an encoded frame gives back echo id, identifier, length and payload, and its flags without those classical CAN cannot carry |
| HostFrames.EncodeDecode | crates/can-motor-control/src/transport/gs_usb/protocol.rs:165-209 | whatever decodes re-encodes to the same twenty bytes with the bytes past the DLC cleared |
| HostFrames.DecodeIgnoresTail | crates/can-motor-control/src/transport/gs_usb/protocol.rs:165-209 | payload bytes past the DLC, and bytes past the twentieth, do not matter |
| HostFrames.DecodeAcceptsExactlyEncodings | crates/can-motor-control/src/transport/gs_usb/protocol.rs:165-209 | a buffer decodes if and only if it is an encoding up to its DLC |
| HostFrames.EncodeInjective | crates/can-motor-control/src/transport/gs_usb/protocol.rs:131-163 | frames with equal encodings agree in echo id, identifier, flags, length and payload |
| HostFrames.IdWordBits | crates/can-motor-control/src/transport/gs_usb/protocol.rs:141-152 | identifier and both flag bits can be read back from the identifier word, and the error bit is never set |
| HostFrames.EncodeLayout | crates/can-motor-control/src/transport/gs_usb/protocol.rs:131-163 | byte by byte: echo id and identifier least significant byte first, the extended flag in the top bit of byte 7 and the remote flag below it, the length in byte 8, three zeros, the payload from byte 12 and zeros after it |
| HostFrames.DecodeRefusals | crates/can-motor-control/src/transport/gs_usb/protocol.rs:165-209 | which buffers are refused and with which error: the first thing wrong, in the order length, DLC, channel, FD flags, other flags, reserved byte, error bit |
| HostFrames.EncodeHostFrame | crates/can-motor-control/src/transport/gs_usb/protocol.rs:131-163 | the in-place encoder fills a fresh buffer with exactly the specified bytes, or fails with the specified error |
| CanFrames.FromParts | crates/motor-codec/src/frame.rs:117-137 | accepts exactly FD frames of a valid length that are not remote requests and classical ones of at most 8 bytes, and keeps identifier, flags and payload |
| CanFrames.FdLengths | crates/motor-codec/src/frame.rs:156-158 | the valid FD lengths are those of the sixteen data length codes |
| CanFrames.Classical | crates/motor-codec/src/frame.rs:74-86 | accepts exactly payloads of at most 8 bytes, which its payload gives back |
| MachineInts.FromLeToLe | crates/can-motor-control/src/transport/gs_usb/protocol.rs:222-232 | a word read back from its little-endian bytes is the word |
| MachineInts.ToLeFromLe | crates/can-motor-control/src/transport/gs_usb/protocol.rs:222-232 | four bytes are the little-endian bytes of the word read from them |
| MachineInts.PutU32 | crates/can-motor-control/src/transport/gs_usb/protocol.rs:230-232 | overwrites exactly four bytes of the buffer, with the little-endian bytes of the word |
| BitPack.CodeOfPosition | crates/damiao-codec/src/bitpack.rs:10-20 | a code is the clamped position along the range, scaled and rounded half up, and fits its width |
| BitPack.CodeMonotone | crates/damiao-codec/src/bitpack.rs:10-20 | quantization is monotone |
| BitPack.CodeRoundTrip | crates/damiao-codec/src/bitpack.rs:10-27 | every code survives decoding and encoding |
| BitPack.ValueRoundTrip | crates/damiao-codec/src/bitpack.rs:10-27 | encoding and decoding a value errs by at most half a step from the clamped value |
| BitPack.PackUnpack | crates/damiao-codec/src/bitpack.rs:44-69 | the five MIT field codes can all be recovered from the payload, so packing is injective |
| BitPack.UnpackPack | crates/damiao-codec/src/bitpack.rs:44-69 | every payload is the packing of the codes read from it, so packing is onto |
| BitPack.PackLayout | crates/damiao-codec/src/bitpack.rs:30-69 | the payload read as one big-endian number is position, velocity, kp, kd and torque side by side, 16 bits and four times 12 |
| BitPack.StateLayout | crates/damiao-codec/src/bitpack.rs:71-87 | a state reply read so is error and id, position, velocity, torque and the two temperatures side by side |
| BitPack.StatePackUnpack | crates/damiao-codec/src/codec.rs:227-242 | the fields of a state reply are read back as the motor packed them |
| DamiaoCodec.FirstViolation | crates/damiao-codec/src/codec.rs:257-271 | a command passes the range checks exactly when every field is within its limits |
| DamiaoCodec.MitRoundTrip | crates/damiao-codec/src/codec.rs:91-106 | an MIT command is encoded exactly when every field is in range, to an 8-byte classical frame on the send id from which each field can be recovered within half a step |
| DamiaoCodec.StateReplyDecodes | crates/damiao-codec/src/codec.rs:207-254 | a motor's state reply decodes to what the motor packed if and only if its third byte is neither 0x33 nor 0x55 |
| DamiaoCodec.LostFeedbackExample | crates/damiao-codec/src/codec.rs:218-222 | a valid state reply that the decoder drops as parameter traffic |
| DamiaoCodec.DecodePanicsOnShortFrames | crates/damiao-codec/src/codec.rs:210-222 | decoding a frame panics if and only if it gets past the first tests with fewer than three bytes, or with a public length field above 64 |
| DamiaoCodec.ShortFramePanics | crates/damiao-codec/src/codec.rs:220-222 | an empty classical frame makes the decoder panic |
| DamiaoCodec.ModeReadbackRoundTrip | crates/damiao-codec/src/codec.rs:190-205 | a mode reply decodes to the mode if and only if the motor's send id fits sixteen bits |
| DamiaoCodec.ReadbackIff | crates/damiao-codec/src/codec.rs:190-205 | a frame is read as a mode if and only if it has eight bytes, the send id, the read command and register 10, and the mode is the word in its last four bytes |
| DamiaoCodec.WriteAckIsInert | crates/damiao-codec/src/codec.rs:218-222 | a write acknowledgement is never read as a mode nor as a state |
| Motors.CacheAfterEvents | crates/can-motor-control/src/motor.rs:107-137 | after any events position, velocity, torque and the two temperatures are those of the last state, each in its place, or as they were if none came; the fault is the one reported since it if any, the sequence grew by the number of states modulo 2^64, and the enabled flag did not change |
| Motors.Motor.ApplyEvent | crates/can-motor-control/src/motor.rs:107-137 | in place: exactly the specified change of the cache, and after a state each of its measurements in its field |
| Dispatch.ScanFrames | crates/can-motor-control/src/robot.rs:459-494 | the decoding loop over one drain extends what was collected so far by exactly those frames, or fails as the first bad frame does |
| Dispatch.BatchEqualsOneByOne | crates/can-motor-control/src/robot.rs:442-503 | handing the events over after all frames are decoded leaves every motor as if each event had been applied when its frame was decoded |
| Dispatch.AfterIsApplied | crates/can-motor-control/src/robot.rs:499-503 | a motor's cache after delivery is its own events applied in arrival order; others' events do not matter |
| Dispatch.AfterKeepsFlag | crates/can-motor-control/src/robot.rs:499-503 | no inbound frame changes an enabled flag |
| Dispatch.BusIsolation | crates/can-motor-control/src/robot.rs:480-491 | a motor that only one bus routes to gets, from any mix of frames of all buses, exactly the events the frames of that bus alone decode to |
| Dispatch.DeliveriesAreRouted | crates/can-motor-control/src/robot.rs:488-490 | every delivery goes to a motor of some bus's routing table |
| Dispatch.EventsReach | crates/can-motor-control/src/robot.rs:459-503 | from the codec and the tables alone: a frame that is not taken as the answer to a mode query and decodes to an event the table routes adds exactly that event to its motor and nothing to the others, every other frame adds nothing, and collecting fails exactly if some frame does not decode |
| Dispatch.StatesAreCounted | crates/can-motor-control/src/robot.rs:480-491 | the states among the events brought to a motor are as many as the frames that decode to a state its table routes to it |
| Dispatch.ShowsLastState | crates/can-motor-control/src/robot.rs:480-503 | after a tick the motor shows the last state its frames brought it, whatever else arrived |
| Dispatch.ModeIsLastAnswer | crates/can-motor-control/src/robot.rs:461-478 | the mode a tick reports is what the last frame on the target's identifier, from any bus, says, and none without such a frame |
| Dispatch.ModeFromBusIff | crates/can-motor-control/src/robot.rs:461-478 | a reported mode was supplied by a bus if and only if the last frame on the target's identifier came from it |
| DamiaoBus.StateHidesReadback | crates/can-motor-control/src/robot.rs:461-478 | for any Damiao motor with a sixteen-bit send id: a mode reply alone is reported, one followed by the motor's state in the same tick is not, one preceded by it is |
| DamiaoBus.ForeignReadback | crates/can-motor-control/src/robot.rs:461-478 | for any such motor: a reply from a motor of the same ids on another Damiao bus is reported, although the motor's own bus alone would report nothing |
| DamiaoBus.ModeFrames | crates/damiao-codec/src/codec.rs:154-189 | the frames that set a mode are writes of 1, 2, 3 and 4 to register 10, for MIT, PosVel, Vel and PosForce, and the query is a read of it, byte by byte |
| DamiaoBus.SwitchFrames | crates/damiao-codec/src/codec.rs:45-54 | the frames that enable and disable a motor carry 0xFC and 0xFD after seven 0xFF on its send id, and the one that asks for its state is command 0xCC on the parameter identifier |
| DamiaoBus.VerifiedIffPosForce | crates/can-motor-control/src/robot.rs:227-234 | a tick that drains just a Damiao motor's answer verifies the motor if and only if the answer is what a write of PosForce carries, and no other mode's write carries that |
| DamiaoBus.CacheShowsLastReply | crates/damiao-codec/src/codec.rs:227-254 | after a tick a Damiao motor shows the position, velocity, torque and temperatures its last state reply carried, if the decoder did not drop that reply |
| DamiaoBus.ReadbackExamples | crates/damiao-codec/src/codec.rs:190-205 | two buses, a motor and a state reply for which both happen |
| Replays.ReplayTick | crates/can-motor-control/src/robot.rs:442-503 | a whole tick in the log changes a motor's replayed cache by exactly the events its frames were collected to |
| Replays.ReplayEvents | crates/can-motor-control/src/robot.rs:442-503 | and that is exactly the events that, by codec and table alone, its frames bring the motor, in order |
| Replays.ReplayKept | crates/can-motor-control/src/robot.rs:442-503 | sends that switch nothing, and a tick that did not end, change no replayed cache |
| Replays.FlagIsLastSwitch | crates/can-motor-control/src/motor.rs:107-141 | the replayed enabled flag is the last enable or disable frame sent; no inbound frame sets it |
| Replays.ReportRestsOnFrame | crates/can-motor-control/src/robot.rs:461-478 | a tick that reports PosForce received, since it began, a frame saying so, the last on the motor's identifier |
| Wires.OthersKeepSwitch | crates/can-motor-control/src/group.rs:268-304 | log entries that are not a switch of the motor leave its last switch as it was |
| Groups.Group.SendTo | crates/can-motor-control/src/group.rs:195-213 | puts on the wire exactly the frame the codec gives for that motor's identifiers and the intent, or nothing, and reports which and why |
| Groups.Group.SwitchAll | crates/can-motor-control/src/group.rs:268-304 | sends the codec's frames to a prefix of the motors in order, all of them exactly on success, and changes exactly their flags |
| Groups.Group.BatchSend | crates/can-motor-control/src/group.rs:245-266 | the codec's frame for one command per motor in order: nothing on a length mismatch, a prefix on a failure, all of them exactly on success |
| Groups.Group.QueryAll | crates/can-motor-control/src/group.rs:323-366 | exactly one frame for each motor whose codec supports the intent, in order, up to the first failure |
| Groups.Group.SetOpening | crates/can-motor-control/src/group.rs:571-579 | nothing is sent for an opening out of range, a missing calibration or a bad current; otherwise exactly one PosForce frame to the calibrated position on success and nothing on failure |
| Groups.Group.CalibrationCommand | crates/can-motor-control/src/group.rs:561-568 | exactly one PosForce frame to the target with the configured current on success, and nothing on failure or when that current is out of range |
| Groups.Group.SetCalibration | crates/can-motor-control/src/group.rs:537-559 | keeps a stroke of at least 0.1, and leaves what was there on a shorter one |
| Opening.Calibrated | crates/can-motor-control/src/group.rs:537-559 | a calibration is accepted exactly when its span is at least 0.1 |
| Opening.OpeningAt | crates/can-motor-control/src/group.rs:588-598 | the opening is always between 0 and 1; with a stored calibration it never divides by zero |
| Opening.CurrentFor | crates/can-motor-control/src/group.rs:614-621 | the caller's current is used if given, else the configured one, else 0.15; it is an error unless it is above 0 and at most 1 |
| Opening.OpeningEnds | crates/can-motor-control/src/group.rs:600-612 | opening 0 is the closed end of the stroke and 1 the open end |
| Opening.OpeningRoundTrip | crates/can-motor-control/src/group.rs:588-612 | the position of an opening lies on the stroke and reads back as that opening, whichever way the gripper opens |
| Opening.PositionRoundTrip | crates/can-motor-control/src/group.rs:588-612 | on the stroke, the opening of a position maps back to the position |
| Opening.OpeningSaturates | crates/can-motor-control/src/group.rs:595-597 | past either end of the stroke the opening is exactly 0 or 1 |
| Opening.OpeningMonotone | crates/can-motor-control/src/group.rs:595-597 | the opening never decreases in the direction from closed to open |
| Builder.Build | crates/can-motor-control/src/robot.rs:659-755 | builds exactly the sound declarations: proper and distinct names, a declared bus for each group that supports its motors, one motor to a gripper, opening control on grippers only and a configured current in (0, 1]; reports the first problem of the others, and that problem is there; a built robot has every property its methods rely on |
| Builder.FineIffSound | crates/can-motor-control/src/robot.rs:659-722 | checking bus by bus and group by group accepts exactly the sound declarations |
| Builder.ProblemIsThere | crates/can-motor-control/src/robot.rs:659-722 | what each reported error says of the declaration is true of it |
| Builder.MakeGroups | crates/can-motor-control/src/robot.rs:680-744 | the same for the groups: the bus each names, its motors in order, no calibration |
| Robots.Robot.RouteBus | crates/can-motor-control/src/robot.rs:85-109 | rebuilds a table from anything: a bijection between receive identifiers and motors of the bus, or the earlier and the later of two motors of the bus that share one, with the table of the motors before the later one |
| Robots.Robot.RouteAll | crates/can-motor-control/src/robot.rs:85-109 | for any order of the buses, rebuilds every table or reports a collision |
| Robots.Robot.Connect | crates/can-motor-control/src/robot.rs:80-130 | for any order of the buses, reports an identifier collision exactly when two motors on one bus share a receive identifier, names such a pair, and on success leaves every table a bijection; also after an earlier failed attempt; it fails otherwise only if the poller did |
| Topology.TablesExcludeCollisions | crates/can-motor-control/src/robot.rs:93-107 | if every bus has such a table no two motors of a bus share an identifier |
| Robots.Robot.TickInternal | crates/can-motor-control/src/robot.rs:426-505 | on success every bus that the poller answered is ready, as the log has it, and every bus without a descriptor was drained, and every motor has applied, in order, exactly the events that the frames of its own bus decode to and that bus's table routes to it, its sequence grown by the number of states among them; it fails only if polling or draining failed or a frame did not decode, and then no motor changes |
| Robots.Robot.OwnBusOnly | crates/can-motor-control/src/robot.rs:480-503 | with the tables of a connected robot, what a motor gets from any mix of frames is what its own bus's frames decode to and that bus's table routes to it |
| Robots.Robot.CollectFrames | crates/can-motor-control/src/robot.rs:442-495 | on success every readable bus was drained and the log since the poll is decoded completely, in order |
| Robots.Robot.DrainBus | crates/can-motor-control/src/robot.rs:456-495 | a drain adds only inbound frames to the log and collects exactly them |
| Robots.Robot.DeliverAll | crates/can-motor-control/src/robot.rs:499-503 | in place: each motor gets exactly its own events, in order |
| Robots.Robot.Tick | crates/can-motor-control/src/robot.rs:413-424 | after a tick every cache is still what the log says, and the log shows a motor verified in it exactly when the tick looked for that motor, succeeded and reported PosForce |
| Robots.Robot.VerifyMode | crates/can-motor-control/src/robot.rs:209-243 | sends only mode queries, one right before every tick, and no tick without one; the first tick that reports any mode ends it, with success exactly if that tick looked for this gripper's mode and reported PosForce, and with a failure otherwise |
| Robots.Robot.VerifyAll | crates/can-motor-control/src/robot.rs:149-168 | sends only mode writes and queries, and succeeds exactly when the log shows of every opening gripper on a damiao bus that its mode was written and then reported by a tick as PosForce |
| Robots.Robot.RefreshFeedback | crates/can-motor-control/src/robot.rs:280-308 | sends only refreshes to the gripper, and succeeds exactly when its motor reported a new state, with no tick failed and nothing refused |
| Robots.Robot.CalibrateEndpoint | crates/can-motor-control/src/robot.rs:310-347 | sends only PosForce commands to the gripper, to exactly four radians from where the log puts the motor at the start, with a current in (0, 1]; success reports where the log puts it at the end, with no tick failed and nothing refused |
| Robots.Robot.CloseAndOpen | crates/can-motor-control/src/robot.rs:259-268 | commands to one target, four radians towards closed from where the log puts the motor at the start; then to one target, four radians towards open from where the log puts it after closing; success returns those two ends, with no tick failed and nothing refused |
| Robots.Robot.MeasureStroke | crates/can-motor-control/src/robot.rs:256-268 | refreshes, and then closes and opens from where the log puts the motor after that; success returns the two ends, rests on a new state that the motor reported while it was refreshed, and means that no tick failed and nothing was refused |
| Robots.Robot.CalibrateOpening | crates/can-motor-control/src/robot.rs:245-278 | success keeps exactly the two positions of a stroke that just ended, began with fresh feedback and saw no tick fail; every failure leaves the gripper without a calibration |
| Robots.Robot.CalibrateOrDisable | crates/can-motor-control/src/robot.rs:194-204 | sends one stroke, and after a failure only disables: then the gripper has no calibration and either its last switch is a disable, or the codec has no disable frame, or the last thing the transport refused, and that in this call, is its disable |
| Robots.Robot.EnableGroup | crates/can-motor-control/src/robot.rs:170-205 | sends, in order, the mode writes where the mode cannot be read back, at most one enable for each motor, and once all are enabled, for opening control, one stroke; success keeps what that stroke measured and leaves the group switched on; a failure before the stroke leaves the calibration as it was; a failure of the stroke leaves none, is followed by disables only, and leaves the gripper disabled unless the codec or the transport would not |
| Robots.Robot.EnableInOrder | crates/can-motor-control/src/robot.rs:170-206 | the log is a chain of runs of single groups, in order, all but possibly the last successful, with nothing between them and nothing after; the groups before the failing one are switched on, those after it keep their switches and calibrations, and a failing gripper that had been enabled is disabled again unless the codec has no frame for that or the transport refuses it |
| Robots.Robot.Enable | crates/can-motor-control/src/robot.rs:133-207 | nothing but mode writes and queries is sent before every opening gripper on a damiao bus had its mode written and then reported as PosForce; if verification fails nothing else is ever sent and no calibration changes; after it the log is a chain of runs of single groups, so every command sent is a calibration command, four radians from where its gripper was when its phase began, with a current in (0, 1]; success leaves every motor switched on and every opening gripper calibrated in this call; on a failure the groups before the failing one stay enabled, the failing one has its old calibration or none and, if it is a gripper that had been enabled, is disabled again unless the codec has no frame for that or the transport refuses it, and those after it are untouched |
| Robots.Robot.ChainOpenings | crates/can-motor-control/src/robot.rs:170-206 | in such a chain every opening gripper before the failing one ends up calibrated, and the failing one with its old calibration or none |
| Robots.Robot.ChainCalibrates | crates/can-motor-control/src/robot.rs:170-206 | in such a chain, after any mode writes and queries, every command is a calibration command of the group whose run it belongs to |
| Robots.Robot.VerifiedBeforeTheRest | crates/can-motor-control/src/robot.rs:149-207 | verification before the first other frame makes every later enable or command preceded by it |
| Robots.Robot.OneMoreGroup | crates/can-motor-control/src/robot.rs:170-206 | the run of one more group extends the chain, keeps the groups before it switched on and leaves the later ones untouched |
| Robots.Robot.SwitchGroup | crates/can-motor-control/src/group.rs:268-304 | enabling or disabling a group keeps every cache, the flag included, what the log says it is, also when a send fails half way |
| Robots.Robot.Disable | crates/can-motor-control/src/robot.rs:367-377 | sends only disable frames, to the last group first, down to the first failure; on success no motor is flagged enabled; groups not reached are untouched |
| Robots.Robot.Run | crates/can-motor-control/src/robot.rs:80-505 | over any run of connect, enable, disable, tick, refresh, mode, batch and opening calls, with anything failing anywhere: every motor's cache is what the log of frames says it is, so it is flagged enabled exactly when the last switch sent to it was an enable; every stored calibration spans at least 0.1; the routing tables stay right |
| Evidence.RunStaysInGroup | crates/can-motor-control/src/robot.rs:170-205 | the run of one group sends only to that group; a failure leaves its calibration as it was or none, and a success leaves an opening gripper calibrated |
| Evidence.RunPushes | crates/can-motor-control/src/robot.rs:170-205 | in the run of one group every command is a calibration command of its opening control |
| Evidence.TickVerifies | crates/can-motor-control/src/robot.rs:461-478 | what a tick adds to the log verifies its target exactly when it ended and its last answer was PosForce, and reports no mode before the tick ends |
| Evidence.StrokeIsInert | crates/can-motor-control/src/robot.rs:245-278 | calibrating sends only to its own group and never switches a motor |
| Evidence.TravelOf | crates/can-motor-control/src/robot.rs:310-330 | opening travels four radians up for a gripper that opens towards increasing positions, and four down otherwise |

## Left out

- DecodedEvent: a decoder panic ends the tick as a failed decode; in the source it unwinds the thread.
- Enable: says nothing about how long verification, refreshing and dwelling take; each is a loop that ends at any point.
- RetryInitialization: takes any outcome for an attempt; what one attempt does with USB is not modelled.
- Build: takes what a proper name is as a parameter, in place of Unicode trimming, and ignores motor names.
- TickInternal: takes any answer of the poller, which it logs, in place of mio.
- StateReplyDecodes: decodes with DM4340 limits, as the code does for every motor; accuracy for other models is not claimed.
- nusb calls, descriptors, control transfers, endpoint discovery, adapter selection and thread start and join: foreign I/O, kept only as arbitrary outcomes.
- The discard of stale input before a session starts: the code may accept a quiet wait shorter than 20 ms near its deadline, so nothing is claimed.
- A device that never completes a cancelled transfer: cleanup is one step here and loops in the source.
- Texts of errors: errors carry their kind and data only.
- Mutex poisoning, and panics of one thread seen by the other.
- SocketCAN system calls and struct casts; its identifier packing repeats that of the host frame.
- PosVel, Vel and PosForce payload bytes, IEEE rounding, NaN and infinity: outside the real-number abstraction.
- The set-zero batch and the getters of groups and motors: loops and reads like those modelled, with nothing new to prove.
- TOML loading, the codec registry, motor tables, Python bindings and examples: plumbing.
