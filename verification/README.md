# T2 Buffer Copy Engine: a verified model

The drivers under `modules/` talk to Apple's T2 chip over the Buffer Copy Engine (BCE): rings of DMA submissions that the device completes in order. On top of the rings sit a virtual USB host controller, an audio device and the suspend path. This project models the parts of that stack with the most state, and two fixed-point state machines of the trackpad driver, and proves what they keep.

| file | models |
|---|---|
| `Prelude.dfy` | options, results with errno values, pause sources, ring index and 32-bit conversion facts |
| `SegmentLists.dfy` | scatterlists cut into 32-element descriptor pages, and selection by byte offset |
| `Rings.dfy`, `RingSafety.dfy` | submission rings: reservation, completion, release, the gate used for suspend, over every interleaving |
| `MessageBuffers.dfy` | audio messages: 20 buffers in rotation over a 21-slot ring |
| `Urbs.dfy` | one USB request: firmware windows, IN continuation, control stages |
| `ControlTransfers.dfy` | control transfers over every order of messages and completions |
| `TransferQueues.dfy` | the queue of one endpoint: every locked section as a function, and runs of them |
| `TransferEngine.dfy` | the same sections as methods of an object with loops over its lists |
| `TransferSafety.dfy` | request credits and ownership over every run |
| `ControlSafety.dfy` | the same on the control endpoint, with the one event that breaks them |
| `OutExactness.dfy` | OUT data, from scatterlist to the bytes the device took, over every calm run |
| `OutLimits.dfy` | the converse: every unlink or reopen that is not calm has a continuation with a wrong result |
| `OutPauses.dfy` | the same result in terms of pauses, flushes and deferred messages, and a pause that is not enough |
| `CreditUse.dfy` | what the sections get done: credits used, messages delivered, requests set up again |
| `CancelStatus.dfy` | the status a cancelled request is given back with |
| `EndpointHalts.dfy` | what ends a request, what halts an endpoint, and its reset |
| `TransferLimits.dfy` | where the engine does less than its comments say, and exactly when |
| `PauseSources.dfy` | the pause mask, its mutex, and the endpoint reset |
| `SampleTime.dfy` | binary64 sample times decoded with integers |
| `StreamClock.dfy` | the audio hardware pointer between zero timestamps |
| `StalledWriter.dfy` | detection of a client that stopped writing |
| `IoWorker.dfy` | the start/stop worker of an audio stream |
| `StartedFlag.dfy` | the stream's `started` flag beside that worker |
| `ReplyTags.dfy` | audio command tags, and which waiter a reply reaches |
| `ForceFilter.dfy`, `ClickLatch.dfy` | the force filter, and the two-level click latch over 16 contacts |
| `PositionFilter.dfy` | position hysteresis of a contact |
| `StateSave.dfy` | the state-save negotiation with the firmware |

Code that changes state in place is a class whose methods are proved equal to a function on its `View()`; the results are lemmas about those functions and about runs of them. A lock section is one atomic step, a workqueue is a pending flag and a worker, and the device, the firmware, the allocator and the clock are inputs: any completion, message, failure or time is allowed. Fields marked "on record" only remember what happened, so that a result can speak about it.

Where a promise turned out not to hold, there is a lemma with an input that breaks it and one that says when it does hold:

- After a command timeout the idle wait can return with the command still at the device, or while a thread holds a reservation (`IdleWithCommandAtDevice`, `LateCompletionDefeatsGate`); it means an unused queue exactly when no command has timed out (`IdleExactly`).
- OUT transfers stay exact exactly as long as the endpoint is not reopened over a live submission and the worker does not unlink the request a submission in flight belongs to (`OutExact`, `CalmExactly`); a count of zero submissions in flight, which the driver keeps, is enough for both. The driver breaks the condition in three ways. Its cancel worker ignores a failed pause, and the completion is then credited to the next request (`FailedPauseCreditsTheWrongRequest`). Its reset worker ignores the results of both flushes and does not wait for submissions to drain before it resumes, so it can reopen a stalled endpoint over a live submission, which `ReopenBreaks` covers. And a pause that succeeds is not enough when a window deferred during suspend is delivered by a submission to the still paused endpoint, which sends the request twice (`DeferredWindowSendsTwice`). `PrudentExact` proves exactness for all runs with a flush before each such step and no message left deferred when a drained endpoint takes a submission or completion.
- On the control endpoint an error status still finishes a cancelled request, and the worker gives it back again (`RefusedAfterCancel`). Credits and single giveback hold there exactly as long as no error status meets a cancelled request (`UnstruckCredits`, `UnstruckExactly`); with no error status deferred or arriving that cannot happen (`ErrorFreeUnstruck`).
- A comment says a halted endpoint takes no new requests; an inactive endpoint with a free credit starts them (`InactiveEndpointStarts`), and a failed pause reactivates a halted endpoint (`FailedPauseReopensHaltedQueue`, `ReopensHaltedExactly`).
- A halted endpoint with requests linked has its reset queued (`HaltedGetsReset`), except after the firmware halts a data endpoint by itself or a halted endpoint is activated before its reset (`OrderlyExactly`).
- An empty non-bulk OUT request is never finished by any event (`EmptyOutStuckExactly`). A control request without a data stage whose SUCCESS comes before its setup completion stays linked with all stages over (`EarlySuccessSticks`, `StuckExactly`) until another status message arrives (`StuckLeavesExactly`).
- What audio counted before the first zero timestamp can lie past that timestamp's position (`PreCountPassesFirst`). It lies below exactly when the timestamp is not at the ring's start and every query so far came before its position (`FirstAnchorExactly`), and it is always below the following timestamp (`FirstAnchorCarriesOn`).
- Successful START and STOP commands do not strictly alternate when one in between failed (`FailedStopThenStart`). The histories that occur are exactly those that begin with START and alternate after every success (`HistoriesExactly`); a kind can come next exactly when the device is not known to be there already (`NextCommandExactly`).
- A STOP and a START trigger before the worker has run leave the device running and the stream's `started` flag down (`StopStartLosesFlag`). Flag and device agree, once nothing is under way, exactly as long as no START is requested while the flag is lost (`FlagAgrees`, `LostExactly`); waiting for the worker first, as prepare does, is enough (`PreparedIsHeard`).
- A reply reaches its own waiter exactly while that waits and the tag has not been reused (`ReplyReachesExactly`), and a reply is looked up inside the table exactly when its number is not negative (`InsideExactly`).
- A falling write count hides a second stall (`FallingCountMissed`, with `ZeroesExactly` for all sequences).
- A percentage outside 100..10000 can put the force click below the button (`OtherPercentsFail`, `NestedExactly`), and a large position budget lets the pointer leave the touched range (`BetweenExactly`).
- A state buffer at or above 2^44 would be announced at the wrong address (`SaveMessageExact`); the 37-bit DMA mask keeps buffers below it.

## Model

| member | source | states |
|---|---|---|
| `SegmentLists.PlaceSegment` | modules/t2bce_dma/queue.c:417-454 | one segment goes into its 32-element chunk behind the earlier ones, or the fault reported is that segment's |
| `SegmentLists.CreateSegmentList` | modules/t2bce_dma/queue.c:398-461 | succeeds exactly for a non-empty list without a faulty segment; the chunks then hold its segments in order, and otherwise the error is that of the first fault |
| `SegmentLists.RepresentsFlat` | modules/t2bce_dma/queue.c:398-461 | the chunks partition the scatterlist's byte stream: their bytes in order are the original DMA bytes |
| `SegmentLists.RepresentsConsecutive` | modules/t2bce_dma/queue.c:417-454 | chunks have 1 to 32 elements and contiguous, non-empty byte ranges that end at the data size |
| `SegmentLists.ExactlyOneChunk` | modules/t2bce_dma/queue.c:498-507 | every byte offset lies in one chunk and in no other |
| `SegmentLists.SetNextSubmission` | modules/t2bce_dma/queue.c:483-520 | the search loop returns what the selection function specifies, with its three refusals |
| `SegmentLists.NextRangeExact` | modules/t2bce_dma/queue.c:483-520 | a selection succeeds exactly inside the data, makes progress, names exactly the stream's bytes at the offset, and is cut short only at a chunk's end |
| `SegmentLists.CoverExact` | modules/t2bce_dma/queue.c:483-520 | repeated selection covers exactly the requested range, in order, each byte once |
| `Rings.SubmissionQueue.constructor` | modules/t2bce_dma/queue.c:211-243 | a new ring is empty and one slot short of its size is available |
| `Rings.SubmissionQueue.TryTake` | modules/t2bce_dma/queue.c:264-289 | the atomic decrement takes a slot exactly when one is available |
| `Rings.SubmissionQueue.CancelReservation` | modules/t2bce_dma/queue.c:314-318 | the slot is available again and nothing else changes |
| `Rings.SubmissionQueue.NextSubmission` | modules/t2bce_dma/queue.c:320-325 | the entry is written at the old tail, and the tail moves on with wrap-around |
| `Rings.SubmissionQueue.HandleCompletion` | modules/t2bce_dma/queue.c:141-174 | the completion is recorded at the completion tail, or an error there when the device skipped an index |
| `Rings.SubmissionQueue.NextCompletion` | modules/t2bce_dma/include/t2bce_dma_queue.h:145-153 | completions are fetched in order, and none when the consumer has caught up |
| `Rings.SubmissionQueue.NotifySubmissionComplete` | modules/t2bce_dma/queue.c:334-343 | the head moves on and its slot is available again |
| `RingSafety.NextInv` | modules/t2bce_dma/queue.c:264-343 | every step of every thread and of the device keeps the ring invariant, timeouts included |
| `RingSafety.RingLaw` | modules/t2bce_dma/queue.c:141-174 | over every interleaving without timeouts free + reserved + in-flight slots is the capacity, the tail leads the head by the in-flight count, and no in-flight slot or unread completion is overwritten |
| `RingSafety.GateQuiesces` | modules/t2bce_dma/queue.c:264-312 | after a disable and the idle wait no thread holds a reservation and nothing is in flight, despite the check-take-recheck race |
| `RingSafety.QuietFreezes` | modules/t2bce_core/t2bce_main.c:333-345 | from then on no run writes the ring until the engine is enabled again |
| `RingSafety.IdleExactly` | modules/t2bce_dma/queue.c:305-312 | what the idle wait observes: reservations, commands not yet fetched and fetched ones not yet released add up to the timeouts; so it means an unused queue exactly when no command has timed out |
| `RingSafety.IdleWithCommandAtDevice` | modules/t2bce_dma/queue.c:603-619 | a run in which the idle wait returns although the device still has the timed-out command |
| `RingSafety.ResultReachesItsCommand` | modules/t2bce_dma/queue.c:563-582 | without timeouts the k-th completion meets the slot of the k-th command |
| `RingSafety.OutOfOrderFails` | modules/t2bce_dma/queue.c:141-174 | a completion is recorded as reported exactly when it comes in ring order; otherwise the command that was due fails, with no data |
| `RingSafety.TakenIsReturned` | modules/t2bce_dma/queue.c:264-318 | a reservation takes a slot that its cancellation returns, and none when none is free |
| `RingSafety.TimeoutShiftsResults` | modules/t2bce_dma/queue.c:603-619 | after one timeout a late result meets the next command's slot |
| `RingSafety.DoubleRelease` | modules/t2bce_dma/queue.c:603-619 | a run of the 32-slot command queue in which one slot is released twice |
| `RingSafety.LateCompletionDefeatsGate` | modules/t2bce_dma/queue.c:305-312 | a run in which the idle wait returns while a thread holds a reservation |
| `MessageBuffers.MessageQueue.constructor` | modules/t2bce_audio/protocol_bce.c:101-119 | 20 buffers over a 21-slot ring, nothing posted |
| `MessageBuffers.MessageQueue.SubmitPending` | modules/t2bce_audio/protocol_bce.c:313-333 | the reposting loop posts the next buffers of the rotation until it is refused |
| `MessageBuffers.MessageQueue.HandleInbound` | modules/t2bce_audio/protocol_bce.c:248-275 | the completion loop delivers all unread completions with their buffers and releases their slots |
| `MessageBuffers.PostManyPosts` | modules/t2bce_audio/protocol_bce.c:313-333 | as many buffers are posted as reservations are granted; the d-th slot from the tail gets the d-th buffer of the rotation, and every other slot keeps its content |
| `MessageBuffers.DeliveredInOrder` | modules/t2bce_audio/protocol_bce.c:248-275 | the i-th message delivered is the i-th unread completion, read from the i-th buffer of the rotation |
| `MessageBuffers.ReceiveAllReleases` | modules/t2bce_audio/protocol_bce.c:248-275 | nothing stays unread, and exactly the slots fetched become available |
| `MessageBuffers.CompletionReadsItsBuffer` | modules/t2bce_audio/protocol_bce.c:222-275 | over unbounded runs the k-th completion is read from the buffer of the k-th submission |
| `MessageBuffers.NextBufferIsFree` | modules/t2bce_audio/protocol_bce.c:131-162 | a buffer about to be filled or posted is in no submission that is still unreleased |
| `MessageBuffers.PostManyRun` | modules/t2bce_audio/protocol_bce.c:313-333 | the reposting loop is a run of the interleaving model, so what holds over its runs holds of the method |
| `MessageBuffers.ReceiveAllRun` | modules/t2bce_audio/protocol_bce.c:222-275 | so is the handler, which fetches everything reported and releases as much |
| `MessageBuffers.RepostsFreeBuffers` | modules/t2bce_audio/protocol_bce.c:313-333 | in every reachable state a call hands over the next buffers of the rotation, none of which is in an unreleased submission |
| `MessageBuffers.HandlerReadsItsBuffers` | modules/t2bce_audio/protocol_bce.c:222-275 | in every reachable state a call delivers each completion with the buffer its submission handed over |
| `MessageBuffers.UnreleasedDiffer` | modules/t2bce_audio/protocol_bce.c:131-162 | submissions not yet released never share a buffer |
| `Urbs.ReactSound` | modules/t2bce_vhci/transfer.c:811-1246 | every message, completion and resume that leaves a request linked keeps offset + submitted within the open window, within the buffer |
| `Urbs.ReactPosts` | modules/t2bce_vhci/transfer.c:811-1246 | all an event posts is the setup packet at its own address, or exactly the buffer's bytes at the receive offset, out of a window that is the rest of the buffer for IN and for OUT what the firmware asked for |
| `Urbs.WindowIsAnswered` | modules/t2bce_vhci/transfer.c:989-1015 | a window for a waiting OUT request with bytes left is answered by a post when a slot is granted |
| `Urbs.TransferInSane` | modules/t2bce_vhci/transfer.c:852-898 | an IN submission spans no more than what is left of the buffer |
| `Urbs.BeginSound` | modules/t2bce_vhci/transfer.c:719-739 | a successful start leaves the waiting state with its counters in range |
| `ControlTransfers.ControlSafe` | modules/t2bce_vhci/transfer.c:1108-1209 | over every order of events, status 0 comes only after the setup packet was sent, once and with the request's own eight bytes, a completion for it, a finished data stage and a SUCCESS message (section 8.5.3 of the USB 2.0 specification) |
| `ControlTransfers.ControlStep` | modules/t2bce_vhci/transfer.c:1145-1209 | one event moves a control request only along its stages, and finishes it with 0 only when data and status are both in |
| `ControlTransfers.ControlPosts` | modules/t2bce_vhci/transfer.c:1145-1209 | over every order of events nothing is posted before the setup packet, which goes out once; everything after it is a part of the buffer, in the request's direction |
| `ControlTransfers.EitherOrderFinishes` | modules/t2bce_vhci/transfer.c:1108-1143 | status after data and data after status both end the request |
| `ControlTransfers.StuckExactly` | modules/t2bce_vhci/transfer.c:1182-1209 | the one event after which a request with all stages over stays linked: setup completion, no data stage, SUCCESS already received |
| `ControlTransfers.StuckLeavesExactly` | modules/t2bce_vhci/transfer.c:1108-1180 | such a request is given back exactly by the next status message that carries a status, with 0 for SUCCESS |
| `ControlTransfers.EarlySuccessSticks` | modules/t2bce_vhci/transfer.c:1145-1209 | from every started request without a data stage, a run that gets there |
| `TransferQueues.StartWf` | modules/t2bce_vhci/transfer.c:719-739 | starting a request keeps the queue well formed and its list unchanged, also when the start fails |
| `TransferQueues.BeginFails` | modules/t2bce_vhci/transfer.c:852-898 | only IN data requests can fail to start, and then nothing was posted |
| `TransferQueues.SettleWf` | modules/t2bce_vhci/transfer.c:741-769 | an event on a linked request unlinks that request or none |
| `TransferQueues.ResumeOneWf` | modules/t2bce_vhci/transfer.c:430-439 | the resume walk's step on one request removes no other from the list |
| `TransferEngine.TransferQueue.constructor` | modules/t2bce_vhci/transfer.c:19-57 | a new queue is active, empty and has all its credits |
| `TransferEngine.TransferQueue.CompleteUrb` | modules/t2bce_vhci/transfer.c:741-755 | the request moves from the list to the giveback list, with its credit if it was started |
| `TransferEngine.TransferQueue.Apply` | modules/t2bce_vhci/transfer.c:741-769 | an event's outcome as field updates: posting, finishing, or halting the endpoint |
| `TransferEngine.TransferQueue.InitUrb` | modules/t2bce_vhci/transfer.c:719-739 | a credit is taken exactly when the start succeeds |
| `TransferEngine.TransferQueue.InitWaiting` | modules/t2bce_vhci/transfer.c:591-602 | the loop starts waiting requests in list order while credits last |
| `TransferEngine.TransferQueue.DeliverPendingEvents` | modules/t2bce_vhci/transfer.c:210-231 | deferred messages are delivered to the oldest request until one must wait, then waiting requests start |
| `TransferEngine.TransferQueue.DeferEvent` | modules/t2bce_vhci/transfer.c:77-90 | the message is kept unless the allocation fails |
| `TransferEngine.TransferQueue.HandleEvent` | modules/t2bce_vhci/transfer.c:252-309 | which messages an inactive queue keeps or drops, and which an active one delivers or defers |
| `TransferEngine.TransferQueue.HandleCompletion` | modules/t2bce_vhci/transfer.c:318-341 | an aborted completion only releases its slot, any other goes to the oldest request |
| `TransferEngine.TransferQueue.HandleCompletions` | modules/t2bce_vhci/transfer.c:311-346 | the completion loop, followed by delivery of what waited |
| `TransferEngine.TransferQueue.RemovePending` | modules/t2bce_vhci/transfer.c:233-250 | all deferred messages are dropped and nothing else changes |
| `TransferEngine.TransferQueue.GivebackAll` | modules/t2bce_vhci/transfer.c:92-106 | finished requests are given back in the order they finished |
| `TransferEngine.TransferQueue.CreateUrb` | modules/t2bce_vhci/transfer.c:648-717 | link, start or wait, reset of a halted endpoint, the status returned, and nothing linked or posted when it is an error |
| `TransferEngine.TransferQueue.RequestUrbCancel` | modules/t2bce_vhci/transfer.c:771-809 | a linked request is marked and listed for the worker once |
| `TransferEngine.TransferQueue.TakeCancelled` | modules/t2bce_vhci/transfer.c:550-562 | the worker takes the oldest cancelled request, if any |
| `TransferEngine.TransferQueue.UnlinkCancelled` | modules/t2bce_vhci/transfer.c:570-575 | it unlinks that request and returns its credit if it held one |
| `TransferEngine.TransferQueue.GiveCancelled` | modules/t2bce_vhci/transfer.c:580-580 | and gives it back with its cancel status |
| `TransferEngine.HealthyQueue` | modules/t2bce_vhci/transfer.c:719-755 | credits add up on the object and nothing it gave back is linked or was given back before, as every entry point keeps on a non-control endpoint |
| `TransferEngine.TransferQueue.ResumeEndpoint` | modules/t2bce_vhci/transfer.c:428-441 | the walk over linked requests starts or re-arms each until credits run out, then delivers what waited |
| `TransferSafety.NextInv` | modules/t2bce_vhci/transfer.c:210-346 | every locked section keeps credits, cancellation state and the place of each request, on every endpoint, unless an error status meets a cancelled control request |
| `TransferSafety.CreditsConserved` | modules/t2bce_vhci/transfer.c:719-755 | over every run of a non-control endpoint free credits and requests holding one add up to the limit |
| `TransferSafety.GivenBackOnce` | modules/t2bce_vhci/transfer.c:541-584 | over every such run a request is given back at most once, only after it was accepted and never while linked, whichever path does it |
| `TransferSafety.PlacedOnce` | modules/t2bce_vhci/transfer.c:541-584 | the same of every state that satisfies the invariant |
| `ControlSafety.UnstruckCredits` | modules/t2bce_vhci/transfer.c:719-755 | over every run of any endpoint in which no error status meets a cancelled control request, free credits and requests holding one add up to the limit |
| `ControlSafety.UnstruckExactly` | modules/t2bce_vhci/transfer.c:1108-1143 | from every state with the invariant, a step keeps single giveback whatever follows exactly when it is no such event |
| `ControlSafety.NextDooms` | modules/t2bce_vhci/transfer.c:1108-1143 | every such event leaves a request finished that the worker will give back again |
| `ControlSafety.WorkerGivesAgain` | modules/t2bce_vhci/transfer.c:541-584 | and running the worker gives it back a second time |
| `ControlSafety.ErrorFreeUnstruck` | modules/t2bce_vhci/transfer.c:252-309 | with no error status deferred or arriving the event cannot happen |
| `ControlSafety.RefusedAfterCancel` | modules/t2bce_vhci/transfer.c:1108-1143 | a run of the control endpoint with a double giveback |
| `OutExactness.OutExact` | modules/t2bce_vhci/transfer.c:932-1105 | over every calm run, with any windows, pauses, completions and cancellations, an OUT request given back with status 0 had exactly the first `length` bytes of its buffer moved, in order and once each |
| `OutExactness.OutExactScatter` | modules/t2bce_dma/queue.c:483-520 | for a scatterlist request these are the scatterlist's own DMA bytes |
| `OutExactness.OutProgress` | modules/t2bce_vhci/transfer.c:1026-1105 | no event takes bytes back, and a completion that leaves a non-empty OUT request linked moves its offset forward |
| `OutExactness.NextOut` | modules/t2bce_vhci/transfer.c:252-346 | every calm section keeps the exactness invariant, with at most one OUT submission in flight, the oldest request's |
| `OutExactness.DoneStep` | modules/t2bce_vhci/transfer.c:1026-1105 | the completion of a request's own submission extends the moved prefix exactly, or ends the request with an error |
| `OutExactness.UpdateStep` | modules/t2bce_vhci/transfer.c:989-1024 | whatever window the firmware opens, what is posted covers exactly the bytes counted as submitted |
| `OutExactness.ResumeStep` | modules/t2bce_vhci/transfer.c:1229-1246 | after a pause an OUT request waits for a new window at the offset already moved |
| `OutExactness.WorkerUnlinkOut` | modules/t2bce_vhci/transfer.c:565-575 | unlinking a request that nothing in flight belongs to keeps the invariant |
| `OutExactness.DoResumeOut` | modules/t2bce_vhci/transfer.c:428-441 | reopening with no live submission in flight keeps the invariant |
| `OutLimits.CalmExactly` | modules/t2bce_vhci/transfer.c:541-584 | from every state that calm runs reach, a step leaves exactness intact whatever follows exactly when it is calm |
| `OutLimits.UnlinkBreaks` | modules/t2bce_vhci/transfer.c:565-575 | unlinking the owner of a submission in flight has a calm continuation that gives a request back with status 0 and the wrong bytes |
| `OutLimits.ReopenBreaks` | modules/t2bce_vhci/transfer.c:1229-1246 | so has reopening over a live submission |
| `OutLimits.OrphanBreaks` | modules/t2bce_vhci/transfer.c:311-346 | so has every state with a submission in flight that no linked request posted |
| `OutLimits.ClearList` | modules/t2bce_vhci/transfer.c:541-584 | cancelling and the worker can empty the list from any state without touching what is in flight |
| `OutLimits.CreditedToOldest` | modules/t2bce_vhci/transfer.c:337-338 | a completion finishes the oldest request even when another one's submission completed, with no byte of it moved |
| `OutLimits.SomeRequestCompletes` | modules/t2bce_vhci/transfer.c:1080-1098 | a calm run in which a request is posted, completed and given back with status 0, all 512 bytes moved |
| `OutLimits.FailedPauseCreditsTheWrongRequest` | modules/t2bce_vhci/transfer.c:565-580 | a run in which a request unlinked after a failed pause makes the next one finish with status 0 and no byte moved |
| `OutPauses.PrudentExact` | modules/t2bce_vhci/transfer.c:348-384 | exactness over every run that flushes before it reopens or unlinks a started request, and on a drained endpoint submits and completes only with no message deferred |
| `OutPauses.StaysDry` | modules/t2bce_vhci/transfer.c:696-712 | under that condition nothing is posted between the flush and the reopening |
| `OutPauses.DeferredWindowSendsTwice` | modules/t2bce_vhci/transfer.c:260-279 | a run with no failed pause and no cancellation: a window deferred during suspend is delivered by a submission to the still paused endpoint, and after the reopening the request is sent a second time |
| `OutPauses.PostedWhilePaused` | modules/t2bce_vhci/transfer.c:696-712 | a submission to an inactive endpoint delivers a deferred window and posts the older request |
| `TransferLimits.CancelledFinishesExactly` | modules/t2bce_vhci/transfer.c:1108-1180 | a cancelled request leaves by an event exactly on the control endpoint and an error status |
| `TransferLimits.InactiveEndpointStarts` | modules/t2bce_vhci/transfer.c:696-712 | a request submitted to an inactive endpoint starts exactly when a credit is left once the earlier waiting ones were tried and its own start succeeds |
| `TransferLimits.EmptyOutStuckExactly` | modules/t2bce_vhci/transfer.c:900-914 | a started OUT request is beyond the reach of every event exactly when it is empty and not bulk |
| `CreditUse.NoIdleCredit` | modules/t2bce_vhci/transfer.c:592-604 | after a completion, a message to an active endpoint, a submission, a resume or a failed pause, a request that still waits although a credit is free has just failed to start |
| `CreditUse.NobodyWaits` | modules/t2bce_vhci/transfer.c:592-604 | so with reservations granted the credits are used up or every linked request has been started |
| `CreditUse.StartsExactly` | modules/t2bce_vhci/transfer.c:718-745 | a start fails exactly for an IN data request without a slot for its message or its submission |
| `CreditUse.AcceptedExactly` | modules/t2bce_vhci/transfer.c:660-716 | a submission is accepted unless the link is refused or its immediate start fails, and then leaves nothing behind |
| `CreditUse.DeliverExact` | modules/t2bce_vhci/transfer.c:210-231 | deferred messages are taken in order, each by the request that is oldest by then, and the rest is kept because no request is left or the oldest cannot take the next one |
| `CreditUse.NoMessageKept` | modules/t2bce_vhci/transfer.c:210-231 | after completions, a resume or a failed pause no deferred message is left that the oldest request could take, unless that was started only then |
| `CreditUse.WindowKeepsItsTurn` | modules/t2bce_vhci/transfer.c:280-304 | a window neither overtakes a deferred one nor gets lost on an active endpoint |
| `CreditUse.InactiveKeepsWindows` | modules/t2bce_vhci/transfer.c:260-279 | an inactive endpoint keeps windows exactly while suspended, the control endpoint also during internal work |
| `CreditUse.BatchesSplit` | modules/t2bce_vhci/transfer.c:320-342 | completions have the same effect one by one and in batches |
| `CreditUse.CompleteOneRing` | modules/t2bce_vhci/transfer.c:320-342 | a completion takes the oldest submission of its ring and leaves the others in place |
| `CreditUse.ResumeReaches` | modules/t2bce_vhci/transfer.c:428-441 | after a resume no linked request waits for a completion that will not come, unless an earlier one waits for a credit and none is left, which ends the walk |
| `CreditUse.ReopenReaches` | modules/t2bce_vhci/transfer.c:428-441 | after a reopen each IN request started before that still waits for a completion has a submission on the ring, with the same exception |
| `CancelStatus.CancelledWithItsStatus` | modules/t2bce_vhci/transfer.c:541-584 | over every run from a cancellation on, the worker gives that request back only with the status it was cancelled with |
| `CancelStatus.OldestCancelledFirst` | modules/t2bce_vhci/transfer.c:550-562 | cancellations are worked off in order |
| `EndpointHalts.CompletionVerdict` | modules/t2bce_vhci/transfer.c:1027-1103 | a completion finishes a data request with 0 exactly when it is in order and reaches the buffer's end or is a short IN packet; the errno of every other one, and which of them halt the endpoint |
| `EndpointHalts.EmptyWindowHalts` | modules/t2bce_vhci/transfer.c:1001-1005 | an empty window halts an endpoint that has bytes to send |
| `EndpointHalts.StatusVerdict` | modules/t2bce_vhci/transfer.c:1106-1143 | SUCCESS finishes after the data stage, a stall halts, other errors halt and queue the reset when more requests wait |
| `EndpointHalts.HaltStops` | modules/t2bce_vhci/transfer.c:757-769 | a halt makes the endpoint inactive, and queues the reset exactly as its rule says |
| `EndpointHalts.HaltedGetsReset` | modules/t2bce_vhci/transfer.c:697-704 | over every run in which a halted endpoint is left alone until its reset, one that has requests has the reset queued |
| `EndpointHalts.OrderlyExactly` | modules/t2bce_vhci/transfer.c:393-441 | with no message deferred, exactly those steps keep that |
| `PauseSources.SetBit` | modules/t2bce_vhci/transfer.c:457-461 | setting a bit of the mask adds that source to the set, and the test for it is membership |
| `PauseSources.ClearBit` | modules/t2bce_vhci/transfer.c:480-486 | clearing a bit removes that source from the set |
| `PauseSources.NextInv` | modules/t2bce_vhci/transfer.c:348-539 | every step of pause, resume, reset and halt keeps the mask and the phase of the lock's holder in agreement |
| `PauseSources.PauseLaw` | modules/t2bce_vhci/transfer.c:450-539 | over every run the mask is the set of sources whose last granted request was a pause, and a free lock with an active queue means nobody wants a pause |
| `PauseSources.LastSourceReactivates` | modules/t2bce_vhci/transfer.c:472-498 | a resume asks the firmware exactly when it is by the last source, then reactivates; any other leaves the queue's activity alone |
| `PauseSources.RepeatsAreIdle` | modules/t2bce_vhci/transfer.c:450-498 | exactly the repeated requests change nothing |
| `PauseSources.FailedPauseReopensHaltedQueue` | modules/t2bce_vhci/transfer.c:393-398 | a run in which a failed pause leaves a halted queue active |
| `PauseSources.ReopensHaltedExactly` | modules/t2bce_vhci/transfer.c:348-448 | a halted queue becomes active exactly by a failed pause or an acknowledged resume |
| `PauseSources.ResetCycle` | modules/t2bce_vhci/transfer.c:500-539 | a reset pauses a halted endpoint for the worker, ends the halt, and leaves it paused by whoever else had paused it; a healthy endpoint is left alone |
| `PauseSources.PausableQueue.Pause` | modules/t2bce_vhci/transfer.c:450-470 | the call as steps of the machine; it reports success exactly when the source is in the mask afterwards |
| `PauseSources.PausableQueue.Resume` | modules/t2bce_vhci/transfer.c:472-498 | likewise; success exactly when the source is out of the mask |
| `PauseSources.PausableQueue.Reset` | modules/t2bce_vhci/transfer.c:500-539 | a stalled queue is paused for the worker, reset and resumed; any other is left alone |
| `SampleTime.DecodeExact` | modules/t2bce_audio/timing.h:13-37 | a pattern is accepted with n exactly when its sign is positive, it denotes n by section 3.4 of IEEE 754-2019, and n is at most 2^53 |
| `SampleTime.DecodeEncode` | modules/t2bce_audio/timing.h:13-37 | the encoding of every integer up to 2^53 decodes to it |
| `SampleTime.EncodeDecode` | modules/t2bce_audio/timing.h:13-37 | every accepted pattern is the encoding of its result |
| `StreamClock.NextInv` | modules/t2bce_audio/pcm.c:398-682 | start, stop, timestamps and pointer queries keep the position below one pass after the last timestamp |
| `StreamClock.BelowNextTimestamp` | modules/t2bce_audio/pcm.c:413-431 | over every run whose first step is at least half of what a ring exceeds the latency by, the position stays strictly below a next zero timestamp that comes a pass later, and each anchor lies within one ring pass before its receive time |
| `StreamClock.RingPassBound` | modules/t2bce_audio/pcm.c:413-431 | in runs whose sample times step by one ring pass, every reported position lies strictly below the next zero timestamp |
| `StreamClock.FirstAnchorCarriesOn` | modules/t2bce_audio/pcm.c:661-670 | the first timestamp keeps the position counted before it, and that stays below the following timestamp |
| `StreamClock.FirstAnchorExactly` | modules/t2bce_audio/pcm.c:661-670 | in playback the position lies strictly below the first timestamp's own exactly when that is past the ring's start and every query since START_IO came before the nanosecond at which that many frames have passed |
| `StreamClock.FirstCaptureAnchor` | modules/t2bce_audio/pcm.c:407-411 | capture counts nothing before it, so only a timestamp at the ring's start is excluded |
| `StreamClock.NeverBackwards` | modules/t2bce_audio/pcm.c:398-432 | while a stream is not restarted its unwrapped position never decreases and a fault stays, whatever the device sends |
| `StreamClock.PointerExact` | modules/t2bce_audio/pcm.c:415-433 | a query reports the whole frames that passed since the anchor at the stream's rate, one short of the next pass at most, less the latency, and never less than before |
| `StreamClock.AnchorExact` | modules/t2bce_audio/pcm.c:604-671 | after a timestamp the frames count from the device's time, or from the receive time when that lies in the future or more than a ring pass back |
| `StreamClock.ClockRemembers` | modules/t2bce_audio/pcm.c:586-671 | for every history: running since the last START_IO, counting from the last timestamp that was in time and did not go back, and faulted exactly when one in time did go back |
| `StreamClock.AlwaysPlaced` | modules/t2bce_audio/pcm.c:636-669 | the ring origin never passes the last timestamp, so every sequence of steps is such a run |
| `StreamClock.ShorterStepBreaksBound` | modules/t2bce_audio/pcm.c:644-650 | for every first step below half of what a ring exceeds the latency by there is a run that breaks the bound, in playback and in capture |
| `StreamClock.PreCountPassesFirst` | modules/t2bce_audio/pcm.c:268-274 | a run in which the position lies past the first timestamp's own |
| `StreamClock.AudioStream.Begin` | modules/t2bce_audio/pcm.c:247-285 | the timing fields after START_IO is prepared |
| `StreamClock.AudioStream.End` | modules/t2bce_audio/pcm.c:295-306 | what STOP_IO forgets and what it keeps |
| `StreamClock.AudioStream.Timestamp` | modules/t2bce_audio/pcm.c:586-671 | stale, overtaken, rewinding and applied timestamps, field by field |
| `StreamClock.AudioStream.Ask` | modules/t2bce_audio/pcm.c:398-436 | the reported position and its place in the ring, an XRUN after a fault, zero before there is a clock |
| `StalledWriter.ZeroesExactly` | modules/t2bce_audio/pcm.c:563-583 | for every sequence of write counts the ring is zeroed exactly at a repeated positive count with no earlier repeat left unanswered by a rise |
| `StalledWriter.ZeroingNeedsRing` | modules/t2bce_audio/pcm.c:563-583 | nothing is zeroed without a ring, and zeroing starts the history over |
| `StalledWriter.OncePerRun` | modules/t2bce_audio/pcm.c:557-583 | for non-decreasing counts that is the second observation of each maximal run of equal positive counts |
| `StalledWriter.FallingCountMissed` | modules/t2bce_audio/pcm.c:570-576 | counts 5, 5, 3, 3: the second stall is not noticed |
| `StalledWriter.WriteHistory.Check` | modules/t2bce_audio/pcm.c:563-583 | the two-entry history, its index and its flag after one observation, and whether to zero |
| `IoWorker.Converges` | modules/t2bce_audio/pcm.c:308-361 | under any interleaving, with nothing queued or running, the device is in the state last requested or the last command failed, also when the generation counter wraps |
| `IoWorker.HistoriesExactly` | modules/t2bce_audio/pcm.c:308-347 | a command history occurs in some run exactly when it begins with START and after every success the other kind follows |
| `IoWorker.NextCommandExactly` | modules/t2bce_audio/pcm.c:326-344 | from every reachable state with nothing left to do, a kind of command can come next exactly when the remote state is not already its target |
| `IoWorker.SameKindNeedsFailure` | modules/t2bce_audio/pcm.c:308-347 | two successful commands of one kind, with no success of the other kind between, have a failed one between: what the histories law says of neighbours |
| `IoWorker.FailedStopThenStart` | modules/t2bce_audio/pcm.c:335-344 | a run with START, a failed STOP and START again |
| `IoWorker.AudioIo.Trigger` | modules/t2bce_audio/pcm.c:349-361 | the request, the generation and the queued work after a trigger |
| `IoWorker.AudioIo.Work` | modules/t2bce_audio/pcm.c:308-347 | one execution of the retry loop is a run of the machine whose commands are those answered, in order and with their outcomes, and whose requests are the triggers that arrived during them |
| `IoWorker.HeardExactly` | modules/t2bce_audio/pcm.c:308-347 | after a successful command the same work item goes on exactly when requests came in during it, their number not a multiple of 2^32; after a failure it ends |
| `IoWorker.FailureEndsWork` | modules/t2bce_audio/pcm.c:308-347 | no command follows a failed one until the work is run again |
| `StartedFlag.FlagAgrees` | modules/t2bce_audio/pcm.c:247-306 | over every run that requests no START while the flag is lost, flag and device agree once nothing is under way |
| `StartedFlag.LostExactly` | modules/t2bce_audio/pcm.c:349-361 | a START request leaves them in agreement, whatever follows, exactly when the flag is not lost at that moment |
| `StartedFlag.PreparedIsHeard` | modules/t2bce_audio/pcm.c:193-200 | after waiting for triggers and worker the flag is not lost |
| `StartedFlag.StopStartLosesFlag` | modules/t2bce_audio/pcm.c:353-360 | from every settled state with the device running, STOP and START triggers before the worker runs end in disagreement |
| `StartedFlag.PlayNextInv` | modules/t2bce_audio/pcm.c:247-361 | every step of triggers and worker keeps the flag raised only while the device runs or a START is on its way |
| `ReplyTags.TagRoundTrip` | modules/t2bce_audio/protocol_bce.c:121-129 | every tag written resolves to its own number |
| `ReplyTags.InsideExactly` | modules/t2bce_audio/protocol_bce.c:187-205 | a reply is looked up inside the table exactly when its text is a number that is not negative |
| `ReplyTags.ReplyReachesExactly` | modules/t2bce_audio/protocol_bce.c:164-220 | over every run a reply with the k-th command's tag reaches that command exactly when it still waits and at most 1000 commands were sent since; otherwise nobody, or a later command of that tag |
| `ReplyTags.NeverAstray` | modules/t2bce_audio/protocol_bce.c:187-220 | with at most 1000 commands outstanding a tag finds a waiter exactly when one of its commands waits |
| `ReplyTags.ReplyTable.SendCommand` | modules/t2bce_audio/protocol_bce.c:121-172 | the next tag, and its waiter in the table |
| `ReplyTags.ReplyTable.HandleReply` | modules/t2bce_audio/protocol_bce.c:187-220 | the waiter completed and its entry cleared |
| `ReplyTags.ReplyTable.Withdraw` | modules/t2bce_audio/protocol_bce.c:174-184 | a waiter that timed out removes its own entry and no other |
| `ForceFilter.UpdateValid` | modules/t2_precision_trackpad/t2_precision_trackpad.c:323-382 | 0 <= output <= force <= (32767 - 15) in Q16, and the smoothed input in range, are kept by every pressure |
| `ForceFilter.RunValid` | modules/t2_precision_trackpad/t2_precision_trackpad.c:323-382 | over every sequence of pressures |
| `ForceFilter.DeadBandExactly` | modules/t2_precision_trackpad/t2_precision_trackpad.c:345-365 | the force keeps its value exactly for inputs within the dead band or one unit above it |
| `ForceFilter.UpdateExact` | modules/t2_precision_trackpad/t2_precision_trackpad.c:323-382 | the smoothed input and the force each keep 15 percent of their distance to the pressure and to the band's edge; the output follows a falling force at once and a rising one by 4 percent |
| `ForceFilter.ForcePath.Mean` | modules/t2_precision_trackpad/t2_precision_trackpad.c:340-343 | the 64-bit weighted mean neither overflows nor leaves 32 bits |
| `ForceFilter.ForcePath.Feed` | modules/t2_precision_trackpad/t2_precision_trackpad.c:323-382 | the whole update in 32- and 64-bit types, every intermediate in range |
| `ClickLatch.StrongestIsGreatest` | modules/t2_precision_trackpad/t2_precision_trackpad.c:427-444 | the slot found is the first of greatest force among those that count, and none is found exactly when none counts |
| `ClickLatch.NestedExactly` | modules/t2_precision_trackpad/t2_precision_trackpad.c:446-467 | force click implies button is kept for all forces exactly when the inner thresholds are not below the outer ones, or it is switched off |
| `ClickLatch.SensiblePercent` | modules/t2_precision_trackpad/t2_precision_trackpad.c:409-415 | percentages from 100 to 10000 never wrap and order the thresholds at every strength |
| `ClickLatch.LimitsExact` | modules/t2_precision_trackpad/t2_precision_trackpad.c:88-116 | press and release at 125 and 93.75, a fifth less at light and a fifth more at firm strength |
| `ClickLatch.FirmerIsHarder` | modules/t2_precision_trackpad/t2_precision_trackpad.c:88-116 | a firmer setting never presses or holds where a softer one does not |
| `ClickLatch.ForceLimitsExact` | modules/t2_precision_trackpad/t2_precision_trackpad.c:409-415 | the force click's thresholds are the button's scaled by the percentage |
| `ClickLatch.FeedsOwn` | modules/t2_precision_trackpad/t2_precision_trackpad.c:385-395 | a report feeds each path exactly its own contacts' pressures, in order |
| `ClickLatch.OtherPercentsFail` | modules/t2_precision_trackpad/t2_precision_trackpad.c:414-415 | 52429 percent wraps below the button's threshold, and 99 percent lies below it |
| `ClickLatch.ForceClickImpliesButton` | modules/t2_precision_trackpad/t2_precision_trackpad.c:403-468 | in every reachable state, with settings changing between reports |
| `ClickLatch.ReleasedByFourth` | modules/t2_precision_trackpad/t2_precision_trackpad.c:470-500 | from every reachable state the fourth contact-free report and all later ones leave both latches open, although the 8-bit counter wraps |
| `ClickLatch.ThirdStillHeld` | modules/t2_precision_trackpad/t2_precision_trackpad.c:488-497 | a firm press is carried through three contact-free reports |
| `ClickLatch.ForceManagement.ClearPresence` | modules/t2_precision_trackpad/t2_precision_trackpad.c:891-892 | the presence map is cleared and nothing else |
| `ClickLatch.ForceManagement.Feed` | modules/t2_precision_trackpad/t2_precision_trackpad.c:385-395 | each contact marks its path present and feeds its filter, in report order |
| `ClickLatch.ForceManagement.Analyze` | modules/t2_precision_trackpad/t2_precision_trackpad.c:403-468 | the loop finds the strongest path, and both latches follow it |
| `ClickLatch.ForceManagement.AgeMissing` | modules/t2_precision_trackpad/t2_precision_trackpad.c:489-497 | missing paths count up in 8 bits and lose their force at the tolerance |
| `ClickLatch.ForceManagement.HandleReport` | modules/t2_precision_trackpad/t2_precision_trackpad.c:889-918 | one report end to end |
| `PositionFilter.TimeInstabilityBound` | modules/t2_precision_trackpad/t2_precision_trackpad.c:665-679 | at most one, and zero exactly from 312 ms on, age counted in 32 bits |
| `PositionFilter.SignalInstabilityBound` | modules/t2_precision_trackpad/t2_precision_trackpad.c:681-720 | at most one |
| `PositionFilter.TimeInstabilityExact` | modules/t2_precision_trackpad/t2_precision_trackpad.c:665-679 | the higher of two falling lines, rounded down |
| `PositionFilter.SignalInstabilityExact` | modules/t2_precision_trackpad/t2_precision_trackpad.c:681-720 | zero up to 4 percent, one from 8 percent, and the power 3/2 in between, rounded down |
| `PositionFilter.DeltaPercentExact` | modules/t2_precision_trackpad/t2_precision_trackpad.c:701-706 | the change relative to the larger proximity, symmetric and at most 100 percent |
| `PositionFilter.NewContactExact` | modules/t2_precision_trackpad/t2_precision_trackpad.c:736-759 | the first report of a contact gives exactly its raw point |
| `PositionFilter.AgeSinceFirst` | modules/t2_precision_trackpad/t2_precision_trackpad.c:736-747 | over its lifetime a contact's age is the time since its first report |
| `PositionFilter.SteadyIsStable` | modules/t2_precision_trackpad/t2_precision_trackpad.c:748-750 | a repeated proximity late in a contact makes the report a stable one |
| `PositionFilter.BudgetBound` | modules/t2_precision_trackpad/t2_precision_trackpad.c:747-754 | the budget lies between zero and its maximum, in both polarities |
| `PositionFilter.BetweenExactly` | modules/t2_precision_trackpad/t2_precision_trackpad.c:752-757 | a report keeps every contact between its last and its raw point exactly for maximum budgets up to 2147450880 |
| `PositionFilter.StaysInRange` | modules/t2_precision_trackpad/t2_precision_trackpad.c:736-759 | over a contact's lifetime the reported point stays within the range of raw points seen |
| `PositionFilter.Settles` | modules/t2_precision_trackpad/t2_precision_trackpad.c:747-759 | at rest the distance to the raw point shrinks by the whole budget per report |
| `PositionFilter.DefaultSettles` | modules/t2_precision_trackpad/t2_precision_trackpad.c:180-192 | with the defaults the raw point is reached exactly after ceil(distance / 512) reports |
| `PositionFilter.FrozenWithoutInversion` | modules/t2_precision_trackpad/t2_precision_trackpad.c:185-192 | without the inversion a settled contact never moves again |
| `PositionFilter.AgeWraps` | modules/t2_precision_trackpad/t2_precision_trackpad.c:668-668 | after 2^32 ms a contact counts as new |
| `PositionFilter.SlotHysteresis.ReportFinger` | modules/t2_precision_trackpad/t2_precision_trackpad.c:722-760 | the slot after a report, new lifetimes included |
| `StateSave.SaveMessageExact` | modules/t2bce_core/mailbox.h:32-34 | a save message decodes to its page count always, and to its address exactly below 2^44 |
| `StateSave.AlignGrows` | modules/t2bce_core/t2bce_main.c:670-679 | an accepted size, rounded up, is a larger 4 KiB multiple of at most 1 MiB |
| `StateSave.NegotiationLaw` | modules/t2bce_core/t2bce_main.c:615-695 | for every sequence of replies at most 256 messages, strictly growing buffers, each of the size the reply before it asked for in whole pages, and each message naming exactly its buffer |
| `StateSave.RepliesDecide` | modules/t2bce_core/t2bce_main.c:628-682 | another message follows exactly when more was asked for and a buffer for it could be had and mapped; its size is what was asked for; the status is that of the round in which the messages stop |
| `StateSave.KeptExactly` | modules/t2bce_core/t2bce_main.c:657-661 | a buffer is live at the end exactly when the save succeeded, which is exactly when the last message went through and was confirmed; it is the one that offered |
| `StateSave.SuspendState.Free` | modules/t2bce_core/t2bce_main.c:77-86 | a live buffer is freed once, and freeing none is harmless |
| `StateSave.SuspendState.Allocate` | modules/t2bce_core/t2bce_main.c:62-75 | the buffer fields after a granted or refused allocation |
| `StateSave.SuspendState.Offer` | modules/t2bce_core/t2bce_main.c:628-679 | one round over a live buffer: mapping, message, reply, and the buffer freed on every failure |
| `StateSave.SuspendState.TryState` | modules/t2bce_core/t2bce_main.c:615-695 | the whole loop, leaving no buffer lost, freed twice or mapped |

## Left out

- Kernel and hardware plumbing: probing, registers, interrupts, DMA mapping, sysfs, registration with ALSA, USB and input have no property of their own here.
- Waiting and wake-ups: reservation and completion waits are modelled by what may follow them; no liveness is claimed beyond the progress measure of `OutProgress`.
- The completion-queue drain loop and its dispatch to submission queues: easy members next to the rings.
- A completion that arrives with no request queued keeps its ring slot in the driver; the transfer queue model drops the submission from its record.
- An aborted completion is taken to have moved no byte; every exactness result across a flush rests on that.
- IN byte exactness, and several active IN requests that each need more than one descriptor page.
- OutExact: stated for calm runs; `CalmExactly` shows that the condition cannot be weakened.
- CreditsConserved: stated for the other endpoints; `UnstruckCredits` has the condition for the control endpoint.
- GivenBackOnce: likewise, with `UnstruckExactly`.
- Requests inside `TransferQueue` are values in a map, so aliasing between the request, its endpoint list and its cancel list is not modelled; the giveback loop is one step of a run.
- CreateUrb: decides a failed start before linking instead of linking and taking the link back; both end in the same state under the lock.
- HandleReply: requires a number that is not negative; the driver does not test it, and `InsideExactly` says which replies that leaves out.
- SetNextSubmission: returns the selected range; the ring slot the driver writes it to is that of `SubmissionQueue.NextSubmission`.
- Quiescing of audio streams by power management, which drives the start/stop worker from outside its triggers.
- 64-bit wrap-around of times and frame counts in the stream clock, and 128-bit intermediates of its divisions.
- The no-state suspend fallback, client suspend callbacks and restore after a stateful suspend: ordering of external calls.
- Contact decoding, slot assignment, orientation, touch size and geometry of the trackpad: direct copies of report fields.
- The other modules (gmux, SBS, SEP, SMC, SMP, Thunderbolt, Touch Bar, fast charge, actuator, magic mouse), the applications, packaging and DSP data.
