# Verified model of the socket and streaming machinery

This project models the concurrent part of the Plug client nodes - the ordered decode queue, the
assembly of streamed results, the action I/O transport, the shared session, relay batches and the
small control loops beside them - and proves what they promise over every order of events.

Most components come in two layers. A module whose name ends in `Spec` is a state machine on
values: a step is what happens between two points at which other code can run (an await, a
callback, an event handler). A second module holds a class with the variables the source keeps,
whose methods update them in place - linked tasks, promises, row arrays and key sets are objects of
their own - and each method is proved to bring them to exactly the state the machine's step says.
What the source promises is then proved about the machine, for every enabled sequence of events:
`ValidRun` is such a sequence, `After` (`Run` for the decode queue) the state it leads to, and `Inv`
what every step keeps. The modules whose names end in `Effects`, with `ConsumerEndings` and `CodecWire`,
say in terms of the fields alone what each event does and does not do: which waiter a reply settles,
what ends a command, what fails a run, what stands on the wire.

- **Decode queue** (`decode_queue*.dfy`, `lazy_decode_queue.dfy`). An intrusive linked list of
  tasks with the pointers `head`, `tail` and `nextDecode`. The machine numbers tasks in the order of
  enqueueing and keeps two positions instead of three pointers. Calling a task's `apply` gives
  control to the environment; how the call ended is a later event, so that anything a callback does
  to the queue before it returns is covered. `turns` records, task by task, whether it was applied,
  skipped or failed.
- **Consumer stream** (`consumer*.dfy`, `stream_rows.dfy`). Responses, chunks and completes in the
  order the decode queue hands them on. Row arrays are objects: the normalized response and the raw
  payload share one, and merging pushes to it. `StoryOf` is what the events alone tell: the responses
  that start streams, the chunks that belong to them, how many of those came before the last response
  (`since`) and which of them found a row array (`under`).
- **Stream pulls** (`stream_pull*.dfy`). The set of keys, shared by the pulls, that keeps a second
  pull for the same stream out, with responses whose decoding can outlast the pull.
- **Action I/O transport** (`action_io*.dfy`). The table of waiters with deferred first emission,
  the effect flag of errors, deadlines, replies, disconnect and dispose.
- **Session runner** (`session*.dfy`). Single-flight login and refresh shared by concurrent runs.
  A refresh clears `inFlightRefresh` and sets `currentSession` in two separate steps.
- **PayloadFrame codec** (`codec*.dfy`). Framing, compression choice, size and ratio guards, signing
  with key rotation. Gzip (RFC 1952), HMAC-SHA256 (RFC 2104), base64 and JSON text are functions
  passed as parameters; `Lawful` states the laws used of them.
- **Correlation and control loops**: `relay_batch*.dfy`, `rpc_identity.dfy` (section 6 of the
  JSON-RPC 2.0 Specification; here `id: null` is a notification and an absent id is made up by the
  hub), `bounded_concurrency*.dfy`, `retry.dfy`, `event_dedupe*.dfy`, `page_collection.dfy`.

Where the code does not do what one would expect of it, the model follows the code, and a theorem
says exactly when the expectation fails; where that takes a run of events, one is given:

- The guard on stream pulls does not ask, once a response is decoded, whether its pull has settled
  meanwhile. If it has, and the next pull for the same request and stream is under way, that one's
  key is dropped and a second pull is let in beside it (exactly then: `StreamPullSafety.StepKeeps`;
  runs: `LateHappens`, `LateLetsASecondIn`).
- Merging chunks early and appending them late put the same rows into the items if and only if no
  chunk with rows `Parts` the two (`ConsumerTheorems.MergingEarlyIsMergingLate`). With one response
  these are the streams whose response has a row array but no marker in its result: a raw item then
  has the rows of the chunks beside its response, in the chunks it carries, and not in it
  (`ConsumerStories.OneResponseParts`, `ConsumerScenarios.RawModeLeavesRowsOut`). After further
  responses they are also the streams that lose what was merged into an earlier response
  (`ConsumerScenarios.SecondResponseLosesMergedRows`).
- Single flight does not mean one refresh a session. A session that a refresh has already replaced
  is asked for again if and only if `refreshSession` is called with it while no refresh is in flight
  and either it is still current, in the window between the two steps at the end of a refresh, or no
  session is current (`SessionSafety.AsksAgainExactly`; runs for both:
  `SessionScenarios.AsksAgainInWindow`, `AsksAgainWithoutSession`).
- A frame does not pass its own sender's verification when that sender requires a signature without
  a key, or has a key but no usable key id while a key id is configured somewhere
  (`CodecProofs.RoundTrip`). Previous keys are trimmed and the signing key is not, so a key with
  blanks around it verifies its old frames only if trimming does not change the digest, or another
  configured key happens to give it (`CodecProofs.RotationNeedsATrimmedKey`).
- The dedupe cache decides as an unbounded log if and only if it never drops a live entry
  (`EventDedupeTheorems.AgreesWithLogExactly`), which a new id does exactly if it finds the cache full and
  the first entry live (`DropsLiveExactly`). That entry is not always the oldest: the order of expiry
  is kept exactly until an expired id is renewed in its old place (`OrderIsKeptExactly`), and then a
  live id can be dropped while an expired one stays (`RenewedIdIsForgottenFirst`,
  `ExpiredOutlivesRenewed`).

## Model

| member | source | states |
|---|---|---|
| DecodeQueueTheorems.AppliesInOrder | shared/socket/parallelChunkDecode.ts:111-157 | in every run turn number k is task number k: applies follow the order of enqueueing, once each, with the task's own decoded value; only cancelled tasks are passed over, a failed task's turn is the last and closes the queue, and at most one error is reported |
| DecodeQueueTheorems.StepServes | shared/socket/parallelChunkDecode.ts:111-184 | a step calls at most one `apply`, as its last turn and only when none is in progress; tasks, outcomes, cancellations and turns are never taken back |
| DecodeQueueTheorems.RunRespects | shared/socket/parallelChunkDecode.ts:111-219 | the same monotonicity over whole runs, and no task cancelled before its turn is applied |
| DecodeQueueTheorems.CancelledIsNeverApplied | shared/socket/parallelChunkDecode.ts:115-119 | a task that is cancelled, or whose queue is closed, before its turn is never applied later |
| DecodeQueueTheorems.ClosedStaysQuiet | shared/socket/parallelChunkDecode.ts:92-112 | after close nothing is applied, started or reported any more, and the reservations stay zero |
| DecodeQueueTheorems.ClosedIsEmpty | shared/socket/parallelChunkDecode.ts:92-103 | a closed queue holds no reservation and no drain waiter, and every task's completion is resolved |
| DecodeQueueTheorems.NeverStuck | shared/socket/parallelChunkDecode.ts:158-184 | a queue that is not empty and applies nothing is waiting for a decode under way |
| DecodeQueueTheorems.QuiescentIsDone | shared/socket/parallelChunkDecode.ts:78-91 | with no decode and no apply under way everything is released, every drain finished and every counter zero, and in an open queue every task not cancelled has been applied |
| DecodeQueueTheorems.ReservationsAreConserved | shared/socket/parallelChunkDecode.ts:78-103 | in every run pending frames and bytes are the count and byte sum of the unreleased decode tasks and never pass the admission limits; `active` is the number of decodes under way and never passes the cap; drains are gone once the list is empty; a completion is unresolved exactly while its task is in the list and not cancelled |
| DecodeQueueTheorems.PumpContinues | shared/socket/parallelChunkDecode.ts:158-184 | one more round of the pump loop after a decoder threw at once changes nothing |
| DecodeQueueEffects.ErrorCloses | shared/socket/parallelChunkDecode.ts:106-157 | an `apply` that throws, or rejects for a task still wanted, and a frame that does not fit close an open queue: the error is reported once, and no task has a turn any more |
| DecodeQueueEffects.ErrorsExactly | shared/socket/parallelChunkDecode.ts:111-157 | without such an error nothing is reported and only a close closes the queue, except that a task whose decode failed has its turn, is the last, and its own error is the one reported |
| DecodeQueueEffects.NothingAfterAnError | shared/socket/parallelChunkDecode.ts:106-157 | in every run no turn and no report follows an error that an event brought |
| DecodeQueueEffects.EnqueuesExactly | shared/socket/parallelChunkDecode.ts:185-263 | exactly an open queue with room lets a task in, with the decoder, size and signal it was given |
| DecodeQueueEffects.TasksChangeExactly | shared/socket/parallelChunkDecode.ts:158-219 | an event leaves a task as it is, but that a decode leaves its own outcome, a decoder that throws its error, and its own abort or a close cancels it |
| DecodeQueueEffects.CountersChangeExactly | shared/socket/parallelChunkDecode.ts:224-263 | the peaks grow exactly with what is reserved, and a drain waits until the list is empty |
| DecodeQueueSafety.StepKeeps | shared/socket/parallelChunkDecode.ts:61-262 | every event keeps the pointer, scheduler, counter and turn invariants; at rest an open queue has `nextDecode` at the end or `active` at the cap, and no ready head is left waiting |
| DecodeQueueInvariant.SettleKeeps | shared/socket/parallelChunkDecode.ts:111-157 | the loop over ready heads keeps the invariants and stops only at an empty list, an unready head, a failure or a call of `apply` |
| DecodeQueueInvariant.PumpKeeps | shared/socket/parallelChunkDecode.ts:158-184 | the pump loop keeps the invariants and leaves no decode that could start |
| DecodeQueueInvariant.MarkStartedKeeps | shared/socket/parallelChunkDecode.ts:160-165 | the task `nextDecode` stands at was not started before, and starting it stays within the cap |
| DecodeQueueSafety.ReachableKeeps | shared/socket/parallelChunkDecode.ts:29-263 | the invariant holds of every state a queue can be in |
| DecodeQueues.DecodeQueue.constructor | shared/socket/parallelChunkDecode.ts:43-77 | an empty, open queue |
| DecodeQueues.DecodeQueue.RemoveHead | shared/socket/parallelChunkDecode.ts:64-69 | unlinking the head moves `head`, `nextDecode` and `tail` as the machine moves its positions |
| DecodeQueues.DecodeQueue.Unlink | shared/socket/parallelChunkDecode.ts:64-69 | the list from the second node on is linked as before, and nothing points at the first one |
| DecodeQueues.DecodeQueue.Release | shared/socket/parallelChunkDecode.ts:78-86 | a task gives its reservation back once |
| DecodeQueues.DecodeQueue.FinishDrains | shared/socket/parallelChunkDecode.ts:88-91 | drain waiters end exactly when the list is empty |
| DecodeQueues.DecodeQueue.ClearPendingDecodes | shared/socket/parallelChunkDecode.ts:92-103 | closing removes, cancels and releases every task in the list, once |
| DecodeQueues.DecodeQueue.Fail | shared/socket/parallelChunkDecode.ts:106-110 | a failure closes the queue and is reported, unless the queue was closed |
| DecodeQueues.DecodeQueue.ServeHeads | shared/socket/parallelChunkDecode.ts:111-157 | the loop of `applyReady` on the linked list does what the machine's recursion does |
| DecodeQueues.DecodeQueue.Pump | shared/socket/parallelChunkDecode.ts:158-184 | the loop of `pump` on the linked list does what the machine's recursion does, re-entry through a decoder that throws included |
| DecodeQueues.DecodeQueue.Append | shared/socket/parallelChunkDecode.ts:210-213 | linking a new task at the tail; `nextDecode` points at it if it pointed nowhere |
| DecodeQueues.DecodeQueue.EnqueueOrderedWork | shared/socket/parallelChunkDecode.ts:222 | a task without a decoder is linked at the tail and served at once if its turn has come; no task when the queue is closed |
| DecodeQueues.DecodeQueue.EnqueueDecodeThenOrdered | shared/socket/parallelChunkDecode.ts:226-263 | exactly a negative reservation is refused, exceeding a limit fails the queue, and a task is enqueued exactly if neither happens and the queue is open and the signal not aborted |
| DecodeQueues.DecodeQueue.DecodeDone | shared/socket/parallelChunkDecode.ts:166-179 | the end of a decode gives its slot back, starts the next decode and serves the heads that are ready, as in the machine |
| DecodeQueues.DecodeQueue.ApplyReturned | shared/socket/parallelChunkDecode.ts:124-149 | the end of a synchronous `apply` takes its task out if it is still the head, releases it and serves the next heads |
| DecodeQueues.DecodeQueue.ApplyPromised | shared/socket/parallelChunkDecode.ts:126-146 | while the promise of an `apply` is pending the queue serves nothing else |
| DecodeQueues.DecodeQueue.ApplyThrew | shared/socket/parallelChunkDecode.ts:150-154 | an `apply` that throws fails the queue |
| DecodeQueues.DecodeQueue.ApplyResolved | shared/socket/parallelChunkDecode.ts:128-135 | the promise of an `apply` releases its task, serves the next heads and ends drains of an empty list |
| DecodeQueues.DecodeQueue.ApplyRejected | shared/socket/parallelChunkDecode.ts:136-143 | the error of a task cancelled meanwhile is ignored, any other fails the queue |
| DecodeQueues.DecodeQueue.Abort | shared/socket/parallelChunkDecode.ts:199-204 | an aborted task is released at once and skipped when its turn comes |
| DecodeQueues.DecodeQueue.Close | shared/socket/parallelChunkDecode.ts:92-103 | closing empties the list on the linked nodes as in the machine, once |
| DecodeQueues.DecodeQueue.DrainOrderedWork | shared/socket/parallelChunkDecode.ts:224-225 | a drain waits exactly if the list is not empty |
| LazyDecodeQueues.CreateDecodeQueue | shared/socket/parallelChunkDecode.ts:29-105 | exactly positive limits with at most eight parallel decodes are accepted; an aborted signal makes a closed queue |
| LazyDecodeQueues.LazyDecodeQueue.EnqueueOrderedWork | shared/socket/parallelChunkDecode.ts:278-279 | the wrapper does what a queue created at once with the same signal would do |
| LazyDecodeQueues.LazyDecodeQueue.EnqueueDecodeThenOrdered | shared/socket/parallelChunkDecode.ts:280-283 | the wrapper does what a queue created at once with the same signal would do |
| LazyDecodeQueues.LazyDecodeQueue.DrainOrderedWork | shared/socket/parallelChunkDecode.ts:284 | without a queue there is nothing to wait for, as in an empty queue |
| LazyDecodeQueues.LazyDecodeQueue.Close | shared/socket/parallelChunkDecode.ts:285-288 | closing the wrapper is closing the queue it stands for, whether or not it exists |
| LazyDecodeQueues.LazyDecodeQueue.SignalAborted | shared/socket/parallelChunkDecode.ts:104-105 | the signal of the options closes the queue the wrapper stands for, whether it exists or is created later |
| LazyDecodeQueues.LazyDecodeQueue.Metrics | shared/socket/parallelChunkDecode.ts:275-277 | looking at the metrics changes nothing that can be observed, also after close |
| ConsumerTheorems.MergingEarlyIsMergingLate | shared/socket/consumerCommandSession.ts:617-631 | for every run that completes a stream with a successful single response last, after any number of responses: an aggregated mode puts the rows of the raw mode into its items if and only if, in the story of the events before the complete, no chunk with rows parts them (before or since the last response, as that has a marker or not; or merged into an earlier one) |
| ConsumerStories.OneResponseParts | shared/output/nodeOutput.ts:75-112 | in any events with one response the modes part if and only if it has a row array, no stream marker, and some chunk has rows |
| ConsumerScenarios.RawModeLeavesRowsOut | shared/output/nodeOutput.ts:75-92 | a run in which the response of the raw item lacks the row of the chunk, which the item carries beside it |
| ConsumerScenarios.SecondResponseLosesMergedRows | shared/socket/consumerCommandSession.ts:484-491 | runs in which a second response replaces the rows merged so far in an aggregated mode only, with or without a row array of its own |
| ConsumerTheorems.ResolvedStream | shared/socket/consumerCommandSession.ts:569-718 | for every sequence of events that resolves a stream, in every mode and after any number of responses: a complete ends it, and the outcome is what the events before that tell: the last accepted response, with the rows of the chunks that arrived since it if they are merged, and exactly the chunks kept beside it, those since it at the end |
| ConsumerTheorems.LiveTells | shared/socket/consumerCommandSession.ts:427-647 | until it settles, a command has accepted exactly the responses and chunks that the events tell |
| ConsumerStories.LastStartIs | shared/socket/consumerCommandStreamPull.ts:76-95 | in any events, the chunks told since the last response that starts a stream are those of that stream, in order of arrival |
| ConsumerTheorems.OutputOfStream | shared/output/nodeOutput.ts:75-112 | the rows in the items of a completed stream, in every mode and after any number of responses, as a function of the events before the complete; with one response or merged rows, the response's own rows and those of the chunks between the two events |
| ConsumerSafety.ModeChangesNothingElse | shared/socket/consumerCommandSession.ts:427-718 | the response mode changes nothing else: counters, acceptance, limits and outcome kinds agree event by event |
| ConsumerTheorems.StreamIsCounted | shared/socket/consumerCommandSession.ts:252-259 | a resolved stream's `chunkCount` and `bufferedRows` are what was accepted, over all responses and chunks, and within the limits |
| ConsumerSafety.SettlesOnce | shared/socket/consumerCommandSession.ts:216-287 | a command settles at most once, for good |
| ConsumerEndings.SettlesExactly | shared/socket/consumerCommandSession.ts:427-718 | in every run a command has settled if and only if one of the events ended it, given what the events before it told: an outside end, a success without a request id, an own response that is refused, of wrong identity or type, a notification or without a stream, the complete of its stream, or an accepted response or chunk over a limit; and the outcome is the one the first such event calls for |
| ConsumerEndings.OthersAreIgnored | shared/socket/consumerCommandSession.ts:442-684 | a response, chunk or complete meant for another command or stream changes nothing but its counter of ignored ones |
| ConsumerEndings.OwnAreNotIgnored | shared/socket/consumerCommandSession.ts:442-620 | what is meant for the command is not counted as ignored |
| ConsumerEndings.BuffersExactly | shared/socket/consumerCommandSession.ts:617-633 | a live command has buffered the sum of the bytes, rows and chunks of exactly what it accepted, within the limits |
| ConsumerEndings.RowsAreCounted | shared/socket/consumerCommandSession.ts:494-512 | the rows counted for a batch are those its successful items carry |
| ConsumerEndings.AggregateKeepsRest | shared/output/nodeOutput.ts:75-112 | appending chunks takes the stream marker away and changes nothing besides the rows |
| ConsumerEndings.OutputErrorsExactly | shared/output/nodeOutput.ts:114-294 | there is an error in place of output exactly if the stream was aborted or failed, or in an aggregated mode if the response is not recognized or an item of it failed |
| ConsumerEndings.OutputCarries | shared/output/nodeOutput.ts:245-294 | a raw item has the chunks kept, the chunk mode puts them out one by one, and a batch is handed on as it came |
| ConsumerEndings.LayoutExactly | shared/output/nodeOutput.ts:140-212 | which results become a summary, with which row count, which one item a row with its index, and which are handed on as they are |
| ConsumerSafety.StepKeeps | shared/socket/consumerCommandSession.ts:427-718 | every event keeps the counters exact, and what is held equal to the last response with the chunks since it merged, or the chunks beside it that found no row array |
| ConsumerSafety.HeldGrows | shared/socket/consumerCommandResponseMerge.ts:25-44 | a chunk is merged exactly when the response has a row array and the chunk has rows, and kept otherwise |
| ConsumerTheorems.LateRows | shared/output/nodeOutput.ts:75-112 | appending late finds the rows of the chunks exactly if the result carries a stream marker |
| ConsumerCommands.ConsumerCommand.TryMerge | shared/socket/consumerCommandResponseMerge.ts:25-44 | the push loop appends the chunk's rows, in order, to the array the response and the raw payload share |
| ConsumerCommands.ConsumerCommand.Take | shared/socket/consumerCommandSession.ts:617-631 | counting a chunk, and popping it again when its rows were merged |
| ConsumerCommands.ConsumerCommand.GotChunk | shared/socket/consumerCommandSession.ts:588-646 | a chunk is ignored, taken, or taken over the limits and the command rejected; with its row array updated in place |
| ConsumerCommands.ConsumerCommand.GotResponse | shared/socket/consumerCommandSession.ts:427-567 | a response is ignored, rejects the command, resolves it, or starts a stream, in the order of the checks |
| ConsumerCommands.ConsumerCommand.StartStream | shared/socket/consumerCommandResponseMerge.ts:46-65 | the marker is removed from a copy that shares the row array |
| ConsumerCommands.ConsumerCommand.GotComplete | shared/socket/consumerCommandSession.ts:649-718 | a complete is ignored, or resolves the command with the response of its mode |
| ConsumerCommands.ConsumerCommand.Ended | shared/socket/consumerCommandSession.ts:289-300 | a timeout, error or abort rejects a command that has not settled |
| StreamRows.AggregateInLoop | shared/output/nodeOutput.ts:93-100 | the push loops give the response rows followed by every chunk's rows |
| StreamRows.ItemsCarryRows | shared/output/nodeOutput.ts:140-212 | the output items of a single success carry its rows, each once and in order, in every layout |
| StreamPullSafety.StepKeeps | shared/socket/consumerCommandStreamPull.ts:128-188 | a step keeps the key set exact and pulls exclusive if and only if it is not a response that ends a settled pull while another pull for its key is under way |
| StreamPullSafety.OneOutstandingPull | shared/socket/consumerCommandStreamPull.ts:116-124 | in every run from the start without such a step there is at most one pull a request and stream |
| StreamPullSafety.LateLetsASecondIn | shared/socket/consumerCommandStreamPull.ts:128-141 | after such a step the guard accepts a second pull beside the one under way |
| StreamPullSafety.LateHappens | shared/socket/consumerCommandStreamPull.ts:143-188 | a run from the initial state gets there: two responses in decoding for one pull are enough |
| StreamPullSafety.SettlesOnce | shared/socket/consumerCommandStreamPull.ts:113 | a pull settles at most once, for good |
| StreamPullSafety.GrantedByItsOwnResponse | shared/socket/consumerCommandStreamPull.ts:50-72 | in every run a pull is granted only by a success for its own request and stream, with a window from 1 to 1000: the response's, cut at 1000, or without a positive one the window asked for |
| StreamPullEffects.SettlesExactly | shared/socket/consumerCommandStreamPull.ts:128-245 | in every run a pull has settled if and only if it was terminated or a response that is not for another pull was decoded for it; the first such event decides: a success grants the window it states, cut to 1000, or else the pull's own, and anything else refuses |
| StreamPullEffects.PullsChangeExactly | shared/socket/consumerCommandStreamPull.ts:139-183 | what one event does to one pull; a response for another pull, and what happens to others, leaves it as it is |
| StreamPullEffects.RequestsExactly | shared/socket/consumerCommandStreamPull.ts:109-245 | a request is let in exactly if its key is not taken, with its window; one that is aborted or cannot be sent is refused at once and leaves no key |
| StreamPullEffects.KeysChangeExactly | shared/socket/consumerCommandStreamPull.ts:128-142 | what ends a pull gives its key back, and nothing else does |
| StreamPulls.ActivePulls.Request | shared/socket/consumerCommandStreamPull.ts:90-127 | refused exactly if the key is in the shared set; otherwise the key is added and a pull object holds on to the set, and gives the key back at once if emitting fails |
| StreamPulls.ActivePulls.Decoded | shared/socket/consumerCommandStreamPull.ts:150-188 | ignored exactly if the response is readable and meant for another pull; otherwise the key leaves the shared set, whether or not this pull has settled |
| ActionIoSafety.EffectFlagIsExact | shared/socket/actionIoTransport.ts:60-70 | in every run a rejected command is flagged free of effects exactly if it was never handed to `emit`, has no effects, or the hub's own reply rules them out |
| ActionIoSafety.EmittedOnceInOrder | shared/socket/actionIoTransport.ts:45-59 | commands are emitted at most once each, in order of submission and with time left |
| ActionIoSafety.PendingUntilSettled | shared/socket/actionIoTransport.ts:202-267 | a command is in the table exactly while it is not settled; at most 32 wait, at most 16 of them reads; none after dispose |
| ActionIoSafety.SettledForGood | shared/socket/actionIoTransport.ts:60-71 | a settlement is final, and a disposed transport emits nothing |
| ActionIoSafety.NothingOutlivesTheConnection | shared/socket/actionIoTransport.ts:60-71 | a disconnect or dispose settles everything that was pending |
| ActionIoSafety.FlushKeeps | shared/socket/actionIoTransport.ts:46-59 | a flush keeps the invariant, and on a connected socket leaves nothing unsent without a timer to try again |
| ActionIoSafety.StepKeeps | shared/socket/actionIoTransport.ts:40-277 | every event keeps the table in order, emissions once and in order, settlements disjoint from the table and flags exact |
| ActionIoEffects.ReplySettlesExactly | shared/socket/actionIoTransport.ts:108-198 | a reply settles a command if and only if it names it and the command was sent: with the result, or with the hub's error and its details; every other waiter, settlement and emission is unchanged |
| ActionIoEffects.FlushesExactly | shared/socket/actionIoTransport.ts:46-59 | the unsent waiters are taken in order, one look at the socket each: rejected if their time is over, else emitted once with the time they have left, and rejected as unknown if that throws; from the first look that finds the socket not writable all stay, and the timer is set exactly if there are any |
| ActionIoEffects.TimerFlushesExactly | shared/socket/actionIoTransport.ts:46-59 | the timer does that, or nothing when the socket is gone |
| ActionIoEffects.SubmitsExactly | shared/socket/actionIoTransport.ts:202-266 | a command is refused for the first of the checks it fails and changes nothing else, or enters the table with its deadline and is flushed unless a timer is set |
| ActionIoEffects.DeadlineSettlesExactly | shared/socket/actionIoTransport.ts:237-241 | a deadline rejects its own command, flagged by whether it was sent, and touches no other |
| ActionIoEffects.EndsAllExactly | shared/socket/actionIoTransport.ts:60-106 | a frame that cannot be used, a disconnect and a dispose reject everything that waits, with their own code and each with its own flag |
| ActionIoTransports.ActionIoTransport.Flush | shared/socket/actionIoTransport.ts:46-59 | the loop over the table, deletions during it included, does what the machine's recursion does |
| ActionIoTransports.ActionIoTransport.Send | shared/socket/actionIoTransport.ts:245-264 | the first emission: past its deadline, thrown or sent |
| ActionIoTransports.ActionIoTransport.FailAll | shared/socket/actionIoTransport.ts:60-70 | every waiter is rejected with its own effect flag and the timer is cleared |
| ActionIoTransports.ActionIoTransport.Submit | shared/socket/actionIoTransport.ts:202-267 | the admission checks in their order, then the first flush, bring the fields to the machine's state |
| ActionIoTransports.ActionIoTransport.FlushFired | shared/socket/actionIoTransport.ts:46-59 | the timer flushes again, unless the transport is disposed |
| ActionIoTransports.ActionIoTransport.DeadlinePassed | shared/socket/actionIoTransport.ts:237-241 | a deadline rejects its own waiter, flagged by whether it was sent |
| ActionIoTransports.ActionIoTransport.Received | shared/socket/actionIoTransport.ts:72-175 | a reply settles the sent waiter it names; an unreadable frame fails all |
| ActionIoTransports.ActionIoTransport.Refused | shared/socket/actionIoTransport.ts:176-198 | a refusal settles the sent waiter it names with the hub's details |
| ActionIoTransports.ActionIoTransport.Disconnect | shared/socket/actionIoTransport.ts:71 | nothing stays pending |
| ActionIoTransports.ActionIoTransport.Dispose | shared/socket/actionIoTransport.ts:268-277 | nothing stays pending, and nothing is admitted afterwards |
| SessionSafety.OneRequestOfAKind | shared/auth/session.ts:99-141 | in every run at most one login and one refresh are outstanding |
| SessionSafety.NeverReturnsToAnOldSession | shared/auth/session.ts:99-141 | a session that was replaced or dropped is never current again |
| SessionSafety.AtMostTwoCalls | shared/auth/session.ts:159-207 | a run calls back at most twice, and not again with the session its first callback failed with |
| SessionSafety.RecoversOnce | shared/auth/session.ts:156-200 | in every run a user call sends at most one refresh in recovery and one login as a fallback |
| SessionEffects.CallsExactly | shared/auth/session.ts:163-206 | a run calls back exactly when it has a session that is fresh, renewed or from a new login, and with that session |
| SessionEffects.RenewedRunCallsBack | shared/auth/session.ts:120-126 | a run that would refresh a session another run has renewed sends nothing, can only continue, and then calls back with the current session |
| SessionEffects.RefreshIsAwaited | shared/auth/session.ts:127-141 | any other run that refreshes awaits the refresh under way, or a new one for its session |
| SessionEffects.SessionIsEnsured | shared/auth/session.ts:99-118 | a run that needs a session has the current one, or awaits the login under way or a new one; a session refused in recovery is dropped if still current |
| SessionEffects.FreshGoesOn | shared/auth/session.ts:143-154 | a session that needs no refresh is called back with as it is |
| SessionEffects.FailsExactly | shared/auth/session.ts:171-206 | a run fails exactly on an error that is not refreshable or comes after its recovery was used, on a refresh refused in recovery other than with a 401, and on a login refused in recovery; it succeeds exactly when its callback returns |
| SessionEffects.ResumesExactly | shared/auth/session.ts:112-141 | whoever awaits a request goes on with its answer at the stage it awaited it, and a new session becomes current |
| SessionEffects.AnswersExactly | shared/auth/session.ts:104-139 | a request gets the server's answer and nothing else changes; each new session is one that was not issued before |
| SessionEffects.CurrentChangesExactly | shared/auth/session.ts:112-198 | the current session changes only by an answer that is resumed or by being dropped after a refused refresh |
| SessionEffects.OthersStand | shared/auth/session.ts:156-208 | a step moves the run whose code it executes, or those that await the request it resumes, and no other |
| SessionSafety.NoRunIsForgotten | shared/auth/session.ts:112-141 | a run that is not finished can move, or what it awaits can still be answered or resumed |
| SessionSafety.RefreshAsksForCurrent | shared/auth/session.ts:120-137 | a step sends a refresh for a session if and only if it calls for one with it, none is in flight, and that session is current or none is |
| SessionSafety.AsksAgainExactly | shared/auth/session.ts:120-139 | a session that a refresh has already replaced is refreshed again if and only if the step calls for it with no refresh in flight, and it is current inside the window or no session is current |
| SessionScenarios.AsksAgainInWindow | shared/auth/session.ts:130-139 | a run from the initial state to such a step inside the window |
| SessionScenarios.AsksAgainWithoutSession | shared/auth/session.ts:124-127 | a run from the initial state to such a step without a current session |
| SessionSafety.StepKeeps | shared/auth/session.ts:99-207 | every step keeps single flight, fresh answers and the rules for the sessions a run has and used |
| SessionRunners.SessionRunner.EnsureSession | shared/auth/session.ts:99-118 | the current session, the promise of the login under way, or a new one |
| SessionRunners.SessionRunner.RefreshSession | shared/auth/session.ts:120-141 | a session renewed meanwhile, the promise of the refresh under way, or a new one |
| SessionRunners.SessionRunner.Continue | shared/auth/session.ts:143-207 | a run that can move goes on to the freshness check, a refresh, the callback or the recovery |
| SessionRunners.SessionRunner.Resumed | shared/auth/session.ts:112-141 | the answer of a promise becomes the current session and all its waiters go on as one batch |
| SessionRunners.SessionRunner.CallbackFailed | shared/auth/session.ts:171-207 | a refreshable failure starts the recovery once, any other ends the run |
| CodecProofs.RoundTrip | shared/socket/payloadFrameCodec.ts:570-637 | for every value, compression choice and signing option, decoding what was encoded gives the value back if and only if the options verify their owner's frames |
| CodecProofs.DecodesUnlessUnverified | shared/socket/payloadFrameCodec.ts:236-426 | no size, ratio or output limit of the decoder rejects what the encoder lets out: decoding under any options succeeds or fails as the signature does |
| CodecProofs.VerifiesOwn | shared/socket/payloadFrameCodec.ts:508-563 | which options verify their owner's frames: no signature required without a key, and with a key either a nonblank key id or no key id anywhere |
| CodecProofs.EncodeRefuses | shared/socket/payloadFrameCodec.ts:253-261 | the encoder refuses exactly what exceeds the limits, as too large |
| CodecProofs.ShapeRoundTrip | shared/socket/payloadFrameCodec.ts:350-381 | the shape checks read back exactly the frame put on the wire |
| CodecProofs.RotatedKeyVerifies | shared/socket/payloadFrameCodec.ts:167-192 | a frame signed under a trimmed key with an id decodes under any options with that key and id among the previous keys |
| CodecProofs.SignedVerifiesExactly | shared/socket/payloadFrameCodec.ts:508-563 | exactly which options verify a frame signed under any key: the ids fit, and the primary key as it is or a previous one trimmed gives the digest |
| CodecProofs.RotationNeedsATrimmedKey | shared/socket/payloadFrameCodec.ts:160-192 | under any options with the key and its id among the previous ones, its old frames verify if and only if trimming the key leaves the digest, or some other configured key that fits gives it |
| CodecProofs.AcceptedSignatureIsConfirmed | shared/socket/payloadFrameCodec.ts:508-563 | an accepted frame is unsigned and no signature required, or some configured key that fits its id gives its digest |
| CodecProofs.AcceptedIsWithinLimits | shared/socket/payloadFrameCodec.ts:440-506 | whatever is accepted has the sizes it declares, within the absolute limits and the ratio, before and after decompression |
| CodecProofs.PreviousKeysAre | shared/socket/payloadFrameCodec.ts:179-191 | the usable previous keys are exactly the trimmed nonblank ones |
| CodecWire.EncodesExactly | shared/socket/payloadFrameCodec.ts:209-402 | the fields of an encoded frame, in terms of the options and the value: its ids, the compression that preference, size, ratio and saving call for, the length of the printed JSON and of the payload, and the signature as the digest of exactly that header and payload |
| CodecWire.DecodesExactly | shared/socket/payloadFrameCodec.ts:570-637 | whoever accepts the frame reads back those ids and sizes and the value |
| CodecWire.ShapesExactly | shared/socket/payloadFrameCodec.ts:79-158 | exactly which objects pass the shape checks, and that the fields are read as they are |
| CodecWire.AcceptsExactly | shared/socket/payloadFrameCodec.ts:440-506 | a frame of the right shape is decoded if and only if it verifies, has the sizes it declares within the limits and the ratio, and its bytes are JSON text |
| CodecWire.RefusesFrameFor | shared/socket/payloadFrameCodec.ts:484-637 | for which reason a frame of the right shape is refused: sizes that differ, a signature, inflation over the declared size or the ratio, broken gzip, or text that is not JSON |
| CodecWire.RefusesSignatureFor | shared/socket/payloadFrameCodec.ts:508-563 | for which reason a signature is refused: no key, a key id required, none compatible, or no digest |
| CodecWire.PayloadReadsExactly | shared/socket/payloadFrameCodec.ts:46-77 | what each form of payload is read as, byte by byte, and with which error it is refused |
| CodecWire.RefusesUnread | shared/socket/payloadFrameCodec.ts:484-492 | an object of the wrong shape, sizes over the limits and a payload that is no bytes are refused for that |
| CodecWire.PayloadFormsAgree | shared/socket/payloadFrameCodec.ts:46-77 | bytes, a list of numbers and base64 are read as the same payload |
| Codec.PayloadToBuffer | shared/socket/payloadFrameCodec.ts:46-77 | the copy loop gives the bytes of the list, or the first check that fails |
| Codec.ResolveVerificationKeys | shared/socket/payloadFrameCodec.ts:167-192 | the loop collects the primary key and the usable previous ones in order |
| Codec.VerifyFrameSignature | shared/socket/payloadFrameCodec.ts:508-563 | the loop over candidate keys decides as the specification does, with the same error in each case |
| Codec.DecodeFrame | shared/socket/payloadFrameCodec.ts:607-637 | the steps of decoding in the source's order give the specified result or error |
| RelayBatchSafety.CompleteIsCorrelated | shared/socket/relayBatchSession.ts:738-777 | a complete batch in any state the invariant allows gives one result a command, in command order, each with that command's id; a success carries the response that arrived under that command's own key, and a failure belongs to a command the hub did not take |
| RelayBatchSafety.ResultsAreCorrelated | shared/socket/relayBatchSession.ts:751-777 | the same for a batch that resolves at the end of any run |
| RelayBatchSafety.CompleteWhenAllAnswered | shared/socket/relayBatchSession.ts:344-416 | in every run, on the classic path among those in which only this batch's frames arrive before the acceptance: an open batch is complete exactly when every command the hub took is answered |
| RelayBatchSafety.CompleteWhenAnswered | shared/socket/relayBatchSession.ts:386-402 | an open batch that handed every early response on is complete exactly when every command the hub took is answered |
| RelayBatchSafety.CapDropsNothing | shared/socket/relayBatchSession.ts:379-411 | in every such run no first response under a key that arrives early is dropped by the cap; on the fast path in every run whatever |
| RelayBatchSafety.StepKeeps | shared/socket/relayBatchSession.ts:325-598 | every event keeps: each command is refused, matched under its own key, or waited for under it |
| RelayBatchSafety.KeysAreDistinct | shared/socket/relaySessionNormalization.ts:236-249 | under an acceptance that passed the check, different commands are correlated by different keys |
| RelayBatchEffects.RepliesExactly | shared/socket/relayBatchSession.ts:344-416 | a response goes to the command that waits for its key, is kept in the buffer as long as there is room, or changes nothing if it is for no key of the batch |
| RelayBatchEffects.FailsExactly | shared/socket/relayBatchSession.ts:344-427 | in every run a batch has failed if and only if an error came, or on the fast path a response without an id; no response to others fails it |
| RelayBatchEffects.BreaksExactly | shared/socket/relayBatchSession.ts:424-437 | an error fails the batch and changes nothing else |
| RelayBatchEffects.MatchedForGood | shared/socket/relayBatchSession.ts:372-401 | in every run a command keeps the first response it was matched with |
| RelayBatchEffects.OpensExactly | shared/socket/relayBatchSession.ts:465-595 | opening serves each command by itself: from the buffer, by waiting under its key, or by refusing it for what the acceptance says of it |
| RelayBatchEffects.ResultsExactly | shared/socket/relayBatchSession.ts:620-777 | there are no results exactly if some response is unsound, too large or of another id; otherwise each command has its response's payload and request id, or what it was refused for |
| RelayBatches.EnsureRelayBatchCommands | shared/socket/relayBatchSession.ts:107-133 | exactly 1 to 32 commands without notifications and with unique ids are accepted, ids made up where absent |
| RelayBatches.CheckAcceptedItems | shared/socket/relaySessionNormalization.ts:236-249 | the loop accepts exactly unique client ids and unique request ids |
| RelayBatches.RelayBatch.Replied | shared/socket/relayBatchSession.ts:344-416 | a response is dropped, buffered, handed to its waiter, or fails the batch |
| RelayBatches.RelayBatch.Opened | shared/socket/relayBatchSession.ts:517-595 | each command is refused, served from the buffer or waited for under its own key |
| RelayBatches.RelayBatch.Broke | shared/socket/relayBatchSession.ts:418-420 | an error fails the batch, once |
| RelayBatches.RelayBatch.BuildResults | shared/socket/relayBatchSession.ts:738-777 | the loop gives the specified results, none if a response fails its identity check or exceeds the buffer limits |
| RpcIdentity.CheckRpcResponseIdentity | shared/contracts/rpcIdentity.ts:6-51 | the loop accepts exactly what the specification accepts |
| RpcIdentity.AcceptsExactly | shared/contracts/rpcIdentity.ts:6-51 | a response is accepted if and only if a batch has an item for each command that is no notification and, unless an id was left to the hub, every item has no id or that of a command, no two alike; a single command may be named by the hub's request id |
| RpcIdentity.AcceptsSingleExactly | shared/contracts/rpcIdentity.ts:29-50 | the same spelled out for one command by itself |
| RpcIdentity.AcceptedBatchIsAPermutation | shared/contracts/rpcIdentity.ts:19-50 | a batch of two or more commands with ids, answered with an id in each item, is accepted if and only if the item ids are a permutation of the command ids and no two of those read alike |
| RpcIdentity.AlikeIdsAreNeverAccepted | shared/contracts/rpcIdentity.ts:29-50 | a batch with two ids that read alike is never accepted with ids in its items |
| BoundedConcurrencySafety.ClaimedInOrder | shared/utils/boundedConcurrency.ts:15-33 | in every schedule indices are claimed once each, in increasing order, with at most min(concurrency, total) in flight |
| BoundedConcurrencySafety.NothingClaimedAfterFailure | shared/utils/boundedConcurrency.ts:18-30 | after a failure nothing is claimed, and the error stays the first one in time |
| BoundedConcurrencySafety.CompletionIsTotal | shared/utils/boundedConcurrency.ts:35-37 | at the end all claimed work has ended; without a failure every index has its own worker's result, else the first error in time is thrown |
| BoundedConcurrencyEffects.TurnsExactly | shared/utils/boundedConcurrency.ts:18-26 | a runner claims the lowest index nobody has claimed, or returns if there is none or a worker has failed |
| BoundedConcurrencyEffects.EndsExactly | shared/utils/boundedConcurrency.ts:25-31 | a worker leaves its value in its own slot or its error if it is the first, and its runner goes on |
| BoundedConcurrencyEffects.EveryScheduleEnds | shared/utils/boundedConcurrency.ts:15-37 | every schedule has at most two events an index and one a runner, and a next one as long as some runner has not returned |
| BoundedConcurrency.BoundedRun.Turn | shared/utils/boundedConcurrency.ts:18-26 | a runner claims the next index, or returns after a failure or at the end |
| BoundedConcurrency.BoundedRun.Ended | shared/utils/boundedConcurrency.ts:25-31 | a worker's value goes into its own slot; its error is kept if it is the first |
| BoundedConcurrency.ExecuteSequentially | shared/n8n/plugItemExecution.ts:67-70 | the loop puts out every item's list in order if none fails, and otherwise throws the error of the first item that does |
| BoundedConcurrency.CollectSlots | shared/n8n/plugItemExecution.ts:77-79 | the loops over the slots append them in order |
| BoundedConcurrency.ParallelIsSequential | shared/n8n/plugItemExecution.ts:67-82 | for deterministic workers every schedule of the parallel path fails exactly if the sequential path does, with some failing item's error, and otherwise puts out the same items in order |
| Retry.ExecuteWithRetry | shared/n8n/plugTransportExecutor.ts:111-187 | at most 3 attempts, at most 120 seconds of waiting; all attempts but the last failed in a way worth another one, and the last succeeded, or is the third, or is not; its value or fault is the outcome, with the number of attempts and the last wait, and the throw after the loop is never reached |
| Retry.AfterAttempt | shared/n8n/plugTransportExecutor.ts:121-183 | the loop goes on exactly after a fault that is retried, with a delay in bounds |
| Retry.RetriesExactly | shared/n8n/plugTransientRetry.ts:179-230 | which faults are retried: timeouts of metadata calls over REST, and else what is retryable, not about authorization, replay or an unknown method, and for SQL certainly has not run; twice |
| Retry.BackoffDoubles | shared/n8n/plugTransientRetry.ts:113 | the backoff starts at 250 ms and doubles as far as 5 seconds |
| Retry.RetriedSqlHasNotRun | shared/n8n/plugTransientRetry.ts:199-230 | an SQL command is never sent again after a timeout, an ambiguous transport code, a dispatched command or a REST status of 500 or above |
| Retry.AttemptsAreFresh | shared/n8n/plugCommandIdRotation.ts:16-36 | no two attempts share a command id, and a retry has as many as the command |
| Retry.RetryIdsAreFresh | shared/n8n/plugCommandIdRotation.ts:16-36 | the ids of a retry are new and distinct |
| Retry.ComputeRetryDelay | shared/n8n/plugTransientRetry.ts:92-115 | a wait is what the server asks for, rounded up and cut at a minute; without a positive hint the random number places it within a quarter of the backoff |
| EventDedupe.EventIdDedupe.IsDuplicate | shared/socket/customSocketEventSessionSupport.ts:33-61 | an id is a duplicate exactly while its entry is live, and is put and room made otherwise; without a positive TTL nothing is a duplicate and nothing is kept |
| EventDedupe.EventIdDedupe.MakeRoom | shared/socket/customSocketEventSessionSupport.ts:49-57 | the loop drops what is over the size, first places first, or else one expired first entry |
| EventDedupe.EvictsNoMore | shared/socket/customSocketEventSessionSupport.ts:49-57 | entries go from the front, the first if it has expired and then as many as are over the size, and no more |
| EventDedupe.DuplicatesAreRecent | shared/socket/customSocketEventSessionSupport.ts:43-60 | with a clock that does not run backwards a duplicate's id was let through less than the TTL earlier, and the cache never exceeds its bound |
| EventDedupeTheorems.AgreesExactly | shared/socket/customSocketEventSessionSupport.ts:33-61 | for any bound and run: the cache decides every event that could come next, at any moment, as the events it let through demand if and only if no event of the run drops a live entry |
| EventDedupeTheorems.AgreesWithLogExactly | shared/socket/customSocketEventSessionSupport.ts:33-61 | the same with an unbounded log of the events as reference: the cache decides as the log does if and only if it drops nothing live |
| EventDedupeTheorems.DropsLiveExactly | shared/socket/customSocketEventSessionSupport.ts:48-57 | an event drops a live entry if and only if it is a new id that finds the cache full and the first entry live |
| EventDedupeTheorems.PassedIsLog | shared/socket/customSocketEventSessionSupport.ts:43-60 | without such drops the events let through are those an unbounded log lets through |
| EventDedupeTheorems.AgreesWithLog | shared/socket/customSocketEventSessionSupport.ts:43-60 | while at most `maxEntries` different ids are offered, the cache decides every event as an unbounded log would |
| EventDedupeTheorems.OrderIsKeptExactly | shared/socket/customSocketEventSessionSupport.ts:48-57 | in any run a cache sorted by expiry stays sorted over an event if and only if that does not renew an entry in front of one that expires before it |
| EventDedupeTheorems.SortedEvictsOldest | shared/socket/customSocketEventSessionSupport.ts:49-57 | what is evicted from a sorted cache expires no later than anything that stays |
| EventDedupeTheorems.RenewedIdIsForgottenFirst | shared/socket/customSocketEventSessionSupport.ts:48-57 | for any bound and any full cache: after its first entry was renewed, the next new id pushes it out while it is live, and all others stay |
| EventDedupeTheorems.ExpiredOutlivesRenewed | shared/socket/customSocketEventSessionSupport.ts:48-57 | a run in which an expired entry, or a live one, outlives the renewed one |
| PageCollection.CollectAllPages | shared/rest/resourceClient.ts:80-130 | against any server: the next page is fetched as long as items are missing and the last page was neither empty nor short; all that was fetched is put together in order, or the limit error is given at page 100 |
| PageCollection.FaithfulIsWhole | shared/rest/resourceClient.ts:80-130 | against a server that slices a fixed list that is the whole list in order if it fits in 100 pages, and the limit error otherwise |
| PageCollection.OnePageMore | shared/rest/resourceClient.ts:105-127 | a page more of a faithful server extends the collected prefix by at least one item, and a short page is the last |

## Left out

- Gzip, HMAC, base64 and JSON text themselves: parameters with the laws stated in `CodecSpec.Lawful`; the asynchronous gzip paths, which apply the same guards, are not modelled apart from the synchronous ones.
- Codec.DecodeFrame: the cache of payloads validated before and the `validateSignature` callback, which can reject a frame the model accepts, are not modelled.
- Limits and reservations that are no integers (NaN, infinities, fractions): the model's limits and sizes are integers.
- A decoder that calls back into its decode queue before it returns; callbacks of `apply` may, and do.
- The action I/O socket's `emit` calling handlers of the transport before it returns.
- The size checks on action I/O response frames: every frame that cannot be used is one `Unreadable` frame.
- The order among waiters of one settled login or refresh: they go on as one batch, as the runtime's job queue makes them.
- What a login or refresh request does, and how errors are classified; runs only see whether an error is refreshable or unauthorized.
- Window sizes, credits and prefetch of stream pulls within a command, and the timers of commands, pulls and batches, which are events that may happen at any time.
- DecodeQueues.DecodeQueue.DrainOrderedWork: counts waiters and does not tell them apart, because all of them end together.
- LazyDecodeQueues.LazyDecodeQueue.constructor: limits are valid from the start; the wrapper reports invalid ones on first use only.
- `attachRetryAfterToConsumerResponse`, server timings, metrics and log lines: they do not touch rows, counters or settlement.
- RelayBatches.RelayBatch.BuildResults: streams of batch items are not assembled; relay stream aggregation is not part of this model.
- RelayBatches.CheckAcceptedItems: the form checks of single acceptance items are left out; items are taken to be well formed.
- Retry.ExecuteWithRetry: an attempt is one call with one result; the session's own refresh inside it is the session runner's subject.
- BoundedConcurrencySafety.CompletionIsTotal: takes a concurrency of at least 1, as the only caller passes; with less the source starts no runner and returns unfilled slots.
- `executeWithPlugTransientRetry` repeats the retry loop without command ids and adds nothing to it.
- Credit accounting, the wire dispatcher and the socket session lifecycle, REST parsing, node descriptions and SQL text checks.
