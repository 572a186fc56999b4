# Verified models of the Legator control plane

Legator is a control plane for a fleet of probes. This project models, in Dafny 4.11, the parts of it that are protocols
or state machines, and proves what they promise. Each part has a specification (data, functions, a state machine), a
class or method that follows the code step by step where the code changes state, a proof that the class does what the
specification says, and theorems about all runs of the specification.

| part | files |
|---|---|
| Durable command stream: reorder buffer, event log, retention, replay with resume tokens, handoff to live events | `StreamToken`, `StreamStore`, `StreamReplay`, `ReorderBuffer`, `StreamModel`, `StreamDelivery`, `StreamClock`, `StreamRecorder` |
| Automation packs: gates, retries, rollback, timeline, artifacts, and the dry run | `Saga`, `Timeline`, `Executor`, `SagaRecord`, `DryRun` |
| Async jobs: life cycle, admission, bounded scheduler under interleaving | `AsyncJobs`, `AsyncScheduler`, `SchedulerDrain` |
| Audit hash chain: append, restart, verification, purge | `AuditChain`, `AuditStore` |
| Alerts: durations, firing map against the stored events, notifications | `Alerts`, `AlertEngine`, `AlertHistory` |
| Approval queue: quorum, expiry, listing | `ApprovalQueue`, `ApprovalStore`, `ApprovalHistory` |
| Presigned artifact tokens: paths, base64url, signing and validation | `ArtifactPath`, `Base64Url`, `Presign` |
| Rate limiter, command tracker, federated inventory | `RateLimiter`, `CommandTracker`, `Federation`, `FederationStore` |
| Shared: text as Go's `strings` treats it, first-n selection under an order | `Text`, `Ranking` |

`dafny verify dfyconfig.toml` checks everything.

## How to read it

- **Runs.** A run is a sequence of steps of a state machine, in any order that its guards allow; the main theorems hold
  for all of them. The classes (`Recorder`, `Execution`, `Scheduler`, `Store`, `Engine`, `Queue`, `Limiter`) keep the
  fields of the Go types; their methods say that the new state is a step, or a run, of the machine.
- **The stream.** `Tiles(items, log, from, to)` is the central notion: the items tell the numbers after `from` up to `to`
  one after the other, each by the event that was issued under it or within a reported missed range. `Passed` says that a
  table is exactly what the three retention deletes leave, one after the other.
- **The saga.** `World` holds everything the outside answers: the policy simulator, the approval decisions of the request
  and the action runner. `Ended(Stop(pack, world))` fixes the whole record of an execution as a function of the automation pack and
  the world; the timeline is accepted by the automaton `Next`, tells the truth, and by `TimelineDetermined` there is only
  one such timeline; the artifacts are `AllEvidence` of that timeline.
- **Histories.** `StreamDelivery`, `SagaRecord`, `AlertHistory` and `ApprovalHistory` say what comes out of a run in terms of
  what went in, with the numbers, texts and times written out, and not in terms of the functions of the model.
- **The outside.** Clocks are parameters that do not run backwards. SQL tables are maps and sequences. The HMAC is a
  function without clashes among the rows at hand. JSON encoding is an abstract function, and where a round trip matters
  it is the condition of an if-and-only-if.

## Where a promise does not hold as stated

These are proved as exact conditions, each with a concrete case.

- Replay followed by live events is gapless only if a row of the request is still stored or the cursor is the last issued
  number (`StreamDelivery.Handoff`); the recorder reaches the gap (`StreamRecorder.HandoffGap`).
- After a restart numbering carries on only if a row of the request is left (`StreamRecorder.RestartContinues`); otherwise
  a number is given twice (`StreamRecorder.NumberRepeats`).
- Retention deletes only the oldest rows if and only if the stamps of a request sort, as text, in the order of its
  numbers; RFC3339Nano drops trailing zeros, so they need not (`StreamClock`). The recorder model takes stamps as ordered
  numbers and a clock that does not run backwards.
- An audit table verifies if and only if its rows sort in the order they were written; equal stamps can break it
  (`AuditStore.Store.Verify`, `AuditStore.EqualStampsFail`), and so does a purge that removes a signed row
  (`AuditChain.PurgeIff`, `AuditChain.PurgeBreaks`).
- A rule with a duration does not stay firing under a steady condition (`Alerts.SteadyConditionFlaps`): it fires and
  resolves again (`Alerts.FiresThenResolves`).
- A job that is put on hold for approval between the scheduler's look and its claim is started all the same
  (`AsyncScheduler.StaleClaimReachable`); exactly when a claim does so is `AsyncScheduler.ClaimTakes`.
- The rate limiter allows up to twice the limit less one within one window length (`RateLimiter.BoundIsReached`), and a
  limit below 1 acts as 1.
- A token whose lifetime is shorter than the rest of the current second is expired at birth
  (`Presign.GoodAtBirthIff`, `Presign.ExpiredAtBirth`).
- Tracking a command id that is still in flight leaves the earlier waiter without an answer
  (`CommandTracker.TrackingAgainForgets`).

## Model

| member | source | states |
|---|---|---|
| `StreamToken.RoundTrip` | internal/controlplane/cmdtracker/stream_recorder.go:182-212 | decoding the token of any request and position gives back the trimmed request and the clamped position, also when the request id holds colons |
| `StreamToken.Injective` | internal/controlplane/cmdtracker/stream_recorder.go:182-191 | two requests or two positions never share a token |
| `StreamToken.DecodeIff` | internal/controlplane/cmdtracker/stream_recorder.go:193-212 | a token that is not blank is accepted, as this request and position, if and only if it splits at its last colon into a request that is not blank and a number that is not negative |
| `StreamStore.Normalize` | internal/controlplane/cmdtracker/stream_recorder.go:75-86 | after normalization every retention limit is on, each limit that was on is kept, and without any the limits are 2000 rows a request, 100000 in all and 24 hours |
| `StreamStore.PruneAgeSuffix` | internal/controlplane/cmdtracker/stream_recorder.go:561-566 | the age delete removes only the oldest rows of each request and leaves a contiguous run |
| `StreamStore.PrunePerRequestSuffix` | internal/controlplane/cmdtracker/stream_recorder.go:567-606 | the same for the delete that caps each request |
| `StreamStore.PruneTotalSuffix` | internal/controlplane/cmdtracker/stream_recorder.go:608-621 | the same for the delete that caps the whole table by (created_at, request_id, seq) |
| `StreamStore.PruneTotalSize` | internal/controlplane/cmdtracker/stream_recorder.go:608-621 | the total delete always finds its rows and leaves exactly the cap, or everything when there is less |
| `StreamStore.PruneTotalIs` | internal/controlplane/cmdtracker/stream_recorder.go:608-621 | the rows it removes are determined by the order alone: there is only one such set |
| `StreamStore.PrunePerRequestBound` | internal/controlplane/cmdtracker/stream_recorder.go:567-606 | after the per-request delete no request holds more rows than its cap |
| `StreamStore.PassedKeeps` | internal/controlplane/cmdtracker/stream_recorder.go:557-623 | a whole retention pass removes only oldest rows, keeps every request contiguous, and leaves the age, per-request and total limits met |
| `StreamStore.PerRequestKeepsNewest` | internal/controlplane/cmdtracker/stream_recorder.go:567-606 | the per-request delete leaves exactly the newest rows of a request, the smaller of the cap and what there is |
| `StreamStore.TotalTakesOldest` | internal/controlplane/cmdtracker/stream_recorder.go:608-621 | no row the total delete removes, of whatever request, is younger than one it leaves |
| `StreamStore.PassKeepsWhatFits` | internal/controlplane/cmdtracker/stream_recorder.go:557-623 | a request that is young and short enough, in a table that is small enough, goes through a retention pass unchanged |
| `StreamReplay.TilesExactlyOnce` | internal/controlplane/cmdtracker/stream_recorder.go:368-452 | when items tile a range of the log, every number of the range is told exactly once: by the very event issued under it, or inside one missed range; numbers outside are not told |
| `StreamReplay.PageTiles` | internal/controlplane/cmdtracker/stream_recorder.go:368-452 | a replay page from an issued cursor tiles the numbers from that cursor to its own next cursor; a page with no more rows reaches the last issued number unless nothing is stored; a page with more is full |
| `StreamReplay.WithToken` | internal/controlplane/cmdtracker/stream_recorder.go:454-472 | a query with the token of its request starts behind the later of the token and last_seq |
| `StreamReplay.OtherToken` | internal/controlplane/cmdtracker/stream_recorder.go:454-472 | a query with the token of another request is refused |
| `StreamReplay.PageBehind` | internal/controlplane/cmdtracker/stream_recorder.go:368-472 | a page asked for by last_seq without a token tells everything from that number on |
| `StreamReplay.PageBounds` | internal/controlplane/cmdtracker/stream_recorder.go:385-405 | the earliest and latest numbers of a page are those of the rows stored, counted back from the last issued number |
| `StreamReplay.BeyondTheEnd` | internal/controlplane/cmdtracker/stream_recorder.go:385-452 | a cursor beyond the last issued number gets an empty page that takes it back to that number |
| `StreamReplay.NormalLimit` | internal/controlplane/cmdtracker/stream_recorder.go:377-383 | a page limit within 1 and 5000 is kept, a larger one becomes 5000, and none becomes 500 |
| `ReorderBuffer.DrainReleases` | internal/controlplane/cmdtracker/stream_recorder.go:272-299 | the release loop lets go exactly the pending chunks from the next number up to the first hole, in order, and keeps the others |
| `ReorderBuffer.ReleasesTheArrivedPrefix` | internal/controlplane/cmdtracker/stream_recorder.go:245-302 | for every order of arrival, with repeats and holes, the released chunks are numbers 1 to k in order, each with its first arrival, and number k + 1 has not arrived |
| `ReorderBuffer.ArrivedAsNumbered` | internal/controlplane/cmdtracker/stream_recorder.go:262-270 | a chunk that carries a positive number is taken under that number |
| `ReorderBuffer.UnnumberedGoesNext` | internal/controlplane/cmdtracker/stream_recorder.go:262-299 | a chunk without a number takes the next one and is released at once |
| `StreamModel.ApplyKeepsGood` | internal/controlplane/cmdtracker/stream_recorder.go:474-623 | every append, prune, subscription, cleanup and receive keeps the stored rows of a request a contiguous run that ends at the last issued number, and every subscriber consistent with the log |
| `StreamModel.NoSilentLoss` | internal/controlplane/cmdtracker/stream_recorder.go:182-623 | over every interleaving of appends, prunes, subscriptions and reads, a consumer that follows resume tokens from an issued cursor is told each number up to its new cursor exactly once, as the event or in one missed range |
| `StreamDelivery.OverflowIff` | internal/controlplane/cmdtracker/stream_recorder.go:517-529 | over every run from its subscription, a subscriber has lost an event if and only if some event behind its cursor was appended while as many events as its buffer holds, 256 by default, were sent and not yet received |
| `StreamDelivery.Handoff` | internal/controlplane/cmdtracker/stream_recorder.go:305-351 | for a last page and a history in which the buffer never overran: replayed items followed by live events tell exactly everything after the cursor, in order and once, if and only if a row of the request is stored or the cursor is the last issued number |
| `StreamDelivery.PromptClientMissesNothing` | internal/controlplane/cmdtracker/stream_recorder.go:517-529 | a client that receives each event before the next append is sent everything issued since it subscribed, for any number of appends and any buffer |
| `StreamClock.StampOrder` | internal/controlplane/cmdtracker/stream_recorder.go:484-503 | two stamps of one second sort as text in their order of time if and only if the digits of the earlier fraction are not the beginning of the digits of the later one |
| `StreamClock.StampOrderFails` | internal/controlplane/cmdtracker/stream_recorder.go:484-503 | a pair of stamps that sorts the wrong way round |
| `StreamClock.TotalDeleteIffInOrder` | internal/controlplane/cmdtracker/stream_recorder.go:608-621 | the total delete takes only the oldest rows of every request, for every cap, if and only if the stamps of each request sort in the order of its numbers |
| `StreamClock.SilentLossWhenOutOfOrder` | internal/controlplane/cmdtracker/stream_recorder.go:368-452 | with two stamps out of order and room for one row, a consumer is never told of number 2 |
| `StreamRecorder.Recorder.constructor` | internal/controlplane/cmdtracker/stream_recorder.go:124-172 | a new recorder on an empty database has issued nothing and has its limits normalized |
| `StreamRecorder.Recorder.Open` | internal/controlplane/cmdtracker/stream_recorder.go:124-172 | opened on the rows of an earlier recorder: nothing but the table survives, and it is exactly what one retention pass leaves |
| `StreamRecorder.Recorder.LeastRow` | internal/controlplane/cmdtracker/stream_recorder.go:608-621 | the row found comes before every other one in the delete order |
| `StreamRecorder.Recorder.FirstRows` | internal/controlplane/cmdtracker/stream_recorder.go:608-621 | the rows selected are the n that come before all the others |
| `StreamRecorder.Recorder.PruneByAge` | internal/controlplane/cmdtracker/stream_recorder.go:561-566 | the table is exactly what the age delete leaves |
| `StreamRecorder.Recorder.PruneByRequest` | internal/controlplane/cmdtracker/stream_recorder.go:567-606 | the loop over groups leaves exactly what the per-row delete would |
| `StreamRecorder.Recorder.PruneByTotal` | internal/controlplane/cmdtracker/stream_recorder.go:608-621 | the table is exactly what the total delete leaves |
| `StreamRecorder.Recorder.PruneLocked` | internal/controlplane/cmdtracker/stream_recorder.go:557-623 | the three deletes run in order: age, request, total |
| `StreamRecorder.Recorder.LoadState` | internal/controlplane/cmdtracker/stream_recorder.go:531-555 | cached or derived, the state numbers the next event right after the last issued one |
| `StreamRecorder.Recorder.DispatchLocked` | internal/controlplane/cmdtracker/stream_recorder.go:517-529 | exactly the subscribers of the request get the event, each as its cursor and buffer allow; others are untouched |
| `StreamRecorder.Recorder.StoreRow` | internal/controlplane/cmdtracker/stream_recorder.go:490-511 | insert and retention pass leave the table valid and the request a suffix of its log with the new row |
| `StreamRecorder.Recorder.Count` | internal/controlplane/cmdtracker/stream_recorder.go:507-507 | the counter and the log move on by one event, for that request only |
| `StreamRecorder.Recorder.Write` | internal/controlplane/cmdtracker/stream_recorder.go:490-515 | row, counter and dispatch of one event, and nothing of any other request but prunes |
| `StreamRecorder.Recorder.Insert` | internal/controlplane/cmdtracker/stream_recorder.go:474-515 | the event takes the next number, exactly one retention pass follows, its subscribers are dispatched to, and for every request the outcome is a run of the state machine |
| `StreamRecorder.Recorder.Append` | internal/controlplane/cmdtracker/stream_recorder.go:474-555 | load, number, store, prune and dispatch one event; no reorder buffer changes |
| `StreamRecorder.Recorder.AppendMarker` | internal/controlplane/cmdtracker/stream_recorder.go:215-241 | a blank request id is ignored; otherwise one marker is appended to the log of the trimmed request, and the recorder stays a run of the state machine for every request |
| `StreamRecorder.Recorder.EmitNext` | internal/controlplane/cmdtracker/stream_recorder.go:273-299 | one turn of the release loop: the next chunk leaves the buffer and becomes the next event |
| `StreamRecorder.Recorder.ReleaseOne` | internal/controlplane/cmdtracker/stream_recorder.go:273-299 | one turn keeps the events in step with the reorder model, every request on a run of the state machine, and shrinks the buffer |
| `StreamRecorder.Recorder.Release` | internal/controlplane/cmdtracker/stream_recorder.go:272-301 | the loop drains the buffer as the reorder model does and stores each chunk under consecutive numbers |
| `StreamRecorder.Recorder.TakeIn` | internal/controlplane/cmdtracker/stream_recorder.go:257-270 | a late number is dropped, a new one kept, a repeated one ignored |
| `StreamRecorder.Recorder.AppendChunk` | internal/controlplane/cmdtracker/stream_recorder.go:257-302 | the buffer and the emitted events are those of the reorder model |
| `StreamRecorder.Recorder.AppendOutputChunk` | internal/controlplane/cmdtracker/stream_recorder.go:245-302 | the same for the trimmed request; a blank one changes nothing |
| `StreamRecorder.ChunkIsStored` | internal/controlplane/cmdtracker/stream_recorder.go:273-299 | each stored event has the data and number of its own chunk, the stream trimmed, and an exit code exactly when it is the final one |
| `StreamRecorder.Recorder.Select` | internal/controlplane/cmdtracker/stream_recorder.go:407-434 | row by row, the first n rows after a number |
| `StreamRecorder.Recorder.ReplayLocked` | internal/controlplane/cmdtracker/stream_recorder.go:368-452 | the page of a request and a resolved cursor |
| `StreamRecorder.Recorder.Replay` | internal/controlplane/cmdtracker/stream_recorder.go:354-366 | bad tokens are refused; otherwise the page tells everything between the resolved cursor and its own, whenever the cursor was issued |
| `StreamRecorder.Recorder.AddSubscriber` | internal/controlplane/cmdtracker/stream_recorder.go:313-329 | the new subscriber starts behind the page cursor with a buffer of the size asked for, 256 by default |
| `StreamRecorder.Recorder.SubscribeAfter` | internal/controlplane/cmdtracker/stream_recorder.go:305-351 | page and subscriber come from the same state of the log |
| `StreamRecorder.Recorder.ReplayAndSubscribe` | internal/controlplane/cmdtracker/stream_recorder.go:305-351 | the three outcomes: blank request, refused token, page with a subscriber; only that request changes |
| `StreamRecorder.Recorder.Unsubscribe` | internal/controlplane/cmdtracker/stream_recorder.go:331-346 | the cleanup removes that subscriber and no other |
| `StreamRecorder.Recorder.Without` | internal/controlplane/cmdtracker/stream_recorder.go:335-342 | the list without the first entry of that identity |
| `StreamRecorder.AgedOut` | internal/controlplane/cmdtracker/stream_recorder.go:561-566 | a pass later than the retention age of every row of a request leaves none of them |
| `StreamRecorder.RestartContinues` | internal/controlplane/cmdtracker/stream_recorder.go:531-555 | the number derived after a restart follows the last issued one if and only if a row of the request is left or nothing was issued |
| `StreamRecorder.RestartChunks` | internal/controlplane/cmdtracker/stream_recorder.go:531-555 | after a restart the next chunk expected is the one behind the largest that is stored |
| `StreamRecorder.HandoffGap` | internal/controlplane/cmdtracker/stream_recorder.go:305-351 | on the recorder itself: one event outlived by a later one of another request, then a subscription from 0 and a second event; the page is empty and reports nothing missed, the subscriber is sent number 2 alone |
| `StreamRecorder.NumberRepeats` | internal/controlplane/cmdtracker/stream_recorder.go:531-555 | and a recorder opened on the rows left gives number 1 a second time |
| `Saga.LastTry` | internal/controlplane/automationpacks/execution.go:454-567 | a step stops at its first successful attempt, or at the last one allowed |
| `Saga.StopAt` | internal/controlplane/automationpacks/execution.go:341-568 | the steps succeed up to the first one that does not |
| `Saga.UnwoundIsExact` | internal/controlplane/automationpacks/execution.go:754-854 | exactly the steps that succeeded and have a hook are undone, each once, with the status of its hook, in strictly reverse order |
| `Timeline.ActsOnlyWhenCleared` | internal/controlplane/automationpacks/execution.go:364-451 | on every good timeline the first attempt of a mutating step comes after a policy event that is neither deny nor queue and after every required approval was given |
| `Timeline.AttemptAnswered` | internal/controlplane/automationpacks/execution.go:454-567 | an attempt is within the retries of its step, and the very next event is its result |
| `Timeline.RetryFollowsFailure` | internal/controlplane/automationpacks/execution.go:454-567 | a further attempt comes right after the failure of the one numbered before it |
| `Timeline.AttemptsReported` | internal/controlplane/automationpacks/execution.go:501-562 | the number of attempts a finished step reports is the number of attempts on the timeline, and they are numbered from 1 up to it |
| `Timeline.Compensates` | internal/controlplane/automationpacks/execution.go:754-854 | a finished timeline has undone exactly the succeeded steps with a hook, or none when all steps succeeded |
| `Timeline.UndoneInReverse` | internal/controlplane/automationpacks/execution.go:754-854 | steps are undone in the reverse order of their success, each at most once, and nothing acts after a rollback began |
| `Timeline.RollbackAnswered` | internal/controlplane/automationpacks/execution.go:773-845 | a rollback is answered by the very next event |
| `Timeline.StartsFirst` | internal/controlplane/automationpacks/execution.go:315-333 | execution.started is the first event and occurs only there |
| `Timeline.FinishesLast` | internal/controlplane/automationpacks/execution.go:570-583 | execution.finished is the last event and occurs only there |
| `Timeline.EachStepOnce` | internal/controlplane/automationpacks/execution.go:341-568 | steps are started in order, each at most once, and closed the same way |
| `Timeline.StartedIsClosed` | internal/controlplane/automationpacks/execution.go:341-568 | in a finished timeline a step is closed if and only if it was started |
| `Timeline.OnlyOneNext` | internal/controlplane/automationpacks/execution.go:341-568 | in every phase at most one event can truthfully come next |
| `Timeline.TimelineDetermined` | internal/controlplane/automationpacks/execution.go:285-584 | two finished timelines that tell the truth about the same automation pack and the same answers report the same events |
| `Executor.EvidenceIsLinked` | internal/controlplane/automationpacks/execution.go:993-1014 | every artifact names an event of its own step, or is the summary of a step that failed |
| `Executor.FollowsMeans` | internal/controlplane/automationpacks/execution.go:968-991 | the recorded timeline is numbered 1 to n, follows the protocol and reports what policy, approvals and runner answered |
| `Executor.Execution.constructor` | internal/controlplane/automationpacks/execution.go:305-337 | a new execution is running, with every step pending and empty records |
| `Executor.Execution.Record` | internal/controlplane/automationpacks/execution.go:968-991 | one event is appended under the next number, allowed by the protocol and true |
| `Executor.Execution.Attach` | internal/controlplane/automationpacks/execution.go:993-1014 | exactly the artifact that the last events call for is appended |
| `Executor.Execution.Capture` | internal/controlplane/automationpacks/execution.go:1016-1062 | the evidence of an action, kind by kind, in the fixed order |
| `Executor.Execution.KeepEvidence` | internal/controlplane/automationpacks/execution.go:499-546 | evidence of a success, or the error context of a failure |
| `Executor.Execution.Checkpoint` | internal/controlplane/automationpacks/execution.go:924-966 | a due approval is recorded with its decision and artifacts; a refusal ends in the refused phase |
| `Executor.Execution.Pass` | internal/controlplane/automationpacks/execution.go:364-451 | the gates of a step come out as policy, workflow approval and step approval say, in that order |
| `Executor.Execution.Attempt` | internal/controlplane/automationpacks/execution.go:455-546 | one attempt: the runner is asked once, its answer goes into history, timeline and artifacts |
| `Executor.Execution.Retry` | internal/controlplane/automationpacks/execution.go:454-567 | the loop ends with the first success or the last attempt allowed; the history holds every answer in order |
| `Executor.Execution.Conclude` | internal/controlplane/automationpacks/execution.go:501-565 | the step ends with the status of its last attempt |
| `Executor.Execution.Try` | internal/controlplane/automationpacks/execution.go:453-567 | a step that passed its gates ends exactly as its answers determine |
| `Executor.Execution.SkipRemaining` | internal/controlplane/automationpacks/execution.go:732-752 | exactly the steps behind the one that stopped are skipped |
| `Executor.Execution.RunHook` | internal/controlplane/automationpacks/execution.go:773-845 | one hook: started, run once, answered |
| `Executor.Execution.UndoOne` | internal/controlplane/automationpacks/execution.go:766-849 | a step without a hook is passed over; a failed hook makes the rollback partial |
| `Executor.Execution.Unwind` | internal/controlplane/automationpacks/execution.go:754-854 | the rollback list and status are those of the hooks run in reverse order |
| `Executor.Execution.Wind` | internal/controlplane/automationpacks/execution.go:665-677 | skipping, rollback and the final event of an execution that did not succeed |
| `Executor.Execution.Block` | internal/controlplane/automationpacks/execution.go:680-730 | an execution blocked at a step ends with that step blocked, the rest skipped, and the category of the gate |
| `Executor.Execution.Fail` | internal/controlplane/automationpacks/execution.go:646-678 | an execution that failed at a step keeps the step's own verdict, skips the rest and rolls back |
| `Executor.Execution.Enter` | internal/controlplane/automationpacks/execution.go:341-451 | a step is started and its gates are evaluated |
| `Executor.Execution.RunStep` | internal/controlplane/automationpacks/execution.go:341-568 | one turn of the loop: go on exactly when the step succeeded, end otherwise |
| `Executor.Execution.Complete` | internal/controlplane/automationpacks/execution.go:570-583 | all steps succeeded: no rollback is required |
| `Executor.Execution.Start` | internal/controlplane/automationpacks/execution.go:285-584 | for every automation pack and every behaviour of policy, approvals and runner: steps before the first failure succeeded, that one keeps its verdict, the rest are skipped; hooks of the succeeded steps ran in reverse; status, failure category, rollback status, timeline and artifacts are all as determined |
| `SagaRecord.ActedOnlyWhenApproved` | internal/controlplane/automationpacks/execution.go:364-451 | on the record of every execution: a mutating step with an attempt was neither denied nor queued, and each approval required of it or of the workflow was approved by enough: at least the minimum, or none counted where one is enough |
| `SagaRecord.ManyApprovers` | internal/controlplane/automationpacks/execution.go:893-922 | with a required minimum of two or more and the approvers counted, an attempted mutating step had that many, of its own and of the workflow |
| `SagaRecord.BlockedIff` | internal/controlplane/automationpacks/execution.go:364-451 | a step that was reached ends blocked if and only if it mutates and its policy denies or queues it or a required approval lacks approvers |
| `SagaRecord.AttemptsTell` | internal/controlplane/automationpacks/execution.go:454-567 | an attempted step stopped at its first success or after its retries and one; it succeeded, timed out or failed exactly as the runner answered last, and every answer before was a failure |
| `SagaRecord.HistoryTells` | internal/controlplane/automationpacks/execution.go:455-546 | the history of a step holds, attempt by attempt, what the runner answered |
| `SagaRecord.StatusTells` | internal/controlplane/automationpacks/execution.go:341-584 | an execution succeeded if and only if every step did; otherwise the step named by its failure is the only one that failed, timed out or was blocked, everything before it succeeded and everything after it was skipped |
| `SagaRecord.CategoryTells` | internal/controlplane/automationpacks/execution.go:646-730 | the category of a failure is execution exactly for a step that ran, and policy exactly for one the policy held back |
| `SagaRecord.RollbackTells` | internal/controlplane/automationpacks/execution.go:754-854 | the rollback list holds exactly the hooks of succeeded steps of an execution that did not succeed, each with the outcome of its own run, the last step first |
| `SagaRecord.UndoneTells` | internal/controlplane/automationpacks/execution.go:754-854 | a step has a rollback status exactly if its hook was run, and it is the outcome of that run |
| `SagaRecord.RollbackStatusTells` | internal/controlplane/automationpacks/execution.go:754-854 | the rollback is not required exactly if no hook ran, and partial exactly if one failed |
| `SagaRecord.EventsTell` | internal/controlplane/automationpacks/execution.go:364-567 | every event of a finished timeline carries its own number and reports what policy, approvers or runner answered |
| `SagaRecord.ArtifactsTell` | internal/controlplane/automationpacks/execution.go:924-1062 | the artifacts of a finished execution are exactly those that document one of its events: rationale, checkpoint, captured output or error context |
| `DryRun.MergeIsMax` | internal/controlplane/automationpacks/dryrun.go:432-452 | merging takes the higher rank for any two outcomes; only an empty one that meets nothing known becomes an allow |
| `DryRun.MergeStaysKnown` | internal/controlplane/automationpacks/dryrun.go:432-452 | from allow, queue or deny the merged outcome is one of them |
| `DryRun.PredictedRank` | internal/controlplane/automationpacks/dryrun.go:410-430 | the prediction of a step is the higher of its policy and, if it requires approval, queue |
| `DryRun.Predict` | internal/controlplane/automationpacks/dryrun.go:120-206 | the loop returns the highest outcome of all steps, and at least queue when the workflow requires approval |
| `DryRun.PredictionIff` | internal/controlplane/automationpacks/dryrun.go:120-206 | the prediction is deny if and only if the policy denies some step, and otherwise queue if and only if it queues some step or an approval is required, of a step or of the workflow |
| `DryRun.OrderDoesNotMatter` | internal/controlplane/automationpacks/dryrun.go:120-206 | two packs with the same steps in any order have the same prediction |
| `DryRun.AllowNeverBlocks` | internal/controlplane/automationpacks/execution.go:364-451 | a returned prediction of allow means that no execution ends blocked, whatever approvals the request carries and whatever the actions answer |
| `DryRun.DenyNeverSucceeds` | internal/controlplane/automationpacks/execution.go:405-412 | a deny predicted for a mutating step means that no execution succeeds |
| `DryRun.OpenForAll` | internal/controlplane/automationpacks/execution.go:364-451 | a step passes under every approval context if and only if it mutates nothing, or neither policy nor an approval requirement holds it back |
| `AsyncJobs.TransitionMovesOn` | internal/controlplane/jobs/async_store.go:414-531 | a transition succeeds exactly when the table of transitions allows it, moves that job only, never back in rank, and keeps its times in step with its state |
| `AsyncJobs.DoMovesOn` | internal/controlplane/jobs/async_store.go:414-748 | the same for approve, reject, both expiries and every other operation |
| `AsyncJobs.LifeOfAJob` | internal/controlplane/jobs/async_types.go:122-170 | over every history a job changes state at most three times, never leaves a terminal state, and has a finish time exactly when terminal |
| `AsyncJobs.EntersIff` | internal/controlplane/jobs/async_store.go:414-748 | exactly which operations bring a job into each state, and from which: approval starts and rejection fails a waiting job, one expiry takes exactly the running jobs and the other exactly the waiting ones whose window is over |
| `AsyncJobs.StampsTell` | internal/controlplane/jobs/async_store.go:414-748 | a job that changes its state is stamped with the time of the operation, and one that does not keeps its stamps |
| `AsyncJobs.WindowTells` | internal/controlplane/jobs/async_store.go:785-808 | the window of a waiting job is the one its wait came with or was last extended to |
| `AsyncJobs.RunsOnlyIfStarted` | internal/controlplane/jobs/async_store.go:414-748 | over every history, a job that runs or has succeeded was started by a transition to running or by an approval |
| `AsyncScheduler.Normalize` | internal/controlplane/jobs/async_scheduler.go:38-59 | the limits are positive, settings in range are kept, and a batch holds at least as many jobs as may be in flight, up to the listing cap |
| `AsyncScheduler.GroupCountsExact` | internal/controlplane/jobs/async_store.go:335-360 | the grouped count is the number of running jobs of each probe |
| `AsyncScheduler.ClaimTakes` | internal/controlplane/jobs/async_scheduler.go:253-279 | a claim succeeds exactly below the limits for a job that is queued, waiting for approval or running already |
| `AsyncScheduler.SchedulerIsSafe` | internal/controlplane/jobs/async_scheduler.go:160-279 | under every interleaving of drains, direct dispatches, admissions, completions, cancels, approvals and expiries: no job is dispatched twice, dispatched running jobs stay within both limits, the queue within its depth, and every job's times in step with its state |
| `AsyncScheduler.AllRunningBounded` | internal/controlplane/jobs/async_scheduler.go:160-279 | when nothing else lets jobs enter running, both limits bound all running jobs, in all and on each probe |
| `AsyncScheduler.AdmittedIff` | internal/controlplane/jobs/async_manager.go:42-62 | a new job is queued if and only if the queue has no limit or holds fewer jobs than it |
| `AsyncScheduler.DispatchNowIff` | internal/controlplane/jobs/async_scheduler.go:210-279 | a direct dispatch that nothing interrupts starts a queued job if and only if fewer jobs run than may, in all and on its probe |
| `AsyncScheduler.StartIsSafe` | internal/controlplane/jobs/async_manager.go:42-62 | the empty store satisfies the invariant of every run |
| `AsyncScheduler.StaleClaimReachable` | internal/controlplane/jobs/async_scheduler.go:210-279 | a queued job put on hold for approval between the look and the claim is started all the same; `ClaimTakes` is the exact condition |
| `AsyncScheduler.DrainConservesWork` | internal/controlplane/jobs/async_scheduler.go:160-208 | after an uninterrupted drain every listed job runs or is held by a limit, counters are exact, other jobs are untouched, and the limit is not passed |
| `AsyncScheduler.DrainIdleIff` | internal/controlplane/jobs/async_scheduler.go:160-208 | a drain starts nothing if and only if the limit is reached or every listed job is held by a limit |
| `AsyncScheduler.DrainLogsWhatItStarts` | internal/controlplane/jobs/async_scheduler.go:189-207 | the jobs handed to the dispatcher are those of the listing that run afterwards, in its order |
| `AsyncScheduler.PassedOverByProbe` | internal/controlplane/jobs/async_scheduler.go:189-279 | a job is passed over for a younger one only if the limit of its own probe is reached |
| `AsyncScheduler.StartsTheOldest` | internal/controlplane/jobs/async_scheduler.go:160-208 | without a limit per probe the jobs started are the first of the listing, as many as there is room for |
| `SchedulerDrain.Scheduler.constructor` | internal/controlplane/jobs/async_scheduler.go:90-101 | a new scheduler has normalized limits and has dispatched nothing |
| `SchedulerDrain.Scheduler.CountRunning` | internal/controlplane/jobs/async_scheduler.go:168-176 | the groups add up to all running jobs |
| `SchedulerDrain.Scheduler.Oldest` | internal/controlplane/jobs/async_store.go:241-272 | none of the jobs is older than the one found |
| `SchedulerDrain.Scheduler.ListQueued` | internal/controlplane/jobs/async_store.go:241-272 | the listing holds queued jobs, each once, oldest first, none older left out, as many as the limit allows |
| `SchedulerDrain.Scheduler.Drain` | internal/controlplane/jobs/async_scheduler.go:160-208 | a drain serves the oldest queued jobs: each of them runs or is held by a limit, in order, and exactly those started are dispatched |
| `SchedulerDrain.Scheduler.DrainListing` | internal/controlplane/jobs/async_scheduler.go:178-207 | the same for a given listing and snapshot |
| `SchedulerDrain.Scheduler.ClaimListing` | internal/controlplane/jobs/async_scheduler.go:189-207 | the loop claims candidate by candidate while there is room |
| `AuditChain.VerifyChain` | internal/controlplane/audit/store.go:366-443 | the loop accepts exactly the good tables, counts the signed rows, and otherwise names the first bad row |
| `AuditChain.AcceptsIff` | internal/controlplane/audit/store.go:378-436 | a table is accepted if and only if its unsigned rows come first and its signed rows are chained from genesis |
| `AuditChain.Commitment` | internal/controlplane/audit/chain.go:54-77 | two chains that end in the same hash hold the same payloads under the same hashes, row for row |
| `AuditChain.TamperEvident` | internal/controlplane/audit/store.go:366-443 | whatever is done to an accepted table, if the result is accepted and ends in the same hash, its signed rows carry the same payloads in the same order |
| `AuditChain.PurgeIff` | internal/controlplane/audit/store.go:446-478 | what a purge leaves verifies if and only if nothing is left or no signed row was removed |
| `AuditChain.PurgeBreaks` | internal/controlplane/audit/store.go:446-478 | any two entries recorded from the start verify together; with the first purged the second does not |
| `AuditChain.NewKeyIff` | internal/controlplane/audit/store.go:140-156 | under another key what was signed still verifies if and only if the new key gives every hash again |
| `AuditChain.MessageSplits` | internal/controlplane/audit/chain.go:54-69 | what is hashed determines the previous hash and the payload |
| `AuditChain.ClashIffHashClash` | internal/controlplane/audit/chain.go:54-77 | two rows seal alike without being alike if and only if the keyed hash gives the same for two different texts |
| `AuditStore.ChainedIff` | internal/controlplane/audit/store.go:366-443 | the rows in verification order are chained if and only if they were written in that order and read back as sealed |
| `AuditStore.VerifyIff` | internal/controlplane/audit/store.go:366-443 | the same for a table with an unsigned prefix |
| `AuditStore.EqualStampsFail` | internal/controlplane/audit/store.go:366-443 | two entries recorded one behind the other with the same stamp, the second id sorting first: verification reads them the other way round and refuses them |
| `AuditStore.Store.Record` | internal/controlplane/audit/store.go:191-219 | a new entry is appended, sealed behind the last hash in chain mode, and its hash becomes the last one; a taken id changes nothing |
| `AuditStore.Store.LatestHash` | internal/controlplane/audit/store.go:554-564 | the hash found is the last one written, when the signed rows sort in the order of writing |
| `AuditStore.Store.Reopen` | internal/controlplane/audit/store.go:82-173 | a restart, in or out of chain mode, keeps everything a later verification needs |
| `AuditStore.Store.Verify` | internal/controlplane/audit/store.go:366-443 | after every history of records and restarts, verification succeeds if and only if unsigned rows sort first, signed rows sort as written and payloads read back unchanged; it then has checked every signed row |
| `Alerts.PendingMeans` | internal/controlplane/alerts/engine.go:192-206 | a pending time is the time of a pass since which the condition has been met |
| `Alerts.FiresOnlyAfterPersisting` | internal/controlplane/alerts/engine.go:192-230 | a rule with a duration fires only when its condition was met that long ago and at every pass since |
| `Alerts.SteadyConditionFlaps` | internal/controlplane/alerts/engine.go:190-257 | under a condition that is always met, a rule without a duration stays firing; one with a duration is never firing after two passes in a row |
| `Alerts.FiresThenResolves` | internal/controlplane/alerts/engine.go:190-257 | met at three passes, the second one late enough, the alert fires at the second pass and is resolved at the third |
| `AlertEngine.Engine.constructor` | internal/controlplane/alerts/engine.go:49-72 | a new engine on an empty store fires nothing and has sent nothing |
| `AlertEngine.Engine.Fire` | internal/controlplane/alerts/engine.go:211-230 | the event is stored, remembered and notified, or nothing happens when the store refuses it |
| `AlertEngine.Engine.Resolve` | internal/controlplane/alerts/engine.go:239-256 | the same for a resolution |
| `AlertEngine.Engine.ScanPair` | internal/controlplane/alerts/engine.go:190-230 | one rule and one probe: the step of that key, and no other key changes |
| `AlertEngine.Engine.ScanProbes` | internal/controlplane/alerts/engine.go:182-231 | all probes of one rule |
| `AlertEngine.Engine.ScanRules` | internal/controlplane/alerts/engine.go:170-232 | all rules: every key is scanned as its rule and probe say, and the enabled rules are collected |
| `AlertEngine.Engine.ResolveStale` | internal/controlplane/alerts/engine.go:234-257 | exactly the firing alerts that did not match are resolved, unless the store refuses |
| `AlertEngine.Engine.DropDisabled` | internal/controlplane/alerts/engine.go:259-263 | nothing stays pending for a rule that is not enabled |
| `AlertEngine.Engine.Evaluate` | internal/controlplane/alerts/engine.go:152-266 | every key makes the step of its own state machine whichever writes fail; the firing map stays the stored firing events, one per key, and the notifications of each key alternate |
| `AlertEngine.Engine.Reload` | internal/controlplane/alerts/store.go:311-330 | rebuilding the engine from the store yields the same firing map |
| `AlertHistory.Watch` | internal/controlplane/alerts/engine.go:127-266 | a new engine after any series of passes is firing exactly what the histories of its keys say |
| `AlertHistory.FiresOnlyAfterItsDuration` | internal/controlplane/alerts/engine.go:170-230 | over every series of passes: an alert starts to fire only at a pass that looks at it and finds its condition met; if its rule is not an offline rule and has a duration, an earlier pass at least that long ago looked at it and every pass from there on that did found the condition met |
| `AlertHistory.FiresAtOnce` | internal/controlplane/alerts/engine.go:170-230 | an offline rule, whatever its duration, and a rule without one are firing after every pass that finds the condition met, if the store works |
| `AlertHistory.ResolvesAtOnce` | internal/controlplane/alerts/engine.go:234-257 | a pass that does not look at an alert or finds its condition unmet leaves it not firing, if the store works |
| `AlertHistory.FiresInTime` | internal/controlplane/alerts/engine.go:170-230 | if every pass from some time on finds the rule with its duration, the condition met and the store working, the alert has fired by the time the duration is over |
| `ApprovalQueue.VoteKeepsGood` | internal/controlplane/approval/queue.go:187-239 | a vote keeps approvals distinct and below or at the quorum, and never changes a decided request |
| `ApprovalQueue.ApprovedHasQuorum` | internal/controlplane/approval/queue.go:187-239 | over every history an approved request has a full quorum of distinct actors, each of whom voted for it in time |
| `ApprovalQueue.PendingCountsEverybody` | internal/controlplane/approval/queue.go:187-239 | while a request is pending everybody who voted for it is on record, and they are fewer than the quorum |
| `ApprovalQueue.DecidedForever` | internal/controlplane/approval/queue.go:187-239 | a decision is final |
| `ApprovalQueue.RunIsAfter` | internal/controlplane/approval/queue.go:149-360 | along every run of the queue a request goes through exactly the votes and the aging the calls mean for it, and is dropped only once it is decided |
| `ApprovalQueue.ApprovedInRun` | internal/controlplane/approval/queue.go:149-360 | whatever else is submitted, decided and evicted, a request that comes out approved has exactly its quorum, by distinct actors who each called Decide for it in time |
| `ApprovalQueue.RunFits` | internal/controlplane/approval/queue.go:149-184 | over every run the queue holds at most its size |
| `ApprovalHistory.PendingIff` | internal/controlplane/approval/queue.go:187-239 | over every history a request is pending if and only if nobody denied it in time, it was not found overdue, and fewer distinct actors than it needs voted for it in time; those on record are exactly they |
| `ApprovalHistory.DecidedIff` | internal/controlplane/approval/queue.go:187-239 | a request ends denied, expired or approved if and only if the event that closed it was a denial in time, came too late, or completed the votes it needs |
| `ApprovalHistory.DecidedBy` | internal/controlplane/approval/queue.go:187-239 | and the actor on record is the one of that event |
| `ApprovalHistory.DenialIsFinal` | internal/controlplane/approval/queue.go:187-239 | a denial in time of a pending request makes it denied by that actor, whatever happens afterwards |
| `ApprovalHistory.ApprovedWasNotDenied` | internal/controlplane/approval/queue.go:187-239 | a request that comes out approved was not denied in time while it was pending |
| `ApprovalHistory.DeniedInRun` | internal/controlplane/approval/queue.go:149-360 | on the whole queue: denied while pending, a request is denied as long as it is kept |
| `ApprovalHistory.EvictedIff` | internal/controlplane/approval/queue.go:343-360 | a clean-up keeps a request if and only if it is pending and not overdue or was created in the last 24 hours, and changes it only if it was pending and is overdue |
| `ApprovalHistory.SameActorIff` | internal/controlplane/approval/queue.go:222-226 | two names count as one actor if and only if they agree up to surrounding white space and the case of letters |
| `ApprovalStore.SortNewest` | internal/controlplane/approval/queue.go:363-370 | the array is sorted in place, newest first, and holds the same items |
| `ApprovalStore.Place` | internal/controlplane/approval/queue.go:363-370 | the inner loop puts one more item in its place |
| `ApprovalStore.Queue.ExpireOverdue` | internal/controlplane/approval/queue.go:343-351 | exactly the pending requests that are overdue expire |
| `ApprovalStore.Queue.DropStale` | internal/controlplane/approval/queue.go:353-359 | exactly the decided requests older than a day go |
| `ApprovalStore.Queue.Admit` | internal/controlplane/approval/queue.go:157-184 | one more request keeps the queue within its size |
| `ApprovalStore.Queue.Evict` | internal/controlplane/approval/queue.go:343-360 | overdue requests expire, decided ones older than a day go, all others stay as they are |
| `ApprovalStore.Queue.Submit` | internal/controlplane/approval/queue.go:149-184 | a request is admitted exactly when there is room after eviction, and the queue never exceeds its size |
| `ApprovalStore.Queue.AlreadyApproved` | internal/controlplane/approval/queue.go:222-226 | whether the actor is on record, whatever the case of the name |
| `ApprovalStore.Queue.Decide` | internal/controlplane/approval/queue.go:187-239 | every outcome: a blank actor, a missing or a decided request is an error and changes nothing; an overdue one expires; a denial in time succeeds and denies it; a new approval is added and approves it at the quorum; a repeated one is an error |
| `ApprovalStore.Queue.CollectPending` | internal/controlplane/approval/queue.go:250-266 | the pending requests, each once |
| `ApprovalStore.Queue.ListPending` | internal/controlplane/approval/queue.go:250-266 | the pending requests, each once, the newest first |
| `ArtifactPath.NormalizePath` | internal/controlplane/artifacts/presign.go:297-333 | the loop accepts and returns what the definition of the normal form says |
| `ArtifactPath.NormalIsClean` | internal/controlplane/artifacts/presign.go:297-333 | an accepted path is empty or a sequence of components that are neither empty nor dots |
| `ArtifactPath.NormalIsFixed` | internal/controlplane/artifacts/presign.go:297-333 | a normal path is left as it is |
| `ArtifactPath.NormalIsIdempotent` | internal/controlplane/artifacts/presign.go:297-333 | normalizing an accepted path twice is normalizing it once |
| `ArtifactPath.RefusedIff` | internal/controlplane/artifacts/presign.go:297-333 | a path is refused if and only if one of its components is ".." or holds a NUL, or nothing is left of it and something has to be |
| `ArtifactPath.WithinScopeIff` | internal/controlplane/artifacts/presign.go:335-345 | on normal paths, being within a scope means that the components of the scope are the first components of the path |
| `Base64Url.RoundTrip` | internal/controlplane/artifacts/presign.go:237-282 | decoding what was encoded gives the bytes back |
| `Base64Url.PlainText` | internal/controlplane/artifacts/presign.go:237-247 | encoded text holds neither the separator nor white space |
| `Base64Url.KnownTexts` | internal/controlplane/artifacts/presign.go:237-247 | the known texts of section 10 of RFC 4648, and one with both characters of the URL alphabet |
| `Presign.ParseSigned` | internal/controlplane/artifacts/presign.go:237-282 | a signed token parses to the very claims it was signed with |
| `Presign.ClaimsAreSound` | internal/controlplane/artifacts/presign.go:111-173 | the claims of a minted token are trimmed and normal, and its path is within its scope |
| `Presign.SignedAcceptedExactly` | internal/controlplane/artifacts/presign.go:176-225 | a signed token is accepted for exactly the requests its claims name |
| `Presign.MintedAcceptedExactly` | internal/controlplane/artifacts/presign.go:111-225 | a minted token is accepted exactly for its run, operation and path, up to the end of its last full second, with the claims it was minted with |
| `Presign.MintedIff` | internal/controlplane/artifacts/presign.go:111-173 | a token is minted if and only if run, session and operation are given, path and scope are proper paths, and the scope is empty, the path or a directory above it |
| `Presign.AcceptedIsSigned` | internal/controlplane/artifacts/presign.go:176-282 | whatever text is accepted is a payload and the keyed hash of that payload, and its claims are for this very run, operation and path and not over |
| `Presign.GoodUntil` | internal/controlplane/artifacts/presign.go:111-225 | used for what it was minted for, a token is good at exactly the times up to the last full second of the lifetime asked for, or else of the default one |
| `Presign.GoodAtBirthIff` | internal/controlplane/artifacts/presign.go:111-225 | Validate accepts a token at the moment it is minted if and only if its lifetime reaches the next full second or it is minted on one |
| `Presign.ExpiredAtBirth` | internal/controlplane/artifacts/presign.go:111-225 | an upload token minted for a nanosecond, a nanosecond behind a full second, is refused at that very moment |
| `RateLimiter.Limiter.Allow` | internal/controlplane/auth/ratelimit.go:33-50 | only the window of that key changes, as the decision for it says |
| `RateLimiter.Limiter.Remaining` | internal/controlplane/auth/ratelimit.go:53-66 | for a limit of at least 1: exactly so many requests at that time are allowed, and not one more |
| `RateLimiter.UnderTwiceTheLimit` | internal/controlplane/auth/ratelimit.go:33-50 | in any span as long as the window, both ends included, at most twice the limit less one are allowed |
| `RateLimiter.RefusedOnlyWhenFull` | internal/controlplane/auth/ratelimit.go:33-50 | a request is refused only if as many as the limit were allowed within one window length up to it |
| `RateLimiter.BoundIsReached` | internal/controlplane/auth/ratelimit.go:33-50 | and that many can be |
| `CommandTracker.AtMostOneResult` | internal/controlplane/cmdtracker/tracker.go:44-143 | over every interleaving, with the removal and the later send of a completion as two steps, each channel is sent to or closed at most once and never both, and no send blocks |
| `CommandTracker.TakenOutIsAnswered` | internal/controlplane/cmdtracker/tracker.go:63-143 | a command that is taken out is sent to, closed, or about to be sent to |
| `CommandTracker.ExpiryAnswers` | internal/controlplane/cmdtracker/tracker.go:127-143 | expiry takes out exactly the commands submitted before the cutoff, each of them gets one result, and the others stay as they are |
| `CommandTracker.CompletionAnswers` | internal/controlplane/cmdtracker/tracker.go:63-78 | a command that is completed gets its one result, whatever runs between the removal and the send |
| `CommandTracker.TrackingAgainForgets` | internal/controlplane/cmdtracker/tracker.go:44-59 | tracking an id that is still in flight forgets the earlier channel |
| `CommandTracker.ForgottenForever` | internal/controlplane/cmdtracker/tracker.go:44-143 | a forgotten channel is never sent to or closed, whatever happens afterwards |
| `Federation.Aggregate` | internal/controlplane/fleet/federation_read_model.go:813-841 | totals are the sums over the probes, and the OS distribution counts each probe once under its own key |
| `Federation.SameSystemIff` | internal/controlplane/fleet/federation_read_model.go:813-841 | two probes are counted under one operating system if and only if their names agree up to surrounding white space and the case of letters, with blank ones as unknown |
| `Federation.SumBump` | internal/controlplane/fleet/federation_read_model.go:421-433 | adding to one entry of a distribution adds as much to its sum |
| `Federation.HealthCounts` | internal/controlplane/fleet/federation_read_model.go:510-525 | the health counters sum to the number of sources and show a degraded or unavailable one exactly when there is one |
| `Federation.HealthByStatus` | internal/controlplane/fleet/federation_read_model.go:510-525 | each counter counts the sources of its own status |
| `Federation.OverallIff` | internal/controlplane/fleet/federation_read_model.go:644-659 | the overall health is unavailable if and only if all sources are, degraded if and only if not all are unavailable and one is unavailable or degraded, healthy if and only if one is and none is worse |
| `Federation.NumberIs` | internal/controlplane/fleet/federation_read_model.go:574-642 | the number of sources with a trait is positive exactly when one has it, and full exactly when all have it |
| `Federation.ComputeFlags` | internal/controlplane/fleet/federation_read_model.go:574-642 | with any source, partial results exactly when the answer is not complete, degraded exactly when the overall health is degraded or unavailable, failover exactly when a snapshot was served; freshness and all counts are those of the sources |
| `Federation.FlagsTell` | internal/controlplane/fleet/federation_read_model.go:574-642 | what each flag says of the sources: complete and not available speak of all of them; partial results, failover, degradation, stale and fresh of some |
| `FederationStore.Store.Filter` | internal/controlplane/fleet/federation_read_model.go:732-745 | the probes that pass the filter, in order |
| `FederationStore.KeptIff` | internal/controlplane/fleet/federation_read_model.go:732-745 | the probes kept are exactly those that pass the filter, each as often as it was reported |
| `FederationStore.Store.Merge` | internal/controlplane/fleet/federation_read_model.go:421-426 | merging two distributions adds them up entry by entry and in total |
| `FederationStore.Store.Serve` | internal/controlplane/fleet/federation_read_model.go:381-440 | the probes of one source are listed and counted, and everything still adds up |
| `FederationStore.Store.Add` | internal/controlplane/fleet/federation_read_model.go:316-441 | one source: listed as its answer or its snapshot says, unavailable without either, left out when a search does not find it |
| `FederationStore.Store.Collect` | internal/controlplane/fleet/federation_read_model.go:316-441 | the loop over the sources adds up, and lists what each source answers or last answered |
| `FederationStore.Store.Inventory` | internal/controlplane/fleet/federation_read_model.go:287-467 | for every query: totals, every distribution and the health counters agree with the lists, the flags are those of the sources; sources and probes are those of each source's answer or its last one; the answers become the snapshots |
| `FederationStore.ListedIff` | internal/controlplane/fleet/federation_read_model.go:316-441 | a source is listed if and only if it passes the filters and, in a search, is found itself or has a probe that is; one not listed adds no probe |
| `FederationStore.ItemsIff` | internal/controlplane/fleet/federation_read_model.go:316-441 | the probes of an inventory are exactly those that some accepted source reports, in its answer or, if it failed, in its snapshot, and that pass the filter |
| `FederationStore.SourceIsListed` | internal/controlplane/fleet/federation_read_model.go:316-441 | a source that answers is listed from that answer; one that fails is degraded if there is a snapshot and unavailable otherwise |
| `FederationStore.TotalsTell` | internal/controlplane/fleet/federation_read_model.go:813-841 | the totals are the number of probes, of those online, and the sums of processors and memory |
| `FederationStore.DistributionsTell` | internal/controlplane/fleet/federation_read_model.go:421-440 | each distribution says of every cluster, site, tenant, organization, scope and source how many of the listed probes are there |
| `FederationStore.SnapshotIsLastAnswer` | internal/controlplane/fleet/federation_read_model.go:494-508 | over every sequence of queries the snapshot under a key is the last answer given under it |
| `FederationStore.ServedFromLastAnswer` | internal/controlplane/fleet/federation_read_model.go:346-379 | a source that fails is served from the last answer under its key, and is unavailable exactly if there is none |

## Left out

- StreamRecorder.Recorder.ReplayLocked: without the `since` filter, which drops events by time and so gives up the promise that a page tells everything.
- StreamRecorder.Recorder.Replay: without the `since` filter, as above.
- StreamRecorder.Recorder.ReplayAndSubscribe: without the `since` filter, as above.
- StreamRecorder.Recorder.DispatchLocked: without the done channel, which only matters once a subscriber is being cleaned up.
- StreamRecorder.Recorder.Open: what the buffered chunks and the chunk counter of an earlier recorder come to; runs of the state machine cover one lifetime.
- Event metadata, and failing database writes in the stream recorder.
- Stream events are numbered below 2^63: appends require room for one more number; the code would wrap.
- HTTP handlers, WebSocket code, the command line, the web UI, exports, configuration: I/O and copying of fields.
- SSH, cloud and Grafana adapters, notification delivery and routing, certificates: wrappers around foreign libraries.
- SQLite itself, migrations, JSON encoding, UUIDs: tables are maps and sequences, encodings abstract functions, ids parameters that are new.
- HMAC internals: the hash is any function that has no clash among the rows compared.
- Execution inputs, templates and parameters, `inferStepMutating`, timeouts, messages, outputs and timestamps: a step is its position, whether it mutates, its retries, its approval and whether it has a hook.
- Copies handed out by the execution runtime: they still share timestamps and policy rationale with the stored record.
- Dry-run input validation, risk summary counts and reason texts.
- Case folding is that of ASCII letters (`Text.Lower` and the folding of approvers' names); white space is that of Unicode.
- Status reasons, outputs, exit codes, workspaces and metrics of async jobs; the dispatcher is the log of what it was handed.
- The scheduler class models a drain that nothing interrupts; interleavings are proved on the state machine of `AsyncScheduler`.
- Conditions of alert rules and tag matching are inputs of a pass; deletion of rules drops firing entries without resolving them and is not part of the runs.
- Approval policy details, workspaces, risk classification and waiting for a decision.
- The in-memory event ring of the audit store, its exports, and errors of the hash computation; concurrent `Record` calls are taken in the order in which they persist.
- The base64 decoder of the standard library skips line breaks; the one here refuses them. Signed tokens hold none.
- Rate-limit middleware and the HTTP status it answers with.
- The command tracker is a state machine over its locked sections, not a class: its point is what happens between them.
- FederationStore.Store.Inventory: takes the sources in the order it is given them and leaves out the final sorting of its lists.
- AuditStore.Store.Reopen: keeps one key; without a configured key every start makes a new one, and `AuditChain.NewKeyIff` says what that means for older rows.
- Tag distributions, warning texts, and overflow of the CPU and memory sums.
