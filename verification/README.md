# AxonTask, modelled and proved in Dafny

AxonTask is a durable task runner: task rows in Postgres claimed by competing workers, one Redis
stream of events per task read by cursor, a hash-chained audit log, a token-bucket limiter, plan
quotas and usage counters. This project models those protocols and proves what they keep over all
inputs and all interleavings.

Tables are maps, a stream is a sequence of entries with increasing ids, and each statement the code
issues is one step of a state machine. Every machine has a total function `Apply` (a step that is not
possible leaves the state alone) and a function `Run` over a list of steps, so a theorem about `Run` is
about every interleaving. The objects that the code updates in place are classes; their methods are
proved equal to the same functions.

| file | what it models |
|---|---|
| `HashChain.dfy`, `AppendLog.dfy` | the event log: byte layout, chain verification, tamper evidence; appends that read and insert without a lock |
| `Emitter.dfy` | the worker's emitter, shared by all tasks of a worker |
| `RateLimit.dfy` | the in-memory bucket and the Redis script |
| `StreamId.dfy`, `EventStream.dfy`, `GapDetection.dfy` | stream ids, cursor and paged reads, gap detection and lag on a stream that grows and is trimmed |
| `TaskLifecycle.dfy`, `TaskQueue.dfy`, `Orchestrator.dfy` | guarded updates, claims with `FOR UPDATE SKIP LOCKED`, the worker's loop |
| `Tenancy.dfy`, `Quota.dfy`, `Usage.dfy` | plans, check-then-create, usage counters |
| `Text.dfy`, `Uuid.dfy`, `Rfc3339.dfy`, `EventCodec.dfy`, `EventPipeline.dfy` | the stream's field codec, and what a reader gets from what was written |

Things assumed, each where it is used and nowhere else:

- SHA-256 is an arbitrary function from byte strings to 32 bytes. No result assumes it injective: each
  ends in "or these two different messages have one digest".
- The JSON text codec is an arbitrary pair of functions. A result that needs `read(write(p)) == Some(p)`
  says so for the payload in question, or has it as one side of an equivalence.
- Redis runs the rate-limit script at or after the moment the caller read its clock and at most 60
  seconds later, and callers' clocks do not run backwards. Amounts of tokens are real numbers.
- The worker's loop is handed no task twice; that claims are exclusive is `TaskQueue.ExclusiveClaims`.
- A claim runs under read-committed isolation: it sees the pending tasks of the moment its statement
  starts, tries them oldest first, skips what is locked or no longer pending, and writes at commit.
- A worker emits one task's events one after the other (`orchestrator.rs` lines 369-391), so only
  emits of different tasks overlap.

Where the code and its documentation or tests differ, the model follows the code:

- `gap_detection.rs` line 456 expects no gap for cursor `0-0` on an untrimmed stream; the code
  reports one (`GapDetection.StartCursorReported`), because `0-0` is below every id.
- `read_all` is described as reading all events; it stops at a page in which nothing decodes
  (`EventStream.ReadAllCompleteIff` says exactly when that matters).
- The event log is described as one in which any tampering breaks the chain. Changes of `ts`, a cut
  at the end and gaps in `seq` do not (`HashChain.TimestampsUnseen`, `PrefixValid`, `ExtendValid`),
  and a log rewritten as a whole verifies whatever it says (`HashChain.AnyContentsVerify`).
- The emitter is documented as keeping per-task state; it is one per worker. An event follows on from
  the last event of whatever task to have written its hash (`Emitter.FollowsOnIff`), which under
  overlap need not be the one before it in its stream (`Emitter.OverlapBreaksLinks`), and the event
  log's verifier does not accept the emitter's hashes (`Emitter.VerifierDisagrees`).
- The concurrency quota counts running rows only. Running tasks can come to exceed it exactly when
  pending and running tasks and cleared handlers together do (`Quota.RunningExceedsIff`), which that
  count does not see (`Quota.OvershootIsTight`); the count that would do is `Quota.ActiveQuotaSuffices`.
- A worker that polls with all its slots taken never claims again, even when every token is cancelled
  (`Orchestrator.FullIsFinal`, `FullIsReachable`); it goes on exactly when its last pass left a slot
  (`Orchestrator.GoesOnAfterPassIff`).
- The Pro plan is described as one of unlimited tasks (`models/tenant.rs` lines 68-70); its quota is
  10000 a day (`Quota.DailyOvershootByPlan`).
- Claims are described as first in, first out (`queue.rs` line 18). Under interleaving a claim can take a task while an
  older one is free (`TaskQueue.SkippedCanBeFree`); what holds is `TaskQueue.OlderWasUnavailable`.
- The rate-limit script is not called: `check_rate_limit_redis` is marked as dead code, and the
  middleware lets every request of a known tenant through (`rate_limit.rs` lines 194-209). The bounds are the script's, not
  the served requests'.

## Model

| member | source | states |
|---|---|---|
| HashChain.ComputeHash | axontask-shared/src/models/task_event.rs:183-207 | the hasher is fed previous hash, sequence number, kind word and payload, in that order |
| HashChain.LeBytesValue | axontask-shared/src/models/task_event.rs:197 | a sequence number is eight bytes, the least significant first, denoting it modulo 2^64 |
| HashChain.KindWords | axontask-shared/src/models/task_event.rs:95-123 | writing and reading a kind are inverse, and the table admits exactly the nine words |
| HashChain.EncodeInjective | axontask-shared/src/models/task_event.rs:183-207 | with the presence of the 32-byte previous hash known, the byte layout determines all four inputs |
| HashChain.KindsPrefixFree | axontask-shared/src/models/task_event.rs:95-107 | no kind word is a prefix of another, so kind and payload can be told apart |
| HashChain.UncheckedKindAmbiguous | migrations/20250103000000_init_schema.sql:271-274 | without the constraint on `kind` two different events have the same layout |
| HashChain.VerifyChain | axontask-shared/src/models/task_event.rs:398-430 | answers true exactly when every event stores its predecessor's hash and the hash of its own content |
| HashChain.TamperEvidence | axontask-shared/src/models/task_event.rs:398-430 | two verified logs of one length and final hash agree in everything but time and task, or two named messages collide |
| HashChain.TamperEvidenceAnyLength | axontask-shared/src/models/task_event.rs:398-430 | verified logs of different lengths share a final hash only by a collision or a digest shaped like an event header |
| HashChain.ContentsDetermineChain | axontask-shared/src/models/task_event.rs:398-430 | there is at most one verified chain for each list of contents |
| HashChain.AnyContentsVerify | axontask-shared/src/models/task_event.rs:398-430 | and there is one for any contents whatever: a log rewritten as a whole verifies |
| HashChain.PrefixValid | axontask-shared/src/models/task_event.rs:398-430 | cutting events off the end is never detected |
| HashChain.TimestampsUnseen | axontask-shared/src/models/task_event.rs:183-207 | logs that differ in time or task only are verified alike |
| HashChain.ExtendValid | axontask-shared/src/models/task_event.rs:398-430 | a chain extends by an event under any sequence number, exactly if it is the one append would build |
| AppendLog.ReadLast | axontask-shared/src/models/task_event.rs:248-262 | finds the row with the greatest sequence number of a task, or none when there is none |
| AppendLog.ConstraintsHold | migrations/20250103000000_init_schema.sql:269-283 | whoever inserts what, no row has a negative number, no first event has a previous hash and no row ever changes |
| AppendLog.ConcurrentAppendsVerify | axontask-shared/src/models/task_event.rs:248-289 | after any interleaving of reads and inserts every task's log is numbered 0..n-1 and verifies |
| AppendLog.AppendSucceedsIff | axontask-shared/src/models/task_event.rs:248-289 | an append succeeds if and only if no other append to its task did between its read and its insert, and lands on the log it read |
| AppendLog.ReadSurvives | axontask-shared/src/models/task_event.rs:248-289 | what an append read is still a prefix of its task's log when it inserts |
| AppendLog.SequentialAppend | axontask-shared/src/models/task_event.rs:248-289 | an undisturbed append fails only when the 64-bit numbers are used up |
| AppendLog.RangeIsLog | axontask-shared/src/models/task_event.rs:303-335 | on a table kept by appends the range query returns exactly the task's log |
| AppendLog.EventTable.Append | axontask-shared/src/models/task_event.rs:248-289 | the new table and the row returned are those of the specification, and the table stays valid |
| AppendLog.EventTable.QueryRange | axontask-shared/src/models/task_event.rs:303-335 | returns the task's rows between two numbers, each once and in order |
| AppendLog.EventTable.Verify | axontask-shared/src/models/task_event.rs:398-430 | accepts exactly the valid chains, so always a table that only appends wrote |
| Emitter.LinksSurviveFailures | axontask-worker/src/events.rs:147-197 | for emits one after the other: whatever writes fail, stored numbers increase and an event follows on from any stored one numbered just before it |
| Emitter.GapsBreakLinks | axontask-worker/src/events.rs:69-96 | conversely, across a missing number an event follows on only if the earlier event's message collides with that of the attempt numbered just before the later one |
| Emitter.ComputeHash | axontask-worker/src/events.rs:225-248 | the hasher is fed number, kind, payload, time and previous hash, in that order |
| Emitter.LayoutExtendsLog | axontask-worker/src/events.rs:225-248 | that message is what the event log hashes for a first event, then the time and the previous hash |
| Emitter.VerifierDisagrees | axontask-worker/src/events.rs:225-248 | the emitter's layout differs from the event log's: `verify_chain` accepts one of its hashes only by a collision |
| Emitter.EventEmitter.Emit | axontask-worker/src/events.rs:147-197 | number and previous hash advance whether or not the write succeeds |
| Emitter.EventEmitter.EmitBatch | axontask-worker/src/events.rs:211-220 | stops at the first failed write, keeping what went before; succeeds exactly if no write fails |
| Emitter.OneAtATime | axontask-worker/src/events.rs:147-197 | the emitter that runs one emit after the other is the shared one with each emit's steps uninterrupted |
| Emitter.StreamsStayInOrder | axontask-worker/src/events.rs:85-95 | over every interleaving with other tasks each task's stream has strictly increasing numbers, and no two events share one |
| Emitter.FollowsOnIff | axontask-worker/src/events.rs:147-172 | over every interleaving a stored event follows on from a stored one if and only if that one was the last to write its hash before the other read it, or two named messages collide |
| Emitter.QuietLink | axontask-worker/src/events.rs:147-172 | an event that reads the state with no hash written since another's follows on from that one, whatever else goes on and wherever it ends up |
| Emitter.OverlapBreaksLinks | axontask-worker/src/orchestrator.rs:369-391 | two tasks overlap so that consecutive numbers in one task's stream are not linked: the later event follows on from the other task's |
| RateLimit.PlansFillInMinute | axontask-api/src/middleware/rate_limit.rs:79-102 | every plan's bucket fills up within 60 seconds |
| RateLimit.TokenBucket.Refill | axontask-api/src/middleware/rate_limit.rs:130-141 | tokens grow by rate times elapsed seconds up to the capacity |
| RateLimit.TokenBucket.TryConsume | axontask-api/src/middleware/rate_limit.rs:144-151 | takes the tokens if they are there and nothing otherwise |
| RateLimit.TokenBucket.Request | axontask-api/src/middleware/rate_limit.rs:130-161 | refill, consume and wait together are the eager step |
| RateLimit.RateLimitStore.CheckRateLimit | axontask-api/src/middleware/rate_limit.rs:296-362 | the script's effect on its tenant's key and its reply; other tenants' keys are untouched |
| RateLimit.ScriptRefinesBucket | axontask-api/src/middleware/rate_limit.rs:319-347 | on every trace the script gives the eager bucket's replies: lazy storing and expiry cannot be observed |
| RateLimit.FreshKeyRefinesFullBucket | axontask-api/src/middleware/rate_limit.rs:319-347 | from an absent key that is a full bucket, for every plan |
| RateLimit.ExpiredWasFull | axontask-api/src/middleware/rate_limit.rs:341-343 | a key that expired held a bucket that would be full |
| RateLimit.ScriptDecidesAsBucket | axontask-api/src/middleware/rate_limit.rs:319-347 | the script's decisions on a fresh key satisfy the bucket rule and the window rule |
| RateLimit.BucketIffWindows | axontask-api/src/middleware/rate_limit.rs:130-151 | a request is admitted if and only if every window ending with it stays within capacity plus rate times length |
| RateLimit.BetweenBound | axontask-api/src/middleware/rate_limit.rs:130-151 | between any two moments a bucket admits at most capacity plus rate times the time between them |
| RateLimit.ScriptRateBound | axontask-api/src/middleware/rate_limit.rs:319-347 | the same of the script on a key that began fresh, for every plan, trace and pair of moments |
| RateLimit.TokensInBounds | axontask-api/src/middleware/rate_limit.rs:130-151 | tokens stay between zero and the capacity |
| RateLimit.RetryAfterExact | axontask-api/src/middleware/rate_limit.rs:335-345 | after a denial a retry is admitted exactly from the announced second on |
| RateLimit.RemainingExact | axontask-api/src/middleware/rate_limit.rs:335-342 | exactly the announced number of further requests pass in the same second |
| RateLimit.WaitExact | axontask-api/src/middleware/rate_limit.rs:154-161 | any number of tokens is there after exactly the announced seconds and not one before |
| RateLimit.BurstByPlan | axontask-api/src/middleware/rate_limit.rs:79-102 | on a fresh key exactly 10, 60, 300 or 1000 requests pass in one second, by plan |
| RateLimit.RefillByPlan | axontask-api/src/middleware/rate_limit.rs:79-102 | with its tokens used up, a tenant has k seconds later exactly what its plan refilled: one in six seconds, one, five or 16.67 a second, to that number |
| StreamId.ParsedNonNegative | axontask-shared/src/redis/gap_detection.rs:330-345 | no parsed component is negative |
| StreamId.ParseFormat | axontask-shared/src/redis/gap_detection.rs:330-345 | an id's text parses back exactly if both parts fit 63 bits |
| StreamId.ParseStreamIdIff | axontask-shared/src/redis/gap_detection.rs:330-345 | exactly the texts of two 64-bit numbers with one dash between them parse, as those numbers |
| StreamId.CompareIsOrder | axontask-shared/src/redis/gap_detection.rs:292-301 | for any two texts that parse, comparison never overflows and is the lexicographic order of the ids they denote |
| StreamId.EstimateSound | axontask-shared/src/redis/gap_detection.rs:306-327 | where a gap is reported, however the cursor is spelled, the cast is lossless, the estimate at least one and monotone in how far behind the cursor is |
| EventStream.StreamReader.ReadBackfill | axontask-shared/src/redis/stream_reader.rs:206-268 | returns the decodable ones of the first `count` entries above the cursor, or of the configured maximum when that is less, or of all when fewer are left; a limit of 0 is none |
| EventStream.StreamReader.ReadLive | axontask-shared/src/redis/stream_reader.rs:312-374 | returns the decodable ones of the first entries above the cursor, as many as the default batch size, uncapped |
| EventStream.StreamReader.ReadAll | axontask-shared/src/redis/stream_reader.rs:403-432 | terminates with exactly the decodable events before the first full batch of undecodable entries, in order, once each |
| EventStream.ReadAllCompleteIff | axontask-shared/src/redis/stream_reader.rs:403-432 | it is complete if and only if nothing behind that batch decodes |
| EventStream.ReadAllCanMiss | axontask-shared/src/redis/stream_reader.rs:403-432 | with batches of one, an undecodable first entry hides a decodable second one |
| EventStream.PageAdvances | axontask-shared/src/redis/stream_reader.rs:412-429 | continuing at a page's last event skips only undecodable entries, and no full batch of them |
| EventStream.PositionSplits | axontask-shared/src/redis/stream_reader.rs:206-240 | a cursor's position separates the ids at or below it from those above |
| GapDetection.RunKeeps | axontask-shared/src/redis/gap_detection.rs:158-207 | under appends and trims ids keep increasing and history is only extended |
| GapDetection.ReportedIff | axontask-shared/src/redis/gap_detection.rs:158-207 | for any cursor text that parses, a gap is reported exactly when entries are left and the first is above the cursor, with the cursor as given, the first and last ids and ten events a second, at least one |
| GapDetection.DetectGapExact | axontask-shared/src/redis/gap_detection.rs:158-207 | a loss goes unreported exactly when everything was trimmed, the newest entry above the cursor; a report is a false alarm exactly when the newest trimmed entry is not above it |
| GapDetection.LossCanGoUnreported | axontask-shared/src/redis/gap_detection.rs:175-178 | a stream whose only entry was trimmed: a reader from the beginning is told of no gap |
| GapDetection.DetectGapErrors | axontask-shared/src/redis/gap_detection.rs:158-207 | it fails exactly without a stream, or on an unreadable cursor when the stream has entries |
| GapDetection.NoGapNoLoss | axontask-shared/src/redis/gap_detection.rs:182-190 | an answer of no gap on a stream with entries means the cursor parses and nothing above it is gone |
| GapDetection.StartCursorReported | axontask-shared/src/redis/gap_detection.rs:179-206 | any text for `0-0` is always reported on a stream with entries, lost or not |
| GapDetection.LaterCheckVouches | axontask-shared/src/redis/gap_detection.rs:158-207 | such an answer proves it for every earlier moment too, so it vouches for a read made before it |
| GapDetection.EarlierCheckDoesNot | axontask-shared/src/redis/gap_detection.rs:158-207 | an answer before a trim proves nothing afterwards |
| GapDetection.LossIffTrimmedAbove | axontask-shared/src/redis/gap_detection.rs:158-207 | an entry above the cursor is lost exactly when the newest trimmed one is above it |
| GapDetection.NeverTwiceNeverOutOfOrder | axontask-shared/src/redis/stream_reader.rs:206-268 | over any interleaving with appends and trims a reader gets appended events only, each once, in id order |
| GapDetection.CleanReaderMissesNothing | axontask-shared/src/redis/stream_reader.rs:312-374 | a reader none of whose reads met a loss has exactly the decodable events between its start and its cursor |
| GapDetection.CheckedReaderMissesNothing | axontask-shared/src/redis/gap_detection.rs:158-207 | a reader that asks the detector after each read and is told no gap, on a stream with entries, has every decodable event up to its cursor, whatever the traffic; since `0-0` is always reported this covers reads that continue from an event, not a first read from the beginning |
| GapDetection.CalculateLag | axontask-shared/src/redis/metrics.rs:211-238 | on a quiet stream the lag is the number of entries above the position |
| GapDetection.LagUnderTraffic | axontask-shared/src/redis/metrics.rs:219-235 | with traffic between the two commands it is too high by exactly the consumed entries trimmed meanwhile |
| TaskLifecycle.GuardIsLifecycle | axontask-shared/src/models/task.rs:133-148 | the guard of every update in the model and the queue is the lifecycle relation for its target |
| TaskLifecycle.LifecycleIsServed | axontask-shared/src/models/task.rs:355-479 | every step of the lifecycle has an update that makes it, and no other step has |
| TaskLifecycle.TerminalIff | axontask-shared/src/models/task.rs:119-130 | a state is terminal exactly if no step of the lifecycle leaves it, and active otherwise |
| TaskLifecycle.ExecuteKeeps | axontask-worker/src/queue.rs:238-335 | an update goes through exactly if the lifecycle allows it and the clock is not behind `started_at`, and keeps timestamps in accord with the state |
| TaskLifecycle.ExecuteWrites | axontask-shared/src/models/task.rs:355-479 | which columns an update changes: the start, the end, the outcome it was given, and nothing else |
| TaskLifecycle.PathEndsOnce | axontask-shared/src/models/task.rs:120-148 | along any path a task runs at most once, ends at most once and then stays |
| TaskQueue.RunKeepsInv | axontask-worker/src/queue.rs:121-174 | with every row of a claim locked in a step of its own, locks stay exclusive, claims disjoint, rows in accord with their lifecycle over every interleaving |
| TaskQueue.ExclusiveClaims | axontask-worker/src/queue.rs:121-174 | no task is locked by two sessions at once or returned by two committed claims of a run |
| TaskQueue.OneTerminalWrite | axontask-worker/src/queue.rs:238-335 | in any race a task is started and ended at most once, and its row is the end of a lifecycle path |
| TaskQueue.TakenIffFree | axontask-worker/src/queue.rs:128-142 | over every interleaving, a task a claim saw is still to be tried, or was taken if and only if it was pending and unlocked at the step at which the claim came to it |
| TaskQueue.OlderWasUnavailable | axontask-worker/src/queue.rs:128-142 | a claim that took a task took every older one pending at its start, but for those locked or no longer pending when it came to them |
| TaskQueue.UnreachedIsNoOlder | axontask-worker/src/queue.rs:128-142 | in every run, what a claim did not get to is no older than what it took, and a committed claim was then full |
| TaskQueue.SkippedCanBeFree | axontask-worker/src/queue.rs:128-142 | a task skipped while locked can be free again when the same claim takes a younger one |
| TaskQueue.UndisturbedClaim | axontask-worker/src/queue.rs:128-142 | a claim among held locks that do not move takes exactly the oldest free pending tasks up to its limit |
| TaskQueue.BoundedWait | axontask-worker/src/queue.rs:128-142 | with m tasks ahead, of more than m / n claims of limit n that took a task or were full before they got to it, one took it, however many workers there are |
| TaskQueue.OneWorkerBoundedWait | axontask-worker/src/queue.rs:121-174 | with one worker, after more than m / n claims of limit n a task with m ahead of it is no longer pending |
| TaskQueue.AheadAtStart | axontask-worker/src/queue.rs:128-142 | if nothing as old is created meanwhile, the tasks ahead are those that were pending and no younger |
| TaskQueue.OneWorkerInOrder | axontask-worker/src/queue.rs:121-174 | one worker hands out tasks in creation order across all its claims |
| TaskQueue.TaskTable.ClaimTasks | axontask-worker/src/queue.rs:121-174 | takes exactly the oldest unlocked pending tasks up to the limit and starts them; a limit beyond 63 bits fails |
| TaskQueue.TaskTable.Transition | axontask-shared/src/models/task.rs:355-479 | returns no row exactly if the lifecycle forbids the step, fails exactly if the clock is behind the start, and writes one row |
| TaskQueue.TaskTable.MarkSucceeded | axontask-worker/src/queue.rs:238-263 | ends a running task with its exit code exactly if the clock is not behind its start; a task that is not running is not found |
| TaskQueue.TaskTable.MarkFailed | axontask-worker/src/queue.rs:275-300 | ends a running task with its error exactly if the clock is not behind its start; a task that is not running is not found |
| TaskQueue.TaskTable.MarkTimeout | axontask-worker/src/queue.rs:311-335 | times out a running task exactly if the clock is not behind its start; a task that is not running is not found |
| TaskQueue.TaskTable.Create | axontask-shared/src/models/task.rs:287-307 | adds one pending row without timestamps |
| Orchestrator.BoundedExecutions | axontask-worker/src/orchestrator.rs:192-265 | at any moment of any run every uncancelled execution is tracked and there are at most the configured number |
| Orchestrator.FullIsFinal | axontask-worker/src/orchestrator.rs:229-235 | a loop that polls at capacity dispatches nothing ever again |
| Orchestrator.CanDispatchIff | axontask-worker/src/orchestrator.rs:229-258 | a loop that polls can still dispatch something if and only if a slot is free |
| Orchestrator.GoesOnAfterPassIff | axontask-worker/src/orchestrator.rs:229-261 | after a pass it can if and only if the uncancelled executions leave a slot |
| Orchestrator.FullIsReachable | axontask-worker/src/orchestrator.rs:229-261 | that happens with one slot and one task whose token is cancelled afterwards |
| Orchestrator.WorkerLoop.Pass | axontask-worker/src/orchestrator.rs:229-261 | one pass is a claim, its dispatches, cancellations meanwhile and an exact clean-up; at capacity, on an error or without tasks it changes nothing |
| Orchestrator.WorkerLoop.Shutdown | axontask-worker/src/orchestrator.rs:200-226 | cancels every tracked token, after which one round of waiting empties the table |
| Quota.DailyOvershoot | axontask-shared/src/quota.rs:390-406 | with k handlers between check and create no sliding 24-hour window holds more than limit + k - 1 of a tenant's tasks |
| Quota.DailyOvershootByPlan | axontask-shared/src/quota.rs:144-168 | in figures: fewer than 100, 1000, 10000 or 100000 plus k tasks in any 24 hours, by the tenant's plan, an unreadable one counting as a trial |
| Quota.OvershootIsTight | axontask-api/src/routes/mcp/start_task.rs:188-252 | for every plan and k that number is reached, and all of those tasks may run at once |
| Quota.RunningExceedsIff | axontask-shared/src/quota.rs:371-387 | in any state running tasks can come to exceed a number with no further check if and only if pending and running tasks and cleared handlers together exceed it |
| Quota.PassingIsSafeIff | axontask-api/src/routes/mcp/start_task.rs:188-252 | a handler that passes both checks makes an excess possible exactly if that total had already reached the limit |
| Quota.ActiveQuotaSuffices | axontask-shared/src/quota.rs:371-387 | if every concurrency check also finds room for pending, running and on the way, running tasks never exceed the limit |
| Quota.CheckSeesWindow | axontask-shared/src/quota.rs:390-406 | a daily check that passes saw fewer than the limit in every window not yet over, truncation to 32 bits included |
| Quota.QuotaService.Check | axontask-shared/src/quota.rs:263-293 | allowed exactly below 5, 25, 100 or 500 running tasks, or 100, 1000, 10000 or 100000 in the last 24 hours, by plan, a trial if the plan cannot be read; counts are taken modulo 2^32; unknown tenants are an error |
| Quota.QuotaService.Enforce | axontask-shared/src/quota.rs:328-344 | succeeds exactly below the limit and otherwise reports type, limit and usage |
| Quota.QuotaService.StartTask | axontask-api/src/routes/mcp/start_task.rs:188-252 | undisturbed, it creates a task exactly below both figures of the tenant's plan, the concurrency check first, and is three steps of the interleaved model |
| Usage.TableAgreesWithLog | axontask-shared/src/models/usage.rs:352-378 | for any log of increments the sums over the table are the sums of the accepted increments |
| Usage.NothingRefusedIff | migrations/20250103000000_init_schema.sql:349-366 | no increment is refused if and only if none is negative and every day's total fits 31 bits, or 63 for bytes |
| Usage.OrderIrrelevant | axontask-shared/src/models/usage.rs:181-272 | if one order of the increments is accepted whole so is every other, with the same totals |
| Usage.AdjacentRanges | axontask-shared/src/models/usage.rs:352-378 | totals add up over adjacent ranges of days |
| Usage.UsageCounters.IncrementTaskMinutes | axontask-shared/src/models/usage.rs:181-204 | adds to the tenant's row of the day exactly if the amount is not negative and the sum fits the column, and otherwise changes nothing |
| Usage.UsageCounters.IncrementStreams | axontask-shared/src/models/usage.rs:207-225 | the same by one |
| Usage.UsageCounters.IncrementBytes | axontask-shared/src/models/usage.rs:228-251 | the same by a number of bytes |
| Usage.UsageCounters.IncrementTasksCreated | axontask-shared/src/models/usage.rs:254-272 | the same by one |
| Usage.UsageCounters.GetCurrent | axontask-shared/src/models/usage.rs:107-132 | today's counters are the sums of today's accepted increments, zero without a row |
| Usage.UsageCounters.GetAggregate | axontask-shared/src/models/usage.rs:352-378 | the range's totals as the query computes them are the sums of the increments accepted for it; whether the NUMERIC sum of bytes can be fetched into 64 bits is not modelled |
| Text.I64RoundTrip | axontask-shared/src/events/serialization.rs:125 | every 64-bit number reads back from its decimal text |
| Text.DecimalIff | axontask-shared/src/events/serialization.rs:125 | the decimal text of a number is the one without leading zeros |
| Text.I64TextIff | axontask-shared/src/events/serialization.rs:125 | a number is written in its one spelling without a plus sign, a leading zero or a negative zero |
| Text.ParseI64Iff | axontask-shared/src/events/serialization.rs:194-199 | exactly the texts with an optional sign, digits and a 64-bit value are read, as that value |
| Text.HexRoundTrip | axontask-shared/src/events/serialization.rs:137-147 | every byte string reads back from its hexadecimal text |
| Text.HexDecodeIff | axontask-shared/src/events/serialization.rs:221-238 | a text is decoded to some bytes exactly if, in lower case, it is their encoding |
| Uuid.RoundTrip | axontask-shared/src/events/serialization.rs:185-188 | every text form of a UUID reads back as that UUID |
| Uuid.ParseIff | axontask-shared/src/events/serialization.rs:185-188 | the texts that read as a UUID are its four forms, digits in either case, and no others |
| Rfc3339.RoundTripIff | axontask-shared/src/events/serialization.rs:128 | a UTC time reads back from its text if and only if its year has four digits, and otherwise not at all |
| Rfc3339.ToUtcKeepsMoment | axontask-shared/src/events/serialization.rs:204-206 | a time with an offset is taken to the same moment in UTC |
| Rfc3339.StampReads | axontask-shared/src/events/serialization.rs:204-206 | every date-time of the RFC, with `Z`, `z` or either sign of offset, any fraction and any separator, reads as the moment it denotes |
| Rfc3339.OnlyStampsRead | axontask-shared/src/events/serialization.rs:204-206 | nothing else reads |
| Rfc3339.WrittenAs | axontask-shared/src/events/serialization.rs:128 | what is written is such a date-time, with a `T` and the offset `+00:00` |
| Rfc3339.FractionIsShortest | axontask-shared/src/events/serialization.rs:128 | its fraction has as few digits as are exact, of none, three, six and nine |
| Rfc3339.DaysBeforeMonthFormula | axontask-shared/src/events/serialization.rs:204-206 | the months have their lengths: the days before one in closed form |
| Rfc3339.ParsedIsTime | axontask-shared/src/events/serialization.rs:204-206 | what parses is a valid time with a year between -1 and 10000 |
| Rfc3339.YearZeroEast | axontask-shared/src/events/serialization.rs:204-206 | a text that parses to a time whose own text does not parse |
| EventCodec.SerializeEvent | axontask-shared/src/events/serialization.rs:118-150 | successive inserts give exactly the seven fields |
| EventCodec.DeserializesIff | axontask-shared/src/events/serialization.rs:181-247 | an event comes out exactly when every field reads as that event's |
| EventCodec.FirstFaultReported | axontask-shared/src/events/serialization.rs:181-247 | an entry that fails does so with the first field, in the order of reading, that is missing or malformed |
| EventCodec.MissingFields | axontask-shared/src/events/serialization.rs:181-240 | a field reported missing is missing and one of the six required; no event comes out without one of those |
| EventCodec.RoundTripIff | axontask-shared/src/events/serialization.rs:118-247 | an event reads back from its fields if and only if its previous hash is not present and empty, its year has four digits and its payload survives JSON |
| EventCodec.NormalForm | axontask-shared/src/events/serialization.rs:181-247 | whatever spelling was read, rewriting gives the same event, unless an offset left the four-digit years |
| EventCodec.ReadIsNormal | axontask-shared/src/events/serialization.rs:221-230 | no event that was read has a previous hash that is present and empty |
| EventCodec.OtherFieldsIgnored | axontask-shared/src/events/serialization.rs:181-247 | only the seven fields matter |
| EventPipeline.WrittenStreamReadsWhole | axontask-shared/src/redis/stream_reader.rs:403-432 | a paged read of a stream of written events returns those events in order, whatever the batch size |

## Left out

- RateLimit.ScriptRefinesBucket: amounts of tokens are reals, so floating-point rounding and the decimal text Redis stores between requests are not modelled.
- Emitter.LinksSurviveFailures: stated for up to 2^63 emits of one emitter, after which the counter wraps.
- Emitter.EventEmitter.Emit: a failure to write the payload as JSON, before anything is stored, is not modelled.
- Emitter.StreamsStayInOrder: stated for runs of up to 2^63 steps, for the same reason.
- Emitter.FollowsOnIff: stated for runs of up to 2^63 steps, for the same reason.
- Quota.DailyOvershoot: stated for fewer than 2^32 - 100000 handlers at once, beyond which the count's truncation to 32 bits could hide tasks; the cutoff and the count of a check are one step, and application and database share a clock.
- Usage.UsageCounters.GetAggregate: the sum of a BIGINT column is a NUMERIC in PostgreSQL; fetching it into a 64-bit field is not modelled.
- HashChain.TamperEvidence: payloads are the bytes that are hashed; whether the database returns a JSON value that is written as the same bytes is not modelled.
- Rfc3339.RoundTripIff: times are civil fields; the range of years the date library supports is not modelled.
- EventCodec.RoundTripIff: the JSON codec is abstract, and kinds and payload texts are sequences of characters, not UTF-8.
- GapDetection.DetectGapExact: ids whose parts need 64 unsigned bits are covered by StreamId.ParseFormat only; the detector rejects them. Parsing of the `XINFO` reply and the branch for a reply without entries beyond an empty stream are left out.
- Orchestrator.BoundedExecutions: what an execution does, its timeout and its control messages are not modelled, nor is a poisoned or failed spawn.
- EventStream.StreamReader.ReadLive: blocking and its timeout are not modelled; a read sees one moment of the stream.
- Clocks that run backwards, connection failures and retries, and errors of the database other than constraints.
- HTTP routing, request validation, the text of messages, logging, server-sent events, authentication and key handling.
- The cancel handler's reply after a lost race (it reports a cancellation although no row was updated); its update is the lifecycle's.
- Heartbeats, the watchdog, Pub/Sub control messages, stream statistics other than lag.
- Deletion of rows and resets of counters, which break append-only histories by design.
- `read_last`, `stream_id_exists`, `get_latest`, `get_history` and other single reads, which would add easy members only.
