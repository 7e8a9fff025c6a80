# WebhookMind in Dafny

WebhookMind takes in webhooks, routes those that point to a file through an extraction worker, and
delivers every event to its destinations with retries, a dead-letter queue and recovery after a
crash. On the way it learns a schema of each source's payloads and reports drift from it.

This project models the parts of that pipeline where several steps, workers or services have to
agree, and proves what they guarantee.

- **Flattening** (`Flatten`, `FlattenOrder`, `FlattenDecode`). Go visits map keys in any order, anew
  at every object. A `Walk` is one choice of orders, `IsFlattening` relates a payload to every map the
  code can return. The result is independent of the order exactly when no two entries clash; with
  clean keys every flattened key decodes to its path; two clean payloads flatten alike exactly when
  they agree after removing empty objects.
- **Schema learning** (`SchemaInference`, `SchemaConcurrency`, `Drift`). The incremental update equals
  a closed-form summary of the samples up to the lock. Under every interleaving of unlocked loads and
  saves, with failures, each stored schema is such a summary of a subsequence of what was saved. Drift
  is reported exactly for payloads that do not conform.
- **Delivery** (`Retry`, `Recovery`, `RecoveryProofs`, `RecoveryBackoff`, `Queues`, `DeadLetters`,
  `DeadLetterOverlaps`). The retry loop, then a state machine with queue, workers, attempt rows,
  dead-letter rows, a clock, shutdowns and a crash between any two steps, then every interleaving of
  dead-lettering with the retry and discard requests.
- **Pipeline** (`Pipeline`). Conservation of event copies from acceptance to delivery, and the
  invariant that makes merging extracted data into a body safe.
- **Replay** and **SSE fan-out** (`Replay`, `SseHub`). Two actors on one status row; bounded client
  buffers with drops.
- **Codecs and text** (`Decimal`, `Base16`, `Text`, `Signature`, `SignatureAcceptance`, `PayloadDiff`,
  `CodeFences`, `Docx`, `Fingerprint`).

Where the source updates things in place the model does too: `SchemaTable`, `DriftTable`,
`RedisQueue`, `DeadLetterTable`, `Channel` and `Hub` are classes, loops are loops, and each is proved
against a function or relation about which the lemmas speak. I/O results, clocks and failures are
parameters. HMAC-SHA-256 (section 2 of RFC 2104), SHA-256, JSON marshalling of events and Go's `%v`
rendering are uninterpreted functions. Check everything with `dafny verify dfyconfig.toml`.

A `string` is read as Go and C++ read it, byte by byte, where lengths and cuts matter (flattening,
schemas, drift, layout signature), and as code points in the modules that trim white space.

## What the proofs brought up

Each of these is proved, by a concrete run or input or for all of them, and "exactly when" names the
lemma with the necessary and sufficient condition.

- A payload with a key `a.b` beside an object `a` holding `b` flattens differently from one call to
  the next (`AmbiguousPayload`; exactly when: `OrderIndependentIffNoClash`). It may be reported as
  drifting just after it was learned (exactly when: `NoImmediateDriftIff`).
- A worker that loaded a schema before it was locked can overwrite the locked schema by an unlocked
  one (`LockCanBeLost`; exactly when: `LockFinalIff`).
- A failed read counts as "no schema yet": one failed read can replace any schema, locked or not, by
  one of a single sample (`NoLockSurvivesFailedLoad`, in every state; `FailedLoadUnlocks`, a run).
- More than four configured attempts make the delivery worker panic once four have failed (exactly
  when: `PanicIff`).
- Recovery works per event: after one destination succeeded, a crash loses the retries of the others
  (`RetriesLostForOtherDestination`; exactly which are recovered: `QueryExact`).
- Recovery may put an event back inside the delay of one of its attempts: because another destination
  is due (`OtherDestinationInsideDelay`), or because numbering restarts at 1 and the query looks only
  at the highest number (`BackoffOfFreshAttemptIgnored`). Exactly when not: `RespectsBackoffIff`. An
  event with one destination on its first way through is safe (`FirstWayWaitsLongest`).
- An event let go of before its first attempt is recorded is lost, be it by a crash
  (`LostBeforeFirstAttempt`) or by an orderly shutdown, which cancels the write of the attempt as well
  (`LostToShutdown`); exactly which events are lost, as long as stores work otherwise:
  `NothingVanishes`. A resolved dead-letter row still excludes its event for good
  (`NeverRecoveredAgain`).
- Dead-lettering whose push to the Redis list fails still inserts its row, which nobody can retry
  (`UnpushedRowIsStuck`; exactly when: `DeadLetteringSafeIff`).
- A retry request that slips between the push to the list and the insertion of the row does the same
  (`OvertakenRowIsStuck`). A retry or discard is safe exactly if no row of the event still waits to be
  inserted or another copy is on the list (`RetrySafeIff`, `DiscardSafeIff`). So does one that removes
  its entry and fails to resolve the row (`UnresolvedRowIsStuck`; exactly when: `RetryFailingSafeIff`,
  `DiscardFailingSafeIff`; for overlapping requests: `EndsFindableIff`).
- A failed status read ends a replay as "completed" with events left out (`CompletedTooEarly`; exactly
  when: `CompletedIffChecksSucceeded`).
- A cancel written after the last event's check is overwritten by "completed" (`CancelOverwritten`), and
  a failed read while paused cancels the session (`PauseBecomesCancelled`); exactly when a written pause
  or cancel survives: `HoldSurvivesIff`.
- The merge would panic on a body that is the document `null`; the routing step never sends such a
  body to extraction (`ProcessEvent`, `DeliveredBodiesAgree`).
- A signing time more than 292 years ahead counts as fresh, because the saturated difference has no
  negation in 64 bits (`FarFutureNotStale`; exactly when: `WindowTest`).
- Two text blocks with the same rounded position and different print make the layout signature depend
  on how an unstable sort treats them (`DisagreeingTies`; exactly when: `OrderIrrelevantIff`).

## Model

| member | source | states |
|---|---|---|
| Flatten.FlattenRecursive | internal/schema/flatten.go:13-37 | one call visits every key once in some order and performs, on the shared map, the writes of a walk of the object below its path |
| Flatten.FlattenValue | internal/schema/flatten.go:20-35 | the type switch on one value: objects are descended, arrays are stored and descended, the rest is stored |
| Flatten.FlattenItems | internal/schema/flatten.go:23-32 | array elements are visited in order, objects among them are flattened under their index, everything else is stored whole |
| Flatten.FlattenJSON | internal/schema/flatten.go:7-11 | the returned map is the outcome of some walk of the payload |
| FlattenOrder.WritesAreEmissions | internal/schema/flatten.go:13-37 | whatever the order, the writes performed are exactly the non-object values reachable by a path without adjacent indices |
| FlattenOrder.PrintExample | internal/schema/flatten.go:14-26 | how a path is printed: `a.b[0].c` |
| FlattenOrder.FlattenedEntries | internal/schema/flatten.go:7-37 | the keys of a flattening are exactly the printed paths of the payload's entries, and each value is that of an entry printing to its key |
| FlattenOrder.FlattenedKeysAgree | internal/schema/flatten.go:7-37 | the key set never depends on the iteration order, even for ambiguous payloads |
| FlattenOrder.EntryCanWin | internal/schema/flatten.go:13-37 | for each entry some iteration order makes it the one that decides its printed key |
| FlattenOrder.OrderIndependentIffNoClash | internal/schema/flatten.go:7-37 | flattening is a function of the payload if and only if no two entries print alike and hold different values |
| FlattenDecode.DecodePrint | internal/schema/flatten.go:13-37 | decoding the printed form of a path with clean keys gives the path back |
| FlattenDecode.CleanNoClash | internal/schema/flatten.go:13-37 | with non-empty keys free of '.' and '[' at every level no two entries clash |
| FlattenDecode.DecodedEntry | internal/schema/flatten.go:7-37 | on clean payloads each flattened key decodes to the one path it came from, and lookup along it gives the stored value |
| FlattenDecode.FlattenKernel | internal/schema/flatten.go:7-37 | two clean payloads have equal flattenings if and only if they are equal after pruning objects that are empty |
| FlattenDecode.FlattenInjective | internal/schema/flatten.go:7-37 | flattening is injective on clean payloads in which no object reached through objects alone is empty |
| FlattenDecode.AmbiguousPayload | internal/schema/flatten.go:13-37 | a concrete payload with two different flattenings |
| SchemaInference.SchemaTable.GetPayloadSchema | internal/store/postgres.go:221-235 | the stored row, or nothing when absent or when the read fails |
| SchemaInference.SchemaTable.UpsertPayloadSchema | internal/store/postgres.go:237-252 | replaces the row of its source and no other, or nothing when the write fails |
| SchemaInference.UpdateSchema | internal/schema/inference.go:18-90 | load, fold one flattened sample unless locked, lock at the threshold, save; failed reads and writes included |
| SchemaInference.MarkAbsentFields | internal/schema/inference.go:39-45 | exactly the known fields absent from the sample become nullable, all others are untouched |
| SchemaInference.ProcessPresentFields | internal/schema/inference.go:47-71 | after the second loop every field, known or new, is what one observation makes of it, in any iteration order |
| SchemaInference.RefreshField | internal/schema/inference.go:51-60 | latest non-null type wins, at most three examples |
| SchemaInference.TruncateExample | internal/schema/inference.go:92-104 | examples are scalars of bounded length, short scalars are kept, long strings keep their first hundred characters |
| SchemaInference.AllKeysMember | internal/schema/inference.go:47-71 | a field is known exactly if some sample had it |
| SchemaInference.ObserveSummary | internal/schema/inference.go:32-82 | one more sample moves the closed-form summary (union of keys, nullable iff absent from some sample, last non-null type, first three truncated occurrences) exactly as the code moves the schema |
| SchemaInference.LatestTypeOfValue | internal/schema/inference.go:51-56 | the learned type of a field is that of its last value other than null, "null" if there is none |
| SchemaInference.ExamplesAreFirst | internal/schema/inference.go:57-70 | the examples of a field are its first values, truncated, in order, at most three of them |
| SchemaInference.LockedAtLockPoint | internal/schema/inference.go:73-82 | locked exactly from max(1, minSamples) samples on |
| SchemaInference.SequentialLearning | internal/schema/inference.go:18-90 | after any non-empty sequence of payloads the row is the summary of the first max(1, minSamples) of them, and never changes afterwards |
| SchemaConcurrency.AloneIsUpdateSchema | internal/schema/inference.go:18-90 | a load and a save with nothing in between are one call of the update |
| SchemaConcurrency.InterleavedLearning | internal/delivery/engine.go:64-117 | in every interleaving of any number of workers with failing loads and saves, each stored schema is the summary of a non-empty subsequence, in save order, of the payloads saved for its source, its sample count is at most max(1, minSamples), and it is locked exactly at that count |
| SchemaConcurrency.LockFinalIff | internal/delivery/engine.go:64-117 | as long as no load fails, a locked schema keeps its value forever if and only if every worker in flight would write that same value |
| SchemaConcurrency.LockCanBeLost | internal/delivery/engine.go:64-117 | a run without failures in which a locked schema is replaced by an unlocked one |
| SchemaConcurrency.NoLockSurvivesFailedLoad | internal/schema/inference.go:21-30 | in every state, for every stored schema, locked or not, some load that fails and the save that follows replace it by another |
| SchemaConcurrency.FailedLoadUnlocks | internal/schema/inference.go:21-30 | a run in which a failed load replaces a locked schema by an unlocked one of one sample |
| Drift.MissingFields | internal/schema/drift.go:25-41 | one report for exactly the required fields absent from the payload |
| Drift.PresentFields | internal/schema/drift.go:43-71 | adds one report for exactly the unknown fields and the fields whose non-null value has another type |
| Drift.CheckDrift | internal/schema/drift.go:16-93 | silent without a locked schema; else each field with a drift is reported exactly once with its kind and types, none iff the payload conforms, and the reports whose insertion succeeds are stored in order |
| Drift.NoDriftIffConforms | internal/schema/drift.go:25-71 | the report is empty if and only if required fields are present, all fields are known and non-null values keep their type |
| JsonValues.SameTypeIff | internal/schema/flatten.go:39-58 | two values have the same type name if and only if both are null, or both booleans, numbers, strings, arrays or objects |
| Drift.ReportedIff | internal/schema/drift.go:25-71 | a field is reported if and only if it is required and absent, or present and unknown, or present with a non-null value of another type than the stored one; with that kind and both types |
| Drift.TypeChangedIff | internal/schema/drift.go:43-59 | on values: against a learned schema, a value of a known field is reported if and only if it is not null and of another kind than the last non-null value learned for it, with the two types |
| Drift.MissingOrNewIff | internal/schema/drift.go:25-71 | on values: an absent field is reported if and only if every sample had it, and a field no sample had is reported |
| Drift.TrainingSampleKeys | internal/schema/drift.go:25-71 | a payload that was one of the samples is never reported for a missing or a new field, however it is flattened the second time |
| Drift.ObservedConforms | internal/schema/inference.go:39-71 | right after being folded into any schema, the same flattening conforms |
| Drift.NoImmediateDriftIff | internal/delivery/engine.go:117-120 | a payload whose sample locks the schema, whatever samples came before, can never be reported in the check right after if and only if its entries that print alike have the same type |
| Drift.UnambiguousNeverDriftsAtOnce | internal/delivery/engine.go:117-120 | unambiguous payloads are never reported right after being learned |
| Retry.DeliverToDestination | internal/delivery/engine.go:183-299 | attempts are numbered 1..k with k at most the limit, only the last may be a success or a 4xx, the ending is read off from what happened, total backoff is at most 155 seconds |
| Retry.RunsAgree | internal/delivery/engine.go:183-299 | that description determines rows and ending completely |
| Retry.RunByCodes | internal/delivery/engine.go:205-268 | delivered exactly if the last answer is 200 to 299, failed for good exactly if it is 400 to 499, with that code; every earlier attempt got neither; rows are successes exactly for 200 to 299; at most four attempts |
| Retry.WaitsByAttempts | internal/delivery/engine.go:23-30 | the waits before the first four attempts sum up to 0, 5, 35 and 155 seconds |
| Retry.PanicIff | internal/delivery/engine.go:183-187 | the delay index is out of range exactly when more than four attempts are configured and the first four fail for now without cancellation; otherwise a run is delivered, dead-lettered or cancelled in backoff |
| Retry.BackoffBound | internal/delivery/engine.go:25-30 | waits before four attempts sum up to at most 155 seconds |
| Recovery.RecoverIncomplete | internal/delivery/engine.go:434-497 | appends, in query order, exactly the stored events whose delay has passed and whose fetch and enqueue did not fail |
| Recovery.DueEventsMember | internal/delivery/engine.go:450-480 | an event is put back exactly if it is stored and some row of it is due and did not fail |
| Recovery.DueIff | internal/delivery/engine.go:451-458 | a row is due 5, 30 and 120 seconds after attempts 1, 2 and 3, and at once after any other |
| Recovery.SelectedIff | internal/store/postgres.go:112-127 | a selected row is a failure with a number below 4, the greatest of its pair's, of an event without success and dead-letter row |
| RecoveryProofs.StepKeepsInv | internal/delivery/engine.go:102-299 | every step, crash included, keeps: attempt rows have a first attempt and a stored event, workers past it have recorded it, every entered event is accounted for |
| RecoveryProofs.RunKeepsInv | internal/delivery/engine.go:64-299 | hence it holds in every reachable state |
| RecoveryProofs.GoroutineFollowsLoop | internal/delivery/engine.go:183-299 | in any state, the answer and record steps of one goroutine, run for as many attempts as the retry loop makes, add exactly the loop's rows to the table, change nothing else, and leave the goroutine finished, at the dead-letter push or waiting exactly as the loop ends; where the loop panics the next step crashes |
| RecoveryProofs.PassIsRecoverSteps | internal/delivery/engine.go:450-490 | the recovery pass over a query result is a run of single recovery steps and changes nothing but the queue |
| RecoveryProofs.DeadLetterSteps | internal/delivery/engine.go:333-365 | dead-lettering puts the event on the list and writes an unresolved row of that event and destination |
| RecoveryProofs.DeadRetried | internal/api/handlers_dashboard.go:130-138 | a retry queues the event, takes its first list entry and no other, and resolves exactly its rows |
| RecoveryProofs.DeadDiscarded | internal/api/handlers_dashboard.go:143-155 | a discard takes the first list entry, if any, and resolves exactly the event's rows |
| RecoveryProofs.CrashTakesWorkersOnly | internal/delivery/engine.go:64-97 | a crash takes what workers had in hand and nothing that is stored |
| RecoveryProofs.FetchTakesOldest | internal/delivery/engine.go:81-94 | a free worker takes the oldest event of the queue |
| RecoveryProofs.QueryExact | internal/store/postgres.go:112-147 | in every reachable state the query lists exactly the event-destination pairs with a recorded attempt whose event has neither a success nor a dead-letter row, and those events are stored |
| RecoveryProofs.NothingVanishes | internal/delivery/engine.go:102-299 | with stores that work but for calls cut off by a shutdown and destinations that cannot be resolved: an event that ever entered the queue is neither queued, held, delivered, dead-lettered nor listed for recovery if and only if it has no attempt and no dead-letter row, is neither queued nor held, and was let go of before a first attempt row or has no destination |
| RecoveryProofs.LostBeforeFirstAttempt | internal/delivery/engine.go:81-105 | a run that loses an event: fetched, then a crash |
| RecoveryProofs.LostToShutdown | internal/delivery/engine.go:186-230 | a run without crash that loses an event: a shutdown during its first attempt |
| RecoveryProofs.LostUnresolved | internal/delivery/engine.go:151-160 | a run that loses an event whose destinations cannot be resolved |
| RecoveryProofs.NeverRecoveredAgain | internal/store/postgres.go:112-127 | once an event has a success or dead-letter row, even a resolved one, no later recovery in any run lists it |
| RecoveryProofs.RetriesLostForOtherDestination | internal/store/postgres.go:121-126 | a run in which a crash loses the retries of one destination because another succeeded |
| RecoveryBackoff.EnteredOnceSolo | internal/delivery/engine.go:183-230 | while an event has been put on the queue at most once it is in one place at a time and its attempt numbers grow with time |
| RecoveryBackoff.RespectsBackoffIff | internal/delivery/engine.go:450-472 | whenever a selected row is due all attempts of the event below the limit, on every destination, are due, if and only if none of their delays ends after that of a selected row |
| RecoveryBackoff.FirstWayWaitsLongest | internal/delivery/engine.go:183-230 | in every run, for an event with one destination put on the queue at most once, that condition holds |
| RecoveryBackoff.RecoveredAfterBackoff | internal/delivery/engine.go:450-472 | what the recovery pass puts back has a selected row that is due; under the condition, and so on the first way of an event with one destination, every attempt of the event below the limit has waited out its delay |
| RecoveryBackoff.OtherDestinationInsideDelay | internal/delivery/engine.go:461-472 | a run with two destinations, failing at times 0 and 5, and one crash after which an event goes back inside the delay of its second destination |
| RecoveryBackoff.BackoffOfFreshAttemptIgnored | internal/delivery/engine.go:450-458 | a run with one destination, attempts at times 0 and 5 and two crashes after which an event goes back with no wait after its latest attempt |
| Queues.RedisQueue.Enqueue | internal/queue/redis.go:41-52 | appends the encoded event to one list and leaves the others, or changes nothing on failure |
| Queues.RedisQueue.Dequeue | internal/queue/redis.go:54-78 | takes the oldest entry; one that cannot be decoded is gone; an empty list and a failed command change nothing |
| Queues.RedisQueue.FindDLQEntry | internal/queue/redis.go:91-107 | finds the first decodable entry with the event id, skipping unreadable ones |
| Queues.RedisQueue.RemoveDLQEntry | internal/queue/redis.go:109-114 | removes the first entry with that value |
| Queues.RemovalHitsTheMatch | internal/queue/redis.go:91-114 | removal by value hits the very index the scan found |
| Queues.RemoveAtKeepsOrder | internal/queue/redis.go:109-114 | the entries before and after the removed one stay, in order |
| DeadLetters.DeadLetterTable.InsertDeadLetterEntry | internal/store/postgres.go:80-101 | adds an unresolved row |
| DeadLetters.DeadLetterTable.ResolveDLQEntry | internal/store/postgres.go:686-694 | marks all rows of the event and changes nothing else of any row |
| DeadLetters.MoveToDLQ | internal/delivery/engine.go:333-365 | pushes to the list and inserts a row, each on its own when the other fails |
| DeadLetters.HandleRetryDLQ | internal/api/handlers_dashboard.go:112-141 | moves exactly the first matching entry to the end of delivery, keeps all others in order and resolves the rows; every error path |
| DeadLetters.HandleDiscardDLQ | internal/api/handlers_dashboard.go:143-158 | removes exactly the first matching entry and resolves the rows; every error path |
| DeadLetters.CopiesFound | internal/queue/redis.go:91-107 | the scan finds an entry exactly if the list holds a copy |
| DeadLetters.UnresolvedAfterResolve | internal/store/postgres.go:686-694 | resolving leaves no unresolved row of the event and all those of others |
| DeadLetters.ListedCanBeRetried | internal/api/handlers_dashboard.go:112-158 | in every interleaving of workers and requests, any push, insertion or request failing: for an event whose pushes all succeeded, and none of whose requests is half done, left rows unresolved or overtook a row insertion, unresolved rows never outnumber list entries, so a listed entry can be found |
| DeadLetters.RetryMovesFirstMatch | internal/api/handlers_dashboard.go:120-138 | the retry steps performed together have exactly the handler's effect: the event of the first match goes to delivery, the match leaves the list, the rows are resolved, nothing else changes |
| DeadLetters.DiscardRemovesFirstMatch | internal/api/handlers_dashboard.go:146-152 | likewise for discard |
| DeadLetters.AtomicListedCanBeRetried | internal/store/postgres.go:653-694 | when operations do not overlap this holds for every event with no further condition |
| DeadLetters.DeadLetteringSafeIff | internal/delivery/engine.go:333-365 | dead-lettering a findable event leaves it findable, however many waiting rows get inserted, if and only if the push succeeded, the insertion failed or the list holds a copy already |
| DeadLetters.UnpushedRowIsStuck | internal/delivery/engine.go:335-365 | a run of a failed push and an insertion, with no request, that ends with a listed row and no list entry |
| DeadLetters.RetrySafeIff | internal/api/handlers_dashboard.go:112-141 | with no request under way, a retry that finds its entry leaves the event findable, however many waiting rows get inserted, if and only if no row of it waits to be inserted or the list holds another copy |
| DeadLetters.DiscardSafeIff | internal/api/handlers_dashboard.go:143-158 | the same for every discard |
| DeadLetters.RetryFailingSafeIff | internal/api/handlers_dashboard.go:130-138 | whatever fails in a retry that found its entry, the event stays findable if and only if nothing of it remains to be listed or more copies were on the list than it removed |
| DeadLetters.DiscardFailingSafeIff | internal/api/handlers_dashboard.go:143-158 | the same for every discard |
| DeadLetters.UnresolvedRowIsStuck | internal/api/handlers_dashboard.go:137-138 | a run in which a retry removes its entry and fails to resolve the row, which stays listed with no list entry |
| DeadLetters.OvertakenRowIsStuck | internal/delivery/engine.go:333-365 | a run that ends with no request and no insertion pending, a listed row and no list entry |
| DeadLetterOverlaps.StepKeepsSpare | internal/queue/redis.go:109-114 | no step that finishes what is under way changes whether an entry is on the list more often than requests are going to remove it |
| DeadLetterOverlaps.EndsFindableIff | internal/api/handlers_dashboard.go:112-158 | in any state, with any requests overlapping each other and insertions: however what is under way finishes, a listed event can be found in the end if and only if it cannot end up listed (no row waits, and none is there that no request resolves) or some entry of it is on the list more often than requests under way remove it |
| Pipeline.RouteNext | cmd/orchestrator/main.go:62-95 | one turn: for the oldest incoming event, if its body is an object with a non-empty string under file_url, extraction grows by the event with that as its FileURL and delivery stays; in every other case delivery grows by the event as it is and extraction stays; unreadable entries and failed enqueues are lost, a failed dequeue changes nothing |
| Pipeline.EnqueueForDelivery | cmd/extractor-bridge/main.go:506-514 | one hand-on attempt, logged and dropped on failure |
| Pipeline.ProcessEvent | cmd/extractor-bridge/main.go:168-400 | every exit hands the event on exactly once, field by field: unchanged before the upload, with the stored path after it, and after an answer with exactly the answer's data as extracted data and, in an object body, under "extracted"; it panics exactly when an answer is to be merged into a `null` body |
| Pipeline.HandedOnUnique | cmd/extractor-bridge/main.go:168-400 | that description fits one event only |
| Pipeline.Conservation | cmd/orchestrator/main.go:62-95 | in every run, for each event id, copies in the three queues, in workers' hands, handed to delivery and dropped in the log equal copies accepted plus copies put back |
| Pipeline.ExtractedIffFileNamed | cmd/orchestrator/main.go:76-86 | in every run, an accepted event that the orchestrator forwarded went into extraction if and only if its accepted body has a non-empty string file_url, and else straight into delivery |
| Pipeline.StraightThrough | cmd/orchestrator/main.go:62-95 | every event that names no file has a run to delivery, as it was accepted |
| Pipeline.ThroughExtraction | cmd/extractor-bridge/main.go:168-400 | every event that names a file has a run through extraction to delivery, for every answer, with exactly the described enrichment |
| Pipeline.TakesOldest | internal/queue/redis.go:54-78 | workers take the oldest event of their queue |
| Pipeline.DeliveredBodiesAgree | cmd/extractor-bridge/main.go:345-352 | in every run the merge never meets a nil map, events in extraction carry the file_url of their own body, and what reaches delivery agrees with the accepted body on every key except "extracted" |
| Replay.StepKeepsInv | internal/replay/engine.go:53-104 | every step of the engine and every status write keeps: sent events are a prefix as long as the position says, progress does not overshoot |
| Replay.AttemptsArePrefix | internal/replay/engine.go:64-102 | in every interleaving the attempted events are a prefix of the fetched list, each once, and recorded progress never exceeds them or the total |
| Replay.CompletedIffChecksSucceeded | internal/replay/engine.go:64-104 | when the engine has written "completed", all events were attempted if and only if no status check failed |
| Replay.RunningCompletes | internal/replay/engine.go:64-104 | from any point of the loop, polling after a pause included, a running session whose steps succeed sends all remaining events, records them and ends as "completed", in at most three steps an event and two more |
| Replay.ResumeCompletes | internal/api/handlers.go:213-220 | so it does after a resume |
| Replay.CompletesDespiteFailures | internal/replay/engine.go:90-104 | failed deliveries and failed progress reports, in any pattern, do not keep a running session from sending every event once and completing |
| Replay.FailuresOutside | internal/replay/engine.go:34-62 | what a failing first read, announcement or last status write does |
| Replay.UndisturbedReplay | internal/replay/engine.go:33-109 | a session without failures and API writes sends exactly the fetched list and records its length as progress and total |
| Replay.FailedFetch | internal/replay/engine.go:53-58 | a failed fetch ends the session as "failed" with nothing sent |
| Replay.HoldTakesEffect | internal/replay/engine.go:66-88 | a written hold that is still to be read takes effect within three successful steps and one event: polling if paused, stopped if cancelled |
| Replay.HoldStopsSending | internal/api/handlers.go:204-229 | while the status stays paused or cancelled at most one more event is sent, the one already past its check |
| Replay.CompletedTooEarly | internal/replay/engine.go:66-69 | a run that ends as completed with an event left out |
| Replay.HoldSurvivesIff | internal/replay/engine.go:64-108 | a written pause or cancel survives everything the engine may still do if and only if the engine reads the status again before another event or has stopped, as long as reads succeed; if reads may fail, if and only if it has stopped or is about to stop for a cancel |
| Replay.CancelOverwritten | internal/replay/engine.go:64-104 | a run without failure in which a cancel written after the last check ends as "completed" |
| Replay.PauseBecomesCancelled | internal/replay/engine.go:73-79 | a run in which a failed read while polling makes a paused session "cancelled" |
| SseHub.Channel.TrySend | internal/sse/hub.go:77-82 | appends if fewer than 64 messages are buffered, else drops |
| SseHub.Channel.Offer | internal/sse/hub.go:73-83 | the loop body for one client: the message is appended if and only if the filter is empty, the source is empty or the two are equal, and fewer than 64 are buffered |
| SseHub.Channel.Receive | internal/sse/handler.go:48-55 | the reader takes the oldest buffered message |
| SseHub.Hub.Register | internal/sse/hub.go:30-37 | one step of the hub: adds a fresh open channel with an empty buffer, leaves the others |
| SseHub.Hub.Unregister | internal/sse/hub.go:40-46 | one step of the hub: removes and closes that channel only; panics exactly if it was closed already, so never for a registered one |
| SseHub.Hub.OfferAll | internal/sse/hub.go:73-84 | the loop, in any order, changes each client by the one broadcast and nothing else |
| SseHub.Hub.Broadcast | internal/sse/hub.go:50-85 | one step of the hub: to each registered client the message is appended if and only if its filter is empty, the source is empty or the two are equal, and fewer than 64 are buffered; malformed payloads change nothing; no send reaches a closed channel |
| SseHub.Hub.ReadNext | internal/sse/handler.go:47-57 | one step of the hub: the handler takes the oldest message of its channel, and ends exactly when the channel is unregistered and drained |
| SseHub.ExplainedLater | internal/sse/hub.go:73-83 | one more broadcast keeps a stream explained, whether its message was admitted and taken, dropped or filtered out |
| SseHub.TakeKeepsValid | internal/sse/hub.go:73-83 | a broadcast keeps the buffer at most 64 and the stream a subsequence of the admitted broadcasts, all of them unless one was dropped |
| SseHub.OverflowedIffDropped | internal/sse/hub.go:77-82 | a client has overflowed exactly if some admitted broadcast of the run found its buffer full |
| SseHub.StreamCompleteIff | internal/sse/hub.go:30-85 | in every run what was consumed followed by the buffer is an in-order subsequence of the admitted broadcasts, and equals them if and only if no admitted broadcast found the buffer full |
| SseHub.StepKeepsSound | internal/sse/hub.go:30-85 | every step of the hub keeps every channel explained and open exactly while registered |
| SseHub.HubStreams | internal/sse/hub.go:30-85 | in every run of registrations, unregistrations, broadcasts and receives, for every channel there ever was: it is open exactly while registered, its buffer holds at most 64, its stream is an in-order selection of the admitted broadcasts since it registered, and all of them if and only if none of those found the buffer full |
| SseHub.OnlyForFilter | internal/sse/hub.go:75-80 | in every run each message of a channel's stream was sent by a broadcast whose source is the channel's filter, unless filter or source is empty |
| SseHub.BroadcastReaches | internal/sse/hub.go:73-83 | in every run a broadcast is buffered for a registered channel if and only if filter or source is empty or they are equal, and fewer than 64 are buffered; nothing else of a channel changes |
| Decimal.ParseFormatInt | internal/ingestion/signature.go:44-108 | parsing a printed integer gives it back exactly when it fits in 64 bits, and fails otherwise |
| Decimal.ParseIntIff | internal/ingestion/signature.go:44-47 | parsing succeeds exactly on an optional sign and at least one digit whose value by place fits in 64 bits, with that value |
| Base16.HexDecodeEncode | internal/ingestion/signature.go:56-110 | base16 (section 8 of RFC 4648): decoding an encoding gives the bytes back |
| Base16.HexDecodeIff | internal/ingestion/signature.go:56-59 | decoding succeeds exactly on text with two digits of either case for each byte, upper half first, with those bytes |
| Base16.HexEncodeText | internal/ingestion/signature.go:110 | encoding writes such text in lower case |
| SignatureAcceptance.ParseHeaderIff | internal/ingestion/signature.go:77-96 | the header is read exactly as the last non-empty value of t and of v1 among its trimmed parts, in terms of the text alone |
| SignatureAcceptance.AcceptedIff | internal/ingestion/signature.go:31-65 | any header at all is accepted if and only if secret and header are non-empty, it gives t and v1 last values, the first is the numeral of a fresh time, and the second is hexadecimal text for exactly the code of the first, a dot and the body |
| SignatureAcceptance.VerifyOutcome | internal/ingestion/signature.go:31-65 | and every other header gets the error of the first of these conditions that fails |
| Signature.ParseSignatureHeader | internal/ingestion/signature.go:77-96 | the loop returns the last t and the last v1, and fails if either is missing or empty |
| Signature.PartOrderIrrelevant | internal/ingestion/signature.go:77-96 | when t and v1 occur once, reordering parts, changing white space around them and adding or dropping other keys does not change the result |
| Signature.WindowTest | internal/ingestion/signature.go:50-103 | for every limit the saturating 64-bit age test fires exactly beyond it on either side, except for the largest limit and for times so far ahead that the difference saturates |
| Signature.WindowIntended | internal/ingestion/signature.go:50-103 | for a limit that is neither negative nor the largest, and a time not too far ahead, the test fires exactly if the signing time lies further from now than the limit |
| Signature.FarFutureNotStale | internal/ingestion/signature.go:50-103 | a time that far ahead passes |
| Signature.VerifySigned | internal/ingestion/signature.go:31-111 | verifying a header made by any signer is stale outside the window, else accepted exactly if both sides compute the same code |
| Signature.SignThenVerify | internal/ingestion/signature.go:31-111 | for every time and limit, signing then verifying with the same non-empty secret succeeds exactly if the age test does not fire |
| PayloadDiff.AddedAndChanged | internal/delivery/engine.go:402-412 | added is the restriction to new keys; each key on both sides whose renderings differ is listed once with both values |
| PayloadDiff.RemovedFields | internal/delivery/engine.go:413-417 | removed is the restriction to keys that are gone |
| PayloadDiff.ComputeDiff | internal/delivery/engine.go:395-417 | the three parts together form the difference |
| PayloadDiff.DiffTakesPreviousToCurrent | internal/delivery/engine.go:395-417 | applying the diff to the previous payload gives the current keys and equal renderings |
| PayloadDiff.DiffPartsDisjoint | internal/delivery/engine.go:398-417 | added, removed and changed keys are disjoint |
| PayloadDiff.EmptyDiffIff | internal/delivery/engine.go:395-417 | the diff is empty if and only if keys and renderings agree |
| CodeFences.StrippedIsClean | internal/extraction/cleanup.go:11-39 | for every input the result is trimmed and has no fence |
| CodeFences.StripIdempotent | internal/extraction/cleanup.go:11-39 | stripping twice is stripping once |
| CodeFences.UnfencedKept | internal/extraction/cleanup.go:12-30 | without a fence the answer is only trimmed |
| CodeFences.UnclosedFenceRecovered | internal/extraction/cleanup.go:26-38 | of a fence that is never closed everything after its line is kept |
| CodeFences.InlineFence | internal/extraction/cleanup.go:26-38 | with everything on one line, the text between the fences is kept |
| CodeFences.FencedTextRecovered | internal/extraction/cleanup.go:26-38 | any trimmed fence-free text is recovered from its fenced form with any tag, any preamble that does not look like JSON and any text behind |
| CodeFences.LeadingJsonKept | internal/extraction/cleanup.go:17-24 | text that starts like JSON is kept up to the first fence after it, whatever follows |
| Docx.FlushParagraph | internal/extraction/docx.go:83-92 | extends the joined lines by one paragraph, right-trimmed and skipped when empty |
| Docx.ParseDocumentXML | internal/extraction/docx.go:76-131 | the newline-join of the non-empty right-trimmed paragraph texts, the trailing unclosed one included; an error for a malformed stream |
| Docx.DocumentText | internal/extraction/docx.go:76-131 | for the token stream of any list of paragraphs of text runs, tabs and line breaks, the text is the newline-join of the paragraphs that are more than blanks, right-trimmed, with a tab and a newline for tab and break |
| Docx.LinesAppend | internal/extraction/docx.go:83-92 | the lines of two lists of paragraphs are those of the first and then those of the second |
| Docx.OneLine | internal/extraction/docx.go:83-92 | a paragraph gives its right-trimmed text as a line, or none if it is blank |
| Docx.ReadToken | internal/extraction/docx.go:103-124 | a token other than a paragraph end sets the text flag and adds its piece |
| Docx.OneToken | internal/extraction/docx.go:103-124 | what one token does to the closed paragraphs, the open one and the text flag |
| Fingerprint.ClassifyBlock | cpp/src/fingerprinter.cpp:10-39 | header above 15 hundredths, footer below 90, between them label exactly for a final colon or 2 to 29 characters without a lower-case letter, else value |
| Fingerprint.NormaliseBlocks | cpp/src/fingerprinter.cpp:56-66 | every block with its page-relative rounded coordinates, in order |
| Fingerprint.NormalisedAt | cpp/src/fingerprinter.cpp:59-64 | horizontal measures are divided by the page's width, vertical ones by its height, and rounded to hundredths |
| Fingerprint.PrintSignature | cpp/src/fingerprinter.cpp:74-92 | the segments of the sorted blocks joined by vertical bars |
| Fingerprint.ComputeFingerprint | cpp/src/fingerprinter.cpp:45-92 | empty for degenerate input, else the hash of the signature of a permutation of the normalised blocks, ordered by y and then x |
| Fingerprint.SignatureTells | cpp/src/fingerprinter.cpp:74-92 | two sorted lists have the same signature if and only if they agree throughout in class, rounded place and rounded width |
| Fingerprint.FixedShape | cpp/src/fingerprinter.cpp:86-89 | a coordinate is printed as its value with two decimal places |
| Fingerprint.SegmentExample | cpp/src/fingerprinter.cpp:82-89 | how a block is printed |
| Fingerprint.SignatureExample | cpp/src/fingerprinter.cpp:84-89 | segments are separated by vertical bars |
| Fingerprint.OrderIrrelevantIff | cpp/src/fingerprinter.cpp:68-92 | all ordered permutations have the same signature if and only if blocks with the same rounded position print alike |
| Fingerprint.SignatureIgnoresBlockOrder | cpp/src/fingerprinter.cpp:68-92 | permuting the normalised blocks does not change the signature when ties print alike |
| Fingerprint.PageOrderIrrelevant | cpp/src/fingerprinter.cpp:45-92 | permuting the input blocks does not change the signature when no two rounded positions coincide |
| Fingerprint.DisagreeingTies | cpp/src/fingerprinter.cpp:68-92 | two tied blocks that print differently give two ordered permutations with different signatures |
| Fingerprint.TextOnlyThroughClass | cpp/src/fingerprinter.cpp:68-92 | blocks that agree one by one in place, width and class of text have the same signature after any sorts of the two lists, when ties print alike |
| Fingerprint.PageTextOnlyThroughClass | cpp/src/fingerprinter.cpp:45-92 | on pages: exchanging texts for others of the same class does not change the signature, when ties print alike |

## Left out

- HTTP servers and clients, gRPC, MinIO, and the drivers of Postgres, Scylla and Redis: only the list and table contracts the logic relies on are modelled.
- Rate limiting, worker autoscaling, metrics, configuration, the dashboard and the language-model, speech, OCR and PDF calls: plumbing or foreign code.
- Destination resolution by routing rules and file-type detection: an abstract set of destinations per event, and a parameter.
- Cloud extraction backends and their fallback: only the answer they give is modelled.
- JSON at the level of text, and that decoding undoes encoding an event: nothing proved here needs it. Bodies are parsed values or opaque text, and storing a schema and loading it again gives it back.
- Times stored in schemas and drift rows, log lines and published notifications.
- Coordinates are real numbers, rounding is exact, and a negative zero prints like zero.
- The algorithm of `std::sort`: the model uses one ordered permutation and the lemmas speak of all of them.
- Stopping in the middle of a service other than delivery: `Pipeline` covers runs in which the orchestrator and the extraction workers do not crash.
- Broadcasts that overlap: one goroutine calls `Broadcast` (cmd/sse/main.go), and registration excludes it by a lock, so each call is one step.
- The polling loop of `StartReplay` may go on forever, so the engine is a step machine over its database calls instead of a method with a loop.
- A request handler with no queue configured.
- Connecting to Redis and its ping, and a recovery query that fails, which ends the pass at once.
- SchemaInference.TruncateExample: an example cut inside a multi-byte character is stored as it is, where storing it as JSON replaces the broken character.
- Signature.VerifySigned: the code that was signed must not be empty (HMAC-SHA-256 gives 32 bytes), and the seconds-to-time conversion is exact, where Go's wraps near the ends of the 64-bit range; the same for `SignThenVerify`.
- DeadLetters.ListedCanBeRetried: its condition on the past is sufficient only; exact conditions on the present state are those of `EndsFindableIff` and the other if-and-only-if members.
- RecoveryBackoff.RecoveredAfterBackoff: a goroutine's own wait may take any time in the model, so what holds for all runs covers every real schedule; the runs given as examples keep the real waits.
- RecoveryProofs.NothingVanishes: a store that fails while the service runs, other than for unresolved destinations, is not modelled in the recovery machine.
