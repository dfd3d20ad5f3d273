# Hookyard, modelled and proved

Hookyard accepts events, fans them out to subscribed endpoints and delivers them as webhooks. It is four Go services
around PostgreSQL tables and Kafka topics. Its hard part is a set of concurrent protocols, each a handful of SQL
statements and a few branches of Go: a delivery queue with leases, retries and replays, idempotent ingestion with an
outbox, a leased outbox relay, a versioned read model, keyset paging, and the life of tenants and API keys.

This project models those protocols and proves what they keep.

## How to read it

* **Transactions are steps.** Each committed transaction is a function from tables to tables (`RecordAttempt`,
  `Inserted`, `Published`, …). A class `Repository` in the module of each service carries the same transaction out
  statement by statement, as the Go code does, on its own copy of the table, and is proved equal to the function. The
  *worlds* interleave the functions: `DeliverySystem`, `EventIngestion`, `EventPipeline`, `OutboxRelay`, `ApiKeys` and
  `Scheduling` each have a state, a datatype of actions, a predicate for when an action is possible, and runs.
  `DeliveryTicks`, `RelayTicks`, `IngestionSteps` and `KeySteps` close the circle: what the classes do, call by call, are
  the steps of the worlds.
* **Workers are slow, crash and report late.** A worker holds copies of the rows it claimed. A result may be recorded at
  any later time, also after another worker has taken the row over, or never: a crash, a secret that does not decrypt
  and a failed transaction are all lost claims.
* **What the database and the outside decide is a parameter.** The rows a query returns, the order in which it visits
  them, new UUIDs, random draws, both clocks (the database's and the worker's), the webhook's outcome, whether a secret
  decrypts and what the broker did are arguments, constrained only by what SQL and the libraries promise. Claim queries
  may skip any rows as locked.
* **Times** are integers in nanoseconds; a zero time is Go's zero `time.Time`.

| file | what it holds |
|---|---|
| `Basics.dfy` | options, results, finite sets and sums |
| `DeliveryModel.dfy`, `DeliveryTables.dfy` | the delivery service's records, and its transactions as functions |
| `DeliveryRepositories.dfy` | the same transactions and the service's methods as classes |
| `DeliverySystem.dfy` | many workers: worlds, steps, runs and the invariant of every reachable world |
| `DeliveryOutcomes.dfy`, `AttemptBudgets.dfy`, `DeliveryDrain.dfy`, `ReplayForest.dfy`, `ClaimFairness.dfy` | what every run guarantees |
| `DeliveryLaws.dfy` | every claim and every change of a row or attempt, column by column, in every run |
| `DeliveryTimes.dfy` | the times in rows and attempts, in every run |
| `BackdatedRetry.dfy` | the run on which fairness fails |
| `DeliveryTicks.dfy`, `RelayTicks.dfy`, `IngestionSteps.dfy`, `KeySteps.dfy` | what the classes do are the steps of the worlds |
| `ClaimQuery.dfy`, `KeysetPaging.dfy`, `Backoff.dfy`, `RetryWaits.dfy`, `Scheduling.dfy` | the claim query, paging, retry delays and what they add up to, the scheduler |
| `EventIngestion.dfy`, `EventPipeline.dfy` | accepting and publishing events; the whole path from request to delivery |
| `OutboxRelay.dfy`, `SharedRelayName.dfy` | the endpoint service's leased outbox, and the run on which its guard fails |
| `EndpointCatalog.dfy`, `EventTypeValidation.dfy`, `EndpointProjections.dfy`, `SourceToProjection.dfy`, `FanOutTheorems.dfy` | endpoints, their projection, and the fan-out that reads it |
| `ApiKeys.dfy` | tenants and keys |

## Where the code and the intent differ

The model follows the code, except where two parts of it do not fit together; there it takes the stated intent:

* Fan-out names `ON CONFLICT (event_id, endpoint_id)`, but the only such index is partial and covers originals
  (delivery-service/migrations/001_init.sql:57-59). The conflict is taken to be "an original exists".
* The event publisher nests the fields that the consumer reads at the top level. One abstract message carries event,
  tenant and type.
* `enqueueChanged` is commented out. Each effective change of an endpoint is taken to send its snapshot.
* `Patch` and `Delete` read without a row lock. Histories of an endpoint are serial; this is a hypothesis.
* `ClaimBatch` updates while its query is still open. The loop is one transaction.

And the code itself holds some surprises, which are proved rather than smoothed over:

* The configured lease is ignored: a delivery is always leased for thirty seconds.
* A late result is always recorded, but moves the row only if it is `IN_PROGRESS` at that moment, whoever holds it
  (`RecordingMovesOnlyInProgress`). A late success can therefore leave a delivery `RETRYING`.
* Claims are fair except for one kind of step: a late report whose retry time lies in the past. `OvertakenExactly` says, for
  every step and every delivery that is past due, exactly when it is overtaken, and `BackdatingIsReachable` is a complete
  run of ten steps in which one is.
* The projected subscriptions follow the last message, not the highest version. `AnswersAreTheLatest` gives the exact
  condition, `LateSnapshotRevivesSubscriptions` the smallest failure.
* The first caller of `CreateEvent` gets the event without its creation time; later callers get it with. So repeated calls
  agree up to that field, and `RepliesAgree` says exactly when they agree in full.
* The backoff type `fixed`, which the schema allows, grows exponentially (`FixedIsFixedOnlyAtTheCap`).
* A cursor that carries the zero time leads back to the first page (`ZeroTimeStartsOver`).
* A key whose creation straddles the deletion of its tenant stays `ACTIVE` in the table, but never verifies
  (`StraddlingInsertLeavesAnActiveKey`, `DeletedTenantsHaveNoKeys`).
* The relay's guard compares worker names. A relay whose message was taken over under another name is shut out until
  it claims the message again (`TakeoverShutsOut`). But the service starts every relay under one fixed name, and relays that share a name are not shut
  out: `SharedNameUndoesALease` is a run in which one undoes the other's lease.

## Model

| member | source | states |
|---|---|---|
| `DeliveryRepositories.Repository.CreateDeliveries` | delivery-service/internal/delivery/repository.go:31-85 | the loop inserts, in one transaction, a pending row for each endpoint that has no original yet: exactly the fan-out |
| `DeliveryRepositories.Repository.ClaimBatch` | delivery-service/internal/delivery/repository.go:87-157 | every row the query answered was due: PENDING or RETRYING and its time come, or IN_PROGRESS under an expired lease; it is leased to this worker for 30 s, its count raised and its times stamped, and no other changes; the copies handed out carry the raised count but the old status and lease |
| `DeliveryOutcomes.OnlyItsTenantFindsIt` | delivery-service/internal/delivery/repository.go:159-181 | what Get finds, over any run: from its creation on a delivery is found by its own tenant, with the order it was created with, and never by another |
| `DeliveryRepositories.Repository.RecordAttemptAndTransition` | delivery-service/internal/delivery/repository.go:183-236 | each violated constraint exactly in its case, and then neither table changes; otherwise the attempt is added with its result and times, and a row still IN_PROGRESS moves by result, number and max_attempts, is stamped now, unlocked, and completed now unless it is to be retried |
| `DeliveryRepositories.Repository.CreateReplay` | delivery-service/internal/delivery/repository.go:238-253 | exactly one row appears, with the original's tenant, event, endpoint, payload and snapshot and a link to it; it is pending, due at once and never attempted, and every other row stays |
| `DeliveryRepositories.Repository.List` | delivery-service/internal/delivery/repository.go:255-344 | refused exactly for a bad status or cursor; else only deliveries of this tenant with the status, endpoint and event asked for, older than the cursor, newest first; one of these that is not shown is older than all that are, the page is full and a cursor given |
| `DeliveryRepositories.Repository.ListAttempts` | delivery-service/internal/delivery/repository.go:346-399 | refused exactly for a bad cursor, not found exactly for a delivery the tenant does not own; else the next attempts in order |
| `DeliveryRepositories.Service.HandleEventAccepted` | delivery-service/internal/delivery/service.go:33-50 | refused exactly for a missing id, type or payload, and then nothing changes; otherwise the fan-out |
| `DeliveryRepositories.Service.Deliver` | delivery-service/internal/delivery/service.go:56-84 | an undecryptable secret changes nothing; otherwise the result is recorded with a retry time exactly when the copy has attempts to spare |
| `DeliveryRepositories.Service.Replay` | delivery-service/internal/delivery/service.go:86-95 | not found exactly for a delivery the tenant does not own; replayed if and only if it is FAILED or DLQ, and then the only change is a pending row with its order and a link to it |
| `DeliverySystem.FanOutAdds` | delivery-service/internal/delivery/repository.go:38-84 | fan-out leaves every existing row alone, adds only pending rows under the new ids and keeps one original per event and endpoint |
| `DeliverySystem.ReportIsAccepted` | delivery-service/internal/delivery/repository.go:190-235 | recording a claim in flight violates no constraint, adds its attempt and moves at most its own row, and only from IN_PROGRESS |
| `DeliverySystem.StepKeepsInv` | delivery-service/internal/delivery/repository.go:31-253 | each transaction keeps lease, completion time and status in step, attempt numbers partitioned, copies true, statuses backed and originals unique |
| `DeliverySystem.InvAlways` | delivery-service/internal/delivery/repository.go:31-253 | so every world any run can reach has all of these, with any number of workers, crashes and late results |
| `DeliveryOutcomes.RunEvolves` | delivery-service/internal/delivery/repository.go:132-137 | over any stretch of any run rows and attempts are never lost, orders and links never change, counts never fall, final rows never change |
| `DeliveryOutcomes.OrderNeverChanges` | delivery-service/internal/delivery/repository.go:219-231 | nothing changes a delivery's tenant, event, endpoint, URL, secret, policy or payload once it exists |
| `DeliveryOutcomes.FinalIsAbsorbing` | delivery-service/internal/delivery/repository.go:219-231 | DELIVERED, FAILED and DLQ rows stay exactly as they are in every later world, whatever reports arrive |
| `DeliveryOutcomes.FinalIsJustified` | delivery-service/internal/delivery/repository.go:191-232 | DELIVERED has a success on record, FAILED a permanent failure, DLQ a retryable failure numbered at least max_attempts; a lease exists exactly in IN_PROGRESS, a completion time exactly in final states |
| `DeliveryOutcomes.RecordingNeverFails` | delivery-service/internal/delivery/repository.go:208-235 | in every reachable world no claim in flight can hit the unique attempt number, the foreign key or a missing retry time |
| `DeliveryOutcomes.AttemptsAreConserved` | delivery-service/internal/delivery/repository.go:132-143 | the numbers 1..attempt_count are split exactly, without overlap, into recorded attempts, claims in flight and claims lost |
| `DeliveryOutcomes.RecordingMovesOnlyInProgress` | delivery-service/internal/delivery/repository.go:219-231 | a report is always on record and changes its row if and only if it is IN_PROGRESS, then to the status the copy calls for |
| `DeliveryTimes.TimelyAlways` | delivery-service/internal/delivery/repository.go:132-229 | in every reachable world rows are created before they change and change before now, a pending row waits from its creation, a lease runs 30 s from the last claim, a final row changed last when completed, and the latest attempt began when its row was claimed |
| `DeliveryLaws.ClaimedOnlyWhenDue` | delivery-service/internal/delivery/repository.go:99-101 | in any run a claimed delivery is not locked and is PENDING or RETRYING with next_attempt_at not after now, or IN_PROGRESS with a lease that ended before now |
| `DeliveryLaws.DueIsClaimed` | delivery-service/internal/delivery/repository.go:99-104 | and a claim with room takes every such delivery that is not locked |
| `DeliveryLaws.ClaimsGoInOrder` | delivery-service/internal/delivery/repository.go:102-104 | claims go by next_attempt_at, then created_at, within a batch and between it and the due, unlocked rows left behind, of which there are none unless it is full |
| `DeliveryLaws.RetriesWait` | delivery-service/internal/delivery/service.go:72-83 | after a report has put a delivery off until a retry time, the next claim of it, by whoever and however much later in the run, comes no earlier |
| `DeliveryLaws.EveryChangeOfARow` | delivery-service/internal/delivery/repository.go:132-231 | in any run a row changes if and only if it is claimed, or a result is recorded while it is IN_PROGRESS; every column is then what the claim, or the result with the number of its attempt and max_attempts, makes it |
| `DeliveryLaws.EveryChangeIsStamped` | delivery-service/internal/delivery/repository.go:227-229 | every change sets updated_at to the time it was made, and a row that becomes final then gets that time as completed_at |
| `DeliveryLaws.EveryNewRow` | delivery-service/internal/delivery/repository.go:44-63 | every new row is pending, due at once, never attempted and stamped now, and is a replay exactly if a replay was written |
| `DeliveryLaws.EveryNewAttempt` | delivery-service/internal/delivery/repository.go:203-214 | every new attempt is the one reported, with its result and completion time; its number was taken by an earlier claim, and it began at that claim by the worker's clock |
| `AttemptBudgets.TakeoversAreCounted` | delivery-service/internal/delivery/repository.go:100-101 | the takeovers the budget speaks of are exactly the claims of a row that was still IN_PROGRESS |
| `AttemptBudgets.MoversAreFew` | delivery-service/internal/delivery/repository.go:193-198 | at most max(1, max_attempts) − 1 recorded attempts ever move a delivery to RETRYING: they have distinct numbers below max_attempts |
| `AttemptBudgets.AttemptBudgetHolds` | delivery-service/internal/delivery/repository.go:94-143 | in every run attempt_count is at most max(1, max_attempts) plus the number of expired leases taken over |
| `DeliveryDrain.PromptRunsAreTidy` | delivery-service/internal/delivery/repository.go:87-236 | when claims are recorded within their lease each delivery has at most one claim in flight, attempts without gaps, all outcomes but the last retryable, and a row that is the fold over its outcomes |
| `DeliveryDrain.DrainUsesWork` | delivery-service/internal/scheduler/scheduler.go:60-78 | each claimed row and each report uses up one unit of a measure that nothing else in a drain changes |
| `DeliveryDrain.DrainAccount` | delivery-service/internal/scheduler/scheduler.go:46-81 | over a whole drain claims, attempts used and work left balance exactly |
| `DeliveryDrain.DrainIsBounded` | delivery-service/internal/delivery/service.go:72-83 | without new work the claims still made are at most the unused sum of max(1, max_attempts), and when they are used up and reported every delivery is final |
| `DeliveryDrain.DrainNeverSticks` | delivery-service/internal/delivery/repository.go:99-104 | while some delivery is not final and none is in flight, a prompt wait makes a row claimable |
| `DeliveryDrain.DrainEndsFinal` | delivery-service/internal/delivery/repository.go:87-236 | over any drain the claims are within the unused budgets, and it is over, with none in flight and nothing to claim however long one waits, if and only if every delivery is final |
| `DeliveryDrain.DrainCanFinish` | delivery-service/internal/scheduler/scheduler.go:46-81 | from every prompt world some prompt drain makes every delivery final, even if all its reports have one outcome, whichever that is |
| `ReplayForest.ForestAlways` | delivery-service/internal/delivery/service.go:86-95 | in every reachable world replay links lead to FAILED or DLQ deliveries of the same order and end in an original, and copies read for a replay are still true |
| `ReplayForest.ReplaysAreAcyclic` | delivery-service/internal/delivery/repository.go:238-253 | no delivery is its own ancestor, and its chain ends at exactly one original |
| `ReplayForest.ChainsShareOneOrder` | delivery-service/internal/delivery/repository.go:244-251 | all deliveries on a chain have one tenant, event, endpoint, payload and snapshot, and all but the newest are FAILED or DLQ |
| `ReplayForest.ReplayedStaysFailed` | delivery-service/internal/delivery/service.go:87-94 | although reading and inserting are two steps, a replayed delivery is FAILED or DLQ in every later world |
| `ReplayForest.OnlyFailuresAreReplayed` | delivery-service/internal/delivery/service.go:91-94 | in no reachable world does a delivery replay one that is DELIVERED or may still become so, and a replay has the tenant, event, endpoint, payload and snapshot of what it replays |
| `ClaimQuery.AnswerExists` | delivery-service/internal/delivery/repository.go:94-105 | the claim query has an answer for every table, limit and set of locked rows |
| `ClaimQuery.ClaimTakesTheLeast` | delivery-service/internal/delivery/repository.go:94-105 | a claim takes as many rows as are due and unlocked, up to the limit, and every one left behind has no earlier next_attempt_at, or the same and no earlier created_at |
| `ClaimQuery.ClaimsAreDisjoint` | delivery-service/internal/delivery/repository.go:99-117 | claims within a lease of each other share no row; past the lease a claim with room takes every unlocked row over |
| `ClaimFairness.OvertakenExactly` | delivery-service/internal/delivery/repository.go:94-105 | a step puts something ahead of a delivery that is past due if and only if it is a report that moves its IN_PROGRESS row to RETRYING at a time that sorts no later than the delivery, when the row sorted after it; then it puts exactly that row ahead |
| `ClaimFairness.NothingOvertakes` | delivery-service/internal/delivery/repository.go:219-231 | so no arrival, replay, claim, expired lease or report that is not backdated puts anything ahead of any such delivery |
| `ClaimFairness.NeverOvertakenExactly` | delivery-service/internal/delivery/repository.go:94-105 | over any stretch of any run no step puts anything ahead of a waiting delivery if and only if none of its reports overtakes it |
| `ClaimFairness.NothingEverOvertakes` | delivery-service/internal/delivery/repository.go:94-105 | over any stretch in which no report overtakes it the set ahead of a waiting delivery only shrinks |
| `BackdatedRetry.BackdatingIsReachable` | delivery-service/internal/delivery/service.go:72-83 | a complete run in which a worker reports with a retry time long past and its row jumps ahead of one that was past due |
| `DeliveryTicks.DeliverOnce` | delivery-service/internal/delivery/service.go:56-84 | in a world with the invariant delivering a claimed copy is never rejected: it records the outcome and moves the row, or loses the claim, and touches nothing else |
| `DeliveryTicks.RunTick` | delivery-service/internal/scheduler/scheduler.go:60-78 | one undisturbed tick through the classes is a run of claim and report steps; every claimed delivery ends recorded and moved, or lost |
| `KeysetPaging.Query` | delivery-service/internal/delivery/repository.go:310-335 | walking the index newest first and stopping at limit + 1 returns the first rows below the cursor |
| `KeysetPaging.PageIsAStretch` | delivery-service/internal/delivery/repository.go:337-343 | everything admitted is on the page or strictly below its last row; there is a next cursor exactly when something is left |
| `KeysetPaging.PageIsNewestFirst` | delivery-service/internal/delivery/repository.go:305-316 | by times and ids: newest first, only rows older than the cursor, and a row left out is older than all shown, with the page full and a cursor given |
| `KeysetPaging.WalkShowsAll` | delivery-service/internal/delivery/repository.go:255-344 | while rows come and go, following the cursors to the end shows no row twice, in strictly descending order, every row that matched throughout, and only rows that matched when shown |
| `KeysetPaging.WalkOfAStillTable` | delivery-service/internal/delivery/repository.go:255-344 | on a table that does not change the joined pages are the whole list, for any limits |
| `KeysetPaging.WalkEnds` | delivery-service/internal/delivery/repository.go:337-343 | on such a table the cursors come to an end |
| `KeysetPaging.ListIsUnique` | delivery-service/internal/delivery/repository.go:315-315 | there is only one list of a set of rows, newest first |
| `KeysetPaging.ListExists` | delivery-service/internal/delivery/repository.go:315-315 | and there is one |
| `KeysetPaging.ZeroTimeStartsOver` | delivery-service/internal/delivery/repository.go:305-308 | the next cursor restarts the listing exactly if the last row shown has the zero time |
| `KeysetPaging.SplitOnce` | delivery-service/internal/delivery/repository.go:277-280 | the cursor text splits into the two parts it was joined from |
| `KeysetPaging.CursorRoundTrip` | delivery-service/internal/delivery/repository.go:272-289 | a cursor is read back as the position it was made from |
| `KeysetPaging.CursorReadExactly` | delivery-service/internal/delivery/repository.go:272-289 | exactly which texts are cursors: the empty one, and those that decode to an instant and an id around one bar; each with the position it is read as |
| `KeysetPaging.FollowedCursorsAreAWalk` | delivery-service/internal/delivery/repository.go:272-343 | chaining List calls through their cursor texts is such a walk, and it has ended exactly when a cursor is empty |
| `KeysetPaging.FollowingCursorsShowsAll` | endpoint-service/internal/endpoint/repository.go:342-416 | so a client that follows the cursors to the end, while rows come and go, sees no row twice, in strictly descending order, every row that matched at each call, and only rows that matched when shown |
| `KeysetPaging.AttemptShownExactly` | delivery-service/internal/delivery/repository.go:362-389 | while attempts are recorded under any number, a client that follows the attempt cursors sees an attempt if and only if it was there when the page covering its number was asked for |
| `KeysetPaging.AttemptsThereAreShown` | delivery-service/internal/delivery/repository.go:350-389 | in particular every attempt above the start that was there at each call; from the default 0 every one, as none is numbered below 1 |
| `KeysetPaging.AttemptsShownRise` | delivery-service/internal/delivery/repository.go:367-389 | and sees the numbers rise strictly, none twice |
| `KeysetPaging.AttemptCursorRoundTrip` | delivery-service/internal/delivery/repository.go:350-361 | an attempt cursor is read back as its number unless that is negative |
| `Scheduling.Configure` | delivery-service/internal/scheduler/scheduler.go:23-31 | concurrency and batch size are positive after the defaults |
| `Scheduling.Tick` | delivery-service/internal/scheduler/scheduler.go:52-78 | a tick that claims within its limit never sends into a full semaphore, whenever workers give slots back |
| `Scheduling.BatchesFit` | delivery-service/internal/scheduler/scheduler.go:46-80 | slots taken and slots the batch may still take fit the channel in every interleaving |
| `Scheduling.NeverOverNeverBlocked` | delivery-service/internal/scheduler/scheduler.go:46-80 | deliveries being made never exceed the concurrency limit, and a claimed one can always start at once |
| `Backoff.NextDelay` | delivery-service/internal/retry/backoff.go:16-43 | the steps of the code compute the delay the bounds below speak about |
| `Backoff.PlainGrows` | delivery-service/internal/retry/backoff.go:21-32 | without jitter the delay never falls from one attempt to the next and stays between the initial delay and the cap |
| `Backoff.PlainRecurs` | delivery-service/internal/retry/backoff.go:21-32 | the delay starts at the initial delay, doubles from attempt to attempt, or for linear grows by the initial delay, and stops at the cap if there is one |
| `Backoff.JitterIsSymmetric` | delivery-service/internal/retry/backoff.go:34-37 | the lowest draw takes the whole percentage off, the middle one nothing, a higher draw never shortens the delay, and opposite draws cancel |
| `Backoff.DelayIsBounded` | delivery-service/internal/retry/backoff.go:34-42 | with jitter it is within jitter percent of the capped delay up to the dropped fraction of a millisecond, never negative, and fits 64 bits of nanoseconds |
| `Backoff.PlainSumClosedForm` | delivery-service/internal/retry/backoff.go:25-32 | the delays of n attempts sum to initial·(2^c − 1) + (n − c)·max, c being those below the cap |
| `Backoff.OneDelayIsBounded` | delivery-service/internal/retry/backoff.go:30-42 | one delay is at most max·(1 + jitter/100) |
| `Backoff.TotalDelayIsBounded` | delivery-service/internal/retry/backoff.go:30-42 | n delays with any draws sum to at most n times that |
| `RetryWaits.TotalWaitIsBounded` | delivery-service/internal/delivery/service.go:72-83 | in every run, with takeovers and late results, a delivery whose workers asked the backoff is put off at most max(1, max_attempts) − 1 times, in all by at most that many times the cap and its jitter share |
| `Backoff.FixedIsFixedOnlyAtTheCap` | delivery-service/internal/retry/backoff.go:22-28 | a policy of type fixed has a constant delay if and only if its cap equals its initial delay |
| `EventIngestion.Repository.CreateEvent` | event-service/internal/event/repository.go:31-155 | an invalid request changes nothing; a key seen by the lookup returns its event, of this tenant; otherwise, unless the key was taken meanwhile, the answer and the stored event carry the type, data, time, source, metadata and tenant of the request, the key leads to it and an outbox row announces it |
| `EventIngestion.Repository.PublishBatch` | event-service/internal/outbox/publisher.go:120-183 | exactly the messages whose send was acknowledged, or failed after reaching it, are with the broker; with the commit each acknowledged row is published now and each other counts an attempt, without it no row changes |
| `EventIngestion.MarkingKeepsMessages` | event-service/internal/outbox/publisher.go:142-180 | marking changes no message, no row outside the batch, and publishes only what was sent |
| `EventIngestion.MoveKeepsInv` | event-service/internal/event/repository.go:41-155 | each phase of each transaction keeps events, keys and outbox rows in correspondence, replies honoured and the broker true |
| `EventIngestion.IngestionIsConsistent` | event-service/internal/event/repository.go:73-151 | after any interleaving events, idempotency keys and outbox rows correspond one to one |
| `EventIngestion.RepliesAgree` | event-service/internal/event/repository.go:41-72 | in every reachable world two replies have one event, up to its creation time, if and only if they have one tenant and key; they are then equal in full if and only if both or neither comes from the call that created the event, or the stored creation time is zero; at most one does |
| `EventIngestion.RepliesStayTrue` | event-service/internal/event/repository.go:165-194 | a reply of a call that found its key is the stored event in every later world, the creator's is that event with the zero time |
| `EventIngestion.StoredWasAskedFor` | event-service/internal/event/repository.go:64-92 | for every idempotency key of every reachable world some earlier call of that tenant with that key carried the type, data, time, source and metadata that the stored event has |
| `IngestionSteps.CreateFinds` | event-service/internal/event/repository.go:41-57 | a call whose lookup finds its key is the world's lookup: it succeeds with the stored event and changes no table |
| `IngestionSteps.CreateInserts` | event-service/internal/event/repository.go:62-155 | a call whose lookup found nothing, some time ago, is the world's insert: it succeeds exactly if the key is still free, and a losing call leaves the tables as they were |
| `IngestionSteps.KeysStay` | event-service/migrations/001_init.sql:25-34 | what a lookup saw is still there, with the same event, whenever its transaction inserts |
| `IngestionSteps.PublishTick` | event-service/internal/outbox/publisher.go:120-183 | a publisher's tick is the world's publication, crash included |
| `EventIngestion.AcceptedIsNeverForgotten` | event-service/internal/outbox/publisher.go:120-183 | an accepted event stays as it is, and its message waits in the outbox or has reached the broker |
| `EventIngestion.PublishedIsFrozen` | event-service/internal/outbox/publisher.go:81-84 | a row once published is never sent for or changed again |
| `EventPipeline.PipelineInvAlways` | delivery-service/internal/delivery/service.go:33-50 | the invariants of ingestion, delivery and replays hold together over the whole pipeline |
| `EventPipeline.OneOriginalPerKey` | delivery-service/internal/delivery/repository.go:38-84 | two originals for one endpoint are one delivery if and only if their events have one idempotency key, under concurrent publishes, duplicate sends and any broker order |
| `EventPipeline.OriginalsFollowTheProjection` | delivery-service/internal/delivery/service.go:33-50 | in every run, with claims, reports, replays and projected changes in between, an endpoint has an original of an event if and only if some message of it was handled while the projection named the endpoint as an active subscriber |
| `EventPipeline.DeliveriesSendWhatWasProjected` | delivery-service/internal/delivery/repository.go:66-77 | every delivery, original or replay, carries its event as accepted and the URL, secret, timeouts and policy the projection held when some message of that event was handled |
| `EventPipeline.DeliveriesCarryTheirEvents` | delivery-service/internal/delivery/repository.go:66-77 | every delivery, original or replay, has the tenant, type and payload of the event that was accepted |
| `EventPipeline.DeliveriesSendWhatWasAskedFor` | event-service/internal/event/repository.go:64-71 | what is sent is what was asked for: every delivery, original or replay, has the tenant, type and data of an earlier request to publish |
| `EventPipeline.DeliveriesHaveOneKey` | event-service/migrations/001_init.sql:25-34 | every delivery goes back to exactly one accepted request of its own tenant |
| `OutboxRelay.RetryDelay` | endpoint-service/internal/outbox/relay.go:78-87 | the clamped power of two |
| `OutboxRelay.RetryDelayIsCapped` | endpoint-service/internal/outbox/relay.go:78-87 | between 1 and 300 seconds, never falling, doubling up to the ninth attempt, capped from the tenth on and not before |
| `OutboxRelay.Repository.Enqueue` | endpoint-service/internal/outbox/repository.go:23-34 | one row appears with this topic, key and payload and no attempt; it is claimable exactly from now on, and every other row stays |
| `OutboxRelay.Repository.Claim` | endpoint-service/internal/outbox/repository.go:38-76 | exactly the rows answered, each unpublished, due and free, are locked for this worker to the end of the lease and count one more attempt; the copies carry their content and the count from before |
| `OutboxRelay.TakesTheOldest` | endpoint-service/internal/outbox/repository.go:44-50 | the query takes only free, due, unlocked rows, oldest first, and leaves one behind only if the batch is full of older ones |
| `OutboxRelay.Repository.MarkPublished` | endpoint-service/internal/outbox/repository.go:79-82 | whoever holds it, content, attempts and every other row stay and this worker no longer holds the row; it is published now and unlocked if the worker held it, and otherwise nothing changes |
| `OutboxRelay.Repository.Release` | endpoint-service/internal/outbox/repository.go:85-88 | content, attempts and every other row stay; if the worker held it the row is unlocked and, if unpublished, claimable exactly from the end of the delay, and otherwise nothing changes |
| `OutboxRelay.Repository.Flush` | endpoint-service/internal/outbox/relay.go:50-76 | an undisturbed tick publishes each message whose send was acknowledged and puts each other off by a delay that follows its attempts; no other row changes |
| `OutboxRelay.InvAlways` | endpoint-service/internal/outbox/repository.go:38-88 | in every run with crashes and ambiguous sends copies are true, claims numbered apart, and locks and delays bounded; the lease never changes |
| `OutboxRelay.PublishedIsInTheLog` | endpoint-service/internal/outbox/relay.go:59-74 | a row marked published is in the broker's log with the topic, key and payload it stores |
| `OutboxRelay.CopiesWithinAttempts` | endpoint-service/internal/outbox/repository.go:66-71 | the log never holds more copies of a message than its row counts attempts |
| `OutboxRelay.PublishedIsFrozen` | endpoint-service/internal/outbox/repository.go:47-48 | a published row is unlocked and never changes again |
| `OutboxRelay.UnpublishedIsClaimableAgain` | endpoint-service/internal/outbox/repository.go:47-48 | an unpublished row is claimable once the lease and the longest delay have passed, whoever crashed |
| `OutboxRelay.SettlingNeedsTheLock` | endpoint-service/internal/outbox/repository.go:79-88 | a mark or release changes the table if and only if the row is locked under that worker's name |
| `OutboxRelay.TakeoverShutsOut` | endpoint-service/internal/outbox/repository.go:66-88 | once a relay of another name has claimed the row, every mark and release of the old one, however much later in the run, changes nothing until the old one claims the row again |
| `SharedRelayName.SharedNameUndoesALease` | endpoint-service/cmd/server/main.go:69 | a complete run of two relays under the one name the service uses: the late release of the first undoes the lock of the second, and the message is claimable again long before that lease ends |
| `RelayTicks.TickIsARun` | endpoint-service/internal/outbox/relay.go:50-76 | an undisturbed tick is a run of the world: a claim, then a send and a settling for each message |
| `RelayTicks.FlushTick` | endpoint-service/internal/outbox/relay.go:50-76 | and the repository's tick ends with the table of that run |
| `EndpointCatalog.Repository.InsertSubscriptions` | endpoint-service/internal/endpoint/repository.go:63-67 | the unguarded insert loop: all rows or a violation |
| `EndpointCatalog.InsertsSucceedWithoutRepeats` | endpoint-service/internal/endpoint/repository.go:249-253 | the inserts succeed exactly when the types are distinct and not there yet, and then add exactly those rows |
| `EndpointCatalog.Repository.CreateEndpoint` | endpoint-service/internal/endpoint/repository.go:35-80 | invalid, conflict and missing policy each exactly in its case, without a change; otherwise an active endpoint of version 1 with the name, URL, secret, timeouts and policy asked for and exactly its subscriptions, returned with its event types |
| `EndpointCatalog.Repository.Patch` | endpoint-service/internal/endpoint/repository.go:190-266 | each error exactly in its case, without a change; otherwise each of name, URL, secret, timeouts and policy is the one given or the old one, the version is raised by one, the subscriptions are replaced if given, and the endpoint is returned with its event types and policy |
| `EndpointCatalog.Repository.Merge` | endpoint-service/internal/endpoint/repository.go:211-240 | each field given replaces the stored one, every other stays |
| `EndpointCatalog.Repository.Delete` | endpoint-service/internal/endpoint/repository.go:270-318 | not found and missing policy exactly in their cases; otherwise the endpoint is deleted, its version raised, its other columns kept and its subscriptions dropped; again, and it changes nothing |
| `EndpointCatalog.Repository.GetSubscriptions` | endpoint-service/internal/endpoint/repository.go:320-340 | exactly the tenant's active, undeleted subscribers, each once, in order of id |
| `EndpointCatalog.Repository.List` | endpoint-service/internal/endpoint/repository.go:342-416 | refused exactly for a bad status or cursor; else only endpoints of this tenant with the status asked for (ACTIVE if none is), older than the cursor, newest first, each with its event types; one of these that is not shown is older than all that are, the page is full and a cursor given |
| `EventTypeValidation.EventTypes` | endpoint-service/internal/validation/validation.go:37-55 | refused exactly for an empty list or a type that does not match once trimmed, naming the first such; otherwise the trimmed types without repeats |
| `EventTypeValidation.TrimmedAt` | endpoint-service/internal/validation/validation.go:43-44 | each value checked is the type given at that place, trimmed |
| `EventTypeValidation.RepeatsAreDropped` | endpoint-service/internal/validation/validation.go:48-52 | dropping repeats keeps the set, leaves no duplicate and keeps the order of first occurrence |
| `EventTypeValidation.TrimSpaceCutsTheEnds` | endpoint-service/internal/validation/validation.go:44-44 | trimming cuts the spaces at both ends and nothing else |
| `EventTypeValidation.MatchesExactly` | endpoint-service/internal/validation/validation.go:10 | a type matches exactly if it is one letter or digit and then at most 254 letters, digits, dots, underscores, colons and hyphens |
| `EndpointProjections.Repository.Upsert` | delivery-service/internal/endpoint/projection.go:21-71 | the row is replaced, field by field, only by a higher version; the subscriptions always |
| `EndpointProjections.Repository.GetForEvent` | delivery-service/internal/endpoint/projection.go:73-102 | exactly the active endpoints with a subscription row of this tenant and type, each once |
| `EndpointProjections.ProjectionConverges` | delivery-service/internal/endpoint/projection.go:28-65 | after any messages in any order, with duplicates, the row is that of the highest version and the subscriptions are those of the last message |
| `EndpointProjections.ForEventHas` | delivery-service/internal/endpoint/projection.go:74-82 | what the join selects, for one endpoint |
| `EndpointProjections.AnswersAreTheLatest` | delivery-service/internal/endpoint/projection.go:44-102 | the projection answers for every tenant and type as the latest snapshot would if and only if that snapshot is deleted or the last message has the same event types |
| `EndpointProjections.LateSnapshotRevivesSubscriptions` | delivery-service/internal/endpoint/projection.go:44-65 | two messages in the wrong order leave the new URL subscribed to the old types |
| `SourceToProjection.ValidatedTypesNeverCollide` | endpoint-service/internal/endpoint/repository.go:245-253 | types that went through validation never make the inserts fail, and the rows are the trimmed input's |
| `SourceToProjection.SoundAlways` | endpoint-service/internal/endpoint/repository.go:56-67 | in every serial history versions are sent in order and without gaps, the current snapshot is among them, and deleted endpoints have no subscriptions |
| `SourceToProjection.VersionsCountChanges` | endpoint-service/internal/endpoint/repository.go:240-241 | a change either does nothing or raises one endpoint's version by exactly one and sends exactly one snapshot of it |
| `SourceToProjection.DeletionIsAbsorbing` | endpoint-service/internal/endpoint/repository.go:287-310 | a deleted endpoint never changes and has no subscriptions; deleting it again succeeds, patching it fails |
| `SourceToProjection.ProjectedRowIsCurrent` | delivery-service/internal/endpoint/projection.go:28-46 | however the snapshots were delivered, once the current one was among them the projected row is the endpoint as it is |
| `SourceToProjection.FanOutFollowsTheSource` | delivery-service/internal/endpoint/projection.go:73-102 | if each endpoint's current snapshot came last, an event goes to exactly the subscribers the endpoint service itself names, with their current settings |
| `FanOutTheorems.FanOutCovers` | delivery-service/internal/delivery/repository.go:38-84 | after fan-out an endpoint has an original for the event exactly if it had one or is in the list |
| `FanOutTheorems.CoveredFanOutIsIdle` | delivery-service/internal/delivery/repository.go:64-64 | fan-out to endpoints that all have their originals changes nothing |
| `FanOutTheorems.HandlingFollowsTheProjection` | delivery-service/internal/delivery/service.go:41-49 | one handling goes to exactly the endpoints the projection selects, and creates only pending deliveries that carry the event and the projected settings |
| `FanOutTheorems.HandlingAgainChangesNothing` | delivery-service/internal/delivery/service.go:41-49 | handling an event any number of times leaves what the first handling left |
| `FanOutTheorems.EachSubscriberGetsOne` | delivery-service/internal/delivery/service.go:33-50 | exactly one original for each active subscribed endpoint of the tenant, none for others, earlier rows untouched |
| `FanOutTheorems.NewDeliveriesAreForTheEvent` | delivery-service/internal/delivery/repository.go:66-77 | every delivery so created is pending and carries the event's tenant, type and payload and the projected URL, secret, timeouts and policy of its active endpoint |
| `ApiKeys.Repository.UpdateTenant` | auth-service/internal/repository/repository.go:76-126 | each error, the name conflict included, exactly in its case; otherwise a status given takes effect, a name given takes effect trimmed, and the rest stays |
| `ApiKeys.Repository.DeleteTenant` | auth-service/internal/repository/repository.go:128-169 | the tenant is deleted, also when it was deleted before; each of its active keys is revoked, and no other key changes |
| `ApiKeys.Repository.CreateKey` | auth-service/internal/repository/repository.go:171-216 | each error exactly in its case; otherwise one new active key of an active tenant, with a prefix no other key has, that stores the hash of the token and the scopes and expiry asked for |
| `ApiKeys.Repository.RevokeKey` | auth-service/internal/repository/repository.go:235-245 | an active key of the tenant becomes revoked, with nothing else about it changed; anything else is not found and unchanged |
| `ApiKeys.Repository.Verify` | auth-service/internal/repository/repository.go:247-268 | a key that satisfies the join, or none if there is none |
| `ApiKeys.CheckRequest` | auth-service/internal/service/service.go:57-70 | passes exactly for known, distinct scopes and an expiry in the future; no scopes means the five there are |
| `ApiKeys.CheckScopes` | auth-service/internal/service/service.go:60-67 | the loop passes exactly a duplicate-free list of allowed scopes and names an offending one otherwise |
| `ApiKeys.RunKeeps` | auth-service/migrations/001_init.sql:3-28 | in every run live tenants have different names, keys different prefixes and existing tenants; deleted tenants and revoked keys stay so, and the rest of a key never changes |
| `KeySteps.CreateKeyInWorld` | auth-service/internal/repository/repository.go:188-207 | inserting a key whose tenant was checked earlier is the world's insert, or nothing if its prefix is taken |
| `KeySteps.PendingWasChecked` | auth-service/internal/repository/repository.go:177-186 | every such insert goes back to an earlier check that saw the tenant ACTIVE |
| `KeySteps.RevokeKeyInWorld` | auth-service/internal/repository/repository.go:235-245 | a revocation is the world's, and one that finds nothing changes nothing |
| `KeySteps.DeleteTenantInWorld` | auth-service/internal/repository/repository.go:128-169 | a deletion is the world's, also of a tenant deleted before |
| `KeySteps.UpdateTenantInWorld` | auth-service/internal/repository/repository.go:76-126 | an update that succeeds is the world's with the name cleaned; one that fails changes nothing |
| `ApiKeys.TokenParsesBack` | auth-service/internal/service/service.go:75-76 | a token parses back to its own prefix |
| `ApiKeys.IssuedTokenVerifies` | auth-service/internal/repository/repository.go:257-258 | in every run an issued token verifies to its own key, tenant and scopes, to no other key, exactly while key and tenant are active and it has not expired |
| `ApiKeys.KeysWereIssued` | auth-service/internal/repository/repository.go:188-207 | every key in every reachable world was inserted by an earlier step, whose token its hash is of |
| `ApiKeys.VerifiesExactly` | auth-service/internal/repository/repository.go:247-258 | a text verifies to a key if and only if it is the token issued for it, key and tenant are ACTIVE and the key has not expired |
| `ApiKeys.DeadKeysStayDead` | auth-service/internal/repository/repository.go:235-258 | once a key is revoked or expired or its tenant deleted, no token verifies to it ever again |
| `ApiKeys.DeletionRevokesKeys` | auth-service/internal/repository/repository.go:159-162 | every key a tenant has when it is deleted is revoked in every later world |
| `ApiKeys.DeletedTenantsHaveNoKeys` | auth-service/internal/repository/repository.go:177-205 | nor to any key of a deleted tenant, even one inserted after the deletion |
| `ApiKeys.StraddlingInsertLeavesAnActiveKey` | auth-service/internal/repository/repository.go:177-205 | a key whose check and insert straddle the deletion is ACTIVE in the table |

## Left out

- HTTP handlers, JSON, environment and `main.go` wiring, logging: no stateful property.
- The webhook client: its result is an arbitrary choice of success, retryable or permanent failure. Of a result the model keeps the status and the times; response headers and body, HTTP code, latency and the `last_…` columns only pass through.
- AES-GCM, SHA-256, HMAC, base64url and timestamp text: the hash is taken to be free of collisions, encoders and decoders to be lossless.
- Kafka: a message that reached the broker may be handled any number of times, in any order, or never. The consumer loop can commit past a failed message, so nothing here says that every message is handled.
- PostgreSQL itself: row locks, SKIP LOCKED, unique and foreign keys are the semantics of steps. Only `CreateEvent` and `CreateKey` are split into phases; there is no general proof about isolation levels.
- Liveness and mutual exclusion of workers without the promptness hypothesis of `DeliveryDrain`: they do not hold, because late results clear other workers' leases and undecryptable secrets are claimed again for ever.
- The order in which a relay or the publisher takes the messages of a batch: the worlds allow every order and every prefix, which is more than the code does.
- FanOutFollowsTheSource: supposes that the current snapshot of each endpoint came last; `AnswersAreTheLatest` says exactly what fails otherwise.
- The order in which an endpoint's event types are returned: they are a set, because the order is the database's collation.
- Overflow of the 32-bit `attempt_count` and the 64-bit version, and floating-point rounding in delays (reals and integers are used).
- Lengths of names are counted in characters, as PostgreSQL does; the Go checks count bytes.
- Trimming and upper-casing of status filters: the filter arrives as one of the known statuses, none, or unknown.
- Creating and listing tenants, listing keys, the audit log and `last_used_at`.
- The endpoint service's default retry policies, and its checks of names, URLs and timeouts.
- The number of messages one publisher tick takes, and the `message_id` and aggregate columns of the event outbox.
