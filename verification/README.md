# Verified models of the backend's stateful cores

Dafny 4.11 models of eight parts of a multi-tenant backend, and proofs of what
they promise. `dafny verify dfyconfig.toml` checks everything.

| part | files |
|---|---|
| In-app cluster primary: worker slots, crashes, restart timers, rolling restart, shutdown | `InAppCluster`, `ClusterModel`, `ClusterProofs`, `ClusterTheorems`, `ClusterRolls`, `ClusterReplacements`, `ClusterHistory`, `ClusterShutdown`, class in `ClusterPrimary` |
| Versioned cache with deferred invalidation, and the relay to other processes | `CacheModel`, `CacheFreshness`, `CacheFallback`, `CacheLoads`, class in `VersionedCache`; `InvalidationModel`, `InvalidationGate`, `InvalidationReplay`, `InvalidationPace`, `InvalidationHistory`, class in `CacheInvalidations`; `InvalidationRelay`, `RelayJson` |
| Cluster bus and the in-process caches that ride on it | `BusModel`, `BusProofs`, `BusLosses`, class in `ClusterBus`; `BusCaches`, `BusAnswers`, classes in `MiddlewareCaches` |
| RabbitMQ consumer: retry by republish, confirm, ack | `RabbitModel`, `RabbitProofs`, `RabbitHistory`, class in `RabbitConsumer`; `RabbitRetry`, `RabbitWaits` |
| Transactions and after-commit work on reused pool clients | `TransactionModel`, `TransactionProofs`, `TransactionTheorems`, `TransactionStories`, class in `Database` |
| AI credits: apportionment, usage page, credit month | `Apportionment`, `FairSplit`, `ApportionPoints`; `LedgerMonth`, `UsageCells`, `UsagePage`, `UsageBreakdown`, `UsageTheorems`, `UsageShares`; `CreditModel`, `CreditMonth`, `CreditOutcomes`, class in `CreditRepository` |
| SMTP batch and email outbox | `SmtpBatchModel`, `SmtpBatchProofs`, `SmtpSessions`, `SmtpDeliveries`, class in `SmtpClient`; `OutboxModel`, `OutboxProofs`, `OutboxTheorems`, `OutboxCircuits`, `OutboxOutcomes`, class in `EmailOutbox` |
| SMTP encoders and their readers | `DotStuffing`, `Utf8Base64`, `MimeWords`, `MimeHeaders` |

## How the models are built

A stateful part is a `State`, an `Event` type and a `Step` function; one event is
the code between two awaits, together with the continuations that become runnable
in that turn. Everything the code cannot decide is an event or a parameter: the
clock, answers and failures of Redis, AMQP, SMTP and PostgreSQL, worker processes,
random jitter. `Run` applies any sequence of events and skips those that are not
possible, so a theorem about `Run` is about every reachable state. The classes hold
the source's fields; each of their methods is proved to end in the state `Step`
gives, so what is proved of runs holds for them. Fields that only record history
(messages sent, replies, exit codes, status writes) are kept beside the source's own.

Amounts are exact integers: tenths of a point, micro-USD, ten-billionths of a USD
for a point value, milliseconds.

## Where the code does less than it says

- A second `stop()` of the bus, called while the first still unlistens, resolves
  before the client is released (`BusProofs.SecondStopResolvesEarly`); a `stop()` ends
  with everything released exactly when none before it was unlistening at its call
  (`BusProofs.ResolvedStopHoldsNothing`).
- A reader whose version read failed, and which joins a load started under the same
  fallback version, can return a stale value (`CacheFallback.FallbackVersionMayBeStale`),
  although the comment there says no cached value is read with that version: the open
  breaker excludes a hit in Redis, but not a load in progress. It is stale exactly when
  the load it joins has already run its query without a commit known at the version read
  (`CacheFallback.FreshUnlessItJoinsAStaleLoad`).
- A callback that succeeds on the last retry of a RabbitMQ message, but whose ack
  throws because the channel closed meanwhile, goes the failure path and reaches
  `onFail` (`RabbitProofs.SuccessReachesOnFail`); `RabbitProofs.OnFailAfterTheLastRetry`
  says exactly when `onFail` is reached.
- After `stop()` the bus is unhealthy, but entries cached just before keep their full
  lifetime (`BusCaches.StopKeepsFullLifetimes`); the short lifetimes of an unhealthy bus
  survive `stop()` exactly when every entry was short-lived at the call
  (`BusCaches.StopKeepsLifetimes`).
- A permission or tenant status queried before an invalidation, or before the bus was
  back, and answered after it is cached with the full lifetime
  (`BusCaches.SlowAnswerLivesThatLong`); that happens exactly while such a query is on its
  way (`BusCaches.OldAnswersComeFromRunningQueries`).
- Work registered after its transaction settled, from code that outlived it, runs
  under the next transaction of that client
  (`TransactionTheorems.LateJobRunsUnderALaterTransaction`); such work, and no other,
  never runs under its own (`TransactionTheorems.RunsUnderItsOwn`).
- A result callback that throws on a mail that was sent makes the batch report that
  mail a second time, as failed (`SmtpBatchProofs.ThrowingCallbackReportsTwice`); results
  are one for each mail exactly when no such call throws
  (`SmtpBatchProofs.OneResultPerMailUnlessCallbackThrows`).
- Dot stuffing doubles a dot after a bare carriage return, U+2028 or U+2029, which a
  receiver does not undo (`DotStuffing.ReceiverUndoesDotStuffing`).
- The outbox cooldown of a tenant doubles only while it is still cooling, so only by a
  later slice of the same group (`OutboxCircuits.OnlyLaterSlicesLengthen`,
  `OutboxCircuits.SecondSliceDoubles`); after it expired the next failure opens it with
  the same length (`OutboxCircuits.ExpiredCooldownKeepsItsLength`).
- A month whose plan row is missing is remembered as ensured although nothing was
  inserted, and stays missing until it is forgotten (`CreditMonth.MissingIsCured`).
- The words of an encoded header leave no room for the header's name and for what
  follows them, so lines get longer than section 2 of RFC 2047 allows: for a subject of
  more than 39 bytes (`MimeHeaders.LongSubjectsOverrun`), and for a sender as
  `MimeHeaders.LongSendersOverrun` says.

## Model

The methods of the classes that are not listed are proved in the same way, against the
model's function of their name.

| member | source | states |
|---|---|---|
| ClusterTheorems.SlotStructure | src/config/inapp-cluster-primary.ts:192-253 | In every run, before shutdown each slot has exactly one of a serving worker and an armed restart timer; serving workers are distinct, live and in their own slot; ready means the worker reported ready; at most n + 1 processes live without having been killed |
| ClusterTheorems.ReadySlotStaysReady | src/config/inapp-cluster-primary.ts:386-420 | Before shutdown, no event but the exit of the slot's own serving worker makes a ready slot unready, and its worker was never told to stop |
| ClusterTheorems.RollKeepsCapacity | src/config/inapp-cluster-primary.ts:356-383 | From all slots ready and without such crashes, any number of rolls, failed or not, keeps all n slots served by ready workers |
| ClusterTheorems.ReachInv | src/config/inapp-cluster-primary.ts:145-463 | The invariant behind these holds in every state any run of events reaches |
| ClusterShutdown.ShutdownOnlyShrinks | src/config/inapp-cluster-primary.ts:222-233 | Once shutdown has started no worker is forked or promoted, and `live` only shrinks, whatever the roll was doing |
| ClusterShutdown.ToldAtMostOnce | src/config/inapp-cluster-primary.ts:270-278 | Over roll and shutdown together no worker is sent "shutdown" twice |
| ClusterShutdown.ExitOnceWithHonestCode | src/config/inapp-cluster-primary.ts:287-317 | exit runs at most once; its code is 0 exactly when the deadline never fired, and then all workers are gone; while the deadline is pending some worker lives; the only other code is 1 |
| ClusterShutdown.ShutdownReachesEveryWorker | src/config/inapp-cluster-primary.ts:296-305 | Shutdown reaches every live worker whose channel is open, a half-started replacement included |
| ClusterShutdown.DeadlineKillsTheRest | src/config/inapp-cluster-primary.ts:306-310 | Whoever still lives after the deadline fired was killed |
| ClusterShutdown.ShutdownEndsInTime | src/config/inapp-cluster-primary.ts:306-316 | With timers on time the primary exits within the deadline and two settle times |
| ClusterShutdown.NobodyIsKilledEarly | src/config/inapp-cluster-primary.ts:303-311 | Whatever happens meanwhile, a shutdown kills nobody before its deadline has passed |
| ClusterShutdown.LastAnswerGoesFirst | src/config/inapp-cluster-primary.ts:311-345 | In every run the primary exits only with no roll left unanswered, or a second after its workers were gone or given up |
| ClusterRolls.RepliesAreInOrder | src/config/inapp-cluster-primary.ts:356-383 | Apart from rejections the answers are `accepted`, `slot_replaced` for slots 0, 1, ... in order, then `succeeded` after all n or `failed` naming the first slot not replaced; rolls never overlap |
| ClusterRolls.RejectedRequestChangesNothing | src/config/inapp-cluster-primary.ts:319-324 | A request is rejected exactly when the primary stops, already rolls or has an unready slot, with the first of these that holds as the reason, and then nothing but that answer changes; otherwise it is accepted with the announced time |
| ClusterRolls.RollEndsInAnnouncedTime | src/config/inapp-cluster.logic.ts:171-173 | With timers on time every roll ends within workers x (ready timeout + stop timeout), the time its `accepted` answer announced |
| ClusterReplacements.AcceptedRollBegins | src/config/inapp-cluster-primary.ts:356-366 | An accepted request announces slots x (ready timeout + deadline + 1 s) and turns to slot 0: its replacement is forked with the ready timeout |
| ClusterReplacements.ReadyReplacementTakesOver | src/config/inapp-cluster-primary.ts:386-406 | A replacement that reports ready serves its slot with the time of its fork, no backoff and no armed restart; the worker it replaces is told to stop and has until the deadline, and without one the slot is reported replaced at once and the roll turns to the next |
| ClusterReplacements.ReadyReplacementOfStopping | src/config/inapp-cluster-primary.ts:389-393 | A replacement that reports ready to a stopping primary is stopped again and no slot changes |
| ClusterReplacements.LateReplacementIsStopped | src/config/inapp-cluster-primary.ts:422-434 | A replacement not ready in time is told to stop, with ready_timeout as the reason to come; the slot keeps its worker |
| ClusterReplacements.DeadReplacementFails | src/config/inapp-cluster-primary.ts:389-393 | A replacement that exits before it is ready ends the roll with exited_before_ready, or with shutting_down when the primary stops; the slot keeps its worker |
| ClusterReplacements.DeadlineKills | src/config/inapp-cluster-primary.ts:457-463 | A worker still alive at the deadline is killed and has one more second |
| ClusterReplacements.StopConcludes | src/config/inapp-cluster-primary.ts:406-420 | When the stop is over: an abandoned replacement ends the roll with the reason it was given up for; a replacement that exited meanwhile ends it with replacement_exited; otherwise slot_replaced names who replaced whom, the time to ready, the time to stop and whether that was forced, and the next slot follows, or fails for not being ready, or the roll has succeeded |
| ClusterReplacements.OthersLeaveRollAlone | src/config/inapp-cluster-primary.ts:222-253 | No other event moves the roll or answers |
| ClusterHistory.WorkersKnowTheirStart | src/config/inapp-cluster-primary.ts:204-208 | In every run the start time a slot keeps is that of the event that forked its worker, also after a replacement took over |
| ClusterHistory.CrashedSlotWaits | src/config/inapp-cluster-primary.ts:239-252 | In every run before shutdown the exit of a serving worker leaves its slot empty until a timer armed for the wait its crashes in a row call for, counted from the events alone: since the last replacement, and anew after an uptime of 30 s from the fork |
| ClusterHistory.AnnouncedOnceAllReady | src/config/inapp-cluster-primary.ts:210-220 | In every run the cluster is announced as ready if and only if all its workers have been ready at the same time |
| ClusterHistory.RecordsAreTrue | src/config/inapp-cluster-primary.ts:196-201 | A worker counts as reported exactly from its "ready" on, and as killed exactly from the deadline that passed over it on |
| InAppCluster.NextWorkerRestartDelayMs | src/config/inapp-cluster.logic.ts:99-102 | A first crash or one after a stable uptime waits the initial delay; no wait is above the maximum |
| InAppCluster.BackoffGrowsToItsCap | src/config/inapp-cluster.logic.ts:99-102 | A worker that keeps crashing never waits less than before, and reaches the 15 s cap exactly from its eighth crash on |
| InAppCluster.WorkerLabelsDoNotOverlap | src/config/inapp-cluster.logic.ts:92-96 | Primaries with equally many workers give no number to two workers |
| InAppClusterPrimary.ClusterPrimary.Start | src/config/inapp-cluster-primary.ts:178-185 | Every slot gets its first worker |
| InAppClusterPrimary.ClusterPrimary.OnExit | src/config/inapp-cluster-primary.ts:222-253 | The process is gone; a serving worker leaves its slot empty with a restart armed, or, while stopping, may be the last one awaited |
| InAppClusterPrimary.ClusterPrimary.RollingRestart | src/config/inapp-cluster-primary.ts:319-334 | Rejected with no change, or accepted and the first slot begun |
| InAppClusterPrimary.ClusterPrimary.RollSlot | src/config/inapp-cluster-primary.ts:362-371 | The head of the loop: succeeded after the last slot, failed when stopping or unready, else a replacement is forked |
| InAppClusterPrimary.ClusterPrimary.TakeOver | src/config/inapp-cluster-primary.ts:394-406 | The replacement serves the slot, its restart timer is cleared, and the previous worker is stopped |
| InAppClusterPrimary.ClusterPrimary.Shutdown | src/config/inapp-cluster-primary.ts:287-305 | Restart timers cleared, every live worker told, and the deadline armed; a second call changes nothing |
| InAppClusterPrimary.ClusterPrimary.Handle | src/config/inapp-cluster-primary.ts:145-463 | Each event leaves the class in the state the state machine gives, so what its runs keep holds for the class |
| CacheFreshness.ReturnedValueIsFresh | src/config/cache.ts:198-256 | For any interleaving of readers, writers, joins, late SETs and INCRs in any number of processes: a value returned under a version Redis answered was loaded after every write whose INCR had been applied when that version was read, even with readers on the fallback '0' in the run |
| CacheFreshness.SeenIsTheCounterAtTheRead | src/config/cache.ts:223-230 | What freshness is measured against is the INCRs applied at the version read, and nothing later changes it |
| CacheFallback.FreshUnlessItJoinsAStaleLoad | src/config/cache.ts:204-233 | For any run before and after a miss, with or without answered versions: what the reader returns holds every commit applied at its version read if and only if, at the miss, it does not join a load whose query ran without one of them |
| CacheFallback.FallbackVersionMayBeStale | src/config/cache.ts:231-233 | Under the fallback '0' the guarantee fails: a concrete run returns a value older than an applied INCR, by joining a load |
| CacheLoads.EndedLoadIsNotJoined | src/config/cache.ts:206-220 | In every run from the end of a load on: whoever misses on its key in that process later gets a value whose query saw every commit made before that end, so nobody joins a load whose value was already returned |
| CacheLoads.NobodyWaitsInVain | src/config/cache.ts:206-220 | In every run whoever missed has an answer or waits for a load in flight, and the end of that load answers with the value or the failure |
| CacheLoads.OneLoadAtATime | src/config/cache.ts:206-214 | A miss joins the load of its key in flight in its process, and only without one starts one |
| CacheLoads.LoadedValueIsCached | src/config/cache.ts:183-214 | The value of a load is what a later reader of the key gets from Redis once its SET is applied, until it expires |
| VersionedCache.VersionedCache.GetCacheVersion | src/config/cache.ts:223-234 | Redis' counter, or the fallback 0 when the read fails |
| VersionedCache.VersionedCache.CacheJson | src/config/cache.ts:198-207 | A hit only when reads are allowed and the key is stored; otherwise the reader joins a running load or starts one |
| VersionedCache.VersionedCache.FinishLoad | src/config/cache.ts:216-220 | All who joined return the loaded value and the key is free for a new load |
| InvalidationGate.NoInvalidationIsLost | src/config/cache.ts:115-158 | Whenever cachedReadsAllowed says yes, every earlier bump that missed Redis has a later successful INCR of its key, or was dropped on overflow and every value written up to it has expired; keys may fail again during their replay |
| InvalidationGate.LostOnlyOnOverflow | src/config/cache.ts:115-126 | A miss is dropped exactly when a new key finds 10 000 others waiting; otherwise it is remembered |
| InvalidationGate.FailedAgainStaysPending | src/config/cache.ts:150-153 | A key that failed again while its replay was in flight stays pending when that replay succeeds, and reads stay off |
| InvalidationReplay.ReplayLeavesWhatMissedSince | src/config/cache.ts:136-158 | Whatever happens before and meanwhile, a replay none of whose INCRs fails ends with a key pending if and only if the key missed Redis since the replay started and was not dropped on overflow |
| InvalidationReplay.AllowedWhileNothingMissed | src/config/cache.ts:136-142 | In every run in which no invalidation missed Redis cached reads are allowed |
| InvalidationReplay.AllowedOnceMadeGood | src/config/cache.ts:136-142 | In every run without drops reads are allowed if and only if nothing is pending; after a drop, nothing being pending, they are the longest lifetime later |
| InvalidationReplay.ReplayBringsReadsBack | src/config/cache.ts:136-158 | A replay none of whose INCRs fails brings reads back as it ends, unless a bump missed Redis since it started or some were dropped |
| InvalidationPace.ReplaysAreASecondApart | src/config/cache.ts:143-146 | In every run replays start at least a second apart, however often reads are asked for |
| InvalidationPace.AskingStartsReplay | src/config/cache.ts:143-158 | A second after the last start, asking starts a replay whenever something is pending and none runs |
| InvalidationPace.BatchesAreSmall | src/config/cache.ts:128-153 | In every run a replay waits for at most 50 INCRs at a time |
| InvalidationHistory.EveryMissIsMadeGood | src/config/cache.ts:115-158 | NoInvalidationIsLost with the misses, successes and stored values read off the events: whenever the gate says yes, a bump that had no client or whose INCR failed has had a later INCR of its key succeed, or all values stored before have expired |
| InvalidationHistory.FailedReplayEnds | src/config/cache.ts:147-157 | An INCR of a replay that fails ends the replay and keeps its entry pending |
| CacheInvalidations.CacheInvalidations.RememberPendingInvalidation | src/config/cache.ts:115-126 | The key is pending with a new entry, or everything is dropped at the limit |
| CacheInvalidations.CacheInvalidations.CachedReadsAllowed | src/config/cache.ts:136-158 | The answer, and the pause or the replay it starts |
| CacheInvalidations.CacheInvalidations.ReplayAnswered | src/config/cache.ts:150-155 | A success removes only the entry it replayed; a failure ends the replay and keeps the rest pending |
| InvalidationRelay.FlushInvalidationRelay | src/config/cache.ts:83-99 | The messages hold every queued entry once and in order, each fits, and no two neighbours could have been one |
| InvalidationRelay.RelayedEntriesAreLong | src/config/cache-keys.ts:43-91 | Every entry the code builds takes at least eleven characters of a message |
| InvalidationRelay.ReceiverTakesAll | src/config/cache.ts:109-113 | Whatever namespaces were queued, each message cut from them holds at most 545 entries, so the receiver, which takes 1000, ignores none |
| RelayJson.EntrySizeIsJsonLength | src/config/cache.ts:89 | The size counted for an entry is the length of its JSON text in UTF-16 code units, escapes included, and one more |
| BusProofs.OwnershipAndProgress | src/config/cluster-bus.ts:179-221 | Each client is released at most once; unreleased clients are the connection, the one being set up and those a stop() unlistens; healthy exactly with a connection; a started, unstopped bus is connected, connecting or has a retry armed |
| BusProofs.ResetsFollowHealth | src/config/cluster-bus.ts:153-163 | The reset handlers run once for each change of health and never otherwise, stop() excepted |
| BusProofs.ResolvedStopHoldsNothing | src/config/cluster-bus.ts:231-243 | Whatever happens between the call of a stop() and its end, it ends with every client released if and only if, at the call, no earlier stop() was still unlistening a client |
| BusProofs.SecondStopResolvesEarly | src/config/cluster-bus.ts:236-242 | A concrete run: of two overlapping stop() calls the second resolves before the client is released |
| BusProofs.StoppedForGood | src/config/cluster-bus.ts:180-210 | A stopped bus without an attempt never acquires or holds a client again |
| BusProofs.FlagsMove | src/config/cluster-bus.ts:225-239 | A started, stopped bus stays stopped; stop() before start() changes no health |
| BusLosses.LossIsNoticed | src/config/cluster-bus.ts:153-176 | An error or a failed probe of the current connection releases it, makes the bus unhealthy, runs the reset handlers and arms a retry; of any other client an error only releases it and a probe does nothing |
| BusLosses.BrokenClientIsNeverUsed | src/config/cluster-bus.ts:198-210 | A client that broke, before or after LISTEN answered, is released and in every later run never the connection |
| BusLosses.RetryWaitsGrow | src/modules/ai-chatbot/ai-id/shared/lesson-author-listen-retry.logic.ts:6-14 | In every run the wait before the next attempt is half to all of a ceiling that starts at 1 s, doubles with every failure since the bus last listened, counted from the events, and is 30 s from the sixth on |
| ClusterBus.ClusterBus.ListenAnswered | src/config/cluster-bus.ts:203-218 | A connection with a reset, a release, or a loss, as the flags say |
| ClusterBus.ClusterBus.Lose | src/config/cluster-bus.ts:153-163 | No connection, one more failure, one reset if it was healthy, and a retry unless stopped |
| ClusterBus.ClusterBus.Stop | src/config/cluster-bus.ts:231-243 | Timers gone; the connection is given up at once or after the attempt in progress |
| ClusterBus.ClusterBus.CacheTtlMs | src/config/cluster-bus.ts:275-277 | Never longer than the lifetime asked for; exactly that one while the bus is healthy or disabled; otherwise at most 5000 ms, and shortened no further than to that |
| BusCaches.DegradedCachesAreShortLived | src/middleware/authorize.ts:76-79 | Until stop(): while the bus is unhealthy every permission and tenant entry has at most 5000 ms left, and every entry was set since the last change of health |
| BusCaches.StopKeepsLifetimes | src/config/cluster-bus.ts:231-239 | From stop() on, whatever happens, the bus is unhealthy and every cached answer expires within 5000 ms, if and only if every one did at the call |
| BusCaches.StopKeepsFullLifetimes | src/config/cluster-bus.ts:237-239 | A permission cached by a healthy bus just before stop() keeps its five minutes |
| BusCaches.OldAnswersComeFromRunningQueries | src/middleware/authorize.ts:126-152 | Once a key is forgotten, an answer the database gave before can be cached later if and only if a query for the key is still on its way |
| BusCaches.OldAnswersExpire | src/middleware/authorize.ts:126-152 | With queries of at most d, such an answer is out of use d and the normal lifetime after the key was forgotten |
| BusCaches.SlowAnswerLivesThatLong | src/middleware/authorize.ts:150 | That bound is met by a query that takes d on a healthy bus |
| BusCaches.ForgetsTheConcerned | src/middleware/tenant-context.ts:24-27 | An invalidation forgets exactly the entries it concerns, and stops no query |
| BusCaches.ResetForgetsAll | src/middleware/authorize.ts:79 | Running the reset handlers empties both caches, and stops no query |
| BusCaches.ForgetsExactlyTheUser | src/middleware/authorize.ts:69-74 | Forgetting a user forgets exactly that user's keys |
| BusAnswers.StoredAnswerIsUsed | src/middleware/authorize.ts:132-150 | An answer stored at s with lifetime l is used at t if and only if t < s + l, a tenant that does not exist never, and other keys answer as before |
| BusAnswers.UsedExactlyWhileGood | src/middleware/authorize.ts:132-150 | In every run an answer is used instead of a query if and only if the last event that touched its key, by storing or forgetting it, stored that answer, less than its lifetime ago: 5 min for a permission, 60 s for a tenant, and 5000 ms for either when the bus was unhealthy at that moment |
| BusAnswers.ForgottenAnswersGoOutOfUse | src/middleware/authorize.ts:126-152 | With queries of at most d, every answer used d and the normal lifetime after a key was forgotten was asked for after that |
| MiddlewareCaches.PermissionCache.Forget | src/middleware/authorize.ts:69-74 | The entries of the user, or all of them, are gone and the others stay |
| MiddlewareCaches.PermissionCache.MatrixAllows | src/middleware/authorize.ts:126-133 | Up to the query: an entry of the key answers, with its value, if and only if it expires later than now |
| MiddlewareCaches.PermissionCache.MatrixAnswered | src/middleware/authorize.ts:149-151 | The queried answer is cached with the lifetime of that moment and returned |
| MiddlewareCaches.TenantCache.GetTenantStatus | src/middleware/tenant-context.ts:34-37 | Up to the query: an entry of the tenant answers, with its value, if and only if it expires later than now |
| MiddlewareCaches.TenantCache.TenantAnswered | src/middleware/tenant-context.ts:42-49 | A missing tenant is forgotten, an existing one cached |
| RabbitProofs.NothingIsLost | src/config/rabbitmq/consumer.ts:86-139 | With crashes, lost channels and refused publishes at any step: until the callback succeeded, the JSON was invalid or the fourth failure reached onFail, a ready or unacked copy exists; x-retries stays 0..3; no delivery is settled twice |
| RabbitProofs.DeliveriesEndSettledOrLost | src/config/rabbitmq/consumer.ts:100-137 | In every run a delivery the broker no longer holds was acked or requeued exactly once, or the run lost its channel; a handler that has ended left none with the broker |
| RabbitProofs.OnFailAfterTheLastRetry | src/config/rabbitmq/consumer.ts:103-136 | onFail is reached if and only if a callback ends on its last retry and failed, or succeeded after its channel had gone |
| RabbitProofs.SuccessReachesOnFail | src/config/rabbitmq/consumer.ts:103-136 | A concrete run: three failed attempts, a fourth that succeeds after its channel was lost, and onFail is reached |
| RabbitProofs.FaultFreeDrains | src/config/rabbitmq/consumer.ts:100-139 | Without crashes or refusals there is one copy, at most four deliveries and at most 28 steps, and a step is possible until the message is done |
| RabbitHistory.HeldUntilDone | src/config/rabbitmq/consumer.ts:86-139 | NothingIsLost with its ends read off the events: until a callback succeeds, invalid JSON is delivered, or a callback on the third retry fails or has no channel to ack on, the broker holds a copy |
| RabbitRetry.RetryDelayInRange | src/config/rabbitmq/consumer.ts:41-50 | The wait is within a quarter of the doubling ceiling and never above the maximum |
| RabbitWaits.WaitsComeFirst | src/config/rabbitmq/consumer.ts:108-133 | In every run: with backoff no handler republishes before its wait is over, without it none waits before that; and no handler requeues before it has waited after a refused republish |
| RabbitWaits.FailureStep | src/config/rabbitmq/consumer.ts:103-130 | A handler leaves its callback for a wait, a republish or onFail only when the callback failed or found no channel to ack on; for onFail exactly on the third retry, and for a wait exactly when backoff is asked for |
| RabbitWaits.CeilingDoubles | src/config/rabbitmq/consumer.ts:48 | The ceiling of the wait is the base for the first retry, doubles with each one up to the maximum, and stops growing after the seventeenth |
| RabbitWaits.WaitsOfTheRetries | src/config/rabbitmq/consumer.ts:47-49 | At the middle of the jitter the three retries wait the base, twice and four times the base, up to the maximum; without a base or a maximum there is no wait |
| RabbitConsumer.MessageHandler.OnMessage | src/config/rabbitmq/consumer.ts:86-103 | Invalid JSON is acked, anything else reaches the callback |
| RabbitConsumer.MessageHandler.CallbackDone | src/config/rabbitmq/consumer.ts:102-106 | Success acks; a failure, or an ack without a channel, is handled as a failure |
| RabbitConsumer.MessageHandler.HandleFailure | src/config/rabbitmq/consumer.ts:108-116 | Below the limit a retry, after a wait if asked for; at the limit onFail |
| RabbitConsumer.MessageHandler.PublishAnswered | src/config/rabbitmq/consumer.ts:117-125 | A confirm acks the old copy; a refusal waits |
| Apportionment.PartIsFloorOrCeiling | src/modules/ai-credits/ai-credit.logic.ts:118-119 | Each part is the floor or the ceiling of its exact share, the ceiling only of a share that is not whole |
| Apportionment.NoShareNoPart | src/modules/ai-credits/ai-credit.logic.ts:115-117 | A zero weight, or a zero total, gets a zero part |
| Apportionment.RestIsSmall | src/modules/ai-credits/ai-credit.logic.ts:120 | What is left after rounding down is not negative and smaller than the number of positive remainders, or zero when there is none |
| Apportionment.LargerWeightIsNotBehind | src/modules/ai-credits/ai-credit.logic.ts:121-123 | A larger weight never gets a smaller part |
| Apportionment.EqualWeightsAreClose | src/modules/ai-credits/ai-credit.logic.ts:121-123 | Equal weights get parts at most one unit apart, the earlier one at least as much |
| ApportionPoints.PartsAddUp | src/modules/ai-credits/ai-credit.logic.ts:111-125 | The parts sum to the total, for all totals and weights with a positive sum |
| ApportionPoints.ApportionedAddsUp | src/modules/ai-credits/ai-credit.logic.ts:112-117 | Null totals give nulls; otherwise all parts are numbers that sum to the total, a negative one counting as nothing |
| ApportionPoints.ApportionedIsFair | src/modules/ai-credits/ai-credit.logic.ts:111-125 | The answer itself is fair: each part is the floor or the ceiling of units x weight / sum, whoever is rounded up has a larger remainder than whoever is not, or as large a one and comes earlier, and the parts sum to the total; with no positive weight the first part holds everything |
| FairSplit.OnlyOneIsFair | src/modules/ai-credits/ai-credit.logic.ts:118-123 | These conditions leave exactly one answer |
| ApportionPoints.ApportionedToWeights | src/modules/ai-credits/ai-credit.logic.ts:115-123 | Of the answer itself: a weight that is not positive gets nothing, a larger one never less, and of equal ones the earlier at least as much and at most a tenth of a point more |
| ApportionPoints.OrderIsOrder | src/modules/ai-credits/ai-credit.logic.ts:121-122 | The sorted order lists every index once, by remainder and then by index |
| ApportionPoints.ToppedIsRounded | src/modules/ai-credits/ai-credit.logic.ts:123 | Handing out one unit along the sorted order rounds up exactly the shares with few enough before them |
| ApportionPoints.HandOut | src/modules/ai-credits/ai-credit.logic.ts:123 | The loop over the order, in place: the split defined without sorting |
| ApportionPoints.ApportionPoints | src/modules/ai-credits/ai-credit.logic.ts:111-125 | apportionPoints with all its early returns: nulls for a null total, and otherwise the fair split, said of the returned list itself |
| UsageBreakdown.NearestIsNearest | src/modules/ai-credits/ai-credit.logic.ts:48-52 | Points are the nearest tenth, halves up |
| UsageBreakdown.PointsGrow | src/modules/ai-credits/ai-credit.logic.ts:48-52 | More USD never shows fewer points; points are null exactly without a positive point value |
| UsageShares.PointsAreNearest | src/modules/ai-credits/ai-credit.logic.ts:48-52 | The points of an amount are the nearest tenth of a point to what it is worth at the point value |
| LedgerMonth.ClampedDayIsInMonth | src/modules/ai-credits/ai-credit.logic.ts:99-104 | Whatever the string, the clamped day starts with the month and lies between its first and last day; it is unchanged exactly when it already did; a real day gets a day number the month has |
| LedgerMonth.LastDayIsTheCalendars | src/modules/ai-credits/ai-credit.logic.ts:102 | The last day of a month is the number of days from its first to the first of the next one in the Gregorian calendar, for the month Date.UTC rolls over to |
| UsageCells.GroupedIsExact | src/modules/ai-credits/ai-credit.logic.ts:146-154 | A (group, key) has a cell exactly when a row has it, holding the sum of the rows' positive USD |
| UsageCells.GroupedIsWellGrouped | src/modules/ai-credits/ai-credit.logic.ts:146-154 | The groups are those of the rows, each once and nonempty, with each key once |
| UsageCells.GroupCells | src/modules/ai-credits/ai-credit.logic.ts:146-154 | The loop over the rows computes that grouping |
| UsageCells.SortedIsAscending | src/modules/ai-credits/ai-credit.logic.ts:165 | Distinct keys come out in strictly ascending string order |
| UsageBreakdown.SplitAddsUp | src/modules/ai-credits/ai-credit.logic.ts:164-168 | A split has each key once, and its parts sum to the total |
| UsageTheorems.FeatureDaysAddUp | src/modules/ai-credits/ai-credit.logic.ts:172-176 | The daily points of each listed feature with a daily row sum to its shown points, and are null exactly when those are |
| UsageTheorems.PersonDaysAddUp | src/modules/ai-credits/ai-credit.logic.ts:184-188 | The daily points of each listed person with a daily row sum to their shown points, and are null exactly when those are |
| UsageTheorems.PersonFeaturesAddUp | src/modules/ai-credits/ai-credit.logic.ts:177-183 | A person's per-feature points sum to their shown points and are null exactly when those are, over exactly the features of their rows, each once |
| UsageTheorems.DailyLinesAreRows | src/modules/ai-credits/ai-credit.logic.ts:169-176 | There is a daily line exactly for each feature and clamped day of the rows |
| UsageTheorems.PersonLinesAreRows | src/modules/ai-credits/ai-credit.logic.ts:185-188 | There is a line for each person and clamped day of the rows exactly when the person is listed |
| UsageTheorems.NothingListedTwice | src/modules/ai-credits/ai-credit.logic.ts:173-188 | No (date, feature) and no (date, person) has two lines |
| UsageTheorems.DatesLieInMonth | src/modules/ai-credits/ai-credit.logic.ts:99-104 | Every date on the page lies in the month, for arbitrary rows |
| UsageShares.EveryRowIsShown | src/modules/ai-credits/ai-credit.logic.ts:170-183 | Every feature and person is shown in order, with its calls and the points of its USD |
| UsageShares.FeatureDaysAreFair | src/modules/ai-credits/ai-credit.logic.ts:164-176 | The days of a listed feature, in date order, have the fair shares of its shown points by the USD of their own rows |
| UsageShares.UnlistedFeatureDaysAreFair | src/modules/ai-credits/ai-credit.logic.ts:173-176 | A feature with daily rows only is worth the sum of their positive USD, shared out among its days in the same way |
| UsageShares.PersonDaysAreFair | src/modules/ai-credits/ai-credit.logic.ts:184-188 | The same for the days of a listed person |
| UsageShares.PersonFeaturesAreFair | src/modules/ai-credits/ai-credit.logic.ts:177-183 | The same for the features of a person, in string order |
| CreditMonth.MonthIsConserved | src/modules/ai-credits/ai-credit.repository.ts:86-140 | Over every interleaving of reserve, settle and release: reserved is the sum of the open holds, used the sum of the settled costs, and used + reserved stays within the highest budget plus overdraft holds plus overruns |
| CreditMonth.NeverOverFixedBudget | src/modules/ai-credits/ai-credit.repository.ts:80-85 | With a budget that never changes, that bound is the budget itself |
| CreditMonth.ClampNeverBites | src/modules/ai-credits/ai-credit.repository.ts:120 | With each hold closed once GREATEST(0, ...) takes back exactly what was held |
| CreditMonth.ClosingTwiceLosesAHold | src/modules/ai-credits/ai-credit.repository.ts:135 | A concrete run: closing one hold twice leaves nothing reserved while another is still held |
| CreditMonth.ReserveWithinBudget | src/modules/ai-credits/ai-credit.repository.ts:88-101 | A reservation without overdraft succeeds exactly when the row exists and its free budget covers the cost or nothing is enforced; missing exactly without a row; a refusal changes nothing |
| CreditMonth.MissingIsCured | src/modules/ai-credits/ai-credit.repository.ts:23-48 | Ensuring a missing month creates its row if and only if the process does not remember it as ensured and the plan row exists; after forgetting it, if and only if the plan row exists |
| CreditOutcomes.ReservationOutcome | src/modules/ai-credits/ai-credit.repository.ts:80-102 | In every reached state and for both values of the flag: missing exactly without a row; reserved exactly when there is one and overdraft is allowed, nothing is enforced, or the budget less settled costs and open holds covers the cost; then one open hold with that flag is added, reserved grows by the cost, and budget and used stay; otherwise nothing changes |
| CreditOutcomes.SettlementOutcome | src/modules/ai-credits/ai-credit.repository.ts:117-129 | In every reached state settling takes back exactly what was held and adds the real cost to the used USD |
| CreditOutcomes.ReleaseOutcome | src/modules/ai-credits/ai-credit.repository.ts:131-140 | In every reached state releasing only takes back what was held |
| CreditOutcomes.RecomputeKeepsUsage | src/modules/ai-credits/ai-credit.repository.ts:50-76 | In every reached state a recomputed month has the budget of the plan and all its usage |
| CreditOutcomes.RolledBackMonthIsMissing | src/modules/ai-credits/ai-credit.repository.ts:104-107 | A month whose creation rolled back is missing to reservations, and ensuring it does nothing until it is forgotten |
| CreditOutcomes.RowTellsWhatHappened | src/modules/ai-credits/ai-credit.repository.ts:86-140 | In every run used is the costs of the settlements that happened, and reserved those of the reservations that succeeded less those of the holds closed since |
| CreditRepository.CreditRepository.EnsureCreditMonth | src/modules/ai-credits/ai-credit.repository.ts:23-48 | Creates the row unless remembered, present, or without a plan row, and remembers the month in any case; no other month changes |
| CreditRepository.CreditRepository.RecomputeCreditMonth | src/modules/ai-credits/ai-credit.repository.ts:54-76 | A new budget, usage and reservations kept; nothing changes without a plan row |
| CreditRepository.CreditRepository.ReserveCreditUsd | src/modules/ai-credits/ai-credit.repository.ts:86-102 | The conditional update: missing exactly without a row, always reserved with overdraft, and a reservation adds exactly the cost and leaves budget and used as they were |
| CreditRepository.CreditRepository.SettleCreditUsd | src/modules/ai-credits/ai-credit.repository.ts:117-129 | The hold becomes used USD, and the new totals are returned; null without a row |
| TransactionTheorems.InTimeJobsRunOnceInOrder | src/config/database.ts:124-163 | A job registered before its transaction's work settled runs exactly once, in order, after that COMMIT; never before it, on rollback, or under another transaction of the client |
| TransactionTheorems.JobsAreDistinct | src/config/database.ts:130-132 | No transaction registers a job twice, so running them in order is running each once |
| TransactionTheorems.RunsUnderItsOwn | src/config/database.ts:130-161 | Over every interleaving a job runs under the transaction it was registered in if and only if it was registered before that transaction's work settled |
| TransactionTheorems.CommittedOrRolledBackOnce | src/config/database.ts:142-159 | One COMMIT for a transaction that ended well, one ROLLBACK for one that failed, never both; nested calls add none. TransactionStories says how each ends |
| TransactionTheorems.FailingJobsStopNothing | src/config/database.ts:105-113 | From COMMIT on, in any interleaving and whatever the outcomes: the jobs that ran are the first of those taken, each once and in order; until all ran the next can run, then the call can return, and a call that returned ran all |
| TransactionTheorems.ClientsComeBack | src/config/database.ts:156-159 | With nothing open every client is back in the pool, and only jobs registered too late wait |
| TransactionTheorems.LateJobRunsUnderALaterTransaction | src/config/database.ts:130-132 | A concrete run: a job registered after its transaction settled runs under the next transaction of that client |
| TransactionStories.StoryDecides | src/config/database.ts:139-163 | In every run the phase of a call, and all the log says of it, follow from what happened to it, in order: BEGIN, the work, COMMIT, its jobs, its return; a failure of any of the first three leads to a rollback |
| TransactionStories.FailureIsRolledBack | src/config/database.ts:152-155 | In every run in which BEGIN failed, the work threw or COMMIT failed, the call never commits, runs no job, and once it has returned was rolled back exactly once |
| TransactionStories.CommittedOnlyAfterItsWork | src/config/database.ts:147-155 | In every run a transaction is committed if and only if its BEGIN, then its work and then its COMMIT went well, and rolled back if and only if one of them failed and the rollback has ended |
| TransactionStories.OwnJobsAreTheRegistered | src/config/database.ts:124-133 | In every run the jobs a transaction keeps are exactly those handed to afterCommit in its context after BEGIN and before COMMIT or ROLLBACK was answered, in that order |
| TransactionStories.RegisteredJobsRun | src/config/database.ts:151-162 | When the call has returned, exactly these jobs have run under it, each once and in order |
| TransactionStories.DroppedUnlessCommitted | src/config/database.ts:115-119 | Without a commit none of them has run |
| TransactionStories.OneTransactionPerOutermostCall | src/config/database.ts:142-145 | In every run each outermost call starts one transaction on its own client, and a nested one starts none |
| TransactionProofs.RunKeepsInv | src/config/database.ts:98-163 | The invariant behind these: one open transaction per client, and jobs in time only where their transaction's phase says |
| Database.Database.WithDatabaseTransaction | src/config/database.ts:139-145 | A nested call changes nothing; an outermost one takes a client |
| Database.Database.AfterCommit | src/config/database.ts:124-133 | Run at once outside a transaction, else put on the client's list |
| Database.Database.CommitAnswered | src/config/database.ts:151-158 | The list is taken and forgotten, the client released; or the rollback starts |
| Database.Database.RunCommitted | src/config/database.ts:161-162 | The loop runs every job once, in order, and the call returns |
| SmtpBatchProofs.TransactionsStartClean | src/utils/smtp-client.ts:374-392 | For every behaviour of server, network and callback MAIL is only written right after an accepted AUTH, message or RSET; RCPT, DATA and the message only after the acceptance each needs |
| SmtpBatchProofs.OneResultPerMail | src/utils/smtp-client.ts:411-464 | If the callback never throws, an authenticated call returns one result for each mail taken, in order |
| SmtpBatchProofs.OneResultPerMailUnlessCallbackThrows | src/utils/smtp-client.ts:421-458 | An authenticated call returns one result per mail taken, in order, if and only if none of the first so many calls of the callback throws |
| SmtpBatchProofs.ThrowingCallbackReportsTwice | src/utils/smtp-client.ts:447-450 | A callback that throws on a sent mail makes it count twice, as sent and as failed |
| SmtpBatchProofs.SentMeansAccepted | src/utils/smtp-client.ts:440-450 | The mails reported as sent are exactly those whose message the server accepted, in order, even if the callback throws |
| SmtpBatchProofs.ClosedSessionOnlyReports | src/utils/smtp-client.ts:435-438 | Once the socket is closed nothing is written and every mail left is reported as closed |
| SmtpSessions.NothingInClear | src/utils/smtp-client.ts:374-385 | For every behaviour of server, network and callback: on a port other than 25 and without TLS from the start, AUTH and everything of a mail is written only after an accepted STARTTLS, handshake and repeated EHLO; otherwise neither STARTTLS nor a handshake is written; nothing of a mail before an accepted AUTH; and the greeting comes first |
| SmtpSessions.LogsInOnce | src/utils/smtp-client.ts:384 | A call with any result wrote AUTH exactly once, and it was accepted |
| SmtpSessions.CallOpens | src/utils/smtp-client.ts:374-385 | Every call writes the opening in order up to its first refusal, then at most QUIT; only a session opened completely goes on, and never repeats any of it |
| SmtpDeliveries.MailsGoToTheirRecipients | src/utils/smtp-client.ts:387-392 | Every message written was announced for the recipient of its own mail |
| SmtpDeliveries.RefusedMailStopsNoOther | src/utils/smtp-client.ts:434-464 | As long as the server answers with codes and accepts each RSET every mail of the batch is begun, whichever commands it refuses, and the session ends with QUIT |
| SmtpClient.Recover | src/utils/smtp-client.ts:448-457 | The failure is recorded and an open session reset or destroyed |
| SmtpClient.SendOne | src/utils/smtp-client.ts:434-458 | One turn of the loop |
| SmtpClient.SendSmtpMailBatch | src/utils/smtp-client.ts:411-464 | The whole call as SmtpSessions, SmtpDeliveries and SmtpBatchProofs describe it: the results, whether it returned, and what was written |
| OutboxTheorems.EveryJobHasOneOutcome | src/modules/assignments/email-outbox-delivery.service.ts:270-341 | Wherever sessions throw, time out or close: every claimed job of the groups has exactly one outcome, and sent, retried, failed, skipped and deleted jobs add up to all of them |
| OutboxTheorems.GroupIsHandled | src/modules/assignments/email-outbox-delivery.service.ts:270-341 | One group: each job is written about once and nothing else is, and every counter stays the number of writes it is about |
| OutboxTheorems.SliceIsHandled | src/modules/assignments/email-outbox-delivery.service.ts:294-333 | One slice: each job once, undeliverable ones deleted; the jobs marked as sent are exactly the mails the server accepted, in order |
| OutboxTheorems.AllResultsOrNone | src/modules/assignments/email-outbox-delivery.service.ts:322-333 | The batch gives a result for each job of the slice, or none when connecting or authenticating fails |
| OutboxOutcomes.OutcomesFitTheirJobs | src/modules/assignments/email-outbox-delivery.service.ts:183-205 | Over any groups every status written is about one of their jobs; a failure adds one attempt, and the job is given up if and only if that makes as many as its maximum |
| OutboxOutcomes.OnlyDeliverableMailsAreSent | src/modules/assignments/email-outbox-delivery.service.ts:230-244 | Every message a slice writes is of one of its jobs that was still deliverable, and goes to that job's recipient |
| OutboxOutcomes.SecondResultIsIgnored | src/modules/assignments/email-outbox-delivery.service.ts:301-302 | A second result for a job changes nothing |
| OutboxOutcomes.SliceVerdict | src/modules/assignments/email-outbox-delivery.service.ts:322-339 | A slice is judged by the mails the server accepted and by any infrastructure error of its mails, or by the error of the call |
| OutboxOutcomes.OpensAtTheThreshold | src/modules/assignments/email-outbox-delivery.service.ts:127-165 | Over any verdicts a tenant's circuit counts its infrastructure failures since the last success and is open after one exactly when they reach the threshold; a success forgets it; other tenants' circuits stay, and the counter counts the openings |
| OutboxCircuits.CooldownsAreBounded | src/modules/assignments/email-outbox-delivery.service.ts:127-165 | After any sequence of groups: a tenant cools down only from the failure threshold on, each cooldown is between the first length and the maximum, and none ends later than the maximum from the latest clock reading |
| OutboxCircuits.LengthenedOnlyWhileCooling | src/modules/assignments/email-outbox-delivery.service.ts:134-158 | A cooldown gets longer if and only if an infrastructure failure at the threshold finds it still running below the maximum, and then doubles up to the maximum; one that opens after it expired keeps its length; a success ends it |
| OutboxCircuits.OnlyLaterSlicesLengthen | src/modules/assignments/email-outbox-delivery.service.ts:276-338 | Within a group that is sent, a slice lengthens the cooldown only after an earlier slice of that group opened the circuit |
| OutboxCircuits.SecondSliceDoubles | src/modules/assignments/email-outbox-delivery.service.ts:294-338 | A concrete group: two slices fail and the cooldown doubles |
| OutboxCircuits.ExpiredCooldownKeepsItsLength | src/modules/assignments/email-outbox-delivery.service.ts:134-158 | Two concrete groups: the second fails after the cooldown expired and opens the circuit with the same length |
| OutboxCircuits.CoolingGroupIsReleased | src/modules/assignments/email-outbox-delivery.service.ts:276-282 | While a tenant cools down its jobs are released to the end of the cooldown, in order, and its circuit stays |
| EmailOutbox.EmailOutbox.FilterDeliverable | src/modules/assignments/email-outbox-delivery.service.ts:235-244 | Deliverable jobs kept in order, the others deleted |
| EmailOutbox.EmailOutbox.MarkSlice | src/modules/assignments/email-outbox-delivery.service.ts:301-320 | markResult for every result, then a retry for every job without one |
| EmailOutbox.EmailOutbox.SendSlice | src/modules/assignments/email-outbox-delivery.service.ts:295-339 | One slice, from the filter to the verdict on the circuit |
| EmailOutbox.EmailOutbox.SendSlices | src/modules/assignments/email-outbox-delivery.service.ts:294-340 | The loop over the slices |
| EmailOutbox.EmailOutbox.SendClaimedTenantGroup | src/modules/assignments/email-outbox-delivery.service.ts:270-341 | The whole group: cooldown, missing configuration, or slices |
| DotStuffing.ReceiverUndoesDotStuffing | src/utils/smtp-client.ts:142-144 | A reader by section 4.5.2 of RFC 5321 recovers exactly the CRLF-normalised lines if and only if no dot of the text comes right after a bare CR, U+2028 or U+2029 |
| DotStuffing.NeverEndsEarly | src/utils/smtp-client.ts:305-309 | For every text and whatever follows, the reader stops exactly at the end data() wrote |
| MimeWords.EncodedWordsDecode | src/utils/smtp-client.ts:105-124 | A reader of encoded-words gets back exactly the text |
| MimeWords.ChunksMakeUpValue | src/utils/smtp-client.ts:109-121 | The words hold whole code points, in order, at most 45 bytes each, and none could have taken one more |
| MimeWords.WordsAreShort | src/utils/smtp-client.ts:111-123 | Every word has at most 75 characters, and with the blank of a continuation line at most 76 (section 2 of RFC 2047) |
| MimeHeaders.LongSubjectsOverrun | src/utils/smtp-client.ts:158 | The lines of an encoded subject make up the header, and one has more than 76 characters if and only if the subject has more than 39 bytes |
| MimeHeaders.LongSendersOverrun | src/utils/smtp-client.ts:132-140 | The same for an encoded sender with its address after the words: exactly when the bytes of a single word and the address are too many for one line, or else the first of several words has more than 42 bytes, or the last and the address are too many |
| MimeHeaders.FirstOrLastOverruns | src/utils/smtp-client.ts:105-140 | Of any header of encoded-words only the line with the header's name and the one with what follows the words can be too long |
| MimeWords.EncodeMimeWords | src/utils/smtp-client.ts:105-124 | The loop computes those words |
| Utf8Base64.Utf8Reads | src/utils/smtp-client.ts:112 | UTF-8 is read back |
| Utf8Base64.Base64Reads | src/utils/smtp-client.ts:112 | Base64 is read back |

## Left out

- CacheFreshness.ReturnedValueIsFresh: assumes that Redis never evicts a version key; freshness is relative to the version read, which comes before the gate, so it does not say that every read after a bump returned is fresh.
- InvalidationGate.NoInvalidationIsLost: the clock never goes back, and a value written late counts from when Redis stored it; Redis is configured (otherwise nothing is cached).
- RabbitProofs.NothingIsLost: follows one message; other messages and the prefetch limit only delay it.
- ShutdownEndsInTime and RollEndsInAnnouncedTime: assume that timers fire when due, as stated in their requires.
- OutboxTheorems.EveryJobHasOneOutcome: status writes succeed (each is tried three times); a write that keeps failing makes the result callback throw, whose effect on the batch is in ThrowingCallbackReportsTwice. Job ids are distinct, as database keys are.
- OutboxModel.SendGroup: whether an error message counts as an infrastructure error is a parameter, and groups of different tenants, which share only counters, run one after the other.
- MimeWords.EncodedWordsDecode: text is well formed, so lone surrogates, which UTF-8 replaces, are not covered.
- UsageTheorems.NothingListedTwice: the final order of the two day lists depends on the locale and is not modelled; nothing proved depends on it.
- UsagePage.PointsFromUsd: quotients are exact, where the source divides floating-point numbers.
- CreditMonth.MonthIsConserved: that each hold is closed once is what the token reservation row guarantees; its table is not part of this model.
- The acceptance codes of a command (`SmtpBatchModel.Accepts`) are its definition of acceptance; nothing independent says them again.
- Replay batches of 50 are arbitrary sets of pending entries, so their order is not modelled.
- A worker's "ready" that arrives after its exit event is ignored.
- The claim of outbox jobs, the tick deadline and the workers over tenant groups: a group that is not started writes nothing.
- foldAsciiHeader, sanitizeHeader, the ASCII names of formatAddress, encodeBody and the MIME layout: no reader in the repository to relate them to.
- SmtpSession.readResponse: its result depends on how bytes are cut into chunks; answers are codes here.
- planInAppCluster, parseRollingRestartRequest, aiCreditState, availableMonths and markCreditThreshold: one-branch facts.
- decidePermission, authorize and tenantContext: branching over cached answers.
- Delivery of bus messages to handlers, and PM2 messages: who else hears an event.
- Express routing, validation, logging, SQL text, and the internals of Redis, AMQP, SMTP servers, PostgreSQL and the Node cluster.
