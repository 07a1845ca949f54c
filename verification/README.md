# Redfire Forge companion server: a verified model

Redfire Forge runs API-test workflows. Its companion server parks a workflow that
waits for the outside world under a correlation id and wakes it again when a
direct resume, a webhook callback or a Kafka message arrives, or when it times out,
is cancelled or expires. Around that sit an idempotency cache, three stores, a pool
of API-mock listeners, a live log stream, and a few self-contained algorithms. This
project models those parts in Dafny and proves what they promise, and, where the
code breaks a promise, under exactly which condition it does.

JavaScript runs each callback to completion, so every handler, timer firing and
`await` resumption is one atomic step, and every theorem below is about all
sequences of such steps. The clock is an argument of each step.

`dafny verify dfyconfig.toml` checks the whole project.

## How the model is laid out

| file | models |
|---|---|
| JsMap.dfy, Wrappers.dfy | JavaScript's insertion-ordered `Map`; an optional value |
| Idempotency.dfy, IdempotencyKeys.dfy | the bounded cache of processed requests and its keys |
| CorrelationStore.dfy, SqliteStore.dfy | the in-memory store; the write-through SQLite store and its crashes |
| CorrelationProtocol.dfy | the pause/resume protocol as a state machine: `Step` and `Run` |
| Ledger.dfy | what a log of effects may say, told without the protocol's state |
| ProtocolRefinement.dfy | every run's log is a legal ledger whose balance is the five maps |
| ProtocolTheorems.dfy, WakeUps.dfy, Matching.dfy, Orphans.dfy | the protocol's theorems |
| StepEffects.dfy, WebhookAnswers.dfy, Answers.dfy, Deadlines.dfy | each step's effects and answers, exactly: who is ended and how, what letter goes to whom, what a webhook is answered, what a pause stores and when it ends |
| KafkaRedelivery.dfy, WebhookRepeats.dfy | the same message or webhook arriving again |
| SqliteProtocol.dfy, SqliteServer.dfy | the protocol's calls on the SQLite store; the server over its database, with inserts that throw, crashes and restarts |
| CorrelationServer.dfy | the handlers and the bridge as methods on mutable maps, each proved to do its protocol step |
| MockListener.dfy, MockPool.dfy, StandaloneGroup.dfy | in-flight accounting, port ownership, all-or-nothing group start |
| CssScanner.dfy, CssTokens.dfy, CssSplitter.dfy | the stylesheet scanner, what its flags mean, and the splitter |
| WebhookFilter.dfy | the webhook filter language |
| LogStream.dfy | the log replay buffer and its clients |
| Cidr.dfy, SlaMetrics.dfy, CoverageMerge.dfy | prefix masks, percentiles, coverage merging |

The protocol is proved in two stages. `Ledger` fixes, on effects alone, what may
follow what: an id is paused only when it is not, a removal closes a pause, a
notification is owed by one resuming removal and paid to every party waiting, a
party ends once. Counting lemmas about legal ledgers are then short inductions.
`ProtocolRefinement` shows that every step of the real protocol writes a legal
entry and leaves the ledger's balance equal to the store, the resume queue, the
waiter lists, the bridge callbacks, the parked polls and the armed timers.
`CorrelationServer` is the third layer: the handlers in the source's own form,
refining the steps.

## Where the code does less than it says

- A comment promises that a duplicate webhook gets its cached reply once its
  correlation is no longer paused (`src-server/correlation-handler.ts:676-689`, and
  356, 381-386 for Kafka). Matching leaves its hit in the store, so the guard is never
  taken: `CachedReplyNeverGiven`. A webhook that resumed its workflow and comes again
  after any run that did not pause its id again is answered 404 iff no other paused
  entry matches it: `RepeatedWebhookIsUnknown`.
- `registerResumeWaiter` never looks at the queue, so a bridge can park on an id
  whose resume already lies there: `BridgeMissesQueuedResume`. `ExclusiveExact` says
  that this is the only way for an id to be queued and waited for at once.
- A live callback's id need not be paused. `StaysAttendedExactly` gives the exact
  condition per step: a DELETE of an id that is waited for, a store sweep or a scan on
  the way of a webhook or Kafka message that expires such an id, or a bridge closing
  its own callback on an id that another bridge waits on too. From then on only that
  callback's own bridge ends it, until its id is paused again: `OrphanRun`.
  `OwnEntryImpliesCallback` is the direction that does hold.
- The SQLite store keeps removed rows, so pausing an id again writes memory and then
  throws, over HTTP and in a bridge alike. `RepauseBreaksExactly`: a pause throws iff its
  id is not paused and was removed before, and exactly then `Conservation` stops
  holding; `PausedDeletedPaused` is an instance. `OwnEntryOverSqlite`: iff the bridge's
  pause throws it leaves an entry without a callback. What does hold over every run,
  with throws and crashes, is `ConservationOverSqlite`; without a repause the run is
  the protocol's own (`SiteRunIsRun`, and `RunsOverSqlite` for the store's order). A
  crash loses the expired entries and those whose insert threw, all who waited, and
  the cache, so a message recorded before is not a duplicate after: `CrashForgets`.
- Matching calls an entry dead when `now > timeoutAt`, sweeping when
  `timeoutAt <= now`. The model keeps both tests.
- A record in the idempotency cache that is recorded again keeps its old place.
  `SurvivesExactly`: a key outlives every run of n recordings within its time to live
  iff n is at most its rank. `RerecordedKeepsBoundExactly`: recording a present key
  gives it the bound of a new one iff it ends up last; `RerecordedKeyDiesEarly` is an
  instance. With `maxEntries` 0 the cache still holds one record: `SizeBound`.
- Offsets with a colon can make two Kafka positions share a key:
  `KafkaKeysEqualExactly` says which.
- A filter with ` || ` or ` && ` inside `{{ }}` can recurse without end.
  `DivergesExactly`: a filter never returns iff evaluation, from left to right, comes
  to a piece that still holds a delimiter although none lies outside braces.
  `HiddenDelimiterDiverges` and `UnsplitTerminatesExactly` decide it without the
  payload; `Terminates` covers every filter whose delimiters all lie outside braces.
- `isRunning` of one mock listener is not always right about its sockets.
  `StaysHonestExactly`: a step keeps it right iff it is not a start that finishes while
  the listener has a server or is draining. Over a running server it leaks the old
  socket (`OverlappingStartsLeak`); after a stop it hides the new one until the drain
  ends (`LateListenDenied`). `ApiMockServerPool.start` makes a new listener for each call
  and `commit` requires a running one (`src-server/api-mock/ApiMockServerPool.ts:112-120`,
  145-149), so neither run can come through the pool; both need a caller that starts
  one listener twice.
- In the pool a start can replace the entry of a running server and leave that
  server's listener open for good. `StaysOwnedExactly`: a step keeps every open listener
  reachable iff it is not a start that finishes listening, on a free port, for an id
  whose server runs by then; `AllOwnedExactly` says the same of runs, and
  `MockPool.OverlappingStartsLeak` is an instance. Starts of one id that do not overlap
  suffice (`PoolOwnsAll`), but overlapping ones on one port do no harm either.
- A shorter incoming branch array cuts off the base's tail:
  `NeverLowersWhen` says when that loses hits.
- With a clock set back, the log buffer may hold a line that is too old or have lost
  one that is fresh again. `WindowExactly`: after a broadcast the buffer is the window
  iff no old line stood behind a newer stamp and no line still fresh had been dropped.
  `ClockBackKeepsOldLine` is an instance.

## Model

| member | source | states |
|---|---|---|
| ProtocolTheorems.Conservation | src-server/correlation-handler.ts:208-231 | in every reachable state the successful pauses of an id equal its removals by every cause, plus one if it is still paused; its notifications equal its resuming removals, so no pause is resumed twice |
| ProtocolTheorems.RemovalsByCause | src-server/serverCorrelationBridge.ts:109-180 | the ten causes of removal are told apart and add up; only direct resume, webhook and Kafka notify |
| ProtocolTheorems.SettleOnce | src-server/serverCorrelationBridge.ts:69-119 | no promise settles twice and no poll is answered twice, whichever of notify, resume, cancel, timeout, close or sweep comes first |
| ProtocolTheorems.BridgeConsistency | src-server/serverCorrelationBridge.ts:52-180 | an id is in a bridge's callbacks iff its waiter is in the id's list, there exactly once, iff its promise is unsettled; its timer is armed iff it was paused with a timeout |
| ProtocolTheorems.PollConsistency | src-server/correlation-handler.ts:525-574 | a poll is parked iff registered, once, iff unanswered; no waiter list is ever empty |
| ProtocolTheorems.ExclusiveExact | src-server/correlation-handler.ts:132-136 | from a state where no id is both queued and waited for, a step keeps that exactly when it is not a bridge pause of an id whose resume lies in the queue |
| ProtocolTheorems.PollRunsStayExclusive | src-server/correlation-handler.ts:531-549 | in runs without bridge pauses no id is ever queued and parked at once, and what lies in the queue is the latest payload notified |
| ProtocolTheorems.OnlyWaitsOpen | src-server/correlation-handler.ts:539-549 | only a long poll and a bridge pause ever make a new waiting party |
| ProtocolTheorems.ReachableCoupled | src-server/correlation-handler.ts:111-147 | in every reachable state the maps are the balance of the log of effects |
| ProtocolRefinement.RunAudited | src-server/correlation-handler.ts:111-147 | every run's effects are legal from any coupled state, and leave ledger and maps coupled |
| ProtocolRefinement.StepAudited | src-server/correlation-handler.ts:443-726 | the same for each single step, by route, timer, sweep and bridge call |
| ProtocolRefinement.NotifyAudited | src-server/correlation-handler.ts:116-124 | an owed notification reaches every party waiting for the id and closes each, or lies in the queue when there is none |
| ProtocolRefinement.WakeAllAudited | src-server/correlation-handler.ts:118-121 | calling the waiters in order, while they delete from the maps they live in, closes each of them once and nothing else |
| ProtocolRefinement.BridgeTimerIsClose | src-server/serverCorrelationBridge.ts:111-117 | an armed timer always finds its own callback, so a timeout closes exactly what a cancel would |
| Ledger.PausesConserved | src-server/correlation-handler.ts:472-477 | in any legal ledger, pauses of an id and removals of it differ by whether it is paused |
| Ledger.NotificationsPaid | src-server/correlation-handler.ts:502-514 | in any legal ledger each notification is paid for by exactly one resuming removal |
| Ledger.SettledOnce | src-server/correlation-handler.ts:540-573 | in any legal ledger a party ends at most once and is open exactly while opened and not ended |
| Ledger.SeparateExact | src-server/correlation-handler.ts:132-136 | queue and waiters stay apart exactly until a party opens for an id with unread mail |
| Ledger.MailIsLatest | src-server/correlation-handler.ts:123 | while no opening is blind, the queued payload of an id is the one notified last |
| WakeUps.UnclaimedResumeLies | src-server/correlation-handler.ts:116-124 | a resume by HTTP, webhook or Kafka that finds nobody waiting lies in the queue, stamped now |
| WakeUps.PollGetsLatest | src-server/correlation-handler.ts:532-537 | no lost wake-up: without bridges, whatever runs in between before a sweep reaches back to it, the next poll for an id with a queued resume is answered at once with the latest payload |
| WakeUps.BridgeMissesQueuedResume | src-server/correlation-handler.ts:132-136 | the same fails for bridges: after pause, resume and bridge pause the bridge stays parked beside its resume |
| WakeUps.OwnEntryImpliesCallback | src-server/serverCorrelationBridge.ts:104-120 | if a bridge pauses an id the store did not hold, then over every later run until that entry is removed the entry is there with a live callback |
| WakeUps.HeldStep | src-server/serverCorrelationBridge.ts:60-62 | one step keeps an entry and its callback together unless it removes the entry |
| StepEffects.SettledExactly | src-server/serverCorrelationBridge.ts:109-180 | a step settles a party in a given way iff the party waits and the step is: its own bridge's resume, with that very data; its own cancel; its own armed timer, or its poll's; its bridge's cleanup at or past its deadline; its poll's connection closing |
| StepEffects.RunSettledExactly | src-server/serverCorrelationBridge.ts:109-180 | over every run: a party is settled in a given way iff some step of the run, finding it waiting, is the one that ends it so |
| StepEffects.BridgeResumeResolves | src-server/serverCorrelationBridge.ts:124-134 | a bridge's resume of a live callback resolves its promise once, with the caller's data, and answers true; without one it changes nothing and answers false |
| StepEffects.EndedOnce | src-server/serverCorrelationBridge.ts:69-119 | a party that a step settles or delivers to is ended once by it and waits no more |
| StepEffects.LetterExactly | src-server/correlation-handler.ts:502-521 | a step that resumes answers with the id, execution and workflow of the entry stored under that id, removes it, and notifies once, with the caller's own data, that execution and workflow, and the time; that letter goes to all who wait for the id and nobody else, or into the queue when nobody does; any other step notifies and delivers nothing |
| StepEffects.DeliveredExactly | src-server/correlation-handler.ts:116-124 | a party is delivered a letter iff it waits for the id a step resumes, and the letter carries that step's data: request data, webhook body, or topic, partition, offset, key and value |
| StepEffects.NotifyDelivers | src-server/correlation-handler.ts:116-124 | a notification's effects, in order: itself, then one delivery to each waiter of the id |
| StepEffects.PollIsHanded | src-server/correlation-handler.ts:532-537 | a resume by any route that finds nobody waiting reaches the next poll with exactly its own data, execution, workflow and time |
| Answers.HttpWaitExactly | src-server/correlation-handler.ts:525-549 | the long poll takes the letter lying for its id, or parks last in the id's list |
| Answers.HttpDeleteExactly | src-server/correlation-handler.ts:586-594 | DELETE answers 404 iff the id is not paused, and otherwise takes that entry and nothing else |
| Answers.HttpCleanupExactly | src-server/correlation-handler.ts:606-610 | the cleanup route removes exactly the entries whose deadline has come and the records older than the time to live, and answers the number of each |
| Answers.QueueSweepExactly | src-server/correlation-handler.ts:150-155 | the queue's sweep drops exactly the letters older than 300000 ms |
| Answers.BridgeCleanupExactly | src-server/serverCorrelationBridge.ts:166-180 | a bridge's cleanup takes exactly its callbacks whose deadline has come, with their entries, and answers how many |
| Answers.BridgeClosesExactly | src-server/serverCorrelationBridge.ts:124-150 | a bridge's resume or cancel takes its callback and its entry, and answers whether there was one |
| Deadlines.HttpPauseExactly | src-server/correlation-handler.ts:443-492 | POST pause: 400 iff a required field is missing, 409 iff the id is paused, and else the entry is stored last with every requested field, its defaults, `pausedAt` and deadline `now + timeoutMs` (none without a timeout), which is also the answer |
| Deadlines.BridgePauseExactly | src-server/serverCorrelationBridge.ts:52-122 | a bridge's pause: rejected iff it holds a callback on the id; else its callback and timer carry the deadline, its waiter is last in the list, and the same entry is stored unless the id was paused |
| Deadlines.PauseDeadline | src-server/correlation-handler.ts:208-231 | a stored pause, after any run that does not remove its id, is still what was asked for; a message naming it alone at time t resumes it iff t <= now + timeoutMs, a webhook meets it iff so, and the sweep at t removes it iff t >= now + timeoutMs; without a timeout it never ends so |
| Deadlines.BridgeDeadline | src-server/serverCorrelationBridge.ts:166-180 | a bridge's callback, after any run in which its promise did not end, is taken by the bridge's cleanup at t iff t >= now + timeoutMs |
| Deadlines.MessageDeadline | src-server/correlation-handler.ts:325-345 | a message that names one paused id on its path resumes it up to and including the deadline, and never after |
| Deadlines.EntryStays | src-server/correlation-handler.ts:208-231 | an entry is never changed: after any run that does not remove it, it is the same |
| Deadlines.CallbackStays | src-server/serverCorrelationBridge.ts:60-122 | a callback is never changed while its promise lasts |
| Orphans.StaysAttendedExactly | src-server/correlation-handler.ts:586-610 | from any coupled state where every live callback's id is paused, a step keeps that iff it is none of: a DELETE of an id waited for; a store sweep or an admitted message's scan that expires one; a bridge's resume, cancel, timer or sweep closing a callback on an id another bridge waits on too |
| Orphans.OrphanStep | src-server/correlation-handler.ts:116-124 | one step, unless it is the callback's own bridge closing it, leaves a callback without an entry as it is or pauses its id |
| Orphans.OrphanRun | src-server/serverCorrelationBridge.ts:60-62 | over any run in which its own bridge does not close it, an orphaned callback stays, whatever resumes, webhooks, messages, sweeps and other bridges do, or its id was paused again |
| Orphans.DeleteOrphansCallback | src-server/correlation-handler.ts:586-594 | deleting the id a bridge waits on parks that bridge over every later run, until it ends the wait itself or the id is paused again |
| Orphans.BridgeSweepMeaning | src-server/serverCorrelationBridge.ts:166-180 | a bridge's sweep takes exactly its overdue callbacks, and their ids' entries |
| Matching.ScanMeaning | src-server/correlation-handler.ts:214-230 | a scan finds the first listed match, and expires exactly the dead entries of that path before it, in order |
| Matching.MatchMeaning | src-server/correlation-handler.ts:208-231 | either matcher returns the first entry in insertion order on its path that is unexpired and names itself, deletes exactly the expired ones of that path before it (all of them if none matches), and leaves the match stored |
| Matching.CachedReplyNeverGiven | src-server/correlation-handler.ts:680-689 | the "cached and no longer paused" guards after a match are dead in every keyed state, for webhooks and for Kafka |
| WebhookAnswers.WebhookAnswer | src-server/correlation-handler.ts:637-726 | for an admitted call whose first match is e: 401 iff its token is bad; else resumed iff e has no filter or an empty one or the filter evaluates to valid under the body, 422 iff to invalid, an overflow iff it diverges; e is removed iff resumed, and its id, execution and workflow are answered |
| WebhookAnswers.TurnedAwayExactly | src-server/correlation-handler.ts:663-700 | a matched call is turned away iff its token is bad or its filter does not hold of the body; then the entry it matched is still paused and unchanged, no waiter, queue, callback or poll is touched, only expirations are logged, and the cache is as before or, past the token, after the lookup of the call's own key |
| WebhookAnswers.WebhookUnmatched | src-server/correlation-handler.ts:621-659 | 403 iff not admitted; 404 iff admitted and no paused entry is on the path, within its deadline and named by the call |
| WebhookAnswers.UntrueFilterStaysPaused | src-server/correlation-handler.ts:691-700 | an entry whose filter prints an OR of ANDs is resumed iff some disjunct is all true of the body, and otherwise stays paused behind a 422 |
| WebhookAnswers.KafkaAnswer | src-server/correlation-handler.ts:362-426 | a message resumes the first entry that matches; without one it is a duplicate iff its position has a record within the time to live, naming that record's id, and else no match |
| WebhookAnswers.ResumptionRecorded | src-server/webhook-idempotency.ts:92-111 | what resumed by webhook or message is recorded under its key with status 200, its own answer and the time |
| Matching.RemoveEntriesMeaning | src-server/correlation-handler.ts:219-222 | expiring a list of ids leaves the store restricted to the other ids, in their old order, and nothing else changed |
| KafkaRedelivery.RedeliveryIsDuplicate | src-server/correlation-handler.ts:362-426 | after a fresh message resumed a workflow, redelivering its position within the time to live and after at most `maxEntries - 1` further messages that resumed something, any number of unmatched redeliveries of the same position included, with nothing paused that matches, answers `duplicate` with the same correlation id and touches no waiter, queue or callback |
| KafkaRedelivery.PausedResumedRedelivered | src-server/correlation-handler.ts:362-426 | an instance from a fresh server: one pause, one message that resumes it, the same message again |
| KafkaRedelivery.FreshDeliveryRecorded | src-server/correlation-handler.ts:407-413 | a delivery of an unrecorded position that resumes records its reply as the newest |
| KafkaRedelivery.DeliveryRetained | src-server/webhook-idempotency.ts:74-111 | that record is still found after any such run of the whole server, further redeliveries included |
| KafkaRedelivery.RecordedDeliveryIsDuplicate | src-server/correlation-handler.ts:368-375 | with nothing paused that matches, a recorded position is answered as a duplicate |
| KafkaRedelivery.RunCache | src-server/correlation-handler.ts:370-413 | over any server run the cache is its start after the run's own lookups, recordings and sweeps |
| KafkaRedelivery.CacheBounded | src-server/webhook-idempotency.ts:99-103 | in every reachable state of the server the cache holds at most `maxEntries` records |
| WebhookRepeats.RepeatedWebhookIsUnknown | src-server/correlation-handler.ts:637-659 | a webhook that resumed a workflow and is sent again, at any time and after any run that did not pause its id again, finds its id not paused and is answered as matching nothing iff no other paused entry matches it: never a cached reply |
| WebhookRepeats.PausedResumedRepeated | src-server/correlation-handler.ts:637-726 | an instance from a fresh server: one pause, one webhook that resumes it, the same webhook again |
| Idempotency.SizeBound | src-server/webhook-idempotency.ts:92-111 | over every run the cache never exceeds `maxEntries`, or one record when that is zero |
| Idempotency.Retention | src-server/webhook-idempotency.ts:92-111 | a key absent when recorded survives any `maxEntries - 1` later recordings within its time to live, mixed with any lookups and sweeps |
| Idempotency.EvictionExact | src-server/webhook-idempotency.ts:99-110 | recording another key evicts a key exactly when its rank is used up |
| Idempotency.NewKeyCostsOne | src-server/webhook-idempotency.ts:99-110 | recording a key not in the cache costs each present key exactly one rank, or evicts it at rank 0 |
| Idempotency.SurvivesExactly | src-server/webhook-idempotency.ts:92-111 | a key survives every run of n recordings within its time to live, with any lookups and sweeps, iff n is at most its rank: the bound is tight for every cache and capacity |
| Idempotency.RerecordedKeepsBoundExactly | src-server/webhook-idempotency.ts:105-110 | recording a present key gives it the full bound of a new one iff it was already last, or was the oldest of a full cache and is put back last |
| Idempotency.RecordKeepsRank | src-server/webhook-idempotency.ts:99-110 | one recording costs a surviving key at most one rank |
| Idempotency.SweepKeepsRank | src-server/webhook-idempotency.ts:117-127 | lookups and sweeps never lower the rank of a key that is not stale |
| Idempotency.RerecordedKeyDiesEarly | src-server/webhook-idempotency.ts:105-110 | an instance with room for three: a key recorded again is gone after two more recordings |
| Idempotency.LookupFresh | src-server/webhook-idempotency.ts:74-87 | after any run a lookup answers only with that key's own record, no older than the time to live |
| Idempotency.LookupExactly | src-server/webhook-idempotency.ts:74-87 | a lookup answers exactly a record of that key within its time to live, drops exactly one past it, and never answers the empty key |
| Idempotency.RecordExactly | src-server/webhook-idempotency.ts:92-111 | a recording puts the key's record with its status, body and time, costs at most the oldest other record and only at capacity, and does nothing for the empty key |
| Idempotency.IdempotencyCache.CheckIdempotency | src-server/webhook-idempotency.ts:74-87 | answers the specified lookup and drops a stale hit |
| Idempotency.IdempotencyCache.RecordProcessed | src-server/webhook-idempotency.ts:92-111 | evicts the oldest at capacity, then sets the record |
| Idempotency.IdempotencyCache.CleanupIdempotency | src-server/webhook-idempotency.ts:117-127 | the deleting loop keeps exactly the fresh records, in order, and counts the others |
| IdempotencyKeys.KafkaKeyInjective | src-server/webhook-idempotency.ts:151-157 | different positions never share a key, whatever the topic contains, when offsets hold no colon |
| IdempotencyKeys.KafkaKeysEqualExactly | src-server/webhook-idempotency.ts:151-157 | for all positions, offsets with colons included: two share a key iff they are equal or the colons in one offset let its tail be read as the other position's partition and offset |
| IdempotencyKeys.KafkaNeverCollidesWithWebhook | src-server/webhook-idempotency.ts:50-68 | a Kafka key is never a webhook key |
| IdempotencyKeys.WebhookKeyPrecedence | src-server/webhook-idempotency.ts:50-68 | a non-empty idempotency header decides the key, else a non-empty request id, else correlation id and path; without any there is none |
| IdempotencyKeys.WebhookKeysEqualExactly | src-server/webhook-idempotency.ts:50-68 | two calls with idempotency headers, or two with only request ids, share a key iff these are the same, and the kinds of key never meet |
| IdempotencyKeys.NatTextIsDecimal | src-server/webhook-idempotency.ts:156 | the partition's text is its decimal numeral without a leading zero |
| IdempotencyKeys.ColonOffsetsCollide | src-server/webhook-idempotency.ts:156 | counterexample with a colon in the offset |
| CorrelationStore.InMemoryServerStore.Add | src-server/correlation-store-memory.ts:22-26 | adds unless present, and says which |
| CorrelationStore.InMemoryServerStore.Remove | src-server/correlation-store-memory.ts:28-32 | deletes and returns the entry |
| CorrelationStore.InMemoryServerStore.CleanupExpired | src-server/correlation-store-shared.ts:23-37 | the deleting loop leaves exactly the unexpired entries in order, and counts the rest |
| CorrelationStore.InMemoryServerStore.LogUnmatched | src-server/correlation-store-shared.ts:12-21 | appends and shifts to the last hundred |
| CorrelationStore.UnmatchedLogIsSuffix | src-server/correlation-store-shared.ts:12-21 | after any number of misses the log is the last hundred of all of them |
| SqliteStore.WriteThrough | src-server/correlation-store-sqlite.ts:79-143 | over every run with crashes, an add throws exactly when a removed id is paused again; otherwise memory equals the rows with `resumed = 0` and the in-memory store on every id |
| SqliteStore.CrashRecovery | src-server/correlation-store-sqlite.ts:37-55 | a crash and `init` at time t yields the same map minus the entries with 0 < timeoutAt <= t |
| SqliteStore.SameListing | src-server/correlation-store-sqlite.ts:131-133 | without a crash even the listing order is the in-memory store's |
| SqliteStore.RepauseIsLostByCrash | src-server/correlation-store-sqlite.ts:112-125 | an id removed and paused again hits the primary key, lives in memory, and is lost by the next restart |
| SqliteStore.RowRoundTrip | src-server/correlation-store-sqlite.ts:182-197 | an entry written as a row reads back as itself |
| SqliteStore.CoupledStep | src-server/correlation-store-sqlite.ts:79-143 | each operation keeps memory, rows and reference in agreement until it repauses |
| SqliteProtocol.RunsOverSqlite | src-server/correlation-store-sqlite.ts:79-143 | for every run of the server, its store calls made on a new SQLite database throw iff a removed id is paused again; otherwise the memory map is, in content and order, the store of the protocol's own run |
| SqliteProtocol.StepCallsMeet | src-server/correlation-handler.ts:208-231 | the calls a step makes on its store, replayed on the in-memory store, give exactly the step's own store |
| SqliteServer.ServeExactly | src-server/correlation-store-sqlite.ts:79-125 | at every site reached, a step's `add` throws iff it pauses an id that is not paused and left the store before; otherwise the step is the protocol's own; memory, rows and the past stay in agreement either way |
| SqliteServer.RepauseBreaksExactly | src-server/correlation-store-sqlite.ts:79-110 | one pause by either route, from any reachable state that the database agrees with: the insert fails iff the id is not paused and its row is resumed, and after the step pauses equal removals plus still paused iff it did not fail |
| SqliteServer.ConservationOverSqlite | src-server/correlation-store-sqlite.ts:37-125 | over any run on a new database, failing inserts and crashes included: answered pauses plus repauses of an id equal its removals, the crashes that lost it, and one if it is still paused; notifications equal resuming removals; no promise or poll ends twice |
| SqliteServer.BalancedExactly | src-server/correlation-store-sqlite.ts:79-125 | while the process lives, pauses and removals of an id balance iff it was never paused again after it had left |
| SqliteServer.SiteRunIsRun | src-server/correlation-store-sqlite.ts:79-143 | a run without a repause has exactly the protocol's states and effects |
| SqliteServer.PausedDeletedPaused | src-server/correlation-store-sqlite.ts:79-125 | an instance: every valid id that is paused, deleted and paused again |
| SqliteServer.OwnEntryOverSqlite | src-server/serverCorrelationBridge.ts:104-120 | a bridge pausing an id that is not paused gets a live callback iff the id had not left before; then entry and callback stay together over every later run until the entry is removed, and otherwise the entry has no callback |
| SqliteServer.RestartKnown | src-server/correlation-store-sqlite.ts:37-55 | a restart keeps, unchanged, exactly the paused entries that have not expired and whose insert had not failed, whatever failed before |
| SqliteServer.CrashForgets | src-server/correlation-store-sqlite.ts:37-55 | after any crash the store is that, nobody waits, and a message is answered by its match alone: a position recorded before the crash is no duplicate |
| SqliteServer.ReopenedCoupled | src-server/correlation-handler.ts:111-147 | the restarted process is coupled to the ledger that has only the loaded entries paused, so all step theorems go on holding |
| SqliteStore.SqliteServerStore.Init | src-server/correlation-store-sqlite.ts:37-55 | loads the unexpired unresumed rows and deletes the expired ones, in whatever order the table lists them |
| SqliteStore.SqliteServerStore.Add | src-server/correlation-store-sqlite.ts:79-110 | writes memory, then inserts; the insert of a present key fails after the memory write |
| SqliteStore.SqliteServerStore.Remove | src-server/correlation-store-sqlite.ts:112-125 | deletes from memory and marks the row resumed |
| SqliteStore.SqliteServerStore.CleanupExpired | src-server/correlation-store-sqlite.ts:139-143 | sweeps memory and deletes exactly the swept rows |
| CorrelationServer.Server.NotifyResume | src-server/correlation-handler.ts:116-124 | calls every waiter in order, or queues |
| CorrelationServer.Server.RegisterResumeWaiter | src-server/correlation-handler.ts:132-136 | appends to the id's list |
| CorrelationServer.Server.DeregisterResumeWaiter | src-server/correlation-handler.ts:141-147 | removes the first occurrence, and the list when empty |
| CorrelationServer.Server.CallWaiter | src-server/serverCorrelationBridge.ts:69-75 | one waiter closure: a bridge's callback and timer, or a parked poll, goes |
| CorrelationServer.Server.CleanupResumeQueue | src-server/correlation-handler.ts:150-155 | the deleting loop keeps exactly the queued resumes within their time to live |
| CorrelationServer.Server.MatchEntry | src-server/correlation-handler.ts:325-345 | the scanning loop does the specified match |
| CorrelationServer.Server.RemovePaused | src-server/correlation-handler.ts:502-506 | removes and reports the entry |
| CorrelationServer.Server.HandlePause | src-server/correlation-handler.ts:443-477 | the pause route does its step: 400, 409 or added |
| CorrelationServer.Server.HandleResume | src-server/correlation-handler.ts:495-522 | the resume route does its step |
| CorrelationServer.Server.HandleWait | src-server/correlation-handler.ts:525-549 | the long poll takes a queued resume or parks |
| CorrelationServer.Server.EndPoll | src-server/correlation-handler.ts:551-573 | a parked poll's timer, or its client closing, unregisters it |
| CorrelationServer.Server.HandleDelete | src-server/correlation-handler.ts:586-594 | the delete route does its step |
| CorrelationServer.Server.HandleCleanup | src-server/correlation-handler.ts:606-610 | the cleanup route sweeps the store and the cache |
| CorrelationServer.Server.HandleWebhook | src-server/correlation-handler.ts:618-726 | the webhook callback does its step, through every early return |
| CorrelationServer.Server.ResumeMatched | src-server/correlation-handler.ts:702-722 | the common tail: remove, notify, record |
| CorrelationServer.Server.DispatchKafka | src-server/correlation-handler.ts:362-426 | the Kafka dispatch does its step |
| CorrelationServer.Server.PauseInBridge | src-server/serverCorrelationBridge.ts:52-122 | a bridge pause does its step, ignoring whether the entry was stored |
| CorrelationServer.Server.ResumeInBridge | src-server/serverCorrelationBridge.ts:124-134 | a bridge resume does its step |
| CorrelationServer.Server.CancelInBridge | src-server/serverCorrelationBridge.ts:140-150 | a bridge cancel does its step |
| CorrelationServer.Server.FireBridgeTimer | src-server/serverCorrelationBridge.ts:111-117 | the timeout closure does its step |
| CorrelationServer.Server.CleanupBridge | src-server/serverCorrelationBridge.ts:166-180 | the deleting loop expires exactly the bridge's overdue callbacks |
| MockListener.InFlightExact | src-server/api-mock/ApiMockNetworkListener.ts:386-388 | after every interleaving `inFlight` is the number of requests begun since the last stop or start and not given back, so never negative, and every pending timer is one of them |
| MockListener.LateReturns | src-server/api-mock/ApiMockNetworkListener.ts:467-478 | a delivery or awaited call that outlived a stop or start changes no count; one that did not gives back its own |
| MockListener.DroppedNeverFires | src-server/api-mock/ApiMockNetworkListener.ts:275-281 | a request begun before a stop, or before a start past its guard, never fires its delay timer afterwards, over every run |
| MockListener.DeferredGivenBack | src-server/api-mock/ApiMockNetworkListener.ts:467-478 | in every reachable state a pending delay timer, fired, leaves the set while its request is still in flight, and its delivery then gives back exactly that request |
| MockListener.AwaitedGivenBack | src-server/api-mock/ApiMockNetworkListener.ts:386-388 | a waiting request counts from its start until its await returns; one answered at once leaves the count as it was |
| MockListener.SocketLife | src-server/api-mock/ApiMockNetworkListener.ts:153-260 | from every reachable state without server or start: a start binds a new socket, listening makes it the one running, stop closes it at once and drains, the end of the drain allows the next start; a failed listen leaves all as before |
| MockListener.GenerationExact | src-server/api-mock/ApiMockNetworkListener.ts:153-267 | a start past its guard begins at generation 1 whatever came before, and each commit since adds one |
| MockListener.RunAccounted | src-server/api-mock/ApiMockNetworkListener.ts:233-281 | the invariant behind them: owing requests are those whose closure captured the current epoch |
| MockListener.RunSockets | src-server/api-mock/ApiMockNetworkListener.ts:214-231 | the open sockets are the listener's own and those a later start overwrote |
| MockListener.RunningMeansOpen | src-server/api-mock/ApiMockNetworkListener.ts:272 | if no start begins before another has finished, `isRunning` says exactly whether a socket is open and the listener owns the only one |
| MockListener.StaysHonestExactly | src-server/api-mock/ApiMockNetworkListener.ts:214-260 | in any reachable state where `isRunning` is right and no socket is lost, a step keeps that iff it is not a start finishing while the listener has a server or is draining |
| MockListener.AlwaysHonestExactly | src-server/api-mock/ApiMockNetworkListener.ts:272 | `isRunning` is right and no socket is lost all through a run iff no start in it finishes so |
| MockListener.LateListenDenied | src-server/api-mock/ApiMockNetworkListener.ts:233-260 | a start finishing while a stop drains: until the drain ends `isRunning` denies the open socket the listener owns, though none was overwritten |
| MockListener.OverlappingStartsLeak | src-server/api-mock/ApiMockNetworkListener.ts:153-158 | a start finishing over a running server: the socket it replaces stays open after every stop; the pool, which makes a listener per start, cannot do this |
| MockListener.Listener.ProcessRequest | src-server/api-mock/ApiMockNetworkListener.ts:386-479 | begins a request and answers, defers or awaits |
| MockListener.Listener.FinishRequest | src-server/api-mock/ApiMockNetworkListener.ts:557-559 | the `finally` of a request gives back only in its own epoch |
| MockListener.Listener.FireDelayTimer | src-server/api-mock/ApiMockNetworkListener.ts:469-471 | a fired timer leaves the set and its delivery goes on |
| MockListener.Listener.FinishDelivery | src-server/api-mock/ApiMockNetworkListener.ts:471-473 | a late delivery gives back only in its own epoch |
| MockListener.Listener.CancelDeferredDeliveries | src-server/api-mock/ApiMockNetworkListener.ts:275-281 | a new epoch, no timers, no count |
| MockListener.Listener.BeginStart | src-server/api-mock/ApiMockNetworkListener.ts:153-212 | `start` up to its await, throwing before or after the reset |
| MockListener.Listener.EndStart | src-server/api-mock/ApiMockNetworkListener.ts:214-231 | the socket becomes the listener's, or the start fails |
| MockListener.Listener.BeginStop | src-server/api-mock/ApiMockNetworkListener.ts:233-246 | `stop` up to its await, resetting even when nothing runs |
| MockListener.Listener.EndStop | src-server/api-mock/ApiMockNetworkListener.ts:248-260 | draining ends |
| MockListener.Listener.CommitDefinition | src-server/api-mock/ApiMockNetworkListener.ts:263-267 | the generation goes up by one |
| MockPool.OpenListeners | src-server/api-mock/ApiMockServerPool.ts:95-143 | in every run the open listeners are those of running entries and the ones dropped while open; their ports differ, and an entry tells its listener's port |
| MockPool.PoolOwnsAll | src-server/api-mock/ApiMockServerPool.ts:73-79 | if starts of one id never overlap, every open listener is its own entry's and its port is reserved |
| MockPool.StaysOwnedExactly | src-server/api-mock/ApiMockServerPool.ts:95-123 | in any reachable state where every open listener is its own entry's, a step keeps that iff it is not a start finishing, on a free port, for an id whose server runs by then, which must be on another port |
| MockPool.AllOwnedExactly | src-server/api-mock/ApiMockServerPool.ts:95-137 | after any run every open listener is its own entry's iff no step of the run did that |
| MockPool.RunningPortsDiffer | src-server/api-mock/ApiMockServerPool.ts:101-110 | no two running servers share a port |
| MockPool.StartRefused | src-server/api-mock/ApiMockServerPool.ts:95-110 | in any state a start is refused iff its server runs, naming its port, or another entry holds the port, naming that owner; a refusal changes nothing, and otherwise a new listener of that id and port is starting |
| MockPool.OpenPortRefused | src-server/api-mock/ApiMockServerPool.ts:101-110 | after any run that replaced no running server, a port open under another id is refused |
| MockPool.StartEnds | src-server/api-mock/ApiMockServerPool.ts:120-124 | a start listens iff its socket can and no open listener has its port; then its entry runs on that port with that listener, and otherwise no entry changes |
| MockPool.StopReserves | src-server/api-mock/ApiMockServerPool.ts:126-137 | stopping a running server closes its listener at once, keeps its port reserved against every other id until the drain ends, and then frees it |
| MockPool.StopOfStopped | src-server/api-mock/ApiMockServerPool.ts:126-132 | stopping what does not run answers at once, not found for an unknown id, and touches no listener |
| MockPool.PortOwnerFinds | src-server/api-mock/ApiMockServerPool.ts:103-107 | the search answers an owner if there is one |
| MockPool.LostForGood | src-server/api-mock/ApiMockServerPool.ts:120-123 | a listener dropped while open stays open whatever happens |
| MockPool.OverlappingStartsLeak | src-server/api-mock/ApiMockServerPool.ts:95-123 | two overlapping starts of one id on different ports do that |
| MockPool.ApiMockServerPool.StartBegin | src-server/api-mock/ApiMockServerPool.ts:95-120 | `start` up to its await, with both refusals |
| MockPool.ApiMockServerPool.StartEnd | src-server/api-mock/ApiMockServerPool.ts:120-124 | the rest of `start` |
| MockPool.ApiMockServerPool.StopBegin | src-server/api-mock/ApiMockServerPool.ts:126-134 | `stop` up to its await |
| MockPool.ApiMockServerPool.StopEnd | src-server/api-mock/ApiMockServerPool.ts:134-136 | the rest of `stop`, writing the entry it began with |
| MockPool.ApiMockServerPool.StopAll | src-server/api-mock/ApiMockServerPool.ts:173-176 | all stops begin before any ends; exactly the running entries end stopped and their listeners closed |
| StandaloneGroup.StartStandaloneServers | cli/mockStandalone.ts:32-67 | for every definition list, repeated ids or ports included: all results ok and all servers running on their ports, or no result ok, no listener open, and each result telling its own failure or the roll-back |
| StandaloneGroup.AllStartedWhen | cli/mockStandalone.ts:39-53 | the whole group starts exactly when ids and ports are pairwise different and every listener listens |
| StandaloneGroup.StartsWhen | cli/mockStandalone.ts:39-53 | a server starts exactly when it listens and no earlier server that started has its id or port |
| StandaloneGroup.GroupLaw | cli/mockStandalone.ts:39-53 | while the group starts, the entries are exactly the servers whose start succeeded, all running |
| CssScanner.AnalyzeCss | fix_css.py:53-144 | the character loop computes the recursive scanner's lines and flags |
| CssScanner.Lossless | fix_css.py:53-144 | the lines are exactly the newline split and concatenate to the input |
| CssScanner.SafeMeaning | fix_css.py:133-142 | a line is safe iff the scanner, run on everything up to its end, is at depth 0 outside comment and string |
| CssTokens.SafeMeansClosed | fix_css.py:65-138 | a line is safe iff the text up to it is made of whole comments (section 4.3.2 of CSS Syntax Module Level 3), whole strings, braces and other characters with all blocks closed |
| CssTokens.StartMeansClosed | fix_css.py:65-138 | the same of any text |
| CssTokens.ScanTokens | fix_css.py:65-138 | printed tokens leave the scanner outside, at the depth their braces give |
| CssTokens.FindTokens | fix_css.py:65-138 | text that leaves the scanner outside is printed tokens |
| CssScanner.AfterConcat | fix_css.py:64-138 | after a newline scanning resumes from the state alone |
| CssScanner.CutAnywhere | fix_css.py:133-144 | cutting the lines anywhere cuts the text: each side scans to its own lines |
| CssScanner.TerminatedLines | fix_css.py:140-142 | adding a missing final newline changes the last line's text and no flag |
| CssSplitter.SplitIntoChunks | fix_css.py:146-156 | the chunk loop computes the specified chunks |
| CssSplitter.ChunkLaw | fix_css.py:146-156 | the chunks are the lines in order; each but the last ends at the first safe line from its 600th on |
| CssSplitter.PartsStandAlone | fix_css.py:173-174 | each part scanned alone shows the same lines and flags as in the whole stylesheet |
| CssSplitter.JoinParts | fix_css.py:46-51 | joining what was written gives the stylesheet back, with at most one newline added at its end |
| CssSplitter.ResplitIsStable | fix_css.py:169-174 | running the splitter on its own output rewrites the same parts, whatever parts it started from |
| CssSplitter.SameBoundaries | fix_css.py:169-174 | splitting again cuts at the same lines with the same flags |
| CssSplitter.SameFlagsSameCuts | fix_css.py:149-153 | where the cuts fall depends on the flags alone |
| CssSplitter.GetConcatenatedContent | fix_css.py:46-51 | the joining loop terminates each non-empty part with a newline |
| WebhookFilter.FilterMeaning | src-server/webhook-validation.ts:36-68 | printing any OR of ANDs of plain atoms and evaluating it says whether some disjunct has all its atoms true |
| WebhookFilter.Terminates | src-server/webhook-validation.ts:46-64 | a filter whose delimiters all lie outside braces is evaluated to an answer |
| WebhookFilter.EvaluateIsTwoLevels | src-server/webhook-validation.ts:36-68 | every filter, whatever its braces, evaluates to the verdict of its first disjunct that is not invalid, a disjunct being judged by its first conjunct that does not hold: two levels of splitting say it all |
| WebhookFilter.DivergesExactly | src-server/webhook-validation.ts:46-64 | a filter never returns iff evaluation, left to right, comes to a piece that holds a delimiter and none outside braces, having found all conjuncts before it in its disjunct to hold and every disjunct before to be refuted |
| WebhookFilter.UnsplitTerminatesExactly | src-server/webhook-validation.ts:46-64 | a filter with no delimiter outside braces returns, for every payload, iff it includes no delimiter at all |
| WebhookFilter.HiddenDelimiterDiverges | src-server/webhook-validation.ts:47-60 | a filter that includes an OR, or an AND and no OR, and never outside braces recurses without end, whatever the payload |
| WebhookFilter.UnsplitExact | src-server/webhook-validation.ts:73-97 | a text splits into itself iff no delimiter is read at brace depth 0 |
| WebhookFilter.SplitAtFirst | src-server/webhook-validation.ts:73-97 | from any depth, a split cuts at the first delimiter at depth 0 and splits the rest afresh |
| WebhookFilter.RecursionMeetsEvaluate | src-server/webhook-validation.ts:36-68 | with more fuel than characters the recursion as written gives the specified value, and with less it gives that or runs out, so it never returns exactly when the specification says it diverges |
| WebhookFilter.BracedDelimiterDiverges | src-server/webhook-validation.ts:47-52 | a comparison on a field whose name holds a delimiter, with any plain text before and after it, recurses without end, whatever the payload |
| WebhookFilter.NoProgress | src-server/webhook-validation.ts:47-60 | a filter that splits into itself uses up any fuel |
| WebhookFilter.SplitShrinks | src-server/webhook-validation.ts:73-97 | a split returns its input whole or only strictly shorter parts |
| WebhookFilter.SplitRestores | src-server/webhook-validation.ts:73-97 | for trimmed input, joining the parts restores it |
| WebhookFilter.JoinSplit | src-server/webhook-validation.ts:73-97 | the same for any input not ending in the delimiter's last character, from any depth |
| WebhookFilter.SplitJoin | src-server/webhook-validation.ts:73-97 | splitting undoes joining for parts without the delimiter's pair |
| WebhookFilter.SplitTopLevel | src-server/webhook-validation.ts:73-97 | the loop computes the specified split |
| LogStream.ExactlyOnce | src-server/webhook-server.ts:587-594 | a new client hears the still-fresh lines by replay, then each later line live once in broadcast order, and nothing once closed |
| LogStream.ReplayMeetsLive | src-server/webhook-server.ts:587-588 | what it hears is a suffix of all history: no line is missed between replay and live, and none comes twice |
| LogStream.BufferIsWindow | src-server/webhook-server.ts:44-51 | with a clock that never goes back, the buffer is always the longest suffix of history within 4000 ms and 200 lines as of the last broadcast |
| LogStream.WindowExactly | src-server/webhook-server.ts:44-51 | after any run with any clock, the next broadcast leaves the buffer the window of all history iff, before dropping, no old line among the last 200 stands behind a fresh one, and no line dropped earlier is still fresh |
| LogStream.BufferIsSuffix | src-server/webhook-server.ts:44-51 | whatever the clock did, the buffer is a suffix of history |
| LogStream.ReplayIsWindow | src-server/webhook-server.ts:58-64 | a replay is that window as of the client's own time |
| LogStream.HearsNext | src-server/webhook-server.ts:52-55 | over any run a connected client hears each broadcast once in order, any other nothing |
| LogStream.ClockBackKeepsOldLine | src-server/webhook-server.ts:48-51 | an instance of the failing side: a line of 1000 ms stays behind one of 10000 ms when a third is stamped 6000 ms |
| LogStream.LogServer.BroadcastLog | src-server/webhook-server.ts:44-56 | the shifting and writing loops do the specified step |
| LogStream.LogServer.ReplayRecentLogs | src-server/webhook-server.ts:58-64 | the loop writes the fresh lines in order |
| LogStream.LogServer.OnConnect | src-server/webhook-server.ts:580-588 | subscribes, then replays |
| LogStream.LogServer.OnClose | src-server/webhook-server.ts:591-593 | unsubscribes |
| Cidr.IsIpInCidr | src-server/webhook-security.ts:191-202 | the shift-and-mask test says whether both are addresses agreeing when divided by `2^(32 - bits)` (section 3.1 of RFC 4632), and is false for anything malformed |
| Cidr.IpToNumber | src-server/webhook-security.ts:204-214 | accepts exactly four octets and reads them in base 256 |
| Cidr.MaskCuts | src-server/webhook-security.ts:200-201 | the mask clears the low bits |
| Cidr.LongerPrefixNests | src-server/webhook-security.ts:191-202 | a longer prefix of a range admits no more |
| Cidr.ExtremePrefixes | src-server/webhook-security.ts:200-201 | length 32 is equality of addresses, length 0 admits all |
| Cidr.MembersCount | src-server/webhook-security.ts:200-201 | exactly `2^(32 - bits)` words agree with a range in its first `bits` bits, and they lie in a row |
| Cidr.AdmittedCount | src-server/webhook-security.ts:191-214 | a range of prefix length `bits` admits exactly `2^(32 - bits)` dotted quads |
| Cidr.QuadRoundTrip | src-server/webhook-security.ts:204-214 | every word is the number of an address |
| SlaMetrics.NearestRank | cli/slaEval.ts:46-48 | the index is in range; the percentile is a sample, at least its rank of the samples are no greater and at least the rest plus itself no smaller |
| SlaMetrics.MetricsExactly | cli/slaEval.ts:46-66 | of any non-empty group: p50, p95, p99 and p999 are each the nearest-rank percentile of its durations at 500, 950, 990 and 999 in a thousand; the mean times the count is their total; the error rate times the count is a hundred times the number that did not pass |
| SlaMetrics.GroupMetricsExactly | cli/slaEval.ts:38-67 | the same of the metrics computed for a name, over exactly its results |
| SlaMetrics.SumIsTotal | cli/slaEval.ts:63 | the total is nothing for no samples, the sample for one, additive, and the same in any order |
| SlaMetrics.MetricsBounds | cli/slaEval.ts:38-67 | for every non-empty group p50 <= p95 <= p99 <= p999, the mean lies between the extremes, and the error rate is a percentage that is 0 or 100 only when all or none passed; what each metric is, `MetricsExactly` says |
| SlaMetrics.GroupIsNamed | cli/slaEval.ts:38-44 | a group is exactly the results of its name, in order; there are no metrics iff there is no such result |
| SlaMetrics.SpanCovers | cli/slaEval.ts:50-52 | the span starts with some request of the group, ends with some, and holds them all |
| SlaMetrics.ThroughputMeaning | cli/slaEval.ts:50-53 | throughput times the span in seconds is the number of requests, and it is zero for an empty span |
| SlaMetrics.PercentilesOrdered | cli/slaEval.ts:48-60 | a higher percentile is no smaller |
| SlaMetrics.WorseNeverBetter | cli/slaEval.ts:69-80 | a worse measurement never gets a better verdict, wherever the warning level lies |
| SlaMetrics.VerdictExactly | cli/slaEval.ts:69-80 | a check fails only beyond its value and warns only beyond its warning level, both bounds inclusive, for both operators |
| SlaMetrics.OverallExactly | cli/slaEval.ts:190-196 | fail if any failed, else warn if any warned, else no data if any had none, and pass for passes alone |
| SlaMetrics.OverallStatus | cli/slaEval.ts:190-196 | the worst status of any check, none only for no checks |
| CoverageMerge.FoldIgnoresOrder | scripts/merge-coverage-map-into.ts:67-71 | folding the same aligned batches in any order with any repeats gives the same store |
| CoverageMerge.FoldIsHighest | scripts/merge-coverage-map-into.ts:67-71 | the fold holds the highest count of each counter over the batches |
| CoverageMerge.MergeCommutes | scripts/merge-coverage-map-into.ts:24-52 | merging aligned stores is commutative |
| CoverageMerge.MergeAssociates | scripts/merge-coverage-map-into.ts:24-52 | and associative |
| CoverageMerge.MergeRepeats | scripts/merge-coverage-map-into.ts:24-52 | and idempotent |
| CoverageMerge.NeverLowersWhen | scripts/merge-coverage-map-into.ts:32-39 | without alignment, a merge lowers no count exactly when no shorter incoming array cuts off a hit arm |
| CoverageMerge.MergedExactly | scripts/merge-coverage-map-into.ts:24-52 | aligned or not, every statement, function and arm count of a file in both is the larger of the two with a missing one as zero, and an incoming branch decides its number of arms |
| CoverageMerge.MergedAlone | scripts/merge-coverage-map-into.ts:67-71 | a file in only one of store and batch is taken as it is |
| CoverageMerge.MaxHitMap | scripts/merge-coverage-map-into.ts:24-30 | the loop takes the higher count of each id |
| CoverageMerge.MaxBranchMap | scripts/merge-coverage-map-into.ts:32-39 | the loop takes the higher count of each arm, over the incoming array's length |
| CoverageMerge.MergeFileCov | scripts/merge-coverage-map-into.ts:41-52 | merges a file's three hit maps |
| CoverageMerge.MergeInto | scripts/merge-coverage-map-into.ts:67-71 | the loop merges a batch into the store file by file |

## Left out

- One `Server` object stands for the module's maps and all bridges, keyed by bridge number; separate bridge objects, their heap layout and aliasing are not modelled.
- Each step reads the clock once, where a handler may call `Date.now()` several times.
- `extractCorrelationId`, `extractKafkaCorrelationId` and JSON bodies: the extraction is a function parameter, and every theorem holds for all of them.
- Security checks (address list, signature, token) are booleans of a request; tokens, HMAC and header parsing are not part of this model.
- The header arrays of `extractIdempotencyKey` count as their first string.
- The duration of a poll's timeout, `parseInt` and the clamping of its bounds.
- The unmatched log in the protocol's state: its contract is in the store only.
- The unmatched table of the SQLite store and its rehydration; real SQL, of which only the primary key and row updates are kept.
- The PostgreSQL store, whose writes are ordered by its connection pool.
- `clearAll`, `setCorrelationStore`, statistics routes, log lines and metrics.
- The webhook data echoed in the answer of a resume, beside id, execution and workflow.
- Kafka headers in the payload of a resumption.
- Single filter expressions: an atom's truth is a parameter, as are the reasons of a rejection.
- IdempotencyKeys.KafkaKeyInjective: assumes offsets without a colon, since the client library writes them as decimal digits; `KafkaKeysEqualExactly` covers all offsets.
- Route selection, rendering, faults, proxying and callbacks of the mock listener: a request only begins, waits and ends. A delivery that waits several times inside is one wait.
- The mock listener's connections and sessions: draining is one wait, and closing a server frees its port at once.
- Port 0, where the system picks the port and the pool goes on calling it 0.
- Pool entries are values in the map; a stop that outlives its entry's replacement is told apart by listener number.
- `restart`, which is `stop` then `start`; `allocatePort`; scenario and sequence state.
- Recorded drafts of the pool (`pushRecordedDraft`, `acknowledgeRecordedDrafts`): a capped list, easy beside the rest.
- `standaloneBindHost`, a choice among constants.
- Newline translation, reading, writing and deleting part files, and finding wrappers in `fix_css.py`.
- Failing or slow writes to a log client.
- Lenient `parseInt` of address parts and prefix lengths, and IPv6 mapping.
- Floating-point rounding in percentiles and rates.
- Coverage fields other than the three hit maps, which the incoming batch overwrites.
