# Leased outbox, versioned record store and migrations: a verified model

The repository stores memory records in PostgreSQL. Every change of a record also writes an
event and an outbox row in the same transaction, and relay workers forward the outbox rows
under leases. This project models the three state machines behind that and proves what they
keep over every run:

* **The relay.** Any number of workers claim, publish and ack rows of one outbox table, while
  writers insert, the clock advances, leases run out, workers crash or release, and operators
  requeue. `RelayProtocol` is the step machine; every statement of a worker is a step of its
  own. `Relay` holds the same calls as methods on a worker and a database object, with an
  arbitrary script of other people's actions between any two statements, and shows that they
  take only those steps.
* **The record store.** Every transaction reads without a lock and writes later under a version
  guard. `StoreModel` is the step machine with reads and commits as separate steps;
  `Atomicity` and `AtomicCalls` prove that it refines calls that run alone; `Store` holds the
  calls as methods, statement by statement over five tables, with rollback, and again with
  arbitrary scripts in between.
* **The migration runner.** `Migration` runs an ordered list of groups on a connection that may
  be lost before any statement.

`Delivery` puts store and relay around the one outbox table they share.

Histories are finite lists of actions, newest last; `After` gives the state a history leads to,
or nothing when some action was not possible. A property of every run is a lemma about every
history. Time is one database clock in nanoseconds that never goes back; `NOW()` is fixed when
a transaction or a single-statement call starts. Ids drawn from the UUID generator are
arbitrary values, checked against the unique keys; the client clock, the publisher's answers
and the other actors' actions are arbitrary arguments.

## How the files fit together

| file | content |
|---|---|
| `Common.dfy`, `Entities.dfy`, `Outbox.dfy` | histories, records and messages, one outbox row and the relay's statements on it |
| `RelayProtocol.dfy`, `RelaySafety.dfy`, `RelayLeases.dfy`, `RelayCounting.dfy`, `AttemptLimit.dfy`, `RelayProgress.dfy` | the relay machine and its invariants, fencing, lease terms, counting, the attempt limit, the work all workers can do |
| `ClaimOrder.dfy`, `Drain.dfy`, `Relay.dfy` | the claim query, progress of undisturbed calls, the relay's methods |
| `StoreModel.dfy`, `StoreInvariants.dfy`, `StoreHistory.dfy`, `Effects.dfy`, `Success.dfy`, `Idempotency.dfy`, `Dedupe.dfy`, `AccessCount.dfy`, `PromoteHash.dfy` | the store machine, its invariants, and what holds over its runs |
| `Atomicity.dfy`, `AtomicCalls.dfy`, `StoreDatabase.dfy`, `Store.dfy` | the refinement to calls run alone, the tables with their statements, the store's methods |
| `EventOrder.dfy`, `Scenarios.dfy` | which event counts as latest; concrete runs where code and documentation differ |
| `Delivery.dfy`, `Migration.dfy` | the whole from commit to publisher, the migration runner |

## Where the code and its documentation differ

The model follows the code.

* `loadRecordForUpdate`, and the comment "with lock" in `Promote`, take no lock
  (`postgres/store.go:650-660`, `postgres/durable_ops.go:105`). Safety rests on the version
  guard of the later UPDATE.
* `MaxAttempts` is not a cap on claims: nothing in the claim query looks at the attempt count
  (`postgres/relay.go:111-120`). `AttemptLimit` has a run, the exact condition, a bound, and a
  run for every n in which a row with a limit of one is claimed and published n times.
* A lease shorter than one millisecond is accepted and can never be acked
  (`postgres/relay.go:172`); `RelayLeases.AckableExactlyFromOneMillisecond`.
* Concurrent calls with one idempotency key: the later one is refused by the unique key instead
  of being replayed (`postgres/store.go:175-182`, `postgres/durable_ops.go:203-210`); a retry is
  replayed. `Scenarios.LateDuplicateIsNotReplayed` and `Scenarios.LatePromotionIsNotReplayed`
  are runs;
  `Atomicity.RefusedWriteIsAtomicUnlessOvertaken` and
  `Atomicity.RefusedPromotionIsAtomicUnlessOvertaken` are exact about it.
* A second collision at an unchanged winner version fails on the event table's unique key and
  rolls back (`postgres/durable_ops.go:316-322`, `postgres/schema.go:194`);
  `Scenarios.SecondCollapseIsRefused`. A collision also fails when the registered winner was
  never written, since registering looks at no record (`postgres/durable_ops.go:243-261, 293-297`);
  `Scenarios.UnwrittenWinnerIsNotFound`. `AtomicCalls.ResolveSucceedsIff` is exact about both.
* `ResolveDedupe` called with the registered winner tombstones it
  (`postgres/durable_ops.go:268-289`); `Scenarios.WinnerTombstonesItself`,
  `Dedupe.WinnerSurvivesIff`.
* "Load the winner" takes no lock either (`postgres/durable_ops.go:293-297`), so a collapse event
  may show a version the winner has left by the time it commits; `Scenarios.CollapseOfOldVersion`
  is a run, `AtomicCalls.InterleavingRefinesCallsIff` says this is all that keeps the store from
  behaving as if its calls ran one after another.
* `ListSessionWorking` documents the "most recently appended event" and orders by version first
  (`postgres/durable_ops.go:362-371`). In that same run the event appended last is not the one
  listed; `EventOrder.StepEventIsListed` and `EventOrder.CollapseIsSoleListedIff` say when it is.
* `MarkAccess` writes two columns without a new version (`postgres/durable_ops.go:40-46`), so
  logged snapshots may carry an older hit count: `AccessCount.SnapshotLagsByAccesses` says by
  how much. Every agreement of log and table is up to those two columns.

## Model

| member | source | states |
|---|---|---|
| RelaySafety.Reachable | postgres/relay.go:104-345 | In every reachable state of any number of workers, the rows, phases, locks and batches are sound and agree with the history: a lease names the worker of the row's newest claim, a batch is that of its worker's newest claim. |
| RelaySafety.AckIsFenced | postgres/relay.go:251-318 | Fencing: whenever an ack changes the table, it changes exactly one row, the row is processing under the acking worker, its newest claim is the one whose batch that worker is going through, and the attempt count carried equals the stored one. |
| RelaySafety.AckEffect | postgres/relay.go:255-317 | Column by column, in every reachable state: an ack that changes the table leaves its row sent at the given time with last_error NULL after a success, and otherwise with the error's text, sent_at kept and failed or pending by its stored attempts; always the lease columns are NULL and message, created_at and attempts are kept. |
| RelaySafety.LeaseColumnsMatchStatus | postgres/relay.go:253-317 | A row is processing exactly when each of claimed_by, claimed_at and lease_expires_at is set, and sent exactly when sent_at is set. |
| RelaySafety.SentIsPermanent | postgres/relay.go:255-274 | A sent row is the same in every later state, although the ack's WHERE clause never mentions the status. |
| RelaySafety.OverlappingClaimsAreDisjoint | postgres/relay.go:111-120 | Two claim transactions open at the same time hold no row in common. |
| RelaySafety.ClaimReportsStoredAttempts | postgres/relay.go:164-189 | A committed claim returns distinct claimable rows with the messages stored and the attempt counts stored after the increment; column by column each is processing under the caller from the transaction's NOW() for its TTL in whole milliseconds, with the other columns kept, and no other row changes. |
| RelaySafety.NeverAckableAndClaimable | postgres/relay.go:111-120 | No row can at one instant be acked by an owner and taken by a claim. |
| RelaySafety.LeaseProtectsRow | postgres/relay.go:251-345 | Until its lease has expired, the only steps that change a processing row are its owner's Ack and Release. |
| RelaySafety.LockedRowIsOpen | postgres/relay.go:111-120 | Only pending or processing rows are ever locked by a claim transaction. |
| RelayLeases.LeasesOnTerms | postgres/relay.go:164-173 | In every reachable state a lease's deadline is its claim time plus the lease its owner's configuration gives, and no ack of the owner starts before the claim it acks. |
| RelayLeases.LeaseRunsForTtl | postgres/relay.go:169-172 | In every reachable state the time d from a lease's claim to its deadline is a multiple of 1,000,000 ns with d <= TTL < d + 1,000,000, for the TTL of the worker it names. |
| RelayLeases.LeasesAreDated | postgres/relay.go:168 | The claim time of every lease is NOW() of the newest claim transaction of its row, by the worker the lease names. |
| RelayLeases.AckSucceedsWithinTtl | postgres/relay.go:253 | An ack changes the table if and only if its row is leased to the worker and the ack started less than the TTL, in whole milliseconds, after the lease's claim time. |
| RelayLeases.AckInTimeIsNotLost | postgres/relay.go:251-318 | An ack that starts more than a millisecond before the TTL is over, counted from NOW() of the newest claim of its row, settles the row as long as it is leased to the worker. |
| RelayLeases.ClaimableExactlyAfterTtl | postgres/relay.go:111-120 | In every reachable state a claim may take a row if and only if it is pending, or processing and more than its owner's TTL, in whole milliseconds, past its claim. |
| RelayLeases.AckableExactlyFromOneMillisecond | postgres/relay.go:172 | A worker can get some ack through in some run if and only if its lease TTL is at least one millisecond. |
| RelayCounting.AttemptsAreConserved | postgres/relay.go:164-172 | On every run a row's attempt count is the number of committed claims since its insertion or last requeue. |
| RelayCounting.OneWorkerPublishesItsClaims | postgres/relay.go:203-213 | One worker's publish calls for a row, plus the one it still owes, never exceed its claims of the row. |
| RelayCounting.PublishesNeverExceedClaims | postgres/relay.go:203-213 | Over its whole life a row is published at most as often as it is claimed, by any set of workers. |
| RelayCounting.NobodyElseActs | postgres/relay.go:203-213 | The registered workers make all claims and publishes, so those counts are the totals. |
| RelayCounting.SettledRowsAreExplained | postgres/relay.go:251-318 | With a shared limit, a sent row has had a successful publish, and a failed row has at least that many attempts. |
| AttemptLimit.OverrunsAreWastedClaims | postgres/relay.go:111-120 | A row's attempts exceed the shared limit by at most the claims of it that ended in an expired lease taken over or in a Release since its insertion or last requeue; a pending row has one to spare. |
| AttemptLimit.OverrunExactlyWhenLastIsWasted | postgres/relay.go:111-120 | The exact condition: a row has more attempts than the shared limit, or is pending with the limit used up, if and only if since its insertion or last requeue a Release freed it or a claim took its expired lease over when its stored attempts were at the limit already. |
| RelayProgress.ClaimsSpendBudget | postgres/relay.go:104-318 | For any number of workers and any interference, over a stretch of a run without new or requeued rows: claims made plus the budget left are at most the budget at its start plus the claims wasted on rows whose attempts were used up. |
| RelayProgress.ClaimsWithinDrainBudget | postgres/relay.go:104-318 | Started with nothing under way and with no such claim wasted, all workers together make no more claims than the drain's budget. |
| RelayProgress.PublishesWithinLimit | postgres/relay.go:203-213 | A row that is never requeued is published at most as often as the shared limit allows, and once more for each claim of it that was wasted. |
| AttemptLimit.LimitCanBeOverrun | postgres/relay.go:111-120 | A concrete run in which a row with a limit of one attempt has two. |
| AttemptLimit.SlowPublisherNeverSettles | postgres/relay.go:203-231 | For every n, a run of one worker whose publishes outlast its leases: a row with a limit of one attempt is claimed and successfully published n times and is still not sent. |
| ClaimOrder.SelectOldest | postgres/relay.go:111-120 | The claim query: distinct claimable unlocked rows, oldest first; one is left out only when the limit is reached, and is then no older than any returned. |
| Drain.RoundSpendsBudget | postgres/relay.go:203-231 | An undisturbed call lowers the sum of max(1, MaxAttempts - attempts) over open rows by at least one for each row it claims. |
| Drain.DrainEnds | postgres/relay.go:203-231 | After as many undisturbed calls as that sum every row is sent or failed, whatever the publisher answers. |
| Drain.ClaimedWithinBound | postgres/relay.go:111-120 | A pending row is claimed within floor(P / BatchSize) + 1 undisturbed calls, P being that sum over the other pending rows with created_at no later than its own. |
| Drain.EmptyClaimMeansSettled | postgres/relay.go:152-157 | A claim that returns nothing found every row sent or failed. |
| Relay.RelayWorker.constructor | postgres/relay.go:72-98 | Settings that are zero or negative take the defaults 100, three minutes and 5. |
| Relay.RelayWorker.ClaimBatch | postgres/relay.go:104-190 | The claim transaction, with other actors between its statements, continues the history without an ack or a publish, and only the others move the clock. It ends rolled back exactly when a statement fails, and otherwise with its batch, which is what the claim query returns at one moment of the call, as a claim this worker committed during the call: each row returned was pending or past its lease and is now, column by column, under a lease of this worker for its TTL in whole milliseconds from the transaction's NOW(), with one more attempt, as returned, and no other row is changed by it. Undisturbed they are the oldest claimable rows. |
| Relay.RelayWorker.Ack | postgres/relay.go:251-318 | Continuing the history, the ack reports a lost lease or a failed statement and then makes no change, or no error; then its last step changed its row only, which was processing under this worker and now shows the outcome column by column: sent with no error, or the text of the error and failed or pending by its stored attempts. Undisturbed the new table is given in full. |
| Relay.RelayWorker.PublishAndAck | postgres/relay.go:210-212 | Whatever the others do, the row is handed over once, and an ack without an error leaves the publisher's answer in its row: sent with no error, or the text of the error in last_error. |
| Relay.RelayWorker.AckStatement | postgres/relay.go:255-317 | The three SET lists under one ownership predicate do what the protocol's ack step does; the lease is lost exactly when the predicate fails, and then nothing changes; otherwise the row shows the outcome column by column. |
| Relay.RelayWorker.RunOnce | postgres/relay.go:203-231 | Against any interference and any failing statement the history is continued and only the others move the clock. The claim fails exactly when one of its statements does; otherwise the rows claimed are what the query returns at one moment of the call, are claimed during it, and they and no others are handed to the publisher, once each, in claim order and with its answers. Published + Failed + the ack errors is their number, LeaseLost of those errors are lost leases and the rest are the failing ack statements, and the three counts are those of this call's acks by what they did to the table. Undisturbed and before its leases end, the call is one round of the drain, and each row claimed shows the publisher's answer to it: sent at the client's time, or not sent with the text of the error. |
| Relay.RelayWorker.RunTicks | postgres/relay.go:203-231 | Undisturbed calls in a row, with the histories between them: each call continues the one before, claims what the query returns and hands it over. If each ends before its leases do, as they all do when nobody lets time pass, they are rounds of the drain, as many as the open rows have budget together leave every row sent or failed, and each pending row is claimed within floor(P / BatchSize) + 1 of them. |
| Relay.RelayWorker.Release | postgres/relay.go:334-345 | At one moment after the call began, at once if no claim transaction holds a row of the worker, every row leased to the worker goes back to pending with its attempts kept, and no other row changes. |
| Relay.Database.RequeueFailed | postgres/store.go:433-449 | Exactly a failed row goes back to pending, with attempts, error and lease columns cleared and the count of claims since reset at zero; any other request affects no row. |
| StoreInvariants.Reachable | postgres/store.go:59-188 | In every reachable state log, outbox and table agree, and every open transaction has read what some committed version of its record showed. |
| StoreHistory.LogAgreesWithTable | postgres/store.go:577-624 | A record at version v has exactly one event that is not a collapse for each version 1..v, no event beyond v, and events at version v show the row on all columns but hit_count and last_access_at. |
| StoreHistory.LatestEventIsCurrent | postgres/durable_ops.go:371 | The event the session listing reports as latest belongs to the record's current version and shows its row. |
| EventOrder.StepEventIsListed | postgres/durable_ops.go:371 | The event of a write, a mutation or a promotion is the one listed when it is appended, ties excluded. |
| EventOrder.CollapseIsSoleListedIff | postgres/durable_ops.go:371 | A collapse event is the only one the listing can return when it is appended if and only if it shows the winner's current version and the event of that version is stamped strictly before the collapse's transaction start. |
| EventOrder.CollapseMayBeListedIff | postgres/durable_ops.go:371 | It is one of those the listing may return if and only if it shows the winner's current version and the event of that version is stamped no later than the collapse's transaction start. |
| EventOrder.SelfCollapseTies | postgres/durable_ops.go:371 | When the candidate is the winner itself, its deletion and its collapse tie: the listing may return either. |
| StoreHistory.EveryEventHasOneOutboxRow | postgres/store.go:606-645 | Every event has exactly one outbox row, with its event id, tenant, memory id, version and type, the record it shows, and the loser of a collapse. |
| StoreHistory.TombstonesArePermanent | postgres/store.go:590-598 | Once deleted is set no run clears it, although patch, pin, disable and promotion work from unlocked reads; GetRecord hides the record from every tenant forever. |
| StoreHistory.OneSuccessPerVersion | postgres/store.go:592-604 | At most one mutation, promotion or dedupe tombstone succeeds for a record and an expected version. |
| StoreHistory.RunGrows | postgres/store.go:577-648 | Over any run no row changes tenant or origin or loses a version, nothing versioned changes at an unchanged version, and log, outbox, responses and winners are never rewritten. |
| StoreHistory.NothingChanges | postgres/durable_ops.go:83-102 | Reads, replays and refused calls leave every table as it was. |
| Effects.MutationEffect | postgres/store.go:568-648 | A successful mutation moves the record from the expected version to the next, changes exactly the requested columns of the row as it is at the commit (an access since the read is kept), and logs one event of the right type showing the row. |
| Success.MutationSucceedsIff | postgres/store.go:538-648 | On sound tables and with ids never used, a patch, delete, pin or disable succeeds if and only if tenant and memory id are given, the tenant has the record at the expected, positive version, and a patch asks for no importance outside 0 to 1; nothing else about the record matters, and each other case has its error. |
| Effects.PromotionEffect | postgres/durable_ops.go:105-222 | A successful promotion makes the row episodic with the source event, whatever its kind was, keeps contents, flags and counters, and logs one promotion event; the answer says created and shows the row, and is what a key is recorded with. |
| Success.PromotionSucceedsIff | postgres/durable_ops.go:55-139 | On sound tables, with ids never used and no recorded key, a promotion succeeds if and only if tenant and memory id are given and the tenant has the record at the expected, positive version, whatever its kind; otherwise it is not found or a version conflict, and which one is told exactly. |
| Effects.WriteEffect | postgres/store.go:85-188 | A successful write adds the requested record under the tenant at version 1, with a generated id and the current time only where the request brings none, one creation event with the key, and the key with its hash and the answer given. |
| Success.WriteSucceedsIff | postgres/store.go:59-188 | On sound tables, with ids never used and a key not recorded, a write succeeds if and only if tenant, key and hash are given, the record's id (or the one drawn) is not taken and its importance is from 0 to 1; each other case has its error. |
| Idempotency.OneEffectPerKey | postgres/store.go:175-182 | Each tenant and key commits at most one effect over all writes and promotions, retries and races. |
| Idempotency.OneAnswerPerKey | postgres/store.go:307-331 | Every success for a key gives the same memory id, version and record, even after later mutations. |
| Idempotency.RecordedKeyAnswers | postgres/durable_ops.go:72-103 | A recorded key is answered without touching a table: its response when the hashes agree (Created true again for a write, false for a promotion), a conflict otherwise. |
| Idempotency.LateDuplicateIsRefused | postgres/durable_ops.go:203-210 | A duplicate that looked the key up before the first one committed is refused at its own commit and leaves nothing. |
| Dedupe.OneWinnerForAllTime | postgres/durable_ops.go:243-274 | All successful resolutions of a key, at any two moments, name the same winner. |
| Dedupe.OneFirstWriter | postgres/durable_ops.go:243-261 | At most one call ever reports no collision for a key. |
| Dedupe.SomeFirstWriter | postgres/durable_ops.go:243-261 | Whenever a winner is registered, one earlier call reported no collision and named it. |
| Dedupe.CollisionSucceedsIff | postgres/durable_ops.go:276-350 | A collision that has read its winner commits, with fresh ids, if and only if the loser still has the given version and the winner has no collapse event at the version read; otherwise every table is unchanged. |
| AtomicCalls.ResolveSucceedsIff | postgres/durable_ops.go:228-360 | The whole call, run alone with fresh ids: it succeeds if and only if the key is free, or the candidate has the given version, the registered winner has a record of the tenant, and the winner is the candidate or has no collapse event at its current version. |
| Dedupe.RepeatedCollapseIsRefused | postgres/durable_ops.go:316-322 | A second collapse into a winner at the version of the first is refused and changes nothing. |
| Dedupe.CollisionEffect | postgres/durable_ops.go:278-350 | A resolved collision writes the loser's tombstone and no other row, the deletion and the collapse event, one outbox row carrying each, and nothing else. |
| Dedupe.CollisionReport | postgres/durable_ops.go:351-360 | A resolved collision reports a collapse by pin if and only if the winner it read is pinned, and a merge otherwise; while the winner has not moved on, or is the candidate, that is the pinned column of its row. |
| Dedupe.WinnerSurvivesIff | postgres/durable_ops.go:268-289 | The registered winner is left undeleted by a collision if and only if it is not itself the candidate. |
| AccessCount.HitCountIsExact | postgres/durable_ops.go:26-46 | On every interleaving hit_count is the inserted value plus the MarkAccess calls since the insert that name the record under its tenant, however often one call repeats the id. |
| AccessCount.LastAccessIsNewest | postgres/durable_ops.go:40-46 | On every interleaving last_access_at is the access time of the newest of those calls, or the inserted value while there is none. |
| AccessCount.SnapshotLagsByAccesses | postgres/store.go:569-613 | The event of a mutation or promotion shows a hit count that lags behind the updated row by exactly the accesses since the moment the call read the record. |
| PromoteHash.HashSeparates | postgres/durable_ops.go:63 | Equal request hashes mean equal memory id, source event id and expected version when the memory ids hold no colon, whatever the source event ids hold. |
| PromoteHash.UnambiguousExactlyWithoutColons | postgres/durable_ops.go:63 | A hash identifies its request among all requests if and only if neither id holds a colon. |
| Atomicity.InterleavingRefinesAtomic | postgres/store.go:568-604 | Every run of interleaved transactions leaves the tables that its accepted calls leave when each runs alone, in the order they completed, up to the access columns of logged snapshots; a collapse is given the winner snapshot it shows. |
| Atomicity.AnswersAreAtomic | postgres/durable_ops.go:105-139 | The caller of an accepted call gets the answer of the atomic call. |
| Atomicity.RefusedMutationIsAtomic | postgres/store.go:568-604 | A mutation is refused, at its read or at its commit, with the error the atomic one would give then. |
| Atomicity.RefusedPromotionIsAtomicUnlessOvertaken | postgres/durable_ops.go:72-139 | A promotion is refused as the atomic one would be if and only if no duplicate with its key has committed since its lookup. |
| Atomicity.RefusedWriteIsAtomicUnlessOvertaken | postgres/store.go:76-182 | A write is refused at its commit as the atomic one would be if and only if no duplicate with its key has committed since its lookup. |
| AtomicCalls.CollapseIsAloneIff | postgres/durable_ops.go:276-350 | A collapse that commits has the effect and answer of the whole call run alone then, reading the winner itself, if and only if the winner is the candidate or still has the version read. |
| AtomicCalls.InterleavingRefinesCallsIff | postgres/durable_ops.go:228-360 | With nothing handed to the calls: a run leaves the tables of its accepted calls run alone in the order they completed, up to access columns, if and only if no collapse of the run committed after its winner had moved on. |
| AtomicCalls.CurrentAnswersAgree | postgres/durable_ops.go:228-360 | In such a run the caller of an accepted call gets the answer of the call run alone. |
| AtomicCalls.RefusedLoserReadIsAlone | postgres/store.go:569-575 | A resolution refused at the loser's read is refused as the call run alone would be then. |
| AtomicCalls.RefusedWinnerReadIsAlone | postgres/durable_ops.go:279-297 | So is one refused at the loser's update or the winner's read. |
| AtomicCalls.RefusedCollapseIsAloneIff | postgres/durable_ops.go:312-350 | One refused at its commit is refused as the call run alone would be if and only if the loser has moved on or the winner has a collapse event at its current version too. |
| StoreDatabase.Tables.UpdateMutated | postgres/store.go:581-604 | The guarded UPDATE affects a row exactly when tenant, id and version match, writes ten columns and keeps the others, and runs into the importance constraint. |
| StoreDatabase.Tables.InsertEventAndOutbox | postgres/store.go:606-645 | Both inserts succeed exactly when event key, event id and outbox id are unused, and then add one event and its outbox row. |
| StoreDatabase.Tables.InsertWinner | postgres/durable_ops.go:243-261 | The insert claims the slot exactly when it is free and never replaces a winner. |
| Store.Store.MutateRecord | postgres/store.go:538-648 | Against any interference a patch, delete, pin or disable has, at one moment between its start and its end, the effect and the answer of the atomic one with the ids and the clock reading this call draws; at most its own last step follows that moment; refused, it leaves the tables of that moment. With ids not used by then, it succeeds or has its error by exactly the conditions of `Success.MutationSucceedsIff` at that moment. |
| Store.Store.WriteRecord | postgres/store.go:59-188 | The same for a keyed write, replays included, except that it is refused when a duplicate with its key got in first; while its key is not recorded, by the conditions of `Success.WriteSucceedsIff`. |
| Store.Store.Promote | postgres/durable_ops.go:55-222 | The same for a promotion, with the conditions of `Success.PromotionSucceedsIff` while its key is not recorded. |
| Store.Store.ResolveDedupe | postgres/durable_ops.go:228-360 | At one such moment, with the ids this call draws: a success is the registration of the candidate under a free key and nothing else, reported as no collision, or a collapse for the registered winner showing a committed version of it; that one reports a collapse by pin exactly when the version shown is pinned (while that version is current, the winner's row), and it is the whole call run alone exactly when that version is the winner's current one; a refusal leaves every table as it was and its error tells the cause: no loser or no winner, a loser that moved on, or taken ids or an earlier collapse of the registered winner at the version this call read. |
| Store.Store.MarkAccess | postgres/durable_ops.go:26-51 | In one step exactly the tenant's rows named in the request get one more hit and the given access time, and no other column, row or table changes; an empty request takes no step. |
| Store.Store.Deduplicate | postgres/durable_ops.go:30-38 | The loop keeps each id once, all of them, in the order they first appear. |
| Store.Store.LookupIdempotentWrite | postgres/store.go:307-331 | Nothing for an unknown key, the recorded response for an equal hash, a conflict for another. |
| Store.Store.GetRecord | postgres/store.go:290-299 | A record is returned if and only if it is there for the tenant and neither deleted nor disabled. |
| Scenarios.UnwrittenWinnerIsNotFound | postgres/durable_ops.go:293-297 | A run in which the loser has the given version, nothing was ever collapsed, and the call is refused because the registered winner was never written. |
| Scenarios.LateDuplicateIsNotReplayed | postgres/store.go:175-182 | A run in which a duplicate write is refused where the call run alone is answered with the recorded response. |
| Scenarios.WinnerTombstonesItself | postgres/durable_ops.go:268-289 | A run in which the registered winner resolves its own key and is deleted by it. |
| Scenarios.SecondCollapseIsRefused | postgres/durable_ops.go:316-322 | A run in which a second collision at an unchanged winner is refused and changes no table. |
| Scenarios.CollapseOfOldVersion | postgres/durable_ops.go:293-322 | A run in which the event appended last shows a version the winner has left, is not the listed one, and the calls run alone leave other tables. |
| Scenarios.RefusedAtOldVersion | postgres/durable_ops.go:316-322 | A run in which a collapse is refused for an earlier collapse of the version it read, although the winner has moved on and the call run alone would succeed. |
| Scenarios.LatePromotionIsNotReplayed | postgres/durable_ops.go:123-139 | A run in which a duplicate promotion is refused with a version conflict where the call run alone is answered with the recorded response. |
| Delivery.Projects | postgres/store.go:144-156 | Every run of store and relay around the shared outbox table is a run of each, over the same rows with the same messages. |
| Delivery.OneRowPerEvent | postgres/durable_ops.go:141-182 | Committed events and outbox rows announce each other one to one, whatever the relay has done to the rows. |
| Delivery.CommittedEventsAreDelivered | postgres/relay.go:203-231 | Once nothing is pending or processing, every committed event has exactly one outbox row, sent after a successful publish or failed with at least the shared limit of attempts. |
| Delivery.PublishesCommittedMessage | postgres/relay.go:211-213 | Every message handed to a publisher, by any worker at any time, is the stored one of its row and announces a committed event. |
| Delivery.CommittedMessagesAreDelivered | postgres/relay.go:203-231 | Once nothing is open, for every committed event a publish succeeded with exactly that event's message, or its row failed with at least the shared limit of attempts. |
| Migration.Connection.Migrate | postgres/schema.go:30-58 | The method does what one cut-off or completed run is specified to do; it refuses exactly when some recorded version is more than five ahead, and then changes nothing. |
| Migration.Connection.RunGroupInTx | postgres/schema.go:71-96 | All statements and the version row, or nothing, and all exactly when the connection lasts for the statements, the version row and the commit. |
| Migration.Connection.RunGroupDirect | postgres/schema.go:102-118 | The statements before the cut take effect, the version is recorded only after all of them, and the group completes exactly when the connection lasts for the statements and the version row. |
| Migration.Connection.CurrentSchemaVersion | postgres/schema.go:120-146 | The largest recorded version, or 0. |
| Migration.RecordedIsAlwaysAPrefix | postgres/schema.go:43-56 | After any number of runs cut off anywhere, the recorded versions are a prefix of the list and the schema can be completed. |
| Migration.InterruptedRunsConverge | postgres/schema.go:43-118 | Any number of cut-off runs followed by a completed one give the schema and versions of one uninterrupted run from empty, if each direct group may be rerun after any prefix of itself. |
| Migration.EnoughStatementsComplete | postgres/schema.go:43-118 | Whatever was left behind, a run that is not cut off too early completes. |
| Migration.ShippedGroupsConverge | postgres/schema.go:60-66 | The list the code ships needs no assumption about its statements. |
| Migration.DirectGroupMustRerun | postgres/schema.go:102-118 | For a direct group, a cut after k statements is harmless if and only if rerunning the group after those k equals running it once. |
| Migration.NewerDatabaseIsLeftAlone | postgres/schema.go:35-42 | A database up to five versions ahead is left as it is; one further ahead is refused. |

## Left out

- Relay.RelayWorker.Release: the method waits for claim transactions on its rows and then changes all of them in one step; in the protocol a Release may free any part of the worker's unlocked rows, since the source's statement can miss rows claimed after it started.
- Store.Store.ResolveDedupe: the loser's UPDATE and its inserts are applied at the commit, which is when others can see them; the guard is evaluated where the source runs the UPDATE and again at the commit.
- Atomicity.InterleavingRefinesAtomic: holds for every run because the winner snapshot of a collapse is handed to the call; `AtomicCalls.InterleavingRefinesCallsIff` is the statement without that, and says for which runs it holds.
- Drain.DrainEnds: that every row settles is stated for one worker without lost leases, releases, requeues or new rows; `AttemptLimit.SlowPublisherNeverSettles` shows why lost leases are excluded, and `RelayProgress.ClaimsSpendBudget` is what holds for any number of workers.
- A transaction's writes and its COMMIT are one step: the row lock of its UPDATE is held until then. A wait for a row or key lock is a later moment of the waiting statement; deadlocks and lock timeouts are aborts.
- An error or outage of the database is an abort that leaves nothing; a commit whose outcome the client does not learn is not modelled.
- SQL text, connection pools, contexts, JSON coding and UUID generation: payloads are values, coding is the identity, generated ids are arbitrary and checked against the unique keys.
- The CHECK constraints on kind and source hold by type; the one on importance is modelled. NULL and the empty string are one value, as the read and write helpers make them.
- `AppendEvent`, `EnqueueOutbox` and `SaveIdempotency` write rows of the caller's choosing and can break the log and the replays; they are not among the actions.
- `Ack` and `ClaimBatch` called directly from outside a `RunOnce`, and two `RunOnce` calls of one worker at a time, are not among the runs; distinct worker ids are assumed (`postgres/worker_id.go`).
- Publishers, including the fan-out and lease-aware ones, are an arbitrary success or failure for each call.
- `ListFailed`, `LoadIdempotency`, the scope filter of `ListSessionWorking`, the name building in `postgres/config.go`, the migration command and the DDL apart from its keys would add only easy members.
- The two reads of `currentSchemaVersion` count as one statement, and a missing version table as an empty one; concurrent migration runs are not modelled.
- Timestamps have no rounding; index choice and waiting time play no part.
