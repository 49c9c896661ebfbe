# Verified model of the analytics delivery protocol

This project models, in Dafny, what the repository's analytics pipeline does
between a traffic event and a dashboard number, and proves what the pipeline
promises. It also covers four self-contained pieces of the same repository: the
ClickHouse schema ledger, the pruning of OpenAPI components, route
normalisation, and decimal money.

## What is modelled

**The outbox.** `Outbox` has one function per transaction on the two PostgreSQL
tables and the admission row. A transaction that fails rolls back, so its
function returns no database. Rows that other transactions hold locked are
parameters, because `FOR UPDATE SKIP LOCKED` skips them. Each transaction gets
an arbitrary clock value, since the source reads the clock before it takes the
lock. `OutboxInvariant`, `OutboxSafety`, `Transactions` and `OutboxTheorems`
prove what every transaction keeps and what follows for every run: frozen
manifests, lease fencing, an account equal to the backlog, a bounded backlog.
`EnqueueLaws` shows that enqueueing is an idempotent set insertion, and `Drain`
that the relay loop empties the backlog. `OutboxStore` and `AdmissionStore`
hold the same transactions as methods that update the tables in place, each
proved equal to its function; `Deduplication` is the first loop of the enqueue.

**The admission controller.** `Admission` has the classifier and the four
writers of the singleton row; `AdmissionLaws` proves what hysteresis, the soft
rate and the byte reservation amount to over arbitrary histories.

**The projection.** `TrafficRows` builds the typed rows, `DailyTotals` the
per-batch aggregates, `Projection` the insert and verification queries over
unordered tables with deduplication tokens, and `ClickHouseStore` runs
project-or-verify against a server with an arbitrary physical row order.

**The protocol.** `Delivery` is the transition system of any number of relays
over one database and one ClickHouse server. Between any two calls a relay may
crash, lose an acknowledgement, time out, fail or lose its lease, and go on with
a stale handle. Every request it ever sent stays in flight: an insert, a claim,
a publish, a retry or a quarantine may take effect at any later time.
`DeliverySafety` has the invariant, `DeliveryTheorems` exactly-once delivery.
`Reader` shows that the aggregate reader agrees with the raw facts in every
state of every execution.

**Hashes.** A SHA-256 digest is modelled by its preimage. `Preimages` proves
that the byte encodings fed to it can be decoded and that the domains never
collide, and `CanonicalJson` that the canonical form of a payload identifies the
JSON value up to member order.

**Secondary parts.** `Ledger` and `Migrator` are the crash-resumable ClickHouse
migration, where every crash point is a number of statements that the
connection survives; `InstallationBinding` is the race to bind a database.
`JsonPointer`, `Reachability`, `ComponentGraph`, `ComponentTraversal`,
`ComponentSweep`, `ComponentPruning` and `RepeatedSweep` are the OpenAPI mark
and sweep, `ContainerReference` and `SchemeReference` its two counterexamples.
`RouteGuard` is the redirect chain of the route guard, `Money` the decimal
parser and the amount printer. `Wrappers`, `MachineInts`, `Numerals`, `Strings`,
`Finite`, `SqlOrder` and `Calendar` are shared vocabulary.

## Assumptions

- ClickHouse inserts are atomic and a deduplication token, once seen, is
  remembered. The migration's DDL and inserts are single atomic statements.
- Outbox ids come from a sequence and batch ids from a UUID generator; neither
  is handed out twice.
- Each enqueue, publish, quarantine and refresh holds the admission row lock to
  its commit, so commit order is a serial order.
- Lease owners are distinct per relay, and the digest function is injective.

## Where the code and its promises differ

- Validation accepts 128-bit integers and projection parses 64-bit ones, so a
  valid event need not be projectable. `TrafficRows` proves exactly when it is.
  `ValidEventThatCannotBeProjected` is an instance.
- The redirect chain need not end when the fallback is not stable: `RouteGuard`
  gives a configuration that redirects for ever, and the exact condition, which
  is a bounded number of redirects from the fallback.
- The reader's sums wrap at 2^64. `AnsweredSumIsTrueIff` says when an answer is
  the true total, and `AnsweredSumCanWrap` is an instance where it is not.
- The mark of the components need not be all that is reached. A pointer into a
  security scheme marks the scheme but visits only its target, and a later
  requirement of that scheme is skipped. `SchemeReference` has the two orders of
  such a walk; `ReachableComponents` is exact where no reached requirement names
  a scheme that a reached reference points into.
- Pruning twice can remove more than pruning once when a reached reference is to
  the document or its components object. `ContainerReference` has such a
  document, `SweepIsExact` covers all documents without such a reference, and
  `RepeatedSweep` shows that pruning settles for those that have one.

## Model

| member | source | states |
|---|---|---|
| `DeliveryTheorems.ExactlyOnceDelivery` | backend/rust/crates/analytics/src/projection.rs:175-330 | In every execution of any number of relays (crashes, lost acknowledgements, lost leases, stale handles, requests that take effect long after their relay gave up on them, never, or repeatedly): once a batch was ever marked published, then and in every later state ClickHouse holds exactly its raw rows and its aggregate rows, each as often as the block has it, and both ordered queries return them in row-number order |
| `DeliveryTheorems.PublishedRowIsDelivered` | backend/rust/crates/analytics/src/outbox.rs:540-586 | An outbox row whose published_at is set is a row of a manifest with a projection; the raw row that the projection makes of it is in its table exactly once, and no other row there has its batch and row number |
| `DeliveryTheorems.AtMostOnceDelivery` | backend/rust/crates/analytics/src/projection.rs:175-330 | Published or not, projectable or not: in no reachable state is any row of any of the four tables stored more than once |
| `DeliveryTheorems.BlocksAreWholeOrAbsent` | backend/rust/crates/analytics/src/projection.rs:338-429 | Before publication too, what the ordered queries of a projectable batch return is nothing or the whole block |
| `DeliveryTheorems.VerificationNeverConflicts` | backend/rust/crates/analytics/src/projection.rs:318-336 | At no point of any execution does a verification step see a partial, duplicated or foreign block: a relay fails there only if the batch cannot be projected at all |
| `DeliveryTheorems.ReachableTablesAreIntact` | backend/rust/crates/analytics/src/projection.rs:180-241 | In every reachable state the tables are intact for every claimed batch, which is the hypothesis under which project_or_verify_batch always succeeds |
| `DeliveryTheorems.EachOutboxRowIsInOneBatch` | backend/rust/crates/analytics/src/outbox.rs:357-386 | No outbox row is ever part of two manifests, or twice of one |
| `DeliveryTheorems.InvHolds` | backend/rust/crates/workers/src/analytics.rs:245-460 | The delivery invariant holds in every state of every execution of the claim, project, publish loop |
| `DeliverySafety.NextKeepsInv` | backend/rust/crates/workers/src/analytics.rs:245-460 | Each single action of a relay or of the background transactions keeps the delivery invariant |
| `DeliverySafety.LandKeeps` | backend/rust/crates/workers/src/analytics.rs:245-460 | A request in flight may take effect at any later time: an insert is deduplicated by its token, and a publication can only be of a batch whose blocks are in |
| `DeliverySafety.RawQuerySees` | backend/rust/crates/analytics/src/projection.rs:338-385 | The ordered raw query of a genuine batch returns its whole block or nothing, exactly as its deduplication token was or was not seen |
| `DeliverySafety.DailyQuerySees` | backend/rust/crates/analytics/src/projection.rs:387-429 | The same for the aggregate query |
| `ClickHouseStore.ClickHouse.ProjectOrVerify` | backend/rust/crates/analytics/src/projection.rs:175-316 | Success means both ordered queries now return exactly the expected rows; an unprojectable batch touches nothing; only the two tables of its kind change, each by at most this batch's block; over intact tables it always succeeds, leaves both blocks in, and reports 'already present' exactly when both were |
| `ClickHouseStore.ClickHouse.InsertAndVerify` | backend/rust/crates/analytics/src/projection.rs:200-241 | The second half: absent blocks are inserted under their tokens, and success requires both re-verifications |
| `ClickHouseStore.ClickHouse.VerifyRaw` | backend/rust/crates/analytics/src/projection.rs:338-385 | 'Present' means the ordered query returned exactly the expected rows; over an intact block it tells whether the token was seen and never conflicts |
| `ClickHouseStore.ClickHouse.VerifyDaily` | backend/rust/crates/analytics/src/projection.rs:387-429 | The same for the aggregate table |
| `ClickHouseStore.OrderedSelect` | backend/rust/crates/analytics/src/projection.rs:338-360 | The filtered rows of a table in any physical order, each as often as stored, in ascending row number |
| `Projection.SortedListingIsUnique` | backend/rust/crates/analytics/src/projection.rs:318-330 | Comparing an ordered listing with the expected block decides multiset equality: two ascending listings of one multiset are equal when the numbers of one are distinct |
| `Projection.ReadReturns` | backend/rust/crates/analytics/src/projection.rs:338-360 | If the table holds exactly the expected rows among the selected ones, every possible answer of the query is the expected sequence |
| `Projection.ExpectedIsRecognisable` | backend/rust/crates/analytics/src/projection.rs:431-447 | All rows a batch must become carry its id, lie in the month range the verification queries use, and are numbered upwards |
| `Projection.IntactBlockVerifies` | backend/rust/crates/analytics/src/projection.rs:318-330 | Over an intact block verification answers exactly whether the block is in |
| `Calendar.MonthRangeIsPartition` | backend/rust/crates/analytics/src/projection.rs:431-447 | A date lies between the first of a month and the first of the next one exactly when that month is its partition month, over year ends too |
| `Reader.ReaderIsAlwaysConsistent` | backend/rust/crates/analytics/src/reader.rs:50-95 | In every state of every execution the reader's answer is, line for line, the group-by over the raw accounted events of the aggregated batches; those are stored raw rows, they include every published accounted batch, and they are all rows once no batch is half projected |
| `Reader.ReaderAgreesWithFacts` | backend/rust/crates/analytics/src/reader.rs:61-82 | Over consistent tables, the answer from the aggregates equals the group-by over the facts for every user, schema major, installation and date range, errors included |
| `Reader.IndexTotalsAgree` | backend/rust/crates/analytics/src/reader.rs:61-76 | For every key filter and measure the aggregates total what the facts total: no event lost or counted twice |
| `Reader.BatchAggregatesTotal` | backend/rust/crates/analytics/src/projection.rs:557-661 | The aggregates of one batch total what its raw rows total, for every filter and measure |
| `Reader.DatesAgree` | backend/rust/crates/analytics/src/reader.rs:75-76 | A date has a line in the one answer exactly when it has one in the other |
| `Reader.RawComesFirst` | backend/rust/crates/analytics/src/projection.rs:205-229 | No execution ever holds the aggregates of a batch without its raw rows, however late an insert lands |
| `Reader.AnsweredSumIsTrueIff` | backend/rust/crates/analytics/src/reader.rs:61-82 | An answered sum is the true total of the raw events of its date exactly when that total is at most the largest u64; otherwise it is the total modulo 2^64 |
| `Reader.AnsweredSumCanWrap` | backend/rust/crates/analytics/src/reader.rs:61-82 | Two batches of one event each, with the aggregates that their projection gives them, for which the answer is not the true total |
| `DailyTotals.GroupIsExact` | backend/rust/crates/analytics/src/projection.rs:561-581 | Grouping succeeds exactly when no group's true sum leaves u64; the entries then have strictly increasing keys and total, for every filter and measure, what the rows total |
| `DailyTotals.DailyRowsAreExact` | backend/rust/crates/analytics/src/projection.rs:557-661 | The aggregates have strictly increasing keys, consecutive row numbers from 0, the true count and four sums of their key, and a group for every row |
| `DailyTotals.DailyRowsOverflowIff` | backend/rust/crates/analytics/src/projection.rs:583-596 | AggregateOverflow is reported exactly when a true sum exceeds u64 or the groups outnumber the u32 row numbers |
| `DailyTotals.GroupIgnoresRowOrder` | backend/rust/crates/analytics/src/projection.rs:561-581 | The grouping is invariant under permutation of the rows, overflow included |
| `DailyTotals.OneEntryPerKey` | backend/rust/crates/analytics/src/projection.rs:561-581 | There are as many groups as distinct keys |
| `DailyTotals.UpsertOverflowsIff` | backend/rust/crates/analytics/src/projection.rs:663-692 | One row overflows the map exactly when some measure of its key plus the row leaves u64 |
| `DailyTotals.UpsertKeepsOrder` | backend/rust/crates/analytics/src/projection.rs:608-632 | Updating the sorted map keeps its keys strictly increasing |
| `DailyTotals.GroupsAreCanonical` | backend/rust/crates/analytics/src/projection.rs:561-581 | Two increasing groupings with equal totals for every filter and measure are equal |
| `DailyTotals.KeyOrderIsTotal` | backend/rust/crates/analytics/src/projection.rs:149-165 | Of two keys exactly one is below the other in the derived order, or they are equal |
| `DailyTotals.KeyOrderIsTransitive` | backend/rust/crates/analytics/src/projection.rs:149-165 | The derived order is transitive |
| `DailyTotals.GroupDailyRows` | backend/rust/crates/analytics/src/projection.rs:557-661 | The two loops (update the map row by row with checked additions, then number its entries) compute exactly the specified aggregates or the overflow |
| `TrafficRows.BuiltRowIdentity` | backend/rust/crates/analytics/src/projection.rs:449-555 | A built row carries its record's event id, row number and payload digest, its batch and installation, and a date of the envelope's partition month |
| `TrafficRows.ConstructedReportedEventIsProjectableIff` | backend/rust/crates/analytics/src/projection.rs:449-495 | An event that the constructor accepted is projectable exactly when its installation is the expected one and its integers fit u64 (validation accepts u128) |
| `TrafficRows.ConstructedAccountedEventIsProjectableIff` | backend/rust/crates/analytics/src/projection.rs:497-555 | The same for accounted events, with the two post-update counters |
| `TrafficRows.ValidEventThatCannotBeProjected` | backend/rust/crates/analytics/src/event.rs:353-361 | A concrete event with an upload counter of 10^20 that the constructor accepts, that enters the outbox, and that no installation can project |
| `TrafficRows.BuildRows` | backend/rust/crates/analytics/src/projection.rs:182-186 | Success gives one row per record, in record order, each the builder's row |
| `OutboxTheorems.RunsStayOk` | backend/rust/crates/analytics/src/outbox.rs:161-767 | Every state of every run of the transactions, in any order and with any clock readings, satisfies the table invariant and the account |
| `Transactions.ApplyKeeps` | backend/rust/crates/analytics/src/outbox.rs:161-767 | Each transaction, committed or rolled back, keeps the invariant relative to the journal of everything ever claimed |
| `OutboxTheorems.ManifestsAreFrozen` | backend/rust/crates/analytics/src/outbox.rs:349-386 | The manifest of a batch never changes, and as long as the batch is not published its stored rows are exactly that manifest, in order |
| `OutboxTheorems.BatchesAndRowsAgree` | backend/rust/crates/analytics/src/outbox.rs:444-538 | In every reachable state a row's batch is the one it was ever assigned to, it is terminal exactly as that batch is, owner and lease are set exactly while the batch is publishing, and a claim by the holder loads the frozen manifest |
| `OutboxInvariant.LoadReturnsTheManifest` | backend/rust/crates/analytics/src/outbox.rs:444-538 | Under the invariant load_claimed_batch never returns a manifest conflict to the lease holder: it returns the frozen manifest |
| `OutboxInvariant.RowsOfBatchAreTheManifest` | backend/rust/crates/analytics/src/outbox.rs:460-475 | The rows assigned to a batch, ordered by row number, are exactly its manifest's |
| `Transactions.ClaimKeeps` | backend/rust/crates/analytics/src/outbox.rs:273-399 | A claim returns a genuine manifest of rows that were in no batch before, leaves the caller owning the lease, and fails only for its own arguments |
| `Transactions.ClaimExistingKeeps` | backend/rust/crates/analytics/src/outbox.rs:401-442 | Taking over a batch re-loads exactly its frozen manifest under the new lease |
| `Transactions.FormationClaims` | backend/rust/crates/analytics/src/outbox.rs:337-395 | Forming a batch from the selected rows succeeds and freezes exactly those rows, none of which was ever in a batch |
| `OutboxTheorems.OwnerSucceeds` | backend/rust/crates/analytics/src/outbox.rs:540-663 | With the lease and a genuine handle, retry always succeeds, and publish and quarantine succeed exactly when the admission sample is not from the future of the clock read |
| `OutboxTheorems.SupersededOwnerStaysFenced` | backend/rust/crates/analytics/src/outbox.rs:540-663 | A handle that lost its lease is refused in every later state in which its owner has not claimed again: publish, retry and quarantine all return LeaseLost, whatever the clocks say |
| `OutboxTheorems.FencedStaysFenced` | backend/rust/crates/analytics/src/outbox.rs:401-442 | A lost lease comes back only through a new claim by the same owner |
| `OutboxTheorems.TerminalIsAbsorbing` | backend/rust/crates/analytics/src/outbox.rs:540-767 | A terminal batch or row is deleted by cleanup or left exactly as it is, by every transaction |
| `OutboxTheorems.AccountEqualsBacklog` | backend/rust/crates/analytics/src/admission.rs:301-494 | In every committed state of every run the accounted rows equal the rows neither published nor quarantined, and the recorded oldest time is not later than any pending row's; a refresh leaves the accounted rows as they are |
| `OutboxTheorems.ReleaseNeverClamps` | backend/rust/crates/analytics/src/admission.rs:482-484 | greatest(0, accounted - terminal) never clamps: the rows of an owned batch are all accounted |
| `OutboxTheorems.BacklogIsBounded` | backend/rust/crates/analytics/src/admission.rs:378-464 | In every run pending rows never exceed the larger of the rows at the start and hard_pending_rows - 1 |
| `OutboxTheorems.InstallationIsOk` | backend/rust/crates/analytics/src/admission.rs:191-299 | Installing a policy over existing tables establishes the invariant |
| `OutboxTheorems.FreshDatabaseIsOk` | backend/rust/crates/analytics/src/admission.rs:255-294 | A policy installed on an empty database is a state from which runs start |
| `Transactions.TerminationIsCounted` | backend/rust/crates/analytics/src/admission.rs:468-494 | Making a batch terminal lowers the account by exactly the rows that leave the backlog |
| `Transactions.OldestIsMinimum` | backend/rust/crates/analytics/src/admission.rs:562-566 | The exact sample counts the pending rows and its time is a lower bound of theirs |
| `Transactions.AdmitAccounts` | backend/rust/crates/analytics/src/admission.rs:385-464 | A reservation adds exactly its rows to the account and keeps the older of the two oldest times; an empty one changes nothing |
| `OutboxStore.OutboxTables.EnqueueEvents` | backend/rust/crates/analytics/src/outbox.rs:161-255 | Succeeds exactly when the chunkless specification does and with the same tables; otherwise the tables are as before and the error names a cause that is really there |
| `OutboxStore.OutboxTables.InsertChunks` | backend/rust/crates/analytics/src/outbox.rs:191-250 | Inserting and verifying 1,000 events at a time inserts what one insertion would, with every event stored as its envelope; a failure is a CHECK violation or a real conflict of the named identity |
| `OutboxStore.OutboxTables.InsertChunk` | backend/rust/crates/analytics/src/outbox.rs:192-212 | One multi-row INSERT skips stored identities, counts the inserted rows and violates a CHECK exactly when some event does |
| `OutboxStore.OutboxTables.VerifyChunk` | backend/rust/crates/analytics/src/outbox.rs:234-249 | Finds an event whose stored row is not its envelope, if there is one |
| `OutboxStore.ExplainedFailuresFail` | backend/rust/crates/analytics/src/outbox.rs:161-255 | Each explained cause does make the specification fail, so success and the error cases are exact |
| `OutboxStore.OnlyAdmissionIsLeft` | backend/rust/crates/analytics/src/outbox.rs:251-253 | Once everything is inserted and verified, the result is the reservation of the distinct new identities |
| `Deduplication.Deduplicate` | backend/rust/crates/analytics/src/outbox.rs:173-189 | Keeps the first event of every identity in order, covers every input event, and reports a conflict only for two differing events of that identity |
| `Deduplication.DuplicatesInsertNothing` | backend/rust/crates/analytics/src/outbox.rs:173-189 | Dropping repeated identities first changes neither the inserted rows nor their number |
| `EnqueueLaws.EnqueueIsSetInsertion` | backend/rust/crates/analytics/src/outbox.rs:161-255 | On success every input identity is stored with exactly its envelope, prior rows and batches are unchanged, new rows come from the input, and the number reserved is the number of distinct new identities |
| `EnqueueLaws.EnqueueIsIdempotent` | backend/rust/crates/analytics/src/outbox.rs:161-255 | Repeating a successful call, at any time and with any ids, succeeds and changes nothing |
| `EnqueueLaws.EnqueueSucceedsIff` | backend/rust/crates/analytics/src/outbox.rs:161-255 | It succeeds exactly when the size and every CHECK are met, no identity is reused for other content, and the reservation is admitted |
| `EnqueueLaws.AllStoredIffNoConflict` | backend/rust/crates/analytics/src/outbox.rs:234-249 | Every event is found stored as itself exactly when neither the table nor the input holds another envelope of its identity |
| `EnqueueLaws.InsertMissingSplits` | backend/rust/crates/analytics/src/outbox.rs:192-212 | Inserting a concatenation is inserting its parts one after the other: chunking does not matter |
| `EnqueueLaws.InsertedCountIsNewIdentities` | backend/rust/crates/analytics/src/outbox.rs:210-212 | The inserted count is the number of distinct identities that were not stored |
| `EnqueueLaws.InsertMissingInserts` | backend/rust/crates/analytics/src/outbox.rs:192-212 | What an insertion leaves behind: old rows intact, new rows from the input with fresh ids, every identity stored, identities unique |
| `OutboxStore.OutboxTables.ClaimDeliveryBatch` | backend/rust/crates/analytics/src/outbox.rs:273-399 | The new tables and the returned batch are those of the claim function, on every branch and error |
| `OutboxStore.OutboxTables.ClaimExistingBatch` | backend/rust/crates/analytics/src/outbox.rs:401-442 | Leases the oldest claimable batch and loads it; a failed load changes nothing |
| `OutboxStore.OutboxTables.FormNewBatch` | backend/rust/crates/analytics/src/outbox.rs:335-395 | Creates the batch, assigns its rows and loads it back; a failure changes nothing |
| `OutboxStore.OutboxTables.MarkBatchPublished` | backend/rust/crates/analytics/src/outbox.rs:540-586 | The guarded batch update, the row update, the row-count check and the release, as one transaction equal to its function |
| `OutboxStore.OutboxTables.QuarantineOwnedBatch` | backend/rust/crates/analytics/src/outbox.rs:616-663 | The same for quarantine |
| `OutboxStore.OutboxTables.ReleaseBatchForRetry` | backend/rust/crates/analytics/src/outbox.rs:588-614 | Gives the lease back exactly when it is still held |
| `OutboxStore.OutboxTables.ReleaseSettled` | backend/rust/crates/analytics/src/outbox.rs:578-583 | The row count must be the manifest's, and the account is lowered by it |
| `OutboxStore.OutboxTables.CleanupPublished` | backend/rust/crates/analytics/src/outbox.rs:693-783 | Deletes the oldest expired published rows and then batches without rows, within the limits |
| `OutboxStore.OutboxTables.RefreshAdmission` | backend/rust/crates/analytics/src/admission.rs:301-360 | The refresh of the admission row against the exact backlog of these tables |
| `Drain.DrainEmptiesTheBacklog` | backend/rust/crates/analytics/src/outbox.rs:273-586 | With no arrivals, no faults and all leases expired, as many rounds as there are pending rows empty the backlog for any max_rows from 1 to 100,000, and a claim then finds nothing |
| `Drain.RoundMakesProgress` | backend/rust/crates/analytics/src/outbox.rs:273-586 | A round does nothing exactly when nothing is pending; otherwise it takes an open batch, oldest first, before it forms a new one, makes it terminal, strictly lowers the pending rows and leaves no lease running |
| `Drain.EveryRoundCounts` | backend/rust/crates/analytics/src/outbox.rs:273-586 | After n rounds at least n rows are settled, or none is left |
| `Drain.AnotherRoundIsPossible` | backend/rust/crates/workers/src/analytics.rs:245-460 | The state after a round always allows another one, with any batch size and a later clock |
| `Drain.OldestIsTaken` | backend/rust/crates/analytics/src/outbox.rs:401-424 | The batch taken over is the oldest open one by creation time |
| `AdmissionLaws.HysteresisIsHistory` | backend/rust/crates/analytics/src/admission.rs:611-640 | Folding the classifier from Normal over any samples gives HardStop exactly if a hard sample occurred since the last recovered one, SoftPressure exactly if a soft but no hard one did, Normal otherwise |
| `AdmissionLaws.StoredPressureIsHistory` | backend/rust/crates/analytics/src/admission.rs:301-466 | After any history of admissions, refreshes and releases, with any clock readings and refusals, the stored pressure is HardStop exactly if a hard sample was committed since the last recovered one, SoftPressure exactly if a soft but no hard one was; the samples are those of the installation, the refreshes and the admitted reservations |
| `AdmissionLaws.ClassifyIsMonotone` | backend/rust/crates/analytics/src/admission.rs:611-640 | The classifier is monotone in the current state and in the metrics |
| `AdmissionLaws.AdmissionIsDownwardClosed` | backend/rust/crates/analytics/src/admission.rs:385-441 | If a request is admitted, every smaller one is, under no worse pressure |
| `AdmissionLaws.AdmissionIsSplitSafe` | backend/rust/crates/analytics/src/admission.rs:385-464 | If a + b rows are admitted, then a and then b in the same second are, with the same accounted totals, the same window and no worse pressure |
| `AdmissionLaws.SoftRateHoldsInEverySecond` | backend/rust/crates/analytics/src/admission.rs:420-441 | Over every interleaving of admissions, refreshes and releases with stale clocks, the rows admitted under soft pressure in any one second total at most soft_max_new_rows_per_second |
| `AdmissionLaws.ReservationsFitBetweenSamples` | backend/rust/crates/analytics/src/admission.rs:385-412 | Whatever was admitted since the last sample, its reserved bytes plus the sampled relation size stay below hard_relation_bytes |
| `AdmissionLaws.TriggerNeverRejects` | backend/rust/migrations-postgres/0001_initial.sql:904-925 | Every update of the admission row increments the generation and moves no time backwards, as the guard trigger demands |
| `AdmissionLaws.AdmitNeverOverflowsAfterClassification` | backend/rust/crates/analytics/src/admission.rs:390-404 | The overflow error is possible only when the reserved bytes and the accounted relation size, or the stored database size, leave u64 together |
| `AdmissionStore.AdmissionTable.AdmitRows` | backend/rust/crates/analytics/src/admission.rs:362-466 | The in-place reservation equals its function on every branch; a refusal changes no column |
| `AdmissionStore.AdmissionTable.RefreshState` | backend/rust/crates/analytics/src/admission.rs:301-360 | The in-place refresh equals its function; a failure changes no column |
| `AdmissionStore.AdmissionTable.ReleaseRows` | backend/rust/crates/analytics/src/admission.rs:468-494 | The in-place release equals its function |
| `AdmissionStore.AdmissionTable.InstallPolicy` | backend/rust/crates/analytics/src/admission.rs:191-299 | The first installation samples and classifies from Normal; a later one changes nothing and succeeds exactly for the stored policy |
| `Preimages.EventIdPreimageIsInjective` | backend/rust/crates/analytics/src/event.rs:285-303 | Equal event id preimages have equal names, installations, report keys and users |
| `Preimages.BatchPreimageIsInjective` | backend/rust/crates/analytics/src/outbox.rs:785-796 | Equal manifest preimages have equal row sequences, of any lengths |
| `Preimages.FieldsDecode` | backend/rust/crates/analytics/src/event.rs:293-301 | A sequence of length-prefixed fields can be decoded |
| `Preimages.RowsDecode` | backend/rust/crates/analytics/src/outbox.rs:788-794 | A sequence of manifest rows can be decoded |
| `Preimages.DomainPreimageIsInjective` | backend/rust/crates/analytics/src/event.rs:411-417 | Within one domain, equal preimages have equal payloads |
| `Preimages.DomainsAreSeparate` | backend/rust/crates/analytics/src/outbox.rs:785-804 | Whatever is fed behind them, preimages under different ones of the crate's seven hash domains differ |
| `Preimages.DeterministicEventId` | backend/rust/crates/analytics/src/event.rs:285-303 | Feeding the digest field by field produces the specified preimage |
| `Preimages.BatchContentHash` | backend/rust/crates/analytics/src/outbox.rs:785-796 | Feeding the digest row by row produces the specified preimage |
| `CanonicalJson.CanonicalIffSame` | backend/rust/crates/analytics/src/event.rs:396-409 | Two parsed payloads have equal canonical forms exactly when they are the same JSON value up to member order at every depth |
| `CanonicalJson.CanonicalIsIdempotent` | backend/rust/crates/analytics/src/event.rs:396-409 | Canonicalising twice is canonicalising once |
| `CanonicalJson.CanonicalIsTheSame` | backend/rust/crates/analytics/src/event.rs:396-409 | The canonical form is the same value, with no repeated names |
| `Ledger.ValidateLedgerRows` | backend/rust/crates/analytics/src/schema.rs:705-756 | Returns k exactly when the ledger is a permutation of the first k lineage rows (all seven when exact); otherwise the error names a real duplicate, unknown version, changed checksum or name, gap or missing tail |
| `Ledger.CheckRows` | backend/rust/crates/analytics/src/schema.rs:709-734 | The row loop: every row known and matching, no version twice, the set of versions seen |
| `Ledger.RecordsIsClean` | backend/rust/crates/analytics/src/schema.rs:705-756 | A permutation of the first k lineage rows has exactly the versions 1..k, once each, all matching |
| `Ledger.CleanIsRecords` | backend/rust/crates/analytics/src/schema.rs:736-754 | Matching rows without repetition whose versions are 1..k are a permutation of the first k lineage rows |
| `Migrator.Server.Migrate` | backend/rust/crates/analytics/src/schema.rs:223-295 | On any database success means the complete lineage, rows are only appended and tables only added; on what any earlier run left behind, at whatever statement it stopped, the only failures are a crash that leaves a resumable database and an unsupported server, and sixteen surviving statements finish |
| `Migrator.Server.MigrateWithRetries` | backend/rust/crates/analytics/src/schema.rs:223-295 | Rerunning over any sequence of crash points keeps the database resumable, and ends with one row per version as soon as one attempt can finish |
| `Migrator.Server.ApplyMigration` | backend/rust/crates/analytics/src/schema.rs:277-291 | One round executes the DDL, validates it, records it once and re-validates |
| `Migrator.Server.InsertLedgerRow` | backend/rust/crates/analytics/src/schema.rs:758-784 | A ledger row is inserted at most once per version under its token |
| `Migrator.Server.ValidateSchema` | backend/rust/crates/analytics/src/schema.rs:826-869 | Accepts exactly the seven expected tables, all sound |
| `Migrator.Server.Bootstrap` | backend/rust/crates/analytics/src/schema.rs:236-270 | Refuses foreign databases, prepares the ledger table with deduplication, and accepts every state a crash can leave |
| `InstallationBinding.OneInstallationWins` | backend/rust/crates/analytics/src/schema.rs:301-340 | However provisioners race, crash and retry, all that are ever told they succeeded are of one installation, whose single row binds the table |
| `InstallationBinding.BindingIsPermanent` | backend/rust/crates/analytics/src/schema.rs:319-338 | The first binding row is never joined, changed or removed |
| `InstallationBinding.LoserLostToAWinner` | backend/rust/crates/analytics/src/schema.rs:605-620 | A verification fails only because another installation's single row is there |
| `InstallationBinding.VerifyBinding` | backend/rust/crates/analytics/src/schema.rs:605-620 | Succeeds exactly for the single row of this installation |
| `ComponentSweep.ReachableComponents` | backend/rust/crates/api-contract/src/operations.rs:2885-2917 | For every document: what it returns is reached from paths, webhooks, security and all responses, and it fails only if something reached is malformed, external, unresolved or unknown. Where no required security scheme is pointed into by a reached reference, it fails exactly then and returns exactly what is reached |
| `ComponentSweep.TraversalIsExact` | backend/rust/crates/api-contract/src/operations.rs:2919-3132 | A finished depth-first traversal from all roots has marked only what is reached; where no required security scheme is pointed into, all of what is reached, and all of it is sound |
| `ComponentTraversal.Traversal.VisitReference` | backend/rust/crates/api-contract/src/operations.rs:3075-3103 | Visiting a reference marks it and everything behind it, apart from schemes marked before, or fails because something behind it does; terminates by the unvisited references |
| `ComponentTraversal.Traversal.VisitValue` | backend/rust/crates/api-contract/src/operations.rs:2949-3006 | Visiting a value visits exactly the links its OpenAPI structure holds; terminates by unvisited references, then the value |
| `ComponentTraversal.Traversal.VisitScheme` | backend/rust/crates/api-contract/src/operations.rs:3109-3131 | An unmarked scheme of a security requirement is marked and its definition visited; a marked one changes nothing |
| `ComponentTraversal.Traversal.VisitDiscriminator` | backend/rust/crates/api-contract/src/operations.rs:3042-3073 | Visits the targets of a discriminator mapping, by reference or by schema name |
| `ComponentTraversal.Traversal.VisitLink` | backend/rust/crates/api-contract/src/operations.rs:3018-3040 | Visits a link's reference or its structural fields, never its parameters or request body |
| `ComponentTraversal.Traversal.VisitMap` | backend/rust/crates/api-contract/src/operations.rs:2939-2947 | Visits all entries of a name map |
| `ComponentTraversal.Traversal.VisitExtensibleMap` | backend/rust/crates/api-contract/src/operations.rs:2927-2937 | Visits the entries of an extensible map, without its x- fields |
| `SchemeReference.ConflictExists` | backend/rust/crates/api-contract/src/operations.rs:3109-3131 | A concrete document with a scheme that a requirement can name, and a pointer to a part of it that does not hold the scheme's only reference |
| `SchemeReference.ConflictPointsInto` | backend/rust/crates/api-contract/src/operations.rs:3158-3178 | In every such case the pointer is into the scheme, so the condition of the exact mark excludes it |
| `SchemeReference.PointerFirst` | backend/rust/crates/api-contract/src/operations.rs:3075-3131 | In every such case, visiting the pointer and then the requirement marks the scheme alone |
| `SchemeReference.RequirementFirst` | backend/rust/crates/api-contract/src/operations.rs:3075-3131 | In every such case, visiting the requirement and then the pointer marks the component behind the scheme too: the mark depends on the order of the walk |
| `ComponentPruning.MarkIsLeastClosed` | backend/rust/crates/api-contract/src/operations.rs:2885-2917 | The links reached are closed under references and lie in every closed set that holds the roots |
| `ComponentPruning.SweepIsExact` | backend/rust/crates/api-contract/src/operations.rs:2822-2845 | If no reached reference is to the document or its components object, the sweep leaves exactly the marked components, the result is sound, and it reaches exactly what it reached before, so that a second sweep leaves it as it is; pointers into kept components still resolve to the same values |
| `ComponentPruning.NothingDangles` | backend/rust/crates/api-contract/src/operations.rs:2822-2845 | If also every reached reference into the components is to a whole one, each component that is left scans cleanly and every link in it leads to the value it led to before |
| `ContainerReference.SecondSweepRemovesMore` | backend/rust/crates/api-contract/src/operations.rs:3082-3102 | A concrete document, sound before and after, with a reached reference to its components object that a second sweep shrinks further |
| `RepeatedSweep.SweptStaysSound` | backend/rust/crates/api-contract/src/operations.rs:2822-2845 | With container references too, the swept document is sound again and needs nothing that was not needed before |
| `RepeatedSweep.SweepingSettles` | backend/rust/crates/api-contract/src/operations.rs:2822-2845 | Repeated sweeping of such a document reaches, after at most as many sweeps as it has components, one that needs all of its components, each of which was needed in the beginning |
| `ComponentPruning.PruneUnreachable` | backend/rust/crates/api-contract/src/operations.rs:2822-2845 | For every document: the unneeded components are gone, those left and everything outside the components are as they were, and it fails only for unsound documents. Where no required security scheme is pointed into, it fails exactly for those and removes nothing that is needed; where also no container is referred to, the result is sound and needs the same components, which are all that is left |
| `ComponentPruning.EnsureAllReachable` | backend/rust/crates/api-contract/src/operations.rs:2847-2862 | What it accepts has no unneeded component; where no required security scheme is pointed into, it accepts exactly the sound documents that need all their components |
| `ComponentPruning.PruneTwice` | backend/rust/crates/api-contract/src/operations.rs:4102-4108 | A sound document without a pointer into a required scheme or a reached container reference: pruning again removes nothing and the reachability gate passes |
| `ComponentGraph.EncodedReferenceNames` | backend/rust/crates/api-contract/src/operations.rs:3158-3178 | The encoded reference to a component names exactly that component, whatever characters its name holds |
| `ComponentGraph.WholeReferenceIsEntry` | backend/rust/crates/api-contract/src/operations.rs:3082-3097 | A reference to a whole component resolves to that component's entry |
| `ComponentGraph.ReferenceWalksFromEntry` | backend/rust/crates/api-contract/src/operations.rs:3082-3097 | A reference to or into a component resolves from the entry of the component it names |
| `JsonPointer.DecodeEncode` | backend/rust/crates/api-contract/src/operations.rs:3180-3186 | Decoding a pointer segment undoes encoding it, for every string |
| `JsonPointer.DecodedToPlain` | backend/rust/crates/api-contract/src/operations.rs:3180-3186 | Only the plain text itself decodes to a text without tildes and slashes |
| `JsonPointer.EncodeDecodeIff` | backend/rust/crates/api-contract/src/operations.rs:3180-3186 | Encoding undoes decoding exactly on segments without a slash in which every tilde is followed by 0 or 1 |
| `Reachability.ReachedIsLeast` | backend/rust/crates/api-contract/src/operations.rs:2885-2917 | What is reached lies in every closed set that holds the start |
| `RouteGuard.RedirectsConverge` | frontend/apps/user/src/App.tsx:122-128 | With the sign-in state fixed and an applicable fallback that the guard leaves alone, every redirect chain ends within the length of the normalised path plus one step, for every matcher |
| `RouteGuard.AllSettleIffFallbackSettles` | frontend/packages/config/src/route-guard.ts:67-89 | All chains end if and only if the one from the applicable fallback ends within the length of its normalised path plus one step |
| `RouteGuard.FallbackSettlesSoonOrNever` | frontend/packages/config/src/route-guard.ts:67-89 | The chain from the fallback ends within that many steps or never |
| `RouteGuard.ChainsFollowTheFallback` | frontend/packages/config/src/route-guard.ts:67-89 | If the chain from the fallback ends within m steps, every chain ends within its own path length plus one plus m |
| `RouteGuard.UnstableFallbackNeverSettles` | frontend/packages/config/src/route-guard.ts:67-89 | A concrete configuration whose guest fallback lies below nested prefixes redirects for ever |
| `RouteGuard.UnstableFallbackLoops` | frontend/packages/config/src/route-guard.ts:67-89 | The two locations of that loop are sent to each other |
| `RouteGuard.RecoverNestedPrefix` | frontend/packages/config/src/route-guard.ts:52-65 | The prefix-stripping loop terminates for every matcher and prefix list, and a recovered path is known and shorter |
| `RouteGuard.RecoveredForm` | frontend/packages/config/src/route-guard.ts:52-65 | A recovered path is known, normalised and shorter, and has no query if the path had none |
| `RouteGuard.NormalizedForm` | frontend/packages/config/src/route-guard.ts:36-40 | A normalised path starts with a slash, has no outer white space, and is a fixed point |
| `RouteGuard.OneRedirect` | frontend/packages/config/src/route-guard.ts:67-89 | One application yields the fallback, the normalised path as a fixed point, or a strictly shorter path |
| `RouteGuard.QueryIsCarriedAlong` | frontend/packages/config/src/route-guard.ts:68-70 | The chain of a location with more query is the chain of the location with the query carried along |
| `Money.ScaledIntegerIsNearest` | frontend/packages/api-client/src/money.ts:22-42 | The result is the integer nearest to value times scale with ties away from zero; the scale, text and range errors occur exactly for an invalid scale, an invalid text and an unsafe nearest integer |
| `Money.NearestIsComputed` | frontend/packages/api-client/src/money.ts:29-36 | There is exactly one such integer, and it is the computed one |
| `Money.TrailingZerosAreIrrelevant` | frontend/packages/api-client/src/money.ts:29-36 | Zeros after the last decimal place change nothing, for any scale |
| `Money.ParsePrintRoundTrip` | backend/rust/crates/api/src/client.rs:437-450 | Parsing the printed form of c cents gives back c for every c in the safe integer range, and the range error for every other 64-bit amount |
| `Money.TextParses` | frontend/packages/api-client/src/money.ts:3-13 | A text of an optional plus or minus sign, digits, point and digits parses to exactly these parts |
| `Money.DigitsRoundTrip` | backend/rust/crates/api/src/client.rs:437-450 | Printed digits read back as the number |

## Left out

- SQL text, connection pools, timeouts, Redis, HTTP handlers, React components and metrics: input and output without a law to prove.
- ClickHouse TTL deletion, the finite deduplication window and multi-block inserts: tokens are remembered for ever and inserts are atomic.
- `configure_clickhouse_retention`, the column-by-column schema checks and the server version parser: a table is sound or drifted, and the version is a flag.
- Concurrent migrators: the source requires them to be serialised; the model has one migrator with crashes.
- The texts of `last_error` and of quarantine reasons, and `attempt_count` leaving 32 bits: they decide nothing.
- The generation counter leaving 64 bits.
- CHECK constraints on the shape of digests and payloads: digests are preimages here.
- Database headroom between two samples: an admission does not advance the sampled database size, so no cumulative bound holds.
- Uniqueness of an event id for ever: cleanup lets an id be enqueued again; uniqueness holds among the stored rows.
- OutboxStore.OutboxTables.EnqueueEvents: requires an installed policy, because the refusal without one is modelled in `AdmissionTable` alone; that stored identities are unique and new ids unused is what the unique index and the sequence guarantee.
- ComponentSweep.ReachableComponents: for a document whose required scheme is pointed into, only that the result is reached is promised; what it lacks depends on the order of the walk.
- RepeatedSweep.SweptStaysSound: assumes that no component is a list called "security"; such a list is scanned as security requirements only beside a component called "responses" of its kind, which the sweep may remove.
- Migrator.Server.MigrateWithRetries: models an operator who reruns a crashed migration; the source has no retry loop of its own.
- The decimal parser of `rust_decimal`, UUID parsing and calendar formatting: a decimal text carries its parsed value, and dates are ordinals with months of 31 slots.
- Outbox rows are deleted, claimed and published by set-valued statements; each is one assignment of the whole table in `OutboxTables`, so the order in which PostgreSQL touches rows is not modelled.
- Error texts and their order where several faults are present at once: `Explains`, `Faulty` and `Fails` say which causes are real, not which one is named first.
- URL re-encoding between two redirects by the browser: the loader is given the path and query it redirected to.
- Amounts given to the money parser as JavaScript numbers: only their string form is parsed.
- Unicode subtleties of `trim` in Rust and of PostgreSQL's `btrim`: ASCII white space is modelled there.
- The normalisation of closed schemas and the operation table of the API contract: declarative data.
- User-agent handling, step-up windows and locale negotiation: small next to the above.
