/**
 The PostgreSQL side of backend/rust/crates/analytics/src/outbox.rs: the tables
 analytics_outbox and analytics_delivery_batch, and each transaction as a
 function from the committed database to the committed database. A transaction
 that fails rolls back, so its function returns no database.

 Rows that other transactions hold locked are skipped by FOR UPDATE SKIP LOCKED;
 the functions take the skipped ids as parameters.
 */
module Outbox {
  import opened Wrappers
  import opened MachineInts
  import opened Calendar
  import opened Events
  import opened TrafficRows
  import opened SqlOrder
  import Admission

  const ENQUEUE_CHUNK_ROWS := 1_000
  const MAX_ENQUEUE_ROWS := 100_000
  const MIN_PUBLISHED_RETENTION_SECONDS := 86_400
  const MAX_PUBLISHED_RETENTION_SECONDS := 7_776_000
  const MAX_PUBLISHED_CLEANUP_ROWS := 100_000
  const INSERT_SETTINGS :=
    "async_insert=0\nwait_end_of_query=1\ninsert_deduplication_token=batch_id\n" +
    "non_replicated_deduplication_window=10000\nclickhouse_lts=26.3\nsingle_event_table=1\n" +
    "single_partition_month=1\nstable_outbox_order=1\n"

  // ---- Tables ----------------------------------------------------------------------------

  datatype OutboxRow = OutboxRow(
    event: AnalyticsEvent, createdAt: i64, deliveryBatchId: Option<int>, batchRowNumber: Option<int>,
    publishedAt: Option<i64>, quarantinedAt: Option<i64>)

  datatype BatchState = Ready | Publishing | Published | Quarantined

  /** One item of the preimage of content_sha256. */
  datatype ContentItem = ContentItem(rowNumber: int, eventId: EventId, payloadHash: PayloadHash)

  datatype DeliveryBatch = DeliveryBatch(
    eventName: string, schemaMajor: int, partitionMonth: Date, rowCount: int,
    content: seq<ContentItem>, settings: string, state: BatchState,
    leaseOwner: Option<int>, leaseExpiresAt: Option<i64>, attemptCount: nat,
    publishedAt: Option<i64>, quarantinedAt: Option<i64>, createdAt: i64)

  type Rows = map<int, OutboxRow>
  type Batches = map<int, DeliveryBatch>

  datatype Database = Database(
    rows: Rows, batches: Batches, policy: Admission.PolicyRow, admission: Admission.StateRow)

  /** The handle a claim returns: the manifest as loaded, and the lease it was loaded under. */
  datatype ClaimedBatch = ClaimedBatch(batchId: int, leaseOwner: int, leaseExpiresAt: i64, manifest: Manifest)

  datatype OutboxError =
    | AdmissionRefused(reason: Admission.AdmissionError)
    | ConstraintViolation
    | EventConflict(eventId: EventId)
    | InvalidBatchSize
    | InvalidLease
    | InvalidPartitionMonth
    | ManifestConflict
    | LeaseLost
    | InvalidPublishedRetention
    | InvalidPublishedCleanupLimit

  predicate Pending(row: OutboxRow) {
    row.publishedAt.None? && row.quarantinedAt.None?
  }

  function PendingIds(rows: Rows): set<int> {
    set id | id in rows && Pending(rows[id])
  }

  /** COUNT(*) and MIN(created_at) over the pending rows. */
  function ExactBacklog(rows: Rows): Admission.Backlog
    requires |PendingIds(rows)| <= I64_MAX
  {
    var ids := PendingIds(rows);
    if ids == {} then Admission.Backlog(0, None)
    else
      var oldest := First(ids, (id: int) => if id in rows then rows[id].createdAt else 0);
      Admission.Backlog(|ids|, Some(rows[oldest].createdAt))
  }

  // ---- enqueue_events ----------------------------------------------------------------------

  predicate Stored(rows: Rows, id: EventId) {
    exists k :: k in rows && rows[k].event.eventId == id
  }

  /** A stored row of this identity exists and its whole envelope is the event's. */
  predicate StoredAs(rows: Rows, e: AnalyticsEvent) {
    exists k :: k in rows && rows[k].event == e
  }

  /** The CHECK constraints of analytics_outbox on an inserted envelope. */
  predicate Insertable(e: AnalyticsEvent) {
    && !IsBlank(e.eventName)
    && e.schemaMajor > 0
    && 1 <= |e.reportKey| <= 64
    && e.partitionMonth.Some?
    && IsMonthStart(e.partitionMonth.value)
  }

  function NewRow(e: AnalyticsEvent, createdAt: i64): OutboxRow {
    OutboxRow(e, createdAt, None, None, None, None)
  }

  /** One more row of the INSERT: a stored identity is skipped, a new one takes the next id. */
  function InsertNext(before: (Rows, nat), e: AnalyticsEvent, createdAt: i64, ids: seq<int>): (Rows, nat)
    requires before.1 < |ids|
  {
    if Stored(before.0, e.eventId) then before else (before.0[ids[before.1] := NewRow(e, createdAt)], before.1 + 1)
  }

  /** INSERT ... ON CONFLICT (event_id) DO NOTHING for the events in order; the n-th inserted row takes ids[n]. */
  function InsertMissing(rows: Rows, events: seq<AnalyticsEvent>, createdAt: i64, ids: seq<int>): (r: (Rows, nat))
    requires |ids| >= |events|
    ensures r.1 <= |events|
  {
    if events == [] then (rows, 0)
    else InsertNext(InsertMissing(rows, events[..|events| - 1], createdAt, ids), events[|events| - 1], createdAt, ids)
  }

  /** enqueue_events without chunks: insert what is missing, compare every event with what is stored
      under its identity, then reserve the inserted rows with the admission controller. */
  function Enqueue(db: Database, events: seq<AnalyticsEvent>, createdAt: i64, now: i64, ids: seq<int>)
    : Result<Database, OutboxError>
    requires |ids| >= |events|
  {
    if |events| > MAX_ENQUEUE_ROWS then Failure(InvalidBatchSize)
    else if exists e :: e in events && e.partitionMonth.None? then Failure(InvalidPartitionMonth)
    else if exists e :: e in events && !Insertable(e) then Failure(ConstraintViolation)
    else
      var (rows, inserted) := InsertMissing(db.rows, events, createdAt, ids);
      if i :| 0 <= i < |events| && !StoredAs(rows, events[i]) && (forall j :: 0 <= j < i ==> StoredAs(rows, events[j]))
              then Failure(EventConflict(events[i].eventId))
      else
        var admitted := Admission.Admit(db.policy, db.admission, inserted, createdAt, now);
        if admitted.Failure? then Failure(AdmissionRefused(admitted.error))
        else Success(db.(rows := rows, admission := admitted.value.0))
  }

  // ---- load_claimed_batch ----------------------------------------------------------------------

  function RowsOfBatch(rows: Rows, batchId: int): set<int> {
    set id | id in rows && rows[id].deliveryBatchId == Some(batchId)
  }

  /** batch_row_number as an ORDER BY key; a missing number sorts first and fails the u32 conversion. */
  function RowNumber(rows: Rows, id: int): int {
    if id in rows && rows[id].batchRowNumber.Some? then rows[id].batchRowNumber.value else -1
  }

  function BatchOrder(rows: Rows, batchId: int): seq<int> {
    OrderBy(RowsOfBatch(rows, batchId), (id: int) => RowNumber(rows, id))
  }

  /** Row i must carry the number i and the stream of its batch. */
  predicate RowFitsBatch(rows: Rows, batch: DeliveryBatch, id: int, i: nat) {
    && id in rows
    && RowNumber(rows, id) == i
    && rows[id].event.eventName == batch.eventName
    && rows[id].event.schemaMajor == batch.schemaMajor
    && rows[id].event.partitionMonth == Some(batch.partitionMonth)
  }

  function ContentOf(rows: Rows, order: seq<int>): (content: seq<ContentItem>)
    requires forall id :: id in order ==> id in rows
    ensures |content| == |order|
    ensures forall i :: 0 <= i < |order| ==>
                          content[i] == ContentItem(RowNumber(rows, order[i]), rows[order[i]].event.eventId,
                                                    rows[order[i]].event.payloadHash)
  {
    if order == [] then []
    else
      var id := order[0];
      [ContentItem(RowNumber(rows, id), rows[id].event.eventId, rows[id].event.payloadHash)]
      + ContentOf(rows, order[1..])
  }

  function RecordsOf(rows: Rows, order: seq<int>): (records: seq<OutboxRecord>)
    requires forall id :: id in order ==> id in rows && RowNumber(rows, id) >= 0
    ensures |records| == |order|
    ensures forall i :: 0 <= i < |order| ==>
                          records[i] == OutboxRecord(order[i], RowNumber(rows, order[i]), rows[order[i]].event)
  {
    if order == [] then []
    else
      [OutboxRecord(order[0], RowNumber(rows, order[0]), rows[order[0]].event)] + RecordsOf(rows, order[1..])
  }

  function LoadClaimed(rows: Rows, batches: Batches, batchId: int, owner: int): Result<ClaimedBatch, OutboxError> {
    if batchId !in batches || batches[batchId].leaseOwner != Some(owner) then Failure(LeaseLost)
    else
      var batch := batches[batchId];
      var order := BatchOrder(rows, batchId);
      if batch.leaseExpiresAt.None? then Failure(ConstraintViolation)
      else if || order == []
              || batch.rowCount != |order|
              || (exists i :: 0 <= i < |order| && !RowFitsBatch(rows, batch, order[i], i))
              || batch.content != ContentOf(rows, order)
              || batch.settings != INSERT_SETTINGS
              || batch.state !in {Ready, Publishing}
      then Failure(ManifestConflict)
      else
        assert forall i :: 0 <= i < |order| ==> RowFitsBatch(rows, batch, order[i], i);
        Success(ClaimedBatch(
                  batchId, owner, batch.leaseExpiresAt.value,
                  Manifest(batch.eventName, batch.schemaMajor, batch.partitionMonth, batch.createdAt,
                           RecordsOf(rows, order))))
  }

  // ---- claim_delivery_batch ----------------------------------------------------------------------

  /** The arguments of a claim, the fresh UUID it would use, and the ids other transactions hold locked. */
  datatype ClaimArgs = ClaimArgs(
    owner: int, now: i64, leaseSeconds: int, maxRows: int, newBatchId: int,
    lockedBatches: set<int>, lockedSeeds: set<int>, lockedRows: set<int>)

  predicate Claimable(batch: DeliveryBatch, now: i64) {
    && batch.publishedAt.None?
    && batch.quarantinedAt.None?
    && batch.state in {Ready, Publishing}
    && (batch.leaseExpiresAt.None? || batch.leaseExpiresAt.value < now)
  }

  function ClaimableIds(batches: Batches, now: i64, locked: set<int>): set<int> {
    set b | b in batches && b !in locked && Claimable(batches[b], now)
  }

  /** The oldest claimable batch: ORDER BY created_at, batch_id LIMIT 1. */
  function OldestClaimable(batches: Batches, now: i64, locked: set<int>): (b: int)
    requires ClaimableIds(batches, now, locked) != {}
    ensures b in ClaimableIds(batches, now, locked)
  {
    First(ClaimableIds(batches, now, locked), (b: int) => if b in batches then batches[b].createdAt else 0)
  }

  function Leased(batch: DeliveryBatch, owner: int, expiresAt: i64): DeliveryBatch {
    batch.(state := Publishing, leaseOwner := Some(owner), leaseExpiresAt := Some(expiresAt),
           attemptCount := batch.attemptCount + 1)
  }

  predicate Unbatched(row: OutboxRow) {
    Pending(row) && row.deliveryBatchId.None?
  }

  function UnbatchedIds(rows: Rows, locked: set<int>): set<int> {
    set id | id in rows && id !in locked && Unbatched(rows[id])
  }

  predicate SameStream(a: AnalyticsEvent, b: AnalyticsEvent) {
    a.eventName == b.eventName && a.schemaMajor == b.schemaMajor && a.partitionMonth == b.partitionMonth
  }

  function StreamIds(rows: Rows, seed: AnalyticsEvent, locked: set<int>): set<int> {
    set id | id in UnbatchedIds(rows, locked) && SameStream(rows[id].event, seed)
  }

  /** The rows a new batch takes: the first maxRows unlocked rows of the seed's stream. */
  function RowsToBatch(rows: Rows, seed: AnalyticsEvent, locked: set<int>, maxRows: nat): (order: seq<int>)
    ensures |order| <= maxRows
    ensures forall i :: 0 <= i < |order| ==> order[i] in StreamIds(rows, seed, locked)
  {
    Limited(StreamIds(rows, seed, locked), (id: int) => id, maxRows)
  }

  /** UPDATE ... SET delivery_batch_id, batch_row_number FROM UNNEST(ids, 0..n). */
  function Assigned(rows: Rows, order: seq<int>, batchId: int): Rows {
    map id | id in rows ::
      if i :| 0 <= i < |order| && order[i] == id && (forall j :: 0 <= j < i ==> order[j] != id)
              then rows[id].(deliveryBatchId := Some(batchId), batchRowNumber := Some(i))
      else rows[id]
  }

  function NewBatch(rows: Rows, seed: AnalyticsEvent, order: seq<int>, owner: int, now: i64,
                    expiresAt: i64): DeliveryBatch
    requires forall i :: 0 <= i < |order| ==> order[i] in rows
    requires seed.partitionMonth.Some?
  {
    DeliveryBatch(
      seed.eventName, seed.schemaMajor, seed.partitionMonth.value, |order|,
      seq(|order|, i requires 0 <= i < |order| && order[i] in rows =>
        ContentItem(i, rows[order[i]].event.eventId, rows[order[i]].event.payloadHash)),
      INSERT_SETTINGS, Publishing, Some(owner), Some(expiresAt), 1, None, None, now)
  }

  datatype Claim = Claim(db: Database, batch: Option<ClaimedBatch>)

  function ClaimExisting(db: Database, args: ClaimArgs, expiresAt: i64): Result<Claim, OutboxError>
    requires ClaimableIds(db.batches, args.now, args.lockedBatches) != {}
  {
    var b := OldestClaimable(db.batches, args.now, args.lockedBatches);
    var batches := db.batches[b := Leased(db.batches[b], args.owner, expiresAt)];
    var claimed :- LoadClaimed(db.rows, batches, b, args.owner);
    Success(Claim(db.(batches := batches), Some(claimed)))
  }

  /** Freezes the selected rows into a new batch and loads it back. */
  function FormBatch(db: Database, args: ClaimArgs, expiresAt: i64, seed: AnalyticsEvent,
                     order: seq<int>): Result<Claim, OutboxError>
    requires forall i :: 0 <= i < |order| ==> order[i] in db.rows
  {
    if seed.partitionMonth.None? || args.newBatchId in db.batches then Failure(ConstraintViolation)
    else
      var batches := db.batches[args.newBatchId := NewBatch(db.rows, seed, order, args.owner, args.now, expiresAt)];
      var rows := Assigned(db.rows, order, args.newBatchId);
      var claimed :- LoadClaimed(rows, batches, args.newBatchId, args.owner);
      Success(Claim(db.(rows := rows, batches := batches), Some(claimed)))
  }

  function ClaimNew(db: Database, args: ClaimArgs, expiresAt: i64): Result<Claim, OutboxError>
    requires args.maxRows >= 0
  {
    var seeds := UnbatchedIds(db.rows, args.lockedSeeds);
    if seeds == {} then Success(Claim(db, None))
    else
      var seed := db.rows[First(seeds, (id: int) => id)].event;
      var order := RowsToBatch(db.rows, seed, args.lockedRows, args.maxRows);
      if order == [] then Success(Claim(db, None))
      else FormBatch(db, args, expiresAt, seed, order)
  }

  function ClaimBatch(db: Database, args: ClaimArgs): Result<Claim, OutboxError> {
    if args.maxRows < 1 || args.maxRows > 100_000 then Failure(InvalidBatchSize)
    else if args.leaseSeconds < 1 || args.leaseSeconds > 3_600 then Failure(InvalidLease)
    else
      var expiresAt := SaturateI64(args.now + args.leaseSeconds);
      if ClaimableIds(db.batches, args.now, args.lockedBatches) != {} then ClaimExisting(db, args, expiresAt)
      else ClaimNew(db, args, expiresAt)
  }

  // ---- mark_batch_published, release_batch_for_retry, quarantine_batch -------------------------------

  /** The lease guard of the UPDATE statements: still owned, and not terminal. */
  predicate Owns(batches: Batches, claimed: ClaimedBatch) {
    && claimed.batchId in batches
    && batches[claimed.batchId].leaseOwner == Some(claimed.leaseOwner)
    && batches[claimed.batchId].publishedAt.None?
    && batches[claimed.batchId].quarantinedAt.None?
  }

  predicate OwnsPublishing(batches: Batches, claimed: ClaimedBatch) {
    Owns(batches, claimed) && batches[claimed.batchId].state == Publishing
  }

  function PendingOfBatch(rows: Rows, batchId: int): set<int> {
    set id | id in RowsOfBatch(rows, batchId) && Pending(rows[id])
  }

  function UnpublishedOfBatch(rows: Rows, batchId: int): set<int> {
    set id | id in RowsOfBatch(rows, batchId) && rows[id].publishedAt.None?
  }

  function PublishRows(rows: Rows, ids: set<int>, at: i64): Rows {
    map id | id in rows :: if id in ids then rows[id].(publishedAt := Some(at)) else rows[id]
  }

  function QuarantineRows(rows: Rows, ids: set<int>, at: i64): Rows {
    map id | id in rows :: if id in ids then rows[id].(quarantinedAt := Some(at)) else rows[id]
  }

  function MarkPublished(db: Database, claimed: ClaimedBatch, publishedAt: i64, now: i64)
    : Result<Database, OutboxError>
  {
    if !OwnsPublishing(db.batches, claimed) then Failure(LeaseLost)
    else
      var batch := db.batches[claimed.batchId].(
                   state := Published, publishedAt := Some(publishedAt), leaseOwner := None, leaseExpiresAt := None);
      var ids := PendingOfBatch(db.rows, claimed.batchId);
      if |ids| != |claimed.manifest.records| then Failure(ManifestConflict)
      else if |ids| > U64_MAX then Failure(AdmissionRefused(Admission.Overflow))
      else
        var released := Admission.Release(db.admission, |ids|, now);
        if released.Failure? then Failure(AdmissionRefused(released.error))
        else Success(db.(rows := PublishRows(db.rows, ids, publishedAt),
                     batches := db.batches[claimed.batchId := batch], admission := released.value))
  }

  function ReleaseForRetry(db: Database, claimed: ClaimedBatch): Result<Database, OutboxError> {
    if !OwnsPublishing(db.batches, claimed) then Failure(LeaseLost)
    else
      var batch := db.batches[claimed.batchId].(state := Ready, leaseOwner := None, leaseExpiresAt := None);
      Success(db.(batches := db.batches[claimed.batchId := batch]))
  }

  function QuarantineBatch(db: Database, claimed: ClaimedBatch, quarantinedAt: i64, now: i64)
    : Result<Database, OutboxError>
  {
    if !Owns(db.batches, claimed) then Failure(LeaseLost)
    else
      var batch := db.batches[claimed.batchId].(
                   state := Quarantined, quarantinedAt := Some(quarantinedAt),
                   leaseOwner := None, leaseExpiresAt := None);
      var ids := UnpublishedOfBatch(db.rows, claimed.batchId);
      if |ids| != |claimed.manifest.records| then Failure(ManifestConflict)
      else if |ids| > U64_MAX then Failure(AdmissionRefused(Admission.Overflow))
      else
        var released := Admission.Release(db.admission, |ids|, now);
        if released.Failure? then Failure(AdmissionRefused(released.error))
        else Success(db.(rows := QuarantineRows(db.rows, ids, quarantinedAt),
                     batches := db.batches[claimed.batchId := batch], admission := released.value))
  }

  // ---- cleanup_published_outbox ------------------------------------------------------------------------

  function CleanupCutoff(now: i64, retentionSeconds: int, maxRows: int): Result<i64, OutboxError> {
    if !(MIN_PUBLISHED_RETENTION_SECONDS <= retentionSeconds <= MAX_PUBLISHED_RETENTION_SECONDS) then
      Failure(InvalidPublishedRetention)
    else if !(1 <= maxRows <= MAX_PUBLISHED_CLEANUP_ROWS) then Failure(InvalidPublishedCleanupLimit)
    else Success(SaturateI64(now - retentionSeconds))
  }

  predicate RowExpired(row: OutboxRow, cutoff: i64) {
    row.publishedAt.Some? && row.publishedAt.value < cutoff && row.quarantinedAt.None?
  }

  /** The rows one cleanup deletes: the oldest maxRows expired rows that are not locked. */
  function ExpiredRows(rows: Rows, cutoff: i64, maxRows: nat, locked: set<int>): (gone: seq<int>)
    ensures forall i :: 0 <= i < |gone| ==> gone[i] in rows && RowExpired(rows[gone[i]], cutoff)
  {
    Limited(set id | id in rows && id !in locked && RowExpired(rows[id], cutoff),
            (id: int) => if id in rows && rows[id].publishedAt.Some? then rows[id].publishedAt.value else 0, maxRows)
  }

  predicate BatchExpired(batch: DeliveryBatch, rows: Rows, b: int, cutoff: i64) {
    && batch.state == Published
    && batch.publishedAt.Some?
    && batch.publishedAt.value < cutoff
    && RowsOfBatch(rows, b) == {}
  }

  function ExpiredBatches(batches: Batches, rows: Rows, cutoff: i64, maxRows: nat, locked: set<int>): (gone: seq<int>)
    ensures forall i :: 0 <= i < |gone| ==> gone[i] in batches && BatchExpired(batches[gone[i]], rows, gone[i], cutoff)
  {
    Limited(set b | b in batches && b !in locked && BatchExpired(batches[b], rows, b, cutoff),
            (b: int) => if b in batches && batches[b].publishedAt.Some? then batches[b].publishedAt.value else 0,
            maxRows)
  }

  function Without<T>(m: map<int, T>, ids: seq<int>): map<int, T> {
    map id | id in m && id !in ids :: m[id]
  }

  function Cleanup(
    db: Database, now: i64, retentionSeconds: int, maxRows: int, lockedRows: set<int>, lockedBatches: set<int>)
    : Result<Database, OutboxError>
  {
    var cutoff :- CleanupCutoff(now, retentionSeconds, maxRows);
    var rows := Without(db.rows, ExpiredRows(db.rows, cutoff, maxRows, lockedRows));
    Success(db.(rows := rows,
            batches := Without(db.batches, ExpiredBatches(db.batches, rows, cutoff, maxRows, lockedBatches))))
  }

  // ---- refresh_analytics_admission -------------------------------------------------------------------------

  function Refresh(db: Database, sizes: Admission.Sizes, now: i64): Result<Database, OutboxError>
    requires |PendingIds(db.rows)| <= I64_MAX
  {
    var refreshed := Admission.Refresh(db.policy, db.admission, sizes, ExactBacklog(db.rows), now);
    if refreshed.Failure? then Failure(AdmissionRefused(refreshed.error))
    else Success(db.(admission := refreshed.value))
  }
}
