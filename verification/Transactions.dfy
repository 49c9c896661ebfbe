/**
 All transactions on the analytics tables, their effect on the journal, and the
 invariant that every one of them keeps in any order: frozen manifests, and an
 admission account that equals the exact backlog.
 */
module Transactions {
  import opened Wrappers
  import opened MachineInts
  import opened Finite
  import opened Events
  import opened TrafficRows
  import opened SqlOrder
  import opened Outbox
  import opened EnqueueLaws
  import opened OutboxInvariant
  import opened OutboxSafety
  import A = Admission

  datatype Tx =
    | EnqueueTx(events: seq<AnalyticsEvent>, createdAt: i64, now: i64, ids: seq<int>)
    | ClaimTx(args: ClaimArgs)
    | PublishTx(claimed: ClaimedBatch, publishedAt: i64, now: i64)
    | RetryTx(claimed: ClaimedBatch)
    | QuarantineTx(claimed: ClaimedBatch, quarantinedAt: i64, now: i64)
    | CleanupTx(now: i64, retentionSeconds: int, maxRows: int, lockedRows: set<int>, lockedBatches: set<int>)
    | RefreshTx(sizes: A.Sizes, now: i64)

  /** Outbox ids come from a sequence and batch ids from a UUID generator: neither is ever handed out twice. */
  ghost predicate Fresh(j: Journal, tx: Tx) {
    match tx
    case EnqueueTx(events, _, _, ids) =>
      |ids| >= |events| && Distinct(ids) && forall i :: 0 <= i < |ids| ==> ids[i] !in j.ids
    case ClaimTx(args) => args.newBatchId !in j.manifests
    case _ => true
  }

  ghost predicate Countable(db: Database) {
    |PendingIds(db.rows)| <= I64_MAX
  }

  function OrElse<E>(r: Result<Database, E>, db: Database): Database {
    if r.Success? then r.value else db
  }

  /** A failed transaction rolls back. */
  ghost function Apply(db: Database, tx: Tx): Database
    requires tx.EnqueueTx? ==> |tx.ids| >= |tx.events|
    requires Countable(db)
  {
    match tx
    case EnqueueTx(events, createdAt, now, ids) => OrElse(Enqueue(db, events, createdAt, now, ids), db)
    case ClaimTx(args) => if ClaimBatch(db, args).Success? then ClaimBatch(db, args).value.db else db
    case PublishTx(claimed, publishedAt, now) => OrElse(MarkPublished(db, claimed, publishedAt, now), db)
    case RetryTx(claimed) => OrElse(ReleaseForRetry(db, claimed), db)
    case QuarantineTx(claimed, quarantinedAt, now) => OrElse(QuarantineBatch(db, claimed, quarantinedAt, now), db)
    case CleanupTx(now, retention, maxRows, lockedRows, lockedBatches) =>
      OrElse(Cleanup(db, now, retention, maxRows, lockedRows, lockedBatches), db)
    case RefreshTx(sizes, now) => OrElse(Refresh(db, sizes, now), db)
  }

  /** The batch a claim transaction returned, if any. */
  function ClaimedBy(db: Database, tx: Tx): Option<ClaimedBatch> {
    if tx.ClaimTx? && ClaimBatch(db, tx.args).Success? then ClaimBatch(db, tx.args).value.batch else None
  }

  /** Sequence values are consumed even when the transaction rolls back. */
  ghost function Record(db: Database, j: Journal, tx: Tx): Journal {
    match tx
    case EnqueueTx(_, _, _, ids) => j.(ids := j.ids + Elements(ids))
    case ClaimTx(_) =>
      var claimed := ClaimedBy(db, tx);
      if claimed.Some? && claimed.value.batchId !in j.manifests
      then Formed(j, claimed.value.batchId, claimed.value.manifest) else j
    case PublishTx(claimed, publishedAt, now) =>
      if MarkPublished(db, claimed, publishedAt, now).Success? then j.(published := j.published + {claimed.batchId})
      else j
    case _ => j
  }

  // ---- The invariant ---------------------------------------------------------------------------

  /** The incremental account agrees with the tables. */
  ghost predicate AccountOk(db: Database) {
    && A.ValidPolicy(db.policy.policy)
    && db.admission.installation == db.policy.installation
    && |PendingIds(db.rows)| == db.admission.accountedRows
    && forall id :: id in PendingIds(db.rows) ==>
                      db.admission.oldestPendingCreatedAt.Some?
                      && db.admission.oldestPendingCreatedAt.value <= db.rows[id].createdAt
  }

  ghost predicate DatabaseOk(db: Database, j: Journal) {
    TablesOk(db.rows, db.batches, j) && AccountOk(db)
  }

  /** A handle some claim returned earlier. */
  ghost predicate Genuine(j: Journal, claimed: ClaimedBatch) {
    claimed.batchId in j.manifests && j.manifests[claimed.batchId] == claimed.manifest
  }

  // ---- Enqueue -----------------------------------------------------------------------------------

  lemma EnqueueKeeps(db: Database, j: Journal, events: seq<AnalyticsEvent>, createdAt: i64, now: i64, ids: seq<int>)
    requires DatabaseOk(db, j) && Fresh(j, EnqueueTx(events, createdAt, now, ids))
    ensures Enqueue(db, events, createdAt, now, ids).Success? ==>
              DatabaseOk(Enqueue(db, events, createdAt, now, ids).value, j.(ids := j.ids + Elements(ids)))
  {
    NewIdsAreUnused(db, j, ids);
    if Enqueue(db, events, createdAt, now, ids).Success? {
      EnqueueSucceedsIff(db, events, createdAt, now, ids);
      EnqueueIsSetInsertion(db, events, createdAt, now, ids);
      var after, count := Enqueue(db, events, createdAt, now, ids).value, |NewIdentities(db.rows, events)|;
      ArrivalKeepsTables(db.rows, after.rows, db.batches, j, events, createdAt, ids, count);
      ArrivalIsCounted(db.rows, after.rows, events, createdAt, ids, count);
      AdmitAccounts(db.policy, db.admission, count, createdAt, now);
      forall id | id in PendingIds(after.rows)
        ensures after.admission.oldestPendingCreatedAt.Some?
        ensures after.admission.oldestPendingCreatedAt.value <= after.rows[id].createdAt
      {
        if id in db.rows {
          assert id in PendingIds(db.rows);
        }
      }
    }
  }

  lemma NewIdsAreUnused(db: Database, j: Journal, ids: seq<int>)
    requires TablesOk(db.rows, db.batches, j)
    requires Distinct(ids) && forall i :: 0 <= i < |ids| ==> ids[i] !in j.ids
    ensures FreshIds(db.rows, ids) && UniqueEvents(db.rows)
  {
    forall i | 0 <= i < |ids|
      ensures ids[i] !in db.rows
    {
      assert ids[i] in db.rows ==> RowOk(db.rows, db.batches, j, ids[i]);
    }
  }

  lemma ArrivalIsCounted(before: Rows, after: Rows, events: seq<AnalyticsEvent>, createdAt: i64, ids: seq<int>,
                         count: nat)
    requires Inserted(before, after, events, createdAt, ids, count) && FreshIds(before, ids)
    ensures |PendingIds(after)| == |PendingIds(before)| + count
    ensures forall id :: id in PendingIds(after) && id !in before ==> after[id].createdAt == createdAt && count > 0
  {
    var arrived := Elements(ids[..count]);
    forall id | id in arrived
      ensures id !in before
    {
      var i :| 0 <= i < count && ids[..count][i] == id;
      assert ids[i] == id;
    }
    ArrivedArePending(before, after, arrived, createdAt);
    assert arrived !! PendingIds(before);
    DistinctCardinality(ids[..count]);
    if forall id :: id in after ==> id in before {
    } else {
      var id :| id in after && id !in before;
      assert id in arrived;
    }
  }

  lemma ArrivedArePending(before: Rows, after: Rows, arrived: set<int>, createdAt: i64)
    requires after.Keys == before.Keys + arrived
    requires forall id :: id in before ==> id in after && after[id] == before[id]
    requires forall id :: id in after && id !in before ==> after[id] == NewRow(after[id].event, createdAt)
    requires forall id :: id in arrived ==> id !in before
    ensures PendingIds(after) == PendingIds(before) + arrived
  {
    forall id
      ensures id in PendingIds(after) <==> id in PendingIds(before) + arrived
    {
      assert id in after.Keys <==> id in before.Keys + arrived;
    }
  }

  /** What a successful reservation does to the account. */
  lemma AdmitAccounts(policy: A.PolicyRow, s: A.StateRow, count: u64, createdAt: i64, now: i64)
    requires A.Admit(policy, s, count, createdAt, now).Success?
    ensures var t := A.Admit(policy, s, count, createdAt, now).value.0;
            && t.installation == s.installation
            && t.accountedRows == s.accountedRows + count
            && (count == 0 ==> t == s)
            && (count > 0 ==> t.oldestPendingCreatedAt == Some(
                  if s.oldestPendingCreatedAt.Some? then Min(s.oldestPendingCreatedAt.value, createdAt) else createdAt))
  {
  }

  // ---- Claim -----------------------------------------------------------------------------------------

  /** Leasing an open batch keeps the tables, and loading it returns its manifest. */
  lemma TakeoverLoads(db: Database, j: Journal, b: int, owner: int, now: i64, expiresAt: i64)
    requires DatabaseOk(db, j) && b in db.batches && Claimable(db.batches[b], now)
    ensures var batches := db.batches[b := Leased(db.batches[b], owner, expiresAt)];
            && b in j.manifests
            && DatabaseOk(db.(batches := batches), j)
            && LoadClaimed(db.rows, batches, b, owner) == Success(ClaimedBatch(b, owner, expiresAt, j.manifests[b]))
  {
    assert BatchOk(db.rows, db.batches, j, b);
    var leased := Leased(db.batches[b], owner, expiresAt);
    LeaseChangeKeepsTables(db.rows, db.batches, j, b, leased);
    LoadReturnsTheManifest(db.rows, db.batches[b := leased], j, b, owner);
  }

  lemma ClaimExistingKeeps(db: Database, j: Journal, args: ClaimArgs, expiresAt: i64)
    requires DatabaseOk(db, j) && ClaimableIds(db.batches, args.now, args.lockedBatches) != {}
    ensures var b := OldestClaimable(db.batches, args.now, args.lockedBatches);
            var r := ClaimExisting(db, args, expiresAt);
            && b in j.manifests
            && r.Success? && r.value.batch == Some(ClaimedBatch(b, args.owner, expiresAt, j.manifests[b]))
            && DatabaseOk(r.value.db, j)
            && OwnsPublishing(r.value.db.batches, r.value.batch.value)
  {
    var b := OldestClaimable(db.batches, args.now, args.lockedBatches);
    TakeoverLoads(db, j, b, args.owner, args.now, expiresAt);
  }

  lemma SelectionIsSelected(db: Database, j: Journal, args: ClaimArgs)
    requires DatabaseOk(db, j) && 1 <= args.maxRows <= 100_000
    requires UnbatchedIds(db.rows, args.lockedSeeds) != {}
    ensures var seed := db.rows[First(UnbatchedIds(db.rows, args.lockedSeeds), (id: int) => id)].event;
            var order := RowsToBatch(db.rows, seed, args.lockedRows, args.maxRows);
            order != [] ==> Selected(db.rows, seed, order)
  {
    var seedId := First(UnbatchedIds(db.rows, args.lockedSeeds), (id: int) => id);
    var seed := db.rows[seedId].event;
    assert RowOk(db.rows, db.batches, j, seedId);
    LimitedIsDistinct(StreamIds(db.rows, seed, args.lockedRows), (id: int) => id, args.maxRows);
  }

  /** Forming a batch from selected rows claims exactly the manifest it freezes. */
  lemma FormationClaims(db: Database, j: Journal, args: ClaimArgs, expiresAt: i64, seed: AnalyticsEvent,
                        order: seq<int>)
    requires DatabaseOk(db, j) && Selected(db.rows, seed, order) && args.newBatchId !in j.manifests
    ensures ClaimOk(j, args, FormBatch(db, args, expiresAt, seed, order))
  {
    var b := args.newBatchId;
    assert b in db.batches ==> BatchOk(db.rows, db.batches, j, b);
    FormationKeepsTables(db.rows, db.batches, j, seed, order, b, args.owner, args.now, expiresAt);
    var rows := Assigned(db.rows, order, b);
    var batches := db.batches[b := NewBatch(db.rows, seed, order, args.owner, args.now, expiresAt)];
    LoadReturnsTheManifest(rows, batches, Formed(j, b, ManifestFor(db.rows, seed, order, args.now)), b, args.owner);
    FormationKeepsBacklog(db.rows, order, b);
    SelectedAreUnassigned(db, j, seed, order, args.now);
  }

  /** No record of the manifest was ever assigned to a batch. */
  ghost predicate Unassigned(j: Journal, m: Manifest) {
    forall i :: 0 <= i < |m.records| ==> m.records[i].outboxId !in j.batchOf
  }

  lemma SelectedAreUnassigned(db: Database, j: Journal, seed: AnalyticsEvent, order: seq<int>, createdAt: i64)
    requires DatabaseOk(db, j) && Selected(db.rows, seed, order)
    ensures Unassigned(j, ManifestFor(db.rows, seed, order, createdAt))
  {
    forall i | 0 <= i < |order|
      ensures order[i] !in j.batchOf
    {
      assert RowOk(db.rows, db.batches, j, order[i]);
    }
  }

  /** The claim formed a new batch, froze its manifest, and holds its lease. */
  ghost predicate ClaimOk(j: Journal, args: ClaimArgs, r: Result<Claim, OutboxError>) {
    && r.Success?
    && r.value.batch.Some?
    && r.value.batch.value.batchId == args.newBatchId
    && r.value.batch.value.leaseOwner == args.owner
    && DatabaseOk(r.value.db, Formed(j, args.newBatchId, r.value.batch.value.manifest))
    && Unassigned(j, r.value.batch.value.manifest)
    && OwnsPublishing(r.value.db.batches, r.value.batch.value)
  }

  lemma FormationKeepsBacklog(rows: Rows, order: seq<int>, b: int)
    ensures PendingIds(Assigned(rows, order, b)) == PendingIds(rows)
    ensures forall id :: id in rows ==> Assigned(rows, order, b)[id].createdAt == rows[id].createdAt
  {
  }

  lemma ClaimNewKeeps(db: Database, j: Journal, args: ClaimArgs, expiresAt: i64)
    requires DatabaseOk(db, j) && 1 <= args.maxRows <= 100_000 && args.newBatchId !in j.manifests
    ensures var r := ClaimNew(db, args, expiresAt);
            r == Success(Claim(db, None)) || ClaimOk(j, args, r)
  {
    var seeds := UnbatchedIds(db.rows, args.lockedSeeds);
    if seeds != {} {
      SelectionIsSelected(db, j, args);
      var seed := db.rows[First(seeds, (id: int) => id)].event;
      var order := RowsToBatch(db.rows, seed, args.lockedRows, args.maxRows);
      if order != [] {
        FormationClaims(db, j, args, expiresAt, seed, order);
      }
    }
  }

  // ---- Publish, quarantine, retry -------------------------------------------------------------------

  /** All rows of an owned batch are pending, and there are as many as its manifest has records. */
  lemma OwnedRowsArePending(db: Database, j: Journal, claimed: ClaimedBatch)
    requires DatabaseOk(db, j) && Owns(db.batches, claimed)
    ensures OwnsPublishing(db.batches, claimed) && claimed.batchId in j.manifests
    ensures PendingOfBatch(db.rows, claimed.batchId) == RowsOfBatch(db.rows, claimed.batchId)
    ensures UnpublishedOfBatch(db.rows, claimed.batchId) == RowsOfBatch(db.rows, claimed.batchId)
    ensures |RowsOfBatch(db.rows, claimed.batchId)| == |j.manifests[claimed.batchId].records| <= 100_000
    ensures RowsOfBatch(db.rows, claimed.batchId) <= PendingIds(db.rows)
  {
    var b := claimed.batchId;
    assert BatchOk(db.rows, db.batches, j, b);
    RowsOfBatchAreTheManifest(db.rows, db.batches, j, b);
    assert GoodManifest(j.manifests[b]);
    forall id | id in RowsOfBatch(db.rows, b)
      ensures Pending(db.rows[id])
    {
      assert RowOk(db.rows, db.batches, j, id);
    }
  }

  /** Taking the terminal rows out of the backlog lowers the account by their number. */
  lemma TerminationIsCounted(db: Database, after: Database, ids: set<int>, b: int, publishedAt: Option<i64>,
                             quarantinedAt: Option<i64>, now: i64)
    requires AccountOk(db) && ids == RowsOfBatch(db.rows, b) && ids <= PendingIds(db.rows) && |ids| <= U64_MAX
    requires Terminated(db.rows, after.rows, b, publishedAt, quarantinedAt)
    requires publishedAt.Some? || quarantinedAt.Some?
    requires after.policy == db.policy
    requires A.Release(db.admission, |ids|, now) == Success(after.admission)
    ensures AccountOk(after)
    ensures after.admission.accountedRows == db.admission.accountedRows - |ids|
  {
    assert PendingIds(after.rows) == PendingIds(db.rows) - ids by {
      forall id
        ensures id in PendingIds(after.rows) <==> id in PendingIds(db.rows) - ids
      {
        assert id in after.rows.Keys <==> id in db.rows.Keys;
      }
    }
    SubsetCardinality(ids, PendingIds(db.rows));
  }

  lemma SubsetCardinality(a: set<int>, b: set<int>)
    requires a <= b
    ensures |a| <= |b| && |b - a| == |b| - |a|
  {
    assert b == a + (b - a);
  }

  lemma PublishKeeps(db: Database, j: Journal, claimed: ClaimedBatch, publishedAt: i64, now: i64)
    requires DatabaseOk(db, j) && MarkPublished(db, claimed, publishedAt, now).Success?
    ensures DatabaseOk(MarkPublished(db, claimed, publishedAt, now).value,
                       j.(published := j.published + {claimed.batchId}))
  {
    OwnedRowsArePending(db, j, claimed);
    var after, b := MarkPublished(db, claimed, publishedAt, now).value, claimed.batchId;
    var ids := RowsOfBatch(db.rows, b);
    assert Terminated(db.rows, after.rows, b, Some(publishedAt), None);
    assert BatchOk(db.rows, db.batches, j, b);
    TerminationKeepsTables(db.rows, after.rows, db.batches, j, b, after.batches[b]);
    TerminationIsCounted(db, after, ids, b, Some(publishedAt), None, now);
  }

  lemma QuarantineKeeps(db: Database, j: Journal, claimed: ClaimedBatch, quarantinedAt: i64, now: i64)
    requires DatabaseOk(db, j) && QuarantineBatch(db, claimed, quarantinedAt, now).Success?
    ensures DatabaseOk(QuarantineBatch(db, claimed, quarantinedAt, now).value, j)
  {
    OwnedRowsArePending(db, j, claimed);
    var after, b := QuarantineBatch(db, claimed, quarantinedAt, now).value, claimed.batchId;
    var ids := RowsOfBatch(db.rows, b);
    assert Terminated(db.rows, after.rows, b, None, Some(quarantinedAt));
    assert BatchOk(db.rows, db.batches, j, b);
    TerminationKeepsTables(db.rows, after.rows, db.batches, j, b, after.batches[b]);
    TerminationIsCounted(db, after, ids, b, None, Some(quarantinedAt), now);
  }

  lemma RetryKeeps(db: Database, j: Journal, claimed: ClaimedBatch)
    requires DatabaseOk(db, j) && ReleaseForRetry(db, claimed).Success?
    ensures DatabaseOk(ReleaseForRetry(db, claimed).value, j)
  {
    assert BatchOk(db.rows, db.batches, j, claimed.batchId);
    LeaseChangeKeepsTables(db.rows, db.batches, j, claimed.batchId,
                           ReleaseForRetry(db, claimed).value.batches[claimed.batchId]);
  }

  // ---- Cleanup and refresh ------------------------------------------------------------------------------

  lemma CleanupKeeps(db: Database, j: Journal, now: i64, retention: int, maxRows: int, lockedRows: set<int>,
                     lockedBatches: set<int>)
    requires DatabaseOk(db, j) && Cleanup(db, now, retention, maxRows, lockedRows, lockedBatches).Success?
    ensures DatabaseOk(Cleanup(db, now, retention, maxRows, lockedRows, lockedBatches).value, j)
  {
    var cutoff := CleanupCutoff(now, retention, maxRows).value;
    var gone := ExpiredRows(db.rows, cutoff, maxRows, lockedRows);
    var rows := Without(db.rows, gone);
    var goneBatches := ExpiredBatches(db.batches, rows, cutoff, maxRows, lockedBatches);
    CleanupKeepsTables(db.rows, db.batches, j, gone, goneBatches);
  }

  /** MIN(created_at) is a lower bound of the pending rows. */
  lemma OldestIsMinimum(rows: Rows)
    requires |PendingIds(rows)| <= I64_MAX
    ensures ExactBacklog(rows).rows == |PendingIds(rows)|
    ensures forall id :: id in PendingIds(rows) ==>
                           ExactBacklog(rows).oldest.Some? && ExactBacklog(rows).oldest.value <= rows[id].createdAt
  {
    var ids := PendingIds(rows);
    if ids != {} {
      var key := (id: int) => if id in rows then rows[id].createdAt else 0;
      var oldest := First(ids, key);
      forall id | id in ids
        ensures rows[oldest].createdAt <= rows[id].createdAt
      {
        assert id != oldest ==> Before(key, oldest, id);
      }
    }
  }

  lemma RefreshKeeps(db: Database, j: Journal, sizes: A.Sizes, now: i64)
    requires DatabaseOk(db, j)
    ensures Refresh(db, sizes, now).Success? ==>
              && DatabaseOk(Refresh(db, sizes, now).value, j)
              && Refresh(db, sizes, now).value.admission.accountedRows == db.admission.accountedRows
  {
    OldestIsMinimum(db.rows);
  }

  // ---- One step ------------------------------------------------------------------------------------------------

  lemma ApplyKeeps(db: Database, j: Journal, tx: Tx)
    requires DatabaseOk(db, j) && Fresh(j, tx)
    ensures DatabaseOk(Apply(db, tx), Record(db, j, tx))
  {
    match tx
    case EnqueueTx(events, createdAt, now, ids) =>
      EnqueueKeeps(db, j, events, createdAt, now, ids);
      MoreIdsKeep(db, j, ids);
    case ClaimTx(args) => ClaimKeeps(db, j, args);
    case PublishTx(claimed, publishedAt, now) =>
      if MarkPublished(db, claimed, publishedAt, now).Success? {
        PublishKeeps(db, j, claimed, publishedAt, now);
      }
    case RetryTx(claimed) =>
      if ReleaseForRetry(db, claimed).Success? {
        RetryKeeps(db, j, claimed);
      }
    case QuarantineTx(claimed, quarantinedAt, now) =>
      if QuarantineBatch(db, claimed, quarantinedAt, now).Success? {
        QuarantineKeeps(db, j, claimed, quarantinedAt, now);
      }
    case CleanupTx(now, retention, maxRows, lockedRows, lockedBatches) =>
      if Cleanup(db, now, retention, maxRows, lockedRows, lockedBatches).Success? {
        CleanupKeeps(db, j, now, retention, maxRows, lockedRows, lockedBatches);
      }
    case RefreshTx(sizes, now) => RefreshKeeps(db, j, sizes, now);
  }

  lemma MoreIdsKeep(db: Database, j: Journal, ids: seq<int>)
    requires DatabaseOk(db, j)
    ensures DatabaseOk(db, j.(ids := j.ids + Elements(ids)))
  {
    var j' := j.(ids := j.ids + Elements(ids));
    forall id | id in db.rows
      ensures RowOk(db.rows, db.batches, j', id)
    {
      assert RowOk(db.rows, db.batches, j, id);
    }
    forall b | b in db.batches
      ensures BatchOk(db.rows, db.batches, j', b)
    {
      assert BatchOk(db.rows, db.batches, j, b);
    }
  }

  /** What a successful claim must have done, in terms of its result. */
  ghost predicate ClaimKept(j: Journal, args: ClaimArgs, claim: Claim) {
    if claim.batch.None? then DatabaseOk(claim.db, j)
    else
      var c := claim.batch.value;
      var after := if c.batchId in j.manifests then j else Formed(j, c.batchId, c.manifest);
      && DatabaseOk(claim.db, after)
      && Genuine(after, c)
      && (c.batchId !in j.manifests ==> Unassigned(j, c.manifest))
      && c.leaseOwner == args.owner
      && OwnsPublishing(claim.db.batches, c)
  }

  lemma TakeoverIsKept(db: Database, j: Journal, args: ClaimArgs, expiresAt: i64)
    requires DatabaseOk(db, j) && ClaimableIds(db.batches, args.now, args.lockedBatches) != {}
    ensures ClaimExisting(db, args, expiresAt).Success? && ClaimKept(j, args, ClaimExisting(db, args, expiresAt).value)
  {
    ClaimExistingKeeps(db, j, args, expiresAt);
  }

  lemma NewClaimIsKept(db: Database, j: Journal, args: ClaimArgs, expiresAt: i64)
    requires DatabaseOk(db, j) && 1 <= args.maxRows <= 100_000 && args.newBatchId !in j.manifests
    ensures ClaimNew(db, args, expiresAt).Success? && ClaimKept(j, args, ClaimNew(db, args, expiresAt).value)
  {
    ClaimNewKeeps(db, j, args, expiresAt);
  }

  /** The ways out of a claim, kept apart from the invariant for the solver. */
  lemma ClaimDispatches(db: Database, args: ClaimArgs)
    ensures ClaimBatch(db, args) ==
            if !(1 <= args.maxRows <= 100_000) then Failure(InvalidBatchSize)
            else if !(1 <= args.leaseSeconds <= 3_600) then Failure(InvalidLease)
            else if ClaimableIds(db.batches, args.now, args.lockedBatches) != {} then
              ClaimExisting(db, args, SaturateI64(args.now + args.leaseSeconds))
            else ClaimNew(db, args, SaturateI64(args.now + args.leaseSeconds))
  {
  }

  lemma SuccessfulClaimIsKept(db: Database, j: Journal, args: ClaimArgs)
    requires DatabaseOk(db, j) && args.newBatchId !in j.manifests
    ensures match ClaimBatch(db, args)
            case Success(claim) => ClaimKept(j, args, claim)
            case Failure(error) => error in {InvalidBatchSize, InvalidLease}
  {
    ClaimDispatches(db, args);
    if 1 <= args.maxRows <= 100_000 && 1 <= args.leaseSeconds <= 3_600 {
      var expiresAt := SaturateI64(args.now + args.leaseSeconds);
      if ClaimableIds(db.batches, args.now, args.lockedBatches) != {} {
        TakeoverIsKept(db, j, args, expiresAt);
      } else {
        NewClaimIsKept(db, j, args, expiresAt);
      }
    }
  }

  /** A claim returns the manifest its batch was formed with and leaves the caller owning the lease;
      the only errors are those of its own arguments. */
  lemma ClaimKeeps(db: Database, j: Journal, args: ClaimArgs)
    requires DatabaseOk(db, j) && args.newBatchId !in j.manifests
    ensures DatabaseOk(Apply(db, ClaimTx(args)), Record(db, j, ClaimTx(args)))
    ensures ClaimBatch(db, args).Failure? ==> ClaimBatch(db, args).error in {InvalidBatchSize, InvalidLease}
    ensures var claimed := ClaimedBy(db, ClaimTx(args));
            claimed.Some? ==>
              && Genuine(Record(db, j, ClaimTx(args)), claimed.value)
              && (claimed.value.batchId !in j.manifests ==> Unassigned(j, claimed.value.manifest))
              && claimed.value.leaseOwner == args.owner
              && OwnsPublishing(Apply(db, ClaimTx(args)).batches, claimed.value)
  {
    SuccessfulClaimIsKept(db, j, args);
  }
}
