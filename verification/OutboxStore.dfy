/**
 The transactions of backend/rust/crates/analytics/src/outbox.rs as they update
 the tables in place. Each method is proved equal to its function in module
 Outbox, so every theorem about those functions holds of the methods; a failed
 transaction is rolled back.
 */
module OutboxStore {
  import opened Wrappers
  import opened MachineInts
  import opened Finite
  import opened Events
  import opened SqlOrder
  import opened Outbox
  import opened EnqueueLaws
  import opened Deduplication
  import opened AdmissionStore
  import Admission

  /** Every error of enqueue_events names a cause that is really there. */
  ghost predicate Explains(db: Database, events: seq<AnalyticsEvent>, createdAt: i64, now: i64, error: OutboxError) {
    match error
    case InvalidBatchSize => |events| > MAX_ENQUEUE_ROWS
    case InvalidPartitionMonth => exists e :: e in events && e.partitionMonth.None?
    case ConstraintViolation => exists e :: e in events && !Insertable(e)
    case EventConflict(id) => ConflictOf(db.rows, events, id)
    case AdmissionRefused(reason) =>
      && |NewIdentities(db.rows, events)| <= U64_MAX
      && Admission.Admit(db.policy, db.admission, |NewIdentities(db.rows, events)|, createdAt, now) == Failure(reason)
    case _ => false
  }

  /** Any of these causes, and nothing else, makes enqueue_events fail. */
  lemma ExplainedFailuresFail(db: Database, events: seq<AnalyticsEvent>, createdAt: i64, now: i64, ids: seq<int>,
                              error: OutboxError)
    requires UniqueEvents(db.rows) && FreshIds(db.rows, ids) && |ids| >= |events|
    requires Explains(db, events, createdAt, now, error)
    ensures Enqueue(db, events, createdAt, now, ids).Failure?
  {
    EnqueueSucceedsIff(db, events, createdAt, now, ids);
    InsertedCountIsNewIdentities(db.rows, events, createdAt, ids);
    if error.EventConflict? {
      ConflictsSpread(db.rows, events, events, error.eventId);
    }
  }

  /** The chunked insertion has come this far. */
  ghost predicate InsertedUpTo(before: Rows, rows: Rows, unique: seq<AnalyticsEvent>, start: nat, createdAt: i64,
                               ids: seq<int>, inserted: nat)
    requires start <= |unique| <= |ids|
  {
    && (rows, inserted) == InsertMissing(before, unique[..start], createdAt, ids)
    && forall i :: 0 <= i < start ==> StoredAs(rows, unique[i])
  }

  lemma UnusedIdsAreFresh(before: Rows, mid: Rows, earlier: seq<AnalyticsEvent>, createdAt: i64, ids: seq<int>,
                          used: nat)
    requires FreshIds(before, ids) && Inserted(before, mid, earlier, createdAt, ids, used)
    ensures FreshIds(mid, ids[used..])
  {
    var rest := ids[used..];
    forall i | 0 <= i < |rest|
      ensures rest[i] !in mid
    {
      assert rest[i] == ids[used + i];
      assert rest[i] !in Elements(ids[..used]);
      assert rest[i] !in before.Keys + Elements(ids[..used]);
    }
  }

  lemma StoredStays(mid: Rows, after: Rows, e: AnalyticsEvent)
    requires forall k :: k in mid ==> k in after && after[k] == mid[k]
    ensures StoredAs(mid, e) ==> StoredAs(after, e)
  {
    if StoredAs(mid, e) {
      var k :| k in mid && mid[k].event == e;
      assert k in after && after[k].event == e;
    }
  }

  /** A later insertion leaves the rows of an earlier one alone. */
  lemma EarlierRowsStay(before: Rows, mid: Rows, earlier: seq<AnalyticsEvent>, chunk: seq<AnalyticsEvent>,
                        createdAt: i64, ids: seq<int>, used: nat, e: AnalyticsEvent)
    requires UniqueEvents(before) && FreshIds(before, ids) && |earlier| + |chunk| <= |ids| && used <= |earlier|
    requires (mid, used) == InsertMissing(before, earlier, createdAt, ids)
    ensures StoredAs(mid, e) ==> StoredAs(InsertMissing(mid, chunk, createdAt, ids[used..]).0, e)
  {
    InsertMissingInserts(before, earlier, createdAt, ids);
    UnusedIdsAreFresh(before, mid, earlier, createdAt, ids, used);
    InsertMissingInserts(mid, chunk, createdAt, ids[used..]);
    StoredStays(mid, InsertMissing(mid, chunk, createdAt, ids[used..]).0, e);
  }

  /** Inserting the next chunk extends the insertion. */
  lemma ChunkExtends(before: Rows, mid: Rows, after: Rows, unique: seq<AnalyticsEvent>, start: nat, end: nat,
                     createdAt: i64, ids: seq<int>, inserted: nat, n: nat)
    requires start <= end <= |unique| <= |ids| && inserted <= start
    requires (mid, inserted) == InsertMissing(before, unique[..start], createdAt, ids)
    requires (after, n) == InsertMissing(mid, unique[start..end], createdAt, ids[inserted..])
    ensures (after, inserted + n) == InsertMissing(before, unique[..end], createdAt, ids)
  {
    PartsExtend(before, mid, after, unique[..start], unique[start..end], unique[..end], createdAt, ids, inserted, n);
  }

  lemma PartsExtend(before: Rows, mid: Rows, after: Rows, a: seq<AnalyticsEvent>, b: seq<AnalyticsEvent>,
                    whole: seq<AnalyticsEvent>, createdAt: i64, ids: seq<int>, used: nat, n: nat)
    requires whole == a + b && |whole| <= |ids| && used <= |a|
    requires (mid, used) == InsertMissing(before, a, createdAt, ids)
    requires (after, n) == InsertMissing(mid, b, createdAt, ids[used..])
    ensures (after, used + n) == InsertMissing(before, whole, createdAt, ids)
  {
    InsertMissingSplits(before, a, b, createdAt, ids);
  }

  lemma EarlierStayStored(before: Rows, mid: Rows, after: Rows, unique: seq<AnalyticsEvent>, start: nat, end: nat,
                          createdAt: i64, ids: seq<int>, inserted: nat)
    requires UniqueEvents(before) && FreshIds(before, ids)
    requires start <= end <= |unique| <= |ids| && inserted <= start
    requires InsertedUpTo(before, mid, unique, start, createdAt, ids, inserted)
    requires after == InsertMissing(mid, unique[start..end], createdAt, ids[inserted..]).0
    ensures forall i :: 0 <= i < start ==> StoredAs(after, unique[i])
  {
    forall i | 0 <= i < start
      ensures StoredAs(after, unique[i])
    {
      EarlierRowsStay(before, mid, unique[..start], unique[start..end], createdAt, ids, inserted, unique[i]);
    }
  }

  /** Why the insertion of the distinct events stopped. */
  ghost predicate InsertionFailed(before: Rows, unique: seq<AnalyticsEvent>, error: OutboxError) {
    match error
    case ConstraintViolation => exists e :: e in unique && !Insertable(e)
    case EventConflict(id) => ConflictOf(before, unique, id)
    case _ => false
  }

  lemma ViolationStops(before: Rows, unique: seq<AnalyticsEvent>, start: nat, end: nat)
    requires start <= end <= |unique|
    requires exists i :: 0 <= i < end - start && !Insertable(unique[start..end][i])
    ensures InsertionFailed(before, unique, ConstraintViolation)
  {
    var i :| 0 <= i < end - start && !Insertable(unique[start..end][i]);
    assert unique[start + i] in unique;
  }

  lemma ConflictStops(before: Rows, after: Rows, unique: seq<AnalyticsEvent>, start: nat, end: nat, createdAt: i64,
                      ids: seq<int>, e: AnalyticsEvent)
    requires UniqueEvents(before) && FreshIds(before, ids) && start <= end <= |unique| <= |ids|
    requires after == InsertMissing(before, unique[..end], createdAt, ids).0
    requires e in unique[start..end] && !StoredAs(after, e)
    ensures InsertionFailed(before, unique, EventConflict(e.eventId))
  {
    assert e in unique[..end];
    InsertMissingInserts(before, unique[..end], createdAt, ids);
    UnstoredEventConflicts(before, after, unique[..end], createdAt, ids,
                           InsertMissing(before, unique[..end], createdAt, ids).1, e);
    ConflictsSpread(before, unique[..end], unique, e.eventId);
  }

  /** A chunk that was inserted and verified extends what is inserted and verified. */
  lemma ChunkDone(before: Rows, mid: Rows, after: Rows, unique: seq<AnalyticsEvent>, start: nat, end: nat,
                  createdAt: i64, ids: seq<int>, inserted: nat, n: nat)
    requires UniqueEvents(before) && FreshIds(before, ids)
    requires start <= end <= |unique| <= |ids| && inserted <= start
    requires InsertedUpTo(before, mid, unique, start, createdAt, ids, inserted)
    requires (after, n) == InsertMissing(mid, unique[start..end], createdAt, ids[inserted..])
    requires (after, inserted + n) == InsertMissing(before, unique[..end], createdAt, ids)
    requires forall e :: e in unique[start..end] ==> StoredAs(after, e)
    ensures InsertedUpTo(before, after, unique, end, createdAt, ids, inserted + n)
  {
    EarlierStayStored(before, mid, after, unique, start, end, createdAt, ids, inserted);
    forall i | start <= i < end
      ensures StoredAs(after, unique[i])
    {
      assert unique[start..end][i - start] == unique[i];
    }
  }

  lemma EnqueueUnfolds(db: Database, events: seq<AnalyticsEvent>, createdAt: i64, now: i64, ids: seq<int>, rows: Rows,
                       inserted: u64)
    requires |events| <= MAX_ENQUEUE_ROWS && |ids| >= |events|
    requires (rows, inserted) == InsertMissing(db.rows, events, createdAt, ids)
    requires forall i :: 0 <= i < |events| ==> Insertable(events[i]) && StoredAs(rows, events[i])
    ensures Enqueue(db, events, createdAt, now, ids) ==
            match Admission.Admit(db.policy, db.admission, inserted, createdAt, now)
            case Success(admitted) => Success(db.(rows := rows, admission := admitted.0))
            case Failure(reason) => Failure(AdmissionRefused(reason))
  {
  }

  /** Once everything is inserted and verified, only the reservation decides. */
  lemma OnlyAdmissionIsLeft(db: Database, events: seq<AnalyticsEvent>, createdAt: i64, now: i64, ids: seq<int>,
                            rows: Rows, inserted: u64)
    requires |events| <= MAX_ENQUEUE_ROWS && |ids| >= |events|
    requires (rows, inserted) == InsertMissing(db.rows, FirstOccurrences(events), createdAt, ids)
    requires UniqueEvents(db.rows) && FreshIds(db.rows, ids)
    requires forall i :: 0 <= i < |events| ==> Insertable(events[i]) && StoredAs(rows, events[i])
    ensures inserted == |NewIdentities(db.rows, events)|
    ensures Enqueue(db, events, createdAt, now, ids) ==
            match Admission.Admit(db.policy, db.admission, inserted, createdAt, now)
            case Success(admitted) => Success(db.(rows := rows, admission := admitted.0))
            case Failure(reason) => Failure(AdmissionRefused(reason))
  {
    DuplicatesInsertNothing(db.rows, events, createdAt, ids);
    InsertedCountIsNewIdentities(db.rows, events, createdAt, ids);
    EnqueueUnfolds(db, events, createdAt, now, ids, rows, inserted);
  }

  class OutboxTables {
    var rows: Rows
    var batches: Batches
    const admission: AdmissionTable

    /** A policy is installed. */
    predicate Installed()
      reads this, admission
    {
      admission.policy.Some?
    }

    function Db(): Database
      reads this, admission
      requires Installed()
    {
      Database(rows, batches, admission.policy.value, admission.State())
    }

    /** The tables of an existing database. */
    constructor (rows: Rows, batches: Batches, admission: AdmissionTable)
      ensures this.rows == rows && this.batches == batches && this.admission == admission
    {
      this.rows, this.batches, this.admission := rows, batches, admission;
    }

    // ---- enqueue_events ------------------------------------------------------------------------

    /** One row of the INSERT. */
    method InsertRow(event: AnalyticsEvent, createdAt: i64, id: int) returns (added: bool)
      modifies this`rows
      ensures added == !Stored(old(rows), event.eventId)
      ensures rows == if added then old(rows)[id := NewRow(event, createdAt)] else old(rows)
    {
      added := !Stored(rows, event.eventId);
      if added {
        rows := rows[id := NewRow(event, createdAt)];
      }
    }

    /** One multi-row INSERT ... ON CONFLICT (event_id) DO NOTHING. */
    method InsertChunk(chunk: seq<AnalyticsEvent>, createdAt: i64, ids: seq<int>)
      returns (result: Result<nat, OutboxError>)
      requires |ids| >= |chunk|
      modifies this`rows
      ensures result.Success? ==> (rows, result.value) == InsertMissing(old(rows), chunk, createdAt, ids)
      ensures result.Success? ==> forall i :: 0 <= i < |chunk| ==> Insertable(chunk[i])
      ensures result.Failure? ==>
                result.error == ConstraintViolation && exists i :: 0 <= i < |chunk| && !Insertable(chunk[i])
    {
      var inserted := 0;
      assert chunk[..0] == [];
      for i := 0 to |chunk|
        invariant inserted <= i
        invariant (rows, inserted) == InsertMissing(old(rows), chunk[..i], createdAt, ids)
        invariant forall n :: 0 <= n < i ==> Insertable(chunk[n])
      {
        if !Insertable(chunk[i]) {
          return Failure(ConstraintViolation);
        }
        InsertMissingStep(old(rows), chunk[..i], chunk[i], createdAt, ids);
        assert chunk[..i + 1] == chunk[..i] + [chunk[i]];
        var added := InsertRow(chunk[i], createdAt, ids[inserted]);
        inserted := if added then inserted + 1 else inserted;
      }
      assert chunk[..|chunk|] == chunk;
      return Success(inserted);
    }

    /** Compares every event of the chunk with the row stored under its identity. */
    method VerifyChunk(chunk: seq<AnalyticsEvent>) returns (conflict: Option<AnalyticsEvent>)
      ensures conflict.None? ==> forall e :: e in chunk ==> StoredAs(rows, e)
      ensures conflict.Some? ==> conflict.value in chunk && !StoredAs(rows, conflict.value)
    {
      for i := 0 to |chunk|
        invariant forall e :: e in chunk[..i] ==> StoredAs(rows, e)
      {
        assert chunk[..i + 1] == chunk[..i] + [chunk[i]];
        if !StoredAs(rows, chunk[i]) {
          return Some(chunk[i]);
        }
      }
      assert chunk[..|chunk|] == chunk;
      return None;
    }

    /** The body of the chunk loop. */
    method ProcessChunk(unique: seq<AnalyticsEvent>, start: nat, end: nat, createdAt: i64, ids: seq<int>,
                        inserted: nat, ghost before: Rows)
      returns (result: Result<nat, OutboxError>)
      requires UniqueEvents(before) && FreshIds(before, ids)
      requires start < end <= |unique| <= |ids| && inserted <= start
      requires InsertedUpTo(before, rows, unique, start, createdAt, ids, inserted)
      modifies this`rows
      ensures result.Success? ==>
                && InsertedUpTo(before, rows, unique, end, createdAt, ids, result.value)
                && result.value <= end
                && forall i :: 0 <= i < end - start ==> Insertable(unique[start..end][i])
      ensures result.Failure? ==> InsertionFailed(before, unique, result.error)
    {
      var chunk := unique[start..end];
      ghost var mid := rows;
      var inserting := InsertChunk(chunk, createdAt, ids[inserted..]);
      if inserting.Failure? {
        ViolationStops(before, unique, start, end);
        return Failure(inserting.error);
      }
      ChunkExtends(before, mid, rows, unique, start, end, createdAt, ids, inserted, inserting.value);
      var conflict := VerifyChunk(chunk);
      if conflict.Some? {
        ConflictStops(before, rows, unique, start, end, createdAt, ids, conflict.value);
        return Failure(EventConflict(conflict.value.eventId));
      }
      ChunkDone(before, mid, rows, unique, start, end, createdAt, ids, inserted, inserting.value);
      return Success(inserted + inserting.value);
    }

    /** Inserts and verifies the distinct events, 1,000 at a time. On an error the rows are left for the rollback. */
    method InsertChunks(unique: seq<AnalyticsEvent>, createdAt: i64, ids: seq<int>)
      returns (result: Result<nat, OutboxError>)
      requires UniqueEvents(rows) && FreshIds(rows, ids) && |ids| >= |unique|
      modifies this`rows
      ensures result.Success? ==>
                && (rows, result.value) == InsertMissing(old(rows), unique, createdAt, ids)
                && forall i :: 0 <= i < |unique| ==> StoredAs(rows, unique[i]) && Insertable(unique[i])
      ensures result.Failure? ==> InsertionFailed(old(rows), unique, result.error)
    {
      var start, inserted := 0, 0;
      while start < |unique|
        invariant 0 <= start <= |unique| && 0 <= inserted <= start
        invariant InsertedUpTo(old(rows), rows, unique, start, createdAt, ids, inserted)
        invariant forall i :: 0 <= i < start ==> Insertable(unique[i])
      {
        var end := if start + ENQUEUE_CHUNK_ROWS <= |unique| then start + ENQUEUE_CHUNK_ROWS else |unique|;
        inserted :- ProcessChunk(unique, start, end, createdAt, ids, inserted, old(rows));
        assert forall i :: start <= i < end ==> unique[i] == unique[start..end][i - start];
        start := end;
      }
      assert unique[..|unique|] == unique;
      return Success(inserted);
    }

    /** enqueue_events: deduplicate, insert and verify in chunks, reserve. It succeeds exactly when the chunkless
        specification does, with the same tables; otherwise nothing changes and the error names its cause. */
    method EnqueueEvents(events: seq<AnalyticsEvent>, createdAt: i64, now: i64, ids: seq<int>)
      returns (result: Result<(), OutboxError>)
      requires Installed() && UniqueEvents(rows) && FreshIds(rows, ids) && |ids| >= |events|
      modifies this`rows, admission
      ensures Installed()
      ensures result.Success? <==> Enqueue(old(Db()), events, createdAt, now, ids).Success?
      ensures result.Success? ==> Db() == Enqueue(old(Db()), events, createdAt, now, ids).value
      ensures result.Failure? ==> Db() == old(Db()) && Explains(old(Db()), events, createdAt, now, result.error)
    {
      ghost var before := Db();
      if |events| > MAX_ENQUEUE_ROWS {
        return Failure(InvalidBatchSize);
      }
      var unique := Deduplicate(events);
      if unique.Failure? {
        assert Explains(before, events, createdAt, now, unique.error);
        ExplainedFailuresFail(before, events, createdAt, now, ids, unique.error);
        return Failure(unique.error);
      }
      var saved := rows;
      var inserting := InsertChunks(unique.value, createdAt, ids);
      if inserting.Failure? {
        rows := saved;
        if inserting.error.EventConflict? {
          ConflictsSpread(saved, unique.value, events, inserting.error.eventId);
        }
        ExplainedFailuresFail(before, events, createdAt, now, ids, inserting.error);
        return Failure(inserting.error);
      }
      OnlyAdmissionIsLeft(before, events, createdAt, now, ids, rows, inserting.value);
      var admitted := admission.AdmitRows(inserting.value, createdAt, now);
      if admitted.Failure? {
        rows := saved;
        return Failure(AdmissionRefused(admitted.error));
      }
      return Success(());
    }

    // ---- claim_delivery_batch ---------------------------------------------------------------------

    /** Takes over the oldest batch that nobody holds. */
    method ClaimExistingBatch(args: ClaimArgs, expiresAt: i64) returns (result: Result<ClaimedBatch, OutboxError>)
      requires Installed() && ClaimableIds(batches, args.now, args.lockedBatches) != {}
      modifies this`batches
      ensures match ClaimExisting(old(Db()), args, expiresAt)
              case Success(claim) => result.Success? && claim.batch == Some(result.value) && Db() == claim.db
              case Failure(e) => result == Failure(e) && Db() == old(Db())
    {
      var saved := batches;
      var b := OldestClaimable(batches, args.now, args.lockedBatches);
      batches := batches[b := Leased(batches[b], args.owner, expiresAt)];
      result := LoadClaimed(rows, batches, b, args.owner);
      if result.Failure? {
        batches := saved;
      }
    }

    /** Freezes the selected rows into a new batch, assigns them to it, and loads it back. */
    method FormNewBatch(args: ClaimArgs, expiresAt: i64, seed: AnalyticsEvent, order: seq<int>)
      returns (result: Result<ClaimedBatch, OutboxError>)
      requires Installed() && forall i :: 0 <= i < |order| ==> order[i] in rows
      modifies this`rows, this`batches
      ensures match FormBatch(old(Db()), args, expiresAt, seed, order)
              case Success(claim) => result.Success? && claim.batch == Some(result.value) && Db() == claim.db
              case Failure(e) => result == Failure(e) && Db() == old(Db())
    {
      if seed.partitionMonth.None? || args.newBatchId in batches {
        return Failure(ConstraintViolation);
      }
      var savedRows, savedBatches := rows, batches;
      batches := batches[args.newBatchId := NewBatch(rows, seed, order, args.owner, args.now, expiresAt)];
      rows := Assigned(rows, order, args.newBatchId);
      result := LoadClaimed(rows, batches, args.newBatchId, args.owner);
      if result.Failure? {
        rows, batches := savedRows, savedBatches;
      }
    }

    method ClaimDeliveryBatch(args: ClaimArgs) returns (result: Result<Option<ClaimedBatch>, OutboxError>)
      requires Installed()
      modifies this`rows, this`batches
      ensures match ClaimBatch(old(Db()), args)
              case Success(claim) => result == Success(claim.batch) && Db() == claim.db
              case Failure(e) => result == Failure(e) && Db() == old(Db())
    {
      if args.maxRows < 1 || args.maxRows > 100_000 {
        return Failure(InvalidBatchSize);
      }
      if args.leaseSeconds < 1 || args.leaseSeconds > 3_600 {
        return Failure(InvalidLease);
      }
      var expiresAt := SaturateI64(args.now + args.leaseSeconds);
      if ClaimableIds(batches, args.now, args.lockedBatches) != {} {
        var existing :- ClaimExistingBatch(args, expiresAt);
        return Success(Some(existing));
      }
      var seeds := UnbatchedIds(rows, args.lockedSeeds);
      if seeds == {} {
        return Success(None);
      }
      var seed := rows[First(seeds, (id: int) => id)].event;
      var order := RowsToBatch(rows, seed, args.lockedRows, args.maxRows);
      if order == [] {
        return Success(None);
      }
      var formed :- FormNewBatch(args, expiresAt, seed, order);
      return Success(Some(formed));
    }

    // ---- Settling a batch ----------------------------------------------------------------------------

    method MarkBatchPublished(claimed: ClaimedBatch, publishedAt: i64, now: i64)
      returns (result: Result<(), OutboxError>)
      requires Installed()
      modifies this`rows, this`batches, admission
      ensures Installed()
      ensures match MarkPublished(old(Db()), claimed, publishedAt, now)
              case Success(after) => result.Success? && Db() == after
              case Failure(e) => result == Failure(e) && Db() == old(Db())
    {
      if !OwnsPublishing(batches, claimed) {
        return Failure(LeaseLost);
      }
      var savedRows, savedBatches := rows, batches;
      var ids := PendingOfBatch(rows, claimed.batchId);
      batches := batches[claimed.batchId := batches[claimed.batchId].(
                         state := Published, publishedAt := Some(publishedAt),
                         leaseOwner := None, leaseExpiresAt := None)];
      rows := PublishRows(rows, ids, publishedAt);
      result := ReleaseSettled(|ids|, claimed, now);
      if result.Failure? {
        rows, batches := savedRows, savedBatches;
      }
    }

    /** The rest of a settling transaction: the row count must be the manifest's, and the account is lowered by it. */
    method ReleaseSettled(count: nat, claimed: ClaimedBatch, now: i64) returns (result: Result<(), OutboxError>)
      requires Installed()
      modifies admission
      ensures Installed() && admission.policy == old(admission.policy)
      ensures if count != |claimed.manifest.records| then result == Failure(ManifestConflict)
                                                          && admission.State() == old(admission.State())
              else if count > U64_MAX then result == Failure(AdmissionRefused(Admission.Overflow))
                                           && admission.State() == old(admission.State())
              else match Admission.Release(old(admission.State()), count, now)
                   case Success(s) => result.Success? && admission.State() == s
                   case Failure(e) => result == Failure(AdmissionRefused(e))
                                      && admission.State() == old(admission.State())
    {
      if count != |claimed.manifest.records| {
        return Failure(ManifestConflict);
      }
      if count > U64_MAX {
        return Failure(AdmissionRefused(Admission.Overflow));
      }
      var released := admission.ReleaseRows(count, now);
      if released.Failure? {
        return Failure(AdmissionRefused(released.error));
      }
      return Success(());
    }

    method ReleaseBatchForRetry(claimed: ClaimedBatch) returns (result: Result<(), OutboxError>)
      requires Installed()
      modifies this`batches
      ensures match ReleaseForRetry(old(Db()), claimed)
              case Success(after) => result.Success? && Db() == after
              case Failure(e) => result == Failure(e) && Db() == old(Db())
    {
      if !OwnsPublishing(batches, claimed) {
        return Failure(LeaseLost);
      }
      batches := batches[claimed.batchId :=
                         batches[claimed.batchId].(state := Ready, leaseOwner := None, leaseExpiresAt := None)];
      return Success(());
    }

    method QuarantineOwnedBatch(claimed: ClaimedBatch, quarantinedAt: i64, now: i64)
      returns (result: Result<(), OutboxError>)
      requires Installed()
      modifies this`rows, this`batches, admission
      ensures Installed()
      ensures match QuarantineBatch(old(Db()), claimed, quarantinedAt, now)
              case Success(after) => result.Success? && Db() == after
              case Failure(e) => result == Failure(e) && Db() == old(Db())
    {
      if !Owns(batches, claimed) {
        return Failure(LeaseLost);
      }
      var savedRows, savedBatches := rows, batches;
      var ids := UnpublishedOfBatch(rows, claimed.batchId);
      batches := batches[claimed.batchId := batches[claimed.batchId].(
                         state := Quarantined, quarantinedAt := Some(quarantinedAt),
                         leaseOwner := None, leaseExpiresAt := None)];
      rows := QuarantineRows(rows, ids, quarantinedAt);
      result := ReleaseSettled(|ids|, claimed, now);
      if result.Failure? {
        rows, batches := savedRows, savedBatches;
      }
    }

    // ---- Cleanup and refresh -----------------------------------------------------------------------------

    method CleanupPublished(now: i64, retentionSeconds: int, maxRows: int, lockedRows: set<int>,
                            lockedBatches: set<int>)
      returns (result: Result<(), OutboxError>)
      requires Installed()
      modifies this`rows, this`batches
      ensures match Cleanup(old(Db()), now, retentionSeconds, maxRows, lockedRows, lockedBatches)
              case Success(after) => result.Success? && Db() == after
              case Failure(e) => result == Failure(e) && Db() == old(Db())
    {
      var cutoff :- CleanupCutoff(now, retentionSeconds, maxRows);
      rows := Without(rows, ExpiredRows(rows, cutoff, maxRows, lockedRows));
      batches := Without(batches, ExpiredBatches(batches, rows, cutoff, maxRows, lockedBatches));
      return Success(());
    }

    method RefreshAdmission(sizes: Admission.Sizes, now: i64) returns (result: Result<(), OutboxError>)
      requires Installed() && |PendingIds(rows)| <= I64_MAX
      modifies admission
      ensures Installed()
      ensures match Refresh(old(Db()), sizes, now)
              case Success(after) => result.Success? && Db() == after
              case Failure(e) => result == Failure(e) && Db() == old(Db())
    {
      var refreshed := admission.RefreshState(sizes, ExactBacklog(rows), now);
      if refreshed.Failure? {
        return Failure(AdmissionRefused(refreshed.error));
      }
      return Success(());
    }
  }
}
