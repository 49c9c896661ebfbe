/**
 What the outbox promises over every run of its transactions, in any order and
 with any clock readings: the account equals the backlog, the backlog is
 bounded, terminal states are absorbing, manifests are frozen, and a superseded
 lease owner can no longer touch its batch.
 */
module OutboxTheorems {
  import opened Wrappers
  import opened MachineInts
  import opened Events
  import opened Outbox
  import opened EnqueueLaws
  import opened OutboxInvariant
  import opened Transactions
  import A = Admission

  /** The committed database together with its history. */
  datatype Committed = Committed(db: Database, journal: Journal)

  ghost function Commit(s: Committed, tx: Tx): Committed
    requires Countable(s.db) && Fresh(s.journal, tx)
  {
    Committed(Apply(s.db, tx), Record(s.db, s.journal, tx))
  }

  ghost predicate Ok(s: Committed) {
    DatabaseOk(s.db, s.journal)
  }

  /** states is a run: each state follows from the previous one by one of the transactions. */
  ghost predicate IsRun(states: seq<Committed>, txs: seq<Tx>) {
    && |states| == |txs| + 1
    && Ok(states[0])
    && forall i :: 0 <= i < |txs| ==>
         Countable(states[i].db) && Fresh(states[i].journal, txs[i]) && states[i + 1] == Commit(states[i], txs[i])
  }

  lemma {:induction false} RunsStayOk(states: seq<Committed>, txs: seq<Tx>, n: nat)
    requires IsRun(states, txs) && n <= |txs|
    ensures Ok(states[n])
  {
    if n > 0 {
      RunsStayOk(states, txs, n - 1);
      ApplyKeeps(states[n - 1].db, states[n - 1].journal, txs[n - 1]);
    }
  }

  /** A freshly installed policy starts from the exact backlog of whatever the tables hold. */
  lemma InstallationIsOk(db: Database, j: Journal, observed: int, sizes: A.Sizes, installedAt: i64)
    requires TablesOk(db.rows, db.batches, j) && Countable(db)
    requires A.Install(db.policy, observed, sizes, ExactBacklog(db.rows), installedAt) == Success(db.admission)
    ensures Ok(Committed(db, j))
  {
    OldestIsMinimum(db.rows);
  }

  /** So runs do start somewhere: an empty database with an installed policy. */
  lemma FreshDatabaseIsOk(policy: A.PolicyRow, observed: int, sizes: A.Sizes, installedAt: i64)
    requires A.Install(policy, observed, sizes, A.Backlog(0, None), installedAt).Success?
    ensures var row := A.Install(policy, observed, sizes, A.Backlog(0, None), installedAt).value;
            Ok(Committed(Database(map[], map[], policy, row), Journal(map[], map[], {}, {})))
  {
    var row := A.Install(policy, observed, sizes, A.Backlog(0, None), installedAt).value;
    var db := Database(map[], map[], policy, row);
    assert PendingIds(db.rows) == {};
    InstallationIsOk(db, Journal(map[], map[], {}, {}), observed, sizes, installedAt);
  }

  // ---- Conservation -------------------------------------------------------------------------

  /** In every committed state of every run the account is the exact backlog, which a refresh confirms, and its
      recorded oldest time is no later than that of any pending row. */
  lemma AccountEqualsBacklog(states: seq<Committed>, txs: seq<Tx>, n: nat, sizes: A.Sizes, now: i64)
    requires IsRun(states, txs) && n <= |txs|
    ensures var db := states[n].db;
            && db.admission.accountedRows == |PendingIds(db.rows)|
            && (forall id :: id in PendingIds(db.rows) ==>
                               && db.admission.oldestPendingCreatedAt.Some?
                               && db.admission.oldestPendingCreatedAt.value <= db.rows[id].createdAt)
            && (Refresh(db, sizes, now).Success? ==>
                  Refresh(db, sizes, now).value.admission.accountedRows == db.admission.accountedRows)
  {
    RunsStayOk(states, txs, n);
    RefreshKeeps(states[n].db, states[n].journal, sizes, now);
  }

  /** greatest(0, accounted - terminal) never clamps: a batch that becomes terminal was fully accounted. */
  lemma ReleaseNeverClamps(states: seq<Committed>, txs: seq<Tx>, n: nat, claimed: ClaimedBatch)
    requires IsRun(states, txs) && n <= |txs|
    requires Owns(states[n].db.batches, claimed)
    ensures |PendingOfBatch(states[n].db.rows, claimed.batchId)| <= states[n].db.admission.accountedRows
    ensures |UnpublishedOfBatch(states[n].db.rows, claimed.batchId)| <= states[n].db.admission.accountedRows
  {
    RunsStayOk(states, txs, n);
    OwnedRowsArePending(states[n].db, states[n].journal, claimed);
    SubsetCardinality(RowsOfBatch(states[n].db.rows, claimed.batchId), PendingIds(states[n].db.rows));
  }

  // ---- Bounded backlog -------------------------------------------------------------------------

  /** A reservation that is let through leaves the account below the hard row limit. */
  lemma AdmittedRowsStayBelowHard(policy: A.PolicyRow, s: A.StateRow, requested: u64, oldestNew: i64, now: i64)
    requires requested > 0 && A.Admit(policy, s, requested, oldestNew, now).Success?
    ensures A.Admit(policy, s, requested, oldestNew, now).value.0.accountedRows < policy.policy.hardPendingRows
  {
  }

  lemma OneStepIsBounded(s: Committed, tx: Tx, limit: nat)
    requires Ok(s) && Fresh(s.journal, tx)
    requires |PendingIds(s.db.rows)| <= limit && s.db.policy.policy.hardPendingRows <= limit + 1
    ensures |PendingIds(Commit(s, tx).db.rows)| <= limit
    ensures Commit(s, tx).db.policy == s.db.policy
  {
    ApplyKeeps(s.db, s.journal, tx);
    if tx.EnqueueTx? {
      var r := Enqueue(s.db, tx.events, tx.createdAt, tx.now, tx.ids);
      if r.Success? && InsertMissing(s.db.rows, tx.events, tx.createdAt, tx.ids).1 > 0 {
        AdmittedRowsStayBelowHard(s.db.policy, s.db.admission,
                                  InsertMissing(s.db.rows, tx.events, tx.createdAt, tx.ids).1, tx.createdAt, tx.now);
      }
    } else {
      AccountNeverGrows(s, tx);
    }
  }

  lemma AccountNeverGrows(s: Committed, tx: Tx)
    requires Ok(s) && Fresh(s.journal, tx) && !tx.EnqueueTx?
    ensures Apply(s.db, tx).admission.accountedRows <= s.db.admission.accountedRows
    ensures Apply(s.db, tx).policy == s.db.policy
  {
    if tx.RefreshTx? {
      RefreshKeeps(s.db, s.journal, tx.sizes, tx.now);
    }
  }

  /** Pending rows never exceed the larger of the rows present at the start and hard_pending_rows - 1. */
  lemma {:induction false} BacklogIsBounded(states: seq<Committed>, txs: seq<Tx>, n: nat)
    requires IsRun(states, txs) && n <= |txs|
    ensures states[n].db.policy == states[0].db.policy
    ensures |PendingIds(states[n].db.rows)|
         <= Max(|PendingIds(states[0].db.rows)|, states[0].db.policy.policy.hardPendingRows - 1)
  {
    RunsStayOk(states, txs, 0);
    if n > 0 {
      BacklogIsBounded(states, txs, n - 1);
      RunsStayOk(states, txs, n - 1);
      OneStepIsBounded(states[n - 1], txs[n - 1],
                       Max(|PendingIds(states[0].db.rows)|, states[0].db.policy.policy.hardPendingRows - 1));
    }
  }

  // ---- Lease fencing -----------------------------------------------------------------------------

  /** With a lease it owns and a genuine handle, a relay never sees LeaseLost or ManifestConflict:
      only a sample from the future of its clock can refuse it. */
  lemma OwnerSucceeds(s: Committed, claimed: ClaimedBatch, at: i64, now: i64)
    requires Ok(s) && Genuine(s.journal, claimed) && Owns(s.db.batches, claimed)
    ensures ReleaseForRetry(s.db, claimed).Success?
    ensures MarkPublished(s.db, claimed, at, now).Success? <==> s.db.admission.sampledAt <= now
    ensures QuarantineBatch(s.db, claimed, at, now).Success? <==> s.db.admission.sampledAt <= now
    ensures MarkPublished(s.db, claimed, at, now).Failure? ==>
              MarkPublished(s.db, claimed, at, now).error == AdmissionRefused(A.MissingOrMismatchedPolicy)
  {
    OwnedRowsArePending(s.db, s.journal, claimed);
    assert GoodManifest(s.journal.manifests[claimed.batchId]);
  }

  /** Without the lease every relay operation fails with LeaseLost and changes nothing. */
  lemma FencedOwnerIsRefused(db: Database, claimed: ClaimedBatch, at: i64, now: i64)
    requires !Owns(db.batches, claimed)
    ensures MarkPublished(db, claimed, at, now) == Failure(LeaseLost)
    ensures ReleaseForRetry(db, claimed) == Failure(LeaseLost)
    ensures QuarantineBatch(db, claimed, at, now) == Failure(LeaseLost)
  {
  }

  predicate ReclaimedBy(tx: Tx, owner: int) {
    tx.ClaimTx? && tx.args.owner == owner
  }

  /** A lost lease comes back only through a new claim by the same owner. */
  lemma FencedStaysFenced(s: Committed, tx: Tx, claimed: ClaimedBatch)
    requires Ok(s) && Fresh(s.journal, tx)
    requires !Owns(s.db.batches, claimed) && !ReclaimedBy(tx, claimed.leaseOwner)
    ensures !Owns(Apply(s.db, tx).batches, claimed)
  {
    if tx.ClaimTx? {
      ClaimChangesOneLease(s, tx.args, claimed.batchId);
    }
  }

  /** A claim leaves each batch as it was, or leased to the claimer. */
  lemma ClaimChangesOneLease(s: Committed, args: ClaimArgs, b: int)
    requires Ok(s) && Fresh(s.journal, ClaimTx(args))
    ensures var after := Apply(s.db, ClaimTx(args)).batches;
            || (b in after && after[b].leaseOwner == Some(args.owner))
            || (b in after && b in s.db.batches && after[b] == s.db.batches[b])
            || (b !in after && b !in s.db.batches)
  {
    if ClaimBatch(s.db, args).Success? {
      var expiresAt := SaturateI64(args.now + args.leaseSeconds);
      if ClaimableIds(s.db.batches, args.now, args.lockedBatches) != {} {
        assert ClaimBatch(s.db, args) == ClaimExisting(s.db, args, expiresAt);
      } else {
        assert ClaimBatch(s.db, args) == ClaimNew(s.db, args, expiresAt);
      }
    }
  }

  /** Once superseded, a handle is refused in every later state in which its owner has not claimed again. */
  lemma {:induction false} SupersededOwnerStaysFenced(states: seq<Committed>, txs: seq<Tx>, n: nat, m: nat,
                                                      claimed: ClaimedBatch)
    requires IsRun(states, txs) && n <= m <= |txs|
    requires !Owns(states[n].db.batches, claimed)
    requires forall i :: n <= i < m ==> !ReclaimedBy(txs[i], claimed.leaseOwner)
    ensures !Owns(states[m].db.batches, claimed)
    ensures forall at: i64, now: i64 :: MarkPublished(states[m].db, claimed, at, now) == Failure(LeaseLost)
    ensures forall at: i64, now: i64 :: QuarantineBatch(states[m].db, claimed, at, now) == Failure(LeaseLost)
    ensures ReleaseForRetry(states[m].db, claimed) == Failure(LeaseLost)
    decreases m
  {
    if n < m {
      SupersededOwnerStaysFenced(states, txs, n, m - 1, claimed);
      RunsStayOk(states, txs, m - 1);
      var before, tx := states[m - 1], txs[m - 1];
      FencedStaysFenced(before, tx, claimed);
      assert states[m - 1 + 1] == Commit(before, tx);
      assert states[m].db.batches == Apply(before.db, tx).batches;
    }
    forall at: i64, now: i64
      ensures MarkPublished(states[m].db, claimed, at, now) == Failure(LeaseLost)
      ensures QuarantineBatch(states[m].db, claimed, at, now) == Failure(LeaseLost)
      ensures ReleaseForRetry(states[m].db, claimed) == Failure(LeaseLost)
    {
      FencedOwnerIsRefused(states[m].db, claimed, at, now);
    }
    FencedOwnerIsRefused(states[m].db, claimed, 0, 0);
  }

  // ---- Terminal states are absorbing ------------------------------------------------------------------

  predicate Terminal(batch: DeliveryBatch) {
    batch.state in {Published, Quarantined}
  }

  /** A terminal batch or row is deleted or left exactly as it is. */
  lemma TerminalIsAbsorbing(s: Committed, tx: Tx, b: int, id: int)
    requires Ok(s) && Fresh(s.journal, tx)
    ensures b in s.db.batches && Terminal(s.db.batches[b]) && b in Apply(s.db, tx).batches ==>
              Apply(s.db, tx).batches[b] == s.db.batches[b]
    ensures id in s.db.rows && !Pending(s.db.rows[id]) && id in Apply(s.db, tx).rows ==>
              Apply(s.db, tx).rows[id] == s.db.rows[id]
  {
    if b in s.db.batches {
      assert BatchOk(s.db.rows, s.db.batches, s.journal, b);
    }
    match tx
    case EnqueueTx(events, createdAt, now, ids) => EnqueueLeavesRows(s, events, createdAt, now, ids);
    case ClaimTx(args) => ClaimLeavesTerminal(s, args, b, id);
    case PublishTx(claimed, publishedAt, now) =>
    case RetryTx(claimed) =>
    case QuarantineTx(claimed, quarantinedAt, now) =>
      if id in s.db.rows && !Pending(s.db.rows[id]) {
        QuarantineLeavesTerminal(s, claimed, quarantinedAt, now, id);
      }
    case CleanupTx(now, retention, maxRows, lockedRows, lockedBatches) =>
    case RefreshTx(sizes, now) =>
  }

  lemma EnqueueLeavesRows(s: Committed, events: seq<AnalyticsEvent>, createdAt: i64, now: i64, ids: seq<int>)
    requires Ok(s) && Fresh(s.journal, EnqueueTx(events, createdAt, now, ids))
    ensures var after := Apply(s.db, EnqueueTx(events, createdAt, now, ids));
            && after.batches == s.db.batches
            && forall id :: id in s.db.rows ==> id in after.rows && after.rows[id] == s.db.rows[id]
  {
    NewIdsAreUnused(s.db, s.journal, ids);
    if Enqueue(s.db, events, createdAt, now, ids).Success? {
      EnqueueIsSetInsertion(s.db, events, createdAt, now, ids);
    }
  }

  lemma TakeoverTouchesOpenOnly(db: Database, args: ClaimArgs, expiresAt: i64, b: int)
    requires ClaimableIds(db.batches, args.now, args.lockedBatches) != {} && ClaimExisting(db, args, expiresAt).Success?
    ensures var after := ClaimExisting(db, args, expiresAt).value.db;
            && after.rows == db.rows
            && (b in db.batches && Terminal(db.batches[b]) ==> b in after.batches && after.batches[b] == db.batches[b])
  {
  }

  lemma NewClaimKeepsBatches(db: Database, args: ClaimArgs, expiresAt: i64, b: int)
    requires args.maxRows >= 0 && ClaimNew(db, args, expiresAt).Success?
    ensures var after := ClaimNew(db, args, expiresAt).value.db;
            b in db.batches ==> b in after.batches && after.batches[b] == db.batches[b]
  {
  }

  lemma ClaimLeavesTerminal(s: Committed, args: ClaimArgs, b: int, id: int)
    requires Ok(s) && Fresh(s.journal, ClaimTx(args))
    ensures b in s.db.batches && Terminal(s.db.batches[b]) ==>
              b in Apply(s.db, ClaimTx(args)).batches && Apply(s.db, ClaimTx(args)).batches[b] == s.db.batches[b]
    ensures id in s.db.rows && !Pending(s.db.rows[id]) ==>
              id in Apply(s.db, ClaimTx(args)).rows && Apply(s.db, ClaimTx(args)).rows[id] == s.db.rows[id]
  {
    if ClaimBatch(s.db, args).Success? {
      var expiresAt := SaturateI64(args.now + args.leaseSeconds);
      if ClaimableIds(s.db.batches, args.now, args.lockedBatches) != {} {
        assert ClaimBatch(s.db, args) == ClaimExisting(s.db, args, expiresAt);
        TakeoverTouchesOpenOnly(s.db, args, expiresAt, b);
      } else {
        assert ClaimBatch(s.db, args) == ClaimNew(s.db, args, expiresAt);
        NewClaimKeepsBatches(s.db, args, expiresAt, b);
        if id in s.db.rows && !Pending(s.db.rows[id]) {
          NewClaimTouchesPendingOnly(s.db, args, expiresAt, id);
        }
      }
    }
  }

  lemma NewClaimTouchesPendingOnly(db: Database, args: ClaimArgs, expiresAt: i64, id: int)
    requires args.maxRows >= 0 && ClaimNew(db, args, expiresAt).Success?
    requires id in db.rows && !Pending(db.rows[id])
    ensures var after := ClaimNew(db, args, expiresAt).value.db;
            id in after.rows && after.rows[id] == db.rows[id]
  {
  }

  lemma QuarantineLeavesTerminal(s: Committed, claimed: ClaimedBatch, quarantinedAt: i64, now: i64, id: int)
    requires Ok(s) && id in s.db.rows && !Pending(s.db.rows[id])
    ensures var after := Apply(s.db, QuarantineTx(claimed, quarantinedAt, now));
            id in after.rows && after.rows[id] == s.db.rows[id]
  {
    if QuarantineBatch(s.db, claimed, quarantinedAt, now).Success? {
      OwnedRowsArePending(s.db, s.journal, claimed);
    }
  }

  // ---- Frozen manifests ------------------------------------------------------------------------------------

  /** The journal only grows: a manifest, an assignment and a publication are forever. */
  ghost predicate Grows(j: Journal, k: Journal) {
    && (forall b :: b in j.manifests ==> b in k.manifests && k.manifests[b] == j.manifests[b])
    && (forall id :: id in j.batchOf ==> id in k.batchOf && k.batchOf[id] == j.batchOf[id])
    && j.ids <= k.ids
    && j.published <= k.published
  }

  lemma RecordGrows(s: Committed, tx: Tx)
    requires Ok(s) && Fresh(s.journal, tx)
    ensures Grows(s.journal, Record(s.db, s.journal, tx))
  {
    if tx.ClaimTx? {
      ClaimKeeps(s.db, s.journal, tx.args);
      var claimed := ClaimedBy(s.db, tx);
      if claimed.Some? && claimed.value.batchId !in s.journal.manifests {
        var m := claimed.value.manifest;
        forall id | id in RecordIds(m)
          ensures id !in s.journal.batchOf
        {
          var i :| 0 <= i < |RecordIds(m)| && RecordIds(m)[i] == id;
          assert m.records[i].outboxId == id;
        }
      }
    }
  }

  /** As long as a batch is not published, its stored rows are its manifest, in order. */
  lemma StoredRowsAreTheManifest(s: Committed, b: int)
    requires Ok(s) && b in s.db.batches && s.db.batches[b].state != Published
    ensures b in s.journal.manifests
    ensures BatchMatches(s.db.batches[b], s.journal.manifests[b])
    ensures BatchOrder(s.db.rows, b) == RecordIds(s.journal.manifests[b])
  {
    assert BatchOk(s.db.rows, s.db.batches, s.journal, b);
    RowsOfBatchAreTheManifest(s.db.rows, s.db.batches, s.journal, b);
  }

  lemma {:induction false} JournalsGrow(states: seq<Committed>, txs: seq<Tx>, n: nat, m: nat)
    requires IsRun(states, txs) && n <= m <= |txs|
    ensures Grows(states[n].journal, states[m].journal)
    decreases m
  {
    if n < m {
      JournalsGrow(states, txs, n, m - 1);
      RunsStayOk(states, txs, m - 1);
      RecordGrows(states[m - 1], txs[m - 1]);
    }
  }

  /** The manifest of a batch and the batch of a row never change, whatever happens in between, and
      as long as the batch is not published its stored rows are exactly that manifest. */
  lemma ManifestsAreFrozen(states: seq<Committed>, txs: seq<Tx>, n: nat, m: nat, b: int)
    requires IsRun(states, txs) && n <= m <= |txs|
    requires b in states[n].journal.manifests
    ensures Grows(states[n].journal, states[m].journal)
    ensures b in states[m].db.batches && states[m].db.batches[b].state != Published ==>
              && BatchMatches(states[m].db.batches[b], states[n].journal.manifests[b])
              && BatchOrder(states[m].db.rows, b) == RecordIds(states[n].journal.manifests[b])
  {
    JournalsGrow(states, txs, n, m);
    RunsStayOk(states, txs, m);
    if b in states[m].db.batches && states[m].db.batches[b].state != Published {
      StoredRowsAreTheManifest(states[m], b);
    }
  }

  /** In any reachable state: each row is in at most one batch and is terminal exactly as that batch is;
      a lease owner is set exactly while the batch is publishing; and a claim by an owner that
      holds the lease loads the frozen manifest. */
  lemma BatchesAndRowsAgree(states: seq<Committed>, txs: seq<Tx>, n: nat, id: int, b: int)
    requires IsRun(states, txs) && n <= |txs|
    requires b in states[n].db.batches && id in states[n].db.rows
    requires states[n].db.rows[id].deliveryBatchId == Some(b)
    ensures var batch, row := states[n].db.batches[b], states[n].db.rows[id];
            && states[n].journal.batchOf.Keys >= {id} && states[n].journal.batchOf[id] == b
            && row.publishedAt == batch.publishedAt && row.quarantinedAt == batch.quarantinedAt
            && (Pending(row) <==> !Terminal(batch))
            && (batch.leaseOwner.Some? <==> batch.state == Publishing)
            && (batch.leaseExpiresAt.Some? <==> batch.state == Publishing)
            && b in states[n].journal.manifests
            && (batch.state == Publishing ==>
                  LoadClaimed(states[n].db.rows, states[n].db.batches, b, batch.leaseOwner.value)
                  == Success(ClaimedBatch(b, batch.leaseOwner.value, batch.leaseExpiresAt.value,
                                          states[n].journal.manifests[b])))
  {
    RunsStayOk(states, txs, n);
    var s := states[n];
    assert RowOk(s.db.rows, s.db.batches, s.journal, id) && BatchOk(s.db.rows, s.db.batches, s.journal, b);
    if s.db.batches[b].state == Publishing {
      LoadReturnsTheManifest(s.db.rows, s.db.batches, s.journal, b, s.db.batches[b].leaseOwner.value);
    }
  }
}
