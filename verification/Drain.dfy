/**
 The relay drains the backlog: with no arrivals, no faults and every lease
 expired, each claim, project and publish round settles one batch, old batches
 before new ones, until nothing is pending.
 */
module Drain {
  import opened MachineInts
  import opened Events
  import opened SqlOrder
  import opened Projection
  import opened Outbox
  import opened OutboxInvariant
  import opened OutboxSafety
  import opened Transactions
  import opened OutboxTheorems

  /** The claim of a round, and the clock readings of its last transaction. */
  datatype Round = Round(args: ClaimArgs, settledAt: i64, now: i64)

  /** No lease is still running. */
  ghost predicate Quiet(batches: Batches, now: i64) {
    forall b :: b in batches && batches[b].leaseExpiresAt.Some? ==> batches[b].leaseExpiresAt.value < now
  }

  ghost predicate Undisturbed(s: Committed, round: Round) {
    && Ok(s)
    && round.args.lockedBatches == {} && round.args.lockedSeeds == {} && round.args.lockedRows == {}
    && 1 <= round.args.maxRows <= 100_000
    && 1 <= round.args.leaseSeconds <= 3_600
    && round.args.newBatchId !in s.journal.manifests
    && Quiet(s.db.batches, round.args.now)
    && s.db.admission.sampledAt <= round.now
  }

  /** A batch that projects is published; one that cannot be projected is quarantined. */
  ghost function SettleTx(claimed: ClaimedBatch, round: Round, installation: int): Tx {
    if ProjectionOf(claimed.batchId, claimed.manifest, installation).Success?
    then PublishTx(claimed, round.settledAt, round.now)
    else QuarantineTx(claimed, round.settledAt, round.now)
  }

  ghost function AfterClaim(s: Committed, round: Round): (t: Committed)
    requires Undisturbed(s, round)
    ensures Ok(t)
  {
    ApplyKeeps(s.db, s.journal, ClaimTx(round.args));
    Commit(s, ClaimTx(round.args))
  }

  ghost function AfterRound(s: Committed, round: Round, installation: int): (t: Committed)
    requires Undisturbed(s, round)
    ensures Ok(t)
  {
    var mid := AfterClaim(s, round);
    var claimed := ClaimedBy(s.db, ClaimTx(round.args));
    if claimed.None? then mid
    else
      ApplyKeeps(mid.db, mid.journal, SettleTx(claimed.value, round, installation));
      Commit(mid, SettleTx(claimed.value, round, installation))
  }

  // ---- The claim -------------------------------------------------------------------------------

  ghost predicate HasOpenBatch(db: Database) {
    exists b :: b in db.batches && !Terminal(db.batches[b])
  }

  lemma OpenBatchesAreClaimable(s: Committed, now: i64)
    requires Ok(s) && Quiet(s.db.batches, now)
    ensures ClaimableIds(s.db.batches, now, {}) == set b | b in s.db.batches && !Terminal(s.db.batches[b])
  {
    forall b | b in s.db.batches
      ensures Claimable(s.db.batches[b], now) <==> !Terminal(s.db.batches[b])
    {
      assert BatchOk(s.db.rows, s.db.batches, s.journal, b);
    }
  }

  lemma NothingIsClaimable(s: Committed, now: i64)
    requires Ok(s) && Quiet(s.db.batches, now) && !HasOpenBatch(s.db)
    ensures ClaimableIds(s.db.batches, now, {}) == {}
  {
    OpenBatchesAreClaimable(s, now);
    var ids := ClaimableIds(s.db.batches, now, {});
    forall b
      ensures b !in ids
    {
      assert b in s.db.batches ==> Terminal(s.db.batches[b]);
    }
  }

  /** Without an open batch every pending row is still unbatched. */
  lemma PendingRowsAreUnbatched(s: Committed)
    requires Ok(s) && !HasOpenBatch(s.db)
    ensures UnbatchedIds(s.db.rows, {}) == PendingIds(s.db.rows)
  {
    forall id | id in s.db.rows
      ensures Pending(s.db.rows[id]) <==> Unbatched(s.db.rows[id])
    {
      assert RowOk(s.db.rows, s.db.batches, s.journal, id);
      if s.db.rows[id].deliveryBatchId.Some? {
        var b := s.db.rows[id].deliveryBatchId.value;
        assert BatchOk(s.db.rows, s.db.batches, s.journal, b);
        assert Terminal(s.db.batches[b]);
      }
    }
  }

  /** The claim took the batch it should: an open one, oldest first, if there is any. */
  ghost predicate TakesOldestFirst(db: Database, batchId: int) {
    HasOpenBatch(db) ==>
      && batchId in db.batches && !Terminal(db.batches[batchId])
      && forall c :: c in db.batches && !Terminal(db.batches[c]) ==>
                       db.batches[batchId].createdAt <= db.batches[c].createdAt
  }

  /** What the claim of a round found to do. */
  ghost predicate Took(s: Committed, t: Committed, claimed: ClaimedBatch) {
    && OwnsPublishing(t.db.batches, claimed)
    && Genuine(t.journal, claimed)
    && TakesOldestFirst(s.db, claimed.batchId)
    && PendingIds(t.db.rows) == PendingIds(s.db.rows)
    && t.db.admission == s.db.admission
    && forall c :: c in t.db.batches && c != claimed.batchId ==> c in s.db.batches && t.db.batches[c] == s.db.batches[c]
  }

  lemma OldestIsTaken(s: Committed, now: i64)
    requires Ok(s) && Quiet(s.db.batches, now) && ClaimableIds(s.db.batches, now, {}) != {}
    ensures TakesOldestFirst(s.db, OldestClaimable(s.db.batches, now, {}))
  {
    OpenBatchesAreClaimable(s, now);
    var b := OldestClaimable(s.db.batches, now, {});
    var key := (b: int) => if b in s.db.batches then s.db.batches[b].createdAt else 0;
    forall c | c in s.db.batches && !Terminal(s.db.batches[c])
      ensures s.db.batches[b].createdAt <= s.db.batches[c].createdAt
    {
      assert c in ClaimableIds(s.db.batches, now, {});
      assert c != b ==> Before(key, b, c);
    }
  }

  /** The parts of Took that only concern the tables. */
  ghost predicate ClaimsOnly(before: Database, after: Database, batchId: int) {
    && PendingIds(after.rows) == PendingIds(before.rows)
    && after.admission == before.admission
    && forall c :: c in after.batches && c != batchId ==> c in before.batches && after.batches[c] == before.batches[c]
  }

  lemma TookIfClaimsOnly(s: Committed, t: Committed, claimed: ClaimedBatch)
    requires OwnsPublishing(t.db.batches, claimed) && Genuine(t.journal, claimed)
             && TakesOldestFirst(s.db, claimed.batchId)
    requires ClaimsOnly(s.db, t.db, claimed.batchId)
    ensures Took(s, t, claimed)
  {
  }

  lemma TakeoverClaimsOnly(db: Database, args: ClaimArgs, expiresAt: i64)
    requires ClaimableIds(db.batches, args.now, args.lockedBatches) != {} && ClaimExisting(db, args, expiresAt).Success?
    ensures ClaimsOnly(db, ClaimExisting(db, args, expiresAt).value.db,
                       OldestClaimable(db.batches, args.now, args.lockedBatches))
  {
  }

  lemma ClaimTakesAnOpenBatch(s: Committed, round: Round)
    requires Undisturbed(s, round) && HasOpenBatch(s.db)
    ensures ClaimedBy(s.db, ClaimTx(round.args)).Some?
    ensures Took(s, AfterClaim(s, round), ClaimedBy(s.db, ClaimTx(round.args)).value)
  {
    var args := round.args;
    OpenBatchesAreClaimable(s, args.now);
    var open :| open in s.db.batches && !Terminal(s.db.batches[open]);
    assert open in ClaimableIds(s.db.batches, args.now, {});
    var expiresAt := SaturateI64(args.now + args.leaseSeconds);
    ExistingIsClaimed(s, round, expiresAt);
    ClaimKeeps(s.db, s.journal, args);
    OldestIsTaken(s, args.now);
    TakeoverClaimsOnly(s.db, args, expiresAt);
    TookIfClaimsOnly(s, AfterClaim(s, round), ClaimedBy(s.db, ClaimTx(args)).value);
  }

  lemma ExistingIsClaimed(s: Committed, round: Round, expiresAt: i64)
    requires Undisturbed(s, round) && expiresAt == SaturateI64(round.args.now + round.args.leaseSeconds)
    requires ClaimableIds(s.db.batches, round.args.now, {}) != {}
    ensures ClaimExisting(s.db, round.args, expiresAt).Success?
    ensures ClaimBatch(s.db, round.args) == ClaimExisting(s.db, round.args, expiresAt)
    ensures ClaimedBy(s.db, ClaimTx(round.args)).Some?
    ensures ClaimedBy(s.db, ClaimTx(round.args)).value.batchId == OldestClaimable(s.db.batches, round.args.now, {})
    ensures AfterClaim(s, round).db == ClaimExisting(s.db, round.args, expiresAt).value.db
  {
    assert ClaimBatch(s.db, round.args) == ClaimExisting(s.db, round.args, expiresAt) by {
      ClaimDispatches(s.db, round.args);
    }
    ClaimExistingKeeps(s.db, s.journal, round.args, expiresAt);
  }

  /** Without open batches, the claim forms a batch of the selected rows. */
  lemma ClaimIsFormation(db: Database, args: ClaimArgs, expiresAt: i64, seed: AnalyticsEvent, order: seq<int>)
    requires 1 <= args.maxRows <= 100_000 && 1 <= args.leaseSeconds <= 3_600
    requires expiresAt == SaturateI64(args.now + args.leaseSeconds)
    requires ClaimableIds(db.batches, args.now, args.lockedBatches) == {}
    requires UnbatchedIds(db.rows, args.lockedSeeds) != {}
    requires seed == db.rows[First(UnbatchedIds(db.rows, args.lockedSeeds), (id: int) => id)].event
    requires order == RowsToBatch(db.rows, seed, args.lockedRows, args.maxRows) && order != []
    ensures forall i :: 0 <= i < |order| ==> order[i] in db.rows
    ensures ClaimBatch(db, args) == FormBatch(db, args, expiresAt, seed, order)
  {
  }

  /** Without open batches and with pending rows, the claim freezes the seed's stream. */
  lemma NewBatchIsClaimed(s: Committed, round: Round) returns (seed: AnalyticsEvent, order: seq<int>)
    requires Undisturbed(s, round) && !HasOpenBatch(s.db) && PendingIds(s.db.rows) != {}
    ensures Selected(s.db.rows, seed, order)
    ensures ClaimBatch(s.db, round.args)
         == FormBatch(s.db, round.args, SaturateI64(round.args.now + round.args.leaseSeconds), seed, order)
  {
    var args := round.args;
    PendingRowsAreUnbatched(s);
    SelectionIsSelected(s.db, s.journal, args);
    var seedId := First(UnbatchedIds(s.db.rows, {}), (id: int) => id);
    seed := s.db.rows[seedId].event;
    assert seedId in StreamIds(s.db.rows, seed, {});
    order := RowsToBatch(s.db.rows, seed, {}, args.maxRows);
    assert |order| >= 1;
    NothingIsClaimable(s, args.now);
    ClaimIsFormation(s.db, args, SaturateI64(args.now + args.leaseSeconds), seed, order);
  }

  lemma FormationClaimsOnly(db: Database, args: ClaimArgs, expiresAt: i64, seed: AnalyticsEvent, order: seq<int>)
    requires forall i :: 0 <= i < |order| ==> order[i] in db.rows
    requires FormBatch(db, args, expiresAt, seed, order).Success?
    ensures ClaimsOnly(db, FormBatch(db, args, expiresAt, seed, order).value.db, args.newBatchId)
  {
    FormationKeepsBacklog(db.rows, order, args.newBatchId);
  }

  lemma ClaimFormsABatch(s: Committed, round: Round)
    requires Undisturbed(s, round) && !HasOpenBatch(s.db) && PendingIds(s.db.rows) != {}
    ensures ClaimedBy(s.db, ClaimTx(round.args)).Some?
    ensures Took(s, AfterClaim(s, round), ClaimedBy(s.db, ClaimTx(round.args)).value)
  {
    var args, expiresAt := round.args, SaturateI64(round.args.now + round.args.leaseSeconds);
    var seed, order := NewBatchIsClaimed(s, round);
    FormationClaims(s.db, s.journal, args, expiresAt, seed, order);
    ClaimKeeps(s.db, s.journal, args);
    FormationClaimsOnly(s.db, args, expiresAt, seed, order);
    TookIfClaimsOnly(s, AfterClaim(s, round), ClaimedBy(s.db, ClaimTx(args)).value);
  }

  lemma ClaimFindsNothing(s: Committed, round: Round)
    requires Undisturbed(s, round) && PendingIds(s.db.rows) == {}
    ensures ClaimedBy(s.db, ClaimTx(round.args)).None?
    ensures AfterClaim(s, round) == s
  {
    forall b | b in s.db.batches
      ensures Terminal(s.db.batches[b])
    {
      OpenBatchHasPendingRows(s, b);
    }
    NothingIsClaimable(s, round.args.now);
    PendingRowsAreUnbatched(s);
  }

  lemma OpenBatchHasPendingRows(s: Committed, b: int)
    requires Ok(s) && b in s.db.batches
    ensures !Terminal(s.db.batches[b]) ==> PendingIds(s.db.rows) != {}
  {
    assert BatchOk(s.db.rows, s.db.batches, s.journal, b);
    var m := s.journal.manifests[b];
    assert GoodManifest(m);
    if !Terminal(s.db.batches[b]) {
      assert RecordStored(s.db.rows, b, m, 0);
      assert RowOk(s.db.rows, s.db.batches, s.journal, m.records[0].outboxId);
      assert m.records[0].outboxId in PendingIds(s.db.rows);
    }
  }

  // ---- The round ---------------------------------------------------------------------------------

  /** Publishing or quarantining an owned batch settles its rows and nothing else. */
  ghost predicate Settled(t: Committed, u: Committed, claimed: ClaimedBatch) {
    && RowsOfBatch(t.db.rows, claimed.batchId) != {}
    && RowsOfBatch(t.db.rows, claimed.batchId) <= PendingIds(t.db.rows)
    && PendingIds(u.db.rows) == PendingIds(t.db.rows) - RowsOfBatch(t.db.rows, claimed.batchId)
    && u.db.admission.sampledAt == t.db.admission.sampledAt
    && claimed.batchId in u.db.batches && Terminal(u.db.batches[claimed.batchId])
    && u.db.batches[claimed.batchId].leaseExpiresAt.None?
    && u.db.batches.Keys == t.db.batches.Keys
    && forall c :: c in t.db.batches && c != claimed.batchId ==> u.db.batches[c] == t.db.batches[c]
  }

  lemma SettledRowsLeave(rows: Rows, ids: set<int>, at: i64)
    ensures PendingIds(PublishRows(rows, ids, at)) == PendingIds(rows) - ids
    ensures PendingIds(QuarantineRows(rows, ids, at)) == PendingIds(rows) - ids
  {
    forall id
      ensures id in PendingIds(PublishRows(rows, ids, at)) <==> id in PendingIds(rows) - ids
      ensures id in PendingIds(QuarantineRows(rows, ids, at)) <==> id in PendingIds(rows) - ids
    {
      assert id in PublishRows(rows, ids, at) <==> id in rows;
      assert id in QuarantineRows(rows, ids, at) <==> id in rows;
    }
  }

  /** What the settling transaction of an owned batch commits. */
  lemma SettlingCommits(t: Committed, claimed: ClaimedBatch, round: Round, installation: int)
    requires Ok(t) && OwnsPublishing(t.db.batches, claimed) && Genuine(t.journal, claimed)
    requires t.db.admission.sampledAt <= round.now
    ensures var u := Commit(t, SettleTx(claimed, round, installation));
            var ids := RowsOfBatch(t.db.rows, claimed.batchId);
            && (u.db.rows == PublishRows(t.db.rows, ids, round.settledAt)
                || u.db.rows == QuarantineRows(t.db.rows, ids, round.settledAt))
            && u.db.admission.sampledAt == t.db.admission.sampledAt
            && claimed.batchId in u.db.batches && Terminal(u.db.batches[claimed.batchId])
            && u.db.batches == t.db.batches[claimed.batchId := u.db.batches[claimed.batchId]]
            && u.db.batches[claimed.batchId].leaseExpiresAt.None?
  {
    OwnedRowsArePending(t.db, t.journal, claimed);
    OwnerSucceeds(t, claimed, round.settledAt, round.now);
  }

  lemma SettlingSettles(t: Committed, claimed: ClaimedBatch, round: Round, installation: int)
    requires Ok(t) && OwnsPublishing(t.db.batches, claimed) && Genuine(t.journal, claimed)
    requires t.db.admission.sampledAt <= round.now
    ensures Settled(t, Commit(t, SettleTx(claimed, round, installation)), claimed)
  {
    OwnedRowsArePending(t.db, t.journal, claimed);
    assert GoodManifest(t.journal.manifests[claimed.batchId]);
    SettlingCommits(t, claimed, round, installation);
    SettledRowsLeave(t.db.rows, RowsOfBatch(t.db.rows, claimed.batchId), round.settledAt);
  }

  /** One round: nothing happens exactly when nothing is pending; otherwise one batch, old ones first,
      is taken and settled, at least one pending row goes away, and no lease is left running. */
  lemma RoundMakesProgress(s: Committed, round: Round, installation: int)
    requires Undisturbed(s, round)
    ensures var after := AfterRound(s, round, installation);
            var claimed := ClaimedBy(s.db, ClaimTx(round.args));
            && (claimed.None? <==> PendingIds(s.db.rows) == {})
            && (claimed.None? ==> after == s)
            && (claimed.Some? ==>
                  && TakesOldestFirst(s.db, claimed.value.batchId)
                  && PendingIds(after.db.rows) < PendingIds(s.db.rows)
                  && claimed.value.batchId in after.db.batches && Terminal(after.db.batches[claimed.value.batchId]))
            && Quiet(after.db.batches, round.args.now)
            && after.db.admission.sampledAt == s.db.admission.sampledAt
  {
    if PendingIds(s.db.rows) == {} {
      ClaimFindsNothing(s, round);
    } else {
      if HasOpenBatch(s.db) {
        ClaimTakesAnOpenBatch(s, round);
      } else {
        ClaimFormsABatch(s, round);
      }
      SettlingSettles(AfterClaim(s, round), ClaimedBy(s.db, ClaimTx(round.args)).value, round, installation);
    }
  }

  // ---- The loop ------------------------------------------------------------------------------------

  /** Consecutive rounds of one relay: every round uses a new batch id and a clock that does not run back. */
  ghost predicate IsDrain(states: seq<Committed>, rounds: seq<Round>, installation: int) {
    && |states| == |rounds| + 1
    && forall i :: 0 <= i < |rounds| ==>
         Undisturbed(states[i], rounds[i]) && states[i + 1] == AfterRound(states[i], rounds[i], installation)
  }

  /** After n rounds at least n rows were settled, or nothing is pending any more. */
  lemma {:induction false} EveryRoundCounts(states: seq<Committed>, rounds: seq<Round>, installation: int, n: nat)
    requires IsDrain(states, rounds, installation) && n <= |rounds|
    ensures |PendingIds(states[n].db.rows)| <= Max(0, |PendingIds(states[0].db.rows)| - n)
  {
    if n > 0 {
      EveryRoundCounts(states, rounds, installation, n - 1);
      RoundMakesProgress(states[n - 1], rounds[n - 1], installation);
      ProperSubset(PendingIds(states[n].db.rows), PendingIds(states[n - 1].db.rows));
    }
  }

  lemma ProperSubset(a: set<int>, b: set<int>)
    ensures a < b ==> |a| < |b|
  {
    if a < b {
      SubsetCardinality(a, b);
      assert b - a != {};
    }
  }

  /** The loop cannot be starved: a quiet database can always run one more round, whatever the batch size. */
  lemma AnotherRoundIsPossible(s: Committed, round: Round, installation: int, next: Round)
    requires Undisturbed(s, round)
    requires next.args
          == round.args.(now := next.args.now, maxRows := next.args.maxRows, newBatchId := next.args.newBatchId)
    requires 1 <= next.args.maxRows <= 100_000 && next.args.now >= round.args.now && next.now >= round.now
    requires next.args.newBatchId !in AfterRound(s, round, installation).journal.manifests
    ensures Undisturbed(AfterRound(s, round, installation), next)
  {
    RoundMakesProgress(s, round, installation);
  }

  /** The loop ends with an empty backlog after at most as many rounds as there were pending rows, and a
      claim that finds nothing means that nothing is left. */
  lemma DrainEmptiesTheBacklog(states: seq<Committed>, rounds: seq<Round>, installation: int, round: Round)
    requires IsDrain(states, rounds, installation) && |rounds| >= |PendingIds(states[0].db.rows)|
    requires Undisturbed(states[|rounds|], round)
    ensures PendingIds(states[|rounds|].db.rows) == {}
    ensures states[|rounds|].db.admission.accountedRows == 0
    ensures ClaimedBy(states[|rounds|].db, ClaimTx(round.args)).None?
  {
    EveryRoundCounts(states, rounds, installation, |rounds|);
    ClaimFindsNothing(states[|rounds|], round);
  }
}
