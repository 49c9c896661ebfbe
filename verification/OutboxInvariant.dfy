/**
 Frozen manifests and lease fencing. The invariant says how the committed tables
 relate to the journal of everything ever claimed: which manifest each batch was
 formed with, which outbox ids were ever used or assigned, and which batches were
 ever published.
 */
module OutboxInvariant {
  import opened Wrappers
  import opened Finite
  import opened Calendar
  import opened TrafficRows
  import opened SqlOrder
  import opened Outbox
  import opened EnqueueLaws

  datatype Journal = Journal(
    manifests: map<int, Manifest>,   // the manifest each batch id was formed with
    batchOf: map<int, int>,         // the batch each outbox id was ever assigned to
    ids: set<int>,                   // every outbox id ever generated
    published: set<int>)             // every batch ever marked published

  // ---- What a manifest is -------------------------------------------------------------------

  predicate RecordFits(m: Manifest, i: nat)
    requires i < |m.records|
  {
    && m.records[i].rowNumber == i
    && m.records[i].event.eventName == m.eventName
    && m.records[i].event.schemaMajor == m.schemaMajor
    && m.records[i].event.partitionMonth == Some(m.partitionMonth)
  }

  ghost predicate GoodManifest(m: Manifest) {
    && 1 <= |m.records| <= 100_000
    && IsMonthStart(m.partitionMonth)
    && (forall i :: 0 <= i < |m.records| ==> RecordFits(m, i))
    && (forall i, j :: 0 <= i < j < |m.records| ==> m.records[i].outboxId != m.records[j].outboxId)
  }

  ghost predicate JournalOk(j: Journal) {
    && (forall b :: b in j.manifests ==> GoodManifest(j.manifests[b]))
    && (forall b, i :: b in j.manifests && 0 <= i < |j.manifests[b].records| ==>
                         && j.manifests[b].records[i].outboxId in j.batchOf
                         && j.batchOf[j.manifests[b].records[i].outboxId] == b)
    && j.batchOf.Keys <= j.ids
    && j.published <= j.manifests.Keys
  }

  // ---- Rows and batches against the journal ----------------------------------------------------

  /** chk_analytics_batch_state. */
  predicate StateColumns(batch: DeliveryBatch) {
    && (batch.leaseOwner.Some? <==> batch.state == Publishing)
    && (batch.leaseExpiresAt.Some? <==> batch.state == Publishing)
    && (batch.publishedAt.Some? <==> batch.state == Published)
    && (batch.quarantinedAt.Some? <==> batch.state == Quarantined)
  }

  predicate BatchMatches(batch: DeliveryBatch, m: Manifest) {
    && batch.eventName == m.eventName
    && batch.schemaMajor == m.schemaMajor
    && batch.partitionMonth == m.partitionMonth
    && batch.createdAt == m.createdAt
    && batch.rowCount == |m.records|
    && batch.settings == INSERT_SETTINGS
    && |batch.content| == |m.records|
    && forall i :: 0 <= i < |m.records| ==>
                     batch.content[i] == ContentItem(i, m.records[i].event.eventId, m.records[i].event.payloadHash)
  }

  /** Record i of the manifest is still stored, and still assigned to this batch. */
  predicate RecordStored(rows: Rows, b: int, m: Manifest, i: nat)
    requires i < |m.records|
  {
    var id := m.records[i].outboxId;
    && id in rows
    && rows[id].deliveryBatchId == Some(b)
    && rows[id].batchRowNumber == Some(i)
  }

  ghost predicate RowOk(rows: Rows, batches: Batches, j: Journal, id: int)
    requires id in rows
  {
    var row := rows[id];
    && Insertable(row.event)
    && id in j.ids
    && match row.deliveryBatchId
       case None => row.batchRowNumber.None? && Pending(row) && id !in j.batchOf
       case Some(b) =>
         && b in batches && b in j.manifests
         && row.batchRowNumber.Some?
         && 0 <= row.batchRowNumber.value < |j.manifests[b].records|
         && j.manifests[b].records[row.batchRowNumber.value].outboxId == id
         && j.manifests[b].records[row.batchRowNumber.value].event == row.event
         && row.publishedAt == batches[b].publishedAt
         && row.quarantinedAt == batches[b].quarantinedAt
  }

  ghost predicate BatchOk(rows: Rows, batches: Batches, j: Journal, b: int)
    requires b in batches
  {
    && b in j.manifests
    && BatchMatches(batches[b], j.manifests[b])
    && StateColumns(batches[b])
    && (batches[b].state == Published <==> b in j.published)
    && (batches[b].state != Published ==>
          forall i :: 0 <= i < |j.manifests[b].records| ==> RecordStored(rows, b, j.manifests[b], i))
  }

  ghost predicate TablesOk(rows: Rows, batches: Batches, j: Journal) {
    && JournalOk(j)
    && UniqueEvents(rows)
    && (forall id :: id in rows ==> RowOk(rows, batches, j, id))
    && (forall b :: b in batches ==> BatchOk(rows, batches, j, b))
  }

  // ---- Loading a claimed batch returns its manifest ----------------------------------------------

  function RecordIds(m: Manifest): (ids: seq<int>)
    ensures |ids| == |m.records|
    ensures forall i :: 0 <= i < |ids| ==> ids[i] == m.records[i].outboxId
  {
    seq(|m.records|, i requires 0 <= i < |m.records| => m.records[i].outboxId)
  }

  /** The rows assigned to a batch that was not cleaned up are exactly its manifest's. */
  lemma AssignedIffRecorded(rows: Rows, batches: Batches, j: Journal, b: int, id: int)
    requires TablesOk(rows, batches, j) && b in batches && b in j.manifests && batches[b].state != Published
    ensures id in RecordIds(j.manifests[b]) <==> id in RowsOfBatch(rows, b)
  {
    var m := j.manifests[b];
    var ids := RecordIds(m);
    if id in ids {
      assert BatchOk(rows, batches, j, b);
      var i :| 0 <= i < |ids| && ids[i] == id;
      assert RecordStored(rows, b, m, i);
    }
    if id in RowsOfBatch(rows, b) {
      assert RowOk(rows, batches, j, id);
      assert ids[rows[id].batchRowNumber.value] == id;
    }
  }

  lemma ManifestIsOrdered(rows: Rows, batches: Batches, j: Journal, b: int)
    requires TablesOk(rows, batches, j) && b in batches && b in j.manifests && batches[b].state != Published
    ensures Ordered(RecordIds(j.manifests[b]), (id: int) => RowNumber(rows, id))
    ensures Distinct(RecordIds(j.manifests[b]))
  {
    var m := j.manifests[b];
    var ids, key := RecordIds(m), (id: int) => RowNumber(rows, id);
    assert BatchOk(rows, batches, j, b) && GoodManifest(m);
    forall i, k | 0 <= i < k < |ids|
      ensures Before(key, ids[i], ids[k])
    {
      assert RecordStored(rows, b, m, i) && RecordStored(rows, b, m, k);
    }
  }

  lemma RowsOfBatchAreTheManifest(rows: Rows, batches: Batches, j: Journal, b: int)
    requires TablesOk(rows, batches, j) && b in batches && batches[b].state != Published
    ensures b in j.manifests
    ensures RowsOfBatch(rows, b) == Elements(RecordIds(j.manifests[b]))
    ensures |RowsOfBatch(rows, b)| == |j.manifests[b].records|
    ensures BatchOrder(rows, b) == RecordIds(j.manifests[b])
  {
    assert BatchOk(rows, batches, j, b);
    var ids := RecordIds(j.manifests[b]);
    forall id
      ensures id in ids <==> id in RowsOfBatch(rows, b)
    {
      AssignedIffRecorded(rows, batches, j, b, id);
    }
    ManifestIsOrdered(rows, batches, j, b);
    OrderByIsTheOnlyOrder(ids, RowsOfBatch(rows, b), (id: int) => RowNumber(rows, id));
    DistinctCardinality(ids);
    assert RowsOfBatch(rows, b) == Elements(ids);
  }

  /** What the rows of a batch say, record by record. */
  lemma RecordAgrees(rows: Rows, batches: Batches, j: Journal, b: int, i: nat)
    requires TablesOk(rows, batches, j) && b in batches && b in j.manifests && batches[b].state != Published
    requires i < |j.manifests[b].records|
    ensures var record := j.manifests[b].records[i];
            && RowFitsBatch(rows, batches[b], record.outboxId, i)
            && record == OutboxRecord(record.outboxId, i, rows[record.outboxId].event)
  {
    var m := j.manifests[b];
    assert BatchOk(rows, batches, j, b) && GoodManifest(m);
    assert RecordStored(rows, b, m, i) && RecordFits(m, i);
    assert RowOk(rows, batches, j, m.records[i].outboxId);
  }

  lemma ContentAgrees(rows: Rows, batch: DeliveryBatch, m: Manifest, order: seq<int>)
    requires BatchMatches(batch, m) && |order| == |m.records|
    requires forall id :: id in order ==> id in rows && RowNumber(rows, id) >= 0
    requires forall i :: 0 <= i < |order| ==>
               RowNumber(rows, order[i]) == i && m.records[i] == OutboxRecord(order[i], i, rows[order[i]].event)
    ensures ContentOf(rows, order) == batch.content
    ensures RecordsOf(rows, order) == m.records
  {
    forall i | 0 <= i < |order|
      ensures ContentOf(rows, order)[i] == batch.content[i]
      ensures RecordsOf(rows, order)[i] == m.records[i]
    {
      assert RowNumber(rows, order[i]) == i;
    }
  }

  /** A claim that holds the lease never sees a manifest conflict: it loads the frozen manifest. */
  lemma LoadReturnsTheManifest(rows: Rows, batches: Batches, j: Journal, b: int, owner: int)
    requires TablesOk(rows, batches, j) && b in batches
    requires batches[b].state == Publishing && batches[b].leaseOwner == Some(owner)
    ensures b in j.manifests && batches[b].leaseExpiresAt.Some?
    ensures LoadClaimed(rows, batches, b, owner)
         == Success(ClaimedBatch(b, owner, batches[b].leaseExpiresAt.value, j.manifests[b]))
  {
    RowsOfBatchAreTheManifest(rows, batches, j, b);
    var m, order := j.manifests[b], BatchOrder(rows, b);
    assert BatchOk(rows, batches, j, b) && GoodManifest(m);
    forall i | 0 <= i < |order|
      ensures RowFitsBatch(rows, batches[b], order[i], i)
      ensures m.records[i] == OutboxRecord(order[i], i, rows[order[i]].event)
    {
      RecordAgrees(rows, batches, j, b, i);
    }
    ContentAgrees(rows, batches[b], m, order);
  }
}
