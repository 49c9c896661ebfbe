/** Every transaction of the outbox keeps the table invariant. */
module OutboxSafety {
  import opened Wrappers
  import opened MachineInts
  import opened Finite
  import opened Calendar
  import opened Events
  import opened TrafficRows
  import opened Outbox
  import opened EnqueueLaws
  import opened OutboxInvariant

  // ---- Leases come and go ---------------------------------------------------------------------

  /** The columns that no update of a batch may touch. */
  predicate SameManifestColumns(a: DeliveryBatch, b: DeliveryBatch) {
    && a.eventName == b.eventName && a.schemaMajor == b.schemaMajor && a.partitionMonth == b.partitionMonth
    && a.rowCount == b.rowCount && a.content == b.content && a.settings == b.settings && a.createdAt == b.createdAt
  }

  lemma LeaseChangeKeepsTables(rows: Rows, batches: Batches, j: Journal, b: int, batch: DeliveryBatch)
    requires TablesOk(rows, batches, j) && b in batches
    requires batches[b].state in {Ready, Publishing} && batch.state in {Ready, Publishing}
    requires StateColumns(batch) && SameManifestColumns(batches[b], batch)
    ensures TablesOk(rows, batches[b := batch], j)
  {
    var after := batches[b := batch];
    assert BatchOk(rows, batches, j, b);
    forall id | id in rows
      ensures RowOk(rows, after, j, id)
    {
      assert RowOk(rows, batches, j, id);
    }
    forall c | c in after
      ensures BatchOk(rows, after, j, c)
    {
      assert c in batches && BatchOk(rows, batches, j, c);
    }
  }

  // ---- A batch becomes terminal -----------------------------------------------------------------

  /** Rows of other batches are untouched and rows of b get the given terminal columns. */
  ghost predicate Terminated(before: Rows, after: Rows, b: int, publishedAt: Option<i64>, quarantinedAt: Option<i64>) {
    && after.Keys == before.Keys
    && forall id :: id in before ==>
                      after[id] == if before[id].deliveryBatchId == Some(b)
                      then before[id].(publishedAt := publishedAt, quarantinedAt := quarantinedAt)
                      else before[id]
  }

  lemma TerminationKeepsTables(rows: Rows, after: Rows, batches: Batches, j: Journal, b: int, batch: DeliveryBatch)
    requires TablesOk(rows, batches, j) && b in batches
    requires batches[b].state in {Ready, Publishing} && batch.state in {Published, Quarantined}
    requires StateColumns(batch) && SameManifestColumns(batches[b], batch)
    requires Terminated(rows, after, b, batch.publishedAt, batch.quarantinedAt)
    ensures TablesOk(after, batches[b := batch],
                     if batch.state == Published then j.(published := j.published + {b}) else j)
  {
    var batches' := batches[b := batch];
    var j' := if batch.state == Published then j.(published := j.published + {b}) else j;
    assert BatchOk(rows, batches, j, b);
    forall id | id in after
      ensures RowOk(after, batches', j', id) && after[id].event == rows[id].event
    {
      assert RowOk(rows, batches, j, id);
    }
    forall c | c in batches'
      ensures BatchOk(after, batches', j', c)
    {
      assert c in batches && BatchOk(rows, batches, j, c);
      if batches'[c].state != Published {
        forall i | 0 <= i < |j.manifests[c].records|
          ensures RecordStored(after, c, j.manifests[c], i)
        {
          assert RecordStored(rows, c, j.manifests[c], i);
        }
      }
    }
  }

  // ---- A batch is formed ---------------------------------------------------------------------------

  function RecordsFor(rows: Rows, order: seq<int>): (records: seq<OutboxRecord>)
    requires forall i :: 0 <= i < |order| ==> order[i] in rows
    ensures |records| == |order|
    ensures forall i :: 0 <= i < |order| ==> records[i] == OutboxRecord(order[i], i, rows[order[i]].event)
  {
    seq(|order|, i requires 0 <= i < |order| && order[i] in rows => OutboxRecord(order[i], i, rows[order[i]].event))
  }

  /** The journal once batch b was formed with manifest m. */
  function Formed(j: Journal, b: int, m: Manifest): Journal {
    j.(manifests := j.manifests[b := m], batchOf := j.batchOf + map id | id in RecordIds(m) :: b)
  }

  /** What the claim query guarantees about the rows it selected. */
  ghost predicate Selected(rows: Rows, seed: AnalyticsEvent, order: seq<int>) {
    && 1 <= |order| <= 100_000
    && Distinct(order)
    && seed.partitionMonth.Some? && IsMonthStart(seed.partitionMonth.value)
    && forall i :: 0 <= i < |order| ==>
                     order[i] in rows && Unbatched(rows[order[i]]) && SameStream(rows[order[i]].event, seed)
  }

  function ManifestFor(rows: Rows, seed: AnalyticsEvent, order: seq<int>, createdAt: i64): Manifest
    requires forall i :: 0 <= i < |order| ==> order[i] in rows
    requires seed.partitionMonth.Some?
  {
    Manifest(seed.eventName, seed.schemaMajor, seed.partitionMonth.value, createdAt, RecordsFor(rows, order))
  }

  lemma FormationIsGood(rows: Rows, seed: AnalyticsEvent, order: seq<int>, createdAt: i64)
    requires Selected(rows, seed, order)
    ensures GoodManifest(ManifestFor(rows, seed, order, createdAt))
  {
    var m := ManifestFor(rows, seed, order, createdAt);
    forall i | 0 <= i < |m.records|
      ensures RecordFits(m, i)
    {
    }
  }

  lemma AssignedRows(rows: Rows, order: seq<int>, b: int, id: int)
    requires Distinct(order) && id in rows
    ensures id in Assigned(rows, order, b)
    ensures id !in order ==> Assigned(rows, order, b)[id] == rows[id]
    ensures forall i :: 0 <= i < |order| && order[i] == id ==>
              Assigned(rows, order, b)[id] == rows[id].(deliveryBatchId := Some(b), batchRowNumber := Some(i))
  {
  }

  lemma FormationKeepsJournal(rows: Rows, batches: Batches, j: Journal, seed: AnalyticsEvent, order: seq<int>, b: int,
                              createdAt: i64)
    requires TablesOk(rows, batches, j) && Selected(rows, seed, order)
    requires b !in j.manifests
    ensures JournalOk(Formed(j, b, ManifestFor(rows, seed, order, createdAt)))
  {
    var m := ManifestFor(rows, seed, order, createdAt);
    var j' := Formed(j, b, m);
    FormationIsGood(rows, seed, order, createdAt);
    forall i | 0 <= i < |order|
      ensures order[i] !in j.batchOf && order[i] in j.ids
    {
      assert RowOk(rows, batches, j, order[i]);
    }
    forall c, i | c in j'.manifests && 0 <= i < |j'.manifests[c].records|
      ensures j'.manifests[c].records[i].outboxId in j'.batchOf
      ensures j'.batchOf[j'.manifests[c].records[i].outboxId] == c
    {
      var id := j'.manifests[c].records[i].outboxId;
      if c == b {
        assert id == RecordIds(m)[i];
      } else {
        assert j.manifests[c].records[i].outboxId in j.batchOf;
        assert id !in RecordIds(m);
      }
    }
    assert j'.batchOf.Keys <= j'.ids by {
      forall id | id in RecordIds(m)
        ensures id in j.ids
      {
        var i :| 0 <= i < |RecordIds(m)| && RecordIds(m)[i] == id;
        assert id == order[i];
      }
    }
  }

  lemma FormationKeepsRows(
    rows: Rows, batches: Batches, j: Journal, seed: AnalyticsEvent, order: seq<int>, b: int, batch: DeliveryBatch,
    createdAt: i64, id: int)
    requires TablesOk(rows, batches, j) && Selected(rows, seed, order)
    requires b !in j.manifests && b !in batches && id in rows
    requires batch.publishedAt.None? && batch.quarantinedAt.None?
    ensures id in Assigned(rows, order, b)
    ensures RowOk(Assigned(rows, order, b), batches[b := batch],
                  Formed(j, b, ManifestFor(rows, seed, order, createdAt)), id)
  {
    var m := ManifestFor(rows, seed, order, createdAt);
    assert RowOk(rows, batches, j, id);
    AssignedRows(rows, order, b, id);
    if id in order {
      var i :| 0 <= i < |order| && order[i] == id;
      assert m.records[i] == OutboxRecord(id, i, rows[id].event);
    } else {
      assert forall i :: 0 <= i < |order| ==> RecordIds(m)[i] == order[i];
      assert id !in RecordIds(m);
    }
  }

  lemma FormationKeepsTables(
    rows: Rows, batches: Batches, j: Journal, seed: AnalyticsEvent, order: seq<int>, b: int, owner: int, now: i64,
    expiresAt: i64)
    requires TablesOk(rows, batches, j) && Selected(rows, seed, order)
    requires b !in j.manifests && b !in batches
    ensures TablesOk(Assigned(rows, order, b), batches[b := NewBatch(rows, seed, order, owner, now, expiresAt)],
                     Formed(j, b, ManifestFor(rows, seed, order, now)))
  {
    var m, batch := ManifestFor(rows, seed, order, now), NewBatch(rows, seed, order, owner, now, expiresAt);
    var rows', batches', j' := Assigned(rows, order, b), batches[b := batch], Formed(j, b, m);
    FormationKeepsJournal(rows, batches, j, seed, order, b, now);
    forall id | id in rows'
      ensures RowOk(rows', batches', j', id) && rows'[id].event == rows[id].event
    {
      FormationKeepsRows(rows, batches, j, seed, order, b, batch, now, id);
      AssignedRows(rows, order, b, id);
    }
    assert BatchOk(rows', batches', j', b) by {
      forall i | 0 <= i < |m.records|
        ensures RecordStored(rows', b, m, i)
      {
        AssignedRows(rows, order, b, order[i]);
      }
    }
    forall c | c in batches' && c != b
      ensures BatchOk(rows', batches', j', c)
    {
      FormationKeepsOtherBatches(rows, batches, j, seed, order, b, batch, now, c);
    }
    assert UniqueEvents(rows');
  }

  lemma FormationKeepsOtherBatches(
    rows: Rows, batches: Batches, j: Journal, seed: AnalyticsEvent, order: seq<int>, b: int, batch: DeliveryBatch,
    createdAt: i64, c: int)
    requires TablesOk(rows, batches, j) && Selected(rows, seed, order)
    requires b !in j.manifests && c in batches && c != b
    ensures BatchOk(Assigned(rows, order, b), batches[b := batch],
                    Formed(j, b, ManifestFor(rows, seed, order, createdAt)), c)
  {
    assert BatchOk(rows, batches, j, c);
    if batches[c].state != Published {
      forall i | 0 <= i < |j.manifests[c].records|
        ensures RecordStored(Assigned(rows, order, b), c, j.manifests[c], i)
      {
        var id := j.manifests[c].records[i].outboxId;
        assert RecordStored(rows, c, j.manifests[c], i);
        assert id !in order;
        AssignedRows(rows, order, b, id);
      }
    }
  }

  // ---- Published history is deleted -------------------------------------------------------------------

  lemma CleanupKeepsTables(rows: Rows, batches: Batches, j: Journal, gone: seq<int>, goneBatches: seq<int>)
    requires TablesOk(rows, batches, j)
    requires forall i :: 0 <= i < |gone| ==> gone[i] in rows && rows[gone[i]].publishedAt.Some?
    requires forall i :: 0 <= i < |goneBatches| ==>
                           && goneBatches[i] in batches
                           && batches[goneBatches[i]].state == Published
                           && RowsOfBatch(Without(rows, gone), goneBatches[i]) == {}
    ensures TablesOk(Without(rows, gone), Without(batches, goneBatches), j)
    ensures PendingIds(Without(rows, gone)) == PendingIds(rows)
  {
    forall id
      ensures id in PendingIds(Without(rows, gone)) <==> id in PendingIds(rows)
    {
      if id in gone {
        var i :| 0 <= i < |gone| && gone[i] == id;
        assert rows[gone[i]].publishedAt.Some?;
      }
    }
    var rows', batches' := Without(rows, gone), Without(batches, goneBatches);
    forall id | id in rows'
      ensures RowOk(rows', batches', j, id)
    {
      assert RowOk(rows, batches, j, id);
      if rows[id].deliveryBatchId.Some? {
        assert id in RowsOfBatch(rows', rows[id].deliveryBatchId.value);
      }
    }
    forall b | b in batches'
      ensures BatchOk(rows', batches', j, b)
    {
      assert BatchOk(rows, batches, j, b);
      if batches[b].state != Published {
        forall i | 0 <= i < |j.manifests[b].records|
          ensures RecordStored(rows', b, j.manifests[b], i)
        {
          assert RecordStored(rows, b, j.manifests[b], i);
          assert RowOk(rows, batches, j, j.manifests[b].records[i].outboxId);
        }
      }
    }
  }

  // ---- Events arrive --------------------------------------------------------------------------------------

  lemma ArrivalKeepsTables(
    rows: Rows, after: Rows, batches: Batches, j: Journal, events: seq<AnalyticsEvent>, createdAt: i64, ids: seq<int>,
    count: nat)
    requires TablesOk(rows, batches, j)
    requires Inserted(rows, after, events, createdAt, ids, count)
    requires forall e :: e in events ==> Insertable(e)
    requires forall i :: 0 <= i < |ids| ==> ids[i] !in j.ids
    ensures TablesOk(after, batches, j.(ids := j.ids + Elements(ids)))
  {
    var j' := j.(ids := j.ids + Elements(ids));
    forall id | id in after
      ensures RowOk(after, batches, j', id)
    {
      if id in rows {
        assert RowOk(rows, batches, j, id);
      } else {
        assert id in Elements(ids[..count]);
        var i :| 0 <= i < count && ids[..count][i] == id;
        assert ids[i] == id;
      }
    }
    forall b | b in batches
      ensures BatchOk(after, batches, j', b)
    {
      assert BatchOk(rows, batches, j, b);
      if batches[b].state != Published {
        forall i | 0 <= i < |j.manifests[b].records|
          ensures RecordStored(after, b, j.manifests[b], i)
        {
          assert RecordStored(rows, b, j.manifests[b], i);
        }
      }
    }
  }
}
