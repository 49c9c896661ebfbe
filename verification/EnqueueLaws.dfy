/**
 enqueue_events is an idempotent set insertion: it stores every input identity
 with exactly its envelope, leaves prior rows alone, counts the distinct new
 identities, and neither duplicates in the input nor the chunk size matter.
 */
module EnqueueLaws {
  import opened Wrappers
  import opened MachineInts
  import opened Finite
  import opened Events
  import opened Outbox
  import Admission

  /** uniq_analytics_event_id. */
  ghost predicate UniqueEvents(rows: Rows) {
    forall a, b :: a in rows && b in rows && rows[a].event.eventId == rows[b].event.eventId ==> a == b
  }

  ghost predicate FreshIds(rows: Rows, ids: seq<int>) {
    Distinct(ids) && forall i :: 0 <= i < |ids| ==> ids[i] !in rows
  }

  /** What inserting `events` into `before` must have produced. */
  ghost predicate Inserted(
    before: Rows, after: Rows, events: seq<AnalyticsEvent>, createdAt: i64, ids: seq<int>, count: nat)
  {
    && count <= |ids|
    && after.Keys == before.Keys + Elements(ids[..count])
    && (forall id :: id in before ==> id in after && after[id] == before[id])
    && (forall id :: id in after && id !in before ==>
                       after[id].event in events && after[id] == NewRow(after[id].event, createdAt))
    && (forall e :: e in events ==> Stored(after, e.eventId))
    && UniqueEvents(after)
  }

  lemma StoredBy(rows: Rows, k: int)
    requires k in rows
    ensures Stored(rows, rows[k].event.eventId)
  {
  }

  lemma {:induction false} InsertMissingInserts(rows: Rows, events: seq<AnalyticsEvent>, createdAt: i64, ids: seq<int>)
    requires UniqueEvents(rows) && FreshIds(rows, ids) && |ids| >= |events|
    ensures var r := InsertMissing(rows, events, createdAt, ids);
            Inserted(rows, r.0, events, createdAt, ids, r.1)
  {
    if events == [] {
      assert Elements(ids[..0]) == {};
    } else {
      var init, e := events[..|events| - 1], events[|events| - 1];
      InsertMissingInserts(rows, init, createdAt, ids);
      var (mid, n) := InsertMissing(rows, init, createdAt, ids);
      assert events == init + [e];
      if !Stored(mid, e.eventId) {
        InsertOne(rows, mid, init, e, createdAt, ids, n);
      }
    }
  }

  lemma InsertOne(rows: Rows, mid: Rows, init: seq<AnalyticsEvent>, e: AnalyticsEvent, createdAt: i64, ids: seq<int>,
                  n: nat)
    requires Inserted(rows, mid, init, createdAt, ids, n) && FreshIds(rows, ids)
    requires !Stored(mid, e.eventId) && n < |ids|
    ensures Inserted(rows, mid[ids[n] := NewRow(e, createdAt)], init + [e], createdAt, ids, n + 1)
  {
    var after := mid[ids[n] := NewRow(e, createdAt)];
    var events := init + [e];
    assert ids[..n + 1] == ids[..n] + [ids[n]];
    assert ids[n] !in Elements(ids[..n]);
    assert ids[n] !in mid.Keys;
    assert after.Keys == rows.Keys + Elements(ids[..n + 1]);
    assert e == events[|init|];
    forall x | x in events
      ensures Stored(after, x.eventId)
    {
      if x in init {
        var k :| k in mid && mid[k].event.eventId == x.eventId;
        StoredBy(after, k);
      } else {
        StoredBy(after, ids[n]);
      }
    }
    assert UniqueEvents(after) by {
      forall k | k in mid
        ensures mid[k].event.eventId != e.eventId
      {
        StoredBy(mid, k);
      }
    }
  }

  // ---- Chunks and duplicates do not matter --------------------------------------------------

  /** Inserting a concatenation is inserting its parts one after the other, with the unused ids. */
  lemma {:induction false} InsertMissingSplits(
    rows: Rows, a: seq<AnalyticsEvent>, b: seq<AnalyticsEvent>, createdAt: i64, ids: seq<int>)
    requires |ids| >= |a| + |b|
    ensures var first := InsertMissing(rows, a, createdAt, ids);
            var second := InsertMissing(first.0, b, createdAt, ids[first.1..]);
            InsertMissing(rows, a + b, createdAt, ids) == (second.0, first.1 + second.1)
    decreases |b|
  {
    if b == [] {
      assert a + b == a;
    } else {
      var init, e := b[..|b| - 1], b[|b| - 1];
      InsertMissingSplits(rows, a, init, createdAt, ids);
      assert (a + b)[..|a + b| - 1] == a + init;
      assert (a + b)[|a + b| - 1] == e;
    }
  }

  /** Nothing is inserted when every identity is stored already. */
  lemma {:induction false} InsertMissingOfStored(rows: Rows, events: seq<AnalyticsEvent>, createdAt: i64, ids: seq<int>)
    requires |ids| >= |events|
    requires forall e :: e in events ==> Stored(rows, e.eventId)
    ensures InsertMissing(rows, events, createdAt, ids) == (rows, 0)
  {
    if events != [] {
      InsertMissingOfStored(rows, events[..|events| - 1], createdAt, ids);
    }
  }

  // ---- The theorems ---------------------------------------------------------------------------

  /** The identities of the input that are not stored yet. */
  ghost function NewIdentities(rows: Rows, events: seq<AnalyticsEvent>): set<EventId> {
    set e | e in events && !Stored(rows, e.eventId) :: e.eventId
  }

  /** The reserved row count is the number of distinct new identities. */
  lemma {:induction false} InsertedCountIsNewIdentities(rows: Rows, events: seq<AnalyticsEvent>, createdAt: i64,
                                                        ids: seq<int>)
    requires UniqueEvents(rows) && FreshIds(rows, ids) && |ids| >= |events|
    ensures InsertMissing(rows, events, createdAt, ids).1 == |NewIdentities(rows, events)|
  {
    if events == [] {
      assert NewIdentities(rows, events) == {};
    } else {
      var init, e := events[..|events| - 1], events[|events| - 1];
      InsertedCountIsNewIdentities(rows, init, createdAt, ids);
      InsertMissingInserts(rows, init, createdAt, ids);
      var mid := InsertMissing(rows, init, createdAt, ids).0;
      assert forall x :: x in events <==> x in init || x == e;
      StoredAfterInsertIff(rows, mid, init, createdAt, ids, InsertMissing(rows, init, createdAt, ids).1, e.eventId);
      if Stored(mid, e.eventId) {
        assert NewIdentities(rows, events) == NewIdentities(rows, init);
      } else {
        assert NewIdentities(rows, events) == NewIdentities(rows, init) + {e.eventId};
      }
    }
  }

  lemma StoredAfterInsertIff(
    rows: Rows, after: Rows, events: seq<AnalyticsEvent>, createdAt: i64, ids: seq<int>, n: nat, id: EventId)
    requires Inserted(rows, after, events, createdAt, ids, n)
    ensures Stored(after, id) <==> Stored(rows, id) || id in NewIdentities(rows, events)
  {
    if Stored(after, id) {
      var k :| k in after && after[k].event.eventId == id;
      if k !in rows {
        assert after[k].event in events;
      }
    }
    if Stored(rows, id) {
      var k :| k in rows && rows[k].event.eventId == id;
      assert k in after && after[k] == rows[k];
    }
  }

  /** Two envelopes of one identity that differ. */
  ghost predicate Conflicting(rows: Rows, events: seq<AnalyticsEvent>) {
    || (exists k, e :: k in rows && e in events && rows[k].event.eventId == e.eventId && rows[k].event != e)
    || (exists d, e :: d in events && e in events && d.eventId == e.eventId && d != e)
  }

  /** Every event is found stored under its identity exactly when no identity is reused for other content. */
  lemma AllStoredIffNoConflict(rows: Rows, events: seq<AnalyticsEvent>, createdAt: i64, ids: seq<int>)
    requires UniqueEvents(rows) && FreshIds(rows, ids) && |ids| >= |events|
    ensures (forall e :: e in events ==> StoredAs(InsertMissing(rows, events, createdAt, ids).0, e)) <==>
            !Conflicting(rows, events)
  {
    InsertMissingInserts(rows, events, createdAt, ids);
    var after := InsertMissing(rows, events, createdAt, ids).0;
    if !Conflicting(rows, events) {
      forall e | e in events
        ensures StoredAs(after, e)
      {
        assert Stored(after, e.eventId);
        var k :| k in after && after[k].event.eventId == e.eventId;
        if k in rows {
          assert rows[k].event == e;
        } else {
          assert after[k].event in events;
        }
      }
    } else {
      ConflictIsNotStored(rows, after, events, createdAt, ids, InsertMissing(rows, events, createdAt, ids).1);
    }
  }

  lemma ConflictIsNotStored(rows: Rows, after: Rows, events: seq<AnalyticsEvent>, createdAt: i64, ids: seq<int>, n: nat)
    requires Inserted(rows, after, events, createdAt, ids, n) && Conflicting(rows, events)
    ensures exists e :: e in events && !StoredAs(after, e)
  {
    if k, e :| k in rows && e in events && rows[k].event.eventId == e.eventId && rows[k].event != e {
      assert k in after && after[k].event != e;
      forall l | l in after
        ensures after[l].event != e
      {
      }
      assert !StoredAs(after, e);
    } else {
      var d, e :| d in events && e in events && d.eventId == e.eventId && d != e;
      OneStoredForm(after, d, e);
    }
  }

  lemma OneStoredForm(rows: Rows, d: AnalyticsEvent, e: AnalyticsEvent)
    requires UniqueEvents(rows) && d.eventId == e.eventId
    ensures StoredAs(rows, d) && StoredAs(rows, e) ==> d == e
  {
  }

  /** When enqueue_events succeeds. */
  lemma EnqueueSucceedsIff(db: Database, events: seq<AnalyticsEvent>, createdAt: i64, now: i64, ids: seq<int>)
    requires UniqueEvents(db.rows) && FreshIds(db.rows, ids) && |ids| >= |events|
    ensures Enqueue(db, events, createdAt, now, ids).Success? <==>
            && |events| <= MAX_ENQUEUE_ROWS
            && (forall e :: e in events ==> Insertable(e))
            && !Conflicting(db.rows, events)
            && Admission.Admit(db.policy, db.admission, InsertMissing(db.rows, events, createdAt, ids).1, createdAt,
                               now).Success?
  {
    AllStoredIffNoConflict(db.rows, events, createdAt, ids);
    FirstUnstored(InsertMissing(db.rows, events, createdAt, ids).0, events);
  }

  /** The result of a successful call, read off its definition. */
  lemma SuccessfulEnqueue(db: Database, events: seq<AnalyticsEvent>, createdAt: i64, now: i64, ids: seq<int>)
    requires |ids| >= |events| && Enqueue(db, events, createdAt, now, ids).Success?
    ensures var after := Enqueue(db, events, createdAt, now, ids).value;
            var (rows, count) := InsertMissing(db.rows, events, createdAt, ids);
            && after.rows == rows && count <= MAX_ENQUEUE_ROWS
            && (forall e :: e in events ==> StoredAs(rows, e))
            && Admission.Admit(db.policy, db.admission, count, createdAt, now).Success?
            && after.admission == Admission.Admit(db.policy, db.admission, count, createdAt, now).value.0
            && after.batches == db.batches && after.policy == db.policy
  {
    FirstUnstored(InsertMissing(db.rows, events, createdAt, ids).0, events);
  }

  /** What a successful enqueue_events leaves behind. */
  lemma EnqueueIsSetInsertion(db: Database, events: seq<AnalyticsEvent>, createdAt: i64, now: i64, ids: seq<int>)
    requires UniqueEvents(db.rows) && FreshIds(db.rows, ids) && |ids| >= |events|
    requires Enqueue(db, events, createdAt, now, ids).Success?
    ensures var after := Enqueue(db, events, createdAt, now, ids).value;
            var count := |NewIdentities(db.rows, events)|;
            && Inserted(db.rows, after.rows, events, createdAt, ids, count)
            && (forall e :: e in events ==> StoredAs(after.rows, e))
            && count <= MAX_ENQUEUE_ROWS
            && Admission.Admit(db.policy, db.admission, count, createdAt, now).Success?
            && after.admission == Admission.Admit(db.policy, db.admission, count, createdAt, now).value.0
            && after.batches == db.batches && after.policy == db.policy
  {
    SuccessfulEnqueue(db, events, createdAt, now, ids);
    InsertMissingInserts(db.rows, events, createdAt, ids);
    InsertedCountIsNewIdentities(db.rows, events, createdAt, ids);
  }

  /** The first conflicting event is named exactly when some event conflicts. */
  lemma FirstUnstored(rows: Rows, events: seq<AnalyticsEvent>)
    ensures (exists i :: 0 <= i < |events| && !StoredAs(rows, events[i])
                         && (forall j :: 0 <= j < i ==> StoredAs(rows, events[j])))
       <==> !(forall e :: e in events ==> StoredAs(rows, e))
  {
    if e :| e in events && !StoredAs(rows, e) {
      var i := 0;
      while StoredAs(rows, events[i])
        invariant 0 <= i < |events|
        invariant forall j :: 0 <= j < i ==> StoredAs(rows, events[j])
        decreases |events| - i
      {
        if i + 1 == |events| {
          var k :| 0 <= k < |events| && events[k] == e;
          assert false;
        }
        i := i + 1;
      }
    }
  }

  /** Repeating a successful call stores nothing, reserves nothing and succeeds again. */
  lemma EnqueueIsIdempotent(
    db: Database, events: seq<AnalyticsEvent>, createdAt: i64, now: i64, ids: seq<int>, later: i64, again: i64,
    moreIds: seq<int>)
    requires UniqueEvents(db.rows) && FreshIds(db.rows, ids) && |ids| >= |events|
    requires Enqueue(db, events, createdAt, now, ids).Success?
    requires |moreIds| >= |events|
    ensures var once := Enqueue(db, events, createdAt, now, ids).value;
            Enqueue(once, events, later, again, moreIds) == Success(once)
  {
    EnqueueIsSetInsertion(db, events, createdAt, now, ids);
    var once := Enqueue(db, events, createdAt, now, ids).value;
    InsertMissingOfStored(once.rows, events, later, moreIds);
    FirstUnstored(once.rows, events);
  }
}
