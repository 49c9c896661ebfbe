/**
 The first loop of enqueue_events: keep the first event of every identity and
 refuse a second one that differs. Inserting what is kept inserts the same rows
 as inserting the whole input.
 */
module Deduplication {
  import opened Wrappers
  import opened MachineInts
  import opened Events
  import opened Outbox
  import opened EnqueueLaws

  predicate HasId(events: seq<AnalyticsEvent>, id: EventId) {
    exists i :: 0 <= i < |events| && events[i].eventId == id
  }

  function FirstOccurrences(events: seq<AnalyticsEvent>): (kept: seq<AnalyticsEvent>)
    ensures |kept| <= |events|
    ensures forall x :: x in kept ==> x in events
  {
    if events == [] then []
    else
      var kept := FirstOccurrences(events[..|events| - 1]);
      var e := events[|events| - 1];
      if HasId(kept, e.eventId) then kept else kept + [e]
  }

  lemma KeptIsStored(rows: Rows, events: seq<AnalyticsEvent>, createdAt: i64, ids: seq<int>, id: EventId)
    requires UniqueEvents(rows) && FreshIds(rows, ids) && |ids| >= |events|
    requires HasId(FirstOccurrences(events), id)
    ensures Stored(InsertMissing(rows, events, createdAt, ids).0, id)
  {
    InsertMissingInserts(rows, events, createdAt, ids);
    var kept := FirstOccurrences(events);
    var i :| 0 <= i < |kept| && kept[i].eventId == id;
    assert kept[i] in events;
  }

  /** One more event on both sides. */
  lemma InsertMissingStep(rows: Rows, events: seq<AnalyticsEvent>, e: AnalyticsEvent, createdAt: i64, ids: seq<int>)
    requires |ids| > |events|
    ensures InsertMissing(rows, events + [e], createdAt, ids)
         == InsertNext(InsertMissing(rows, events, createdAt, ids), e, createdAt, ids)
  {
    assert (events + [e])[..|events|] == events;
  }

  lemma FirstOccurrencesStep(events: seq<AnalyticsEvent>, e: AnalyticsEvent)
    ensures FirstOccurrences(events + [e])
         == if HasId(FirstOccurrences(events), e.eventId) then FirstOccurrences(events)
            else FirstOccurrences(events) + [e]
  {
    assert (events + [e])[..|events|] == events;
  }

  lemma DropRepeated(rows: Rows, events: seq<AnalyticsEvent>, e: AnalyticsEvent, createdAt: i64, ids: seq<int>)
    requires UniqueEvents(rows) && FreshIds(rows, ids) && |ids| > |events|
    requires HasId(FirstOccurrences(events), e.eventId)
    ensures InsertMissing(rows, events + [e], createdAt, ids) == InsertMissing(rows, events, createdAt, ids)
  {
    KeptIsStored(rows, events, createdAt, ids, e.eventId);
    InsertMissingStep(rows, events, e, createdAt, ids);
  }

  lemma KeepNew(rows: Rows, kept: seq<AnalyticsEvent>, events: seq<AnalyticsEvent>, e: AnalyticsEvent, createdAt: i64,
                ids: seq<int>)
    requires |ids| > |events| && |kept| <= |events|
    requires InsertMissing(rows, kept, createdAt, ids) == InsertMissing(rows, events, createdAt, ids)
    ensures InsertMissing(rows, kept + [e], createdAt, ids) == InsertMissing(rows, events + [e], createdAt, ids)
  {
    InsertMissingStep(rows, kept, e, createdAt, ids);
    InsertMissingStep(rows, events, e, createdAt, ids);
  }

  lemma DropStep(rows: Rows, events: seq<AnalyticsEvent>, all: seq<AnalyticsEvent>, e: AnalyticsEvent, createdAt: i64,
                 ids: seq<int>)
    requires UniqueEvents(rows) && FreshIds(rows, ids) && |ids| > |events| && all == events + [e]
    requires InsertMissing(rows, FirstOccurrences(events), createdAt, ids)
          == InsertMissing(rows, events, createdAt, ids)
    ensures InsertMissing(rows, FirstOccurrences(all), createdAt, ids) == InsertMissing(rows, all, createdAt, ids)
  {
    FirstOccurrencesStep(events, e);
    if HasId(FirstOccurrences(events), e.eventId) {
      DropRepeated(rows, events, e, createdAt, ids);
    } else {
      KeepNew(rows, FirstOccurrences(events), events, e, createdAt, ids);
    }
  }

  /** Dropping repeated identities before the insertion changes neither the rows nor the count. */
  lemma {:induction false} DuplicatesInsertNothing(rows: Rows, events: seq<AnalyticsEvent>, createdAt: i64,
                                                   ids: seq<int>)
    requires UniqueEvents(rows) && FreshIds(rows, ids) && |ids| >= |events|
    ensures InsertMissing(rows, FirstOccurrences(events), createdAt, ids) == InsertMissing(rows, events, createdAt, ids)
  {
    if |events| > 0 {
      var init, last := events[..|events| - 1], events[|events| - 1];
      assert events == init + [last];
      DuplicatesInsertNothing(rows, init, createdAt, ids);
      DropStep(rows, init, events, last, createdAt, ids);
    }
  }

  /** Two events of the input share this identity and differ, or a stored row of this identity differs from an event. */
  ghost predicate ConflictOf(rows: Rows, events: seq<AnalyticsEvent>, id: EventId) {
    || (exists k, e :: k in rows && e in events && rows[k].event.eventId == id && e.eventId == id && rows[k].event != e)
    || (exists d, e :: d in events && e in events && d.eventId == id && e.eventId == id && d != e)
  }

  lemma UnstoredEventConflicts(rows: Rows, after: Rows, events: seq<AnalyticsEvent>, createdAt: i64, ids: seq<int>,
                               n: nat, e: AnalyticsEvent)
    requires Inserted(rows, after, events, createdAt, ids, n) && e in events && !StoredAs(after, e)
    ensures ConflictOf(rows, events, e.eventId)
  {
    assert Stored(after, e.eventId);
    var k :| k in after && after[k].event.eventId == e.eventId;
    if k in rows {
      assert rows[k].event != e;
    } else {
      assert after[k].event in events && after[k].event != e;
    }
  }

  lemma ConflictsSpread(rows: Rows, some: seq<AnalyticsEvent>, all: seq<AnalyticsEvent>, id: EventId)
    requires ConflictOf(rows, some, id) && forall e :: e in some ==> e in all
    ensures ConflictOf(rows, all, id) && Conflicting(rows, all)
  {
  }

  /** positions finds each kept event by its identity. */
  ghost predicate Indexed(positions: map<EventId, nat>, unique: seq<AnalyticsEvent>) {
    && (forall id :: id in positions <==> HasId(unique, id))
    && forall id :: id in positions ==> positions[id] < |unique| && unique[positions[id]].eventId == id
  }

  lemma IndexGrows(positions: map<EventId, nat>, unique: seq<AnalyticsEvent>, event: AnalyticsEvent)
    requires Indexed(positions, unique) && event.eventId !in positions
    ensures Indexed(positions[event.eventId := |unique|], unique + [event])
  {
    var after := unique + [event];
    forall id
      ensures id in positions[event.eventId := |unique|] <==> HasId(after, id)
    {
      if HasId(unique, id) {
        var p :| 0 <= p < |unique| && unique[p].eventId == id;
        assert after[p].eventId == id;
      }
      assert after[|unique|] == event;
    }
  }

  /** Two events of the input share this identity and differ. */
  ghost predicate Differ(events: seq<AnalyticsEvent>, id: EventId) {
    exists d, e :: d in events && e in events && d.eventId == id && e.eventId == id && d != e
  }

  /** Every event of the prefix was kept, or is equal to a kept one. */
  ghost predicate Covered(prefix: seq<AnalyticsEvent>, unique: seq<AnalyticsEvent>) {
    forall n :: 0 <= n < |prefix| ==> prefix[n] in unique && prefix[n].partitionMonth.Some?
  }

  lemma CoveredGrows(prefix: seq<AnalyticsEvent>, unique: seq<AnalyticsEvent>, event: AnalyticsEvent)
    requires Covered(prefix, unique) && event.partitionMonth.Some?
    ensures event in unique ==> Covered(prefix + [event], unique)
    ensures Covered(prefix + [event], unique + [event])
  {
    assert (unique + [event])[|unique|] == event;
  }

  lemma KeptConflict(events: seq<AnalyticsEvent>, i: nat, unique: seq<AnalyticsEvent>, p: nat)
    requires i < |events| && unique == FirstOccurrences(events[..i]) && p < |unique|
    requires unique[p].eventId == events[i].eventId && unique[p] != events[i]
    ensures Differ(events, events[i].eventId)
  {
    assert unique[p] in events[..i];
    assert unique[p] in events && events[i] in events;
  }

  lemma FoundByIndex(positions: map<EventId, nat>, unique: seq<AnalyticsEvent>, id: EventId)
    requires Indexed(positions, unique)
    ensures id in positions ==> HasId(unique, id) && positions[id] < |unique| && unique[positions[id]].eventId == id
    ensures id !in positions ==> !HasId(unique, id)
  {
  }

  /** The loop's state once it has seen a prefix of the input. */
  ghost predicate Seen(prefix: seq<AnalyticsEvent>, unique: seq<AnalyticsEvent>, positions: map<EventId, nat>) {
    unique == FirstOccurrences(prefix) && Indexed(positions, unique) && Covered(prefix, unique)
  }

  lemma SeenRepeated(prefix: seq<AnalyticsEvent>, all: seq<AnalyticsEvent>, unique: seq<AnalyticsEvent>,
                     positions: map<EventId, nat>, event: AnalyticsEvent)
    requires Seen(prefix, unique, positions) && all == prefix + [event] && event.partitionMonth.Some?
    requires event.eventId in positions && unique[positions[event.eventId]] == event
    ensures Seen(all, unique, positions)
  {
    FirstOccurrencesStep(prefix, event);
    CoveredGrows(prefix, unique, event);
    FoundByIndex(positions, unique, event.eventId);
  }

  lemma SeenNew(prefix: seq<AnalyticsEvent>, all: seq<AnalyticsEvent>, unique: seq<AnalyticsEvent>,
                positions: map<EventId, nat>, event: AnalyticsEvent)
    requires Seen(prefix, unique, positions) && all == prefix + [event] && event.partitionMonth.Some?
    requires event.eventId !in positions
    ensures Seen(all, unique + [event], positions[event.eventId := |unique|])
  {
    FirstOccurrencesStep(prefix, event);
    CoveredGrows(prefix, unique, event);
    FoundByIndex(positions, unique, event.eventId);
    IndexGrows(positions, unique, event);
  }

  /** Why the input is refused: a month that is no date, or two differing events of one identity. */
  ghost predicate RightlyRefused(events: seq<AnalyticsEvent>, error: OutboxError) {
    match error
    case InvalidPartitionMonth => exists i :: 0 <= i < |events| && events[i].partitionMonth.None?
    case EventConflict(id) => Differ(events, id)
    case _ => false
  }

  method Deduplicate(events: seq<AnalyticsEvent>) returns (result: Result<seq<AnalyticsEvent>, OutboxError>)
    ensures result.Success? ==> result.value == FirstOccurrences(events) && Covered(events, result.value)
    ensures result.Failure? ==> RightlyRefused(events, result.error)
  {
    var positions: map<EventId, nat> := map[];
    var unique: seq<AnalyticsEvent> := [];
    assert events[..0] == [];
    for i := 0 to |events|
      invariant Seen(events[..i], unique, positions)
    {
      var event := events[i];
      if event.partitionMonth.None? {
        return Failure(InvalidPartitionMonth);
      }
      assert events[..i + 1] == events[..i] + [event];
      if event.eventId in positions {
        if unique[positions[event.eventId]] != event {
          KeptConflict(events, i, unique, positions[event.eventId]);
          return Failure(EventConflict(event.eventId));
        }
        SeenRepeated(events[..i], events[..i + 1], unique, positions, event);
      } else {
        SeenNew(events[..i], events[..i + 1], unique, positions, event);
        positions, unique := positions[event.eventId := |unique|], unique + [event];
      }
    }
    assert events[..|events|] == events;
    return Success(unique);
  }
}
