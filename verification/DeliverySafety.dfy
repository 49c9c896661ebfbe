/** Every action of every relay keeps the delivery invariant; the exactly-once theorems follow. */
module DeliverySafety {
  import opened Wrappers
  import opened MachineInts
  import opened TrafficRows
  import opened DailyTotals
  import opened Projection
  import opened Outbox
  import opened OutboxInvariant
  import opened Transactions
  import opened OutboxTheorems
  import opened Delivery

  // ---- What the ordered queries see -------------------------------------------------------------

  lemma PlannedRowsCarryBatch(b: int, m: Manifest, installation: int)
    requires ProjectionOf(b, m, installation).Success?
    ensures forall x :: x in ProjectionOf(b, m, installation).value.rows ==> x.batchId == b
    ensures forall x :: x in ProjectionOf(b, m, installation).value.daily ==> x.batchId == b
  {
    var e := ProjectionOf(b, m, installation).value;
    forall i | 0 <= i < |e.rows|
      ensures e.rows[i].batchId == b
    {
      BuiltRowIdentity(e.kind, m.records[i], b, m.createdAt, installation);
    }
  }

  /** The plan of a genuine handle can be told apart in its tables. */
  lemma PlanIsRecognisable(w: World, installation: int, h: ClaimedBatch)
    requires Ok(w.committed) && Genuine(w.committed.journal, h) && PlanOf(h, installation).Success?
    ensures Recognisable(PlanOf(h, installation).value, h.batchId, h.manifest.partitionMonth)
  {
    assert GoodManifest(h.manifest);
    forall i | 0 <= i < |h.manifest.records|
      ensures h.manifest.records[i].rowNumber == i
      ensures h.manifest.records[i].event.partitionMonth == Some(h.manifest.partitionMonth)
    {
      assert RecordFits(h.manifest, i);
    }
    ExpectedIsRecognisable(h.batchId, h.manifest, installation);
  }

  /** The raw query returns the whole expected block, or nothing: verification never finds a conflict. */
  lemma RawQuerySees(w: World, installation: int, h: ClaimedBatch, stored: seq<TrafficRow>)
    requires Inv(w, installation) && Genuine(w.committed.journal, h) && PlanOf(h, installation).Success?
    requires RawQuery(w, h, PlanOf(h, installation).value, stored)
    ensures var e := PlanOf(h, installation).value;
            && stored == (if InRaw(w.warehouse, installation, h) then e.rows else [])
            && VerifyExact(stored, e.rows) == Success(InRaw(w.warehouse, installation, h))
  {
    var e := PlanOf(h, installation).value;
    PlanIsRecognisable(w, installation, h);
    assert RawHolds(RawTable(w, e), w.committed.journal.manifests, installation, e.kind);
    ReadReturns(RawTable(w, e).rows, RawOf(h.batchId, h.manifest.partitionMonth), RawNumber(), stored,
                if InRaw(w.warehouse, installation, h) then e.rows else []);
  }

  lemma DailyQuerySees(w: World, installation: int, h: ClaimedBatch, stored: seq<DailyRow>)
    requires Inv(w, installation) && Genuine(w.committed.journal, h) && PlanOf(h, installation).Success?
    requires DailyQuery(w, h, PlanOf(h, installation).value, stored)
    ensures var e := PlanOf(h, installation).value;
            && stored == (if InDaily(w.warehouse, installation, h) then e.daily else [])
            && VerifyExact(stored, e.daily) == Success(InDaily(w.warehouse, installation, h))
  {
    var e := PlanOf(h, installation).value;
    PlanIsRecognisable(w, installation, h);
    assert DailyHolds(DailyTable(w, e), w.committed.journal.manifests, installation, e.kind);
    ReadReturns(DailyTable(w, e).rows, DailyOf(h.batchId, h.manifest.partitionMonth), DailyNumber(), stored,
                if InDaily(w.warehouse, installation, h) then e.daily else []);
  }

  // ---- The three kinds of change -----------------------------------------------------------------

  /** A relay moves to a state it may be in. */
  lemma RelayMoves(w: World, installation: int, r: int, s: Relay)
    requires Inv(w, installation) && RelayOk(w, installation, r, s)
    ensures Inv(Goes(w, r, s), installation)
  {
    var after := Goes(w, r, s);
    forall q | q in after.relays
      ensures RelayOk(after, installation, q, after.relays[q])
    {
      assert q != r ==> RelayOk(w, installation, q, w.relays[q]);
    }
    assert forall q :: q in after.issued ==> (RequestOk(after, installation, q) <==> RequestOk(w, installation, q));
  }

  /** A request is sent that may be sent. */
  lemma IssueKeeps(w: World, installation: int, q: Request)
    requires Inv(w, installation) && RequestOk(w, installation, q)
    ensures Inv(Issue(w, q), installation)
  {
    var after := Issue(w, q);
    forall r | r in after.relays
      ensures RelayOk(after, installation, r, after.relays[r])
    {
      assert RelayOk(w, installation, r, w.relays[r]);
    }
    forall p | p in after.issued
      ensures RequestOk(after, installation, p)
    {
      assert RequestOk(w, installation, p);
    }
  }

  lemma RelayStateIsOk(w: World, installation: int, r: int)
    requires Inv(w, installation)
    ensures RelayOk(w, installation, r, StateOf(w, r))
  {
  }

  lemma MoreManifestsKeepWarehouse(w: Warehouse, m: map<int, Manifest>, n: map<int, Manifest>, installation: int)
    requires WarehouseOk(w, m, installation)
    requires forall b :: b in m ==> b in n && n[b] == m[b]
    ensures WarehouseOk(w, n, installation)
  {
    forall kind: Kind
      ensures RawHolds(TablesOf(w, kind).raw, n, installation, kind)
              && DailyHolds(TablesOf(w, kind).daily, n, installation, kind)
    {
      assert RawHolds(TablesOf(w, kind).raw, m, installation, kind)
             && DailyHolds(TablesOf(w, kind).daily, m, installation, kind);
      forall b | Projects(m, installation, kind, b)
        ensures Projects(n, installation, kind, b)
                && PlanFor(n, installation, kind, b) == PlanFor(m, installation, kind, b)
      {
      }
    }
  }

  /** A transaction commits; only a delivered batch may be marked published. */
  lemma CommitKeeps(w: World, installation: int, tx: Tx)
    requires Inv(w, installation) && CanCommit(w, tx)
    requires tx.PublishTx? ==>
               Delivered(w.warehouse, w.committed.journal.manifests, installation, tx.claimed.batchId)
    ensures Inv(AfterCommit(w, tx), installation)
    ensures Grows(w.committed.journal, AfterCommit(w, tx).committed.journal)
  {
    var s, t := w.committed, Commit(w.committed, tx);
    ApplyKeeps(s.db, s.journal, tx);
    RecordGrows(s, tx);
    MoreManifestsKeepWarehouse(w.warehouse, s.journal.manifests, t.journal.manifests, installation);
    var after := AfterCommit(w, tx);
    forall r | r in after.relays
      ensures RelayOk(after, installation, r, after.relays[r])
    {
      assert RelayOk(w, installation, r, w.relays[r]);
    }
    forall q | q in after.issued
      ensures RequestOk(after, installation, q)
    {
      assert RequestOk(w, installation, q);
    }
    forall b | b in t.journal.published
      ensures Delivered(after.warehouse, t.journal.manifests, installation, b)
    {
      assert b in s.journal.published || (tx.PublishTx? && b == tx.claimed.batchId);
      assert Delivered(w.warehouse, s.journal.manifests, installation, b);
    }
  }

  /** One more block of raw rows, or none if the token was seen. */
  lemma RawInsertHolds(t: Table<TrafficRow>, manifests: map<int, Manifest>, installation: int, kind: Kind, b: int)
    requires RawHolds(t, manifests, installation, kind) && Projects(manifests, installation, kind, b)
    ensures RawHolds(InsertBlock(t, b, PlanFor(manifests, installation, kind, b).rows), manifests, installation, kind)
  {
    PlannedRowsCarryBatch(b, manifests[b], installation);
    var rows := PlanFor(manifests, installation, kind, b).rows;
    var after := InsertBlock(t, b, rows);
    forall x: TrafficRow
      ensures after.rows[x] == if x.batchId in after.tokens then
                                 multiset(PlanFor(manifests, installation, kind, x.batchId).rows)[x] else 0
    {
      assert x.batchId != b ==> x !in rows;
      assert t.rows[x] == if x.batchId in t.tokens then
                            multiset(PlanFor(manifests, installation, kind, x.batchId).rows)[x] else 0;
    }
  }

  lemma DailyInsertHolds(t: Table<DailyRow>, manifests: map<int, Manifest>, installation: int, kind: Kind, b: int)
    requires DailyHolds(t, manifests, installation, kind) && Projects(manifests, installation, kind, b)
    ensures DailyHolds(InsertBlock(t, b, PlanFor(manifests, installation, kind, b).daily), manifests, installation,
                       kind)
  {
    PlannedRowsCarryBatch(b, manifests[b], installation);
    var rows := PlanFor(manifests, installation, kind, b).daily;
    var after := InsertBlock(t, b, rows);
    forall x: DailyRow
      ensures after.rows[x] == if x.batchId in after.tokens then
                                 multiset(PlanFor(manifests, installation, kind, x.batchId).daily)[x] else 0
    {
      assert x.batchId != b ==> x !in rows;
      assert t.rows[x] == if x.batchId in t.tokens then
                            multiset(PlanFor(manifests, installation, kind, x.batchId).daily)[x] else 0;
    }
  }

  /** Every token of v is a token of w. */
  ghost predicate TokensGrow(v: Warehouse, w: Warehouse) {
    forall kind: Kind ::
      && TablesOf(v, kind).raw.tokens <= TablesOf(w, kind).raw.tokens
      && TablesOf(v, kind).daily.tokens <= TablesOf(w, kind).daily.tokens
  }

  lemma WarehouseChanges(w: World, installation: int, after: Warehouse)
    requires Inv(w, installation)
    requires WarehouseOk(after, w.committed.journal.manifests, installation) && TokensGrow(w.warehouse, after)
    ensures Inv(w.(warehouse := after), installation)
  {
    var w' := w.(warehouse := after);
    forall r | r in w'.relays
      ensures RelayOk(w', installation, r, w'.relays[r])
    {
      assert RelayOk(w, installation, r, w.relays[r]);
    }
    forall q | q in w'.issued
      ensures RequestOk(w', installation, q)
    {
      assert RequestOk(w, installation, q);
    }
    forall b | b in w'.committed.journal.published
      ensures Delivered(after, w.committed.journal.manifests, installation, b)
    {
      assert Delivered(w.warehouse, w.committed.journal.manifests, installation, b);
    }
  }

  // ---- Every action ----------------------------------------------------------------------------------

  /** The plan of a genuine handle is the plan the invariant speaks about. */
  lemma PlanIsPlanFor(w: World, installation: int, h: ClaimedBatch)
    requires Genuine(w.committed.journal, h) && PlanOf(h, installation).Success?
    ensures var e := PlanOf(h, installation).value;
            && Projects(w.committed.journal.manifests, installation, e.kind, h.batchId)
            && PlanFor(w.committed.journal.manifests, installation, e.kind, h.batchId) == e
  {
  }

  lemma RawWriteIsOk(w: World, installation: int, h: ClaimedBatch)
    requires Inv(w, installation) && Genuine(w.committed.journal, h) && PlanOf(h, installation).Success?
    ensures Inv(w.(warehouse := WithRaw(w.warehouse, h, PlanOf(h, installation).value)), installation)
  {
    var e, after := PlanOf(h, installation).value, WithRaw(w.warehouse, h, PlanOf(h, installation).value);
    PlanIsPlanFor(w, installation, h);
    var manifests := w.committed.journal.manifests;
    RawInsertHolds(TablesOf(w.warehouse, e.kind).raw, manifests, installation, e.kind, h.batchId);
    forall kind: Kind
      ensures RawHolds(TablesOf(after, kind).raw, manifests, installation, kind)
              && DailyHolds(TablesOf(after, kind).daily, manifests, installation, kind)
    {
      assert RawHolds(TablesOf(w.warehouse, kind).raw, manifests, installation, kind);
    }
    WarehouseChanges(w, installation, after);
  }

  lemma DailyWriteIsOk(w: World, installation: int, h: ClaimedBatch)
    requires Inv(w, installation) && Genuine(w.committed.journal, h) && PlanOf(h, installation).Success?
    ensures Inv(w.(warehouse := WithDaily(w.warehouse, h, PlanOf(h, installation).value)), installation)
  {
    var e, after := PlanOf(h, installation).value, WithDaily(w.warehouse, h, PlanOf(h, installation).value);
    PlanIsPlanFor(w, installation, h);
    var manifests := w.committed.journal.manifests;
    DailyInsertHolds(TablesOf(w.warehouse, e.kind).daily, manifests, installation, e.kind, h.batchId);
    forall kind: Kind
      ensures RawHolds(TablesOf(after, kind).raw, manifests, installation, kind)
              && DailyHolds(TablesOf(after, kind).daily, manifests, installation, kind)
    {
      assert DailyHolds(TablesOf(w.warehouse, kind).daily, manifests, installation, kind);
    }
    WarehouseChanges(w, installation, after);
  }

  lemma CheckKeepsInv(w: World, installation: int, a: Action)
    requires Inv(w, installation) && Enabled(w, a, installation)
    requires a.CheckRaw? || a.CheckDaily? || a.VerifyRaw? || a.VerifyDaily?
    ensures Inv(Next(w, a, installation), installation)
  {
    RelayStateIsOk(w, installation, a.relay);
    var s := StateOf(w, a.relay);
    if PlanOf(s.h, installation).Success? {
      if a.CheckRaw? || a.VerifyRaw? {
        RawQuerySees(w, installation, s.h, a.storedRaw);
      } else {
        DailyQuerySees(w, installation, s.h, a.storedDaily);
      }
    }
    RelayMoves(w, installation, a.relay, StateOf(Next(w, a, installation), a.relay));
  }

  lemma WriteIsSent(w: World, installation: int, a: Action)
    requires Enabled(w, a, installation) && Writes(a)
    ensures RequestOf(w, a).Some?
    ensures CanLand(Issue(w, RequestOf(w, a).value), RequestOf(w, a).value, ClockOf(a), installation)
    ensures Next(w, a, installation)
         == Goes(Sent(w, RequestOf(w, a).value, ClockOf(a), Applied(a), installation), a.relay, AfterWrite(w, a))
  {
  }

  /** A request that takes effect, now or long after its relay gave up, keeps the invariant: inserts are deduplicated by
      their token, and a publication of a genuine batch is of a delivered one. */
  lemma LandKeeps(w: World, installation: int, q: Request, now: i64)
    requires Inv(w, installation) && q in w.issued && CanLand(w, q, now, installation)
    ensures Inv(Landed(w, q, now, installation), installation)
  {
    assert RequestOk(w, installation, q);
    match q
    case RawInsert(h) => RawWriteIsOk(w, installation, h);
    case DailyInsert(h) => DailyWriteIsOk(w, installation, h);
    case DbWrite(tx) =>
      if tx.PublishTx? {
        GenuineIsDelivered(w, installation, tx.claimed);
      }
      CommitKeeps(w, installation, At(tx, now));
  }

  lemma GenuineIsDelivered(w: World, installation: int, h: ClaimedBatch)
    requires Genuine(w.committed.journal, h) && InRaw(w.warehouse, installation, h)
             && InDaily(w.warehouse, installation, h)
    ensures Delivered(w.warehouse, w.committed.journal.manifests, installation, h.batchId)
  {
  }

  lemma SendKeeps(w: World, installation: int, q: Request, now: i64, applied: bool)
    requires Inv(w, installation) && RequestOk(w, installation, q) && CanLand(Issue(w, q), q, now, installation)
    ensures Inv(Sent(w, q, now, applied, installation), installation)
  {
    IssueKeeps(w, installation, q);
    if applied {
      LandKeeps(Issue(w, q), installation, q, now);
    }
  }

  /** A relay only sends what it may send. */
  lemma RelaySendsWhatItMay(w: World, installation: int, a: Action)
    requires Inv(w, installation) && Enabled(w, a, installation) && Writes(a)
    ensures RequestOk(w, installation, RequestOf(w, a).value)
  {
    RelayStateIsOk(w, installation, a.relay);
  }

  lemma SendingMovesNoRelay(w: World, q: Request, now: i64, applied: bool, installation: int)
    requires CanLand(Issue(w, q), q, now, installation)
    ensures Sent(w, q, now, applied, installation).relays == w.relays
  {
  }

  lemma SenderStaysOk(w: World, installation: int, a: Action)
    requires Inv(w, installation) && Enabled(w, a, installation) && Writes(a)
    ensures RelayOk(Sent(w, RequestOf(w, a).value, ClockOf(a), Applied(a), installation), installation, a.relay,
                    StateOf(w, a.relay))
  {
    var q := RequestOf(w, a).value;
    var sent := Sent(w, q, ClockOf(a), Applied(a), installation);
    RelaySendsWhatItMay(w, installation, a);
    SendKeeps(w, installation, q, ClockOf(a), Applied(a));
    SendingMovesNoRelay(w, q, ClockOf(a), Applied(a), installation);
    RelayStateIsOk(sent, installation, a.relay);
  }

  lemma SentRelayIsOk(w: World, installation: int, a: Action)
    requires Inv(w, installation) && Enabled(w, a, installation) && (a.WriteRaw? || a.WriteDaily? || a.Publish?)
    ensures RelayOk(Sent(w, RequestOf(w, a).value, ClockOf(a), Applied(a), installation), installation, a.relay,
                    AfterWrite(w, a))
  {
    SenderStaysOk(w, installation, a);
    RelayStateIsOk(w, installation, a.relay);
  }

  lemma ClaimedRelayIsOk(w: World, installation: int, a: Action)
    requires Inv(w, installation) && Enabled(w, a, installation) && a.Claim?
    ensures RelayOk(Sent(w, RequestOf(w, a).value, ClockOf(a), Applied(a), installation), installation, a.relay,
                    AfterWrite(w, a))
  {
    ClaimKeeps(w.committed.db, w.committed.journal, a.args);
  }

  lemma WriteKeepsInv(w: World, installation: int, a: Action)
    requires Inv(w, installation) && Enabled(w, a, installation) && Writes(a)
    ensures Inv(Next(w, a, installation), installation)
  {
    WriteIsSent(w, installation, a);
    var q := RequestOf(w, a).value;
    RelaySendsWhatItMay(w, installation, a);
    SendKeeps(w, installation, q, ClockOf(a), Applied(a));
    if a.Claim? {
      ClaimedRelayIsOk(w, installation, a);
    } else if a.WriteRaw? || a.WriteDaily? || a.Publish? {
      SentRelayIsOk(w, installation, a);
    }
    RelayMoves(Sent(w, q, ClockOf(a), Applied(a), installation), installation, a.relay, AfterWrite(w, a));
  }

  lemma NextKeepsInv(w: World, a: Action, installation: int)
    requires Inv(w, installation) && Enabled(w, a, installation)
    ensures Inv(Next(w, a, installation), installation)
  {
    if Writes(a) {
      WriteKeepsInv(w, installation, a);
    } else if a.Land? {
      LandKeeps(w, installation, a.request, a.landedAt);
    } else if a.Background? {
      CommitKeeps(w, installation, a.tx);
    } else if a.Fail? || a.Crash? {
      RelayStateIsOk(w, installation, a.relay);
      RelayMoves(w, installation, a.relay, if a.Fail? then Failed(StateOf(w, a.relay).h) else Idle);
    } else {
      CheckKeepsInv(w, installation, a);
    }
  }
}
