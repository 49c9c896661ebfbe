/** The delivery guarantees over every execution. */
module DeliveryTheorems {
  import opened MachineInts
  import opened TrafficRows
  import opened DailyTotals
  import opened Projection
  import opened Outbox
  import opened OutboxInvariant
  import opened Transactions
  import opened OutboxTheorems
  import opened Delivery
  import opened DeliverySafety

  const EMPTY_TABLES := Tables(Table(multiset{}, {}), Table(multiset{}, {}))

  /** Nothing was delivered yet and no relay runs; the outbox may already hold rows and open batches. */
  ghost predicate Start(w: World) {
    && Ok(w.committed)
    && w.committed.journal.published == {}
    && w.warehouse == Warehouse(EMPTY_TABLES, EMPTY_TABLES)
    && w.relays == map[] && w.issued == {}
  }

  ghost predicate Follows(v: World, a: Action, w: World, installation: int) {
    Enabled(v, a, installation) && w == Next(v, a, installation)
  }

  ghost predicate IsExecution(worlds: seq<World>, actions: seq<Action>, installation: int) {
    && |worlds| == |actions| + 1
    && Start(worlds[0])
    && forall i :: 0 <= i < |actions| ==> Follows(worlds[i], actions[i], worlds[i + 1], installation)
  }

  lemma StartIsOk(w: World, installation: int)
    requires Start(w)
    ensures Inv(w, installation)
  {
    var manifests := w.committed.journal.manifests;
    forall kind: Kind
      ensures RawHolds(TablesOf(w.warehouse, kind).raw, manifests, installation, kind)
      ensures DailyHolds(TablesOf(w.warehouse, kind).daily, manifests, installation, kind)
    {
    }
  }

  lemma {:induction false} InvHolds(worlds: seq<World>, actions: seq<Action>, installation: int, n: nat)
    requires IsExecution(worlds, actions, installation) && n <= |actions|
    ensures Inv(worlds[n], installation)
  {
    if n == 0 {
      StartIsOk(worlds[0], installation);
    } else {
      InvHolds(worlds, actions, installation, n - 1);
      assert Follows(worlds[n - 1], actions[n - 1], worlds[n - 1 + 1], installation);
      NextKeepsInv(worlds[n - 1], actions[n - 1], installation);
    }
  }

  lemma LandingGrows(w: World, q: Request, now: i64, installation: int)
    requires Inv(w, installation) && CanLand(w, q, now, installation)
    ensures Grows(w.committed.journal, Landed(w, q, now, installation).committed.journal)
    ensures TokensGrow(w.warehouse, Landed(w, q, now, installation).warehouse)
  {
    match q
    case RawInsert(h) =>
    case DailyInsert(h) =>
    case DbWrite(tx) => RecordGrows(w.committed, At(tx, now));
  }

  /** What was delivered or recorded before still is. */
  ghost predicate Extends(v: World, w: World) {
    Grows(v.committed.journal, w.committed.journal) && TokensGrow(v.warehouse, w.warehouse)
  }

  lemma SendingGrows(w: World, a: Action, installation: int)
    requires Inv(w, installation) && Enabled(w, a, installation) && Writes(a)
    ensures Extends(w, Next(w, a, installation))
  {
    WriteIsSent(w, installation, a);
    var q := RequestOf(w, a).value;
    RelaySendsWhatItMay(w, installation, a);
    IssueKeeps(w, installation, q);
    LandingGrows(Issue(w, q), q, ClockOf(a), installation);
  }

  lemma NextGrows(w: World, a: Action, installation: int)
    requires Inv(w, installation) && Enabled(w, a, installation)
    ensures Extends(w, Next(w, a, installation))
  {
    if Writes(a) {
      SendingGrows(w, a, installation);
    } else if a.Land? {
      LandingGrows(w, a.request, a.landedAt, installation);
    } else if a.Background? {
      RecordGrows(w.committed, a.tx);
    }
  }

  lemma FollowingGrows(v: World, a: Action, w: World, installation: int)
    requires Inv(v, installation) && Follows(v, a, w, installation)
    ensures Extends(v, w)
  {
    NextGrows(v, a, installation);
  }

  lemma ExtendsIsTransitive(u: World, v: World, w: World)
    requires Extends(u, v) && Extends(v, w)
    ensures Extends(u, w)
  {
    forall kind: Kind
      ensures TablesOf(u.warehouse, kind).raw.tokens <= TablesOf(w.warehouse, kind).raw.tokens
      ensures TablesOf(u.warehouse, kind).daily.tokens <= TablesOf(w.warehouse, kind).daily.tokens
    {
      assert TablesOf(u.warehouse, kind).raw.tokens <= TablesOf(v.warehouse, kind).raw.tokens;
    }
  }

  ghost predicate Chain(worlds: seq<World>) {
    forall i :: 0 <= i < |worlds| - 1 ==> Extends(worlds[i], worlds[i + 1])
  }

  lemma {:induction false} ChainExtends(worlds: seq<World>, n: nat, m: nat)
    requires Chain(worlds) && n <= m < |worlds|
    ensures Extends(worlds[n], worlds[m])
    decreases m
  {
    if n < m {
      ChainExtends(worlds, n, m - 1);
      assert Extends(worlds[m - 1], worlds[m - 1 + 1]);
      ExtendsIsTransitive(worlds[n], worlds[m - 1], worlds[m]);
    }
  }

  lemma HistoryGrows(worlds: seq<World>, actions: seq<Action>, installation: int, n: nat, m: nat)
    requires IsExecution(worlds, actions, installation) && n <= m <= |actions|
    ensures Extends(worlds[n], worlds[m])
  {
    forall i | 0 <= i < |worlds| - 1
      ensures Extends(worlds[i], worlds[i + 1])
    {
      InvHolds(worlds, actions, installation, i);
      FollowingGrows(worlds[i], actions[i], worlds[i + 1], installation);
    }
    ChainExtends(worlds, n, m);
  }

  // ---- Exactly once ---------------------------------------------------------------------------

  /** Every row that carries the batch id is stored as often as the block has it. */
  ghost predicate StoredOnce(w: Warehouse, b: int, e: Expected) {
    && (forall x: TrafficRow :: x.batchId == b ==> TablesOf(w, e.kind).raw.rows[x] == multiset(e.rows)[x])
    && (forall x: DailyRow :: x.batchId == b ==> TablesOf(w, e.kind).daily.rows[x] == multiset(e.daily)[x])
  }

  /** Every ordered query for the batch returns the block in row-number order. */
  ghost predicate ReadInOrder(w: World, h: ClaimedBatch, e: Expected) {
    && (forall stored :: RawQuery(w, h, e, stored) ==> stored == e.rows)
    && (forall stored :: DailyQuery(w, h, e, stored) ==> stored == e.daily)
  }

  ghost predicate HeldExactlyOnce(w: World, b: int, m: Manifest, e: Expected) {
    StoredOnce(w.warehouse, b, e) && ReadInOrder(w, ClaimedBatch(b, 0, 0, m), e)
  }

  lemma DeliveredIsCounted(w: World, installation: int, b: int)
    requires Inv(w, installation) && b in w.committed.journal.published
    ensures var m := w.committed.journal.manifests[b];
            && ProjectionOf(b, m, installation).Success?
            && StoredOnce(w.warehouse, b, ProjectionOf(b, m, installation).value)
  {
    var manifests := w.committed.journal.manifests;
    assert Delivered(w.warehouse, manifests, installation, b);
    var kind := ProjectionOf(b, manifests[b], installation).value.kind;
    assert RawHolds(TablesOf(w.warehouse, kind).raw, manifests, installation, kind);
    assert DailyHolds(TablesOf(w.warehouse, kind).daily, manifests, installation, kind);
  }

  lemma PublishedIsIn(w: World, installation: int, h: ClaimedBatch)
    requires Inv(w, installation) && h.batchId in w.committed.journal.published && Genuine(w.committed.journal, h)
    ensures InRaw(w.warehouse, installation, h) && InDaily(w.warehouse, installation, h)
  {
    assert Delivered(w.warehouse, w.committed.journal.manifests, installation, h.batchId);
  }

  lemma RawReadsBack(w: World, installation: int, h: ClaimedBatch, stored: seq<TrafficRow>)
    requires Inv(w, installation) && Genuine(w.committed.journal, h) && InRaw(w.warehouse, installation, h)
    requires RawQuery(w, h, PlanOf(h, installation).value, stored)
    ensures stored == PlanOf(h, installation).value.rows
  {
    RawQuerySees(w, installation, h, stored);
  }

  lemma DailyReadsBack(w: World, installation: int, h: ClaimedBatch, stored: seq<DailyRow>)
    requires Inv(w, installation) && Genuine(w.committed.journal, h) && InDaily(w.warehouse, installation, h)
    requires DailyQuery(w, h, PlanOf(h, installation).value, stored)
    ensures stored == PlanOf(h, installation).value.daily
  {
    DailyQuerySees(w, installation, h, stored);
  }

  lemma DeliveredIsRead(w: World, installation: int, h: ClaimedBatch)
    requires Inv(w, installation) && Genuine(w.committed.journal, h)
    requires InRaw(w.warehouse, installation, h) && InDaily(w.warehouse, installation, h)
    ensures ReadInOrder(w, h, PlanOf(h, installation).value)
  {
    var e := PlanOf(h, installation).value;
    forall stored | RawQuery(w, h, e, stored)
      ensures stored == e.rows
    {
      RawReadsBack(w, installation, h, stored);
    }
    forall stored | DailyQuery(w, h, e, stored)
      ensures stored == e.daily
    {
      DailyReadsBack(w, installation, h, stored);
    }
  }

  lemma DeliveredIsHeld(w: World, installation: int, b: int)
    requires Inv(w, installation) && b in w.committed.journal.published
    ensures var m := w.committed.journal.manifests[b];
            && ProjectionOf(b, m, installation).Success?
            && HeldExactlyOnce(w, b, m, ProjectionOf(b, m, installation).value)
  {
    var h := ClaimedBatch(b, 0, 0, w.committed.journal.manifests[b]);
    DeliveredIsCounted(w, installation, b);
    PublishedIsIn(w, installation, h);
    DeliveredIsRead(w, installation, h);
  }

  /** Once a batch is marked published, ClickHouse holds exactly its rows, and no later action of any
      relay, however stale its handle, changes that. */
  lemma ExactlyOnceDelivery(worlds: seq<World>, actions: seq<Action>, installation: int, n: nat, m: nat, b: int)
    requires IsExecution(worlds, actions, installation) && n <= m <= |actions|
    requires b in worlds[n].committed.journal.published
    ensures b in worlds[n].committed.journal.manifests
    ensures var manifest := worlds[n].committed.journal.manifests[b];
            && ProjectionOf(b, manifest, installation).Success?
            && HeldExactlyOnce(worlds[m], b, manifest, ProjectionOf(b, manifest, installation).value)
  {
    InvHolds(worlds, actions, installation, n);
    InvHolds(worlds, actions, installation, m);
    HistoryGrows(worlds, actions, installation, n, m);
    DeliveredIsHeld(worlds[m], installation, b);
  }

  /** x is in the table exactly once, and no other row has its batch and number. */
  ghost predicate OnlyRow(rows: multiset<TrafficRow>, x: TrafficRow) {
    rows[x] == 1 && forall y :: y in rows && y.batchId == x.batchId && y.rowNumber == x.rowNumber ==> y == x
  }

  lemma OnlyRowOfBlock(rows: multiset<TrafficRow>, block: seq<TrafficRow>, b: int, i: nat)
    requires i < |block| && NumberedUp(block, RawNumber()) && block[i].batchId == b
    requires forall x: TrafficRow :: x.batchId == b ==> rows[x] == multiset(block)[x]
    ensures OnlyRow(rows, block[i])
  {
    OccursOnce(block, i, RawNumber());
    forall y | y in rows && y.batchId == b && y.rowNumber == block[i].rowNumber
      ensures y == block[i]
    {
      assert y in multiset(block);
      var j :| 0 <= j < |block| && block[j] == y;
      assert RawNumber()(block[j]) == RawNumber()(block[i]);
    }
  }

  lemma RecognisableIsNumbered(e: Expected, b: int, m: Manifest)
    requires Recognisable(e, b, m.partitionMonth)
    ensures NumberedUp(e.rows, RawNumber())
  {
  }

  lemma BlockIsNumbered(w: World, installation: int, b: int)
    requires Ok(w.committed) && b in w.committed.journal.manifests
    requires ProjectionOf(b, w.committed.journal.manifests[b], installation).Success?
    ensures NumberedUp(ProjectionOf(b, w.committed.journal.manifests[b], installation).value.rows, RawNumber())
  {
    var m := w.committed.journal.manifests[b];
    PlanIsRecognisable(w, installation, ClaimedBatch(b, 0, 0, m));
    RecognisableIsNumbered(ProjectionOf(b, m, installation).value, b, m);
  }

  lemma RowOfBlockIsOnly(w: World, installation: int, b: int, i: nat)
    requires Inv(w, installation) && b in w.committed.journal.published
    requires var m := w.committed.journal.manifests[b];
             ProjectionOf(b, m, installation).Success? && i < |ProjectionOf(b, m, installation).value.rows|
    ensures var e := ProjectionOf(b, w.committed.journal.manifests[b], installation).value;
            OnlyRow(TablesOf(w.warehouse, e.kind).raw.rows, e.rows[i])
  {
    DeliveredIsCounted(w, installation, b);
    BlockIsNumbered(w, installation, b);
    PlannedRowsCarryBatch(b, w.committed.journal.manifests[b], installation);
    var e := ProjectionOf(b, w.committed.journal.manifests[b], installation).value;
    OnlyRowOfBlock(TablesOf(w.warehouse, e.kind).raw.rows, e.rows, b, i);
  }

  /** The row is a row of a manifest whose projection is in ClickHouse, and the raw row made of it there is the only one
      with its batch and number. */
  ghost predicate RowIsDelivered(w: World, installation: int, row: OutboxRow) {
    var manifests := w.committed.journal.manifests;
    && row.deliveryBatchId.Some? && row.batchRowNumber.Some? && row.deliveryBatchId.value in manifests
    && var b, i := row.deliveryBatchId.value, row.batchRowNumber.value;
    && ProjectionOf(b, manifests[b], installation).Success?
    && var e := ProjectionOf(b, manifests[b], installation).value;
    && 0 <= i < |e.rows|
    && OnlyRow(TablesOf(w.warehouse, e.kind).raw.rows, e.rows[i])
    && e.rows[i].batchId == b && e.rows[i].rowNumber == i
    && e.rows[i].eventId == row.event.eventId && e.rows[i].outboxPayloadHash == row.event.payloadHash
  }

  /** Every outbox row that is marked published is delivered. */
  lemma PublishedRowIsDelivered(worlds: seq<World>, actions: seq<Action>, installation: int, n: nat, id: int)
    requires IsExecution(worlds, actions, installation) && n <= |actions|
    requires id in worlds[n].committed.db.rows && worlds[n].committed.db.rows[id].publishedAt.Some?
    ensures RowIsDelivered(worlds[n], installation, worlds[n].committed.db.rows[id])
  {
    InvHolds(worlds, actions, installation, n);
    PublishedIsDelivered(worlds[n], installation, id);
  }

  lemma PublishedIsDelivered(w: World, installation: int, id: int)
    requires Inv(w, installation) && id in w.committed.db.rows && w.committed.db.rows[id].publishedAt.Some?
    ensures RowIsDelivered(w, installation, w.committed.db.rows[id])
  {
    var s, row := w.committed, w.committed.db.rows[id];
    PublishedRowIsRecorded(s, id);
    var b, i := row.deliveryBatchId.value, row.batchRowNumber.value;
    DeliveredIsCounted(w, installation, b);
    var m := s.journal.manifests[b];
    BuiltRowIdentity(ProjectionOf(b, m, installation).value.kind, m.records[i], b, m.createdAt, installation);
    RowOfBlockIsOnly(w, installation, b, i);
  }

  /** The record of a published outbox row in the manifest of its batch. */
  lemma PublishedRowIsRecorded(s: Committed, id: int)
    requires Ok(s) && id in s.db.rows && s.db.rows[id].publishedAt.Some?
    ensures var row := s.db.rows[id];
            && row.deliveryBatchId.Some? && row.batchRowNumber.Some?
            && row.deliveryBatchId.value in s.journal.published && row.deliveryBatchId.value in s.journal.manifests
            && var m, i := s.journal.manifests[row.deliveryBatchId.value], row.batchRowNumber.value;
            && 0 <= i < |m.records| && RecordFits(m, i) && m.records[i].event == row.event
  {
    assert RowOk(s.db.rows, s.db.batches, s.journal, id);
    var b, i := s.db.rows[id].deliveryBatchId.value, s.db.rows[id].batchRowNumber.value;
    assert BatchOk(s.db.rows, s.db.batches, s.journal, b);
    var m := s.journal.manifests[b];
    assert GoodManifest(m) && RecordFits(m, i);
  }

  lemma {:induction false} OccursOnce<Row(!new)>(rows: seq<Row>, i: nat, number: Row -> int)
    requires i < |rows| && NumberedUp(rows, number)
    ensures multiset(rows)[rows[i]] == 1
    decreases |rows|
  {
    assert rows == [rows[0]] + rows[1..];
    if i == 0 {
      assert rows[0] !in rows[1..];
    } else {
      OccursOnce(rows[1..], i - 1, number);
      assert rows[0] != rows[i];
    }
  }

  /** Published or not, projectable or not: no row of any table is ever stored twice. */
  lemma AtMostOnceDelivery(worlds: seq<World>, actions: seq<Action>, installation: int, n: nat, kind: Kind,
                           x: TrafficRow, y: DailyRow)
    requires IsExecution(worlds, actions, installation) && n <= |actions|
    ensures TablesOf(worlds[n].warehouse, kind).raw.rows[x] <= 1
    ensures TablesOf(worlds[n].warehouse, kind).daily.rows[y] <= 1
  {
    InvHolds(worlds, actions, installation, n);
    var w := worlds[n];
    var t, manifests := TablesOf(w.warehouse, kind), w.committed.journal.manifests;
    assert RawHolds(t.raw, manifests, installation, kind) && DailyHolds(t.daily, manifests, installation, kind);
    PlannedOnce(w, installation, kind, x.batchId, x, y);
    PlannedOnce(w, installation, kind, y.batchId, x, y);
  }

  lemma PlannedOnce(w: World, installation: int, kind: Kind, b: int, x: TrafficRow, y: DailyRow)
    requires Ok(w.committed)
    ensures multiset(PlanFor(w.committed.journal.manifests, installation, kind, b).rows)[x] <= 1
    ensures multiset(PlanFor(w.committed.journal.manifests, installation, kind, b).daily)[y] <= 1
  {
    var manifests := w.committed.journal.manifests;
    var e := PlanFor(manifests, installation, kind, b);
    if Projects(manifests, installation, kind, b) {
      PlanIsRecognisable(w, installation, ClaimedBatch(b, 0, 0, manifests[b]));
      if x in e.rows {
        var i :| 0 <= i < |e.rows| && e.rows[i] == x;
        OccursOnce(e.rows, i, RawNumber());
      }
      if y in e.daily {
        var i :| 0 <= i < |e.daily| && e.daily[i] == y;
        OccursOnce(e.daily, i, DailyNumber());
      }
    }
  }

  /** Before publication too: what the ordered queries of a batch return is nothing or the whole block, never a part. */
  lemma BlocksAreWholeOrAbsent(worlds: seq<World>, actions: seq<Action>, installation: int, n: nat, b: int,
                               storedRaw: seq<TrafficRow>, storedDaily: seq<DailyRow>)
    requires IsExecution(worlds, actions, installation) && n <= |actions|
    requires b in worlds[n].committed.journal.manifests
    requires ProjectionOf(b, worlds[n].committed.journal.manifests[b], installation).Success?
    requires var m := worlds[n].committed.journal.manifests[b];
             var t := TablesOf(worlds[n].warehouse, ProjectionOf(b, m, installation).value.kind);
             && IsRead(t.raw.rows, RawOf(b, m.partitionMonth), RawNumber(), storedRaw)
             && IsRead(t.daily.rows, DailyOf(b, m.partitionMonth), DailyNumber(), storedDaily)
    ensures var e := ProjectionOf(b, worlds[n].committed.journal.manifests[b], installation).value;
            storedRaw in {[], e.rows} && storedDaily in {[], e.daily}
  {
    InvHolds(worlds, actions, installation, n);
    var h := ClaimedBatch(b, 0, 0, worlds[n].committed.journal.manifests[b]);
    RawQuerySees(worlds[n], installation, h, storedRaw);
    DailyQuerySees(worlds[n], installation, h, storedDaily);
  }

  /** No relay ever observes a partial, duplicate or conflicting projection: verification at any point
      of any execution succeeds, unless the batch cannot be projected at all. */
  lemma VerificationNeverConflicts(worlds: seq<World>, actions: seq<Action>, installation: int, n: nat)
    requires IsExecution(worlds, actions, installation) && n < |actions|
    requires var a := actions[n]; a.CheckRaw? || a.CheckDaily? || a.VerifyRaw? || a.VerifyDaily?
    ensures var s := StateOf(worlds[n], actions[n].relay);
            var t := StateOf(worlds[n + 1], actions[n].relay);
            t.Failed? ==> PlanOf(s.h, installation).Failure?
  {
    InvHolds(worlds, actions, installation, n);
    var a := actions[n];
    assert Follows(worlds[n], a, worlds[n + 1], installation);
    RelayStateIsOk(worlds[n], installation, a.relay);
    var s := StateOf(worlds[n], a.relay);
    if PlanOf(s.h, installation).Success? {
      if a.CheckRaw? || a.VerifyRaw? {
        RawQuerySees(worlds[n], installation, s.h, a.storedRaw);
      } else {
        DailyQuerySees(worlds[n], installation, s.h, a.storedDaily);
      }
    }
  }

  /** In every reachable state the tables are intact for every claimed batch, so project_or_verify_batch
      run to its end on them succeeds. */
  lemma ReachableTablesAreIntact(worlds: seq<World>, actions: seq<Action>, installation: int, n: nat, h: ClaimedBatch)
    requires IsExecution(worlds, actions, installation) && n <= |actions|
    requires Genuine(worlds[n].committed.journal, h) && PlanOf(h, installation).Success?
    ensures Intact(worlds[n].warehouse, h.batchId, h.manifest.partitionMonth, PlanOf(h, installation).value)
  {
    var w := worlds[n];
    InvHolds(worlds, actions, installation, n);
    PlanIsRecognisable(w, installation, h);
    PlanIsPlanFor(w, installation, h);
    var e := PlanOf(h, installation).value;
    assert RawHolds(RawTable(w, e), w.committed.journal.manifests, installation, e.kind);
    assert DailyHolds(DailyTable(w, e), w.committed.journal.manifests, installation, e.kind);
  }

  /** No outbox row is ever part of two batches, or twice of one. */
  lemma EachOutboxRowIsInOneBatch(worlds: seq<World>, actions: seq<Action>, installation: int, n: nat, b: int, i: nat,
                                  c: int, k: nat)
    requires IsExecution(worlds, actions, installation) && n <= |actions|
    requires var m := worlds[n].committed.journal.manifests;
             && b in m && c in m && i < |m[b].records| && k < |m[c].records|
             && m[b].records[i].outboxId == m[c].records[k].outboxId
    ensures b == c && i == k
  {
    InvHolds(worlds, actions, installation, n);
    var j := worlds[n].committed.journal;
    assert j.batchOf[j.manifests[b].records[i].outboxId] == b;
    assert j.batchOf[j.manifests[c].records[k].outboxId] == c;
    assert GoodManifest(j.manifests[b]);
  }
}
