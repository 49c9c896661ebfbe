/**
 Exactly-once delivery. Any number of relays run the claim, project, publish
 loop of backend/rust/crates/workers/src/analytics.rs against one PostgreSQL
 database and one ClickHouse server. Between any two calls a relay may crash,
 lose an acknowledgement, time out, or lose its lease to another relay; it may
 go on with a stale handle. A request whose relay has given up waiting stays in
 flight: it may take effect at any later time, or never, or more than once.
 */
module Delivery {
  import opened Wrappers
  import opened MachineInts
  import opened TrafficRows
  import opened DailyTotals
  import opened Projection
  import opened Outbox
  import opened Transactions
  import opened OutboxTheorems

  /** Where a relay is in project_or_verify_batch and after it. */
  datatype Relay =
    | Idle
    | Holding(h: ClaimedBatch)
    | RawChecked(h: ClaimedBatch, rawPresent: bool)
    | Writing(h: ClaimedBatch, rawDone: bool, dailyDone: bool)
    | RawVerified(h: ClaimedBatch)
    | Projected(h: ClaimedBatch)
    | Failed(h: ClaimedBatch)

  /** What a relay sends to a server. */
  datatype Request = RawInsert(h: ClaimedBatch) | DailyInsert(h: ClaimedBatch) | DbWrite(tx: Tx)

  /** issued holds every request ever sent. */
  datatype World = World(committed: Committed, warehouse: Warehouse, relays: map<int, Relay>, issued: set<Request>)

  /** applied and acked say what the network did: whether the request took effect while the relay was waiting, and
      whether the relay learned of it. Land is a request of the past that takes effect now; a transaction that was
      waiting for a lock then reads the clock anew. */
  datatype Action =
    | Background(tx: Tx)
    | Claim(relay: int, args: ClaimArgs, applied: bool, acked: bool)
    | CheckRaw(relay: int, storedRaw: seq<TrafficRow>)
    | CheckDaily(relay: int, storedDaily: seq<DailyRow>)
    | WriteRaw(relay: int, applied: bool, acked: bool)
    | WriteDaily(relay: int, applied: bool, acked: bool)
    | VerifyRaw(relay: int, storedRaw: seq<TrafficRow>)
    | VerifyDaily(relay: int, storedDaily: seq<DailyRow>)
    | Publish(relay: int, publishedAt: i64, now: i64, applied: bool, acked: bool)
    | Retry(relay: int, applied: bool)
    | Quarantine(relay: int, quarantinedAt: i64, now: i64, applied: bool)
    | Fail(relay: int)
    | Crash(relay: int)
    | Land(request: Request, landedAt: i64)

  function StateOf(w: World, r: int): Relay {
    if r in w.relays then w.relays[r] else Idle
  }

  function Goes(w: World, r: int, to: Relay): World {
    w.(relays := w.relays[r := to])
  }

  function PlanOf(h: ClaimedBatch, installation: int): Result<Expected, ProjectionError> {
    ProjectionOf(h.batchId, h.manifest, installation)
  }

  function RawTable(w: World, e: Expected): Table<TrafficRow> {
    TablesOf(w.warehouse, e.kind).raw
  }

  function DailyTable(w: World, e: Expected): Table<DailyRow> {
    TablesOf(w.warehouse, e.kind).daily
  }

  ghost predicate RawQuery(w: World, h: ClaimedBatch, e: Expected, stored: seq<TrafficRow>) {
    IsRead(RawTable(w, e).rows, RawOf(h.batchId, h.manifest.partitionMonth), RawNumber(), stored)
  }

  ghost predicate DailyQuery(w: World, h: ClaimedBatch, e: Expected, stored: seq<DailyRow>) {
    IsRead(DailyTable(w, e).rows, DailyOf(h.batchId, h.manifest.partitionMonth), DailyNumber(), stored)
  }

  ghost predicate CanCommit(w: World, tx: Tx) {
    Countable(w.committed.db) && Fresh(w.committed.journal, tx)
  }

  /** The transaction with the clock value it reads when it lands. */
  function At(tx: Tx, now: i64): Tx {
    match tx
    case PublishTx(claimed, publishedAt, _) => PublishTx(claimed, publishedAt, now)
    case QuarantineTx(claimed, quarantinedAt, _) => QuarantineTx(claimed, quarantinedAt, now)
    case _ => tx
  }

  function WithRaw(w: Warehouse, h: ClaimedBatch, e: Expected): Warehouse {
    WithTables(w, e.kind, TablesOf(w, e.kind).(raw := InsertBlock(TablesOf(w, e.kind).raw, h.batchId, e.rows)))
  }

  function WithDaily(w: Warehouse, h: ClaimedBatch, e: Expected): Warehouse {
    WithTables(w, e.kind, TablesOf(w, e.kind).(daily := InsertBlock(TablesOf(w, e.kind).daily, h.batchId, e.daily)))
  }

  ghost predicate CanLand(w: World, q: Request, now: i64, installation: int) {
    match q
    case RawInsert(h) => PlanOf(h, installation).Success?
    case DailyInsert(h) => PlanOf(h, installation).Success?
    case DbWrite(tx) => CanCommit(w, At(tx, now))
  }

  function Issue(w: World, q: Request): World {
    w.(issued := w.issued + {q})
  }

  /** The request takes effect. */
  ghost function Landed(w: World, q: Request, now: i64, installation: int): World
    requires CanLand(w, q, now, installation)
  {
    match q
    case RawInsert(h) => w.(warehouse := WithRaw(w.warehouse, h, PlanOf(h, installation).value))
    case DailyInsert(h) => w.(warehouse := WithDaily(w.warehouse, h, PlanOf(h, installation).value))
    case DbWrite(tx) => AfterCommit(w, At(tx, now))
  }

  /** The request is sent, and takes effect at once if it is applied. */
  ghost function Sent(w: World, q: Request, now: i64, applied: bool, installation: int): World
    requires CanLand(Issue(w, q), q, now, installation)
  {
    if applied then Landed(Issue(w, q), q, now, installation) else Issue(w, q)
  }

  /** The request of a writing action. */
  function RequestOf(w: World, a: Action): Option<Request> {
    match a
    case Claim(_, args, _, _) => Some(DbWrite(ClaimTx(args)))
    case WriteRaw(r, _, _) => if StateOf(w, r).Writing? then Some(RawInsert(StateOf(w, r).h)) else None
    case WriteDaily(r, _, _) => if StateOf(w, r).Writing? then Some(DailyInsert(StateOf(w, r).h)) else None
    case Publish(r, publishedAt, now, _, _) =>
      if StateOf(w, r).Projected? then Some(DbWrite(PublishTx(StateOf(w, r).h, publishedAt, now))) else None
    case Retry(r, _) => if StateOf(w, r).Idle? then None else Some(DbWrite(RetryTx(StateOf(w, r).h)))
    case Quarantine(r, quarantinedAt, now, _) =>
      if StateOf(w, r).Idle? then None else Some(DbWrite(QuarantineTx(StateOf(w, r).h, quarantinedAt, now)))
    case _ => None
  }

  /** The clock value of a writing action; an insert reads none. */
  function ClockOf(a: Action): i64 {
    match a
    case Publish(_, _, now, _, _) => now
    case Quarantine(_, _, now, _) => now
    case _ => 0
  }

  predicate Applied(a: Action)
    requires a.Claim? || a.WriteRaw? || a.WriteDaily? || a.Publish? || a.Retry? || a.Quarantine?
  {
    a.applied
  }

  predicate Writes(a: Action) {
    a.Claim? || a.WriteRaw? || a.WriteDaily? || a.Publish? || a.Retry? || a.Quarantine?
  }

  /** A relay sends its next request. */
  ghost predicate CanSend(w: World, a: Action, installation: int)
    requires Writes(a)
  {
    RequestOf(w, a).Some? && CanLand(Issue(w, RequestOf(w, a).value), RequestOf(w, a).value, ClockOf(a), installation)
  }

  /** When an action can happen. */
  ghost predicate Enabled(w: World, a: Action, installation: int) {
    match a
    case Background(tx) => (tx.EnqueueTx? || tx.CleanupTx? || tx.RefreshTx?) && CanCommit(w, tx)
    case Claim(r, args, applied, acked) =>
      StateOf(w, r).Idle? && args.owner == r && (acked ==> applied) && CanSend(w, a, installation)
    case CheckRaw(r, stored) =>
      var s := StateOf(w, r);
      s.Holding? && (PlanOf(s.h, installation).Success? ==> RawQuery(w, s.h, PlanOf(s.h, installation).value, stored))
    case CheckDaily(r, stored) =>
      var s := StateOf(w, r);
      s.RawChecked? && PlanOf(s.h, installation).Success? && DailyQuery(w, s.h, PlanOf(s.h, installation).value, stored)
    case WriteRaw(r, applied, acked) =>
      StateOf(w, r).Writing? && !StateOf(w, r).rawDone && (acked ==> applied) && CanSend(w, a, installation)
    case WriteDaily(r, applied, acked) =>
      && StateOf(w, r).Writing? && StateOf(w, r).rawDone && !StateOf(w, r).dailyDone
      && (acked ==> applied) && CanSend(w, a, installation)
    case VerifyRaw(r, stored) =>
      var s := StateOf(w, r);
      && s.Writing? && s.rawDone && s.dailyDone
      && PlanOf(s.h, installation).Success? && RawQuery(w, s.h, PlanOf(s.h, installation).value, stored)
    case VerifyDaily(r, stored) =>
      var s := StateOf(w, r);
      s.RawVerified? && PlanOf(s.h, installation).Success?
      && DailyQuery(w, s.h, PlanOf(s.h, installation).value, stored)
    case Publish(r, _, _, applied, acked) => StateOf(w, r).Projected? && (acked ==> applied)
                                             && CanSend(w, a, installation)
    case Retry(r, _) => (StateOf(w, r).Holding? || StateOf(w, r).Failed?) && CanSend(w, a, installation)
    case Quarantine(r, _, _, _) => StateOf(w, r).Failed? && CanSend(w, a, installation)
    case Fail(r) => !StateOf(w, r).Idle?
    case Crash(r) => true
    case Land(q, now) => q in w.issued && CanLand(w, q, now, installation)
  }

  ghost function AfterCommit(w: World, tx: Tx): World
    requires CanCommit(w, tx)
  {
    w.(committed := Commit(w.committed, tx))
  }

  /** verify_exact_projection with its error sent to the failure path. */
  function Checked<Row(==)>(stored: seq<Row>, expected: seq<Row>, h: ClaimedBatch, present: bool -> Relay): Relay {
    var v := VerifyExact(stored, expected);
    if v.Failure? then Failed(h) else present(v.value)
  }

  /** Where a relay is after its request: it goes on when it was acknowledged. */
  function AfterWrite(w: World, a: Action): Relay
    requires Writes(a) && RequestOf(w, a).Some?
  {
    match a
    case Claim(_, args, _, acked) =>
      var claimed := ClaimedBy(w.committed.db, ClaimTx(args));
      if acked && claimed.Some? then Holding(claimed.value) else Idle
    case WriteRaw(r, _, acked) =>
      var s := StateOf(w, r);
      if acked then Writing(s.h, true, s.dailyDone) else Failed(s.h)
    case WriteDaily(r, _, acked) => if acked then Writing(StateOf(w, r).h, true, true) else Failed(StateOf(w, r).h)
    case Publish(r, _, _, _, acked) => if acked then Idle else Failed(StateOf(w, r).h)
    case _ => Idle
  }

  ghost function Next(w: World, a: Action, installation: int): World
    requires Enabled(w, a, installation)
  {
    match a
    case Background(tx) => AfterCommit(w, tx)
    case CheckRaw(r, stored) =>
      var h := StateOf(w, r).h;
      var plan := PlanOf(h, installation);
      Goes(w, r, if plan.Failure? then Failed(h)
           else Checked(stored, plan.value.rows, h, present => RawChecked(h, present)))
    case CheckDaily(r, stored) =>
      var s := StateOf(w, r);
      Goes(w, r, Checked(stored, PlanOf(s.h, installation).value.daily, s.h,
                         present => if s.rawPresent && present then Projected(s.h)
                           else Writing(s.h, s.rawPresent, present)))
    case VerifyRaw(r, stored) =>
      var h := StateOf(w, r).h;
      Goes(w, r, Checked(stored, PlanOf(h, installation).value.rows, h,
                         present => if present then RawVerified(h) else Failed(h)))
    case VerifyDaily(r, stored) =>
      var h := StateOf(w, r).h;
      Goes(w, r, Checked(stored, PlanOf(h, installation).value.daily, h,
                         present => if present then Projected(h) else Failed(h)))
    case Fail(r) => Goes(w, r, Failed(StateOf(w, r).h))
    case Crash(r) => Goes(w, r, Idle)
    case Land(q, now) => Landed(w, q, now, installation)
    case _ => Goes(Sent(w, RequestOf(w, a).value, ClockOf(a), Applied(a), installation), a.relay, AfterWrite(w, a))
  }

  // ---- The invariant --------------------------------------------------------------------------

  /** Batch b projects to this kind. */
  predicate Projects(manifests: map<int, Manifest>, installation: int, kind: Kind, b: int) {
    && b in manifests
    && ProjectionOf(b, manifests[b], installation).Success?
    && ProjectionOf(b, manifests[b], installation).value.kind == kind
  }

  function PlanFor(manifests: map<int, Manifest>, installation: int, kind: Kind, b: int): Expected {
    if Projects(manifests, installation, kind, b) then ProjectionOf(b, manifests[b], installation).value
    else Expected(kind, [], [])
  }

  /** A table holds, for each token it has seen, exactly the block of that batch, and nothing else. */
  ghost predicate RawHolds(t: Table<TrafficRow>, manifests: map<int, Manifest>, installation: int, kind: Kind) {
    && (forall b :: b in t.tokens ==> Projects(manifests, installation, kind, b))
    && (forall x: TrafficRow :: t.rows[x] ==
          if x.batchId in t.tokens then multiset(PlanFor(manifests, installation, kind, x.batchId).rows)[x] else 0)
  }

  ghost predicate DailyHolds(t: Table<DailyRow>, manifests: map<int, Manifest>, installation: int, kind: Kind) {
    && (forall b :: b in t.tokens ==> Projects(manifests, installation, kind, b))
    && (forall x: DailyRow :: t.rows[x] ==
          if x.batchId in t.tokens then multiset(PlanFor(manifests, installation, kind, x.batchId).daily)[x] else 0)
  }

  ghost predicate WarehouseOk(w: Warehouse, manifests: map<int, Manifest>, installation: int) {
    forall kind: Kind ::
      && RawHolds(TablesOf(w, kind).raw, manifests, installation, kind)
      && DailyHolds(TablesOf(w, kind).daily, manifests, installation, kind)
  }

  ghost predicate InRaw(w: Warehouse, installation: int, h: ClaimedBatch) {
    && PlanOf(h, installation).Success?
    && h.batchId in TablesOf(w, PlanOf(h, installation).value.kind).raw.tokens
  }

  ghost predicate InDaily(w: Warehouse, installation: int, h: ClaimedBatch) {
    && PlanOf(h, installation).Success?
    && h.batchId in TablesOf(w, PlanOf(h, installation).value.kind).daily.tokens
  }

  /** What a relay may rely on at each point of its program. */
  ghost predicate RelayOk(w: World, installation: int, r: int, s: Relay) {
    !s.Idle? ==>
      && Genuine(w.committed.journal, s.h)
      && s.h.leaseOwner == r
      && match s
         case RawChecked(h, rawPresent) => PlanOf(h, installation).Success?
                                           && (rawPresent ==> InRaw(w.warehouse, installation, h))
         case Writing(h, rawDone, dailyDone) =>
           && PlanOf(h, installation).Success?
           && (rawDone ==> InRaw(w.warehouse, installation, h))
           && (dailyDone ==> InDaily(w.warehouse, installation, h))
         case RawVerified(h) => InRaw(w.warehouse, installation, h) && InDaily(w.warehouse, installation, h)
         case Projected(h) => InRaw(w.warehouse, installation, h) && InDaily(w.warehouse, installation, h)
         case _ => true
  }

  /** Both blocks of a published batch are in. */
  ghost predicate Delivered(w: Warehouse, manifests: map<int, Manifest>, installation: int, b: int) {
    && b in manifests
    && ProjectionOf(b, manifests[b], installation).Success?
    && b in TablesOf(w, ProjectionOf(b, manifests[b], installation).value.kind).raw.tokens
    && b in TablesOf(w, ProjectionOf(b, manifests[b], installation).value.kind).daily.tokens
  }

  /** What a request in flight may rely on. */
  ghost predicate RequestOk(w: World, installation: int, q: Request) {
    match q
    case RawInsert(h) => Genuine(w.committed.journal, h) && PlanOf(h, installation).Success?
    case DailyInsert(h) => Genuine(w.committed.journal, h) && InRaw(w.warehouse, installation, h)
    case DbWrite(tx) =>
      tx.PublishTx? ==>
        && Genuine(w.committed.journal, tx.claimed)
        && InRaw(w.warehouse, installation, tx.claimed) && InDaily(w.warehouse, installation, tx.claimed)
  }

  ghost predicate Inv(w: World, installation: int) {
    && Ok(w.committed)
    && WarehouseOk(w.warehouse, w.committed.journal.manifests, installation)
    && (forall r :: r in w.relays ==> RelayOk(w, installation, r, w.relays[r]))
    && (forall q :: q in w.issued ==> RequestOk(w, installation, q))
    && (forall b :: b in w.committed.journal.published ==>
                      Delivered(w.warehouse, w.committed.journal.manifests, installation, b))
  }
}
