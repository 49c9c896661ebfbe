/**
 read_applied_daily_traffic of backend/rust/crates/analytics/src/reader.rs: the
 reader answers from the per-batch aggregates, and over fully projected batches
 its answer is the group-by over the raw accounted events.
 */
module Reader {
  import opened Wrappers
  import opened MachineInts
  import opened Finite
  import opened SqlOrder
  import opened Calendar
  import opened Events
  import opened TrafficRows
  import opened DailyTotals
  import opened Projection
  import opened Delivery
  import opened DeliverySafety
  import opened DeliveryTheorems
  import opened Outbox

  datatype ReadError = InvalidSchemaMajor | InvalidUserId | InvalidDateRange

  /** ClickHouse's sum over UInt64 wraps. */
  datatype AppliedDailyTraffic = AppliedDailyTraffic(
    accountingDate: Date, eventCount: u64, rawU: u64, rawD: u64, chargedU: u64, chargedD: u64)

  datatype Query = Query(installation: int, schemaMajor: nat, userId: u64, start: Date, end: Date)

  /** validate_query. */
  function QueryProblem(q: Query): Option<ReadError> {
    if q.schemaMajor == 0 then Some(InvalidSchemaMajor)
    else if q.userId == 0 then Some(InvalidUserId)
    else if q.start >= q.end then Some(InvalidDateRange)
    else None
  }

  function OnDate(q: Query, d: Date): KeyFilter {
    AppliedOn(q.installation, q.schemaMajor, q.userId, d)
  }

  /** What one aggregate row adds to a total. */
  function DailyPart(f: KeyFilter, m: Measure): DailyRow -> nat {
    (row: DailyRow) => if Accepts(f, row.key) then SumMeasure(row.sums, m) else 0
  }

  predicate Selects(q: Query, k: DailyKey) {
    q.start <= k.accountingDate < q.end && Accepts(OnDate(q, k.accountingDate), k)
  }

  /** One line of the answer from the totals of its date. */
  ghost function Line(d: Date, total: Measure -> nat): AppliedDailyTraffic {
    var wrap := U64_MAX + 1;
    AppliedDailyTraffic(d, total(EventCount) % wrap, total(RawU) % wrap, total(RawD) % wrap,
                        total(ChargedU) % wrap, total(ChargedD) % wrap)
  }

  ghost function Lines(dates: seq<int>, total: Date -> Measure -> nat): (lines: seq<AppliedDailyTraffic>)
    ensures |lines| == |dates|
    ensures forall i :: 0 <= i < |lines| ==> lines[i] == Line(dates[i], total(dates[i]))
  {
    seq(|dates|, i requires 0 <= i < |dates| => Line(dates[i], total(dates[i])))
  }

  ghost function DailyDates(table: multiset<DailyRow>, q: Query): set<int> {
    set x | x in table && Selects(q, x.key) :: x.key.accountingDate
  }

  ghost function FactDates(table: multiset<TrafficRow>, q: Query): set<int> {
    set x | x in table && Selects(q, KeyOf(x)) :: KeyOf(x).accountingDate
  }

  ghost function DailyTotal(table: multiset<DailyRow>, q: Query): Date -> Measure -> nat {
    (d: Date) => (m: Measure) => Sum(table, DailyPart(OnDate(q, d), m))
  }

  ghost function FactTotal(table: multiset<TrafficRow>, q: Query): Date -> Measure -> nat {
    (d: Date) => (m: Measure) => Sum(table, RowPart(OnDate(q, d), m))
  }

  /** The reader's query over traffic_accounted_daily: GROUP BY and ORDER BY accounting_date. */
  ghost function ReadAppliedDaily(daily: multiset<DailyRow>, q: Query): Result<seq<AppliedDailyTraffic>, ReadError> {
    if QueryProblem(q).Some? then Failure(QueryProblem(q).value)
    else Success(Lines(Dates(DailyDates(daily, q)), DailyTotal(daily, q)))
  }

  /** The same question asked of the raw accounted events. */
  ghost function GroupByFacts(raw: multiset<TrafficRow>, q: Query): Result<seq<AppliedDailyTraffic>, ReadError> {
    if QueryProblem(q).Some? then Failure(QueryProblem(q).value)
    else Success(Lines(Dates(FactDates(raw, q)), FactTotal(raw, q)))
  }

  // ---- One batch ----------------------------------------------------------------------------

  /** Rows that carry the keys and sums of the entries total what the entries total. */
  lemma {:induction false} NumberedTotal(entries: seq<Entry>, rows: seq<DailyRow>, f: KeyFilter, m: Measure)
    requires |rows| == |entries|
    requires forall i :: 0 <= i < |rows| ==> rows[i].key == entries[i].key && rows[i].sums == entries[i].sums
    ensures Sum(multiset(rows), DailyPart(f, m)) == EntryTotal(entries, f, m)
  {
    if rows != [] {
      NumberedTotal(entries[1..], rows[1..], f, m);
      SumOfPrepended(rows[0], rows[1..], DailyPart(f, m));
      assert rows == [rows[0]] + rows[1..];
    }
  }

  /** The aggregates of one batch total what its raw rows total, for every filter and measure. */
  lemma BatchAggregatesTotal(rows: seq<TrafficRow>, batchId: int, f: KeyFilter, m: Measure)
    requires DailyRows(rows, batchId).Success?
    ensures Sum(multiset(DailyRows(rows, batchId).value), DailyPart(f, m)) == Sum(multiset(rows), RowPart(f, m))
  {
    GroupIsExact(rows);
    var entries := Group(rows).value;
    NumberedTotal(entries, Numbered(entries, batchId), f, m);
    RowTotalIsMultisetSum(rows, f, m);
  }

  // ---- A set of batches -----------------------------------------------------------------------

  /** The raw rows of the batches in ids. */
  ghost function RawBlocks(ids: set<int>, manifests: map<int, Manifest>, installation: int,
                           kind: Kind): multiset<TrafficRow> {
    if ids == {} then multiset{}
    else
      IntSetInhabited(ids);
      var b :| b in ids;
      multiset(PlanFor(manifests, installation, kind, b).rows) + RawBlocks(ids - {b}, manifests, installation, kind)
  }

  ghost function DailyBlocks(ids: set<int>, manifests: map<int, Manifest>, installation: int,
                             kind: Kind): multiset<DailyRow> {
    if ids == {} then multiset{}
    else
      IntSetInhabited(ids);
      var b :| b in ids;
      multiset(PlanFor(manifests, installation, kind, b).daily) + DailyBlocks(ids - {b}, manifests, installation, kind)
  }

  lemma PlanForCarriesBatch(manifests: map<int, Manifest>, installation: int, kind: Kind, b: int)
    ensures forall x :: x in PlanFor(manifests, installation, kind, b).rows ==> x.batchId == b
    ensures forall x :: x in PlanFor(manifests, installation, kind, b).daily ==> x.batchId == b
  {
    if Projects(manifests, installation, kind, b) {
      PlannedRowsCarryBatch(b, manifests[b], installation);
    }
  }

  lemma {:induction false} RawBlocksCount(ids: set<int>, manifests: map<int, Manifest>, installation: int, kind: Kind,
                                          x: TrafficRow)
    ensures RawBlocks(ids, manifests, installation, kind)[x]
         == if x.batchId in ids then multiset(PlanFor(manifests, installation, kind, x.batchId).rows)[x] else 0
    decreases ids
  {
    if ids != {} {
      IntSetInhabited(ids);
      var b :| b in ids && RawBlocks(ids, manifests, installation, kind) ==
                           multiset(PlanFor(manifests, installation, kind, b).rows)
                           + RawBlocks(ids - {b}, manifests, installation, kind);
      RawBlocksCount(ids - {b}, manifests, installation, kind, x);
      PlanForCarriesBatch(manifests, installation, kind, b);
      assert x.batchId != b ==> x !in PlanFor(manifests, installation, kind, b).rows;
    }
  }

  lemma {:induction false} DailyBlocksCount(ids: set<int>, manifests: map<int, Manifest>, installation: int,
                                            kind: Kind, x: DailyRow)
    ensures DailyBlocks(ids, manifests, installation, kind)[x]
         == if x.batchId in ids then multiset(PlanFor(manifests, installation, kind, x.batchId).daily)[x] else 0
    decreases ids
  {
    if ids != {} {
      IntSetInhabited(ids);
      var b :| b in ids && DailyBlocks(ids, manifests, installation, kind) ==
                           multiset(PlanFor(manifests, installation, kind, b).daily)
                           + DailyBlocks(ids - {b}, manifests, installation, kind);
      DailyBlocksCount(ids - {b}, manifests, installation, kind, x);
      PlanForCarriesBatch(manifests, installation, kind, b);
      assert x.batchId != b ==> x !in PlanFor(manifests, installation, kind, b).daily;
    }
  }

  /** The blocks of ids start with the block of any of its members. */
  lemma RawBlocksTakeAny(ids: set<int>, manifests: map<int, Manifest>, installation: int, kind: Kind, b: int)
    requires b in ids
    ensures RawBlocks(ids, manifests, installation, kind)
         == multiset(PlanFor(manifests, installation, kind, b).rows)
            + RawBlocks(ids - {b}, manifests, installation, kind)
  {
    var whole := RawBlocks(ids, manifests, installation, kind);
    var block := multiset(PlanFor(manifests, installation, kind, b).rows);
    var rest := RawBlocks(ids - {b}, manifests, installation, kind);
    forall x: TrafficRow
      ensures whole[x] == block[x] + rest[x]
    {
      RawBlockCount(ids, manifests, installation, kind, b, x);
    }
    assert whole == block + rest;
  }

  lemma RawBlockCount(ids: set<int>, manifests: map<int, Manifest>, installation: int, kind: Kind, b: int,
                      x: TrafficRow)
    requires b in ids
    ensures RawBlocks(ids, manifests, installation, kind)[x]
         == multiset(PlanFor(manifests, installation, kind, b).rows)[x]
            + RawBlocks(ids - {b}, manifests, installation, kind)[x]
  {
    PlanForCarriesBatch(manifests, installation, kind, b);
    RawBlocksCount(ids, manifests, installation, kind, x);
    RawBlocksCount(ids - {b}, manifests, installation, kind, x);
    assert x.batchId != b ==> x !in PlanFor(manifests, installation, kind, b).rows;
  }

  lemma DailyBlocksTakeAny(ids: set<int>, manifests: map<int, Manifest>, installation: int, kind: Kind, b: int)
    requires b in ids
    ensures DailyBlocks(ids, manifests, installation, kind)
         == multiset(PlanFor(manifests, installation, kind, b).daily)
            + DailyBlocks(ids - {b}, manifests, installation, kind)
  {
    var whole := DailyBlocks(ids, manifests, installation, kind);
    var block := multiset(PlanFor(manifests, installation, kind, b).daily);
    var rest := DailyBlocks(ids - {b}, manifests, installation, kind);
    forall x: DailyRow
      ensures whole[x] == block[x] + rest[x]
    {
      DailyBlockCount(ids, manifests, installation, kind, b, x);
    }
    assert whole == block + rest;
  }

  lemma DailyBlockCount(ids: set<int>, manifests: map<int, Manifest>, installation: int, kind: Kind, b: int,
                        x: DailyRow)
    requires b in ids
    ensures DailyBlocks(ids, manifests, installation, kind)[x]
         == multiset(PlanFor(manifests, installation, kind, b).daily)[x]
            + DailyBlocks(ids - {b}, manifests, installation, kind)[x]
  {
    PlanForCarriesBatch(manifests, installation, kind, b);
    DailyBlocksCount(ids, manifests, installation, kind, x);
    DailyBlocksCount(ids - {b}, manifests, installation, kind, x);
    assert x.batchId != b ==> x !in PlanFor(manifests, installation, kind, b).daily;
  }

  lemma PlanTotal(manifests: map<int, Manifest>, installation: int, kind: Kind, b: int, f: KeyFilter, m: Measure)
    ensures Sum(multiset(PlanFor(manifests, installation, kind, b).daily), DailyPart(f, m))
         == Sum(multiset(PlanFor(manifests, installation, kind, b).rows), RowPart(f, m))
  {
    if Projects(manifests, installation, kind, b) {
      BatchAggregatesTotal(PlanFor(manifests, installation, kind, b).rows, b, f, m);
    }
  }

  lemma {:induction false} BlocksTotal(ids: set<int>, manifests: map<int, Manifest>, installation: int, kind: Kind,
                                       f: KeyFilter, m: Measure)
    ensures Sum(DailyBlocks(ids, manifests, installation, kind), DailyPart(f, m))
         == Sum(RawBlocks(ids, manifests, installation, kind), RowPart(f, m))
    decreases ids
  {
    if ids != {} {
      IntSetInhabited(ids);
      var b :| b in ids;
      var e := PlanFor(manifests, installation, kind, b);
      BlocksTotal(ids - {b}, manifests, installation, kind, f, m);
      PlanTotal(manifests, installation, kind, b, f, m);
      RawBlocksTakeAny(ids, manifests, installation, kind, b);
      SumOfUnion(multiset(e.rows), RawBlocks(ids - {b}, manifests, installation, kind), RowPart(f, m));
      DailyBlocksTakeAny(ids, manifests, installation, kind, b);
      SumOfUnion(multiset(e.daily), DailyBlocks(ids - {b}, manifests, installation, kind), DailyPart(f, m));
    }
  }

  // ---- The whole warehouse ----------------------------------------------------------------------

  /** facts are the rows of raw that belong to the batches in ids. */
  ghost predicate RestrictedTo(facts: multiset<TrafficRow>, raw: multiset<TrafficRow>, ids: set<int>) {
    forall x: TrafficRow :: facts[x] == if x.batchId in ids then raw[x] else 0
  }

  /** Both tables hold whole blocks, and no aggregate block is there without its raw block. */
  ghost predicate Consistent(t: Tables, manifests: map<int, Manifest>, installation: int, kind: Kind) {
    && RawHolds(t.raw, manifests, installation, kind)
    && DailyHolds(t.daily, manifests, installation, kind)
    && t.daily.tokens <= t.raw.tokens
  }

  lemma FactsAreBlocks(t: Tables, facts: multiset<TrafficRow>, manifests: map<int, Manifest>, installation: int,
                       kind: Kind)
    requires Consistent(t, manifests, installation, kind) && RestrictedTo(facts, t.raw.rows, t.daily.tokens)
    ensures facts == RawBlocks(t.daily.tokens, manifests, installation, kind)
  {
    var blocks := RawBlocks(t.daily.tokens, manifests, installation, kind);
    forall x: TrafficRow
      ensures facts[x] == blocks[x]
    {
      RawBlocksCount(t.daily.tokens, manifests, installation, kind, x);
    }
  }

  lemma AggregatesAreBlocks(t: Tables, manifests: map<int, Manifest>, installation: int, kind: Kind)
    requires DailyHolds(t.daily, manifests, installation, kind)
    ensures t.daily.rows == DailyBlocks(t.daily.tokens, manifests, installation, kind)
  {
    var blocks := DailyBlocks(t.daily.tokens, manifests, installation, kind);
    forall x: DailyRow
      ensures t.daily.rows[x] == blocks[x]
    {
      DailyBlocksCount(t.daily.tokens, manifests, installation, kind, x);
    }
  }

  /** For every filter and measure the index totals what the facts total: no event is lost or counted twice. */
  lemma IndexTotalsAgree(t: Tables, facts: multiset<TrafficRow>, manifests: map<int, Manifest>, installation: int,
                         kind: Kind, f: KeyFilter, m: Measure)
    requires Consistent(t, manifests, installation, kind) && RestrictedTo(facts, t.raw.rows, t.daily.tokens)
    ensures Sum(t.daily.rows, DailyPart(f, m)) == Sum(facts, RowPart(f, m))
  {
    FactsAreBlocks(t, facts, manifests, installation, kind);
    AggregatesAreBlocks(t, manifests, installation, kind);
    BlocksTotal(t.daily.tokens, manifests, installation, kind, f, m);
  }

  lemma {:induction false} PositiveSumHasWitness<T(!new)>(table: multiset<T>, part: T -> nat)
    ensures Sum(table, part) > 0 <==> exists x :: x in table && part(x) > 0
    decreases |table|
  {
    if table != multiset{} {
      MultisetInhabited(table);
      var x :| x in table;
      SumTakesAny(table, part, x);
      PositiveSumHasWitness(table - multiset{x}, part);
      if y :| y in table && part(y) > 0 {
        SumTakesAny(table, part, y);
      }
    }
  }

  /** Every aggregate row counts at least one event. */
  lemma AggregatesAreInhabited(t: Tables, manifests: map<int, Manifest>, installation: int, kind: Kind, x: DailyRow)
    requires DailyHolds(t.daily, manifests, installation, kind) && x in t.daily.rows
    ensures x.sums.eventCount > 0
  {
    assert x.batchId in t.daily.tokens;
    var e := PlanFor(manifests, installation, kind, x.batchId);
    assert x in multiset(e.daily);
    var i :| 0 <= i < |e.daily| && e.daily[i] == x;
    GroupIsExact(e.rows);
  }

  /** A date has selected aggregates exactly when it counts events, and likewise for the facts. */
  lemma DailyDateCounts(t: Tables, manifests: map<int, Manifest>, installation: int, kind: Kind, q: Query, d: Date)
    requires DailyHolds(t.daily, manifests, installation, kind)
    ensures d in DailyDates(t.daily.rows, q) <==>
            q.start <= d < q.end && Sum(t.daily.rows, DailyPart(OnDate(q, d), EventCount)) > 0
  {
    var part := DailyPart(OnDate(q, d), EventCount);
    PositiveSumHasWitness(t.daily.rows, part);
    if d in DailyDates(t.daily.rows, q) {
      var x :| x in t.daily.rows && Selects(q, x.key) && x.key.accountingDate == d;
      AggregatesAreInhabited(t, manifests, installation, kind, x);
      assert part(x) > 0;
    } else if x :| x in t.daily.rows && part(x) > 0 {
      assert Accepts(OnDate(q, d), x.key) && x.key.accountingDate == d;
    }
  }

  lemma FactDateCounts(facts: multiset<TrafficRow>, q: Query, d: Date)
    ensures d in FactDates(facts, q) <==> q.start <= d < q.end && Sum(facts, RowPart(OnDate(q, d), EventCount)) > 0
  {
    var part := RowPart(OnDate(q, d), EventCount);
    PositiveSumHasWitness(facts, part);
    if d in FactDates(facts, q) {
      var y :| y in facts && Selects(q, KeyOf(y)) && KeyOf(y).accountingDate == d;
      assert part(y) > 0;
    } else if y :| y in facts && part(y) > 0 {
      assert Accepts(OnDate(q, d), KeyOf(y)) && KeyOf(y).accountingDate == d;
    }
  }

  lemma DatesAgree(t: Tables, facts: multiset<TrafficRow>, manifests: map<int, Manifest>, installation: int,
                   kind: Kind, q: Query, d: Date)
    requires Consistent(t, manifests, installation, kind) && RestrictedTo(facts, t.raw.rows, t.daily.tokens)
    ensures d in DailyDates(t.daily.rows, q) <==> d in FactDates(facts, q)
  {
    IndexTotalsAgree(t, facts, manifests, installation, kind, OnDate(q, d), EventCount);
    DailyDateCounts(t, manifests, installation, kind, q, d);
    FactDateCounts(facts, q, d);
  }

  lemma LinesAgree(t: Tables, facts: multiset<TrafficRow>, manifests: map<int, Manifest>, installation: int,
                   kind: Kind, q: Query, d: Date)
    requires Consistent(t, manifests, installation, kind) && RestrictedTo(facts, t.raw.rows, t.daily.tokens)
    ensures Line(d, DailyTotal(t.daily.rows, q)(d)) == Line(d, FactTotal(facts, q)(d))
  {
    forall m: Measure
      ensures DailyTotal(t.daily.rows, q)(d)(m) == FactTotal(facts, q)(d)(m)
    {
      IndexTotalsAgree(t, facts, manifests, installation, kind, OnDate(q, d), m);
    }
  }

  /** The dates of an answer, in ascending order. */
  ghost function Dates(days: set<int>): seq<int> {
    OrderBy(days, (d: int) => d)
  }

  lemma AnswersAgree(t: Tables, facts: multiset<TrafficRow>, manifests: map<int, Manifest>, installation: int,
                     kind: Kind, q: Query, dates: seq<int>)
    requires Consistent(t, manifests, installation, kind) && RestrictedTo(facts, t.raw.rows, t.daily.tokens)
    ensures Lines(dates, DailyTotal(t.daily.rows, q)) == Lines(dates, FactTotal(facts, q))
  {
    forall i | 0 <= i < |dates|
      ensures Lines(dates, DailyTotal(t.daily.rows, q))[i] == Lines(dates, FactTotal(facts, q))[i]
    {
      LinesAgree(t, facts, manifests, installation, kind, q, dates[i]);
    }
  }

  /** The index agrees with the facts: the reader's answer is, line for line, the group-by over the
      raw accounted events of the batches whose aggregates are in. */
  lemma ReaderAgreesWithFacts(t: Tables, facts: multiset<TrafficRow>, manifests: map<int, Manifest>, installation: int,
                              q: Query)
    requires Consistent(t, manifests, installation, Accounted) && RestrictedTo(facts, t.raw.rows, t.daily.tokens)
    ensures ReadAppliedDaily(t.daily.rows, q) == GroupByFacts(facts, q)
  {
    forall d: int
      ensures d in DailyDates(t.daily.rows, q) <==> d in FactDates(facts, q)
    {
      DatesAgree(t, facts, manifests, installation, Accounted, q, d);
    }
    assert DailyDates(t.daily.rows, q) == FactDates(facts, q);
    AnswersAgree(t, facts, manifests, installation, Accounted, q, Dates(FactDates(facts, q)));
  }

  // ---- Sums that wrap ---------------------------------------------------------------------------

  function LineMeasure(line: AppliedDailyTraffic, m: Measure): u64 {
    match m
    case EventCount => line.eventCount
    case RawU => line.rawU
    case RawD => line.rawD
    case ChargedU => line.chargedU
    case ChargedD => line.chargedD
  }

  lemma LineWraps(d: Date, total: Measure -> nat, m: Measure)
    ensures LineMeasure(Line(d, total), m) == total(m) % (U64_MAX + 1)
    ensures LineMeasure(Line(d, total), m) == total(m) <==> total(m) <= U64_MAX
  {
  }

  lemma AnswerLine(daily: multiset<DailyRow>, q: Query, i: nat) returns (d: Date)
    requires ReadAppliedDaily(daily, q).Success? && i < |ReadAppliedDaily(daily, q).value|
    ensures ReadAppliedDaily(daily, q).value[i] == Line(d, DailyTotal(daily, q)(d))
  {
    d := Dates(DailyDates(daily, q))[i];
  }

  /** An answered sum is the true total of the raw events of that date exactly when that total fits u64. */
  lemma AnsweredSumIsTrueIff(t: Tables, facts: multiset<TrafficRow>, manifests: map<int, Manifest>, installation: int,
                             q: Query, i: nat, m: Measure)
    requires Consistent(t, manifests, installation, Accounted) && RestrictedTo(facts, t.raw.rows, t.daily.tokens)
    requires ReadAppliedDaily(t.daily.rows, q).Success? && i < |ReadAppliedDaily(t.daily.rows, q).value|
    ensures var line := ReadAppliedDaily(t.daily.rows, q).value[i];
            var total := FactTotal(facts, q)(line.accountingDate)(m);
            && LineMeasure(line, m) == total % (U64_MAX + 1)
            && (LineMeasure(line, m) == total <==> total <= U64_MAX)
  {
    var d := AnswerLine(t.daily.rows, q, i);
    LineWraps(d, DailyTotal(t.daily.rows, q)(d), m);
    IndexTotalsAgree(t, facts, manifests, installation, Accounted, OnDate(q, d), m);
  }

  const BUSY_KEY := DailyKey(1, 1, 0, 1, 1, "vmess", "1", 100, Some(Applied))

  /** The raw row of an event that uploads as much as u64 holds. */
  function BusyFact(batchId: int): TrafficRow {
    TrafficRow(Derived("", Some(batchId), "report", "1"), 1, 1, "report", "hash", Explicit, 1, 1, 1, "vmess", "1", 100,
               U64_MAX, 0, U64_MAX, 0,
               0, 0, "UTC", Some(Accounting(0, Applied, None, None)), batchId, 0, OtherHash("hash"), 0)
  }

  /** The aggregate of a batch of that event alone. */
  function BusyRow(batchId: int): DailyRow {
    DailyRow(BUSY_KEY, batchId, 0, DailySums(1, U64_MAX, 0, U64_MAX, 0))
  }

  lemma BusyTotal(daily: multiset<DailyRow>, q: Query, m: Measure)
    requires daily == multiset{BusyRow(1), BusyRow(2)} && q == Query(1, 1, 1, 0, 1)
    ensures DailyTotal(daily, q)(0)(m) == 2 * SumMeasure(BusyRow(1).sums, m)
  {
    var a, b, none: seq<DailyRow> := BusyRow(1), BusyRow(2), [];
    assert daily == multiset([a] + [b]) && [b] + none == [b];
    var part := DailyPart(OnDate(q, 0), m);
    SumOfPrepended(a, [b], part);
    SumOfPrepended(b, none, part);
  }

  lemma BusyLine(total: Measure -> nat)
    requires forall m: Measure :: total(m) == 2 * SumMeasure(BusyRow(1).sums, m)
    ensures Line(0, total) == AppliedDailyTraffic(0, 2, U64_MAX - 1, 0, U64_MAX - 1, 0)
  {
    assert SumMeasure(BusyRow(1).sums, EventCount) == 1 && SumMeasure(BusyRow(1).sums, RawU) == U64_MAX;
  }

  lemma OneDateAnswer(daily: multiset<DailyRow>, q: Query, d: Date)
    requires QueryProblem(q).None? && Dates(DailyDates(daily, q)) == [d]
    ensures ReadAppliedDaily(daily, q) == Success([Line(d, DailyTotal(daily, q)(d))])
  {
    var lines := Lines([d], DailyTotal(daily, q));
    assert lines == [Line(d, DailyTotal(daily, q)(d))];
  }

  /** Two batches of one such event each: the true total is twice the largest u64 and the answer is two less than
      2^64. */
  lemma AnsweredSumCanWrap()
    ensures var daily, q := multiset{BusyRow(1), BusyRow(2)}, Query(1, 1, 1, 0, 1);
            && DailyRows([BusyFact(1)], 1) == Success([BusyRow(1)])
            && DailyRows([BusyFact(2)], 2) == Success([BusyRow(2)])
            && DailyTotal(daily, q)(0)(RawU) == 2 * U64_MAX
            && ReadAppliedDaily(daily, q) == Success([AppliedDailyTraffic(0, 2, U64_MAX - 1, 0, U64_MAX - 1, 0)])
  {
    var daily, q := multiset{BusyRow(1), BusyRow(2)}, Query(1, 1, 1, 0, 1);
    forall m: Measure
      ensures DailyTotal(daily, q)(0)(m) == 2 * SumMeasure(BusyRow(1).sums, m)
    {
      BusyTotal(daily, q, m);
    }
    DailyRowsOfOne(BusyFact(1), 1);
    DailyRowsOfOne(BusyFact(2), 2);
    BusyLine(DailyTotal(daily, q)(0));
    BusyDates(daily, q);
    OneDateAnswer(daily, q, 0);
  }

  lemma BusyDates(daily: multiset<DailyRow>, q: Query)
    requires daily == multiset{BusyRow(1), BusyRow(2)} && q == Query(1, 1, 1, 0, 1)
    ensures Dates(DailyDates(daily, q)) == [0]
  {
    assert BusyRow(1) in daily && Selects(q, BusyRow(1).key);
    assert DailyDates(daily, q) == {0};
    OrderByIsTheOnlyOrder([0], {0}, (d: int) => d);
  }

  // ---- Over whole executions ----------------------------------------------------------------------

  predicate IsAccountedBatch(manifests: map<int, Manifest>, b: int) {
    b in manifests && KindOf(manifests[b].eventName) == Some(Accounted)
  }

  ghost predicate RawBeforeDaily(w: Warehouse) {
    forall kind: Kind :: TablesOf(w, kind).daily.tokens <= TablesOf(w, kind).raw.tokens
  }

  lemma InsertsKeepRawFirst(w: Warehouse, h: ClaimedBatch, e: Expected)
    requires RawBeforeDaily(w)
    ensures RawBeforeDaily(WithRaw(w, h, e))
    ensures h.batchId in TablesOf(w, e.kind).raw.tokens ==> RawBeforeDaily(WithDaily(w, h, e))
  {
    forall kind: Kind
      ensures TablesOf(WithRaw(w, h, e), kind).daily.tokens <= TablesOf(WithRaw(w, h, e), kind).raw.tokens
      ensures h.batchId in TablesOf(w, e.kind).raw.tokens ==>
                TablesOf(WithDaily(w, h, e), kind).daily.tokens <= TablesOf(WithDaily(w, h, e), kind).raw.tokens
    {
      assert TablesOf(w, kind).daily.tokens <= TablesOf(w, kind).raw.tokens;
    }
  }

  lemma LandingKeepsRawFirst(w: World, q: Request, now: i64, installation: int)
    requires Inv(w, installation) && q in w.issued && CanLand(w, q, now, installation) && RawBeforeDaily(w.warehouse)
    ensures RawBeforeDaily(Landed(w, q, now, installation).warehouse)
  {
    assert RequestOk(w, installation, q);
    if q.RawInsert? || q.DailyInsert? {
      InsertsKeepRawFirst(w.warehouse, q.h, PlanOf(q.h, installation).value);
    }
  }

  /** The aggregates of a batch are sent only once its raw rows are in, however late they land. */
  lemma NextKeepsRawFirst(w: World, a: Action, installation: int)
    requires Inv(w, installation) && Enabled(w, a, installation) && RawBeforeDaily(w.warehouse)
    ensures RawBeforeDaily(Next(w, a, installation).warehouse)
  {
    if a.Land? {
      LandingKeepsRawFirst(w, a.request, a.landedAt, installation);
    } else if Writes(a) {
      WriteIsSent(w, installation, a);
      var q := RequestOf(w, a).value;
      RelaySendsWhatItMay(w, installation, a);
      IssueKeeps(w, installation, q);
      LandingKeepsRawFirst(Issue(w, q), q, ClockOf(a), installation);
    }
  }

  lemma {:induction false} RawComesFirst(worlds: seq<World>, actions: seq<Action>, installation: int, n: nat)
    requires IsExecution(worlds, actions, installation) && n <= |actions|
    ensures RawBeforeDaily(worlds[n].warehouse)
  {
    if n > 0 {
      RawComesFirst(worlds, actions, installation, n - 1);
      InvHolds(worlds, actions, installation, n - 1);
      NextKeepsRawFirst(worlds[n - 1], actions[n - 1], installation);
    }
  }

  lemma TablesAreConsistent(worlds: seq<World>, actions: seq<Action>, installation: int, n: nat)
    requires IsExecution(worlds, actions, installation) && n <= |actions|
    ensures Consistent(worlds[n].warehouse.accounted, worlds[n].committed.journal.manifests, installation, Accounted)
  {
    InvHolds(worlds, actions, installation, n);
    RawComesFirst(worlds, actions, installation, n);
    var w := worlds[n];
    var t := TablesOf(w.warehouse, Accounted);
    assert RawHolds(t.raw, w.committed.journal.manifests, installation, Accounted);
    assert DailyHolds(t.daily, w.committed.journal.manifests, installation, Accounted);
    assert t.daily.tokens <= t.raw.tokens;
  }

  lemma PublishedIsAggregated(worlds: seq<World>, actions: seq<Action>, installation: int, n: nat, b: int)
    requires IsExecution(worlds, actions, installation) && n <= |actions|
    requires b in worlds[n].committed.journal.published && IsAccountedBatch(worlds[n].committed.journal.manifests, b)
    ensures b in worlds[n].warehouse.accounted.daily.tokens
  {
    InvHolds(worlds, actions, installation, n);
    assert Delivered(worlds[n].warehouse, worlds[n].committed.journal.manifests, installation, b);
  }

  lemma RestrictionIsPart(facts: multiset<TrafficRow>, raw: multiset<TrafficRow>, ids: set<int>)
    requires RestrictedTo(facts, raw, ids)
    ensures facts <= raw
    ensures (forall x: TrafficRow :: x in raw ==> x.batchId in ids) ==> facts == raw
  {
    if forall x: TrafficRow :: x in raw ==> x.batchId in ids {
      forall x: TrafficRow
        ensures facts[x] == raw[x]
      {
        assert x in raw ==> x.batchId in ids;
      }
    }
  }

  /** In every state of every execution, whatever the relays are in the middle of, the reader answers
      with the group-by over the raw events of the aggregated batches; those are raw events that are
      stored, they include every published accounted batch, and they are all of them once no batch
      is half projected. */
  lemma ReaderIsAlwaysConsistent(worlds: seq<World>, actions: seq<Action>, installation: int, n: nat,
                                 facts: multiset<TrafficRow>, q: Query)
    requires IsExecution(worlds, actions, installation) && n <= |actions|
    requires RestrictedTo(facts, worlds[n].warehouse.accounted.raw.rows, worlds[n].warehouse.accounted.daily.tokens)
    ensures var t := worlds[n].warehouse.accounted;
            && ReadAppliedDaily(t.daily.rows, q) == GroupByFacts(facts, q)
            && facts <= t.raw.rows
            && (t.daily.tokens == t.raw.tokens ==> facts == t.raw.rows)
            && forall b :: b in worlds[n].committed.journal.published
                           && IsAccountedBatch(worlds[n].committed.journal.manifests, b)
                           ==> b in t.daily.tokens
  {
    TablesAreConsistent(worlds, actions, installation, n);
    var t := worlds[n].warehouse.accounted;
    ReaderAgreesWithFacts(t, facts, worlds[n].committed.journal.manifests, installation, q);
    RestrictionIsPart(facts, t.raw.rows, t.daily.tokens);
    forall b | b in worlds[n].committed.journal.published && IsAccountedBatch(worlds[n].committed.journal.manifests, b)
      ensures b in t.daily.tokens
    {
      PublishedIsAggregated(worlds, actions, installation, n, b);
    }
  }
}
