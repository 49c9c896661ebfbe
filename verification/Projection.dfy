/**
 The ClickHouse side of backend/rust/crates/analytics/src/projection.rs: tables
 with insert deduplication, the ordered verification queries, and the exact
 comparison that decides whether a batch is present.

 A table is an unordered multiset of rows plus the deduplication tokens it has
 seen; every table has its own token per batch. An insert is atomic, and its
 token is remembered.
 */
module Projection {
  import opened Wrappers
  import opened Calendar
  import opened TrafficRows
  import opened DailyTotals

  datatype Table<Row(==)> = Table(rows: multiset<Row>, tokens: set<int>)

  /** INSERT with insert_deduplication_token: a seen token makes it a no-op. */
  function InsertBlock<Row>(t: Table<Row>, batchId: int, rows: seq<Row>): Table<Row> {
    if batchId in t.tokens then t else Table(t.rows + multiset(rows), t.tokens + {batchId})
  }

  /** The raw and the aggregate table of one event kind. */
  datatype Tables = Tables(raw: Table<TrafficRow>, daily: Table<DailyRow>)

  datatype Warehouse = Warehouse(reported: Tables, accounted: Tables)

  function TablesOf(w: Warehouse, kind: Kind): Tables {
    match kind
    case Reported => w.reported
    case Accounted => w.accounted
  }

  function WithTables(w: Warehouse, kind: Kind, t: Tables): Warehouse {
    match kind
    case Reported => w.(reported := t)
    case Accounted => w.(accounted := t)
  }

  // ---- Ordered verification queries -----------------------------------------------------------

  /** WHERE accounting_date in the month AND ingest_batch_id = batchId. */
  function RawOf(batchId: int, month: Date): TrafficRow -> bool {
    (row: TrafficRow) => row.batchId == batchId && month <= row.accountingDate < NextMonth(month)
  }

  function DailyOf(batchId: int, month: Date): DailyRow -> bool {
    (row: DailyRow) => row.batchId == batchId && month <= row.key.accountingDate < NextMonth(month)
  }

  function RawNumber(): TrafficRow -> int {
    (row: TrafficRow) => row.rowNumber
  }

  function DailyNumber(): DailyRow -> int {
    (row: DailyRow) => row.rowNumber
  }

  predicate SortedBy<Row(!new)>(rows: seq<Row>, number: Row -> int) {
    forall i, j :: 0 <= i < j < |rows| ==> number(rows[i]) <= number(rows[j])
  }

  predicate NumberedUp<Row(!new)>(rows: seq<Row>, number: Row -> int) {
    forall i, j :: 0 <= i < j < |rows| ==> number(rows[i]) < number(rows[j])
  }

  /** result lists the selected rows of the table in ascending number; the order among equal numbers is free. */
  ghost predicate IsRead<Row(!new)>(table: multiset<Row>, selects: Row -> bool, number: Row -> int, result: seq<Row>) {
    && SortedBy(result, number)
    && forall x :: multiset(result)[x] == if selects(x) then table[x] else 0
  }

  lemma FirstsAgree<Row(!new)>(a: seq<Row>, b: seq<Row>, number: Row -> int)
    requires multiset(a) == multiset(b) && SortedBy(a, number) && NumberedUp(b, number)
    requires a != [] && b != []
    ensures a[0] == b[0]
  {
    assert a[0] in multiset(b) && b[0] in multiset(a);
    var i :| 0 <= i < |a| && a[i] == b[0];
    var k :| 0 <= k < |b| && b[k] == a[0];
    assert number(a[0]) <= number(a[i]);
  }

  lemma TailsAgree<Row>(a: seq<Row>, b: seq<Row>)
    requires a != [] && b != [] && multiset(a) == multiset(b) && a[0] == b[0]
    ensures multiset(a[1..]) == multiset(b[1..])
  {
    assert a == [a[0]] + a[1..] && b == [b[0]] + b[1..];
    assert multiset(a[1..]) == multiset(a) - multiset{a[0]};
    assert multiset(b[1..]) == multiset(b) - multiset{b[0]};
  }

  /** Two ascending listings of one multiset are equal when one of them has no equal numbers. */
  lemma {:induction false} SortedListingIsUnique<Row(!new)>(a: seq<Row>, b: seq<Row>, number: Row -> int)
    requires multiset(a) == multiset(b) && SortedBy(a, number) && NumberedUp(b, number)
    ensures a == b
    decreases |a|
  {
    assert |multiset(a)| == |multiset(b)|;
    if a != [] {
      FirstsAgree(a, b, number);
      TailsAgree(a, b);
      SortedListingIsUnique(a[1..], b[1..], number);
      assert a == [a[0]] + a[1..] && b == [b[0]] + b[1..];
    }
  }

  /** When the table holds exactly the expected rows among the selected ones, the query returns them in order. */
  lemma ReadReturns<Row(!new)>(
    table: multiset<Row>, selects: Row -> bool, number: Row -> int, result: seq<Row>, expected: seq<Row>)
    requires IsRead(table, selects, number, result)
    requires NumberedUp(expected, number)
    requires forall x :: selects(x) ==> table[x] == multiset(expected)[x]
    requires forall x :: x in expected ==> selects(x)
    ensures result == expected
  {
    assert multiset(result) == multiset(expected) by {
      forall x
        ensures multiset(result)[x] == multiset(expected)[x]
      {
        if !selects(x) {
          assert x !in expected;
        }
      }
    }
    SortedListingIsUnique(result, expected, number);
  }

  /** verify_exact_projection. */
  function VerifyExact<Row(==)>(stored: seq<Row>, expected: seq<Row>): Result<bool, ProjectionError> {
    if stored == [] then Success(false)
    else if stored != expected then Failure(ProjectionConflict)
    else Success(true)
  }

  /** The selected rows of a table are this batch's expected block once its token was seen, and none before. */
  ghost predicate IntactBlock<Row(!new)>(t: Table<Row>, batchId: int, selects: Row -> bool, number: Row -> int,
                                         expected: seq<Row>) {
    && expected != [] && NumberedUp(expected, number)
    && (forall x :: x in expected ==> selects(x))
    && forall x :: selects(x) ==> t.rows[x] == if batchId in t.tokens then multiset(expected)[x] else 0
  }

  /** Over an intact block, verification never reports a conflict: it tells whether the block is in. */
  lemma IntactBlockVerifies<Row(!new)>(t: Table<Row>, batchId: int, selects: Row -> bool, number: Row -> int,
                                       expected: seq<Row>, stored: seq<Row>)
    requires IntactBlock(t, batchId, selects, number, expected) && IsRead(t.rows, selects, number, stored)
    ensures VerifyExact(stored, expected) == Success(batchId in t.tokens)
  {
    ReadReturns(t.rows, selects, number, stored, if batchId in t.tokens then expected else []);
  }

  lemma InsertKeepsIntact<Row(!new)>(t: Table<Row>, batchId: int, selects: Row -> bool, number: Row -> int,
                                     expected: seq<Row>)
    requires IntactBlock(t, batchId, selects, number, expected)
    ensures IntactBlock(InsertBlock(t, batchId, expected), batchId, selects, number, expected)
    ensures batchId in InsertBlock(t, batchId, expected).tokens
  {
  }

  // ---- The rows a batch must become -------------------------------------------------------------

  datatype Expected = Expected(kind: Kind, rows: seq<TrafficRow>, daily: seq<DailyRow>)

  /** Everything project_or_verify_batch computes before it talks to ClickHouse. */
  function ProjectionOf(batchId: int, m: Manifest, installation: int): Result<Expected, ProjectionError>
  {
    var kind := KindOf(m.eventName);
    if kind.None? then Failure(UnsupportedEvent)
    else
      var rows :- BuildRows(kind.value, m.records, batchId, m.createdAt, installation);
      var daily :- DailyRows(rows, batchId);
      Success(Expected(kind.value, rows, daily))
  }

  /** What makes the expected rows recognisable in the tables. */
  ghost predicate Recognisable(e: Expected, batchId: int, month: Date) {
    && e.rows != [] && e.daily != []
    && NumberedUp(e.rows, RawNumber()) && NumberedUp(e.daily, DailyNumber())
    && (forall x :: x in e.rows ==> RawOf(batchId, month)(x))
    && (forall x :: x in e.daily ==> DailyOf(batchId, month)(x))
  }

  /** Both tables of the batch's kind are intact for it. */
  ghost predicate Intact(w: Warehouse, batchId: int, month: Date, e: Expected) {
    && IntactBlock(TablesOf(w, e.kind).raw, batchId, RawOf(batchId, month), RawNumber(), e.rows)
    && IntactBlock(TablesOf(w, e.kind).daily, batchId, DailyOf(batchId, month), DailyNumber(), e.daily)
  }

  /** Both blocks of the batch are in. */
  ghost predicate BothIn(w: Warehouse, batchId: int, e: Expected) {
    batchId in TablesOf(w, e.kind).raw.tokens && batchId in TablesOf(w, e.kind).daily.tokens
  }

  lemma ExpectedIsRecognisable(batchId: int, m: Manifest, installation: int)
    requires m.records != [] && IsMonthStart(m.partitionMonth)
    requires forall i :: 0 <= i < |m.records| ==>
                           m.records[i].rowNumber == i && m.records[i].event.partitionMonth == Some(m.partitionMonth)
    requires ProjectionOf(batchId, m, installation).Success?
    ensures Recognisable(ProjectionOf(batchId, m, installation).value, batchId, m.partitionMonth)
  {
    var e := ProjectionOf(batchId, m, installation).value;
    forall i | 0 <= i < |e.rows|
      ensures RawOf(batchId, m.partitionMonth)(e.rows[i]) && e.rows[i].rowNumber == i
    {
      BuiltRowIdentity(e.kind, m.records[i], batchId, m.createdAt, installation);
      MonthRangeIsPartition(m.partitionMonth, e.rows[i].accountingDate);
    }
    DailyRowsAreExact(e.rows, batchId);
    forall i | 0 <= i < |e.daily|
      ensures DailyOf(batchId, m.partitionMonth)(e.daily[i])
    {
      DailyKeyHasRow(e.rows, batchId, i);
      var k :| 0 <= k < |e.rows| && KeyOf(e.rows[k]) == e.daily[i].key;
      assert RawOf(batchId, m.partitionMonth)(e.rows[k]);
    }
    assert |e.rows| > 0;
    assert KeyOf(e.rows[0]) == KeyOf(e.rows[0]);
  }

  /** Each aggregate row has a raw row of its key. */
  lemma DailyKeyHasRow(rows: seq<TrafficRow>, batchId: int, i: int)
    requires DailyRows(rows, batchId).Success? && 0 <= i < |DailyRows(rows, batchId).value|
    ensures exists k :: 0 <= k < |rows| && KeyOf(rows[k]) == DailyRows(rows, batchId).value[i].key
  {
    GroupIsExact(rows);
    var entries := Group(rows).value;
    TotalOfEntryKey(entries, i, EventCount);
    PositiveTotalHasRow(rows, entries[i].key);
  }
}
