/**
 project_or_verify_batch against one ClickHouse server: verify, insert what is
 absent, verify again. The tables are stored in an arbitrary physical order.
 */
module ClickHouseStore {
  import opened Wrappers
  import opened Calendar
  import opened TrafficRows
  import opened DailyTotals
  import opened Projection

  datatype ProjectionStatus = InsertedAndVerified | AlreadyPresentAndVerified

  /** Inserts x behind the rows whose number is not larger. */
  function InsertSorted<Row>(rows: seq<Row>, number: Row -> int, x: Row): (r: seq<Row>)
    ensures multiset(r) == multiset(rows) + multiset{x}
  {
    if rows == [] || number(x) < number(rows[0]) then [x] + rows
    else
      assert rows == [rows[0]] + rows[1..];
      [rows[0]] + InsertSorted(rows[1..], number, x)
  }

  lemma {:induction false} InsertSortedKeepsOrder<Row(!new)>(rows: seq<Row>, number: Row -> int, x: Row)
    requires SortedBy(rows, number)
    ensures SortedBy(InsertSorted(rows, number, x), number)
    decreases |rows|
  {
    if rows != [] && number(x) >= number(rows[0]) {
      InsertSortedKeepsOrder(rows[1..], number, x);
      var rest := InsertSorted(rows[1..], number, x);
      forall j | 0 <= j < |rest|
        ensures number(rows[0]) <= number(rest[j])
      {
        assert rest[j] in multiset(rest);
      }
    }
  }

  /** SELECT ... WHERE selects ORDER BY number. */
  method OrderedSelect<Row(!new, ==)>(rows: seq<Row>, selects: Row -> bool, number: Row -> int)
    returns (result: seq<Row>)
    ensures IsRead(multiset(rows), selects, number, result)
  {
    result := [];
    for i := 0 to |rows|
      invariant SortedBy(result, number)
      invariant forall x :: multiset(result)[x] == if selects(x) then multiset(rows[..i])[x] else 0
    {
      assert rows[..i + 1] == rows[..i] + [rows[i]];
      if selects(rows[i]) {
        InsertSortedKeepsOrder(result, number, rows[i]);
        result := InsertSorted(result, number, rows[i]);
      }
    }
    assert rows[..|rows|] == rows;
  }

  /** A table as stored: rows in physical order, and the tokens of its deduplication log. */
  datatype Segment<Row(==)> = Segment(rows: seq<Row>, tokens: set<int>)

  function Abstract<Row>(s: Segment<Row>): Table<Row> {
    Table(multiset(s.rows), s.tokens)
  }

  function Append<Row>(s: Segment<Row>, batchId: int, block: seq<Row>): (r: Segment<Row>)
    ensures Abstract(r) == InsertBlock(Abstract(s), batchId, block)
  {
    if batchId in s.tokens then s else Segment(s.rows + block, s.tokens + {batchId})
  }

  class ClickHouse {
    var reportedRaw: Segment<TrafficRow>
    var reportedDaily: Segment<DailyRow>
    var accountedRaw: Segment<TrafficRow>
    var accountedDaily: Segment<DailyRow>

    function State(): Warehouse
      reads this
    {
      Warehouse(Tables(Abstract(reportedRaw), Abstract(reportedDaily)),
                Tables(Abstract(accountedRaw), Abstract(accountedDaily)))
    }

    method ReadRaw(kind: Kind, batchId: int, month: Date) returns (rows: seq<TrafficRow>)
      ensures IsRead(TablesOf(State(), kind).raw.rows, RawOf(batchId, month), RawNumber(), rows)
    {
      match kind
      case Reported => rows := OrderedSelect(reportedRaw.rows, RawOf(batchId, month), RawNumber());
      case Accounted => rows := OrderedSelect(accountedRaw.rows, RawOf(batchId, month), RawNumber());
    }

    method ReadDaily(kind: Kind, batchId: int, month: Date) returns (rows: seq<DailyRow>)
      ensures IsRead(TablesOf(State(), kind).daily.rows, DailyOf(batchId, month), DailyNumber(), rows)
    {
      match kind
      case Reported => rows := OrderedSelect(reportedDaily.rows, DailyOf(batchId, month), DailyNumber());
      case Accounted => rows := OrderedSelect(accountedDaily.rows, DailyOf(batchId, month), DailyNumber());
    }

    method InsertRaw(kind: Kind, batchId: int, rows: seq<TrafficRow>)
      modifies this
      ensures var t := TablesOf(old(State()), kind);
              State() == WithTables(old(State()), kind, t.(raw := InsertBlock(t.raw, batchId, rows)))
    {
      match kind
      case Reported => reportedRaw := Append(reportedRaw, batchId, rows);
      case Accounted => accountedRaw := Append(accountedRaw, batchId, rows);
    }

    method InsertDaily(kind: Kind, batchId: int, rows: seq<DailyRow>)
      modifies this
      ensures var t := TablesOf(old(State()), kind);
              State() == WithTables(old(State()), kind, t.(daily := InsertBlock(t.daily, batchId, rows)))
    {
      match kind
      case Reported => reportedDaily := Append(reportedDaily, batchId, rows);
      case Accounted => accountedDaily := Append(accountedDaily, batchId, rows);
    }

    /** The raw query compared with the expected rows. */
    method VerifyRaw(kind: Kind, batchId: int, month: Date, rows: seq<TrafficRow>)
      returns (present: Result<bool, ProjectionError>)
      ensures present.Failure? ==> present.error == ProjectionConflict
      ensures present == Success(true) ==>
                IsRead(TablesOf(State(), kind).raw.rows, RawOf(batchId, month), RawNumber(), rows)
      ensures IntactBlock(TablesOf(State(), kind).raw, batchId, RawOf(batchId, month), RawNumber(), rows) ==>
                present == Success(batchId in TablesOf(State(), kind).raw.tokens)
    {
      var stored := ReadRaw(kind, batchId, month);
      if IntactBlock(TablesOf(State(), kind).raw, batchId, RawOf(batchId, month), RawNumber(), rows) {
        IntactBlockVerifies(TablesOf(State(), kind).raw, batchId, RawOf(batchId, month), RawNumber(), rows, stored);
      }
      present := VerifyExact(stored, rows);
    }

    method VerifyDaily(kind: Kind, batchId: int, month: Date, daily: seq<DailyRow>)
      returns (present: Result<bool, ProjectionError>)
      ensures present.Failure? ==> present.error == ProjectionConflict
      ensures present == Success(true) ==>
                IsRead(TablesOf(State(), kind).daily.rows, DailyOf(batchId, month), DailyNumber(), daily)
      ensures IntactBlock(TablesOf(State(), kind).daily, batchId, DailyOf(batchId, month), DailyNumber(), daily) ==>
                present == Success(batchId in TablesOf(State(), kind).daily.tokens)
    {
      var stored := ReadDaily(kind, batchId, month);
      if IntactBlock(TablesOf(State(), kind).daily, batchId, DailyOf(batchId, month), DailyNumber(), daily) {
        IntactBlockVerifies(TablesOf(State(), kind).daily, batchId, DailyOf(batchId, month), DailyNumber(), daily,
                            stored);
      }
      present := VerifyExact(stored, daily);
    }

    /** What the tables of one kind may have become: each is as before or gained this batch's block. */
    static predicate MayBecome(before: Warehouse, after: Warehouse, batchId: int, e: Expected) {
      var b, a := TablesOf(before, e.kind), TablesOf(after, e.kind);
      && after == WithTables(before, e.kind, a)
      && (a.raw == b.raw || a.raw == InsertBlock(b.raw, batchId, e.rows))
      && (a.daily == b.daily || a.daily == InsertBlock(b.daily, batchId, e.daily))
    }

    ghost static predicate HoldsExactly(w: Warehouse, batchId: int, month: Date, e: Expected) {
      && IsRead(TablesOf(w, e.kind).raw.rows, RawOf(batchId, month), RawNumber(), e.rows)
      && IsRead(TablesOf(w, e.kind).daily.rows, DailyOf(batchId, month), DailyNumber(), e.daily)
    }

    /** The second half: insert what is absent, then verify both tables again. */
    method InsertAndVerify(batchId: int, month: Date, e: Expected, rawPresent: bool, dailyPresent: bool)
      returns (result: Result<ProjectionStatus, ProjectionError>)
      modifies this
      ensures MayBecome(old(State()), State(), batchId, e)
      ensures result.Failure? ==> result.error == ProjectionConflict
      ensures result.Success? ==> result.value == InsertedAndVerified && HoldsExactly(State(), batchId, month, e)
      ensures Intact(old(State()), batchId, month, e)
              && (rawPresent ==> batchId in TablesOf(old(State()), e.kind).raw.tokens)
              && (dailyPresent ==> batchId in TablesOf(old(State()), e.kind).daily.tokens) ==>
                result.Success? && BothIn(State(), batchId, e)
    {
      if Intact(State(), batchId, month, e) {
        InsertKeepsIntact(TablesOf(State(), e.kind).raw, batchId, RawOf(batchId, month), RawNumber(), e.rows);
        InsertKeepsIntact(TablesOf(State(), e.kind).daily, batchId, DailyOf(batchId, month), DailyNumber(), e.daily);
      }
      if !rawPresent {
        InsertRaw(e.kind, batchId, e.rows);
      }
      if !dailyPresent {
        InsertDaily(e.kind, batchId, e.daily);
      }
      var raw := VerifyRaw(e.kind, batchId, month, e.rows);
      if raw.Failure? {
        return Failure(raw.error);
      }
      if !raw.value {
        return Failure(ProjectionConflict);
      }
      var daily := VerifyDaily(e.kind, batchId, month, e.daily);
      if daily.Failure? {
        return Failure(daily.error);
      }
      if !daily.value {
        return Failure(ProjectionConflict);
      }
      return Success(InsertedAndVerified);
    }

    /** project_or_verify_batch. Whatever the tables held before, success means that both ordered
        queries now return exactly the expected rows; a batch that cannot be projected touches nothing;
        only this kind's two tables can change, each by at most this batch's block; and over intact
        tables it always succeeds and leaves both blocks in, doing nothing exactly when both were in. */
    method ProjectOrVerify(batchId: int, m: Manifest, installation: int)
      returns (result: Result<ProjectionStatus, ProjectionError>)
      modifies this
      ensures var p := ProjectionOf(batchId, m, installation);
              && (p.Failure? ==> result == Failure(p.error) && State() == old(State()))
              && (p.Success? ==>
                    && MayBecome(old(State()), State(), batchId, p.value)
                    && (result.Failure? ==> result.error == ProjectionConflict)
                    && (result == Success(AlreadyPresentAndVerified) ==> State() == old(State()))
                    && (result.Success? ==> HoldsExactly(State(), batchId, m.partitionMonth, p.value))
                    && (Intact(old(State()), batchId, m.partitionMonth, p.value) ==>
                          && result.Success? && BothIn(State(), batchId, p.value)
                          && (result.value == AlreadyPresentAndVerified <==> BothIn(old(State()), batchId, p.value))))
    {
      var projection := ProjectionOf(batchId, m, installation);
      if projection.Failure? {
        return Failure(projection.error);
      }
      var e := projection.value;
      var raw := VerifyRaw(e.kind, batchId, m.partitionMonth, e.rows);
      if raw.Failure? {
        return Failure(raw.error);
      }
      var daily := VerifyDaily(e.kind, batchId, m.partitionMonth, e.daily);
      if daily.Failure? {
        return Failure(daily.error);
      }
      if raw.value && daily.value {
        return Success(AlreadyPresentAndVerified);
      }
      result := InsertAndVerify(batchId, m.partitionMonth, e, raw.value, daily.value);
    }
  }
}
