/**
 The per-batch daily aggregates of backend/rust/crates/analytics/src/projection.rs:
 reported_daily_rows, accounted_daily_rows and add_daily_sums. The BTreeMap is a
 key-sorted sequence of entries, updated in place by Upsert.
 */
module DailyTotals {
  import opened Wrappers
  import opened Finite
  import opened MachineInts
  import opened Calendar
  import opened Events
  import opened TrafficRows

  // ---- Keys and their order -----------------------------------------------------------------

  /** outcome is present for accounted rows only. */
  datatype DailyKey = DailyKey(
    installation: int, schemaMajor: int, accountingDate: Date, userId: int, serverId: int,
    serverType: string, rateText: string, rateCents: int, outcome: Option<AccountedOutcome>)

  function KeyOf(row: TrafficRow): DailyKey {
    DailyKey(row.installation, row.schemaMajor, row.accountingDate, row.userId, row.serverId,
             row.serverType, row.rateText, row.rateCents,
             if row.accounting.Some? then Some(row.accounting.value.outcome) else None)
  }

  function OutcomeText(o: Option<AccountedOutcome>): string {
    match o
    case None => ""
    case Some(Applied) => "applied"
    case Some(StaleEpoch) => "stale_epoch"
    case Some(MissingUser) => "missing_user"
  }

  /** Compares two texts as the derived Ord of String does. */
  predicate TextLess(a: string, b: string) {
    b != "" && (a == "" || a[0] < b[0] || (a[0] == b[0] && TextLess(a[1..], b[1..])))
  }

  lemma TextOrderIsTotal(a: string, b: string)
    ensures TextLess(a, b) || a == b || TextLess(b, a)
    ensures !(TextLess(a, b) && TextLess(b, a)) && !TextLess(a, a)
  {
    if a != "" && b != "" && a[0] == b[0] {
      TextOrderIsTotal(a[1..], b[1..]);
      assert a == [a[0]] + a[1..] && b == [b[0]] + b[1..];
    }
    if a != "" {
      TextOrderIsTotal(a[1..], a[1..]);
    }
  }

  lemma TextOrderIsTransitive(a: string, b: string, c: string)
    requires TextLess(a, b) && TextLess(b, c)
    ensures TextLess(a, c)
  {
    if a != "" && a[0] == b[0] && b[0] == c[0] {
      TextOrderIsTransitive(a[1..], b[1..], c[1..]);
    }
  }

  /** The derived Ord of the key structs: field by field, first difference decides. */
  predicate KeyLess(a: DailyKey, b: DailyKey) {
    if a.installation != b.installation then a.installation < b.installation
    else if a.schemaMajor != b.schemaMajor then a.schemaMajor < b.schemaMajor
    else if a.accountingDate != b.accountingDate then a.accountingDate < b.accountingDate
    else if a.userId != b.userId then a.userId < b.userId
    else if a.serverId != b.serverId then a.serverId < b.serverId
    else if a.serverType != b.serverType then TextLess(a.serverType, b.serverType)
    else if a.rateText != b.rateText then TextLess(a.rateText, b.rateText)
    else if a.rateCents != b.rateCents then a.rateCents < b.rateCents
    else TextLess(OutcomeText(a.outcome), OutcomeText(b.outcome))
  }

  lemma OutcomeTextIsInjective(a: Option<AccountedOutcome>, b: Option<AccountedOutcome>)
    requires OutcomeText(a) == OutcomeText(b)
    ensures a == b
  {
    var s, t := OutcomeText(a), OutcomeText(b);
    assert |s| == |t| && (s != "" ==> s[0] == t[0]);
  }

  lemma KeyOrderIsTotal(a: DailyKey, b: DailyKey)
    ensures KeyLess(a, b) || a == b || KeyLess(b, a)
    ensures !(KeyLess(a, b) && KeyLess(b, a)) && !KeyLess(a, a)
  {
    TextOrderIsTotal(a.serverType, b.serverType);
    TextOrderIsTotal(a.rateText, b.rateText);
    TextOrderIsTotal(OutcomeText(a.outcome), OutcomeText(b.outcome));
    TextOrderIsTotal(OutcomeText(a.outcome), OutcomeText(a.outcome));
    if OutcomeText(a.outcome) == OutcomeText(b.outcome) {
      OutcomeTextIsInjective(a.outcome, b.outcome);
    }
  }

  lemma KeyOrderIsTransitive(a: DailyKey, b: DailyKey, c: DailyKey)
    requires KeyLess(a, b) && KeyLess(b, c)
    ensures KeyLess(a, c)
  {
    TextOrderIsTotal(a.serverType, b.serverType);
    TextOrderIsTotal(a.rateText, b.rateText);
    if TextLess(a.serverType, b.serverType) && TextLess(b.serverType, c.serverType) {
      TextOrderIsTransitive(a.serverType, b.serverType, c.serverType);
      TextOrderIsTotal(a.serverType, c.serverType);
    }
    if TextLess(a.rateText, b.rateText) && TextLess(b.rateText, c.rateText) {
      TextOrderIsTransitive(a.rateText, b.rateText, c.rateText);
      TextOrderIsTotal(a.rateText, c.rateText);
    }
    if TextLess(OutcomeText(a.outcome), OutcomeText(b.outcome))
       && TextLess(OutcomeText(b.outcome), OutcomeText(c.outcome)) {
      TextOrderIsTransitive(OutcomeText(a.outcome), OutcomeText(b.outcome), OutcomeText(c.outcome));
    }
  }

  // ---- What is summed ------------------------------------------------------------------------

  datatype DailySums = DailySums(eventCount: u64, rawU: u64, rawD: u64, chargedU: u64, chargedD: u64)

  datatype Measure = EventCount | RawU | RawD | ChargedU | ChargedD

  function RowMeasure(row: TrafficRow, m: Measure): u64 {
    match m
    case EventCount => 1
    case RawU => row.rawU
    case RawD => row.rawD
    case ChargedU => row.chargedU
    case ChargedD => row.chargedD
  }

  function SumMeasure(s: DailySums, m: Measure): u64 {
    match m
    case EventCount => s.eventCount
    case RawU => s.rawU
    case RawD => s.rawD
    case ChargedU => s.chargedU
    case ChargedD => s.chargedD
  }

  /** The groups a total ranges over: one aggregate key, or all keys the reader of one
      installation, schema, user and date selects. */
  datatype KeyFilter =
    | ExactKey(key: DailyKey)
    | AppliedOn(installation: int, schemaMajor: int, userId: int, accountingDate: Date)

  predicate Accepts(f: KeyFilter, k: DailyKey) {
    match f
    case ExactKey(key) => k == key
    case AppliedOn(installation, schemaMajor, userId, date) =>
      && k.installation == installation && k.schemaMajor == schemaMajor && k.userId == userId
      && k.accountingDate == date && k.outcome == Some(Applied)
  }

  /** What one row adds to a total. */
  function RowPart(f: KeyFilter, m: Measure): TrafficRow -> nat {
    row => if Accepts(f, KeyOf(row)) then RowMeasure(row, m) else 0
  }

  /** The true total over the rows, without any width. */
  function RowTotal(rows: seq<TrafficRow>, f: KeyFilter, m: Measure): nat {
    if rows == [] then 0
    else RowTotal(rows[..|rows| - 1], f, m) + RowPart(f, m)(rows[|rows| - 1])
  }

  lemma {:induction false} RowTotalIsMultisetSum(rows: seq<TrafficRow>, f: KeyFilter, m: Measure)
    ensures RowTotal(rows, f, m) == Sum(multiset(rows), RowPart(f, m))
  {
    if rows != [] {
      var init, last := rows[..|rows| - 1], rows[|rows| - 1];
      RowTotalIsMultisetSum(init, f, m);
      assert rows == init + [last];
      assert multiset(rows) - multiset{last} == multiset(init);
      SumTakesAny(multiset(rows), RowPart(f, m), last);
    }
  }

  // ---- The sorted map and its update -----------------------------------------------------------

  datatype Entry = Entry(key: DailyKey, sums: DailySums)

  const ZERO_SUMS := DailySums(0, 0, 0, 0, 0)

  /** add_daily_sums: five checked additions. */
  function AddSums(s: DailySums, row: TrafficRow): Option<DailySums> {
    var eventCount := CheckedAdd(s.eventCount, 1);
    var rawU := CheckedAdd(s.rawU, row.rawU);
    var rawD := CheckedAdd(s.rawD, row.rawD);
    var chargedU := CheckedAdd(s.chargedU, row.chargedU);
    var chargedD := CheckedAdd(s.chargedD, row.chargedD);
    if eventCount.None? || rawU.None? || rawD.None? || chargedU.None? || chargedD.None? then None
    else Some(DailySums(eventCount.value, rawU.value, rawD.value, chargedU.value, chargedD.value))
  }

  /** grouped.entry(key).or_default() followed by add_daily_sums. */
  function Upsert(entries: seq<Entry>, row: TrafficRow): Option<seq<Entry>> {
    if entries == [] || KeyLess(KeyOf(row), entries[0].key) then
      var sums := AddSums(ZERO_SUMS, row);
      if sums.None? then None else Some([Entry(KeyOf(row), sums.value)] + entries)
    else if entries[0].key == KeyOf(row) then
      var sums := AddSums(entries[0].sums, row);
      if sums.None? then None else Some([Entry(KeyOf(row), sums.value)] + entries[1..])
    else
      var rest := Upsert(entries[1..], row);
      if rest.None? then None else Some([entries[0]] + rest.value)
  }

  /** All rows inserted one after the other; None is AggregateOverflow. */
  function Group(rows: seq<TrafficRow>): Option<seq<Entry>> {
    if rows == [] then Some([])
    else
      var before := Group(rows[..|rows| - 1]);
      if before.None? then None else Upsert(before.value, rows[|rows| - 1])
  }

  ghost predicate Increasing(entries: seq<Entry>) {
    forall i, j :: 0 <= i < j < |entries| ==> KeyLess(entries[i].key, entries[j].key)
  }

  ghost predicate Inhabited(entries: seq<Entry>) {
    forall i :: 0 <= i < |entries| ==> entries[i].sums.eventCount > 0
  }

  function EntryTotal(entries: seq<Entry>, f: KeyFilter, m: Measure): nat {
    if entries == [] then 0
    else (if Accepts(f, entries[0].key) then SumMeasure(entries[0].sums, m) else 0) + EntryTotal(entries[1..], f, m)
  }

  /** add_daily_sums adds the row in every measure, and fails exactly when one of them leaves u64. */
  lemma AddSumsIsExact(s: DailySums, row: TrafficRow)
    ensures AddSums(s, row).None? <==> exists m: Measure :: SumMeasure(s, m) + RowMeasure(row, m) > U64_MAX
    ensures AddSums(s, row).Some? ==>
              forall m: Measure :: SumMeasure(AddSums(s, row).value, m) == SumMeasure(s, m) + RowMeasure(row, m)
  {
    assert SumMeasure(s, EventCount) + RowMeasure(row, EventCount) == s.eventCount + 1;
    assert SumMeasure(s, RawU) + RowMeasure(row, RawU) == s.rawU + row.rawU;
    assert SumMeasure(s, RawD) + RowMeasure(row, RawD) == s.rawD + row.rawD;
    assert SumMeasure(s, ChargedU) + RowMeasure(row, ChargedU) == s.chargedU + row.chargedU;
    assert SumMeasure(s, ChargedD) + RowMeasure(row, ChargedD) == s.chargedD + row.chargedD;
  }

  /** The updated entry adds the row to the measures that the filter takes. */
  lemma UpdatedEntryAdds(s: DailySums, row: TrafficRow, f: KeyFilter, m: Measure)
    requires AddSums(s, row).Some?
    ensures (if Accepts(f, KeyOf(row)) then SumMeasure(AddSums(s, row).value, m) else 0)
         == (if Accepts(f, KeyOf(row)) then SumMeasure(s, m) else 0) + RowPart(f, m)(row)
  {
    AddSumsIsExact(s, row);
  }

  lemma {:induction false} UpsertAddsTheRow(entries: seq<Entry>, row: TrafficRow, f: KeyFilter, m: Measure)
    requires Upsert(entries, row).Some?
    ensures EntryTotal(Upsert(entries, row).value, f, m) == EntryTotal(entries, f, m) + RowPart(f, m)(row)
    decreases |entries|
  {
    var after := Upsert(entries, row).value;
    if entries == [] || KeyLess(KeyOf(row), entries[0].key) {
      UpdatedEntryAdds(ZERO_SUMS, row, f, m);
      assert after[1..] == entries;
    } else if entries[0].key == KeyOf(row) {
      UpdatedEntryAdds(entries[0].sums, row, f, m);
      assert after[1..] == entries[1..];
    } else {
      UpsertAddsTheRow(entries[1..], row, f, m);
      assert after[1..] == Upsert(entries[1..], row).value;
    }
  }

  /** Every key after an update is an old key or the row's. */
  lemma {:induction false} UpsertKeys(entries: seq<Entry>, row: TrafficRow, i: int)
    requires Upsert(entries, row).Some? && 0 <= i < |Upsert(entries, row).value|
    ensures var e := Upsert(entries, row).value[i];
            e.key == KeyOf(row) || (exists j :: 0 <= j < |entries| && entries[j] == e)
    decreases |entries|
  {
    if entries == [] || KeyLess(KeyOf(row), entries[0].key) || entries[0].key == KeyOf(row) {
    } else if i > 0 {
      UpsertKeys(entries[1..], row, i - 1);
    }
  }

  lemma {:induction false} UpsertKeepsOrder(entries: seq<Entry>, row: TrafficRow)
    requires Increasing(entries) && Inhabited(entries) && Upsert(entries, row).Some?
    ensures Increasing(Upsert(entries, row).value) && Inhabited(Upsert(entries, row).value)
    decreases |entries|
  {
    var after := Upsert(entries, row).value;
    if entries == [] || KeyLess(KeyOf(row), entries[0].key) {
      forall j | 0 < j < |after|
        ensures KeyLess(after[0].key, after[j].key)
      {
        if j > 1 {
          KeyOrderIsTransitive(KeyOf(row), entries[0].key, entries[j - 1].key);
        }
      }
    } else if entries[0].key != KeyOf(row) {
      KeyOrderIsTotal(KeyOf(row), entries[0].key);
      UpsertKeepsOrder(entries[1..], row);
      var rest := Upsert(entries[1..], row).value;
      forall j | 0 <= j < |rest|
        ensures KeyLess(entries[0].key, rest[j].key)
      {
        UpsertKeys(entries[1..], row, j);
      }
    }
  }

  /** In a sorted map the total of one key is that key's entry, or nothing. */
  lemma {:induction false} TotalOfAbsentKey(entries: seq<Entry>, key: DailyKey, m: Measure)
    requires forall i :: 0 <= i < |entries| ==> entries[i].key != key
    ensures EntryTotal(entries, ExactKey(key), m) == 0
    decreases |entries|
  {
    if entries != [] {
      TotalOfAbsentKey(entries[1..], key, m);
    }
  }

  lemma {:induction false} TotalOfEntryKey(entries: seq<Entry>, i: int, m: Measure)
    requires Increasing(entries) && 0 <= i < |entries|
    ensures EntryTotal(entries, ExactKey(entries[i].key), m) == SumMeasure(entries[i].sums, m)
    decreases |entries|
  {
    if i == 0 {
      forall j | 0 <= j < |entries[1..]|
        ensures entries[1..][j].key != entries[0].key
      {
        KeyOrderIsTotal(entries[0].key, entries[j + 1].key);
      }
      TotalOfAbsentKey(entries[1..], entries[0].key, m);
    } else {
      KeyOrderIsTotal(entries[0].key, entries[i].key);
      TotalOfEntryKey(entries[1..], i - 1, m);
    }
  }

  /** An update fails exactly when the true total of the row's own key leaves u64. */
  lemma {:induction false} UpsertOverflowsIff(entries: seq<Entry>, row: TrafficRow)
    requires Increasing(entries)
    ensures Upsert(entries, row).None? <==>
            exists m: Measure :: EntryTotal(entries, ExactKey(KeyOf(row)), m) + RowMeasure(row, m) > U64_MAX
    decreases |entries|
  {
    var k := KeyOf(row);
    if entries == [] || KeyLess(k, entries[0].key) {
      forall i | 0 <= i < |entries|
        ensures entries[i].key != k
      {
        KeyOrderIsTotal(k, entries[0].key);
        if i > 0 {
          KeyOrderIsTransitive(k, entries[0].key, entries[i].key);
          KeyOrderIsTotal(k, entries[i].key);
        }
      }
      forall m: Measure {
        TotalOfAbsentKey(entries, k, m);
      }
      AddSumsIsExact(ZERO_SUMS, row);
    } else if entries[0].key == k {
      forall m: Measure {
        TotalOfEntryKey(entries, 0, m);
      }
      AddSumsIsExact(entries[0].sums, row);
    } else {
      UpsertOverflowsIff(entries[1..], row);
    }
  }

  // ---- Grouping is exact -------------------------------------------------------------------------

  /** The entries are the group-by of the rows: sorted, no empty group, every total right. */
  ghost predicate ExactGroups(entries: seq<Entry>, rows: seq<TrafficRow>) {
    && Increasing(entries)
    && Inhabited(entries)
    && (forall f: KeyFilter, m: Measure :: EntryTotal(entries, f, m) == RowTotal(rows, f, m))
  }

  lemma {:induction false} RowTotalGrows(rows: seq<TrafficRow>, n: nat, f: KeyFilter, m: Measure)
    requires n <= |rows|
    ensures RowTotal(rows[..n], f, m) <= RowTotal(rows, f, m)
    decreases |rows|
  {
    if n < |rows| {
      RowTotalGrows(rows[..|rows| - 1], n, f, m);
      assert rows[..|rows| - 1][..n] == rows[..n];
    } else {
      assert rows[..n] == rows;
    }
  }

  ghost predicate SomeGroupOverflows(rows: seq<TrafficRow>) {
    exists key: DailyKey, m: Measure :: RowTotal(rows, ExactKey(key), m) > U64_MAX
  }

  /** Grouping reports an overflow exactly when some group's true sum exceeds u64, and otherwise
      returns the exact group-by. */
  lemma {:induction false} GroupIsExact(rows: seq<TrafficRow>)
    ensures Group(rows).None? <==> SomeGroupOverflows(rows)
    ensures Group(rows).Some? ==> ExactGroups(Group(rows).value, rows)
  {
    if rows == [] {
      assert forall f: KeyFilter, m: Measure :: EntryTotal([], f, m) == RowTotal([], f, m);
    } else {
      var init, last := rows[..|rows| - 1], rows[|rows| - 1];
      GroupIsExact(init);
      if Group(init).None? {
        var key, m: Measure :| RowTotal(init, ExactKey(key), m) > U64_MAX;
        RowTotalGrows(rows, |init|, ExactKey(key), m);
        assert RowTotal(rows, ExactKey(key), m) > U64_MAX;
      } else {
        GroupStep(Group(init).value, init, rows, last);
      }
    }
  }

  lemma GroupStep(before: seq<Entry>, init: seq<TrafficRow>, rows: seq<TrafficRow>, last: TrafficRow)
    requires ExactGroups(before, init) && rows == init + [last] && !SomeGroupOverflows(init)
    ensures Upsert(before, last).None? <==> SomeGroupOverflows(rows)
    ensures Upsert(before, last).Some? ==> ExactGroups(Upsert(before, last).value, rows)
  {
    assert rows[..|rows| - 1] == init;
    assert forall f: KeyFilter, m: Measure :: RowTotal(rows, f, m) == RowTotal(init, f, m) + RowPart(f, m)(last);
    UpsertOverflowsIff(before, last);
    if Upsert(before, last).None? {
      var m: Measure :| EntryTotal(before, ExactKey(KeyOf(last)), m) + RowMeasure(last, m) > U64_MAX;
      assert RowTotal(rows, ExactKey(KeyOf(last)), m) > U64_MAX;
    } else {
      UpsertKeepsOrder(before, last);
      forall f: KeyFilter, m: Measure {
        UpsertAddsTheRow(before, last, f, m);
      }
      forall key: DailyKey, m: Measure
        ensures RowTotal(rows, ExactKey(key), m) <= U64_MAX
      {
        assert RowTotal(init, ExactKey(key), m) <= U64_MAX;
        assert EntryTotal(before, ExactKey(KeyOf(last)), m) + RowMeasure(last, m) <= U64_MAX;
      }
    }
  }

  /** Each entry holds the true sums of its own key, and each row's key has an entry. */
  lemma GroupsHoldTheTrueSums(rows: seq<TrafficRow>, i: int, m: Measure)
    requires Group(rows).Some? && 0 <= i < |Group(rows).value|
    ensures var e := Group(rows).value[i];
            SumMeasure(e.sums, m) == RowTotal(rows, ExactKey(e.key), m)
  {
    GroupIsExact(rows);
    TotalOfEntryKey(Group(rows).value, i, m);
  }

  lemma {:induction false} PositiveTotalHasEntry(entries: seq<Entry>, key: DailyKey, m: Measure)
    requires EntryTotal(entries, ExactKey(key), m) > 0
    ensures exists i :: 0 <= i < |entries| && entries[i].key == key
    decreases |entries|
  {
    if entries[0].key != key {
      PositiveTotalHasEntry(entries[1..], key, m);
      var i :| 0 <= i < |entries[1..]| && entries[1..][i].key == key;
      assert entries[i + 1].key == key;
    }
  }

  lemma OwnKeyCounts(rows: seq<TrafficRow>, j: nat)
    requires j < |rows|
    ensures RowTotal(rows, ExactKey(KeyOf(rows[j])), EventCount) > 0
  {
    assert rows[..j + 1][..j] == rows[..j];
    RowTotalGrows(rows, j + 1, ExactKey(KeyOf(rows[j])), EventCount);
  }

  lemma EveryRowIsGrouped(rows: seq<TrafficRow>, j: int)
    requires Group(rows).Some? && 0 <= j < |rows|
    ensures exists i :: 0 <= i < |Group(rows).value| && Group(rows).value[i].key == KeyOf(rows[j])
  {
    GroupIsExact(rows);
    OwnKeyCounts(rows, j);
    PositiveTotalHasEntry(Group(rows).value, KeyOf(rows[j]), EventCount);
  }

  /** A group-by has only one sorted form. */
  lemma {:induction false} GroupsAreCanonical(a: seq<Entry>, b: seq<Entry>)
    requires Increasing(a) && Inhabited(a) && Increasing(b) && Inhabited(b)
    requires forall key: DailyKey, m: Measure :: EntryTotal(a, ExactKey(key), m) == EntryTotal(b, ExactKey(key), m)
    ensures a == b
    decreases |a|
  {
    if a == [] || b == [] {
      if a != [] {
        TotalOfEntryKey(a, 0, EventCount);
      }
      if b != [] {
        TotalOfEntryKey(b, 0, EventCount);
      }
    } else {
      FirstKeyIsNotBelow(a, b);
      FirstKeyIsNotBelow(b, a);
      KeyOrderIsTotal(a[0].key, b[0].key);
      forall m: Measure
        ensures SumMeasure(a[0].sums, m) == SumMeasure(b[0].sums, m)
      {
        TotalOfEntryKey(a, 0, m);
        TotalOfEntryKey(b, 0, m);
      }
      SumsEqual(a[0].sums, b[0].sums);
      forall key: DailyKey, m: Measure
        ensures EntryTotal(a[1..], ExactKey(key), m) == EntryTotal(b[1..], ExactKey(key), m)
      {
        assert EntryTotal(a, ExactKey(key), m) == EntryTotal(b, ExactKey(key), m);
      }
      GroupsAreCanonical(a[1..], b[1..]);
    }
  }

  lemma SumsEqual(s: DailySums, t: DailySums)
    requires forall m: Measure :: SumMeasure(s, m) == SumMeasure(t, m)
    ensures s == t
  {
    assert SumMeasure(s, EventCount) == SumMeasure(t, EventCount) && SumMeasure(s, RawU) == SumMeasure(t, RawU);
    assert SumMeasure(s, RawD) == SumMeasure(t, RawD) && SumMeasure(s, ChargedU) == SumMeasure(t, ChargedU);
    assert SumMeasure(s, ChargedD) == SumMeasure(t, ChargedD);
  }

  lemma FirstKeyIsNotBelow(a: seq<Entry>, b: seq<Entry>)
    requires a != [] && b != [] && Increasing(a) && Inhabited(a) && Increasing(b)
    requires forall key: DailyKey, m: Measure :: EntryTotal(a, ExactKey(key), m) == EntryTotal(b, ExactKey(key), m)
    ensures !KeyLess(a[0].key, b[0].key)
  {
    if KeyLess(a[0].key, b[0].key) {
      forall i | 0 <= i < |b|
        ensures b[i].key != a[0].key
      {
        KeyOrderIsTotal(a[0].key, b[0].key);
        if i > 0 {
          KeyOrderIsTransitive(a[0].key, b[0].key, b[i].key);
          KeyOrderIsTotal(a[0].key, b[i].key);
        }
      }
      TotalOfAbsentKey(b, a[0].key, EventCount);
      TotalOfEntryKey(a, 0, EventCount);
      assert false;
    }
  }

  /** The grouping does not depend on the order of the rows. */
  lemma GroupIgnoresRowOrder(a: seq<TrafficRow>, b: seq<TrafficRow>)
    requires multiset(a) == multiset(b)
    ensures Group(a) == Group(b)
  {
    forall f: KeyFilter, m: Measure
      ensures RowTotal(a, f, m) == RowTotal(b, f, m)
    {
      RowTotalIsMultisetSum(a, f, m);
      RowTotalIsMultisetSum(b, f, m);
    }
    GroupIsExact(a);
    GroupIsExact(b);
    EqualTotalsOverflowTogether(a, b);
    EqualTotalsOverflowTogether(b, a);
    if Group(a).Some? {
      GroupsAreCanonical(Group(a).value, Group(b).value);
    }
  }

  lemma EqualTotalsOverflowTogether(a: seq<TrafficRow>, b: seq<TrafficRow>)
    requires forall f: KeyFilter, m: Measure :: RowTotal(a, f, m) == RowTotal(b, f, m)
    ensures SomeGroupOverflows(a) ==> SomeGroupOverflows(b)
  {
    if SomeGroupOverflows(a) {
      var key, m: Measure :| RowTotal(a, ExactKey(key), m) > U64_MAX;
      assert RowTotal(b, ExactKey(key), m) > U64_MAX;
    }
  }

  // ---- The numbered rows -----------------------------------------------------------------------------

  datatype DailyRow = DailyRow(key: DailyKey, batchId: int, rowNumber: nat, sums: DailySums)

  function Numbered(entries: seq<Entry>, batchId: int): (rows: seq<DailyRow>)
    ensures |rows| == |entries|
    ensures forall i :: 0 <= i < |rows| ==> rows[i] == DailyRow(entries[i].key, batchId, i, entries[i].sums)
  {
    seq(|entries|, i requires 0 <= i < |entries| => DailyRow(entries[i].key, batchId, i, entries[i].sums))
  }

  /** reported_daily_rows and accounted_daily_rows: an error is AggregateOverflow. */
  function DailyRows(rows: seq<TrafficRow>, batchId: int): Result<seq<DailyRow>, ProjectionError> {
    var entries := Group(rows);
    if entries.None? || |entries.value| > U32_MAX + 1 then Failure(AggregateOverflow)
    else Success(Numbered(entries.value, batchId))
  }

  /** The two loops of the source: update the sorted map row by row, then number its entries. */
  method GroupDailyRows(rows: seq<TrafficRow>, batchId: int) returns (result: Result<seq<DailyRow>, ProjectionError>)
    ensures result == DailyRows(rows, batchId)
  {
    var grouped: seq<Entry> := [];
    for i := 0 to |rows|
      invariant Group(rows[..i]) == Some(grouped)
    {
      assert rows[..i + 1][..i] == rows[..i];
      var updated := Upsert(grouped, rows[i]);
      if updated.None? {
        GroupIsExact(rows[..i + 1]);
        OverflowPersists(rows, i + 1);
        return Failure(AggregateOverflow);
      }
      grouped := updated.value;
    }
    assert rows[..|rows|] == rows;
    var numbered: seq<DailyRow> := [];
    for index := 0 to |grouped|
      invariant numbered == Numbered(grouped, batchId)[..index]
      invariant index <= U32_MAX + 1
    {
      if index > U32_MAX {
        return Failure(AggregateOverflow);
      }
      numbered := numbered + [DailyRow(grouped[index].key, batchId, index, grouped[index].sums)];
    }
    assert Numbered(grouped, batchId)[..|grouped|] == Numbered(grouped, batchId);
    return Success(numbered);
  }

  /** An overflow in a prefix is an overflow of the whole batch. */
  lemma OverflowPersists(rows: seq<TrafficRow>, n: nat)
    requires n <= |rows| && Group(rows[..n]).None?
    ensures Group(rows).None?
  {
    GroupIsExact(rows[..n]);
    var key, m: Measure :| RowTotal(rows[..n], ExactKey(key), m) > U64_MAX;
    RowTotalGrows(rows, n, ExactKey(key), m);
    GroupIsExact(rows);
    assert RowTotal(rows, ExactKey(key), m) > U64_MAX;
  }

  ghost function RowKeys(rows: seq<TrafficRow>): set<DailyKey> {
    set j | 0 <= j < |rows| :: KeyOf(rows[j])
  }

  /** There is one entry per distinct key of the rows. */
  lemma OneEntryPerKey(rows: seq<TrafficRow>)
    requires Group(rows).Some?
    ensures |Group(rows).value| == |RowKeys(rows)|
  {
    GroupIsExact(rows);
    var entries := Group(rows).value;
    var keys := seq(|entries|, i requires 0 <= i < |entries| => entries[i].key);
    assert Distinct(keys) by {
      forall i, j | 0 <= i < j < |keys|
        ensures keys[i] != keys[j]
      {
        KeyOrderIsTotal(keys[i], keys[j]);
      }
    }
    DistinctCardinality(keys);
    assert Elements(keys) == RowKeys(rows) by {
      forall k | k in Elements(keys)
        ensures k in RowKeys(rows)
      {
        var i :| 0 <= i < |keys| && keys[i] == k;
        TotalOfEntryKey(entries, i, EventCount);
        PositiveTotalHasRow(rows, k);
      }
      forall j | 0 <= j < |rows|
        ensures KeyOf(rows[j]) in Elements(keys)
      {
        EveryRowIsGrouped(rows, j);
        var i :| 0 <= i < |entries| && entries[i].key == KeyOf(rows[j]);
        assert keys[i] == KeyOf(rows[j]);
      }
    }
  }

  lemma {:induction false} PositiveTotalHasRow(rows: seq<TrafficRow>, key: DailyKey)
    requires RowTotal(rows, ExactKey(key), EventCount) > 0
    ensures key in RowKeys(rows)
  {
    var init, last := rows[..|rows| - 1], rows[|rows| - 1];
    if KeyOf(last) != key {
      PositiveTotalHasRow(init, key);
      var j :| 0 <= j < |init| && KeyOf(init[j]) == key;
      assert KeyOf(rows[j]) == key;
    }
  }

  /** AggregateOverflow is reported exactly when a true sum leaves u64 or the groups outnumber u32. */
  lemma DailyRowsOverflowIff(rows: seq<TrafficRow>, batchId: int)
    ensures DailyRows(rows, batchId).Failure? <==> SomeGroupOverflows(rows) || |RowKeys(rows)| > U32_MAX + 1
  {
    GroupIsExact(rows);
    if Group(rows).Some? {
      OneEntryPerKey(rows);
    }
  }

  /** The published form of the aggregates: keys strictly increasing, rows numbered 0, 1, 2, ...,
      each row with the true count and sums of its key. */
  lemma DailyRowsAreExact(rows: seq<TrafficRow>, batchId: int)
    requires DailyRows(rows, batchId).Success?
    ensures var daily := DailyRows(rows, batchId).value;
            && (forall i, j :: 0 <= i < j < |daily| ==> KeyLess(daily[i].key, daily[j].key))
            && (forall i :: 0 <= i < |daily| ==> daily[i].batchId == batchId && daily[i].rowNumber == i)
            && (forall i, m: Measure :: 0 <= i < |daily| ==>
                                          SumMeasure(daily[i].sums, m) == RowTotal(rows, ExactKey(daily[i].key), m))
            && (forall j :: 0 <= j < |rows| ==> exists i :: 0 <= i < |daily| && daily[i].key == KeyOf(rows[j]))
  {
    GroupIsExact(rows);
    var entries, daily := Group(rows).value, DailyRows(rows, batchId).value;
    forall i, m: Measure | 0 <= i < |daily| {
      GroupsHoldTheTrueSums(rows, i, m);
    }
    forall j | 0 <= j < |rows|
      ensures exists i :: 0 <= i < |daily| && daily[i].key == KeyOf(rows[j])
    {
      EveryRowIsGrouped(rows, j);
      var i :| 0 <= i < |entries| && entries[i].key == KeyOf(rows[j]);
      assert daily[i].key == KeyOf(rows[j]);
    }
  }

  /** A single row is its own group. */
  lemma DailyRowsOfOne(row: TrafficRow, batchId: int)
    ensures DailyRows([row], batchId)
         == Success([DailyRow(KeyOf(row), batchId, 0, DailySums(1, row.rawU, row.rawD, row.chargedU, row.chargedD))])
  {
    assert [row][..0] == [];
    var none: seq<Entry> := [];
    var sums := DailySums(1, row.rawU, row.rawD, row.chargedU, row.chargedD);
    assert AddSums(ZERO_SUMS, row) == Some(sums);
    assert [Entry(KeyOf(row), sums)] + none == [Entry(KeyOf(row), sums)];
    assert Group([row]) == Some([Entry(KeyOf(row), sums)]);
    assert Numbered([Entry(KeyOf(row), sums)], batchId) == [DailyRow(KeyOf(row), batchId, 0, sums)];
  }
}
