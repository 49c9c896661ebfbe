/**
 The ClickHouse schema ledger of backend/rust/crates/analytics/src/schema.rs:
 validate_ledger_rows accepts exactly the prefixes of the embedded lineage.
 */
module Ledger {
  import opened Wrappers
  import opened MachineInts
  import opened Finite

  /** The checksum of an embedded migration file is named after it; the files differ. */
  datatype Checksum = ChecksumOf(version: nat) | OtherChecksum(text: string)

  datatype LedgerRow = LedgerRow(version: u64, name: string, checksum: Checksum)

  const NAMES := ["schema_migration", "traffic_reported", "traffic_accounted", "installation_binding",
                  "traffic_reported_daily", "traffic_accounted_daily", "retention_binding"]
  const MIGRATIONS: nat := 7

  /** The ledger row of migration `index`, whose version is index + 1. */
  function Entry(index: nat): LedgerRow
    requires index < MIGRATIONS
  {
    LedgerRow(index + 1, NAMES[index], ChecksumOf(index + 1))
  }

  function Lineage(k: nat): (rows: seq<LedgerRow>)
    requires k <= MIGRATIONS
    ensures |rows| == k
    ensures forall i :: 0 <= i < k ==> rows[i] == Entry(i)
  {
    seq(k, i requires 0 <= i < k => Entry(i))
  }

  datatype LedgerError =
    | DuplicateLedgerVersion(version: u64)
    | UnknownLedgerVersion(version: u64)
    | ChecksumMismatch(version: u64)
    | NameMismatch(version: u64)
    | LedgerGap(version: u64)
    | IncompleteLineage(expected: nat, observed: nat)

  /** The ledger records exactly the first k migrations, each once, in any order. */
  ghost predicate Records(rows: seq<LedgerRow>, k: nat) {
    k <= MIGRATIONS && multiset(rows) == multiset(Lineage(k))
  }

  predicate Known(row: LedgerRow) {
    1 <= row.version <= MIGRATIONS
  }

  predicate Matches(row: LedgerRow) {
    Known(row) && row == Entry(row.version - 1)
  }

  predicate HasVersion(rows: seq<LedgerRow>, version: int) {
    exists i :: 0 <= i < |rows| && rows[i].version == version
  }

  /** What each error says about the ledger. */
  ghost predicate Faulty(rows: seq<LedgerRow>, exact: bool, error: LedgerError) {
    match error
    case DuplicateLedgerVersion(v) => exists i, j :: 0 <= i < j < |rows| && rows[i].version == v && rows[j].version == v
    case UnknownLedgerVersion(v) => HasVersion(rows, v) && !(1 <= v <= MIGRATIONS)
    case ChecksumMismatch(v) =>
      exists i :: 0 <= i < |rows| && rows[i].version == v && Known(rows[i]) && rows[i].checksum != Entry(v - 1).checksum
    case NameMismatch(v) =>
      exists i :: 0 <= i < |rows| && rows[i].version == v && Known(rows[i]) && rows[i].name != Entry(v - 1).name
    case LedgerGap(v) =>
      1 <= v <= MIGRATIONS && !HasVersion(rows, v) && exists i :: 0 <= i < |rows| && rows[i].version > v
    case IncompleteLineage(expected, observed) =>
      exact && expected == MIGRATIONS && observed < MIGRATIONS && Records(rows, observed)
  }

  // ---- Distinct rows and multisets -----------------------------------------------------------

  lemma {:induction false} DistinctCounts<T>(s: seq<T>, x: T)
    requires Distinct(s)
    ensures multiset(s)[x] == if x in s then 1 else 0
  {
    if s != [] {
      var init, last := s[..|s| - 1], s[|s| - 1];
      assert s == init + [last];
      DistinctCounts(init, x);
    }
  }

  lemma SameElementsSameMultiset<T(!new)>(a: seq<T>, b: seq<T>)
    requires Distinct(a) && Distinct(b) && forall x :: x in a <==> x in b
    ensures multiset(a) == multiset(b)
  {
    forall x: T
      ensures multiset(a)[x] == multiset(b)[x]
    {
      DistinctCounts(a, x);
      DistinctCounts(b, x);
    }
  }

  lemma {:induction false} MultiplicityOne<T>(s: seq<T>, i: int, j: int)
    requires 0 <= i < j < |s| && s[i] == s[j]
    ensures multiset(s)[s[i]] >= 2
  {
    assert s == s[..j] + [s[j]] + s[j + 1..];
    assert s[..j][i] == s[i];
    assert s[i] in multiset(s[..j]);
  }

  /** A recorded lineage has matching rows, no version twice, and no gap. */
  lemma RecordsIsClean(rows: seq<LedgerRow>, k: nat)
    requires Records(rows, k)
    ensures |rows| == k
    ensures forall i :: 0 <= i < |rows| ==> Matches(rows[i]) && rows[i].version <= k
    ensures forall i, j :: 0 <= i < j < |rows| ==> rows[i].version != rows[j].version
    ensures forall v :: 1 <= v <= k ==> HasVersion(rows, v)
  {
    assert |multiset(rows)| == |multiset(Lineage(k))|;
    forall i | 0 <= i < |rows|
      ensures Matches(rows[i]) && rows[i].version <= k
    {
      assert rows[i] in multiset(Lineage(k));
    }
    forall i, j | 0 <= i < j < |rows|
      ensures rows[i].version != rows[j].version
    {
      DistinctCounts(Lineage(k), rows[i]);
      if rows[i] == rows[j] {
        MultiplicityOne(rows, i, j);
      }
    }
    forall v | 1 <= v <= k
      ensures HasVersion(rows, v)
    {
      assert Lineage(k)[v - 1] in multiset(rows);
      var i :| 0 <= i < |rows| && rows[i] == Entry(v - 1);
      assert rows[i].version == v;
    }
  }

  /** Matching rows without repetition whose versions are 1..k record the lineage up to k. */
  lemma CleanIsRecords(rows: seq<LedgerRow>, k: nat)
    requires k <= MIGRATIONS
    requires forall i :: 0 <= i < |rows| ==> Matches(rows[i]) && rows[i].version <= k
    requires forall i, j :: 0 <= i < j < |rows| ==> rows[i].version != rows[j].version
    requires forall v :: 1 <= v <= k ==> HasVersion(rows, v)
    ensures Records(rows, k)
  {
    forall x
      ensures x in rows <==> x in Lineage(k)
    {
      if x in rows {
        var i :| 0 <= i < |rows| && rows[i] == x;
        assert Lineage(k)[x.version - 1] == x;
      }
      if x in Lineage(k) {
        var i :| 0 <= i < k && Lineage(k)[i] == x;
        assert HasVersion(rows, i + 1);
        var j :| 0 <= j < |rows| && rows[j].version == i + 1;
        assert Matches(rows[j]);
      }
    }
    SameElementsSameMultiset(rows, Lineage(k));
  }

  /** No ledger records two different lineages, and a recorded one has no fault. */
  lemma RecordsIsFaultless(rows: seq<LedgerRow>, k: nat, exact: bool, error: LedgerError)
    requires Records(rows, k) && (exact ==> k == MIGRATIONS)
    ensures !Faulty(rows, exact, error)
  {
    RecordsIsClean(rows, k);
    if error.IncompleteLineage? && Records(rows, error.observed) {
      RecordsIsClean(rows, error.observed);
    }
  }

  lemma FaultyIsNotRecorded(rows: seq<LedgerRow>, exact: bool, error: LedgerError)
    requires Faulty(rows, exact, error)
    ensures forall k :: Records(rows, k) ==> exact && k != MIGRATIONS
  {
    forall k | Records(rows, k)
      ensures exact && k != MIGRATIONS
    {
      if !exact || k == MIGRATIONS {
        RecordsIsFaultless(rows, k, exact, error);
      }
    }
  }

  lemma RecordsIsUnique(rows: seq<LedgerRow>, k: nat)
    requires Records(rows, k)
    ensures forall l :: Records(rows, l) ==> l == k
  {
    forall l | Records(rows, l)
      ensures l == k
    {
      RecordsIsClean(rows, k);
      RecordsIsClean(rows, l);
    }
  }

  // ---- validate_ledger_rows ----------------------------------------------------------------------

  /** The first loop: every row is known, matches, and repeats no version. */
  method CheckRows(rows: seq<LedgerRow>) returns (seen: set<int>, fault: Option<LedgerError>)
    ensures fault.Some? ==> !fault.value.IncompleteLineage? && Faulty(rows, false, fault.value)
    ensures fault.None? ==>
              && (forall i :: 0 <= i < |rows| ==> Matches(rows[i]))
              && (forall i, j :: 0 <= i < j < |rows| ==> rows[i].version != rows[j].version)
              && (forall v :: v in seen <==> HasVersion(rows, v))
  {
    seen := {};
    for n := 0 to |rows|
      invariant forall i :: 0 <= i < n ==> Matches(rows[i])
      invariant forall i, j :: 0 <= i < j < n ==> rows[i].version != rows[j].version
      invariant forall v :: v in seen <==> exists i :: 0 <= i < n && rows[i].version == v
    {
      var row := rows[n];
      if row.version in seen {
        return seen, Some(DuplicateLedgerVersion(row.version));
      }
      seen := seen + {row.version};
      if !Known(row) {
        return seen, Some(UnknownLedgerVersion(row.version));
      }
      if row.checksum != Entry(row.version - 1).checksum {
        return seen, Some(ChecksumMismatch(row.version));
      }
      if row.name != Entry(row.version - 1).name {
        return seen, Some(NameMismatch(row.version));
      }
    }
    return seen, None;
  }

  /** validate_ledger_rows: it returns k exactly when the ledger records the first k migrations
      (all of them, when an exact lineage is asked for); otherwise it names a real fault. */
  method ValidateLedgerRows(rows: seq<LedgerRow>, exact: bool) returns (result: Result<nat, LedgerError>)
    ensures result.Success? ==> Records(rows, result.value) && (exact ==> result.value == MIGRATIONS)
    ensures forall k :: Records(rows, k) && (exact ==> k == MIGRATIONS) ==> result == Success(k)
    ensures result.Failure? ==> Faulty(rows, exact, result.error)
  {
    var seen, fault := CheckRows(rows);
    if fault.Some? {
      FaultyIsNotRecorded(rows, exact, fault.value);
      return Failure(fault.value);
    }
    var prefix := 0;
    while prefix < MIGRATIONS && prefix + 1 in seen
      invariant prefix <= MIGRATIONS
      invariant forall v :: 1 <= v <= prefix ==> HasVersion(rows, v)
    {
      prefix := prefix + 1;
    }
    if prefix < MIGRATIONS && exists i :: 0 <= i < |rows| && rows[i].version > prefix + 1 {
      FaultyIsNotRecorded(rows, exact, LedgerGap(prefix + 1));
      return Failure(LedgerGap(prefix + 1));
    }
    CleanIsRecords(rows, prefix);
    RecordsIsUnique(rows, prefix);
    if exact && prefix != MIGRATIONS {
      return Failure(IncompleteLineage(MIGRATIONS, prefix));
    }
    return Success(prefix);
  }
}
