/**
 migrate_clickhouse of backend/rust/crates/analytics/src/schema.rs against a
 server whose DDL is not transactional. The connection survives `budget` more
 statements and then fails, so every crash point is one value of it; a statement
 whose acknowledgement was lost is a crash just after it.
 */
module Migrator {
  import opened Wrappers
  import opened MachineInts
  import opened ClickHouseStore
  import opened Ledger

  /** Sound columns, keys and constraints, with or without the deduplication window; or anything else. */
  datatype TableDef = Sound(deduplicates: bool) | Drifted

  datatype MigrationError =
    | Crashed
    | UnsupportedVersion
    | UnmanagedNonEmptyDatabase(tableCount: nat)
    | UnexpectedTable(table: string)
    | IncompleteLedger
    | SchemaInvariant(table: string)
    | ConflictingLedger(version: nat)
    | BadLedger(fault: LedgerError)

  const LEDGER_TABLE := "schema_migration"

  function Names(j: nat): (names: set<string>)
    requires j <= MIGRATIONS
  {
    set i | 0 <= i < j :: NAMES[i]
  }

  lemma NamesAreDistinct(i: nat, j: nat)
    requires i < MIGRATIONS && j < MIGRATIONS && NAMES[i] == NAMES[j]
    ensures i == j
  {
    assert |NAMES[0]| == 16 && |NAMES[1]| == 16 && |NAMES[2]| == 17 && |NAMES[3]| == 20;
    assert |NAMES[4]| == 22 && |NAMES[5]| == 23 && |NAMES[6]| == 17;
    assert NAMES[0][0] == 's' && NAMES[1][0] == 't' && NAMES[2][0] == 't' && NAMES[6][0] == 'r';
  }

  lemma NextNameIsNew(k: nat)
    requires k < MIGRATIONS
    ensures NAMES[k] !in Names(k) && Names(k + 1) == Names(k) + {NAMES[k]}
  {
    forall i: nat | i < k
      ensures NAMES[i] != NAMES[k]
    {
      if NAMES[i] == NAMES[k] {
        NamesAreDistinct(i, k);
      }
    }
  }

  lemma {:induction false} CountOfNames(j: nat)
    requires j <= MIGRATIONS
    ensures |Names(j)| == j
  {
    if j > 0 {
      CountOfNames(j - 1);
      NextNameIsNew(j - 1);
    }
  }

  lemma FirstNames()
    ensures Names(0) == {} && Names(1) == {LEDGER_TABLE}
  {
    assert forall t :: t in Names(1) <==> t == NAMES[0];
    assert forall t :: t !in Names(0);
  }

  function TokensOf(k: nat): set<LedgerRow>
    requires k <= MIGRATIONS
  {
    set i | 0 <= i < k :: Entry(i)
  }

  lemma LineageGrows(k: nat)
    requires k < MIGRATIONS
    ensures Lineage(k + 1) == Lineage(k) + [Entry(k)]
    ensures TokensOf(k + 1) == TokensOf(k) + {Entry(k)}
    ensures Entry(k) !in TokensOf(k)
    ensures Names(k + 1) == Names(k) + {NAMES[k]}
  {
  }

  /** The first k migrations are recorded, their tables and at most the next one exist, all of them sound. */
  ghost predicate At(tables: map<string, TableDef>, ledger: seq<LedgerRow>, tokens: set<LedgerRow>, k: nat, j: nat) {
    && k <= j <= MIGRATIONS && j <= k + 1
    && Records(ledger, k)
    && tokens == TokensOf(k)
    && tables.Keys == Names(j)
    && (forall t :: t in tables && t != LEDGER_TABLE ==> tables[t] == Sound(true))
    && (LEDGER_TABLE in tables ==> tables[LEDGER_TABLE].Sound?)
    && (k > 0 ==> LEDGER_TABLE in tables && tables[LEDGER_TABLE] == Sound(true))
  }

  predicate Appended(before: seq<LedgerRow>, after: seq<LedgerRow>) {
    |before| <= |after| && after[..|before|] == before
  }

  /** No table was dropped or changed, except for the ledger's deduplication window. */
  predicate Kept(before: map<string, TableDef>, after: map<string, TableDef>) {
    forall t :: t in before ==> t in after && (t != LEDGER_TABLE ==> after[t] == before[t])
  }

  class Server {
    var tables: map<string, TableDef>
    var ledger: seq<LedgerRow>
    var tokens: set<LedgerRow>
    var budget: nat

    /** Between a crash and a rerun: some prefix is recorded, and every recorded table is there. */
    ghost predicate Resumable()
      reads this`tables, this`ledger, this`tokens
    {
      exists k: nat, j: nat :: At(tables, ledger, tokens, k, j)
    }

    /** The whole lineage is recorded, one row per version, and exactly the expected tables exist and are sound. */
    ghost predicate Complete()
      reads this`tables, this`ledger
    {
      && Records(ledger, MIGRATIONS)
      && tables.Keys == Names(MIGRATIONS)
      && forall t :: t in tables ==> tables[t] == Sound(true)
    }

    /** An empty database. */
    constructor (budget: nat)
      ensures tables == map[] && this.budget == budget && At(tables, ledger, tokens, 0, 0)
    {
      tables, ledger, tokens, this.budget := map[], [], {}, budget;
    }

    method Spend() returns (alive: bool)
      modifies this`budget
      ensures alive <==> old(budget) > 0
      ensures budget == if alive then old(budget) - 1 else 0
    {
      alive := budget > 0;
      budget := if alive then budget - 1 else 0;
    }

    /** CREATE TABLE IF NOT EXISTS. The bootstrap file alone does not enable the deduplication window. */
    method CreateTable(index: nat) returns (result: Result<(), MigrationError>)
      requires index < MIGRATIONS
      modifies this`budget, this`tables
      ensures result == if old(budget) == 0 then Failure(Crashed) else Success(())
      ensures budget == if old(budget) == 0 then 0 else old(budget) - 1
      ensures tables == if old(budget) == 0 || NAMES[index] in old(tables) then old(tables)
                        else old(tables)[NAMES[index] := Sound(index != 0)]
    {
      var alive := Spend();
      if !alive {
        return Failure(Crashed);
      }
      if NAMES[index] !in tables {
        tables := tables[NAMES[index] := Sound(index != 0)];
      }
      return Success(());
    }

    /** ALTER TABLE schema_migration MODIFY SETTING non_replicated_deduplication_window. */
    method EnableDeduplication() returns (result: Result<(), MigrationError>)
      requires LEDGER_TABLE in tables
      modifies this`budget, this`tables
      ensures result == if old(budget) == 0 then Failure(Crashed) else Success(())
      ensures budget == if old(budget) == 0 then 0 else old(budget) - 1
      ensures tables == if old(budget) == 0 || old(tables)[LEDGER_TABLE].Drifted? then old(tables)
                        else old(tables)[LEDGER_TABLE := Sound(true)]
    {
      var alive := Spend();
      if !alive {
        return Failure(Crashed);
      }
      if tables[LEDGER_TABLE].Sound? {
        tables := tables[LEDGER_TABLE := Sound(true)];
      }
      return Success(());
    }

    /** insert_migration_ledger_row, with its deduplication token. */
    method InsertLedgerRow(index: nat) returns (result: Result<(), MigrationError>)
      requires index < MIGRATIONS
      modifies this`budget, this`ledger, this`tokens
      ensures result == if old(budget) == 0 then Failure(Crashed) else Success(())
      ensures budget == if old(budget) == 0 then 0 else old(budget) - 1
      ensures ledger == if old(budget) == 0 || Entry(index) in old(tokens) then old(ledger)
                        else old(ledger) + [Entry(index)]
      ensures tokens == if old(budget) == 0 then old(tokens) else old(tokens) + {Entry(index)}
    {
      var alive := Spend();
      if !alive {
        return Failure(Crashed);
      }
      if Entry(index) !in tokens {
        ledger := ledger + [Entry(index)];
        tokens := tokens + {Entry(index)};
      }
      return Success(());
    }

    predicate IsSound(table: string)
      reads this`tables
    {
      table in tables && tables[table] == Sound(true)
    }

    /** validate_ledger_lineage: the ordered query, then validate_ledger_rows. */
    method ValidateLineage(exact: bool) returns (result: Result<nat, MigrationError>)
      ensures result.Success? ==> Records(ledger, result.value) && (exact ==> result.value == MIGRATIONS)
      ensures forall k :: Records(ledger, k) && (exact ==> k == MIGRATIONS) ==> result == Success(k)
      ensures result.Failure? ==> result.error.BadLedger?
    {
      var rows := OrderedSelect(ledger, (row: LedgerRow) => true, (row: LedgerRow) => row.version);
      assert multiset(rows) == multiset(ledger) by {
        assert forall x: LedgerRow :: multiset(rows)[x] == multiset(ledger)[x];
      }
      var validated := ValidateLedgerRows(rows, exact);
      if validated.Failure? {
        return Failure(BadLedger(validated.error));
      }
      assert Records(rows, validated.value);
      return Success(validated.value);
    }

    /** One round of the migration loop for the next unrecorded migration. */
    method ApplyMigration(index: nat) returns (result: Result<(), MigrationError>)
      requires index < MIGRATIONS
      modifies this
      ensures Appended(old(ledger), ledger)
      ensures Kept(old(tables), tables) && (old(IsSound(LEDGER_TABLE)) ==> IsSound(LEDGER_TABLE))
      ensures (exists j: nat :: At(old(tables), old(ledger), old(tokens), index, j)) && old(IsSound(LEDGER_TABLE)) ==>
                && (result.Success? ==> At(tables, ledger, tokens, index + 1, index + 1))
                && (result.Failure? ==> result.error == Crashed && old(budget) < 2 && Resumable())
                && (result.Success? ==> budget == old(budget) - 2)
    {
      ghost var resumable := (exists j: nat :: At(tables, ledger, tokens, index, j)) && IsSound(LEDGER_TABLE);
      LineageGrows(index);
      result := CreateTable(index);
      if result.Failure? {
        return;
      }
      assert resumable ==> At(tables, ledger, tokens, index, index + 1);
      if !IsSound(NAMES[index]) {
        return Failure(SchemaInvariant(NAMES[index]));
      }
      result := InsertLedgerRow(index);
      if result.Failure? {
        return;
      }
      assert resumable ==> At(tables, ledger, tokens, index + 1, index + 1);
      var observed :- ValidateLineage(false);
      if observed <= index {
        assert Records(ledger, observed);
        return Failure(ConflictingLedger(index + 1));
      }
      return Success(());
    }

    /** validate_clickhouse_schema. */
    method ValidateSchema() returns (result: Result<(), MigrationError>)
      ensures result.Success? <==> tables.Keys == Names(MIGRATIONS) && forall t :: t in tables ==>
                                                                                     tables[t] == Sound(true)
      ensures result.Failure? ==> result.error.UnexpectedTable? || result.error.SchemaInvariant?
    {
      CountOfNames(MIGRATIONS);
      if t :| t in tables && t !in Names(MIGRATIONS) {
        return Failure(UnexpectedTable(t));
      }
      if |tables| != MIGRATIONS {
        return Failure(SchemaInvariant("currentDatabase()"));
      }
      SubsetOfSameSize(tables.Keys, Names(MIGRATIONS));
      for i := 0 to MIGRATIONS
        invariant forall l :: 0 <= l < i ==> IsSound(NAMES[l])
      {
        if !IsSound(NAMES[i]) {
          assert NAMES[i] in Names(MIGRATIONS);
          return Failure(SchemaInvariant(NAMES[i]));
        }
      }
      return Success(());
    }

    /** CREATE and ALTER of the ledger table, then its validation. */
    method PrepareLedgerTable(ghost k: nat, ghost j: nat) returns (result: Result<(), MigrationError>)
      modifies this`budget, this`tables
      ensures Kept(old(tables), tables)
      ensures result.Success? ==> IsSound(LEDGER_TABLE)
      ensures At(old(tables), ledger, tokens, k, j) ==>
                && (At(tables, ledger, tokens, k, j) || At(tables, ledger, tokens, k, Max(1, j)))
                && (result.Failure? ==> result.error == Crashed && old(budget) < 2)
                && (result.Success? ==> At(tables, ledger, tokens, k, Max(1, j)) && budget == old(budget) - 2)
    {
      FirstNames();
      assert k <= j <= MIGRATIONS && j > 0 ==> NAMES[0] in Names(j);
      result := CreateTable(0);
      if result.Failure? {
        return;
      }
      assert At(old(tables), ledger, tokens, k, j) ==> At(tables, ledger, tokens, k, Max(1, j));
      result := EnableDeduplication();
      if result.Failure? {
        return;
      }
      assert At(old(tables), ledger, tokens, k, j) ==> At(tables, ledger, tokens, k, Max(1, j));
      if !IsSound(LEDGER_TABLE) {
        return Failure(SchemaInvariant(LEDGER_TABLE));
      }
    }

    /** Everything before the migration loop. */
    method Bootstrap(supported: bool, ghost k: nat, ghost j: nat) returns (result: Result<(), MigrationError>)
      modifies this`budget, this`tables
      ensures Kept(old(tables), tables)
      ensures result.Success? ==> IsSound(LEDGER_TABLE)
      ensures At(old(tables), ledger, tokens, k, j) ==>
                && (At(tables, ledger, tokens, k, j) || At(tables, ledger, tokens, k, Max(1, j)))
                && (result.Failure? ==>
                      || (result.error == Crashed && old(budget) < 2)
                      || (result.error == UnsupportedVersion && !supported))
                && (result.Success? ==> At(tables, ledger, tokens, k, Max(1, j)) && budget == old(budget) - 2)
    {
      if !supported {
        return Failure(UnsupportedVersion);
      }
      AtHasExpectedTables(tables, ledger, tokens, k, j);
      var preexisting := LEDGER_TABLE in tables;
      if !preexisting && tables.Keys != {} {
        return Failure(UnmanagedNonEmptyDatabase(|tables|));
      }
      if t :| t in tables && t !in Names(MIGRATIONS) {
        return Failure(UnexpectedTable(t));
      }
      result := PrepareLedgerTable(k, j);
      if result.Failure? {
        return;
      }
      var prefix := ValidateLineage(false);
      if prefix.Failure? {
        return Failure(prefix.error);
      }
      if preexisting && prefix.value == 0 && tables.Keys != {LEDGER_TABLE} {
        assert Records(ledger, 0);
        return Failure(IncompleteLedger);
      }
    }

    /** One iteration of the migration loop; next is the number of recorded migrations after it, if it was k before. */
    method Advance(index: nat, ghost k: nat, ghost j: nat) returns (result: Result<(), MigrationError>, ghost next: nat)
      requires index < MIGRATIONS
      requires IsSound(LEDGER_TABLE)
      modifies this
      ensures Appended(old(ledger), ledger)
      ensures Kept(old(tables), tables) && (old(IsSound(LEDGER_TABLE)) ==> IsSound(LEDGER_TABLE))
      ensures next == if k > index then k else index + 1
      ensures At(old(tables), old(ledger), old(tokens), k, j) && index <= k ==>
                && (result.Success? ==>
                      At(tables, ledger, tokens, next, if k > index then j else next) && budget >= old(budget) - 2)
                && (result.Failure? ==> result.error == Crashed && old(budget) < 2 && Resumable())
    {
      next := if k > index then k else index + 1;
      var prefix := ValidateLineage(false);
      if prefix.Failure? {
        return Failure(prefix.error), next;
      }
      RecordedOnce(ledger, prefix.value);
      if prefix.value > index {
        return Success(()), next;
      }
      if prefix.value < index {
        return Failure(BadLedger(LedgerGap(index + 1))), next;
      }
      result := ApplyMigration(index);
    }

    /** The migration loop. */
    method RunMigrations(ghost resumable: bool, ghost k: nat, ghost j: nat) returns (result: Result<(), MigrationError>)
      requires IsSound(LEDGER_TABLE)
      requires resumable ==> At(tables, ledger, tokens, k, j)
      modifies this
      ensures Appended(old(ledger), ledger) && Kept(old(tables), tables)
      ensures resumable ==>
                && (result.Success? ==> At(tables, ledger, tokens, MIGRATIONS, MIGRATIONS))
                && (result.Failure? ==> result.error == Crashed && old(budget) < 14 && Resumable())
    {
      ghost var done: nat, created: nat := k, j;
      for index := 0 to MIGRATIONS
        invariant Appended(old(ledger), ledger) && Kept(old(tables), tables)
        invariant IsSound(LEDGER_TABLE)
        invariant resumable ==>
            At(tables, ledger, tokens, done, created) && index <= done && budget >= old(budget) - 2 * index
      {
        ghost var next: nat;
        result, next := Advance(index, done, created);
        if result.Failure? {
          return;
        }
        created := if done > index then created else next;
        done := next;
      }
      return Success(());
    }

    /** migrate_clickhouse. On any database: success means the complete lineage, rows are only appended, and no
        table changes beyond the ledger's deduplication window. On a database that an earlier run left behind,
        whatever statement it stopped at: the only failures are a crash, which leaves a resumable database
        again, or an unsupported server; and sixteen surviving statements are enough to finish. */
    method Migrate(supported: bool) returns (result: Result<(), MigrationError>)
      modifies this
      ensures result.Success? ==> Complete()
      ensures Appended(old(ledger), ledger)
      ensures Kept(old(tables), tables)
      ensures old(Resumable()) ==>
                && Resumable()
                && (result.Failure? ==> result.error == Crashed || (result.error == UnsupportedVersion && !supported))
                && (supported && old(budget) >= 16 ==> result.Success?)
    {
      ghost var resumable := Resumable();
      ghost var k: nat, j: nat := 0, 0;
      if resumable {
        k, j :| At(tables, ledger, tokens, k, j);
      }
      result := Bootstrap(supported, k, j);
      if result.Failure? {
        return;
      }
      result := RunMigrations(resumable, k, Max(1, j));
      if result.Failure? {
        return;
      }
      var exact := ValidateLineage(true);
      if exact.Failure? {
        return Failure(exact.error);
      }
      result := ValidateSchema();
    }

    /** One run on a connection that survives `statements` statements. */
    method Attempt(statements: nat) returns (done: bool)
      requires Resumable()
      modifies this
      ensures Resumable() && Appended(old(ledger), ledger)
      ensures done ==> Complete()
      ensures statements >= 16 ==> done
    {
      budget := statements;
      var result := Migrate(true);
      done := result.Success?;
    }

    /** Provisioning retried after every crash: attempt i survives budgets[i] statements. From any database that an
        earlier run left behind, the retries stop at the complete lineage as soon as one attempt can finish. */
    method MigrateWithRetries(budgets: seq<nat>) returns (done: bool)
      requires Resumable()
      modifies this
      ensures Resumable()
      ensures done ==> Complete()
      ensures (exists i :: 0 <= i < |budgets| && budgets[i] >= 16) ==> done
    {
      if budgets == [] {
        return false;
      }
      done := Attempt(budgets[0]);
      if !done {
        assert forall i :: 0 < i < |budgets| ==> budgets[i] == budgets[1..][i - 1];
        done := MigrateWithRetries(budgets[1..]);
      }
    }
  }

  lemma RecordedOnce(ledger: seq<LedgerRow>, k: nat)
    ensures Records(ledger, k) ==> forall l :: Records(ledger, l) ==> l == k
  {
    if Records(ledger, k) {
      RecordsIsUnique(ledger, k);
    }
  }

  lemma AtHasExpectedTables(tables: map<string, TableDef>, ledger: seq<LedgerRow>, tokens: set<LedgerRow>, k: nat,
                            j: nat)
    ensures At(tables, ledger, tokens, k, j) ==>
              && (LEDGER_TABLE in tables <==> j > 0)
              && (j == 0 ==> tables.Keys == {})
              && (j == 1 ==> tables.Keys == {LEDGER_TABLE})
              && tables.Keys <= Names(MIGRATIONS)
  {
    FirstNames();
    if At(tables, ledger, tokens, k, j) && j > 0 {
      assert NAMES[0] in Names(j);
    }
  }

  lemma SubsetOfSameSize(a: set<string>, b: set<string>)
    requires a <= b && |a| == |b|
    ensures a == b
  {
    assert b == a + (b - a);
  }
}
