/**
 bind_clickhouse_installation of backend/rust/crates/analytics/src/schema.rs:
 any number of provisioners race to bind one empty analytics database. All of
 them insert under one deduplication token, so one row wins for good, and
 everybody who is told it succeeded is bound to that row.
 */
module InstallationBinding {
  import opened Wrappers

  datatype BindingRow = BindingRow(singleton: int, installation: int)

  datatype BindingError =
    MissingInstallationBinding | InvalidInstallationBinding | InstallationBindingConflict | ConnectionLost

  /** Where a provisioner is in the call. */
  datatype Provisioner =
    | Outside
    | FoundEmpty(installation: int)
    | Inserting(installation: int)
    | Verifying(installation: int)
    | Returned(installation: int, result: Result<(), BindingError>)

  /** rows and tokenSeen are the binding table; facts are the installations of the raw traffic rows. */
  datatype Database = Database(rows: seq<BindingRow>, tokenSeen: bool, facts: seq<int>,
                               provisioners: map<int, Provisioner>)

  /** Each step is one statement of the call. */
  datatype Step =
    | Look(who: int, installation: int)
    | CheckFacts(who: int)
    | Insert(who: int, applied: bool, acked: bool)
    | Verify(who: int)
    | Crash(who: int)
    | Traffic(facts: seq<int>)

  function StateOf(db: Database, who: int): Provisioner {
    if who in db.provisioners then db.provisioners[who] else Outside
  }

  function Goes(db: Database, who: int, to: Provisioner): Database {
    db.(provisioners := db.provisioners[who := to])
  }

  /** verify_installation_binding. */
  function VerifyBinding(rows: seq<BindingRow>, installation: int): (r: Result<(), BindingError>)
    ensures r.Success? <==> rows == [BindingRow(1, installation)]
  {
    if rows == [] then Failure(MissingInstallationBinding)
    else if |rows| != 1 || rows[0].singleton != 1 then Failure(InvalidInstallationBinding)
    else if rows[0].installation != installation then Failure(InstallationBindingConflict)
    else Success(())
  }

  /** The raw rows belong to more than one installation, or to another one. */
  predicate ForeignFacts(facts: seq<int>, installation: int) {
    exists i :: 0 <= i < |facts| && facts[i] != installation
  }

  predicate Enabled(db: Database, step: Step) {
    match step
    case Look(who, _) => StateOf(db, who).Outside? || StateOf(db, who).Returned?
    case CheckFacts(who) => StateOf(db, who).FoundEmpty?
    case Insert(who, applied, acked) => StateOf(db, who).Inserting? && (acked ==> applied)
    case Verify(who) => StateOf(db, who).Verifying?
    case _ => true
  }

  function Next(db: Database, step: Step): Database
    requires Enabled(db, step)
  {
    match step
    case Look(who, installation) =>
      Goes(db, who, if db.rows != [] then Verifying(installation) else FoundEmpty(installation))
    case CheckFacts(who) =>
      var installation := StateOf(db, who).installation;
      Goes(db, who,
           if ForeignFacts(db.facts, installation) then Returned(installation, Failure(InstallationBindingConflict))
           else Inserting(installation))
    case Insert(who, applied, acked) =>
      var installation := StateOf(db, who).installation;
      var after := if applied && !db.tokenSeen
                   then db.(rows := db.rows + [BindingRow(1, installation)], tokenSeen := true) else db;
      Goes(after, who, if acked then Verifying(installation) else Returned(installation, Failure(ConnectionLost)))
    case Verify(who) =>
      var installation := StateOf(db, who).installation;
      Goes(db, who, Returned(installation, VerifyBinding(db.rows, installation)))
    case Crash(who) => Goes(db, who, Outside)
    case Traffic(facts) => db.(facts := facts)
  }

  /** Still unbound, or bound for good by one row; whoever was told so is bound to that row. */
  ghost predicate BoundOnce(db: Database) {
    && (if db.tokenSeen then |db.rows| == 1 && db.rows[0].singleton == 1 else db.rows == [])
    && forall who :: who in db.provisioners && db.provisioners[who].Returned?
                     && db.provisioners[who].result.Success? ==>
                       db.rows == [BindingRow(1, db.provisioners[who].installation)]
  }

  ghost predicate IsHistory(dbs: seq<Database>, steps: seq<Step>) {
    && |dbs| == |steps| + 1
    && dbs[0].rows == [] && !dbs[0].tokenSeen && dbs[0].provisioners == map[]
    && forall i :: 0 <= i < |steps| ==> Enabled(dbs[i], steps[i]) && dbs[i + 1] == Next(dbs[i], steps[i])
  }

  lemma {:induction false} AlwaysBoundOnce(dbs: seq<Database>, steps: seq<Step>, n: nat)
    requires IsHistory(dbs, steps) && n <= |steps|
    ensures BoundOnce(dbs[n])
  {
    if n > 0 {
      AlwaysBoundOnce(dbs, steps, n - 1);
      assert dbs[n] == Next(dbs[n - 1], steps[n - 1]);
    }
  }

  /** The first row is never joined, changed or removed. */
  lemma {:induction false} BindingIsPermanent(dbs: seq<Database>, steps: seq<Step>, n: nat, m: nat)
    requires IsHistory(dbs, steps) && n <= m <= |steps| && dbs[n].rows != []
    ensures dbs[m].rows == dbs[n].rows
    decreases m
  {
    if n < m {
      BindingIsPermanent(dbs, steps, n, m - 1);
      AlwaysBoundOnce(dbs, steps, m - 1);
      assert dbs[m] == Next(dbs[m - 1], steps[m - 1]);
    }
  }

  /** However the calls interleave, crash and are repeated: two provisioners that were told they succeeded, at
      whatever times, are of the same installation, and from the first success on the table binds it alone. */
  lemma OneInstallationWins(dbs: seq<Database>, steps: seq<Step>, n: nat, m: nat, p: int, q: int)
    requires IsHistory(dbs, steps) && n <= m <= |steps|
    requires StateOf(dbs[n], p).Returned? && StateOf(dbs[n], p).result.Success?
    requires StateOf(dbs[m], q).Returned? && StateOf(dbs[m], q).result.Success?
    ensures StateOf(dbs[n], p).installation == StateOf(dbs[m], q).installation
    ensures dbs[m].rows == [BindingRow(1, StateOf(dbs[n], p).installation)]
  {
    AlwaysBoundOnce(dbs, steps, n);
    AlwaysBoundOnce(dbs, steps, m);
    BindingIsPermanent(dbs, steps, n, m);
  }

  /** A provisioner that verifies is told it failed only when another installation won. */
  lemma LoserLostToAWinner(dbs: seq<Database>, steps: seq<Step>, n: nat, p: int)
    requires IsHistory(dbs, steps) && n < |steps| && steps[n] == Verify(p)
    ensures var s := StateOf(dbs[n + 1], p);
            && s.Returned?
            && (s.result.Failure? ==>
                  && s.result.error == InstallationBindingConflict
                  && |dbs[n].rows| == 1 && dbs[n].rows[0].singleton == 1
                  && dbs[n].rows[0].installation != s.installation)
  {
    AlwaysBoundOnce(dbs, steps, n);
    VerifierSeesARow(dbs, steps, n, p);
    assert dbs[n + 1] == Next(dbs[n], steps[n]);
  }

  /** Nobody verifies before the table is bound. */
  lemma {:induction false} VerifierSeesARow(dbs: seq<Database>, steps: seq<Step>, n: nat, p: int)
    requires IsHistory(dbs, steps) && n <= |steps|
    ensures StateOf(dbs[n], p).Verifying? ==> dbs[n].rows != []
  {
    if n > 0 {
      VerifierSeesARow(dbs, steps, n - 1, p);
      AlwaysBoundOnce(dbs, steps, n - 1);
      assert dbs[n] == Next(dbs[n - 1], steps[n - 1]);
    }
  }
}
