/**
 The tables analytics_admission_policy and analytics_admission_state as the
 transactions of backend/rust/crates/analytics/src/admission.rs update them in
 place. Each method is proved equal to its function in module Admission, and a
 failed transaction leaves every column as it was.
 */
module AdmissionStore {
  import opened Wrappers
  import opened MachineInts
  import opened Admission

  /** The columns that only an exact sample writes. */
  datatype SampleColumns = SampleColumns(
    sampledAt: i64, pendingRows: bigcount, heapBytes: bigcount, indexBytes: bigcount, toastBytes: bigcount,
    relationBytes: bigcount, databaseBytes: bigcount, headroomBytes: i64)

  class AdmissionTable {
    /** The policy row; the columns below belong to the state row, which exists exactly with it. */
    var policy: Option<PolicyRow>
    var installation: int
    var pressure: Pressure
    var generation: nat
    var stateChangedAt: i64
    var sample: SampleColumns
    var oldestPendingCreatedAt: Option<i64>
    var accountedRows: bigcount
    var accountedBytes: bigcount
    var windowStartedAt: i64
    var windowRows: bigcount
    var reason: string

    function State(): StateRow
      reads this
    {
      StateRow(installation, pressure, generation, sample.sampledAt, stateChangedAt,
               sample.pendingRows, oldestPendingCreatedAt, sample.heapBytes, sample.indexBytes, sample.toastBytes,
               sample.relationBytes, sample.databaseBytes, sample.headroomBytes,
               accountedRows, accountedBytes, windowStartedAt, windowRows, reason)
    }

    predicate Unchanged(policyBefore: Option<PolicyRow>, before: StateRow)
      reads this
    {
      policy == policyBefore && State() == before
    }

    /** An empty database. */
    constructor ()
      ensures policy.None?
    {
      policy, pressure, oldestPendingCreatedAt, reason := None, Normal, None, "";
      sample := SampleColumns(0, 0, 0, 0, 0, 0, 0, 0);
      stateChangedAt, accountedRows, accountedBytes, windowStartedAt, windowRows := 0, 0, 0, 0, 0;
    }

    /** The columns that INSERT and the UPDATE of a refresh take from an exact sample. */
    method StoreSample(m: Metrics, now: i64)
      requires m.pendingRows <= I64_MAX && m.heapBytes <= I64_MAX && m.indexBytes <= I64_MAX
      requires m.toastBytes <= I64_MAX && m.relationBytes <= I64_MAX && m.databaseBytes <= I64_MAX
      modifies this`sample, this`oldestPendingCreatedAt, this`accountedRows, this`accountedBytes
      ensures State() == Sampled(old(State()), m, now)
    {
      sample := SampleColumns(now, m.pendingRows, m.heapBytes, m.indexBytes, m.toastBytes, m.relationBytes,
                              m.databaseBytes, m.headroomBytes);
      oldestPendingCreatedAt := m.oldestPendingCreatedAt;
      accountedRows, accountedBytes := m.pendingRows, m.relationBytes;
    }

    /** install_analytics_admission_policy: the first installation samples the backlog and classifies it from
        Normal; a later one changes nothing and succeeds exactly for the stored policy. */
    method InstallPolicy(row: PolicyRow, observed: int, sizes: Sizes, backlog: Backlog, installedAt: i64)
      returns (result: Result<bool, AdmissionError>)
      modifies this
      ensures old(policy).None? ==>
                match Install(row, observed, sizes, backlog, installedAt)
                case Success(s) => result == Success(true) && policy == Some(row) && State() == s
                case Failure(e) => result == Failure(e) && Unchanged(old(policy), old(State()))
      ensures old(policy).Some? ==>
                && Unchanged(old(policy), old(State()))
                && (result.Success? <==>
                    && ValidPolicy(row.policy) && installedAt > 0 && observed == row.installation
                    && old(policy) == Some(row) && old(installation) == row.installation)
                && (result.Success? ==> result.value == false)
    {
      if !ValidPolicy(row.policy) || installedAt <= 0 {
        return Failure(InvalidPolicy);
      }
      if observed != row.installation {
        return Failure(MissingOrMismatchedPolicy);
      }
      if policy.Some? {
        if policy.value != row || installation != row.installation {
          return Failure(MissingOrMismatchedPolicy);
        }
        return Success(false);
      }
      var metrics := ExactMetrics(row.policy.databaseCapacityBytes, sizes, backlog);
      if metrics.Failure? {
        return Failure(metrics.error);
      }
      policy := Some(row);
      StoreSample(metrics.value, installedAt);
      installation, generation, stateChangedAt := row.installation, 0, installedAt;
      pressure := Classify(Normal, row.policy, metrics.value, installedAt);
      windowStartedAt, windowRows, reason := installedAt, 0, "policy_installed";
      return Success(true);
    }

    /** The UPDATE of a refresh. */
    method StoreRefresh(m: Metrics, next: Pressure, why: string, now: i64)
      requires m.pendingRows <= I64_MAX && m.heapBytes <= I64_MAX && m.indexBytes <= I64_MAX
      requires m.toastBytes <= I64_MAX && m.relationBytes <= I64_MAX && m.databaseBytes <= I64_MAX
      modifies this`sample, this`oldestPendingCreatedAt, this`accountedRows, this`accountedBytes, this`pressure,
               this`generation, this`stateChangedAt, this`windowStartedAt, this`windowRows, this`reason
      ensures State() == Sampled(old(State()), m, now).(
                         pressure := next, generation := old(generation) + 1,
                         stateChangedAt := if old(pressure) != next then now else old(stateChangedAt),
                         windowStartedAt := if WindowExpired(old(State()), now) then now else old(windowStartedAt),
                         windowRows := if WindowExpired(old(State()), now) then 0 else old(windowRows),
                         reason := why)
    {
      if SaturateI64(now - windowStartedAt) >= 1 {
        windowStartedAt, windowRows := now, 0;
      }
      if pressure != next {
        stateChangedAt := now;
      }
      pressure, generation, reason := next, generation + 1, why;
      StoreSample(m, now);
    }

    /** refresh_analytics_admission. */
    method RefreshState(sizes: Sizes, backlog: Backlog, now: i64) returns (result: Result<Pressure, AdmissionError>)
      modifies this
      ensures policy == old(policy)
      ensures policy.None? ==> result == Failure(MissingOrMismatchedPolicy) && State() == old(State())
      ensures policy.Some? ==>
                match Refresh(policy.value, old(State()), sizes, backlog, now)
                case Success(s) => result == Success(old(pressure)) && State() == s
                case Failure(e) => result == Failure(e) && State() == old(State())
    {
      if policy.None? || installation != policy.value.installation {
        return Failure(MissingOrMismatchedPolicy);
      }
      if sample.sampledAt > now || stateChangedAt > now || windowStartedAt > now {
        return Failure(InvalidState);
      }
      var p, previous := policy.value.policy, pressure;
      var metrics := ExactMetrics(p.databaseCapacityBytes, sizes, backlog);
      if metrics.Failure? {
        return Failure(metrics.error);
      }
      var next := Classify(previous, p, metrics.value, now);
      StoreRefresh(metrics.value, next, TransitionReason(previous, next, metrics.value, p, now), now);
      return Success(previous);
    }

    /** The UPDATE of a reservation. */
    method Reserve(m: Metrics, next: Pressure, window: i64, admitted: bigcount, now: i64)
      requires m.pendingRows <= I64_MAX && m.relationBytes <= I64_MAX
      modifies this`pressure, this`generation, this`stateChangedAt, this`accountedRows, this`accountedBytes,
               this`oldestPendingCreatedAt, this`windowStartedAt, this`windowRows, this`reason
      ensures State() == old(State()).(
                         pressure := next, generation := old(generation) + 1,
                         stateChangedAt := if old(pressure) != next then now else old(stateChangedAt),
                         accountedRows := m.pendingRows, accountedBytes := m.relationBytes,
                         oldestPendingCreatedAt := m.oldestPendingCreatedAt,
                         windowStartedAt := window, windowRows := admitted,
                         reason := if next == SoftPressure then "producer_admitted_soft_pressure"
                         else "producer_admitted_normal")
    {
      if pressure != next {
        stateChangedAt := now;
      }
      pressure, generation := next, generation + 1;
      accountedRows, accountedBytes := m.pendingRows, m.relationBytes;
      oldestPendingCreatedAt := m.oldestPendingCreatedAt;
      windowStartedAt, windowRows := window, admitted;
      reason := if next == SoftPressure then "producer_admitted_soft_pressure" else "producer_admitted_normal";
    }

    /** admit_analytics_rows: a reservation on the hot path, without a new sample. */
    method AdmitRows(requested: u64, oldestNew: i64, now: i64) returns (result: Result<Pressure, AdmissionError>)
      modifies this
      ensures policy == old(policy)
      ensures policy.None? ==>
                && State() == old(State())
                && result == if requested == 0 then Success(Normal) else Failure(MissingOrMismatchedPolicy)
      ensures policy.Some? ==>
                match Admit(policy.value, old(State()), requested, oldestNew, now)
                case Success(admitted) => result == Success(admitted.1) && State() == admitted.0
                case Failure(e) => result == Failure(e) && State() == old(State())
    {
      if requested == 0 {
        return Success(Normal);
      }
      if policy.None? || installation != policy.value.installation {
        return Failure(MissingOrMismatchedPolicy);
      }
      var p := policy.value.policy;
      if sample.sampledAt > now || stateChangedAt > now || windowStartedAt > now {
        return Failure(InvalidState);
      }
      if SaturateI64(now - sample.sampledAt) > p.staleAfter || pressure == HardStop {
        return Failure(HardStopped);
      }
      var projected := Projected(p, State(), requested, oldestNew);
      if projected.Failure? {
        return Failure(projected.error);
      }
      var m := projected.value;
      var next := Classify(pressure, p, m, now);
      if next == HardStop {
        return Failure(HardStopped);
      }
      var window, admitted := windowStartedAt, windowRows as int;
      if SaturateI64(now - windowStartedAt) >= 1 {
        window, admitted := now, 0;
      }
      if next == SoftPressure {
        admitted := admitted + requested;
        if admitted > U64_MAX {
          return Failure(Overflow);
        }
        if admitted > p.softMaxNewRowsPerSecond {
          return Failure(SoftRateLimited);
        }
      }
      if m.pendingRows > I64_MAX || m.relationBytes > I64_MAX || admitted > I64_MAX {
        return Failure(Overflow);
      }
      Reserve(m, next, window, admitted, now);
      return Success(next);
    }

    /** release_terminal_rows. */
    method ReleaseRows(terminalRows: u64, now: i64) returns (result: Result<(), AdmissionError>)
      modifies this
      ensures policy == old(policy)
      ensures policy.None? ==>
                && State() == old(State())
                && (result.Success? <==> terminalRows == 0)
      ensures policy.Some? ==>
                match Release(old(State()), terminalRows, now)
                case Success(s) => result.Success? && State() == s
                case Failure(e) => result == Failure(e) && State() == old(State())
    {
      if terminalRows == 0 {
        return Success(());
      }
      if terminalRows > I64_MAX {
        return Failure(Overflow);
      }
      if policy.None? || sample.sampledAt > now {
        return Failure(MissingOrMismatchedPolicy);
      }
      generation := generation + 1;
      accountedRows := Max(0, accountedRows - terminalRows);
      reason := "relay_terminal_rows";
      return Success(());
    }
  }
}
