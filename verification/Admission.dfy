/**
 The admission controller of backend/rust/crates/analytics/src/admission.rs as
 functions on the singleton row: hysteresis classification, and the four
 transactions that write the row (install, refresh, admit, release).
 */
module Admission {
  import opened Wrappers
  import opened MachineInts

  /** The machine-bound policy; capacityEvidence is the byte length of the trimmed text. */
  datatype Policy = Policy(
    recoveryPendingRows: u64, softPendingRows: u64, hardPendingRows: u64,
    recoveryRelationBytes: u64, softRelationBytes: u64, hardRelationBytes: u64,
    recoveryOldestAge: u64, softOldestAge: u64, hardOldestAge: u64,
    databaseCapacityBytes: u64,
    hardMinHeadroom: u64, softMinHeadroom: u64, recoveryMinHeadroom: u64,
    eventReservationBytes: u64, softMaxNewRowsPerSecond: u64,
    sampleInterval: u64, staleAfter: u64,
    capacityEvidence: nat)

  datatype Pressure = Normal | SoftPressure | HardStop

  datatype Metrics = Metrics(
    pendingRows: u64, oldestPendingCreatedAt: Option<i64>,
    heapBytes: u64, indexBytes: u64, toastBytes: u64, relationBytes: u64,
    databaseBytes: u64, headroomBytes: i64)

  datatype AdmissionError =
    InvalidPolicy | MissingOrMismatchedPolicy | InvalidState | HardStopped | SoftRateLimited | Overflow

  datatype PolicyRow = PolicyRow(installation: int, policy: Policy)

  /** analytics_admission_state, the singleton row. */
  datatype StateRow = StateRow(
    installation: int, pressure: Pressure, generation: nat, sampledAt: i64, stateChangedAt: i64,
    pendingRows: bigcount, oldestPendingCreatedAt: Option<i64>,
    heapBytes: bigcount, indexBytes: bigcount, toastBytes: bigcount, relationBytes: bigcount,
    databaseBytes: bigcount, headroomBytes: i64,
    accountedRows: bigcount, accountedBytes: bigcount,
    windowStartedAt: i64, windowRows: bigcount, reason: string)

  /** What pg_class and pg_database report when an exact sample is taken. */
  datatype Sizes = Sizes(heap: bigcount, index: bigcount, toast: bigcount, total: bigcount, database: bigcount)

  /** The exact count and minimum over the pending rows of analytics_outbox. */
  datatype Backlog = Backlog(rows: bigcount, oldest: Option<i64>)

  predicate ValidPolicy(p: Policy) {
    && p.recoveryPendingRows < p.softPendingRows < p.hardPendingRows <= I64_MAX
    && p.recoveryRelationBytes < p.softRelationBytes < p.hardRelationBytes <= I64_MAX
    && p.recoveryOldestAge < p.softOldestAge < p.hardOldestAge <= I64_MAX
    && p.hardMinHeadroom < p.softMinHeadroom < p.recoveryMinHeadroom < p.databaseCapacityBytes <= I64_MAX
    && 0 < p.eventReservationBytes <= p.hardRelationBytes
    && 100_000 <= p.softMaxNewRowsPerSecond <= 10_000_000
    && 1 <= p.sampleInterval <= 60
    && p.sampleInterval * 2 <= p.staleAfter <= 600
    && 8 <= p.capacityEvidence <= 1024
  }

  function OldestAge(timestamp: Option<i64>, now: i64): u64 {
    if timestamp.Some? then Max(0, SaturateI64(now - timestamp.value)) else 0
  }

  function Signed(value: u64): i64 {
    Min(value, I64_MAX)
  }

  function SignedHeadroom(capacity: u64, used: u64): i64 {
    SaturateI64(capacity - used)
  }

  predicate IsHard(p: Policy, m: Metrics, now: i64) {
    || m.pendingRows >= p.hardPendingRows
    || m.relationBytes >= p.hardRelationBytes
    || OldestAge(m.oldestPendingCreatedAt, now) >= p.hardOldestAge
    || m.headroomBytes <= Signed(p.hardMinHeadroom)
  }

  predicate IsSoft(p: Policy, m: Metrics, now: i64) {
    || m.pendingRows >= p.softPendingRows
    || m.relationBytes >= p.softRelationBytes
    || OldestAge(m.oldestPendingCreatedAt, now) >= p.softOldestAge
    || m.headroomBytes <= Signed(p.softMinHeadroom)
  }

  predicate IsRecovered(p: Policy, m: Metrics, now: i64) {
    && m.pendingRows <= p.recoveryPendingRows
    && m.relationBytes <= p.recoveryRelationBytes
    && OldestAge(m.oldestPendingCreatedAt, now) <= p.recoveryOldestAge
    && m.headroomBytes >= Signed(p.recoveryMinHeadroom)
  }

  function Classify(current: Pressure, p: Policy, m: Metrics, now: i64): Pressure {
    match current
    case HardStop => if IsRecovered(p, m, now) then Normal else HardStop
    case SoftPressure =>
      if IsHard(p, m, now) then HardStop
      else if IsRecovered(p, m, now) then Normal
      else SoftPressure
    case Normal =>
      if IsHard(p, m, now) then HardStop
      else if IsSoft(p, m, now) then SoftPressure
      else Normal
  }

  function TransitionReason(previous: Pressure, next: Pressure, m: Metrics, p: Policy, now: i64): string {
    if previous != next then
      match next
      case Normal => "hysteresis_recovered"
      case SoftPressure => "soft_threshold_crossed"
      case HardStop => "hard_threshold_crossed"
    else if m.pendingRows >= p.hardPendingRows then "hard_pending_rows"
    else if m.relationBytes >= p.hardRelationBytes then "hard_relation_bytes"
    else if OldestAge(m.oldestPendingCreatedAt, now) >= p.hardOldestAge then "hard_oldest_age"
    else if m.headroomBytes <= Signed(p.hardMinHeadroom) then "hard_capacity_headroom"
    else "exact_sample"
  }

  function ExactMetrics(capacity: u64, sizes: Sizes, backlog: Backlog): Result<Metrics, AdmissionError> {
    if sizes.heap + sizes.index + sizes.toast != sizes.total then Failure(InvalidState)
    else Success(Metrics(
                   backlog.rows, backlog.oldest, sizes.heap, sizes.index, sizes.toast, sizes.total,
                   sizes.database, SignedHeadroom(capacity, sizes.database)))
  }

  predicate TimestampsReached(s: StateRow, now: i64) {
    s.sampledAt <= now && s.stateChangedAt <= now && s.windowStartedAt <= now
  }

  predicate WindowExpired(s: StateRow, now: i64) {
    SaturateI64(now - s.windowStartedAt) >= 1
  }

  /** The part of the row that an exact sample overwrites. */
  function Sampled(s: StateRow, m: Metrics, now: i64): StateRow
    requires m.pendingRows <= I64_MAX && m.heapBytes <= I64_MAX && m.indexBytes <= I64_MAX
    requires m.toastBytes <= I64_MAX && m.relationBytes <= I64_MAX && m.databaseBytes <= I64_MAX
  {
    s.(sampledAt := now, pendingRows := m.pendingRows, oldestPendingCreatedAt := m.oldestPendingCreatedAt,
       heapBytes := m.heapBytes, indexBytes := m.indexBytes, toastBytes := m.toastBytes,
       relationBytes := m.relationBytes, databaseBytes := m.databaseBytes, headroomBytes := m.headroomBytes,
       accountedRows := m.pendingRows, accountedBytes := m.relationBytes)
  }

  /** install_analytics_admission_policy on a database that has no policy yet. */
  function Install(row: PolicyRow, observedInstallation: int, sizes: Sizes, backlog: Backlog, installedAt: i64)
    : Result<StateRow, AdmissionError>
  {
    if !ValidPolicy(row.policy) || installedAt <= 0 then Failure(InvalidPolicy)
    else if observedInstallation != row.installation then Failure(MissingOrMismatchedPolicy)
    else
      var m :- ExactMetrics(row.policy.databaseCapacityBytes, sizes, backlog);
      var pressure := Classify(Normal, row.policy, m, installedAt);
      Success(StateRow(
                row.installation, pressure, 0, installedAt, installedAt,
                m.pendingRows, m.oldestPendingCreatedAt, m.heapBytes, m.indexBytes, m.toastBytes, m.relationBytes,
                m.databaseBytes, m.headroomBytes, m.pendingRows, m.relationBytes,
                installedAt, 0, "policy_installed"))
  }

  /** refresh_analytics_admission. */
  function Refresh(row: PolicyRow, s: StateRow, sizes: Sizes, backlog: Backlog, now: i64)
    : Result<StateRow, AdmissionError>
  {
    if s.installation != row.installation then Failure(MissingOrMismatchedPolicy)
    else if !TimestampsReached(s, now) then Failure(InvalidState)
    else
      var m :- ExactMetrics(row.policy.databaseCapacityBytes, sizes, backlog);
      var next := Classify(s.pressure, row.policy, m, now);
      Success(Sampled(s, m, now).(
              pressure := next, generation := s.generation + 1,
              stateChangedAt := if s.pressure != next then now else s.stateChangedAt,
              windowStartedAt := if WindowExpired(s, now) then now else s.windowStartedAt,
              windowRows := if WindowExpired(s, now) then 0 else s.windowRows,
              reason := TransitionReason(s.pressure, next, m, row.policy, now)))
  }

  /** The metrics the hot path would see once `requested` more rows are reserved. */
  function Projected(p: Policy, s: StateRow, requested: u64, oldestNew: i64): Result<Metrics, AdmissionError> {
    var reserved := CheckedMul(requested, p.eventReservationBytes);
    if reserved.None? then Failure(Overflow) else
    var rows := CheckedAdd(s.accountedRows, requested);
    var relation := CheckedAdd(s.accountedBytes, reserved.value);
    var database := CheckedAdd(s.databaseBytes, reserved.value);
    if rows.None? || relation.None? || database.None? then Failure(Overflow)
    else
      var oldest := if s.oldestPendingCreatedAt.Some? then Min(s.oldestPendingCreatedAt.value, oldestNew)
                    else oldestNew;
      Success(Metrics(
                rows.value, Some(oldest), s.heapBytes, s.indexBytes, s.toastBytes, relation.value,
                database.value, SignedHeadroom(p.databaseCapacityBytes, database.value)))
  }

  /** admit_analytics_rows: the row after the reservation and the pressure it was admitted under. */
  function Admit(row: PolicyRow, s: StateRow, requested: u64, oldestNew: i64, now: i64)
    : (r: Result<(StateRow, Pressure), AdmissionError>)
  {
    var p := row.policy;
    if requested == 0 then Success((s, Normal))
    else if s.installation != row.installation then Failure(MissingOrMismatchedPolicy)
    else if !TimestampsReached(s, now) then Failure(InvalidState)
    else if SaturateI64(now - s.sampledAt) > p.staleAfter || s.pressure == HardStop then Failure(HardStopped)
    else
      var m :- Projected(p, s, requested, oldestNew);
      var next := Classify(s.pressure, p, m, now);
      if next == HardStop then Failure(HardStopped)
      else
        var carried := if WindowExpired(s, now) then 0 else s.windowRows;
        var admitted := if next == SoftPressure then carried + requested else carried;
        if next == SoftPressure && admitted > p.softMaxNewRowsPerSecond then
          Failure(if admitted > U64_MAX then Overflow else SoftRateLimited)
        else if m.pendingRows > I64_MAX || m.relationBytes > I64_MAX || admitted > I64_MAX then Failure(Overflow)
        else
          Success((s.(pressure := next, generation := s.generation + 1,
                   stateChangedAt := if s.pressure != next then now else s.stateChangedAt,
                   accountedRows := m.pendingRows, accountedBytes := m.relationBytes,
                   oldestPendingCreatedAt := m.oldestPendingCreatedAt,
                   windowStartedAt := if WindowExpired(s, now) then now else s.windowStartedAt,
                   windowRows := admitted,
                   reason := if next == SoftPressure then "producer_admitted_soft_pressure"
                   else "producer_admitted_normal"), next))
  }

  /** release_terminal_rows. */
  function Release(s: StateRow, terminalRows: u64, now: i64): Result<StateRow, AdmissionError> {
    if terminalRows == 0 then Success(s)
    else if terminalRows > I64_MAX then Failure(Overflow)
    else if s.sampledAt > now then Failure(MissingOrMismatchedPolicy)
    else Success(s.(generation := s.generation + 1,
                 accountedRows := Max(0, s.accountedRows - terminalRows),
                 reason := "relay_terminal_rows"))
  }
}
