/**
 What the admission controller promises over whole histories: hysteresis is a
 statement about the past, admission is downward closed and may be split, the
 soft window limits every database second, and reservations made between two
 exact samples stay below the hard relation size.
 */
module AdmissionLaws {
  import opened Wrappers
  import opened MachineInts
  import opened Admission

  // ---- Hysteresis equals history ------------------------------------------------------

  datatype Sample = Sample(metrics: Metrics, now: i64)

  /** Classifies the samples one after the other, starting in Normal. */
  function FoldClassify(p: Policy, samples: seq<Sample>): Pressure {
    if samples == [] then Normal
    else
      var last := samples[|samples| - 1];
      Classify(FoldClassify(p, samples[..|samples| - 1]), p, last.metrics, last.now)
  }

  predicate HardAt(p: Policy, s: Sample) {
    IsHard(p, s.metrics, s.now)
  }

  predicate SoftAt(p: Policy, s: Sample) {
    IsSoft(p, s.metrics, s.now)
  }

  predicate RecoveredAt(p: Policy, s: Sample) {
    IsRecovered(p, s.metrics, s.now)
  }

  ghost predicate NotRecoveredAfter(p: Policy, samples: seq<Sample>, i: int)
    requires 0 <= i < |samples|
  {
    forall j :: i < j < |samples| ==> !RecoveredAt(p, samples[j])
  }

  ghost predicate HardSinceRecovery(p: Policy, samples: seq<Sample>) {
    exists i :: 0 <= i < |samples| && HardAt(p, samples[i]) && NotRecoveredAfter(p, samples, i)
  }

  ghost predicate SoftSinceRecovery(p: Policy, samples: seq<Sample>) {
    exists i :: 0 <= i < |samples| && SoftAt(p, samples[i]) && NotRecoveredAfter(p, samples, i)
  }

  /** Appending a sample keeps exactly the old witnesses, unless it is a recovered one. */
  lemma SinceRecoverySteps(p: Policy, earlier: seq<Sample>, last: Sample)
    requires ValidPolicy(p)
    ensures HardSinceRecovery(p, earlier + [last]) <==>
            HardAt(p, last) || (!RecoveredAt(p, last) && HardSinceRecovery(p, earlier))
    ensures SoftSinceRecovery(p, earlier + [last]) <==>
            SoftAt(p, last) || (!RecoveredAt(p, last) && SoftSinceRecovery(p, earlier))
  {
    var all := earlier + [last];
    assert NotRecoveredAfter(p, all, |earlier|) && all[|earlier|] == last;
    assert forall i :: 0 <= i < |earlier| ==> all[i] == earlier[i];
    forall i | 0 <= i < |earlier|
      ensures NotRecoveredAfter(p, all, i) <==> NotRecoveredAfter(p, earlier, i) && !RecoveredAt(p, last)
    {
    }
  }

  lemma {:induction false} HysteresisIsHistory(p: Policy, samples: seq<Sample>)
    requires ValidPolicy(p)
    ensures FoldClassify(p, samples) == HardStop <==> HardSinceRecovery(p, samples)
    ensures FoldClassify(p, samples) == SoftPressure <==>
            SoftSinceRecovery(p, samples) && !HardSinceRecovery(p, samples)
  {
    if samples != [] {
      var earlier, last := samples[..|samples| - 1], samples[|samples| - 1];
      HysteresisIsHistory(p, earlier);
      SinceRecoverySteps(p, earlier, last);
      assert earlier + [last] == samples;
    }
  }

  // ---- Monotonicity, and splitting a request ------------------------------------------

  function Severity(s: Pressure): nat {
    match s
    case Normal => 0
    case SoftPressure => 1
    case HardStop => 2
  }

  /** m is no worse than n in every measured dimension. */
  predicate NoWorse(m: Metrics, n: Metrics, now: i64) {
    && m.pendingRows <= n.pendingRows
    && m.relationBytes <= n.relationBytes
    && OldestAge(m.oldestPendingCreatedAt, now) <= OldestAge(n.oldestPendingCreatedAt, now)
    && m.headroomBytes >= n.headroomBytes
  }

  lemma ClassifyIsMonotone(p: Policy, c: Pressure, d: Pressure, m: Metrics, n: Metrics, now: i64)
    requires ValidPolicy(p)
    requires Severity(c) <= Severity(d) && NoWorse(m, n, now)
    ensures Severity(Classify(c, p, m, now)) <= Severity(Classify(d, p, n, now))
  {
    assert IsHard(p, m, now) ==> IsHard(p, n, now);
    assert IsSoft(p, m, now) ==> IsSoft(p, n, now);
    assert IsRecovered(p, n, now) ==> IsRecovered(p, m, now) && !IsSoft(p, m, now);
  }

  /** Reserving fewer rows projects metrics that are no worse, and never overflows when more rows did not. */
  lemma SmallerRequestProjectsLess(p: Policy, s: StateRow, few: u64, many: u64, oldestNew: i64, now: i64)
    requires few <= many && Projected(p, s, many, oldestNew).Success?
    ensures Projected(p, s, few, oldestNew).Success?
    ensures NoWorse(Projected(p, s, few, oldestNew).value, Projected(p, s, many, oldestNew).value, now)
  {
    ReservedBytesGrow(few, many, p.eventReservationBytes);
    var less, more := Projected(p, s, few, oldestNew).value, Projected(p, s, many, oldestNew).value;
    assert less.oldestPendingCreatedAt == more.oldestPendingCreatedAt;
    assert less.databaseBytes <= more.databaseBytes;
  }

  lemma ReservedBytesGrow(few: u64, many: u64, r: u64)
    requires few <= many && CheckedMul(many, r).Some?
    ensures CheckedMul(few, r).Some? && CheckedMul(few, r).value <= CheckedMul(many, r).value
  {
    assert few * r <= many * r;
  }

  lemma AdmissionIsDownwardClosed(row: PolicyRow, s: StateRow, few: u64, many: u64, oldestNew: i64, now: i64)
    requires ValidPolicy(row.policy)
    requires few <= many && Admit(row, s, many, oldestNew, now).Success?
    ensures Admit(row, s, few, oldestNew, now).Success?
    ensures Severity(Admit(row, s, few, oldestNew, now).value.1)
         <= Severity(Admit(row, s, many, oldestNew, now).value.1)
  {
    if few > 0 {
      SmallerRequestProjectsLess(row.policy, s, few, many, oldestNew, now);
      ClassifyIsMonotone(row.policy, s.pressure, s.pressure,
                         Projected(row.policy, s, few, oldestNew).value,
                         Projected(row.policy, s, many, oldestNew).value, now);
    }
  }

  lemma BytesOfHalves(a: nat, b: nat, r: u64)
    ensures (a + b) * r == a * r + b * r && a * r >= 0 && b * r >= 0
  {
  }

  /** Reserving a rows and then b rows projects the totals of reserving a + b at once. */
  lemma SecondReservationReachesTheSameTotals(row: PolicyRow, s: StateRow, a: u64, b: u64, oldestNew: i64, now: i64)
    requires 0 < a && 0 < b && a + b <= U64_MAX
    requires Projected(row.policy, s, a + b, oldestNew).Success?
    requires Admit(row, s, a, oldestNew, now).Success?
    ensures var s1 := Admit(row, s, a, oldestNew, now).value.0;
            var whole := Projected(row.policy, s, a + b, oldestNew).value;
            && Projected(row.policy, s1, b, oldestNew).Success?
            && var second := Projected(row.policy, s1, b, oldestNew).value;
            && NoWorse(second, whole, now)
            && second.pendingRows == whole.pendingRows
            && second.relationBytes == whole.relationBytes
            && second.oldestPendingCreatedAt == whole.oldestPendingCreatedAt
  {
    BytesOfHalves(a, b, row.policy.eventReservationBytes);
  }

  /** What decides a reservation once the request is not empty and the sample is fresh. */
  ghost predicate Admitted(row: PolicyRow, s: StateRow, requested: u64, oldestNew: i64, now: i64) {
    && requested > 0
    && s.installation == row.installation && TimestampsReached(s, now)
    && SaturateI64(now - s.sampledAt) <= row.policy.staleAfter && s.pressure != HardStop
    && Projected(row.policy, s, requested, oldestNew).Success?
    && var m := Projected(row.policy, s, requested, oldestNew).value;
    var next := Classify(s.pressure, row.policy, m, now);
    var carried := if WindowExpired(s, now) then 0 else s.windowRows;
    && next != HardStop
    && (next == SoftPressure ==> carried + requested <= row.policy.softMaxNewRowsPerSecond)
    && m.pendingRows <= I64_MAX && m.relationBytes <= I64_MAX
  }

  /** Admit succeeds exactly under these conditions, and reserves the projected totals. */
  lemma AdmitsIff(row: PolicyRow, s: StateRow, requested: u64, oldestNew: i64, now: i64)
    requires ValidPolicy(row.policy) && requested > 0
    ensures Admit(row, s, requested, oldestNew, now).Success? <==> Admitted(row, s, requested, oldestNew, now)
    ensures Admitted(row, s, requested, oldestNew, now) ==>
              var (t, next) := Admit(row, s, requested, oldestNew, now).value;
              var m := Projected(row.policy, s, requested, oldestNew).value;
              && next == Classify(s.pressure, row.policy, m, now) && t.pressure == next
              && t.accountedRows == m.pendingRows && t.accountedBytes == m.relationBytes
              && t.oldestPendingCreatedAt == m.oldestPendingCreatedAt
              && t.windowStartedAt == (if WindowExpired(s, now) then now else s.windowStartedAt)
              && t.windowRows
                 == (if WindowExpired(s, now) then 0 else s.windowRows)
                    + (if next == SoftPressure then requested else 0)
              && t.installation == s.installation && t.sampledAt == s.sampledAt && TimestampsReached(t, now)
  {
  }

  lemma SecondHalfIsAdmitted(row: PolicyRow, s: StateRow, a: u64, b: u64, oldestNew: i64, now: i64)
    requires ValidPolicy(row.policy)
    requires 0 < a && 0 < b && a + b <= U64_MAX
    requires Admitted(row, s, a + b, oldestNew, now) && Admitted(row, s, a, oldestNew, now)
    ensures Admit(row, s, a, oldestNew, now).Success?
    ensures var (s1, middle) := Admit(row, s, a, oldestNew, now).value;
            var whole := Projected(row.policy, s, a + b, oldestNew).value;
            && Admitted(row, s1, b, oldestNew, now)
            && var second := Projected(row.policy, s1, b, oldestNew).value;
            && Severity(middle) <= Severity(Classify(s.pressure, row.policy, whole, now))
            && Severity(Classify(middle, row.policy, second, now))
               <= Severity(Classify(s.pressure, row.policy, whole, now))
  {
    AdmitsIff(row, s, a + b, oldestNew, now);
    AdmitsIff(row, s, a, oldestNew, now);
    SecondReservationReachesTheSameTotals(row, s, a, b, oldestNew, now);
    SmallerRequestProjectsLess(row.policy, s, a, a + b, oldestNew, now);
    var s1 := Admit(row, s, a, oldestNew, now).value.0;
    SplitPressure(row.policy, s.pressure, Projected(row.policy, s, a, oldestNew).value,
                  Projected(row.policy, s1, b, oldestNew).value, Projected(row.policy, s, a + b, oldestNew).value, now);
    assert WindowExpired(s, now) ==> !WindowExpired(s1, now);
  }

  /** One request of a + b rows may be sent as two: the split is admitted and accounts the same totals. */
  lemma AdmissionIsSplitSafe(row: PolicyRow, s: StateRow, a: u64, b: u64, oldestNew: i64, now: i64)
    requires ValidPolicy(row.policy)
    requires 0 < a && 0 < b && a + b <= U64_MAX
    requires Admit(row, s, a + b, oldestNew, now).Success?
    ensures Admit(row, s, a, oldestNew, now).Success?
    ensures var s1 := Admit(row, s, a, oldestNew, now).value.0;
            && Admit(row, s1, b, oldestNew, now).Success?
            && var split := Admit(row, s1, b, oldestNew, now).value.0;
            var whole := Admit(row, s, a + b, oldestNew, now).value.0;
            && split.accountedRows == whole.accountedRows
            && split.accountedBytes == whole.accountedBytes
            && split.oldestPendingCreatedAt == whole.oldestPendingCreatedAt
            && split.windowStartedAt == whole.windowStartedAt
            && split.windowRows <= whole.windowRows
            && Severity(split.pressure) <= Severity(whole.pressure)
  {
    AdmissionIsDownwardClosed(row, s, a, a + b, oldestNew, now);
    AdmitsIff(row, s, a + b, oldestNew, now);
    AdmitsIff(row, s, a, oldestNew, now);
    SecondHalfIsAdmitted(row, s, a, b, oldestNew, now);
    SecondReservationReachesTheSameTotals(row, s, a, b, oldestNew, now);
    var s1 := Admit(row, s, a, oldestNew, now).value.0;
    AdmitsIff(row, s1, b, oldestNew, now);
    assert WindowExpired(s, now) ==> !WindowExpired(s1, now);
  }

  /** The pressure of the second half is no worse than that of the whole request. */
  lemma SplitPressure(p: Policy, current: Pressure, firstHalf: Metrics, second: Metrics, whole: Metrics, now: i64)
    requires ValidPolicy(p) && current != HardStop
    requires NoWorse(firstHalf, whole, now) && NoWorse(second, whole, now)
    requires Classify(current, p, whole, now) != HardStop
    ensures var middle := Classify(current, p, firstHalf, now);
            && middle != HardStop
            && Severity(middle) <= Severity(Classify(current, p, whole, now))
            && Severity(Classify(middle, p, second, now)) <= Severity(Classify(current, p, whole, now))
  {
    ClassifyIsMonotone(p, current, current, firstHalf, whole, now);
    var middle := Classify(current, p, firstHalf, now);
    ClassifyIsMonotone(p, middle, Classify(current, p, whole, now), second, whole, now);
    assert !IsHard(p, whole, now);
    assert Classify(Normal, p, whole, now) == Normal ==> !IsSoft(p, whole, now);
  }

  // ---- Histories of the singleton row --------------------------------------------------

  datatype Op =
    | OpAdmit(requested: u64, oldestNew: i64, admittedAt: i64)
    | OpRefresh(sizes: Sizes, backlog: Backlog, refreshedAt: i64)
    | OpRelease(terminalRows: u64, releasedAt: i64)

  /** One successful reservation: the database second it used and the pressure it was admitted under. */
  datatype Reservation = Reservation(second: i64, rows: nat, pressure: Pressure)

  /** The row, every reservation so far, the rows reserved since the last exact sample, and all metrics that committed
      transactions classified: exact ones, or those projected for a reservation. */
  datatype History = History(row: StateRow, reservations: seq<Reservation>, sinceSample: nat, samples: seq<Sample>)

  /** The row as it was installed. */
  function Installed(policy: PolicyRow, observed: int, sizes: Sizes, backlog: Backlog, installedAt: i64): History
    requires Install(policy, observed, sizes, backlog, installedAt).Success?
  {
    var exact := ExactMetrics(policy.policy.databaseCapacityBytes, sizes, backlog).value;
    History(Install(policy, observed, sizes, backlog, installedAt).value, [], 0, [Sample(exact, installedAt)])
  }

  /** A failing transaction rolls back and leaves the row as it was. */
  function Apply(policy: PolicyRow, h: History, op: Op): History {
    match op
    case OpAdmit(requested, oldestNew, now) =>
      var r := Admit(policy, h.row, requested, oldestNew, now);
      if r.Failure? || requested == 0 then h
      else
        var projected := Projected(policy.policy, h.row, requested, oldestNew).value;
        History(r.value.0, h.reservations + [Reservation(now, requested, r.value.1)], h.sinceSample + requested,
                h.samples + [Sample(projected, now)])
    case OpRefresh(sizes, backlog, now) =>
      var r := Refresh(policy, h.row, sizes, backlog, now);
      if r.Failure? then h
      else
        var exact := ExactMetrics(policy.policy.databaseCapacityBytes, sizes, backlog).value;
        History(r.value, h.reservations, 0, h.samples + [Sample(exact, now)])
    case OpRelease(terminalRows, now) =>
      var r := Release(h.row, terminalRows, now);
      if r.Failure? then h else h.(row := r.value)
  }

  function Run(policy: PolicyRow, h: History, ops: seq<Op>): History
    decreases |ops|
  {
    if ops == [] then h else Run(policy, Apply(policy, h, ops[0]), ops[1..])
  }

  // ---- The stored pressure is the history of the samples ----------------------------------

  ghost predicate PressureInvariant(policy: PolicyRow, h: History) {
    h.row.pressure == FoldClassify(policy.policy, h.samples)
  }

  lemma ClassifyNext(p: Policy, samples: seq<Sample>, s: Sample)
    ensures FoldClassify(p, samples + [s]) == Classify(FoldClassify(p, samples), p, s.metrics, s.now)
  {
    assert (samples + [s])[..|samples|] == samples;
  }

  lemma AdmitClassifies(policy: PolicyRow, s: StateRow, requested: u64, oldestNew: i64, now: i64)
    requires requested > 0 && Admit(policy, s, requested, oldestNew, now).Success?
    ensures Projected(policy.policy, s, requested, oldestNew).Success?
    ensures Admit(policy, s, requested, oldestNew, now).value.0.pressure
         == Classify(s.pressure, policy.policy, Projected(policy.policy, s, requested, oldestNew).value, now)
  {
  }

  lemma RefreshClassifies(policy: PolicyRow, s: StateRow, sizes: Sizes, backlog: Backlog, now: i64)
    requires Refresh(policy, s, sizes, backlog, now).Success?
    ensures ExactMetrics(policy.policy.databaseCapacityBytes, sizes, backlog).Success?
    ensures var exact := ExactMetrics(policy.policy.databaseCapacityBytes, sizes, backlog).value;
            Refresh(policy, s, sizes, backlog, now).value.pressure == Classify(s.pressure, policy.policy, exact, now)
  {
  }

  lemma ApplyKeepsPressure(policy: PolicyRow, h: History, op: Op)
    requires PressureInvariant(policy, h)
    ensures PressureInvariant(policy, Apply(policy, h, op))
  {
    match op
    case OpAdmit(requested, oldestNew, now) =>
      if requested > 0 && Admit(policy, h.row, requested, oldestNew, now).Success? {
        AdmitClassifies(policy, h.row, requested, oldestNew, now);
        var projected := Projected(policy.policy, h.row, requested, oldestNew).value;
        ClassifyNext(policy.policy, h.samples, Sample(projected, now));
      }
    case OpRefresh(sizes, backlog, now) =>
      if Refresh(policy, h.row, sizes, backlog, now).Success? {
        RefreshClassifies(policy, h.row, sizes, backlog, now);
        var exact := ExactMetrics(policy.policy.databaseCapacityBytes, sizes, backlog).value;
        ClassifyNext(policy.policy, h.samples, Sample(exact, now));
      }
    case OpRelease(terminalRows, now) =>
  }

  lemma {:induction false} RunKeepsPressure(policy: PolicyRow, h: History, ops: seq<Op>)
    requires PressureInvariant(policy, h)
    ensures PressureInvariant(policy, Run(policy, h, ops))
    decreases |ops|
  {
    if ops != [] {
      ApplyKeepsPressure(policy, h, ops[0]);
      RunKeepsPressure(policy, Apply(policy, h, ops[0]), ops[1..]);
    }
  }

  lemma InstalledIsClassified(policy: PolicyRow, observed: int, sizes: Sizes, backlog: Backlog, installedAt: i64)
    requires Install(policy, observed, sizes, backlog, installedAt).Success?
    ensures PressureInvariant(policy, Installed(policy, observed, sizes, backlog, installedAt))
  {
    var first := Installed(policy, observed, sizes, backlog, installedAt).samples[0];
    ClassifyNext(policy.policy, [], first);
    assert [] + [first] == [first];
  }

  /** After any history of the row, its stored pressure says what the committed samples, the first one that of the
      installation, have been since the last recovered one. */
  lemma StoredPressureIsHistory(
    policy: PolicyRow, observed: int, sizes: Sizes, backlog: Backlog, installedAt: i64, ops: seq<Op>)
    requires Install(policy, observed, sizes, backlog, installedAt).Success?
    ensures var h := Run(policy, Installed(policy, observed, sizes, backlog, installedAt), ops);
            && (h.row.pressure == HardStop <==> HardSinceRecovery(policy.policy, h.samples))
            && (h.row.pressure == SoftPressure <==>
                SoftSinceRecovery(policy.policy, h.samples) && !HardSinceRecovery(policy.policy, h.samples))
  {
    var start := Installed(policy, observed, sizes, backlog, installedAt);
    InstalledIsClassified(policy, observed, sizes, backlog, installedAt);
    RunKeepsPressure(policy, start, ops);
    HysteresisIsHistory(policy.policy, Run(policy, start, ops).samples);
  }

  // ---- The soft rate ----------------------------------------------------------------------

  /** Rows admitted under SoftPressure with the given database second. */
  function SoftRowsIn(reservations: seq<Reservation>, second: i64): nat {
    if reservations == [] then 0
    else
      var last := reservations[|reservations| - 1];
      SoftRowsIn(reservations[..|reservations| - 1], second)
      + if last.second == second && last.pressure == SoftPressure then last.rows else 0
  }

  lemma SoftRowsInAppend(reservations: seq<Reservation>, last: Reservation, second: i64)
    ensures SoftRowsIn(reservations + [last], second)
         == SoftRowsIn(reservations, second)
            + if last.second == second && last.pressure == SoftPressure then last.rows else 0
  {
    assert (reservations + [last])[..|reservations|] == reservations;
  }

  ghost predicate WindowInvariant(policy: PolicyRow, h: History) {
    && h.row.windowStartedAt > 0
    && h.row.windowRows <= policy.policy.softMaxNewRowsPerSecond
    && (forall t: i64 :: SoftRowsIn(h.reservations, t) <= policy.policy.softMaxNewRowsPerSecond)
    && SoftRowsIn(h.reservations, h.row.windowStartedAt) <= h.row.windowRows
    && (forall t: i64 :: t > h.row.windowStartedAt ==> SoftRowsIn(h.reservations, t) == 0)
  }

  /** A window covers one database second, and within it only soft reservations are counted. */
  lemma AdmitMovesWindow(policy: PolicyRow, s: StateRow, requested: u64, oldestNew: i64, now: i64)
    requires s.windowStartedAt > 0 && s.windowRows <= policy.policy.softMaxNewRowsPerSecond
    requires requested > 0 && Admit(policy, s, requested, oldestNew, now).Success?
    ensures var (row, pressure) := Admit(policy, s, requested, oldestNew, now).value;
            && s.windowStartedAt <= now && row.windowStartedAt == now
            && row.windowRows == (if s.windowStartedAt < now then 0 else s.windowRows)
                                 + (if pressure == SoftPressure then requested else 0)
            && row.windowRows <= policy.policy.softMaxNewRowsPerSecond
  {
  }

  lemma AdmitKeepsWindow(policy: PolicyRow, h: History, requested: u64, oldestNew: i64, now: i64)
    requires WindowInvariant(policy, h)
    requires requested > 0 && Admit(policy, h.row, requested, oldestNew, now).Success?
    ensures WindowInvariant(policy, Apply(policy, h, OpAdmit(requested, oldestNew, now)))
  {
    AdmitMovesWindow(policy, h.row, requested, oldestNew, now);
    var (row, pressure) := Admit(policy, h.row, requested, oldestNew, now).value;
    var last := Reservation(now, requested, pressure);
    forall t: i64 {
      SoftRowsInAppend(h.reservations, last, t);
    }
  }

  lemma ApplyKeepsWindow(policy: PolicyRow, h: History, op: Op)
    requires ValidPolicy(policy.policy) && WindowInvariant(policy, h)
    ensures WindowInvariant(policy, Apply(policy, h, op))
  {
    if op.OpAdmit? && op.requested > 0 && Admit(policy, h.row, op.requested, op.oldestNew, op.admittedAt).Success? {
      AdmitKeepsWindow(policy, h, op.requested, op.oldestNew, op.admittedAt);
    }
  }

  lemma {:induction false} RunKeepsWindow(policy: PolicyRow, h: History, ops: seq<Op>)
    requires ValidPolicy(policy.policy) && WindowInvariant(policy, h)
    ensures WindowInvariant(policy, Run(policy, h, ops))
    decreases |ops|
  {
    if ops != [] {
      ApplyKeepsWindow(policy, h, ops[0]);
      RunKeepsWindow(policy, Apply(policy, h, ops[0]), ops[1..]);
    }
  }

  /** Over any interleaving with arbitrary clock readings, no database second admits more soft rows than the policy
      allows. */
  lemma SoftRateHoldsInEverySecond(
    policy: PolicyRow, observed: int, sizes: Sizes, backlog: Backlog, installedAt: i64, ops: seq<Op>, second: i64)
    requires Install(policy, observed, sizes, backlog, installedAt).Success?
    ensures var start := Installed(policy, observed, sizes, backlog, installedAt);
            SoftRowsIn(Run(policy, start, ops).reservations, second) <= policy.policy.softMaxNewRowsPerSecond
  {
    RunKeepsWindow(policy, Installed(policy, observed, sizes, backlog, installedAt), ops);
  }

  // ---- Bytes reserved between two exact samples ----------------------------------------

  ghost predicate BytesInvariant(policy: PolicyRow, h: History) {
    && h.row.accountedBytes == h.row.relationBytes + h.sinceSample * policy.policy.eventReservationBytes
    && (h.sinceSample > 0 ==> h.row.accountedBytes < policy.policy.hardRelationBytes)
  }

  /** A reservation adds its bytes to the account and stays below the hard relation size. */
  lemma AdmitReservesBytes(policy: PolicyRow, s: StateRow, requested: u64, oldestNew: i64, now: i64)
    requires ValidPolicy(policy.policy) && requested > 0 && Admit(policy, s, requested, oldestNew, now).Success?
    ensures var t := Admit(policy, s, requested, oldestNew, now).value.0;
            && t.relationBytes == s.relationBytes
            && t.accountedBytes == s.accountedBytes + requested * policy.policy.eventReservationBytes
            && t.accountedBytes < policy.policy.hardRelationBytes
  {
  }

  /** An exact sample makes the account the size of the relation. */
  lemma RefreshResetsBytes(policy: PolicyRow, s: StateRow, sizes: Sizes, backlog: Backlog, now: i64)
    requires Refresh(policy, s, sizes, backlog, now).Success?
    ensures var t := Refresh(policy, s, sizes, backlog, now).value; t.accountedBytes == t.relationBytes
  {
  }

  lemma ApplyKeepsBytes(policy: PolicyRow, h: History, op: Op)
    requires ValidPolicy(policy.policy) && BytesInvariant(policy, h)
    ensures BytesInvariant(policy, Apply(policy, h, op))
  {
    match op
    case OpAdmit(requested, oldestNew, now) =>
      if requested > 0 && Admit(policy, h.row, requested, oldestNew, now).Success? {
        AdmitReservesBytes(policy, h.row, requested, oldestNew, now);
        BytesOfHalves(h.sinceSample, requested, policy.policy.eventReservationBytes);
      }
    case OpRefresh(sizes, backlog, now) =>
      if Refresh(policy, h.row, sizes, backlog, now).Success? {
        RefreshResetsBytes(policy, h.row, sizes, backlog, now);
      }
    case OpRelease(terminalRows, now) =>
  }

  lemma {:induction false} RunKeepsBytes(policy: PolicyRow, h: History, ops: seq<Op>)
    requires ValidPolicy(policy.policy) && BytesInvariant(policy, h)
    ensures BytesInvariant(policy, Run(policy, h, ops))
    decreases |ops|
  {
    if ops != [] {
      ApplyKeepsBytes(policy, h, ops[0]);
      RunKeepsBytes(policy, Apply(policy, h, ops[0]), ops[1..]);
    }
  }

  /** Whatever was admitted since the last sample still fits below the hard relation size. */
  lemma ReservationsFitBetweenSamples(
    policy: PolicyRow, observed: int, sizes: Sizes, backlog: Backlog, installedAt: i64, ops: seq<Op>)
    requires Install(policy, observed, sizes, backlog, installedAt).Success?
    ensures var h := Run(policy, Installed(policy, observed, sizes, backlog, installedAt), ops);
            h.sinceSample > 0 ==>
              h.row.relationBytes + h.sinceSample * policy.policy.eventReservationBytes
              < policy.policy.hardRelationBytes
  {
    var start := Installed(policy, observed, sizes, backlog, installedAt);
    assert BytesInvariant(policy, start);
    RunKeepsBytes(policy, start, ops);
  }

  // ---- The database trigger never fires --------------------------------------------------

  /** guard_analytics_admission_state: what the trigger demands of an UPDATE. */
  predicate TriggerAccepts(before: StateRow, after: StateRow) {
    && after.installation == before.installation
    && after.generation == before.generation + 1
    && after.sampledAt >= before.sampledAt
    && after.stateChangedAt >= before.stateChangedAt
  }

  /** Every update the controller issues is one the trigger accepts, whatever clock value it read. */
  lemma TriggerNeverRejects(policy: PolicyRow, h: History, op: Op)
    ensures var after := Apply(policy, h, op).row;
            after == h.row || TriggerAccepts(h.row, after)
  {
  }

  /** A valid policy keeps every total below its limits, so that a request overflows only if the bytes it reserves
      and the stored size, of the account or of the database, leave u64 together. */
  lemma AdmitNeverOverflowsAfterClassification(policy: PolicyRow, s: StateRow, requested: u64, oldestNew: i64, now: i64)
    requires ValidPolicy(policy.policy) && requested <= I64_MAX
    requires s.windowRows <= policy.policy.softMaxNewRowsPerSecond
    requires Admit(policy, s, requested, oldestNew, now) == Failure(Overflow)
    ensures requested * policy.policy.eventReservationBytes + Max(s.accountedBytes, s.databaseBytes) > U64_MAX
  {
  }
}
