/**
 The typed ClickHouse rows of backend/rust/crates/analytics/src/projection.rs
 and the builders reported_row and accounted_row. The two raw tables share one
 row type whose accounting part is present only in traffic_accounted.
 */
module TrafficRows {
  import opened Wrappers
  import opened MachineInts
  import opened Numerals
  import opened Calendar
  import opened Events

  datatype Kind = Reported | Accounted

  datatype Accounting = Accounting(accountedAt: i64, outcome: AccountedOutcome, uAfter: Option<u64>,
                                   dAfter: Option<u64>)

  datatype TrafficRow = TrafficRow(
    eventId: EventId, schemaMajor: int, installation: int, reportKey: string, payloadHash: string,
    identityKind: IdentityKind, userId: u64, trafficEpoch: u64, serverId: u64, serverType: string,
    rateText: string, rateCents: int, rawU: u64, rawD: u64, chargedU: u64, chargedD: u64,
    acceptedAt: i64, accountingDate: Date, accountingTimezone: string, accounting: Option<Accounting>,
    batchId: int, rowNumber: nat, outboxPayloadHash: PayloadHash, ingestedAt: i64)

  /** One row of a claimed batch. */
  datatype OutboxRecord = OutboxRecord(outboxId: int, rowNumber: nat, event: AnalyticsEvent)

  /** What a claim hands to the relay: the frozen manifest plus this claim's lease. */
  datatype Manifest = Manifest(
    eventName: string, schemaMajor: int, partitionMonth: Date, createdAt: i64, records: seq<OutboxRecord>)

  datatype ProjectionError =
    | BadEvent(problem: EventError)
    | UnsupportedEvent
    | PayloadConflict
    | ProjectionConflict
    | InstallationConflict
    | InvalidField(field: string)
    | AggregateOverflow

  function KindOf(eventName: string): Option<Kind> {
    if eventName == REPORTED_EVENT_NAME then Some(Reported)
    else if eventName == ACCOUNTED_EVENT_NAME then Some(Accounted)
    else None
  }

  function ParseU64(s: string, field: string): Result<u64, ProjectionError> {
    var v := ParseUnsigned(s, U64_MAX);
    if v.None? then Failure(InvalidField(field)) else Success(v.value)
  }

  function ParseOptionalU64(s: Option<string>, field: string): Result<Option<u64>, ProjectionError> {
    if s.None? then Success(None)
    else
      var v :- ParseU64(s.value, field);
      Success(Some(v))
  }

  function DecimalCents(d: DecimalText): Result<int, ProjectionError> {
    if d.parsed.None? || d.parsed.value.scale > 2 then Failure(InvalidField("rate_decimal_10_2"))
    else
      var cents := Cents(d.parsed.value);
      if cents > I64_MAX || cents < -I64_MAX - 1 then Failure(InvalidField("rate_decimal_10_2")) else Success(cents)
  }

  datatype Numbers = Numbers(
    userId: u64, trafficEpoch: u64, serverId: u64, rateCents: int, rawU: u64, rawD: u64, chargedU: u64, chargedD: u64)

  /** The numeric columns, parsed in column order. */
  function ParseNumbers(core: TrafficCore): Result<Numbers, ProjectionError> {
    var userId :- ParseU64(core.userId, "user_id");
    var trafficEpoch :- ParseU64(core.trafficEpoch, "traffic_epoch");
    var serverId :- ParseU64(core.serverId, "server_id");
    var rateCents :- DecimalCents(core.rateDecimal);
    var rawU :- ParseU64(core.rawU, "raw_u");
    var rawD :- ParseU64(core.rawD, "raw_d");
    var chargedU :- ParseU64(core.chargedU, "charged_u");
    var chargedD :- ParseU64(core.chargedD, "charged_d");
    Success(Numbers(userId, trafficEpoch, serverId, rateCents, rawU, rawD, chargedU, chargedD))
  }

  /** The columns that reported_row and accounted_row have in common. */
  function BuildRow(
    id: EventId, schemaMajor: int, core: TrafficCore, record: OutboxRecord,
    batchId: int, ingestedAt: i64, installation: int)
    : Result<TrafficRow, ProjectionError>
  {
    if core.installationId.None? then Failure(InvalidField("installation_id"))
    else if core.installationId.value != installation then Failure(InstallationConflict)
    else if schemaMajor < 0 || schemaMajor > 0xFFFF then Failure(InvalidField("schema_major"))
    else
      var n :- ParseNumbers(core);
      if core.accountingDate.None? then Failure(InvalidField("accounting_date"))
      else
        Success(TrafficRow(
                  id, schemaMajor, installation, core.reportKey, core.payloadHash, core.identityKind,
                  n.userId, n.trafficEpoch, n.serverId, core.serverType, core.rateText.text, n.rateCents,
                  n.rawU, n.rawD, n.chargedU, n.chargedD, core.acceptedAt, core.accountingDate.value,
                  core.accountingTimezone, None, batchId, record.rowNumber, record.event.payloadHash, ingestedAt))
  }

  function ReportedRow(record: OutboxRecord, batchId: int, ingestedAt: i64, installation: int)
    : Result<TrafficRow, ProjectionError>
  {
    var parsed := ParseReported(record.event.payload);
    if parsed.None? then Failure(PayloadConflict)
    else
      var envelope := ReportedIntoOutbox(parsed.value);
      if envelope.Failure? then Failure(BadEvent(envelope.error))
      else if envelope.value != record.event then Failure(PayloadConflict)
      else BuildRow(parsed.value.eventId, parsed.value.schemaMajor, parsed.value.core, record, batchId, ingestedAt,
                    installation)
  }

  function AccountedRow(record: OutboxRecord, batchId: int, ingestedAt: i64, installation: int)
    : Result<TrafficRow, ProjectionError>
  {
    var parsed := ParseAccounted(record.event.payload);
    if parsed.None? then Failure(PayloadConflict)
    else
      var e := parsed.value;
      var envelope := AccountedIntoOutbox(e);
      if envelope.Failure? then Failure(BadEvent(envelope.error))
      else if envelope.value != record.event then Failure(PayloadConflict)
      else
        var row :- BuildRow(e.eventId, e.schemaMajor, e.core, record, batchId, ingestedAt, installation);
        var uAfter :- ParseOptionalU64(e.uAfter, "u_after");
        var dAfter :- ParseOptionalU64(e.dAfter, "d_after");
        Success(row.(accounting := Some(Accounting(e.accountedAt, e.outcome, uAfter, dAfter))))
  }

  function BuildKindRow(kind: Kind, record: OutboxRecord, batchId: int, ingestedAt: i64, installation: int)
    : Result<TrafficRow, ProjectionError>
  {
    match kind
    case Reported => ReportedRow(record, batchId, ingestedAt, installation)
    case Accounted => AccountedRow(record, batchId, ingestedAt, installation)
  }

  /** The rows of a batch in record order, or the error of the first record that has one. */
  function BuildRows(kind: Kind, records: seq<OutboxRecord>, batchId: int, ingestedAt: i64, installation: int)
    : (r: Result<seq<TrafficRow>, ProjectionError>)
    ensures r.Success? ==> |r.value| == |records|
    ensures r.Success? ==> forall i :: 0 <= i < |records| ==>
              BuildKindRow(kind, records[i], batchId, ingestedAt, installation) == Success(r.value[i])
  {
    if records == [] then Success([])
    else
      var row :- BuildKindRow(kind, records[0], batchId, ingestedAt, installation);
      var rest :- BuildRows(kind, records[1..], batchId, ingestedAt, installation);
      Success([row] + rest)
  }

  /** What a built row takes over from its arguments. */
  predicate RowCarries(row: TrafficRow, id: EventId, schemaMajor: int, date: Date, record: OutboxRecord, batchId: int,
                       installation: int) {
    && row.batchId == batchId && row.rowNumber == record.rowNumber && row.eventId == id
    && row.installation == installation && row.schemaMajor == schemaMajor && row.accountingDate == date
    && row.outboxPayloadHash == record.event.payloadHash
  }

  lemma BuildRowCarries(id: EventId, schemaMajor: int, core: TrafficCore, record: OutboxRecord, batchId: int,
                        ingestedAt: i64, installation: int)
    ensures var r := BuildRow(id, schemaMajor, core, record, batchId, ingestedAt, installation);
            r.Success? ==>
              && core.accountingDate.Some?
              && RowCarries(r.value, id, schemaMajor, core.accountingDate.value, record, batchId, installation)
  {
    var n := ParseNumbers(core);
  }

  /** A built row carries its batch, its row number, and a date of the envelope's partition month. */
  lemma BuiltRowIdentity(kind: Kind, record: OutboxRecord, batchId: int, ingestedAt: i64, installation: int)
    requires BuildKindRow(kind, record, batchId, ingestedAt, installation).Success?
    ensures var row := BuildKindRow(kind, record, batchId, ingestedAt, installation).value;
            && RowCarries(row, record.event.eventId, record.event.schemaMajor, row.accountingDate, record, batchId,
                          installation)
            && record.event.partitionMonth == Some(MonthStart(row.accountingDate))
            && row.accounting.Some? == kind.Accounted?
  {
    match kind
    case Reported =>
      var e := ParseReported(record.event.payload).value;
      BuildRowCarries(e.eventId, e.schemaMajor, e.core, record, batchId, ingestedAt, installation);
    case Accounted =>
      var e := ParseAccounted(record.event.payload).value;
      BuildRowCarries(e.eventId, e.schemaMajor, e.core, record, batchId, ingestedAt, installation);
  }

  predicate Fits(s: string) {
    ParseUnsigned(s, U64_MAX).Some?
  }

  /** Every integer text of the core fits u64. */
  predicate FitsU64(c: TrafficCore) {
    && Fits(c.userId) && Fits(c.trafficEpoch) && Fits(c.serverId)
    && Fits(c.rawU) && Fits(c.rawD) && Fits(c.chargedU) && Fits(c.chargedD)
  }

  lemma NumbersParseIff(c: TrafficCore)
    requires CoreProblem(c).None?
    ensures ParseNumbers(c).Success? <==> FitsU64(c)
  {
    assert IsDecimal10_2(c.rateDecimal) && DecimalCents(c.rateDecimal).Success? by {
      var d := c.rateDecimal.parsed.value;
      assert 0 <= Cents(d) <= 9_999_999_999;
    }
    ParseU64Iff(c.userId, "user_id");
    ParseU64Iff(c.trafficEpoch, "traffic_epoch");
    ParseU64Iff(c.serverId, "server_id");
    ParseU64Iff(c.rawU, "raw_u");
    ParseU64Iff(c.rawD, "raw_d");
    ParseU64Iff(c.chargedU, "charged_u");
    ParseU64Iff(c.chargedD, "charged_d");
  }

  lemma ParseU64Iff(s: string, field: string)
    ensures ParseU64(s, field).Success? <==> Fits(s)
  {
  }

  lemma BuildRowIff(id: EventId, core: TrafficCore, record: OutboxRecord, batchId: int, ingestedAt: i64,
                    installation: int)
    requires CoreProblem(core).None?
    ensures core.installationId.Some? && core.accountingDate.Some?
    ensures BuildRow(id, EVENT_SCHEMA_MAJOR, core, record, batchId, ingestedAt, installation).Success?
       <==> core.installationId == Some(installation) && FitsU64(core)
  {
    NumbersParseIff(core);
    var n := ParseNumbers(core);
  }

  /** Validation accepts 128-bit integers and projection parses 64-bit ones: an event from the
      constructor is projectable exactly when its installation matches and its integers fit u64. */
  lemma ConstructedReportedEventIsProjectableIff(
    core: TrafficCore, outboxId: int, rowNumber: nat, batchId: int, ingestedAt: i64, installation: int)
    requires NewReported(core).Success?
    ensures ReportedIntoOutbox(NewReported(core).value).Success?
    ensures var record := OutboxRecord(outboxId, rowNumber, ReportedIntoOutbox(NewReported(core).value).value);
            BuildKindRow(Reported, record, batchId, ingestedAt, installation).Success?
            <==> core.installationId == Some(installation) && FitsU64(core)
  {
    var e := NewReported(core).value;
    BuildRowIff(e.eventId, core, OutboxRecord(outboxId, rowNumber, ReportedIntoOutbox(e).value), batchId, ingestedAt,
                installation);
  }

  lemma ConstructedAccountedEventIsProjectableIff(
    core: TrafficCore, accountedAt: i64, outcome: AccountedOutcome, uAfter: Option<string>, dAfter: Option<string>,
    outboxId: int, rowNumber: nat, batchId: int, ingestedAt: i64, installation: int)
    requires NewAccounted(core, accountedAt, outcome, uAfter, dAfter).Success?
    ensures var e := NewAccounted(core, accountedAt, outcome, uAfter, dAfter).value;
            && AccountedIntoOutbox(e).Success?
            && var record := OutboxRecord(outboxId, rowNumber, AccountedIntoOutbox(e).value);
            (BuildKindRow(Accounted, record, batchId, ingestedAt, installation).Success?
             <==> && core.installationId == Some(installation) && FitsU64(core)
                  && (uAfter.Some? ==> Fits(uAfter.value)) && (dAfter.Some? ==> Fits(dAfter.value)))
  {
    var e := NewAccounted(core, accountedAt, outcome, uAfter, dAfter).value;
    var record := OutboxRecord(outboxId, rowNumber, AccountedIntoOutbox(e).value);
    BuildRowIff(e.eventId, core, record, batchId, ingestedAt, installation);
    ParseOptionalIff(uAfter, "u_after");
    ParseOptionalIff(dAfter, "d_after");
  }

  // ---- A valid event that cannot be projected --------------------------------------------------

  const ONE := DecimalText("1", Some(Decimal(false, 1, 0)))

  /** A core with the given upload counter, ordinary otherwise. */
  function CoreWithUpload(rawU: string, digest: string): TrafficCore {
    TrafficCore(Some(1), "key", digest, Explicit, "1", "0", "1", "vmess", ONE, ONE,
                rawU, "0", "0", "0", 0, Some(0), "Asia/Shanghai")
  }

  /** The upload counter is 10^20: more than u64 holds and less than u128. */
  const LARGE_CORE := CoreWithUpload("1" + Zeros(20), Zeros(64))

  lemma LargeCounterParses()
    ensures ParseUnsigned("1" + Zeros(20), U128_MAX).Some?
    ensures ParseUnsigned("1" + Zeros(20), U64_MAX).None?
  {
    assert DigitsValue("1") == 1 && Pow10(0) == 1;
    ValueWithZeros("1", 20);
    assert Pow10(5) == 100_000;
    PowersMultiply(5, 5);
    PowersMultiply(10, 10);
  }

  lemma SmallCountersParse(max: nat)
    requires max >= 1
    ensures ParseUnsigned("0", max) == Some(0) && ParseUnsigned("1", max) == Some(1)
  {
    assert DigitsValue("0") == 0 && DigitsValue("1") == 1;
  }

  lemma CoreWithUploadIsValid(rawU: string, digest: string)
    requires ParseUnsigned(rawU, U128_MAX).Some? && ParseUnsigned(rawU, U64_MAX).None? && IsHexDigest(digest)
    ensures CoreProblem(CoreWithUpload(rawU, digest)).None? && !FitsU64(CoreWithUpload(rawU, digest))
  {
    SmallCountersParse(U128_MAX);
    assert !IsWhitespace("key"[0]) && !IsWhitespace("vmess"[0]);
  }

  lemma LargeCoreIsValid()
    ensures CoreProblem(LARGE_CORE).None? && !FitsU64(LARGE_CORE)
  {
    LargeCounterParses();
    ZerosAreZero(64);
    CoreWithUploadIsValid("1" + Zeros(20), Zeros(64));
  }

  /** The constructor accepts this event, it enters the outbox, and no installation can ever project it. */
  lemma ValidEventThatCannotBeProjected(outboxId: int, rowNumber: nat, batchId: int, ingestedAt: i64, installation: int)
    ensures NewReported(LARGE_CORE).Success?
    ensures ReportedIntoOutbox(NewReported(LARGE_CORE).value).Success?
    ensures var record := OutboxRecord(outboxId, rowNumber, ReportedIntoOutbox(NewReported(LARGE_CORE).value).value);
            BuildKindRow(Reported, record, batchId, ingestedAt, installation).Failure?
  {
    LargeCoreIsValid();
    ConstructedReportedEventIsProjectableIff(LARGE_CORE, outboxId, rowNumber, batchId, ingestedAt, installation);
  }

  lemma ParseOptionalIff(s: Option<string>, field: string)
    ensures ParseOptionalU64(s, field).Success? <==> (s.Some? ==> Fits(s.value))
  {
    if s.Some? {
      ParseU64Iff(s.value, field);
    }
  }
}
