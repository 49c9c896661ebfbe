/**
 The immutable traffic events of backend/rust/crates/analytics/src/event.rs.

 A SHA-256 digest is modelled by its preimage, so two digests are equal exactly
 when their preimages are; module Preimages proves that the byte encodings fed
 to the digest are themselves injective.
 */
module Events {
  import opened Wrappers
  import opened MachineInts
  import opened Numerals
  import opened Calendar

  const REPORTED_EVENT_NAME := "traffic.reported.v1"
  const ACCOUNTED_EVENT_NAME := "traffic.accounted.v1"
  const EVENT_SCHEMA_MAJOR := 1

  datatype IdentityKind = Explicit | Implicit
  datatype AccountedOutcome = Applied | StaleEpoch | MissingUser

  /** What the Decimal parser reports for a text. */
  datatype Decimal = Decimal(negative: bool, mantissa: nat, scale: nat)
  datatype DecimalText = DecimalText(text: string, parsed: Option<Decimal>)

  /** installationId is None when the text is not a canonical UUID, and
      accountingDate is None when the text is not a date. */
  datatype TrafficCore = TrafficCore(
    installationId: Option<int>, reportKey: string, payloadHash: string, identityKind: IdentityKind,
    userId: string, trafficEpoch: string, serverId: string, serverType: string,
    rateText: DecimalText, rateDecimal: DecimalText,
    rawU: string, rawD: string, chargedU: string, chargedD: string,
    acceptedAt: i64, accountingDate: Option<Date>, accountingTimezone: string)

  datatype EventId =
    | Derived(eventName: string, installationId: Option<int>, reportKey: string, userId: string)
    | Foreign(text: string)

  datatype ReportedEvent = ReportedEvent(eventId: EventId, eventName: string, schemaMajor: int, core: TrafficCore)

  datatype AccountedEvent = AccountedEvent(
    eventId: EventId, eventName: string, schemaMajor: int, core: TrafficCore,
    accountedAt: i64, outcome: AccountedOutcome, uAfter: Option<string>, dAfter: Option<string>)

  /** The canonical JSON payload of an outbox row. */
  datatype Payload = ReportedPayload(reported: ReportedEvent) | AccountedPayload(accounted: AccountedEvent)
                   | OtherPayload(text: string)

  datatype PayloadHash = HashOf(payload: Payload) | OtherHash(text: string)

  /** The envelope persisted in PostgreSQL; partitionMonth is None when its text is not a date. */
  datatype AnalyticsEvent = AnalyticsEvent(
    eventId: EventId, eventName: string, schemaMajor: int, reportKey: string,
    partitionMonth: Option<Date>, occurredAt: i64, payload: Payload, payloadHash: PayloadHash)

  datatype EventError =
    | Empty(field: string)
    | Digest(field: string)
    | Integer(field: string)
    | PositiveInteger(field: string)
    | BadDecimal(field: string)
    | Timezone
    | BadAccountingDate
    | InstallationId
    | AccountedBeforeAccepted
    | EventIdentity
    | MissingPostUpdateCounters
    | UnexpectedPostUpdateCounters

  // ---- Text checks -----------------------------------------------------------------------

  predicate IsWhitespace(c: char) {
    c == ' ' || '\t' <= c <= '\r'
  }

  predicate IsBlank(s: string) {
    forall i :: 0 <= i < |s| ==> IsWhitespace(s[i])
  }

  predicate IsHexDigest(s: string) {
    |s| == 64 && forall i :: 0 <= i < |s| ==> IsDigit(s[i]) || 'a' <= s[i] <= 'f'
  }

  // ---- Validation ------------------------------------------------------------------------

  predicate NonNegativeInteger(s: string) {
    ParseUnsigned(s, U128_MAX).Some?
  }

  predicate IsPositiveInteger(s: string) {
    ParseUnsigned(s, U128_MAX).Some? && ParseUnsigned(s, U128_MAX).value > 0
  }

  predicate NonNegativeDecimal(d: DecimalText) {
    d.parsed.Some? && !d.parsed.value.negative
  }

  /** The mantissa after rescaling to two decimal places. */
  function Cents(d: Decimal): int
    requires d.scale <= 2
  {
    var m := if d.scale == 0 then d.mantissa * 100 else if d.scale == 1 then d.mantissa * 10 else d.mantissa;
    if d.negative then -m else m
  }

  predicate IsDecimal10_2(d: DecimalText) {
    NonNegativeDecimal(d) && d.parsed.value.scale <= 2 && Cents(d.parsed.value) <= 9_999_999_999
  }

  /** The first failing check of TrafficEventCore::validate, in its order. */
  function CoreProblem(c: TrafficCore): Option<EventError> {
    if IsBlank(c.reportKey) then Some(Empty("report_key"))
    else if IsBlank(c.serverType) then Some(Empty("server_type"))
    else if c.installationId.None? then Some(InstallationId)
    else if !IsHexDigest(c.payloadHash) then Some(Digest("payload_hash"))
    else if !IsPositiveInteger(c.userId) then Some(PositiveInteger("user_id"))
    else if !NonNegativeInteger(c.trafficEpoch) then Some(Integer("traffic_epoch"))
    else if !IsPositiveInteger(c.serverId) then Some(PositiveInteger("server_id"))
    else if !NonNegativeDecimal(c.rateText) then Some(BadDecimal("rate_text"))
    else if !IsDecimal10_2(c.rateDecimal) then Some(BadDecimal("rate_decimal_10_2"))
    else if !NonNegativeInteger(c.rawU) then Some(Integer("raw_u"))
    else if !NonNegativeInteger(c.rawD) then Some(Integer("raw_d"))
    else if !NonNegativeInteger(c.chargedU) then Some(Integer("charged_u"))
    else if !NonNegativeInteger(c.chargedD) then Some(Integer("charged_d"))
    else if c.acceptedAt < 0 then Some(Integer("accepted_at"))
    else if c.accountingTimezone != "Asia/Shanghai" then Some(Timezone)
    else if c.accountingDate.None? then Some(BadAccountingDate)
    else None
  }

  function DerivedEventId(eventName: string, c: TrafficCore): EventId {
    Derived(eventName, c.installationId, c.reportKey, c.userId)
  }

  predicate EnvelopeMatches(id: EventId, eventName: string, schemaMajor: int, c: TrafficCore, expectedName: string) {
    eventName == expectedName && schemaMajor == EVENT_SCHEMA_MAJOR && id == DerivedEventId(expectedName, c)
  }

  /** validate_accounted_counters. */
  function CounterProblem(outcome: AccountedOutcome, uAfter: Option<string>,
                          dAfter: Option<string>): Option<EventError> {
    if outcome == Applied then
      if uAfter.None? || dAfter.None? then Some(MissingPostUpdateCounters)
      else if !NonNegativeInteger(uAfter.value) then Some(Integer("u_after"))
      else if !NonNegativeInteger(dAfter.value) then Some(Integer("d_after"))
      else None
    else if uAfter.None? && dAfter.None? then None
    else Some(UnexpectedPostUpdateCounters)
  }

  // ---- Construction and the outbox envelope ----------------------------------------------

  function NewReported(core: TrafficCore): Result<ReportedEvent, EventError> {
    var problem := CoreProblem(core);
    if problem.Some? then Failure(problem.value)
    else Success(ReportedEvent(DerivedEventId(REPORTED_EVENT_NAME, core), REPORTED_EVENT_NAME, EVENT_SCHEMA_MAJOR,
                               core))
  }

  function NewAccounted(
    core: TrafficCore, accountedAt: i64, outcome: AccountedOutcome, uAfter: Option<string>, dAfter: Option<string>)
    : Result<AccountedEvent, EventError>
  {
    var problem := CoreProblem(core);
    var counters := CounterProblem(outcome, uAfter, dAfter);
    if problem.Some? then Failure(problem.value)
    else if counters.Some? then Failure(counters.value)
    else if accountedAt < core.acceptedAt then Failure(AccountedBeforeAccepted)
    else Success(AccountedEvent(DerivedEventId(ACCOUNTED_EVENT_NAME, core), ACCOUNTED_EVENT_NAME, EVENT_SCHEMA_MAJOR,
                                core, accountedAt, outcome, uAfter, dAfter))
  }

  function Envelope(id: EventId, name: string, major: int, core: TrafficCore, occurredAt: i64,
                    payload: Payload): AnalyticsEvent
    requires core.accountingDate.Some?
  {
    AnalyticsEvent(id, name, major, core.reportKey, Some(MonthStart(core.accountingDate.value)), occurredAt, payload,
                   HashOf(payload))
  }

  function ReportedIntoOutbox(e: ReportedEvent): Result<AnalyticsEvent, EventError> {
    var problem := CoreProblem(e.core);
    if problem.Some? then Failure(problem.value)
    else if !EnvelopeMatches(e.eventId, e.eventName, e.schemaMajor, e.core, REPORTED_EVENT_NAME) then
      Failure(EventIdentity)
    else Success(Envelope(e.eventId, e.eventName, e.schemaMajor, e.core, e.core.acceptedAt, ReportedPayload(e)))
  }

  function AccountedIntoOutbox(e: AccountedEvent): Result<AnalyticsEvent, EventError> {
    var problem := CoreProblem(e.core);
    var counters := CounterProblem(e.outcome, e.uAfter, e.dAfter);
    if problem.Some? then Failure(problem.value)
    else if !EnvelopeMatches(e.eventId, e.eventName, e.schemaMajor, e.core, ACCOUNTED_EVENT_NAME) then
      Failure(EventIdentity)
    else if counters.Some? then Failure(counters.value)
    else if e.accountedAt < e.core.acceptedAt then Failure(AccountedBeforeAccepted)
    else Success(Envelope(e.eventId, e.eventName, e.schemaMajor, e.core, e.accountedAt, AccountedPayload(e)))
  }

  /** serde_json::from_value::<ReportedTrafficEvent>: unknown fields are ignored, so an accounted payload parses too. */
  function ParseReported(p: Payload): Option<ReportedEvent> {
    match p
    case ReportedPayload(e) => Some(e)
    case AccountedPayload(e) => Some(ReportedEvent(e.eventId, e.eventName, e.schemaMajor, e.core))
    case OtherPayload(_) => None
  }

  function ParseAccounted(p: Payload): Option<AccountedEvent> {
    if p.AccountedPayload? then Some(p.accounted) else None
  }
}
