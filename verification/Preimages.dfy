/**
 The byte strings that the analytics crate feeds to SHA-256: the event id of
 backend/rust/crates/analytics/src/event.rs and the batch manifest of
 backend/rust/crates/analytics/src/outbox.rs. Every preimage can be decoded, so
 equal preimages come from equal values; the crate's seven domains never collide.
 */
module Preimages {
  import opened Wrappers
  import opened MachineInts

  type byte = x: int | 0 <= x < 256

  /** A Rust byte slice: its length fits u64. */
  type Bytes = s: seq<byte> | |s| <= U64_MAX

  function Ascii(s: string): (b: seq<byte>)
    requires forall i :: 0 <= i < |s| ==> s[i] as int < 128
    ensures |b| == |s|
    ensures forall i :: 0 <= i < |s| ==> b[i] == s[i] as int
  {
    seq(|s|, i requires 0 <= i < |s| => s[i] as int)
  }

  const EVENT_ID_DOMAIN: seq<byte> := Ascii("v2board.analytics.event-id.v2\0")
  const PAYLOAD_DOMAIN: seq<byte> := Ascii("v2board.analytics.payload.v1\0")
  const BATCH_DOMAIN: seq<byte> := Ascii("v2board.analytics.delivery-batch.v1\0")
  const SETTINGS_DOMAIN: seq<byte> := Ascii("v2board.analytics.insert-settings.v1\0")

  const POLICY_DOMAIN: seq<byte> := Ascii("v2board.analytics-admission-policy.v1\0")
  const MIGRATION_DOMAIN: seq<byte> := Ascii("v2board.clickhouse-migration.v1\0")
  const LINEAGE_DOMAIN: seq<byte> := Ascii("v2board.clickhouse-schema-lineage.v1\0")

  // ---- Fixed-width integers ---------------------------------------------------------------

  function Power256(width: nat): nat {
    if width == 0 then 1 else 256 * Power256(width - 1)
  }

  /** to_be_bytes. */
  function BigEndian(n: nat, width: nat): (b: seq<byte>)
    ensures |b| == width
  {
    if width == 0 then [] else BigEndian(n / 256, width - 1) + [n % 256]
  }

  function FromBigEndian(b: seq<byte>): nat {
    if b == [] then 0 else 256 * FromBigEndian(b[..|b| - 1]) + b[|b| - 1]
  }

  lemma {:induction false} BigEndianDecodes(n: nat, width: nat)
    requires n < Power256(width)
    ensures FromBigEndian(BigEndian(n, width)) == n
  {
    if width > 0 {
      BigEndianDecodes(n / 256, width - 1);
      assert BigEndian(n, width)[..width - 1] == BigEndian(n / 256, width - 1);
    }
  }

  lemma Widths()
    ensures Power256(8) == U64_MAX + 1 && Power256(4) == U32_MAX + 1
  {
    assert Power256(2) == 0x1_0000;
    assert Power256(4) == 0x1_0000_0000;
    assert Power256(6) == 0x1_0000_0000_0000;
  }

  // ---- One field -------------------------------------------------------------------------------

  function Field(s: Bytes): seq<byte> {
    BigEndian(|s|, 8) + s
  }

  /** Reads one field off the front. */
  function TakeField(b: seq<byte>): (r: Option<(Bytes, seq<byte>)>)
    ensures r.Some? ==> |r.value.1| < |b|
  {
    if |b| < 8 then None
    else
      var n := FromBigEndian(b[..8]);
      if n > |b| - 8 || n > U64_MAX then None else Some((b[8..8 + n], b[8 + n..]))
  }

  lemma TakeFieldReads(s: Bytes, rest: seq<byte>)
    ensures TakeField(Field(s) + rest) == Some((s, rest))
  {
    Widths();
    BigEndianDecodes(|s|, 8);
    var b := Field(s) + rest;
    assert b[..8] == BigEndian(|s|, 8);
    assert b[8..8 + |s|] == s && b[8 + |s|..] == rest;
  }

  // ---- The event id ------------------------------------------------------------------------------

  datatype Identity = Identity(eventName: Bytes, installation: Bytes, reportKey: Bytes, userId: Bytes)

  /** The fields in the order in which they are fed. */
  function IdentityFields(id: Identity): seq<Bytes> {
    [id.eventName, id.installation, id.reportKey, id.userId]
  }

  function Fields(fields: seq<Bytes>): seq<byte> {
    if fields == [] then [] else Field(fields[0]) + Fields(fields[1..])
  }

  function EventIdPreimage(id: Identity): seq<byte> {
    EVENT_ID_DOMAIN + Fields(IdentityFields(id))
  }

  function DecodeFields(b: seq<byte>): Option<seq<Bytes>>
    decreases |b|
  {
    if b == [] then Some([])
    else
      var first := TakeField(b);
      if first.None? then None
      else
        var rest := DecodeFields(first.value.1);
        if rest.None? then None else Some([first.value.0] + rest.value)
  }

  lemma {:induction false} FieldsDecode(fields: seq<Bytes>)
    ensures DecodeFields(Fields(fields)) == Some(fields)
  {
    if fields != [] {
      TakeFieldReads(fields[0], Fields(fields[1..]));
      FieldsDecode(fields[1..]);
      assert fields == [fields[0]] + fields[1..];
    }
  }

  /** Equal event id preimages have equal names, installations, report keys and users. */
  lemma EventIdPreimageIsInjective(a: Identity, b: Identity)
    requires EventIdPreimage(a) == EventIdPreimage(b)
    ensures a == b
  {
    assert EventIdPreimage(a)[|EVENT_ID_DOMAIN|..] == Fields(IdentityFields(a));
    assert EventIdPreimage(b)[|EVENT_ID_DOMAIN|..] == Fields(IdentityFields(b));
    FieldsDecode(IdentityFields(a));
    FieldsDecode(IdentityFields(b));
    assert IdentityFields(a) == IdentityFields(b);
    assert a.eventName == IdentityFields(a)[0] && a.installation == IdentityFields(a)[1];
    assert a.reportKey == IdentityFields(a)[2] && a.userId == IdentityFields(a)[3];
  }

  // ---- The batch manifest ----------------------------------------------------------------------------

  datatype ManifestRow = ManifestRow(rowNumber: u32, eventId: Bytes, payloadHash: Bytes)

  function RowBytes(row: ManifestRow): (b: seq<byte>)
    ensures |b| > 0
  {
    BigEndian(row.rowNumber, 4) + Field(row.eventId) + Field(row.payloadHash)
  }

  function RowsBytes(rows: seq<ManifestRow>): seq<byte> {
    if rows == [] then [] else RowBytes(rows[0]) + RowsBytes(rows[1..])
  }

  function BatchPreimage(rows: seq<ManifestRow>): seq<byte> {
    BATCH_DOMAIN + RowsBytes(rows)
  }

  function TakeRow(b: seq<byte>): (r: Option<(ManifestRow, seq<byte>)>)
    ensures r.Some? ==> |r.value.1| < |b|
  {
    if |b| < 4 || FromBigEndian(b[..4]) > U32_MAX then None
    else
      var eventId := TakeField(b[4..]);
      if eventId.None? then None else
      var payloadHash := TakeField(eventId.value.1);
      if payloadHash.None? then None
      else Some((ManifestRow(FromBigEndian(b[..4]), eventId.value.0, payloadHash.value.0), payloadHash.value.1))
  }

  function DecodeRows(b: seq<byte>): Option<seq<ManifestRow>>
    decreases |b|
  {
    if b == [] then Some([])
    else
      var first := TakeRow(b);
      if first.None? then None
      else
        var rest := DecodeRows(first.value.1);
        if rest.None? then None else Some([first.value.0] + rest.value)
  }

  lemma RowParts(row: ManifestRow, rest: seq<byte>)
    ensures var b := RowBytes(row) + rest;
            && |b| >= 4 && b[..4] == BigEndian(row.rowNumber, 4)
            && b[4..] == Field(row.eventId) + (Field(row.payloadHash) + rest)
  {
    var number, fields := BigEndian(row.rowNumber, 4), Field(row.eventId) + (Field(row.payloadHash) + rest);
    assert RowBytes(row) + rest == number + fields;
  }

  lemma RowNumberReads(n: u32)
    ensures FromBigEndian(BigEndian(n, 4)) == n
  {
    Widths();
    BigEndianDecodes(n, 4);
  }

  lemma TakeRowReads(row: ManifestRow, rest: seq<byte>)
    ensures TakeRow(RowBytes(row) + rest) == Some((row, rest))
  {
    RowParts(row, rest);
    RowNumberReads(row.rowNumber);
    TakeFieldReads(row.eventId, Field(row.payloadHash) + rest);
    TakeFieldReads(row.payloadHash, rest);
  }

  lemma {:induction false} RowsDecode(rows: seq<ManifestRow>)
    ensures DecodeRows(RowsBytes(rows)) == Some(rows)
  {
    if rows != [] {
      TakeRowReads(rows[0], RowsBytes(rows[1..]));
      RowsDecode(rows[1..]);
      assert rows == [rows[0]] + rows[1..];
    }
  }

  /** Equal manifest preimages have equal row sequences, whatever their lengths. */
  lemma BatchPreimageIsInjective(a: seq<ManifestRow>, b: seq<ManifestRow>)
    requires BatchPreimage(a) == BatchPreimage(b)
    ensures a == b
  {
    assert BatchPreimage(a)[|BATCH_DOMAIN|..] == RowsBytes(a);
    assert BatchPreimage(b)[|BATCH_DOMAIN|..] == RowsBytes(b);
    RowsDecode(a);
    RowsDecode(b);
  }

  // ---- Payloads, settings, domains -----------------------------------------------------------------------

  /** sha256_domain and settings_hash. */
  function DomainPreimage(domain: seq<byte>, payload: Bytes): seq<byte> {
    domain + Field(payload)
  }

  lemma DomainPreimageIsInjective(domain: seq<byte>, a: Bytes, b: Bytes)
    requires DomainPreimage(domain, a) == DomainPreimage(domain, b)
    ensures a == b
  {
    assert DomainPreimage(domain, a)[|domain|..] == Field(a) + [];
    assert DomainPreimage(domain, b)[|domain|..] == Field(b) + [];
    TakeFieldReads(a, []);
    TakeFieldReads(b, []);
  }

  /** Every domain the crate hashes under. */
  const DOMAINS: seq<seq<byte>> := [EVENT_ID_DOMAIN, PAYLOAD_DOMAIN, BATCH_DOMAIN, SETTINGS_DOMAIN,
                                    POLICY_DOMAIN, MIGRATION_DOMAIN, LINEAGE_DOMAIN]

  /** The first bytes in which the domains differ. */
  lemma DomainMarks()
    ensures forall i :: 0 <= i < 7 ==> |DOMAINS[i]| > 19
    ensures DOMAINS[0][18] == 'e' as int && DOMAINS[1][18] == 'p' as int && DOMAINS[2][18] == 'd' as int
    ensures DOMAINS[3][18] == 'i' as int && DOMAINS[4][18] == 'a' as int
    ensures DOMAINS[5][18] == DOMAINS[6][18] == '-' as int
    ensures DOMAINS[5][19] == 'm' as int && DOMAINS[6][19] == 's' as int
  {
    assert EVENT_ID_DOMAIN[18] == 'e' as int;
    assert PAYLOAD_DOMAIN[18] == 'p' as int;
    assert BATCH_DOMAIN[18] == 'd' as int;
    assert SETTINGS_DOMAIN[18] == 'i' as int;
    assert POLICY_DOMAIN[18] == 'a' as int;
    assert MIGRATION_DOMAIN[18] == '-' as int && MIGRATION_DOMAIN[19] == 'm' as int;
    assert LINEAGE_DOMAIN[18] == '-' as int && LINEAGE_DOMAIN[19] == 's' as int;
  }

  /** A hash of one kind is never the hash of another kind of thing: whatever is fed behind them, preimages of
      different domains differ, and preimages of one domain differ in what is fed. */
  lemma DomainsAreSeparate(i: nat, j: nat, a: seq<byte>, b: seq<byte>)
    requires i < |DOMAINS| && j < |DOMAINS|
    requires DOMAINS[i] + a == DOMAINS[j] + b
    ensures i == j && a == b
  {
    DomainMarks();
    var p := DOMAINS[i] + a;
    assert p[18] == DOMAINS[i][18] && p[18] == DOMAINS[j][18];
    assert p[19] == DOMAINS[i][19] && p[19] == DOMAINS[j][19];
    assert a == p[|DOMAINS[i]|..] && b == p[|DOMAINS[j]|..];
  }

  // ---- Feeding the digest ------------------------------------------------------------------------------------

  /** A streaming hasher: what was fed so far. */
  class Digest {
    var fed: seq<byte>

    constructor ()
      ensures fed == []
    {
      fed := [];
    }

    method Update(data: seq<byte>)
      modifies this
      ensures fed == old(fed) + data
    {
      fed := fed + data;
    }

    /** The inner loop of both hash functions: the length of each field and then the field. */
    method UpdateFields(fields: seq<Bytes>)
      modifies this
      ensures fed == old(fed) + Fields(fields)
    {
      assert fields[..0] == [];
      for i := 0 to |fields|
        invariant fed == old(fed) + Fields(fields[..i])
      {
        FieldsAppend(fields[..i], fields[i]);
        assert fields[..i + 1] == fields[..i] + [fields[i]];
        Update(BigEndian(|fields[i]|, 8));
        Update(fields[i]);
      }
      assert fields[..|fields|] == fields;
    }
  }

  lemma {:induction false} FieldsAppend(fields: seq<Bytes>, last: Bytes)
    ensures Fields(fields + [last]) == Fields(fields) + Field(last)
  {
    if fields != [] {
      FieldsAppend(fields[1..], last);
      assert (fields + [last])[1..] == fields[1..] + [last];
    }
  }

  lemma {:induction false} RowsBytesAppend(rows: seq<ManifestRow>, last: ManifestRow)
    ensures RowsBytes(rows + [last]) == RowsBytes(rows) + RowBytes(last)
  {
    if rows != [] {
      RowsBytesAppend(rows[1..], last);
      assert (rows + [last])[1..] == rows[1..] + [last];
    }
  }

  lemma TwoFields(a: Bytes, b: Bytes)
    ensures Fields([a, b]) == Field(a) + Field(b)
  {
    assert [a, b][1..] == [b] && [b][1..] == [];
    assert Fields([b]) == Field(b) + [];
  }

  lemma RowFeed(rows: seq<ManifestRow>, row: ManifestRow)
    ensures BATCH_DOMAIN + RowsBytes(rows) + BigEndian(row.rowNumber, 4) + Fields([row.eventId, row.payloadHash])
         == BATCH_DOMAIN + RowsBytes(rows + [row])
  {
    RowsBytesAppend(rows, row);
    TwoFields(row.eventId, row.payloadHash);
  }

  /** deterministic_event_id up to the final digest. */
  method DeterministicEventId(id: Identity) returns (preimage: seq<byte>)
    ensures preimage == EventIdPreimage(id)
  {
    var digest := new Digest();
    digest.Update(EVENT_ID_DOMAIN);
    digest.UpdateFields(IdentityFields(id));
    preimage := digest.fed;
  }

  /** batch_content_hash up to the final digest. */
  method BatchContentHash(rows: seq<ManifestRow>) returns (preimage: seq<byte>)
    ensures preimage == BatchPreimage(rows)
  {
    var digest := new Digest();
    digest.Update(BATCH_DOMAIN);
    for i := 0 to |rows|
      invariant digest.fed == BATCH_DOMAIN + RowsBytes(rows[..i])
    {
      RowFeed(rows[..i], rows[i]);
      assert rows[..i + 1] == rows[..i] + [rows[i]];
      digest.Update(BigEndian(rows[i].rowNumber, 4));
      digest.UpdateFields([rows[i].eventId, rows[i].payloadHash]);
    }
    assert rows[..|rows|] == rows;
    preimage := digest.fed;
  }
}
