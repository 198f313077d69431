/** The value-log record codec: `record.rs`. The checksum is a parameter, so every result
    below holds for any 32-bit checksum function, CRC-32C among them. */
module Records {
  import opened Bytes

  type Key = seq<byte>
  type Value = seq<byte>
  type u32 = n: nat | n <= U32_MAX

  type Checksum = seq<byte> -> u32

  datatype RecordKind = Scalar | Tombstone | VecF32 | VecInt8 | VecBinary | BatchBegin

  datatype Record = Record(ts: nat, kind: RecordKind, key: Key, value: Value)

  datatype Error =
    | ShortHeader
    | ShortPayload
    | UnknownKind(kind: byte)
    | CrcMismatch(expected: u32, got: u32)

  datatype Decoded = Ok(record: Record) | Err(error: Error)

  const HEADER_SIZE: nat := 21

  /** `(HEADER_SIZE + ksz + vsz + 127) & !127`: round up to a multiple of 128. */
  function PaddedRecordSize(ksz: nat, vsz: nat): (p: nat)
    ensures p % 128 == 0
    ensures HEADER_SIZE + ksz + vsz <= p < HEADER_SIZE + ksz + vsz + 128
  {
    (HEADER_SIZE + ksz + vsz + 127) / 128 * 128
  }

  function SizeOf(r: Record): nat {
    PaddedRecordSize(|r.key|, |r.value|)
  }

  function TotalSize(recs: seq<Record>): nat {
    if recs == [] then 0 else SizeOf(recs[0]) + TotalSize(recs[1..])
  }

  /** One more record at the end. */
  lemma {:induction false} TotalSizeMore(recs: seq<Record>, r: Record)
    ensures TotalSize(recs + [r]) == TotalSize(recs) + SizeOf(r)
  {
    if recs == [] {
      assert (recs + [r])[1..] == [];
    } else {
      TotalSizeMore(recs[1..], r);
      assert (recs + [r])[1..] == recs[1..] + [r];
    }
  }

  lemma {:induction false} SizesUp(recs: seq<Record>, p: nat, q: nat)
    requires p <= q <= |recs|
    ensures TotalSize(recs[..p]) <= TotalSize(recs[..q]) && (p < q ==> TotalSize(recs[..p]) < TotalSize(recs[..q]))
    decreases q
  {
    if p < q {
      SizesUp(recs, p, q - 1);
      TotalSizeMore(recs[..q - 1], recs[q - 1]);
      assert recs[..q - 1] + [recs[q - 1]] == recs[..q];
    }
  }

  /** A record whose fields fit the on-disk widths. */
  predicate Encodable(r: Record) {
    r.ts <= U64_MAX && |r.key| <= U32_MAX && |r.value| <= U32_MAX
  }

  function KindByte(k: RecordKind): byte {
    match k
    case Scalar => 0
    case Tombstone => 1
    case VecF32 => 2
    case VecInt8 => 3
    case VecBinary => 4
    case BatchBegin => 5
  }

  function KindFromByte(b: byte): (k: Option<RecordKind>)
    ensures k.Some? ==> KindByte(k.value) == b
    ensures b < 6 <==> k.Some?
  {
    if b == 0 then Some(Scalar)
    else if b == 1 then Some(Tombstone)
    else if b == 2 then Some(VecF32)
    else if b == 3 then Some(VecInt8)
    else if b == 4 then Some(VecBinary)
    else if b == 5 then Some(BatchBegin)
    else None
  }

  /** The checksummed bytes: everything after the CRC field, before the padding. */
  function Body(r: Record): (s: seq<byte>)
    ensures |s| == 17 + |r.key| + |r.value|
  {
    ToLE(r.ts, 8) + ToLE(|r.key|, 4) + ToLE(|r.value|, 4) + [KindByte(r.kind)] + r.key + r.value
  }

  function Padding(r: Record): nat {
    SizeOf(r) - HEADER_SIZE - |r.key| - |r.value|
  }

  /** The specification of `encode_record`. */
  function RecordBytes(crc: Checksum, r: Record): (s: seq<byte>)
    ensures |s| == SizeOf(r)
  {
    ToLE(crc(Body(r)), 4) + Body(r) + Zeros(Padding(r))
  }

  /** `decode_record`, check by check. */
  function DecodeRecord(crc: Checksum, buf: seq<byte>): Decoded {
    if |buf| < HEADER_SIZE then
      Err(ShortHeader)
    else
      var stored := FromLE(buf[0..4]);
      var ts := FromLE(buf[4..12]);
      var ksz := FromLE(buf[12..16]);
      var vsz := FromLE(buf[16..20]);
      var kind := KindFromByte(buf[20]);
      if kind.None? then
        Err(UnknownKind(buf[20]))
      else if |buf| < HEADER_SIZE + ksz + vsz then
        Err(ShortPayload)
      else
        var computed := crc(buf[4..HEADER_SIZE + ksz + vsz]);
        if computed != stored then
          Pow256Widths();
          Err(CrcMismatch(computed, stored))
        else
          Ok(Record(ts, kind.value, buf[HEADER_SIZE..HEADER_SIZE + ksz],
                    buf[HEADER_SIZE + ksz..HEADER_SIZE + ksz + vsz]))
  }

  /** Where each field of the checksummed bytes lies. */
  lemma BodyFields(r: Record)
    ensures var b := Body(r);
            && b[0..8] == ToLE(r.ts, 8)
            && b[8..12] == ToLE(|r.key|, 4)
            && b[12..16] == ToLE(|r.value|, 4)
            && b[16] == KindByte(r.kind)
            && b[17..17 + |r.key|] == r.key
            && b[17 + |r.key|..17 + |r.key| + |r.value|] == r.value
  {
    hide ToLE;
    var b := Body(r);
    assert b[0..8] == ToLE(r.ts, 8);
    assert b[8..12] == ToLE(|r.key|, 4);
    assert b[12..16] == ToLE(|r.value|, 4);
    assert b[17..17 + |r.key|] == r.key;
  }

  lemma SliceOfSlice(s: seq<byte>, at: nat, n: nat, i: nat, j: nat)
    requires at + n <= |s| && i <= j <= n
    ensures s[at..at + n][i..j] == s[at + i..at + j]
  {
    var (t, u) := (s[at..at + n][i..j], s[at + i..at + j]);
    assert forall k :: 0 <= k < |u| ==> t[k] == u[k];
  }

  /** Where the two parts of an encoded record lie, whatever follows the record. */
  lemma RecordParts(crc: Checksum, r: Record, rest: seq<byte>)
    ensures var buf := RecordBytes(crc, r) + rest;
            buf[0..4] == ToLE(crc(Body(r)), 4) && buf[4..4 + |Body(r)|] == Body(r)
  {
    hide ToLE, Body;
  }

  /** Where each field of an encoded record lies, whatever follows the record. */
  lemma RecordFields(crc: Checksum, r: Record, rest: seq<byte>)
    ensures var buf := RecordBytes(crc, r) + rest;
            && buf[0..4] == ToLE(crc(Body(r)), 4)
            && buf[4..12] == ToLE(r.ts, 8)
            && buf[12..16] == ToLE(|r.key|, 4)
            && buf[16..20] == ToLE(|r.value|, 4)
            && buf[20] == KindByte(r.kind)
            && buf[4..HEADER_SIZE + |r.key| + |r.value|] == Body(r)
            && buf[HEADER_SIZE..HEADER_SIZE + |r.key|] == r.key
            && buf[HEADER_SIZE + |r.key|..HEADER_SIZE + |r.key| + |r.value|] == r.value
  {
    hide ToLE, Body, RecordBytes;
    var (buf, b) := (RecordBytes(crc, r) + rest, Body(r));
    RecordParts(crc, r, rest);
    BodyFields(r);
    SliceOfSlice(buf, 4, |b|, 0, 8);
    SliceOfSlice(buf, 4, |b|, 8, 12);
    SliceOfSlice(buf, 4, |b|, 12, 16);
    SliceOfSlice(buf, 4, |b|, 17, 17 + |r.key|);
    SliceOfSlice(buf, 4, |b|, 17 + |r.key|, 17 + |r.key| + |r.value|);
    assert buf[20] == buf[4..4 + |b|][16];
  }

  /** Decoding an encoded record returns it, whatever bytes follow. */
  lemma DecodeEncode(crc: Checksum, r: Record, rest: seq<byte>)
    requires Encodable(r)
    ensures DecodeRecord(crc, RecordBytes(crc, r) + rest) == Ok(r)
  {
    hide ToLE, FromLE, Body, RecordBytes;
    RecordFields(crc, r, rest);
    Pow256Widths();
    LERoundTrip(crc(Body(r)), 4);
    LERoundTrip(r.ts, 8);
    LERoundTrip(|r.key|, 4);
    LERoundTrip(|r.value|, 4);
  }

  /** A little-endian field is the encoding of the number it denotes. */
  lemma FieldOf(s: seq<byte>)
    ensures ToLE(FromLE(s), |s|) == s
  {
    LERoundTrip(FromLE(s), |s|);
    FromLEInjective(ToLE(FromLE(s), |s|), s);
  }

  /** Only encodings decode: an accepted buffer carries, up to the padding, exactly the bytes
      `encode_record` writes for the record returned. */
  lemma DecodeAcceptsOnlyEncodings(crc: Checksum, buf: seq<byte>)
    requires DecodeRecord(crc, buf).Ok?
    ensures var r := DecodeRecord(crc, buf).record;
            var n := HEADER_SIZE + |r.key| + |r.value|;
            Encodable(r) && n <= |buf| && buf[..n] == RecordBytes(crc, r)[..n]
  {
    hide ToLE, FromLE;
    var r := DecodeRecord(crc, buf).record;
    var n := HEADER_SIZE + |r.key| + |r.value|;
    BodyOfFields(buf, r);
    assert buf[..n] == buf[0..4] + Body(r) by { assert buf[..n] == buf[0..4] + buf[4..n]; }
    assert buf[0..4] == ToLE(crc(Body(r)), 4) by { FieldOf(buf[0..4]); }
    Pow256Widths();
  }

  /** The checksummed bytes are those of the record their fields denote. */
  lemma BodyOfFields(buf: seq<byte>, r: Record)
    requires HEADER_SIZE + |r.key| + |r.value| <= |buf|
    requires r.ts == FromLE(buf[4..12]) && |r.key| == FromLE(buf[12..16]) && |r.value| == FromLE(buf[16..20])
    requires KindByte(r.kind) == buf[20] && r.key == buf[HEADER_SIZE..HEADER_SIZE + |r.key|]
    requires r.value == buf[HEADER_SIZE + |r.key|..HEADER_SIZE + |r.key| + |r.value|]
    ensures buf[4..HEADER_SIZE + |r.key| + |r.value|] == Body(r)
  {
    hide ToLE, FromLE;
    var n := HEADER_SIZE + |r.key| + |r.value|;
    FieldOf(buf[4..12]);
    FieldOf(buf[12..16]);
    FieldOf(buf[16..20]);
    assert buf[4..n] == buf[4..12] + buf[12..16] + buf[16..20] + [buf[20]] + buf[21..n];
    assert buf[21..n] == r.key + r.value;
  }

  /** A buffer whose checksum field is still zero and whose fields are filled up to `body`. */
  predicate FilledTo(s: seq<byte>, body: seq<byte>) {
    4 + |body| <= |s| && s[..4] == Zeros(4) && s[4..4 + |body|] == body && s[4 + |body|..] == Zeros(|s| - 4 - |body|)
  }

  /** `copy_from_slice` of the next field, just after those already filled. */
  method PutField(buf: array<byte>, ghost body: seq<byte>, at: nat, src: seq<byte>)
    requires FilledTo(buf[..], body) && at == 4 + |body| && at + |src| <= buf.Length
    modifies buf
    ensures FilledTo(buf[..], body + src)
  {
    for i := 0 to |src|
      invariant buf[..4] == Zeros(4)
      invariant buf[4..at] == body
      invariant buf[at..at + i] == src[..i]
      invariant forall j :: at + i <= j < buf.Length ==> buf[j] == 0
    {
      buf[at + i] := src[i];
    }
    assert buf[4..at + |src|] == buf[4..at] + buf[at..at + |src|];
  }

  /** `encode_record`: a zeroed buffer filled field by field, the checksum last. */
  method EncodeRecord(crc: Checksum, key: Key, value: Value, kind: RecordKind, ts: nat) returns (buf: array<byte>)
    ensures fresh(buf) && buf[..] == RecordBytes(crc, Record(ts, kind, key, value))
  {
    hide ToLE, KindByte;
    var padded := PaddedRecordSize(|key|, |value|);
    buf := new byte[padded](_ => 0);
    ghost var b0: seq<byte> := [];
    PutField(buf, b0, 4, ToLE(ts, 8));
    ghost var b1 := b0 + ToLE(ts, 8);
    PutField(buf, b1, 12, ToLE(|key|, 4));
    ghost var b2 := b1 + ToLE(|key|, 4);
    PutField(buf, b2, 16, ToLE(|value|, 4));
    ghost var b3 := b2 + ToLE(|value|, 4);
    PutField(buf, b3, 20, [KindByte(kind)]);
    ghost var b4 := b3 + [KindByte(kind)];
    PutField(buf, b4, 21, key);
    PutField(buf, b4 + key, 21 + |key|, value);
    assert b1 == ToLE(ts, 8);
    PutChecksum(crc, buf, 21 + |key| + |value|, Body(Record(ts, kind, key, value)));
  }

  /** The last store of `encode_record`: the checksum of the filled fields. */
  method PutChecksum(crc: Checksum, buf: array<byte>, crcEnd: nat, ghost body: seq<byte>)
    requires crcEnd == 4 + |body| && FilledTo(buf[..], body)
    modifies buf
    ensures buf[..] == ToLE(crc(body), 4) + body + Zeros(buf.Length - 4 - |body|)
  {
    ghost var filled := buf[..];
    var sum := ToLE(crc(buf[4..crcEnd]), 4);
    buf[0], buf[1], buf[2], buf[3] := sum[0], sum[1], sum[2], sum[3];
    assert buf[..4] == sum;
    assert buf[4..crcEnd] == filled[4..crcEnd];
    assert buf[crcEnd..] == filled[crcEnd..];
    assert buf[..] == buf[..4] + buf[4..crcEnd] + buf[crcEnd..];
  }
}
