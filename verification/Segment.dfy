/** Scanning a segment file: `segment.rs`. */
module SegmentScan {
  import opened Bytes
  import opened Records

  /** A record and the offset it was read at. */
  datatype Found = Found(offset: nat, rec: Record)

  /** One iteration of `scan_file` on the bytes left: a whole, valid record, or the end of the scan. */
  function RecordAt(crc: Checksum, s: seq<byte>): (r: Option<Record>)
    ensures r.Some? ==> Encodable(r.value) && SizeOf(r.value) <= |s|
  {
    if |s| < HEADER_SIZE then None
    else
      var padded := PaddedRecordSize(FromLE(s[12..16]), FromLE(s[16..20]));
      if |s| < padded then None
      else
        var d := DecodeRecord(crc, s[..padded]);
        if d.Err? then None else
          DecodedSizes(crc, s, padded);
          Some(d.record)
  }

  /** The sizes decoded are those the scan read ahead. */
  lemma DecodedSizes(crc: Checksum, s: seq<byte>, padded: nat)
    requires HEADER_SIZE <= |s| && padded == PaddedRecordSize(FromLE(s[12..16]), FromLE(s[16..20])) <= |s|
    requires DecodeRecord(crc, s[..padded]).Ok?
    ensures var r := DecodeRecord(crc, s[..padded]).record; Encodable(r) && SizeOf(r) == padded
  {
    hide FromLE;
    assert s[..padded][12..16] == s[12..16] && s[..padded][16..20] == s[16..20];
    DecodeAcceptsOnlyEncodings(crc, s[..padded]);
  }

  /** Every record a scan of `s` reports, `s` starting at offset `base` of the file. */
  function Scan(crc: Checksum, s: seq<byte>, base: nat): (fs: seq<Found>)
    decreases |s|
  {
    var r := RecordAt(crc, s);
    if r.None? then [] else [Found(base, r.value)] + Scan(crc, s[SizeOf(r.value)..], base + SizeOf(r.value))
  }

  /** Where it stops: the truncation point. */
  function ScanEnd(crc: Checksum, s: seq<byte>, base: nat): (e: nat)
    ensures base <= e <= base + |s|
    decreases |s|
  {
    var r := RecordAt(crc, s);
    if r.None? then base else ScanEnd(crc, s[SizeOf(r.value)..], base + SizeOf(r.value))
  }

  /** `scan_file`. */
  method ScanFile(crc: Checksum, file: seq<byte>) returns (found: seq<Found>, offset: nat)
    ensures found == Scan(crc, file, 0) && offset == ScanEnd(crc, file, 0)
  {
    hide FromLE, DecodeRecord, PaddedRecordSize, Scan, ScanEnd;
    found, offset := [], 0;
    assert file[0..] == file;
    while true
      invariant offset <= |file|
      invariant found + Scan(crc, file[offset..], offset) == Scan(crc, file, 0)
      invariant ScanEnd(crc, file[offset..], offset) == ScanEnd(crc, file, 0)
      decreases |file| - offset
    {
      var rest := file[offset..];
      if |rest| < HEADER_SIZE {
        ScanStops(crc, rest, offset);
        break;
      }
      var padded := PaddedRecordSize(FromLE(rest[12..16]), FromLE(rest[16..20]));
      if |rest| < padded {
        ScanStops(crc, rest, offset);
        break;
      }
      match DecodeRecord(crc, rest[..padded]) {
        case Err(_) =>
          ScanStops(crc, rest, offset);
          break;
        case Ok(rec) =>
          DecodedSizes(crc, rest, padded);
          ScanNext(crc, rec, rest, offset);
          assert file[offset + padded..] == rest[padded..];
          found := found + [Found(offset, rec)];
          offset := offset + padded;
      }
    }
  }

  // ---- What a scan finds in a file written by appends ----

  /** Records one after the other. */
  function Image(crc: Checksum, recs: seq<Record>): seq<byte> {
    if recs == [] then [] else RecordBytes(crc, recs[0]) + Image(crc, recs[1..])
  }

  /** The records of an image, with their offsets. */
  function Places(recs: seq<Record>, base: nat): (fs: seq<Found>)
    ensures |fs| == |recs|
  {
    if recs == [] then [] else [Found(base, recs[0])] + Places(recs[1..], base + SizeOf(recs[0]))
  }

  predicate AllEncodable(recs: seq<Record>) {
    forall i :: 0 <= i < |recs| ==> Encodable(recs[i])
  }

  lemma {:induction false} ImageSize(crc: Checksum, recs: seq<Record>)
    ensures |Image(crc, recs)| == TotalSize(recs)
  {
    if recs != [] {
      ImageSize(crc, recs[1..]);
    }
  }

  lemma NoImage(crc: Checksum)
    ensures Image(crc, []) == [] && TotalSize([]) == 0
  {
  }

  lemma FirstImage(crc: Checksum, recs: seq<Record>)
    requires recs != []
    ensures Image(crc, recs) == RecordBytes(crc, recs[0]) + Image(crc, recs[1..])
    ensures TotalSize(recs) == SizeOf(recs[0]) + TotalSize(recs[1..])
  {
    hide RecordBytes, SizeOf;
  }

  lemma {:induction false} ImageConcat(crc: Checksum, a: seq<Record>, b: seq<Record>)
    ensures Image(crc, a + b) == Image(crc, a) + Image(crc, b) && TotalSize(a + b) == TotalSize(a) + TotalSize(b)
  {
    hide RecordBytes, SizeOf, Image, TotalSize;
    if a == [] {
      assert a + b == b;
      NoImage(crc);
    } else {
      ImageConcat(crc, a[1..], b);
      assert (a + b)[1..] == a[1..] + b;
      FirstImage(crc, a);
      FirstImage(crc, a + b);
      assert RecordBytes(crc, a[0]) + (Image(crc, a[1..]) + Image(crc, b)) == Image(crc, a) + Image(crc, b);
    }
  }

  lemma NoRecords(base: nat)
    ensures Places([], base) == [] && TotalSize([]) == 0
  {
  }

  lemma FirstRecord(recs: seq<Record>, base: nat)
    requires recs != []
    ensures Places(recs, base) == [Found(base, recs[0])] + Places(recs[1..], base + SizeOf(recs[0]))
    ensures TotalSize(recs) == SizeOf(recs[0]) + TotalSize(recs[1..])
  {
    hide SizeOf;
  }

  lemma {:induction false} PlacesConcat(a: seq<Record>, b: seq<Record>, base: nat)
    ensures Places(a + b, base) == Places(a, base) + Places(b, base + TotalSize(a))
  {
    hide SizeOf, Places, TotalSize;
    if a == [] {
      assert a + b == b;
      NoRecords(base);
    } else {
      var next := base + SizeOf(a[0]);
      PlacesConcat(a[1..], b, next);
      assert (a + b)[1..] == a[1..] + b;
      FirstRecord(a + b, base);
      FirstRecord(a, base);
      assert [Found(base, a[0])] + (Places(a[1..], next) + Places(b, base + TotalSize(a))) == Places(a, base) + Places(b, base + TotalSize(a));
    }
  }

  /** A whole record at the front is found, whatever follows. */
  lemma FindsRecord(crc: Checksum, r: Record, rest: seq<byte>)
    requires Encodable(r)
    ensures RecordAt(crc, RecordBytes(crc, r) + rest) == Some(r)
  {
    hide ToLE, FromLE, Body, RecordBytes, DecodeRecord;
    var s := RecordBytes(crc, r) + rest;
    RecordFields(crc, r, rest);
    Pow256Widths();
    LERoundTrip(|r.key|, 4);
    LERoundTrip(|r.value|, 4);
    assert s[..SizeOf(r)] == RecordBytes(crc, r) + [];
    DecodeEncode(crc, r, []);
  }

  /** A record whose last byte is missing is not found: its size is read, or even that is missing. */
  lemma MissesCutRecord(crc: Checksum, r: Record, n: nat)
    requires Encodable(r) && n < SizeOf(r)
    ensures RecordAt(crc, RecordBytes(crc, r)[..n]) == None
  {
    if HEADER_SIZE <= n {
      hide ToLE, FromLE, Body, RecordBytes, DecodeRecord;
      var s := RecordBytes(crc, r);
      RecordFields(crc, r, []);
      assert s + [] == s;
      Pow256Widths();
      LERoundTrip(|r.key|, 4);
      LERoundTrip(|r.value|, 4);
      assert s[..n][12..16] == s[12..16] && s[..n][16..20] == s[16..20];
    }
  }

  /** A torn record whose header survived, followed by anything - zeros of the preallocation, bytes of an
      earlier write - is taken for a record if and only if enough bytes follow and their checksum is the
      one its header holds. */
  lemma TornRecordIff(crc: Checksum, r: Record, n: nat, junk: seq<byte>)
    requires Encodable(r) && HEADER_SIZE <= n <= SizeOf(r)
    ensures var s := RecordBytes(crc, r)[..n] + junk;
            RecordAt(crc, s).Some? <==> SizeOf(r) <= |s| && crc(s[4..HEADER_SIZE + |r.key| + |r.value|]) == crc(Body(r))
  {
    hide ToLE, FromLE, Body, RecordBytes, PaddedRecordSize;
    var b := RecordBytes(crc, r);
    var s := b[..n] + junk;
    RecordFields(crc, r, []);
    assert b + [] == b;
    Pow256Widths();
    LERoundTrip(|r.key|, 4);
    LERoundTrip(|r.value|, 4);
    LERoundTrip(crc(Body(r)), 4);
    assert s[0..4] == b[0..4] && s[12..16] == b[12..16] && s[16..20] == b[16..20] && s[20] == b[20];
    if SizeOf(r) <= |s| {
      var d := s[..SizeOf(r)];
      assert d[0..4] == s[0..4] && d[12..16] == s[12..16] && d[16..20] == s[16..20] && d[20] == s[20];
      assert d[4..HEADER_SIZE + |r.key| + |r.value|] == s[4..HEADER_SIZE + |r.key| + |r.value|];
    }
  }

  /** The preallocated tail of a segment holds no record, if the checksum of an all-zero header is not
      zero; CRC-32C's is not. */
  lemma MissesZeros(crc: Checksum, n: nat)
    requires crc(Zeros(17)) != 0
    ensures RecordAt(crc, Zeros(n)) == None
  {
    hide FromLE, Zeros;
    if HEADER_SIZE <= n {
      ZeroSlice(n, 12, 16);
      ZeroSlice(n, 16, 20);
      ZeroLE(4);
      if 128 <= n {
        ZeroSlice(n, 0, 128);
        ZeroSlice(128, 0, 4);
        ZeroSlice(128, 12, 16);
        ZeroSlice(128, 16, 20);
        ZeroSlice(128, 4, 21);
        assert Zeros(n)[..128] == Zeros(n)[0..128];
      }
    }
  }

  lemma ZeroSlice(n: nat, i: nat, j: nat)
    requires i <= j <= n
    ensures |Zeros(n)| == n && Zeros(n)[i..j] == Zeros(j - i)
  {
  }

  lemma {:induction false} ZeroLE(n: nat)
    ensures FromLE(Zeros(n)) == 0
  {
    if n > 0 {
      ZeroLE(n - 1);
      assert Zeros(n)[1..] == Zeros(n - 1);
    }
  }

  lemma ScanStops(crc: Checksum, s: seq<byte>, base: nat)
    requires RecordAt(crc, s) == None
    ensures Scan(crc, s, base) == [] && ScanEnd(crc, s, base) == base
  {
    hide RecordAt;
  }

  lemma ScanNext(crc: Checksum, r: Record, s: seq<byte>, base: nat)
    requires RecordAt(crc, s) == Some(r)
    ensures Scan(crc, s, base) == [Found(base, r)] + Scan(crc, s[SizeOf(r)..], base + SizeOf(r))
    ensures ScanEnd(crc, s, base) == ScanEnd(crc, s[SizeOf(r)..], base + SizeOf(r))
  {
    hide RecordAt, SizeOf;
  }

  /** Scanning whole records followed by anything reports them and goes on with what follows. */
  lemma {:induction false} ScanImage(crc: Checksum, recs: seq<Record>, rest: seq<byte>, base: nat)
    requires AllEncodable(recs)
    ensures Scan(crc, Image(crc, recs) + rest, base) == Places(recs, base) + Scan(crc, rest, base + TotalSize(recs))
    ensures ScanEnd(crc, Image(crc, recs) + rest, base) == ScanEnd(crc, rest, base + TotalSize(recs))
  {
    hide RecordAt, RecordBytes, SizeOf, Scan, ScanEnd, Places, TotalSize;
    if recs == [] {
      assert Image(crc, recs) + rest == rest;
      NoRecords(base);
    } else {
      var tail := Image(crc, recs[1..]) + rest;
      FindsRecord(crc, recs[0], tail);
      ScanImage(crc, recs[1..], rest, base + SizeOf(recs[0]));
      var s := RecordBytes(crc, recs[0]) + tail;
      assert Image(crc, recs) + rest == s;
      assert s[SizeOf(recs[0])..] == tail;
      ScanNext(crc, recs[0], s, base);
      FirstRecord(recs, base);
    }
  }

  /** The records that end within the first `n` bytes. */
  function Whole(recs: seq<Record>, n: nat): (k: nat)
    ensures k <= |recs|
  {
    if recs == [] || n < SizeOf(recs[0]) then 0 else 1 + Whole(recs[1..], n - SizeOf(recs[0]))
  }

  lemma {:induction false} WholeFits(recs: seq<Record>, n: nat)
    ensures TotalSize(recs[..Whole(recs, n)]) <= n
    ensures Whole(recs, n) < |recs| ==> n < TotalSize(recs[..Whole(recs, n)]) + SizeOf(recs[Whole(recs, n)])
  {
    if recs != [] && n >= SizeOf(recs[0]) {
      WholeFits(recs[1..], n - SizeOf(recs[0]));
      assert recs[..Whole(recs, n)][1..] == recs[1..][..Whole(recs[1..], n - SizeOf(recs[0]))];
    }
  }

  /** The first `k` records followed by bytes that hold none: exactly those records are shown, and the scan
      stops after the last of them. */
  lemma ScanCut(crc: Checksum, recs: seq<Record>, k: nat, junk: seq<byte>, base: nat)
    requires AllEncodable(recs) && k <= |recs| && RecordAt(crc, junk) == None
    ensures Scan(crc, Image(crc, recs[..k]) + junk, base) == Places(recs[..k], base)
    ensures ScanEnd(crc, Image(crc, recs[..k]) + junk, base) == base + TotalSize(recs[..k])
  {
    hide RecordAt, Image, Places, TotalSize;
    ScanImage(crc, recs[..k], junk, base);
    assert Places(recs[..k], base) + [] == Places(recs[..k], base);
  }

  /** Every cut of a file has that form: whole records, then a part that is none. */
  lemma {:induction false} CutForm(crc: Checksum, recs: seq<Record>, n: nat)
    requires AllEncodable(recs) && n <= |Image(crc, recs)|
    ensures var whole := recs[..Whole(recs, n)];
            && |Image(crc, whole)| <= n && Image(crc, recs)[..n] == Image(crc, whole) + Image(crc, recs)[|Image(crc, whole)|..n]
            && RecordAt(crc, Image(crc, recs)[|Image(crc, whole)|..n]) == None
  {
    hide RecordBytes, RecordAt, SizeOf;
    var f := Image(crc, recs);
    if recs == [] {
      EmptyTail(crc);
      assert f[0..n] == [];
    } else {
      var (r, rest) := (recs[0], Image(crc, recs[1..]));
      if n < SizeOf(r) {
        assert f[0..n] == f[..n] == RecordBytes(crc, r)[..n];
        MissesCutRecord(crc, r, n);
      } else {
        var m := n - SizeOf(r);
        CutForm(crc, recs[1..], m);
        var whole := recs[..Whole(recs, n)];
        assert whole[1..] == recs[1..][..Whole(recs[1..], m)];
        var inner := Image(crc, whole[1..]);
        assert Image(crc, whole) == RecordBytes(crc, r) + inner;
        assert f[|Image(crc, whole)|..n] == rest[|inner|..m];
        assert f[..n] == RecordBytes(crc, r) + rest[..m];
      }
    }
  }

  /** Bytes behind a record do not hide it. */
  lemma RecordAtStable(crc: Checksum, s: seq<byte>, t: seq<byte>)
    requires RecordAt(crc, s).Some?
    ensures RecordAt(crc, s + t) == RecordAt(crc, s)
  {
    hide FromLE, DecodeRecord, PaddedRecordSize;
    assert (s + t)[12..16] == s[12..16] && (s + t)[16..20] == s[16..20];
    var padded := PaddedRecordSize(FromLE(s[12..16]), FromLE(s[16..20]));
    assert (s + t)[..padded] == s[..padded];
  }

  /** A file that is records to its end is scanned on into what follows it. */
  lemma {:induction false} ScanOn(crc: Checksum, s: seq<byte>, t: seq<byte>, base: nat)
    requires ScanEnd(crc, s, base) == base + |s|
    ensures Scan(crc, s + t, base) == Scan(crc, s, base) + Scan(crc, t, base + |s|)
    ensures ScanEnd(crc, s + t, base) == ScanEnd(crc, t, base + |s|)
    decreases |s|
  {
    hide RecordAt, Scan, ScanEnd, SizeOf;
    if RecordAt(crc, s).None? {
      ScanStops(crc, s, base);
      assert s + t == t;
      assert [] + Scan(crc, t, base) == Scan(crc, t, base);
    } else {
      var r := RecordAt(crc, s).value;
      RecordAtStable(crc, s, t);
      assert (s + t)[SizeOf(r)..] == s[SizeOf(r)..] + t;
      ScanNext(crc, r, s, base);
      ScanNext(crc, r, s + t, base);
      ScanOn(crc, s[SizeOf(r)..], t, base + SizeOf(r));
      assert Scan(crc, s, base) + Scan(crc, t, base + |s|) == [Found(base, r)] + (Scan(crc, s[SizeOf(r)..], base + SizeOf(r)) + Scan(crc, t, base + |s|));
    }
  }

  lemma EmptyTail(crc: Checksum)
    ensures RecordAt(crc, []) == None
  {
  }
}
