/** What reopening shows of a segment a crash has cut: whole blobs and nothing else, and what later sessions
    can rely on. */
module SegmentRecovery {
  import opened Bytes
  import opened Records
  import opened Batches
  import opened SegmentScan
  import opened BatchGates

  function Layout(blobs: seq<Blob>): seq<Record> {
    if blobs == [] then [] else BlobRecords(blobs[0]) + Layout(blobs[1..])
  }

  /** The bytes of a segment to which `blobs` were appended. */
  function FileOf(crc: Checksum, blobs: seq<Blob>): seq<byte> {
    Image(crc, Layout(blobs))
  }

  /** What a crash leaves of them: the first `k` records, and behind those bytes that hold no record - part
      of the next one, the zeros of the preallocation, anything. */
  function Torn(crc: Checksum, blobs: seq<Blob>, k: nat, junk: seq<byte>): seq<byte>
    requires k <= |Layout(blobs)|
  {
    Image(crc, Layout(blobs)[..k]) + junk
  }

  /** The data records of the blobs, with their offsets. */
  function DataPlaces(blobs: seq<Blob>, base: nat): seq<Found> {
    if blobs == [] then [] else BlobPlaces(blobs[0], base) + DataPlaces(blobs[1..], base + BlobSize(blobs[0]))
  }

  /** What recovery applies from a segment file. */
  function Recovered(crc: Checksum, file: seq<byte>): seq<Found> {
    Applied(CLOSED, Scan(crc, file, 0))
  }

  predicate BlobsOk(blobs: seq<Blob>) {
    forall i :: 0 <= i < |blobs| ==> WellFormed(blobs[i]) && AllEncodable(BlobRecords(blobs[i]))
  }

  /** The blobs that lie within the first `k` records. */
  function WholeBlobs(blobs: seq<Blob>, k: nat): (n: nat)
    ensures n <= |blobs|
  {
    if blobs == [] || k < |BlobRecords(blobs[0])| then 0 else 1 + WholeBlobs(blobs[1..], k - |BlobRecords(blobs[0])|)
  }

  /** The cut falls inside a batch of at least two members and leaves its header. */
  predicate TornInside(blobs: seq<Blob>, k: nat) {
    if blobs == [] then false
    else if k < |BlobRecords(blobs[0])| then blobs[0].header.Some? && |blobs[0].recs| >= 2 && k >= 1
    else TornInside(blobs[1..], k - |BlobRecords(blobs[0])|)
  }

  // ---- The gate at a cut ----

  lemma PlacesPrefix(recs: seq<Record>, k: nat, base: nat)
    requires k <= |recs|
    ensures Places(recs[..k], base) == Places(recs, base)[..k]
  {
    PlacesConcat(recs[..k], recs[k..], base);
    assert recs[..k] + recs[k..] == recs;
  }

  /** A gate no later record can tell from a closed one. */
  predicate Harmless(g: Gate) {
    g.expected.None? || g == Gate(Some(1), [])
  }

  /** The gate after the records that survived. */
  lemma {:induction false} GateCut(blobs: seq<Blob>, k: nat, base: nat)
    requires BlobsOk(blobs) && k <= |Layout(blobs)|
    ensures var fs := Places(Layout(blobs)[..k], base);
            && Applied(CLOSED, fs) == DataPlaces(blobs[..WholeBlobs(blobs, k)], base)
            && (Harmless(After(CLOSED, fs)) <==> !TornInside(blobs, k))
    decreases |blobs|
  {
    hide Places, Applied, After, BlobRecords, WellFormed, Harmless, BlobPlaces, BlobSize;
    if blobs == [] {
      NothingGated(base);
    } else {
      var (b, r, rest) := (blobs[0], BlobRecords(blobs[0]), Layout(blobs[1..]));
      assert WellFormed(b);
      if k < |r| {
        assert Layout(blobs)[..k] == r[..k];
        FirstBlobCut(b, k, base);
      } else {
        assert Layout(blobs)[..k] == r + rest[..k - |r|];
        FirstBlobWhole(b, rest[..k - |r|], base);
        GateCut(blobs[1..], k - |r|, base + BlobSize(b));
        DataPlacesTail(blobs, WholeBlobs(blobs, k), base);
      }
    }
  }

  lemma NothingGated(base: nat)
    ensures Places([][..0], base) == [] && Applied(CLOSED, []) == [] && After(CLOSED, []) == CLOSED && Harmless(CLOSED)
  {
  }

  lemma DataPlacesTail(blobs: seq<Blob>, k: nat, base: nat)
    requires 1 <= k <= |blobs|
    ensures DataPlaces(blobs[..k], base) == BlobPlaces(blobs[0], base) + DataPlaces(blobs[1..][..k - 1], base + BlobSize(blobs[0]))
  {
    hide BlobPlaces, BlobSize;
    assert blobs[..k][1..] == blobs[1..][..k - 1];
  }

  lemma FirstBlobCut(b: Blob, k: nat, base: nat)
    requires WellFormed(b) && k < |BlobRecords(b)|
    ensures var fs := Places(BlobRecords(b)[..k], base);
            && Applied(CLOSED, fs) == []
            && (Harmless(After(CLOSED, fs)) <==> !(b.header.Some? && |b.recs| >= 2 && k >= 1))
  {
    hide Places, Applied, After;
    PlacesPrefix(BlobRecords(b), k, base);
    if b.header.None? || k == 0 {
      BlobGated(b, base, k);
    } else {
      CutBatchGate(b, base, k);
      BatchGated(b, base, k);
    }
  }

  lemma CutBatchGate(b: Blob, base: nat, k: nat)
    requires WellFormed(b) && b.header.Some? && 1 <= k < |BlobRecords(b)|
    ensures After(CLOSED, Places(BlobRecords(b), base)[..k]) == Gate(Some(|b.recs|), BlobPlaces(b, base)[..k - 1])
  {
    hide Places;
    var recs := BlobRecords(b);
    var fs := Places(recs, base)[..k];
    var members := BlobPlaces(b, base);
    assert Places(recs, base) == [Found(base, recs[0])] + members by { PlacesHead(b, base); }
    AnnouncedHeader(b);
    MembersHaveNoHeader(b, base + PaddedRecordSize(0, 4), k - 1);
    RunHeld(|b.recs|, [], members[..k - 1]);
    assert fs[1..] == members[..k - 1];
    assert [] + members[..k - 1] == members[..k - 1];
  }

  lemma FirstBlobWhole(b: Blob, rest: seq<Record>, base: nat)
    requires WellFormed(b)
    ensures var (fs, gs) := (Places(BlobRecords(b) + rest, base), Places(rest, base + BlobSize(b)));
            && Applied(CLOSED, fs) == BlobPlaces(b, base) + Applied(CLOSED, gs)
            && After(CLOSED, fs) == After(CLOSED, gs)
  {
    hide Places, Applied, After, BlobRecords, BlobPlaces;
    var r := BlobRecords(b);
    PlacesConcat(r, rest, base);
    BlobGated(b, base, |r|);
    assert Places(r, base)[..|r|] == Places(r, base);
    AppliedConcat(CLOSED, Places(r, base), Places(rest, base + TotalSize(r)));
  }

  // ---- One session ----

  lemma {:induction false} LayoutEncodable(blobs: seq<Blob>)
    requires BlobsOk(blobs)
    ensures AllEncodable(Layout(blobs))
  {
    hide BlobRecords, Encodable;
    if blobs != [] {
      LayoutEncodable(blobs[1..]);
    }
  }

  lemma EncodablePrefix(recs: seq<Record>, k: nat)
    requires AllEncodable(recs) && k <= |recs|
    ensures AllEncodable(recs[..k])
  {
  }

  /** The file the next session appends to: everything after the last valid record cut off. */
  function Truncated(crc: Checksum, file: seq<byte>): (t: seq<byte>)
    ensures t <= file
  {
    file[..ScanEnd(crc, file, 0)]
  }

  /** A file cut at any byte and followed by anything is a torn one, as long as the part left of the record
      that was cut does not form a record with what follows; alone it never does. */
  lemma ByteCut(crc: Checksum, blobs: seq<Blob>, n: nat, tail: seq<byte>)
    requires BlobsOk(blobs) && n <= |FileOf(crc, blobs)|
    ensures var (file, k) := (FileOf(crc, blobs), Whole(Layout(blobs), n));
            var whole := |Image(crc, Layout(blobs)[..k])|;
            && whole <= n && file[..n] + tail == Torn(crc, blobs, k, file[whole..n] + tail)
            && RecordAt(crc, file[whole..n]) == None
  {
    hide BlobsOk, Image, Whole, RecordAt;
    LayoutEncodable(blobs);
    CutForm(crc, Layout(blobs), n);
  }

  /** A segment a crash has cut, at any record and with any bytes behind it, recovers exactly the data
      records of its whole blobs, in order and at their offsets: all members of a batch or none. The
      truncation keeps every whole record, those of a torn batch too. */
  lemma CutRecovers(crc: Checksum, blobs: seq<Blob>, k: nat, junk: seq<byte>)
    requires BlobsOk(blobs) && k <= |Layout(blobs)| && RecordAt(crc, junk) == None
    ensures Recovered(crc, Torn(crc, blobs, k, junk)) == DataPlaces(blobs[..WholeBlobs(blobs, k)], 0)
    ensures Truncated(crc, Torn(crc, blobs, k, junk)) == Image(crc, Layout(blobs)[..k])
  {
    hide BlobsOk, Scan, ScanEnd, Image, Places, Applied, RecordAt;
    LayoutEncodable(blobs);
    ScanCut(crc, Layout(blobs), k, junk, 0);
    ImageSize(crc, Layout(blobs)[..k]);
    GateCut(blobs, k, 0);
  }

  // ---- The session after ----

  /** The second recovery: the gate goes through what is left of the first session, then through what the
      second session wrote. */
  lemma SecondRecovery(crc: Checksum, blobs: seq<Blob>, k: nat, junk: seq<byte>, more: seq<byte>)
    requires BlobsOk(blobs) && k <= |Layout(blobs)| && RecordAt(crc, junk) == None
    ensures var file := Torn(crc, blobs, k, junk);
            var (t, fs) := (Truncated(crc, file), Places(Layout(blobs)[..k], 0));
            Recovered(crc, t + more) == Recovered(crc, file) + Applied(After(CLOSED, fs), Scan(crc, more, |t|))
  {
    hide BlobsOk, Scan, ScanEnd, Image, Places, Applied, After, Truncated, RecordAt;
    var all := Layout(blobs);
    CutRecovers(crc, blobs, k, junk);
    LayoutEncodable(blobs);
    EncodablePrefix(all, k);
    ScanImage(crc, all[..k], more, 0);
    ScanCut(crc, all, k, junk, 0);
    ImageSize(crc, all[..k]);
    AppliedConcat(CLOSED, Places(all[..k], 0), Scan(crc, more, TotalSize(all[..k])));
  }

  lemma {:induction false} HarmlessApplies(g: Gate, fs: seq<Found>)
    requires GateOk(g) && Harmless(g)
    ensures Applied(g, fs) == Applied(CLOSED, fs) && (Harmless(After(g, fs)) <==> Harmless(After(CLOSED, fs)))
  {
    if g.expected.Some? && fs != [] {
      assert [] + [fs[0]] == [fs[0]];
    }
  }

  lemma ScanBlobs(crc: Checksum, blobs: seq<Blob>, k: nat, junk: seq<byte>, base: nat)
    requires BlobsOk(blobs) && k <= |Layout(blobs)| && RecordAt(crc, junk) == None
    ensures var fs := Scan(crc, Torn(crc, blobs, k, junk), base);
            && Applied(CLOSED, fs) == DataPlaces(blobs[..WholeBlobs(blobs, k)], base)
            && (Harmless(After(CLOSED, fs)) <==> !TornInside(blobs, k))
  {
    hide BlobsOk, Scan, Image, Places, Applied, After, Harmless, RecordAt;
    LayoutEncodable(blobs);
    ScanCut(crc, Layout(blobs), k, junk, base);
    GateCut(blobs, k, base);
  }

  /** A harmful gate spoils a lone record: it stays withheld, or it releases the torn members. */
  lemma HarmfulGate(g: Gate, f: Found)
    requires GateOk(g) && !Harmless(g) && f.rec.kind != BatchBegin
    ensures Applied(g, [f]) != [f]
    ensures |g.pending| + 1 < g.expected.value ==> Applied(g, [f]) == []
    ensures |g.pending| + 1 == g.expected.value ==> Applied(g, [f]) == g.pending + [f] && g.pending != []
  {
    assert [f][1..] == [];
    assert Applied(Step(g, f), []) == [];
    assert |g.pending + [f]| == |g.pending| + 1;
  }

  /** The first session's crash, then `blobs'` appended and cut in their turn: when the first cut is not
      inside a batch of two or more, the next open shows the whole blobs of both. */
  lemma TwoSessions(crc: Checksum, blobs: seq<Blob>, k: nat, junk: seq<byte>, blobs': seq<Blob>, k': nat, junk': seq<byte>)
    requires BlobsOk(blobs) && k <= |Layout(blobs)| && RecordAt(crc, junk) == None && !TornInside(blobs, k)
    requires BlobsOk(blobs') && k' <= |Layout(blobs')| && RecordAt(crc, junk') == None
    ensures var t := Truncated(crc, Torn(crc, blobs, k, junk));
            Recovered(crc, t + Torn(crc, blobs', k', junk')) ==
            DataPlaces(blobs[..WholeBlobs(blobs, k)], 0) + DataPlaces(blobs'[..WholeBlobs(blobs', k')], |t|)
  {
    hide BlobsOk, Scan, Image, Places, Applied, After, Truncated, Harmless, GateOk, Recovered, Torn, RecordAt;
    var fs := Places(Layout(blobs)[..k], 0);
    var t := Truncated(crc, Torn(crc, blobs, k, junk));
    SecondRecovery(crc, blobs, k, junk, Torn(crc, blobs', k', junk'));
    CutRecovers(crc, blobs, k, junk);
    GateCut(blobs, k, 0);
    assert GateOk(CLOSED) by { ClosedOk(); }
    AfterOk(CLOSED, fs);
    HarmlessApplies(After(CLOSED, fs), Scan(crc, Torn(crc, blobs', k', junk'), |t|));
    ScanBlobs(crc, blobs', k', junk', |t|);
  }

  lemma ClosedOk()
    ensures GateOk(CLOSED)
  {
  }

  function Lone(r: Record): Blob {
    Blob(None, [r])
  }

  lemma LoneFile(crc: Checksum, r: Record, junk: seq<byte>, base: nat)
    requires Encodable(r) && RecordAt(crc, junk) == None
    ensures Scan(crc, FileOf(crc, [Lone(r)]) + junk, base) == [Found(base, r)]
  {
    hide RecordBytes, Scan, Image, RecordAt, Places;
    assert [Lone(r)][1..] == [];
    assert Layout([Lone(r)]) == [r] + [] == [r];
    assert [r][..1] == [r];
    ScanCut(crc, [r], 1, junk, base);
    FirstRecord([r], base);
    NoRecords(base + SizeOf(r));
    assert [r][1..] == [];
  }

  lemma SamePrefix(a: seq<Found>, x: seq<Found>, y: seq<Found>)
    requires a + x == a + y
    ensures x == y
  {
    assert (a + x)[|a|..] == x && (a + y)[|a|..] == y;
  }

  /** After a cut inside a batch of two or more, the session's first acknowledged record is lost or
      brings torn members back: never recovered as written. */
  lemma TornBatchSpoils(crc: Checksum, blobs: seq<Blob>, k: nat, junk: seq<byte>, r: Record, junk': seq<byte>)
    requires BlobsOk(blobs) && k <= |Layout(blobs)| && RecordAt(crc, junk) == None && TornInside(blobs, k)
    requires Encodable(r) && r.kind != BatchBegin && RecordAt(crc, junk') == None
    ensures var file := Torn(crc, blobs, k, junk);
            var t := Truncated(crc, file);
            Recovered(crc, t + (FileOf(crc, [Lone(r)]) + junk')) != Recovered(crc, file) + [Found(|t|, r)]
  {
    hide BlobsOk, Scan, Image, Places, Applied, After, Truncated, Harmless, GateOk, Recovered, RecordAt, Torn;
    var (file, fs) := (Torn(crc, blobs, k, junk), Places(Layout(blobs)[..k], 0));
    var t := Truncated(crc, file);
    SecondRecovery(crc, blobs, k, junk, FileOf(crc, [Lone(r)]) + junk');
    LoneFile(crc, r, junk', |t|);
    GateCut(blobs, k, 0);
    ClosedOk();
    AfterOk(CLOSED, fs);
    HarmfulGate(After(CLOSED, fs), Found(|t|, r));
    var before := Recovered(crc, file);
    if before + Applied(After(CLOSED, fs), [Found(|t|, r)]) == before + [Found(|t|, r)] {
      SamePrefix(before, Applied(After(CLOSED, fs), [Found(|t|, r)]), [Found(|t|, r)]);
    }
  }

  /** What a cut batch does to the next session's first record: lost if members are missing besides
      it, else taken for the missing member. */
  lemma TornBatchOutcome(crc: Checksum, b: Blob, k: nat, junk: seq<byte>, r: Record, junk': seq<byte>)
    requires BlobsOk([b]) && b.header.Some? && |b.recs| >= 2 && 1 <= k <= |b.recs| && RecordAt(crc, junk) == None
    requires Encodable(r) && r.kind != BatchBegin && RecordAt(crc, junk') == None
    ensures Layout([b]) == BlobRecords(b)
    ensures var t := Truncated(crc, Torn(crc, [b], k, junk));
            var after := Recovered(crc, t + (FileOf(crc, [Lone(r)]) + junk'));
            && (k < |b.recs| ==> after == [])
            && (k == |b.recs| ==> after == BlobPlaces(b, 0)[..k - 1] + [Found(|t|, r)])
  {
    hide Scan, Image, Places, Applied, After, Truncated, Recovered, RecordAt;
    assert [b][0] == b && WellFormed(b) && [b][1..] == [];
    assert Layout([b]) == BlobRecords(b) + Layout([]) == BlobRecords(b);
    var t := Truncated(crc, Torn(crc, [b], k, junk));
    assert [b][..0] == [] && DataPlaces([], 0) == [];
    CutRecovers(crc, [b], k, junk);
    SecondRecovery(crc, [b], k, junk, FileOf(crc, [Lone(r)]) + junk');
    LoneFile(crc, r, junk', |t|);
    PlacesPrefix(BlobRecords(b), k, 0);
    CutBatchGate(b, 0, k);
    HarmfulGate(Gate(Some(|b.recs|), BlobPlaces(b, 0)[..k - 1]), Found(|t|, r));
  }

  /** Exactly when the next session's appends are recovered as written. */
  lemma NextSessionIff(crc: Checksum, blobs: seq<Blob>, k: nat, junk: seq<byte>)
    requires BlobsOk(blobs) && k <= |Layout(blobs)| && RecordAt(crc, junk) == None
    ensures !TornInside(blobs, k) <==>
            forall blobs', junk' :: BlobsOk(blobs') && RecordAt(crc, junk') == None ==>
              var file := Torn(crc, blobs, k, junk);
              var t := Truncated(crc, file);
              Recovered(crc, t + (FileOf(crc, blobs') + junk')) == Recovered(crc, file) + DataPlaces(blobs', |t|)
  {
    hide Scan, Image, Places, Applied, After, Truncated, Recovered, RecordAt, Torn;
    var file := Torn(crc, blobs, k, junk);
    var t := Truncated(crc, file);
    if TornInside(blobs, k) {
      var r := Record(0, Scalar, [], []);
      TornBatchSpoils(crc, blobs, k, junk, r, junk);
      LonePlaces(r, |t|);
      assert BlobsOk([Lone(r)]);
    } else {
      forall blobs', junk' | BlobsOk(blobs') && RecordAt(crc, junk') == None
        ensures Recovered(crc, t + (FileOf(crc, blobs') + junk')) == Recovered(crc, file) + DataPlaces(blobs', |t|)
      {
        CutRecovers(crc, blobs, k, junk);
        AllWhole(crc, blobs', junk');
        TwoSessions(crc, blobs, k, junk, blobs', |Layout(blobs')|, junk');
      }
    }
  }

  lemma LonePlaces(r: Record, base: nat)
    ensures DataPlaces([Lone(r)], base) == [Found(base, r)]
  {
    assert [Lone(r)][1..] == [] && [r][1..] == [];
    assert DataPlaces([], base + BlobSize(Lone(r))) == [];
    assert Places([r], base) == [Found(base, r)] + Places([], base + SizeOf(r));
  }

  lemma {:induction false} WholeBlobsAll(blobs: seq<Blob>)
    ensures WholeBlobs(blobs, |Layout(blobs)|) == |blobs| && !TornInside(blobs, |Layout(blobs)|)
  {
    if blobs != [] {
      WholeBlobsAll(blobs[1..]);
    }
  }

  lemma AllWhole(crc: Checksum, blobs: seq<Blob>, junk: seq<byte>)
    ensures Torn(crc, blobs, |Layout(blobs)|, junk) == FileOf(crc, blobs) + junk
    ensures blobs[..WholeBlobs(blobs, |Layout(blobs)|)] == blobs
  {
    WholeBlobsAll(blobs);
    assert Layout(blobs)[..|Layout(blobs)|] == Layout(blobs);
  }

  // ---- Any number of sessions ----

  function Recs(fs: seq<Found>): seq<Record> {
    seq(|fs|, i requires 0 <= i < |fs| => fs[i].rec)
  }

  /** The data records of the blobs, in order. */
  function DataRecords(blobs: seq<Blob>): seq<Record> {
    if blobs == [] then [] else blobs[0].recs + DataRecords(blobs[1..])
  }

  lemma {:induction false} PlacesRecs(recs: seq<Record>, base: nat)
    ensures Recs(Places(recs, base)) == recs
  {
    hide SizeOf;
    if recs != [] {
      PlacesRecs(recs[1..], base + SizeOf(recs[0]));
      assert recs == [recs[0]] + recs[1..];
    }
  }

  lemma {:induction false} DataRecs(blobs: seq<Blob>, base: nat)
    ensures Recs(DataPlaces(blobs, base)) == DataRecords(blobs)
  {
    hide Places, BlobSize;
    if blobs != [] {
      DataRecs(blobs[1..], base + BlobSize(blobs[0]));
      PlacesRecs(blobs[0].recs, base + if blobs[0].header.None? then 0 else PaddedRecordSize(0, 4));
      assert Recs(DataPlaces(blobs, base)) == Recs(BlobPlaces(blobs[0], base)) + Recs(DataPlaces(blobs[1..], base + BlobSize(blobs[0])));
    }
  }

  lemma {:induction false} DataConcat(a: seq<Blob>, b: seq<Blob>)
    ensures DataRecords(a + b) == DataRecords(a) + DataRecords(b)
  {
    if a == [] {
      assert a + b == b;
    } else {
      assert (a + b)[1..] == a[1..] + b;
      DataConcat(a[1..], b);
    }
  }

  /** A file that holds `blobs` for good: it is records to its end, recovery applies exactly those of
      `blobs`, and nothing in it can swallow or revive a record appended later. */
  predicate Clean(crc: Checksum, file: seq<byte>, blobs: seq<Blob>) {
    var fs := Scan(crc, file, 0);
    ScanEnd(crc, file, 0) == |file| && Recs(Applied(CLOSED, fs)) == DataRecords(blobs) && Harmless(After(CLOSED, fs))
  }

  lemma NewFileClean(crc: Checksum)
    ensures Clean(crc, [], [])
  {
    hide DecodeRecord;
    EmptyTail(crc);
  }

  /** One session more, on a clean file, with its crash: the open after it shows what the file held and the
      whole blobs of the session; and the file it leaves is clean for those if and only if the cut did not
      fall inside a batch of two or more whose header survived. */
  lemma SessionIff(crc: Checksum, head: seq<byte>, before: seq<Blob>, blobs: seq<Blob>, k: nat, junk: seq<byte>)
    requires Clean(crc, head, before) && BlobsOk(blobs) && k <= |Layout(blobs)| && RecordAt(crc, junk) == None
    ensures var file := head + Torn(crc, blobs, k, junk);
            var kept := before + blobs[..WholeBlobs(blobs, k)];
            && Recs(Recovered(crc, file)) == DataRecords(kept)
            && (Clean(crc, Truncated(crc, file), kept) <==> !TornInside(blobs, k))
  {
    hide BlobsOk, Scan, ScanEnd, Image, Places, Applied, After, Harmless, GateOk, RecordAt, WholeBlobs, TornInside, DataPlaces, DataRecords, Recs;
    var (part, all) := (Torn(crc, blobs, k, junk), Layout(blobs));
    var (file, whole) := (head + part, Image(crc, all[..k]));
    var fs := Scan(crc, head, 0);
    LayoutEncodable(blobs);
    ScanOn(crc, head, part, 0);
    ScanCut(crc, all, k, junk, |head|);
    ImageSize(crc, all[..k]);
    assert file[..|head| + |whole|] == head + whole;
    GateAcross(crc, head, part, fs, blobs, k, junk);
    SessionRecords(before, blobs[..WholeBlobs(blobs, k)], |head|);
    // The truncated file, scanned again.
    ScanOn(crc, head, whole, 0);
    EmptyTail(crc);
    assert whole + [] == whole;
    ScanCut(crc, all, k, [], |head|);
  }

  lemma GateAcross(crc: Checksum, head: seq<byte>, part: seq<byte>, fs: seq<Found>, blobs: seq<Blob>, k: nat, junk: seq<byte>)
    requires fs == Scan(crc, head, 0) && Harmless(After(CLOSED, fs))
    requires BlobsOk(blobs) && k <= |Layout(blobs)| && RecordAt(crc, junk) == None && part == Torn(crc, blobs, k, junk)
    ensures var gs := Scan(crc, part, |head|);
            && Applied(CLOSED, fs + gs) == Applied(CLOSED, fs) + DataPlaces(blobs[..WholeBlobs(blobs, k)], |head|)
            && (Harmless(After(CLOSED, fs + gs)) <==> !TornInside(blobs, k))
  {
    hide BlobsOk, Scan, Image, Places, Applied, After, Harmless, GateOk, RecordAt, WholeBlobs, TornInside, DataPlaces, Torn;
    var gs := Scan(crc, part, |head|);
    AppliedConcat(CLOSED, fs, gs);
    ClosedOk();
    AfterOk(CLOSED, fs);
    HarmlessApplies(After(CLOSED, fs), gs);
    ScanBlobs(crc, blobs, k, junk, |head|);
  }

  lemma SessionRecords(before: seq<Blob>, kept: seq<Blob>, base: nat)
    ensures forall a: seq<Found> :: Recs(a) == DataRecords(before) ==> Recs(a + DataPlaces(kept, base)) == DataRecords(before + kept)
  {
    hide DataPlaces, DataRecords;
    DataRecs(kept, base);
    DataConcat(before, kept);
    forall a: seq<Found> | Recs(a) == DataRecords(before) ensures Recs(a + DataPlaces(kept, base)) == DataRecords(before + kept) {
      assert Recs(a + DataPlaces(kept, base)) == Recs(a) + Recs(DataPlaces(kept, base));
    }
  }
}
