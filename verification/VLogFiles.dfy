/** The bytes behind the segments of the machine: what a crash leaves of the files, opened again, is what
    the machine keeps. */
module VLogFiles {
  import opened Bytes
  import opened Records
  import opened Batches
  import opened SegmentScan
  import opened BatchGates
  import opened SegmentRecovery
  import opened VLogState
  import opened VLogPlaces
  import opened VLogRuns

  /** The first `d` blobs are from sessions before, and durable; `head` is what the last open left of them. The
      others were appended since. */
  ghost predicate HeldBy(crc: Checksum, file: seq<byte>, seg: Segment, head: seq<byte>, d: nat) {
    && d <= seg.synced <= |seg.blobs| && BlobsOk(seg.blobs[d..])
    && Clean(crc, head, seg.blobs[..d]) && file == head + FileOf(crc, seg.blobs[d..])
  }

  /** A file the store may append to. */
  ghost predicate Holds(crc: Checksum, file: seq<byte>, seg: Segment) {
    exists head, d :: HeldBy(crc, file, seg, head, d)
  }

  lemma NewHolds(crc: Checksum)
    ensures Holds(crc, [], Segment([], 0))
  {
    hide Clean;
    NewFileClean(crc);
    var none: seq<Blob> := [];
    assert none[0..] == [] && none[..0] == [] && FileOf(crc, []) == [];
    assert HeldBy(crc, [], Segment([], 0), [], 0);
  }

  /** A blob written by the committer. */
  lemma AppendHolds(crc: Checksum, file: seq<byte>, seg: Segment, b: Blob)
    requires Holds(crc, file, seg) && BlobsOk([b])
    ensures Holds(crc, file + FileOf(crc, [b]), Segment(seg.blobs + [b], seg.synced))
  {
    hide HeldBy, FileOf, BlobsOk;
    var head, d :| HeldBy(crc, file, seg, head, d);
    AppendHeld(crc, file, seg, b, head, d);
  }

  lemma AppendHeld(crc: Checksum, file: seq<byte>, seg: Segment, b: Blob, head: seq<byte>, d: nat)
    requires HeldBy(crc, file, seg, head, d) && BlobsOk([b])
    ensures HeldBy(crc, file + FileOf(crc, [b]), Segment(seg.blobs + [b], seg.synced), head, d)
  {
    hide Clean, FileOf, WellFormed, BlobRecords;
    var blobs := seg.blobs + [b];
    assert blobs[d..] == seg.blobs[d..] + [b] && blobs[..d] == seg.blobs[..d];
    FileConcat(crc, seg.blobs[d..], [b]);
    assert [b][0] == b;
    assert head + (FileOf(crc, seg.blobs[d..]) + FileOf(crc, [b])) == file + FileOf(crc, [b]);
  }

  lemma {:induction false} LayoutConcat(a: seq<Blob>, b: seq<Blob>)
    ensures Layout(a + b) == Layout(a) + Layout(b)
  {
    hide BlobRecords;
    if a == [] {
      assert a + b == b;
    } else {
      assert (a + b)[1..] == a[1..] + b;
      LayoutConcat(a[1..], b);
    }
  }

  lemma FileConcat(crc: Checksum, a: seq<Blob>, b: seq<Blob>)
    ensures FileOf(crc, a + b) == FileOf(crc, a) + FileOf(crc, b)
  {
    LayoutConcat(a, b);
    ImageConcat(crc, Layout(a), Layout(b));
  }

  // ---- A crash ----

  /** What a crash leaves of a file: `keep` whole blobs, `torn` whole records of the next, and behind them bytes
      that are no record. */
  ghost predicate LeftOf(crc: Checksum, seg: Segment, keep: nat, torn: nat, left: seq<byte>) {
    exists head, d, junk :: LeftBy(crc, seg, keep, torn, left, head, d, junk)
  }

  ghost predicate LeftBy(crc: Checksum, seg: Segment, keep: nat, torn: nat, left: seq<byte>, head: seq<byte>, d: nat, junk: seq<byte>) {
    && d <= keep <= |seg.blobs| && BlobsOk(seg.blobs[d..]) && Clean(crc, head, seg.blobs[..d])
    && RecordAt(crc, junk) == None && (torn > 0 ==> keep < |seg.blobs| && torn < |BlobRecords(seg.blobs[keep])|)
    && var k := |Layout(seg.blobs[d..keep])| + torn;
       k <= |Layout(seg.blobs[d..])| && left == head + Torn(crc, seg.blobs[d..], k, junk)
  }

  /** A file no open has truncated and no session has appended to since: it shows the blobs, all durable, a torn
      batch at its end or not. */
  ghost predicate Shown(crc: Checksum, file: seq<byte>, seg: Segment) {
    seg.synced == |seg.blobs| && Recs(Recovered(crc, file)) == DataRecords(seg.blobs)
  }

  /** The whole records within the first `n` bytes of an appended part, in bytes. */
  function WholeBytes(blobs: seq<Blob>, n: nat): (m: nat)
    ensures m <= n
  {
    WholeFits(Layout(blobs), n);
    TotalSize(Layout(blobs)[..Whole(Layout(blobs), n)])
  }

  /** A crash cut the file at byte `n`, not below what was synced, and left anything behind the cut: but the bytes
      behind the last whole record begin none. */
  ghost predicate CutBy(crc: Checksum, file: seq<byte>, seg: Segment, left: seq<byte>, head: seq<byte>, d: nat, n: nat) {
    && HeldBy(crc, file, seg, head, d) && |head| + |FileOf(crc, seg.blobs[d..seg.synced])| <= n <= |file|
    && n <= |left| && left[..n] == file[..n]
    && RecordAt(crc, left[|head| + WholeBytes(seg.blobs[d..], n - |head|)..]) == None
  }

  ghost predicate CutTo(crc: Checksum, file: seq<byte>, seg: Segment, left: seq<byte>) {
    exists head, d, n :: CutBy(crc, file, seg, left, head, d, n)
  }

  lemma WholeAtLeast(recs: seq<Record>, m: nat, n: nat)
    requires m <= |recs| && TotalSize(recs[..m]) <= n
    ensures m <= Whole(recs, n)
  {
    hide Whole, TotalSize;
    var w := Whole(recs, n);
    WholeFits(recs, n);
    if w < m {
      TotalSizeMore(recs[..w], recs[w]);
      assert recs[..w] + [recs[w]] == recs[..w + 1];
      SizesUp(recs, w + 1, m);
    }
  }

  /** The cut lies in the first blob that is not whole. */
  lemma {:induction false} WholeSpan(blobs: seq<Blob>, k: nat)
    requires k <= |Layout(blobs)|
    ensures var w := WholeBlobs(blobs, k);
            && |Layout(blobs[..w])| <= k
            && if w < |blobs| then k < |Layout(blobs[..w])| + |BlobRecords(blobs[w])| else k == |Layout(blobs)|
  {
    hide BlobRecords;
    if blobs == [] || k < |BlobRecords(blobs[0])| {
      assert blobs[..0] == [];
    } else {
      var k' := k - |BlobRecords(blobs[0])|;
      WholeSpan(blobs[1..], k');
      var w := WholeBlobs(blobs, k);
      assert blobs[..w][1..] == blobs[1..][..w - 1] && blobs[..w][0] == blobs[0];
      assert w < |blobs| ==> blobs[w] == blobs[1..][w - 1];
      assert w == |blobs| ==> blobs[..w] == blobs;
    }
  }

  lemma {:induction false} BlobsAtLeast(blobs: seq<Blob>, j: nat, k: nat)
    requires j <= |blobs| && |Layout(blobs[..j])| <= k
    ensures j <= WholeBlobs(blobs, k)
  {
    hide BlobRecords;
    if j > 0 {
      assert blobs[..j][1..] == blobs[1..][..j - 1] && blobs[..j][0] == blobs[0];
      BlobsAtLeast(blobs[1..], j - 1, k - |BlobRecords(blobs[0])|);
    }
  }

  /** The synced blobs are whole. */
  lemma SyncedWhole(blobs: seq<Blob>, crc: Checksum, j: nat, n: nat)
    requires j <= |blobs| && |FileOf(crc, blobs[..j])| <= n
    ensures j <= WholeBlobs(blobs, Whole(Layout(blobs), n))
  {
    hide Layout, Whole, WholeBlobs, Image;
    var (a, b) := (blobs[..j], blobs[j..]);
    assert a + b == blobs;
    LayoutConcat(a, b);
    assert Layout(blobs)[..|Layout(a)|] == Layout(a);
    ImageSize(crc, Layout(a));
    WholeAtLeast(Layout(blobs), |Layout(a)|, n);
    BlobsAtLeast(blobs, j, Whole(Layout(blobs), n));
  }

  /** The form of a cut: whole blobs, not fewer than were synced, and records of the next. */
  lemma CutForms(crc: Checksum, file: seq<byte>, seg: Segment, left: seq<byte>, head: seq<byte>, d: nat, n: nat)
    returns (keep: nat, torn: nat)
    requires CutBy(crc, file, seg, left, head, d, n)
    ensures seg.synced <= keep <= |seg.blobs| && LeftOf(crc, seg, keep, torn, left)
  {
    hide Clean, Image, Layout, RecordAt, WholeBlobs, BlobRecords, Whole, BlobsOk;
    var (session, m) := (seg.blobs[d..], n - |head|);
    var k := Whole(Layout(session), m);
    var w := WholeBlobs(session, k);
    SyncedPart(seg, d);
    SyncedWhole(session, crc, seg.synced - d, m);
    WholeSpan(session, k);
    keep, torn := d + w, k - |Layout(session[..w])|;
    var whole := |head| + WholeBytes(session, m);
    CutTorn(crc, file, seg, left, head, d, n);
    assert seg.blobs[d..keep] == session[..w];
    assert keep < |seg.blobs| ==> session[w] == seg.blobs[keep];
    assert w == |session| ==> session[..w] == session;
    assert LeftBy(crc, seg, keep, torn, left, head, d, left[whole..]);
  }

  lemma SyncedPart(seg: Segment, d: nat)
    requires d <= seg.synced <= |seg.blobs|
    ensures seg.blobs[d..][..seg.synced - d] == seg.blobs[d..seg.synced]
  {
  }

  lemma CutTorn(crc: Checksum, file: seq<byte>, seg: Segment, left: seq<byte>, head: seq<byte>, d: nat, n: nat)
    requires CutBy(crc, file, seg, left, head, d, n)
    ensures var session := seg.blobs[d..];
            var (k, whole) := (Whole(Layout(session), n - |head|), |head| + WholeBytes(session, n - |head|));
            left == head + Torn(crc, session, k, left[whole..])
  {
    hide Clean, FileOf, RecordAt, Whole, BlobsOk, Torn;
    var (session, m) := (seg.blobs[d..], n - |head|);
    var k := Whole(Layout(session), m);
    ImageSize(crc, Layout(session)[..k]);
    ByteCut(crc, session, m, left[n..]);
    SameSlices(head, FileOf(crc, session), left, n, WholeBytes(session, m));
  }

  lemma SameSlices(head: seq<byte>, body: seq<byte>, left: seq<byte>, n: nat, whole: nat)
    requires |head| + whole <= n <= |head| + |body| && n <= |left| && left[..n] == (head + body)[..n]
    ensures left == head + (body[..n - |head|] + left[n..]) && left[|head| + whole..] == body[whole..n - |head|] + left[n..]
  {
    assert (head + body)[..n] == head + body[..n - |head|];
    assert left == left[..n] + left[n..];
    assert left == head + (body[..n - |head|] + left[n..]);
    assert left[|head| + whole..] == (body[..n - |head|] + left[n..])[whole..];
  }

  lemma CutFirst(blobs: seq<Blob>, torn: nat)
    requires (torn > 0 ==> blobs != []) && (blobs != [] ==> torn < |BlobRecords(blobs[0])|)
    requires forall i :: 0 <= i < |blobs| ==> WellFormed(blobs[i])
    ensures |Layout(blobs[..0])| == 0 && WholeBlobs(blobs, torn) == 0 && (TornInside(blobs, torn) <==> !CleanCut(blobs, 0, torn))
  {
    assert blobs[..0] == [];
  }

  lemma LayoutFirst(blobs: seq<Blob>)
    requires blobs != []
    ensures Layout(blobs) == BlobRecords(blobs[0]) + Layout(blobs[1..])
  {
  }

  lemma BlobBefore(blobs: seq<Blob>, k: nat)
    requires blobs != [] && |BlobRecords(blobs[0])| <= k
    ensures WholeBlobs(blobs, k) == 1 + WholeBlobs(blobs[1..], k - |BlobRecords(blobs[0])|)
    ensures TornInside(blobs, k) <==> TornInside(blobs[1..], k - |BlobRecords(blobs[0])|)
  {
    hide BlobRecords;
  }

  lemma CleanCutTail(blobs: seq<Blob>, keep: nat, torn: nat)
    requires 0 < keep <= |blobs|
    ensures CleanCut(blobs, keep, torn) <==> CleanCut(blobs[1..], keep - 1, torn)
  {
  }

  /** The blobs before a cut given by whole blobs and records of the next. */
  lemma {:induction false} CutAt(blobs: seq<Blob>, keep: nat, torn: nat)
    requires keep <= |blobs| && (torn > 0 ==> keep < |blobs|) && (keep < |blobs| ==> torn < |BlobRecords(blobs[keep])|)
    requires forall i :: 0 <= i < |blobs| ==> WellFormed(blobs[i])
    ensures var k := |Layout(blobs[..keep])| + torn;
            WholeBlobs(blobs, k) == keep && (TornInside(blobs, k) <==> !CleanCut(blobs, keep, torn))
  {
    hide BlobRecords, WellFormed, Layout, WholeBlobs, TornInside, CleanCut;
    if keep == 0 {
      CutFirst(blobs, torn);
    } else {
      CleanCutTail(blobs, keep, torn);
      var (rest, k) := (blobs[1..], |Layout(blobs[..keep])| + torn);
      assert blobs[..keep][1..] == rest[..keep - 1] && blobs[..keep][0] == blobs[0];
      LayoutFirst(blobs[..keep]);
      CutAt(rest, keep - 1, torn);
      BlobBefore(blobs, k);
    }
  }

  /** The next open applies exactly the records of the kept blobs, torn or not; and it leaves a file that can be
      appended to if the cut is clean, and only then. */
  lemma LeftShows(crc: Checksum, seg: Segment, keep: nat, torn: nat, left: seq<byte>)
    requires LeftOf(crc, seg, keep, torn, left)
    ensures keep <= |seg.blobs| && Recs(Recovered(crc, left)) == DataRecords(seg.blobs[..keep])
    ensures Clean(crc, Truncated(crc, left), seg.blobs[..keep]) <==> CleanCut(seg.blobs, keep, torn)
    ensures CleanCut(seg.blobs, keep, torn) ==> Holds(crc, Truncated(crc, left), Segment(seg.blobs[..keep], keep))
  {
    hide LeftBy, Clean, Recovered, DataRecords, Truncated, Recs, Holds, CleanCut;
    var head, d, junk :| LeftBy(crc, seg, keep, torn, left, head, d, junk);
    LeftByShows(crc, seg, keep, torn, left, head, d, junk);
    if CleanCut(seg.blobs, keep, torn) {
      CleanHolds(crc, Truncated(crc, left), seg.blobs[..keep]);
    }
  }

  lemma CleanHolds(crc: Checksum, file: seq<byte>, blobs: seq<Blob>)
    requires Clean(crc, file, blobs)
    ensures Holds(crc, file, Segment(blobs, |blobs|))
  {
    hide Clean;
    var n := |blobs|;
    NoFile(crc);
    assert blobs[n..] == [] && blobs[..n] == blobs && file + [] == file;
    assert HeldBy(crc, file, Segment(blobs, n), file, n);
  }

  lemma LeftByShows(crc: Checksum, seg: Segment, keep: nat, torn: nat, left: seq<byte>, head: seq<byte>, d: nat, junk: seq<byte>)
    requires LeftBy(crc, seg, keep, torn, left, head, d, junk)
    ensures keep <= |seg.blobs| && Recs(Recovered(crc, left)) == DataRecords(seg.blobs[..keep])
    ensures Clean(crc, Truncated(crc, left), seg.blobs[..keep]) <==> CleanCut(seg.blobs, keep, torn)
  {
    hide Clean, Image, Layout, Torn, RecordAt, Recovered, DataRecords, Truncated, BlobRecords, WholeBlobs, TornInside, WellFormed, Recs;
    var (session, n) := (seg.blobs[d..], keep - d);
    var kept := seg.blobs[..keep];
    assert seg.blobs[d..keep] == session[..n];
    assert keep < |seg.blobs| ==> session[n] == seg.blobs[keep];
    if keep < |seg.blobs| {
      HasRecords(session[n]);
    }
    CutAt(session, n, torn);
    var k := |Layout(session[..n])| + torn;
    SessionIff(crc, head, seg.blobs[..d], session, k, junk);
    assert seg.blobs[..d] + session[..n] == kept;
  }

  lemma HasRecords(b: Blob)
    requires WellFormed(b)
    ensures |BlobRecords(b)| > 0
  {
  }

  lemma NoFile(crc: Checksum)
    ensures FileOf(crc, []) == []
  {
  }

  // ---- Where records begin ----

  lemma {:induction false} PlaceFound(recs: seq<Record>, base: nat, p: nat)
    requires p < |recs|
    ensures Places(recs, base)[p] == Found(base + TotalSize(recs[..p]), recs[p])
    decreases p
  {
    if p > 0 {
      PlaceFound(recs[1..], base + SizeOf(recs[0]), p - 1);
      assert recs[..p][1..] == recs[1..][..p - 1];
    }
  }

  /** In a file of whole blobs recovery finds a record at the offset the machine counts for it. */
  lemma {:induction false} OffsetFound(blobs: seq<Blob>, b: nat, p: nat)
    requires b < |blobs| && p < |blobs[b].recs|
    ensures Found(Offset(blobs, b, p), blobs[b].recs[p]) in DataPlaces(blobs, 0)
  {
    hide BlobSize, PaddedRecordSize;
    OffsetFrom(blobs, b, p, 0);
  }

  lemma {:induction false} OffsetFrom(blobs: seq<Blob>, b: nat, p: nat, base: nat)
    requires b < |blobs| && p < |blobs[b].recs|
    ensures Found(base + Offset(blobs, b, p), blobs[b].recs[p]) in DataPlaces(blobs, base)
    decreases b
  {
    hide BlobSize, PaddedRecordSize, TotalSize, Places;
    var first := BlobPlaces(blobs[0], base);
    if b == 0 {
      PlaceFound(blobs[0].recs, base + if blobs[0].header.None? then 0 else PaddedRecordSize(0, 4), p);
      assert first[p] == Found(base + Offset(blobs, b, p), blobs[b].recs[p]);
    } else {
      OffsetFrom(blobs[1..], b - 1, p, base + BlobSize(blobs[0]));
      FirstBlob(blobs, b);
    }
  }

  lemma {:induction false} FirstBlob(blobs: seq<Blob>, b: nat)
    requires 0 < b <= |blobs|
    ensures SegBytes(blobs, b) == BlobSize(blobs[0]) + SegBytes(blobs[1..], b - 1)
    decreases b
  {
    hide BlobSize;
    if b > 1 {
      FirstBlob(blobs, b - 1);
    }
  }
}
