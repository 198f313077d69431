/** Byte offsets of records, and what an index entry made for some files means in later ones: `get_scoped`
    reads at the entry's offset and compares no key. */
module VLogPlaces {
  import opened Bytes
  import opened Records
  import opened Batches
  import opened VLogState

  /** Bytes before record `p` of blob `b`. */
  function Offset(blobs: seq<Blob>, b: nat, p: nat): nat
    requires b < |blobs| && p <= |blobs[b].recs|
  {
    SegBytes(blobs, b) + (if blobs[b].header.None? then 0 else PaddedRecordSize(0, 4)) + TotalSize(blobs[b].recs[..p])
  }

  /** Later records lie at higher offsets. */
  lemma OffsetUp(blobs: seq<Blob>, b: nat, p: nat, b': nat, p': nat)
    requires b' < |blobs| && p' <= |blobs[b'].recs| && b <= b' && p < |blobs[b].recs| && (b == b' ==> p < p')
    ensures Offset(blobs, b, p) < Offset(blobs, b', p')
  {
    hide TotalSize, BlobSize, PaddedRecordSize;
    var recs := blobs[b].recs;
    if b == b' {
      SizesUp(recs, p, p');
    } else {
      SizesUp(recs, p, |recs|);
      assert recs[..|recs|] == recs;
      SegBytesUp(blobs, b + 1, b');
    }
  }

  lemma {:induction false} SegBytesSame(a: seq<Blob>, c: seq<Blob>, b: nat)
    requires b <= |a| && b <= |c| && a[..b] == c[..b]
    ensures SegBytes(a, b) == SegBytes(c, b)
    decreases b
  {
    if b > 0 {
      assert a[..b][..b - 1] == a[..b - 1] && c[..b][..b - 1] == c[..b - 1];
      assert a[b - 1] == a[..b][b - 1] == c[b - 1];
      SegBytesSame(a, c, b - 1);
    }
  }

  /** The record at `m` of `segs` begins where the one at `l` of `a` began. */
  predicate SamePlace(a: Segments, l: Loc, segs: Segments, m: Loc) {
    && ValidLoc(a, l) && ValidLoc(segs, m) && m.seg == l.seg
    && Offset(segs[m.seg].blobs, m.blob, m.pos) == Offset(a[l.seg].blobs, l.blob, l.pos)
  }

  lemma PlaceUnique(a: Segments, l: Loc, segs: Segments, m: Loc, m': Loc)
    requires SamePlace(a, l, segs, m) && SamePlace(a, l, segs, m')
    ensures m == m'
  {
    hide Offset;
    var blobs := segs[l.seg].blobs;
    if m.blob < m'.blob || (m.blob == m'.blob && m.pos < m'.pos) {
      OffsetUp(blobs, m.blob, m.pos, m'.blob, m'.pos);
    } else if m' != m {
      OffsetUp(blobs, m'.blob, m'.pos, m.blob, m.pos);
    }
  }

  /** The read of an entry made for the files `a`, in the files `segs`: the record that begins at its offset, if
      one does and it is no longer than the entry. */
  ghost predicate ReadsAt(a: Segments, e: Entry, segs: Segments, m: Loc) {
    SamePlace(a, e.loc, segs, m) && SizeOf(At(segs, m)) <= e.size
  }

  ghost function Resolve(a: Segments, e: Entry, segs: Segments): (r: Option<Loc>)
    ensures r.Some? ==> ReadsAt(a, e, segs, r.value)
    ensures (exists m :: ReadsAt(a, e, segs, m)) ==> r.Some?
  {
    if exists m :: ReadsAt(a, e, segs, m) then var m :| ReadsAt(a, e, segs, m); Some(m) else None
  }

  /** As long as a file keeps the blobs up to a record's, the record is read where it was. */
  lemma PlaceStays(a: Segments, e: Entry, segs: Segments, n: nat)
    requires ValidLoc(a, e.loc) && e.size == SizeOf(At(a, e.loc)) && e.loc.seg in segs
    requires e.loc.blob < n <= |a[e.loc.seg].blobs| && n <= |segs[e.loc.seg].blobs|
    requires segs[e.loc.seg].blobs[..n] == a[e.loc.seg].blobs[..n]
    ensures Resolve(a, e, segs) == Some(e.loc) && ValidLoc(segs, e.loc) && At(segs, e.loc) == At(a, e.loc)
  {
    hide SizeOf, TotalSize, SegBytes, PaddedRecordSize, Resolve;
    var (l, was, now) := (e.loc, a[e.loc.seg].blobs, segs[e.loc.seg].blobs);
    assert now[l.blob] == now[..n][l.blob] == was[..n][l.blob] == was[l.blob];
    assert was[..n][..l.blob] == was[..l.blob] && now[..n][..l.blob] == now[..l.blob];
    SegBytesSame(was, now, l.blob);
    assert ReadsAt(a, e, segs, l);
    PlaceUnique(a, l, segs, l, Resolve(a, e, segs).value);
  }
}
