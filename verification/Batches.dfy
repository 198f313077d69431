/** Atomic batches: the layout `set_many` writes and the recovery gate `BatchGate`. */
module Batches {
  import opened Bytes
  import opened Records

  /** One contiguous append: a lone record, or a `BatchBegin` header (its timestamp) and its members. */
  datatype Blob = Blob(header: Option<nat>, recs: seq<Record>)

  predicate WellFormed(b: Blob) {
    && 1 <= |b.recs| <= U32_MAX
    && (b.header.None? ==> |b.recs| == 1)
    && forall i :: 0 <= i < |b.recs| ==> b.recs[i].kind != BatchBegin
  }

  /** The records of a blob as written: `set_many` puts its header first. */
  function BlobRecords(b: Blob): seq<Record> {
    if b.header.None? then b.recs else [Record(b.header.value, BatchBegin, [], ToLE(|b.recs|, 4))] + b.recs
  }

  /** Bytes of a blob in the file. */
  function BlobSize(b: Blob): (n: nat)
    ensures n == TotalSize(b.recs) + if b.header.None? then 0 else PaddedRecordSize(0, 4)
  {
    assert b.header.Some? ==> BlobRecords(b)[1..] == b.recs;
    TotalSize(BlobRecords(b))
  }

  /** Bytes of the first `b` blobs of a segment. */
  function SegBytes(blobs: seq<Blob>, b: nat): nat
    requires b <= |blobs|
  {
    if b == 0 then 0 else SegBytes(blobs, b - 1) + BlobSize(blobs[b - 1])
  }

  lemma {:induction false} SegBytesUp(blobs: seq<Blob>, b: nat, n: nat)
    requires b <= n <= |blobs|
    ensures SegBytes(blobs, b) <= SegBytes(blobs, n)
    decreases n
  {
    if b < n {
      SegBytesUp(blobs, b, n - 1);
    }
  }
}
