/** The loops of `open_shared`: the full scan, the index built from its winners, the ledgers seeded
    from the index. */
module VLogOpen {
  import opened Records
  import opened VLogState
  import opened VLogRecover
  import opened VLogLedgers

  /** No record met before (`x`, `b`, `p`) has a timestamp above `ts`. */
  ghost predicate BoundBefore(segs: Segments, ts: nat, x: nat, b: nat, p: nat) {
    forall l :: ValidLoc(segs, l) && Before(l, x, b, p) ==> At(segs, l).ts <= ts
  }

  function Max(a: nat, b: nat): nat {
    if a < b then b else a
  }

  lemma BoundStep(segs: Segments, ts: nat, x: nat, b: nat, p: nat)
    requires ValidLoc(segs, Loc(x, b, p)) && BoundBefore(segs, ts, x, b, p)
    ensures BoundBefore(segs, Max(ts, At(segs, Loc(x, b, p)).ts), x, b, p + 1)
  {
    BeforeNext(x, b, p);
  }

  lemma BoundBlob(segs: Segments, ts: nat, x: nat, b: nat)
    requires x in segs && b < |segs[x].blobs| && BoundBefore(segs, ts, x, b, |segs[x].blobs[b].recs|)
    ensures BoundBefore(segs, ts, x, b + 1, 0)
  {
    assert forall m :: ValidLoc(segs, m) && Before(m, x, b + 1, 0) ==> Before(m, x, b, |segs[x].blobs[b].recs|);
  }

  lemma ScanStart(segs: Segments, w: map<Key, Loc>, x: nat, b: nat)
    requires x in segs && b < |segs[x].blobs| && Points(segs, w)
    ensures ScanBlob(segs, w, x, b, 0) == w
  {
  }

  lemma ScanStep(segs: Segments, w: map<Key, Loc>, x: nat, b: nat, p: nat)
    requires ValidLoc(segs, Loc(x, b, p)) && Points(segs, w)
    ensures ScanBlob(segs, w, x, b, p + 1) == Better(segs, ScanBlob(segs, w, x, b, p), Loc(x, b, p))
  {
  }

  /** The records of one blob. */
  method ScanOneBlob(segs: Segments, x: nat, b: nat, w0: map<Key, Loc>, ts0: nat) returns (w: map<Key, Loc>, ts: nat)
    requires x in segs && b < |segs[x].blobs| && Points(segs, w0) && BoundBefore(segs, ts0, x, b, 0)
    ensures w == ScanBlob(segs, w0, x, b, |segs[x].blobs[b].recs|)
    ensures BoundBefore(segs, ts, x, b + 1, 0)
  {
    hide ScanBlob, BoundBefore;
    ScanStart(segs, w0, x, b);
    w, ts := w0, ts0;
    var recs := segs[x].blobs[b].recs;
    for p := 0 to |recs|
      invariant w == ScanBlob(segs, w0, x, b, p)
      invariant BoundBefore(segs, ts, x, b, p)
    {
      var l := Loc(x, b, p);
      BoundStep(segs, ts, x, b, p);
      ScanStep(segs, w0, x, b, p);
      ts := Max(ts, recs[p].ts);
      if recs[p].key !in w || At(segs, w[recs[p].key]).ts < recs[p].ts {
        w := w[recs[p].key := l];
      }
    }
    BoundBlob(segs, ts, x, b);
  }

  /** The full scan: segments in id order, highest timestamp wins; also the highest timestamp met. */
  method FullScan(segs: Segments, active: nat) returns (w: map<Key, Loc>, ts: nat)
    requires forall x :: x in segs ==> x <= active
    ensures w == Winners(segs, active + 1) && ClockPast(segs, ts + 1)
  {
    w, ts := map[], 0;
    for x := 0 to active + 1
      invariant w == Winners(segs, x)
      invariant BoundBefore(segs, ts, x, 0, 0)
    {
      if x in segs {
        ghost var w0 := w;
        for b := 0 to |segs[x].blobs|
          invariant w == ScanSegment(segs, w0, x, b)
          invariant BoundBefore(segs, ts, x, b, 0)
        {
          w, ts := ScanOneBlob(segs, x, b, w, ts);
        }
        assert forall m :: ValidLoc(segs, m) && Before(m, x + 1, 0, 0) ==> Before(m, x, |segs[x].blobs|, 0);
      } else {
        assert forall m :: ValidLoc(segs, m) && Before(m, x + 1, 0, 0) ==> Before(m, x, 0, 0);
      }
    }
    assert forall m :: ValidLoc(segs, m) ==> Before(m, active + 1, 0, 0);
  }

  /** The winners that are not tombstones become the index. */
  method BuildIndex(segs: Segments, w: map<Key, Loc>) returns (index: map<Key, Entry>)
    requires Points(segs, w)
    ensures index == IndexOf(segs, w)
  {
    index := map[];
    var todo := w.Keys;
    while todo != {}
      invariant todo <= w.Keys
      invariant forall k :: k in index <==> k in w && k !in todo && !IsTomb(At(segs, w[k]))
      invariant forall k :: k in index ==> index[k] == Entry(w[k], SizeOf(At(segs, w[k])))
    {
      var k :| k in todo;
      if !IsTomb(At(segs, w[k])) {
        index := index[k := Entry(w[k], SizeOf(At(segs, w[k])))];
      }
      todo := todo - {k};
    }
  }

  /** One more key of the index. */
  lemma IterateMore(index: map<Key, Entry>, order: seq<Key>, todo: set<Key>, k: Key)
    requires Distinct(index, order) && todo <= index.Keys && (forall j :: j in index <==> j in todo || j in order) && k in todo
    requires forall j :: j in order ==> j !in todo
    ensures Distinct(index, order + [k]) && (forall j :: j in index <==> j in todo - {k} || j in order + [k])
    ensures forall j :: j in order + [k] ==> j !in todo - {k}
    ensures (order + [k])[..|order|] == order
  {
  }

  lemma NoneSeeded(live: map<nat, nat>, index: map<Key, Entry>)
    ensures SeededLive(live, index, []) == live && SeededDisk(index, []) == map[]
  {
  }

  lemma OneSeeded(live: map<nat, nat>, index: map<Key, Entry>, order: seq<Key>, k: Key)
    requires (forall i :: 0 <= i < |order| ==> order[i] in index) && k in index
    ensures SeededLive(live, index, order + [k]) == IncLive(SeededLive(live, index, order), index[k].loc.seg, index[k].size)
    ensures var disk := SeededDisk(index, order);
            SeededDisk(index, order + [k]) == disk[TenantOf(k) := Row(disk, TenantOf(k)) + index[k].size]
  {
    hide IncLive, TenantOf, Row;
    assert (order + [k])[..|order|] == order;
  }

  /** The loop that seeds the live counters from the index, iterated in the order `order`. */
  method SeedLive(segs: Segments, index: map<Key, Entry>) returns (live: map<nat, nat>, ghost order: seq<Key>)
    requires forall k :: k in index ==> index[k].loc.seg in segs
    ensures Iterates(index, order) && live == SeededLive(map x | x in segs :: 0, index, order)
    ensures LiveExact(segs, map[], index, live)
  {
    hide LiveExact, DiskExact, IncLive, SeededLive;
    live, order := map x | x in segs :: 0, [];
    NoneSeeded(live, index);
    var todo := index.Keys;
    while todo != {}
      invariant Distinct(index, order) && todo <= index.Keys && (forall j :: j in index <==> j in todo || j in order)
      invariant forall j :: j in order ==> j !in todo
      invariant live == SeededLive(map x | x in segs :: 0, index, order)
    {
      var k :| k in todo;
      IterateMore(index, order, todo, k);
      OneSeeded(map x | x in segs :: 0, index, order, k);
      live := IncLive(live, index[k].loc.seg, index[k].size);
      order := order + [k];
      todo := todo - {k};
    }
    SeededLiveOk(segs, index, order);
    assert Listed(index, order) == index;
  }

  /** `recover_tenant_disk` on a fresh counter. */
  method RecoverTenantDisk(index: map<Key, Entry>) returns (disk: map<nat, nat>, ghost order: seq<Key>)
    requires forall k :: k in index ==> index[k].size > 0
    ensures Iterates(index, order) && disk == SeededDisk(index, order)
    ensures DiskExact(index, disk)
  {
    hide LiveExact, DiskExact, TenantOf, SeededDisk, Row;
    disk, order := map[], [];
    NoneSeeded(map[], index);
    var todo := index.Keys;
    while todo != {}
      invariant Distinct(index, order) && todo <= index.Keys && (forall j :: j in index <==> j in todo || j in order)
      invariant forall j :: j in order ==> j !in todo
      invariant disk == SeededDisk(index, order)
    {
      var k :| k in todo;
      IterateMore(index, order, todo, k);
      OneSeeded(map[], index, order, k);
      disk := disk[TenantOf(k) := Row(disk, TenantOf(k)) + index[k].size];
      order := order + [k];
      todo := todo - {k};
    }
    SeededDiskOk(index, order);
    assert Listed(index, order) == index;
  }
}
