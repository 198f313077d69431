/** A snapshot that outlives a crash: the place of a lost record is written again. */
module VLogReuse {
  import opened Bytes
  import opened Records
  import opened Batches
  import opened VLogState
  import opened VLogInv
  import opened VLogClient
  import opened VLogRecover
  import opened VLogRuns
  import opened VLogLedgers
  import opened VLogPlaces
  import opened VLogSnapshot
  import opened VLogReopen
  import opened VLogLimits

  /** The store reopened by a full scan after a crash that drops the unsynced copy of `Relocated`. */
  function Reopened(k: Key, v: Value): State {
    var l := Loc(0, 0, 0);
    State(OneRecord(k, v), 1, 2, map[k := Entry(l, PaddedRecordSize(|k|, |v|))], map[k := l], map[], map[], map[], map[])
  }

  lemma ReopenedReached(k: Key, v: Value)
    ensures var (s, a) := (Relocated(k, v), DoCrash(map[0 := 1, 1 := 0], 0, 2, [], map[k := Loc(0, 0, 0)]));
            Enabled(s, a) && Next(s, a) == Reopened(k, v)
  {
    hide OneRecord, Kept, PaddedRecordSize, QuietBelow, IndexOf, ClockPast, Dominated;
    var (s, keep) := (Relocated(k, v), map[0 := 1, 1 := 0]);
    RelocatedFiles(k, v);
    OnlyWinner(k, v);
    assert CanCrash(s, keep, 0, 2, []);
  }

  lemma OnlyWinner(k: Key, v: Value)
    ensures var (segs, newest) := (OneRecord(k, v), map[k := Loc(0, 0, 0)]);
            && IsWinners(segs, newest) && ClockPast(segs, 2)
            && IndexOf(segs, newest) == map[k := Entry(Loc(0, 0, 0), PaddedRecordSize(|k|, |v|))]
  {
    hide PaddedRecordSize;
    var segs := OneRecord(k, v);
    forall m | ValidLoc(segs, m) ensures m == Loc(0, 0, 0) { }
  }

  /** Another key is set, and acknowledged: its record begins where the lost copy began. */
  function Reused(k: Key, v: Value, k': Key, v': Value): State {
    var (l, l') := (Loc(0, 0, 0), Loc(1, 0, 0));
    State(ReusedFiles(k, v, k', v'), 1, 3,
          map[k := Entry(l, PaddedRecordSize(|k|, |v|)), k' := Entry(l', PaddedRecordSize(|k'|, |v'|))],
          map[k := l, k' := l'], map[], map[], map[], map[k' := v'])
  }

  function ReusedFiles(k: Key, v: Value, k': Key, v': Value): Segments {
    map[0 := Segment([Blob(None, [Record(1, Scalar, k, v)])], 1), 1 := Segment([Blob(None, [Record(2, Scalar, k', v')])], 1)]
  }

  lemma ReusedReached(k: Key, v: Value, k': Key, v': Value)
    requires k != k'
    ensures var s := Reopened(k, v);
            && Idle(s, k')
            && var s4 := SyncSeg(WriteOp(ReserveOp(BeginSet(s, 0, k', v'), 0), 0), 1);
               CanApply(s4, 0) && ApplyOp(s4, 0) == Reused(k, v, k', v')
  {
    hide PaddedRecordSize, ApplyNewest, ApplyCache;
    var (s, r) := (Reopened(k, v), Record(2, Scalar, k', v'));
    var b := Blob(None, [r]);
    assert [] + [b] == [b];
    var s2 := ReserveOp(BeginSet(s, 0, k', v'), 0);
    assert s2.ops == map[0 := ClientOp(b, None, Reserved(1))];
    var s4 := SyncSeg(WriteOp(s2, 0), 1);
    assert s4.ops == map[0 := ClientOp(b, None, Written(1, 0))] && s4.segs == ReusedFiles(k, v, k', v');
    SingleApply(s4.index, [r], 1, 0);
    OneApplied(s4.newest, s4.cache, r);
    assert s4.ops - {0} == map[];
  }

  lemma OneApplied(newest: map<Key, Loc>, cache: map<Key, Value>, r: Record)
    requires !IsTomb(r)
    ensures ApplyNewest(newest, [r], 1, 0) == newest[r.key := Loc(1, 0, 0)] && ApplyCache(cache, [r]) == cache[r.key := r.value]
  {
    assert [r][..0] == [];
  }

  lemma ReusedScanned(k: Key, v: Value, k': Key, v': Value)
    requires k != k'
    ensures var segs := ReusedFiles(k, v, k', v');
            Winners(segs, 2) == map[k := Loc(0, 0, 0), k' := Loc(1, 0, 0)]
  {
    hide Winners, PaddedRecordSize;
    var (segs, l, l') := (ReusedFiles(k, v, k', v'), Loc(0, 0, 0), Loc(1, 0, 0));
    forall m | ValidLoc(segs, m) ensures m == l || m == l' { }
    FullScanWins(segs, 1);
    var w := Winners(segs, 2);
    assert ValidLoc(segs, l) && Dominated(segs, w, l);
    assert ValidLoc(segs, l') && Dominated(segs, w, l');
    forall j | j in w ensures j == k || j == k' {
      assert ValidLoc(segs, w[j]);
    }
    assert w == map[k := l, k' := l'];
  }

  lemma ReusedRead(k: Key, v: Value, k': Key, v': Value)
    requires k != k'
    ensures var segs := ReusedFiles(k, v, k', v'); ReadMap(segs, ScanIndex(segs, 1)) == map[k := v, k' := v']
  {
    hide Winners, SizeOf;
    ReusedScanned(k, v, k', v');
    var segs := ReusedFiles(k, v, k', v');
    var (a, m) := (ReadMap(segs, ScanIndex(segs, 1)), map[k := v, k' := v']);
    assert SameAt(a, m, k);
    assert SameAt(a, m, k');
    forall j ensures SameAt(a, m, j) {
      if j != k && j != k' {
        assert j !in Winners(segs, 2);
      }
    }
    SameEverywhere(a, m);
  }

  /** The entry of `k` now reads the record of `k'`. */
  lemma EntryReused(k: Key, v: Value, k': Key, v': Value)
    requires PaddedRecordSize(|k'|, |v'|) <= PaddedRecordSize(|k|, |v|)
    ensures var (s0, segs) := (Relocated(k, v), ReusedFiles(k, v, k', v'));
            && k in s0.index && Resolve(s0.segs, s0.index[k], segs) == Some(Loc(1, 0, 0))
  {
    hide PaddedRecordSize, SegBytes, TotalSize, Resolve;
    var (s0, segs, l) := (Relocated(k, v), ReusedFiles(k, v, k', v'), Loc(1, 0, 0));
    StartsAtZero(s0.segs[1].blobs);
    StartsAtZero(segs[1].blobs);
    assert ReadsAt(s0.segs, s0.index[k], segs, l);
    PlaceUnique(s0.segs, l, segs, l, Resolve(s0.segs, s0.index[k], segs).value);
  }

  lemma StartsAtZero(blobs: seq<Blob>)
    requires blobs != [] && blobs[0].header.None?
    ensures Offset(blobs, 0, 0) == 0
  {
    assert blobs[0].recs[..0] == [];
  }

  lemma NoRecordOf(k: Key, v: Value, k': Key, v': Value, l: Loc)
    requires k != k'
    ensures !Tail(ReusedFiles(k, v, k', v'), 1, k, l)
  {
  }

  /** A snapshot of `Relocated`, a crash that drops the copy it points at, a reopen by full scan, one acknowledged
      `set` of another key that is no longer, and an open beside the snapshot: it is used, its tail is in order, and
      the first key reads the other key's value. */
  lemma SnapshotReadsAnotherKey(k: Key, v: Value, k': Key, v': Value)
    requires k != k' && PaddedRecordSize(|k'|, |v'|) <= PaddedRecordSize(|k|, |v|)
    ensures var (s0, segs) := (Relocated(k, v), Reused(k, v, k', v').segs);
            && QuietBelow(s0.ops, s0.moves, s0.active) && Usable(segs, s0) && LastIsHighest(segs, 1, 1)
            && ReadMap(segs, ScanIndex(segs, 1)) == map[k := v, k' := v']
            && var m := ReadMap(segs, OpenIndex(segs, s0, 1)); k in m && m[k] == v'
  {
    hide QuietBelow, SnapshotIndex, ScanIndex, PaddedRecordSize, Resolve, LastIsHighest, Tail, Offset;
    var (s0, segs) := (Relocated(k, v), ReusedFiles(k, v, k', v'));
    assert QuietBelow(s0.ops, s0.moves, s0.active) by { RelocatedFiles(k, v); }
    ReusedRead(k, v, k', v');
    ReusedInOrder(k, v, k', v');
    EntryReused(k, v, k', v');
    forall l ensures !Tail(segs, 1, k, l) {
      NoRecordOf(k, v, k', v', l);
    }
    NoTailLoaded(segs, s0, 1, k);
    assert At(segs, Loc(1, 0, 0)).value == v';
  }

  lemma ReusedInOrder(k: Key, v: Value, k': Key, v': Value)
    requires k != k'
    ensures LastIsHighest(ReusedFiles(k, v, k', v'), 1, 1)
  {
    hide Winners;
    ReusedScanned(k, v, k', v');
    var segs := ReusedFiles(k, v, k', v');
    forall j, l | IsLast(segs, 1, j, l) ensures j == k' && l == Loc(1, 0, 0) { }
  }
}
