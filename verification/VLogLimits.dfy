/** Runs outside the hypotheses of the refinement: what goes wrong, concretely. */
module VLogLimits {
  import opened Bytes
  import opened Records
  import opened Batches
  import opened VLogState
  import opened VLogInv
  import opened VLogClient
  import opened VLogRecover
  import opened VLogRefinement
  import opened VLogLedgers
  import opened VLogPlaces
  import opened VLogSnapshot

  /** A store whose only record is the durable, not yet acknowledged write of `k`, in sealed segment 0. */
  function Unacknowledged(k: Key, v: Value): State {
    var b := Blob(None, [Record(1, Scalar, k, v)]);
    State(map[0 := Segment([b], 1), 1 := Segment([], 0)], 1, 2, map[], map[],
          map[0 := ClientOp(b, None, Written(0, 0))], map[], map[], map[])
  }

  /** The state above is reached from an empty store. */
  lemma UnacknowledgedReached(k: Key, v: Value)
    ensures var s1 := BeginSet(Init(), 0, k, v);
            var s2 := ReserveOp(s1, 0);
            var s3 := WriteOp(s2, 0);
            var s4 := SyncSeg(s3, 0);
            Rotate(s4) == Unacknowledged(k, v)
  {
    var s3 := WriteOp(ReserveOp(BeginSet(Init(), 0, k, v), 0), 0);
    var b := Blob(None, [Record(1, Scalar, k, v)]);
    assert [] + [b] == [b];
    assert s3.segs == map[0 := Segment([b], 0)];
  }

  /** Compacting a source with an unacknowledged append: the scan skips the record, because the
      index does not point at it yet; the source is unlinked; and the acknowledgement then points
      the index at a file that is gone. */
  lemma CompactingUnquietSourceLosesWrite(k: Key, v: Value)
    ensures var s := Unacknowledged(k, v);
            var l := Loc(0, 0, 0);
            var s1 := Examine(s.(moves := map[0 := map[]]), 0, l);
            var s2 := ApplyOp(Unlink(s1, 0), 0);
            && Inv(s) && CanApply(s, 0) && !Quiet(s, 0)
            && CanUnlink(s1, 0)
            && k in s2.index && !ValidLoc(s2.segs, s2.index[k].loc)
  {
    var s := Unacknowledged(k, v);
    var l := Loc(0, 0, 0);
    UnacknowledgedInv(k, v);
    assert s.ops[0].phase.seg == 0;
    var s0 := s.(moves := map[0 := map[]]);
    assert !Carry(s0, l);
    var s1 := Examine(s0, 0, l);
    forall l' | ValidLoc(s1.segs, l') && l'.seg == 0 ensures l' == l { }
    var s2 := ApplyOp(Unlink(s1, 0), 0);
    SingleApply(map[], s.ops[0].blob.recs, 0, 0);
    assert 0 !in s2.segs;
  }

  lemma UnacknowledgedInv(k: Key, v: Value)
    ensures Inv(Unacknowledged(k, v))
  {
    UnacknowledgedReached(k, v);
    var s0 := Init();
    InitInv();
    BeginSetInv(s0, 0, k, v);
    var s1 := BeginSet(s0, 0, k, v);
    ReserveOpInv(s1, 0);
    var s2 := ReserveOp(s1, 0);
    WriteOpInv(s2, 0);
    var s3 := WriteOp(s2, 0);
    SyncSegInv(s3, 0);
    RotateInv(SyncSeg(s3, 0));
  }

  /** A store whose only record is the acknowledged write of `k`, in sealed segment 0, while a
      compaction has relocated it to segment 1 and swapped the index; the copy is not synced yet. */
  function Relocated(k: Key, v: Value): State {
    var b := Blob(None, [Record(1, Scalar, k, v)]);
    var d := Loc(1, 0, 0);
    State(map[0 := Segment([b], 1), 1 := Segment([b], 0)], 1, 2,
          map[k := Entry(d, PaddedRecordSize(|k|, |v|))], map[k := d],
          map[], map[], map[0 := map[Loc(0, 0, 0) := Moved(d)]], map[k := v])
  }

  /** The same store with the write acknowledged and nothing relocated. */
  function Acknowledged(k: Key, v: Value): State {
    var l := Loc(0, 0, 0);
    State(map[0 := Segment([Blob(None, [Record(1, Scalar, k, v)])], 1), 1 := Segment([], 0)], 1, 2,
          map[k := Entry(l, PaddedRecordSize(|k|, |v|))], map[k := l], map[], map[], map[], map[k := v])
  }

  lemma AcknowledgedReached(k: Key, v: Value)
    ensures ApplyOp(Unacknowledged(k, v), 0) == Acknowledged(k, v)
  {
    var r := Record(1, Scalar, k, v);
    assert [r][..0] == [];
    assert ApplyNewest(map[], [r], 0, 0) == map[k := Loc(0, 0, 0)];
    assert ApplyCache(map[], [r]) == map[k := v];
    SingleApply(map[], [r], 0, 0);
    assert Unacknowledged(k, v).ops - {0} == map[];
  }

  /** The compaction has chosen the record. */
  lemma ChosenReached(k: Key, v: Value)
    ensures CanCompact(Acknowledged(k, v), 0)
    ensures Examine(BeginCompact(Acknowledged(k, v), 0), 0, Loc(0, 0, 0)) ==
            Acknowledged(k, v).(moves := map[0 := map[Loc(0, 0, 0) := Chosen]])
  {
    var l := Loc(0, 0, 0);
    var s1 := Examine(BeginCompact(Acknowledged(k, v), 0), 0, l);
    assert s1.moves == map[0 := map[l := Chosen]];
  }

  /** The record is copied to the active segment. */
  function Copying(k: Key, v: Value): State {
    var b := Blob(None, [Record(1, Scalar, k, v)]);
    Acknowledged(k, v).(segs := map[0 := Segment([b], 1), 1 := Segment([b], 0)],
                        moves := map[0 := map[Loc(0, 0, 0) := Copied(Loc(1, 0, 0))]])
  }

  lemma CopyingReached(k: Key, v: Value)
    ensures var s1 := Acknowledged(k, v).(moves := map[0 := map[Loc(0, 0, 0) := Chosen]]);
            WriteMove(ReserveMove(s1, 0, Loc(0, 0, 0)), 0, Loc(0, 0, 0)) == Copying(k, v)
  {
    var l, d := Loc(0, 0, 0), Loc(1, 0, 0);
    var b := Blob(None, [Record(1, Scalar, k, v)]);
    var s2 := ReserveMove(Acknowledged(k, v).(moves := map[0 := map[l := Chosen]]), 0, l);
    assert map[l := Chosen][l := Slot(1)] == map[l := Slot(1)];
    assert s2.moves == map[0 := map[l := Slot(1)]];
    assert [] + [b] == [b];
    assert map[l := Slot(1)][l := Copied(d)] == map[l := Copied(d)];
    assert WriteMove(s2, 0, l).segs == map[0 := Segment([b], 1), 1 := Segment([b], 0)];
    assert WriteMove(s2, 0, l).moves == map[0 := map[l := Copied(d)]];
  }

  /** One compaction up to its swap leads there. */
  lemma RelocatedReached(k: Key, v: Value)
    ensures CanCompact(Acknowledged(k, v), 0)
    ensures var l := Loc(0, 0, 0);
            var s1 := Examine(BeginCompact(Acknowledged(k, v), 0), 0, l);
            var s3 := WriteMove(ReserveMove(s1, 0, l), 0, l);
            s1.moves[0][l] == Chosen && ValidLoc(s3.segs, l) && FinishMove(s3, 0, l) == Relocated(k, v)
  {
    var l, d := Loc(0, 0, 0), Loc(1, 0, 0);
    ChosenReached(k, v);
    CopyingReached(k, v);
    assert map[l := Copied(d)][l := Moved(d)] == map[l := Moved(d)];
    var e := Entry(d, PaddedRecordSize(|k|, |v|));
    assert map[k := Entry(l, e.size)][k := e] == map[k := e];
    assert map[k := l][k := d] == map[k := d];
    assert map[0 := map[l := Copied(d)]][0 := map[l := Moved(d)]] == map[0 := map[l := Moved(d)]];
  }

  /** Two compactions of one source at a time: the second finds the index moved, skips the record
      and unlinks the source without having synced the first one's destination. A crash that
      drops the unsynced copy then loses an acknowledged write. */
  lemma CompactingTwiceLosesWrite(k: Key, v: Value)
    ensures var l := Loc(0, 0, 0);
            var s := Relocated(k, v);
            var s1 := Examine(s.(moves := map[0 := map[]]), 0, l);
            var s2 := Unlink(s1, 0);
            var keep := map[1 := 0];
            && Contents(s) == map[k := v]
            && CanUnlink(s1, 0) && !CanUnlink(s, 0)
            && ValidKeep(s2.segs, keep)
            && ScanIndex(Kept(s2.segs, keep), 1) == map[]
  {
    SecondSkips(k, v);
    var s2 := Unlink(Examine(Relocated(k, v).(moves := map[0 := map[]]), 0, Loc(0, 0, 0)), 0);
    assert s2.segs == map[1 := Segment([Blob(None, [Record(1, Scalar, k, v)])], 0)];
    NothingKept(s2.segs, Blob(None, [Record(1, Scalar, k, v)]));
  }

  lemma SecondSkips(k: Key, v: Value)
    ensures var s := Relocated(k, v);
            var s1 := Examine(s.(moves := map[0 := map[]]), 0, Loc(0, 0, 0));
            Contents(s) == map[k := v] && CanUnlink(s1, 0) && !CanUnlink(s, 0)
  {
    var l := Loc(0, 0, 0);
    var s := Relocated(k, v);
    var s0 := s.(moves := map[0 := map[]]);
    assert !Carry(s0, l);
    var s1 := Examine(s0, 0, l);
    assert s1.moves == map[0 := map[l := Skipped]];
    forall l' | ValidLoc(s1.segs, l') && l'.seg == 0 ensures l' == l { }
    assert s.moves[0][l] == Moved(Loc(1, 0, 0)) && !Durable(s.segs, Loc(1, 0, 0));
  }

  /** A crash that drops an unsynced blob leaves nothing to recover. */
  lemma NothingKept(segs: Segments, b: Blob)
    requires segs == map[1 := Segment([b], 0)]
    ensures ValidKeep(segs, map[1 := 0]) && ScanIndex(Kept(segs, map[1 := 0]), 1) == map[]
  {
    var kept := Kept(segs, map[1 := 0]);
    forall x ensures !ValidLoc(kept, x) { }
    FullScanWins(kept, 1);
    assert Winners(kept, 2) == map[];
  }

  // ---- A snapshot after a race between a relocation and a write ----

  /** `k` was overwritten while a compaction was copying its old record: the copy landed after the
      new record, the recheck left the index alone, and the source has been unlinked. */
  function Raced(k: Key, v1: Value, v2: Value): State {
    var l := Loc(1, 0, 0);
    State(map[1 := Segment([Blob(None, [Record(2, Scalar, k, v2)]), Blob(None, [Record(1, Scalar, k, v1)])], 2)], 1, 3,
          map[k := Entry(l, PaddedRecordSize(|k|, |v2|))], map[k := l], map[], map[], map[], map[k := v2])
  }

  /** The compaction has chosen the record; the new record and the copy are written and synced. */
  function RaceWritten(k: Key, v1: Value, v2: Value): State {
    var (b1, b2) := (Blob(None, [Record(1, Scalar, k, v1)]), Blob(None, [Record(2, Scalar, k, v2)]));
    var e := Entry(Loc(0, 0, 0), PaddedRecordSize(|k|, |v1|));
    State(map[0 := Segment([b1], 1), 1 := Segment([b2, b1], 2)], 1, 3, map[k := e], map[k := e.loc],
          map[1 := ClientOp(b2, Some(e), Written(1, 0))], map[],
          map[0 := map[e.loc := Copied(Loc(1, 1, 0))]], map[k := v1])
  }

  lemma RaceWrittenReached(k: Key, v1: Value, v2: Value)
    ensures CanCompact(Acknowledged(k, v1), 0)
    ensures var l := Loc(0, 0, 0);
            var s1 := Examine(BeginCompact(Acknowledged(k, v1), 0), 0, l);
            Idle(s1, k) &&
            var s2 := WriteOp(ReserveOp(BeginSet(s1, 1, k, v2), 1), 1);
            var s3 := WriteMove(ReserveMove(s2, 0, l), 0, l);
            s1.moves[0][l] == Chosen && SyncSeg(s3, 1) == RaceWritten(k, v1, v2)
  {
    ChosenReached(k, v1);
    OverwriteReached(k, v1, v2);
    RaceCopyReached(k, v1, v2);
  }

  /** The new record is written while the old one is chosen. */
  function Overwriting(k: Key, v1: Value, v2: Value): State {
    var (b1, b2) := (Blob(None, [Record(1, Scalar, k, v1)]), Blob(None, [Record(2, Scalar, k, v2)]));
    var e := Entry(Loc(0, 0, 0), PaddedRecordSize(|k|, |v1|));
    State(map[0 := Segment([b1], 1), 1 := Segment([b2], 0)], 1, 3, map[k := e], map[k := e.loc],
          map[1 := ClientOp(b2, Some(e), Written(1, 0))], map[], map[0 := map[e.loc := Chosen]], map[k := v1])
  }

  lemma OverwriteReached(k: Key, v1: Value, v2: Value)
    ensures var s1 := Acknowledged(k, v1).(moves := map[0 := map[Loc(0, 0, 0) := Chosen]]);
            Idle(s1, k) && WriteOp(ReserveOp(BeginSet(s1, 1, k, v2), 1), 1) == Overwriting(k, v1, v2)
  {
    hide HasKey;
    var (b1, b2) := (Blob(None, [Record(1, Scalar, k, v1)]), Blob(None, [Record(2, Scalar, k, v2)]));
    var s1 := Acknowledged(k, v1).(moves := map[0 := map[Loc(0, 0, 0) := Chosen]]);
    var s2 := WriteOp(ReserveOp(BeginSet(s1, 1, k, v2), 1), 1);
    assert [] + [b2] == [b2];
    assert s2.segs == map[0 := Segment([b1], 1), 1 := Segment([b2], 0)];
    assert s2.ops == map[1 := ClientOp(b2, Some(Entry(Loc(0, 0, 0), PaddedRecordSize(|k|, |v1|))), Written(1, 0))];
  }

  lemma RaceCopyReached(k: Key, v1: Value, v2: Value)
    ensures var l := Loc(0, 0, 0);
            SyncSeg(WriteMove(ReserveMove(Overwriting(k, v1, v2), 0, l), 0, l), 1) == RaceWritten(k, v1, v2)
  {
    hide HasKey;
    var l := Loc(0, 0, 0);
    var (b1, b2) := (Blob(None, [Record(1, Scalar, k, v1)]), Blob(None, [Record(2, Scalar, k, v2)]));
    var s2 := Overwriting(k, v1, v2);
    assert map[l := Chosen][l := Slot(1)] == map[l := Slot(1)];
    assert ReserveMove(s2, 0, l).moves == map[0 := map[l := Slot(1)]];
    var s3 := WriteMove(ReserveMove(s2, 0, l), 0, l);
    assert [b2] + [b1] == [b2, b1];
    assert s3.segs == map[0 := Segment([b1], 1), 1 := Segment([b2, b1], 0)];
    assert map[l := Slot(1)][l := Copied(Loc(1, 1, 0))] == map[l := Copied(Loc(1, 1, 0))];
    assert s3.moves == map[0 := map[l := Copied(Loc(1, 1, 0))]];
    assert SyncSeg(s3, 1).segs == map[0 := Segment([b1], 1), 1 := Segment([b2, b1], 2)];
  }

  lemma RaceAcked(k: Key, v1: Value, v2: Value)
    ensures var (s, l) := (RaceWritten(k, v1, v2), Loc(1, 0, 0));
            ApplyOp(s, 1) == s.(ops := map[], index := map[k := Entry(l, PaddedRecordSize(|k|, |v2|))], newest := map[k := l], cache := map[k := v2])
  {
    hide PaddedRecordSize;
    var (s, r) := (RaceWritten(k, v1, v2), Record(2, Scalar, k, v2));
    assert [r][..0] == [];
    SingleApply(s.index, [r], 1, 0);
    assert ApplyNewest(s.newest, [r], 1, 0) == map[k := Loc(1, 0, 0)];
    assert ApplyCache(s.cache, [r]) == map[k := v2];
    assert s.ops - {1} == map[];
  }

  /** The write is acknowledged, the recheck fails, the source goes. */
  lemma RacedReached(k: Key, v1: Value, v2: Value)
    ensures var l := Loc(0, 0, 0);
            var s4 := ApplyOp(RaceWritten(k, v1, v2), 1);
            var s5 := FinishMove(s4, 0, l);
            CanUnlink(s5, 0) && Unlink(s5, 0) == Raced(k, v1, v2)
  {
    hide ApplyOp, PaddedRecordSize;
    var l, d := Loc(0, 0, 0), Loc(1, 1, 0);
    RaceAcked(k, v1, v2);
    var s4 := ApplyOp(RaceWritten(k, v1, v2), 1);
    var s5 := FinishMove(s4, 0, l);
    assert map[l := Copied(d)][l := Moved(d)] == map[l := Moved(d)];
    assert s5.moves == map[0 := map[l := Moved(d)]];
    forall l' | ValidLoc(s5.segs, l') && l'.seg == 0 ensures l' == l { }
    assert s5.moves - {0} == map[];
    assert s5.segs - {0} == Raced(k, v1, v2).segs;
  }

  /** A snapshot taken in that state, and a clean reopen: the full scan shows the new value, the
      snapshot recovery replays the segment and ends with the old one. */
  lemma SnapshotReplaysStaleCopy(k: Key, v1: Value, v2: Value)
    ensures var s := Raced(k, v1, v2);
            var keep := map[1 := 2];
            && QuietBelow(s.ops, s.moves, s.active) && ValidKeep(s.segs, keep) && Kept(s.segs, keep) == s.segs
            && ReadMap(s.segs, ScanIndex(s.segs, 1)) == map[k := v2]
            && ReadMap(s.segs, SnapshotIndex(s.segs, s, 1)) == map[k := v1]
  {
    var s := Raced(k, v1, v2);
    assert s.segs[1].blobs[..2] == s.segs[1].blobs;
    assert Kept(s.segs, map[1 := 2]) == s.segs;
    ScanFindsNew(k, v1, v2);
    ReplayStale(k, v1, v2);
  }

  lemma ScanFindsNew(k: Key, v1: Value, v2: Value)
    ensures var s := Raced(k, v1, v2);
            ReadMap(s.segs, ScanIndex(s.segs, 1)) == map[k := v2]
  {
    hide Winners;
    var segs := Raced(k, v1, v2).segs;
    var a := Loc(1, 0, 0);
    forall l | ValidLoc(segs, l) ensures l == a || l == Loc(1, 1, 0) { }
    FullScanWins(segs, 1);
    var w := Winners(segs, 2);
    assert ValidLoc(segs, a) && Dominated(segs, w, a);
    assert w[k] == a;
    forall j | j in w ensures j == k {
      assert ValidLoc(segs, w[j]);
    }
    assert w == map[k := a];
  }

  lemma ReplayStale(k: Key, v1: Value, v2: Value)
    ensures var s := Raced(k, v1, v2);
            ReadMap(s.segs, SnapshotIndex(s.segs, s, 1)) == map[k := v1]
  {
    hide SnapshotIndex, PaddedRecordSize;
    var s := Raced(k, v1, v2);
    var (segs, b) := (s.segs, Loc(1, 1, 0));
    var index := SnapshotIndex(segs, s, 1);
    StaleLast(k, v1, v2);
    forall j | j in index ensures j == k {
      OnlyKey(k, v1, v2, j);
    }
    assert index == map[k := Entry(b, SizeOf(At(segs, b)))];
  }

  lemma StaleLast(k: Key, v1: Value, v2: Value)
    ensures var s := Raced(k, v1, v2); Reflects(s.segs, SnapshotIndex(s.segs, s, 1), k, Loc(1, 1, 0))
  {
    hide Replay, Loaded, PaddedRecordSize;
    var s := Raced(k, v1, v2);
    var (segs, b) := (s.segs, Loc(1, 1, 0));
    forall l | ValidLoc(segs, l) ensures l == Loc(1, 0, 0) || l == b { }
    ReplayDecides(segs, Loaded(s, segs), 1, 1, k);
    assert Tail(segs, 1, k, b);
    var l :| IsLast(segs, 1, k, l) && Reflects(segs, SnapshotIndex(segs, s, 1), k, l);
    assert l == b;
  }

  lemma OnlyKey(k: Key, v1: Value, v2: Value, j: Key)
    ensures var s := Raced(k, v1, v2); j in SnapshotIndex(s.segs, s, 1) ==> j == k
  {
    hide SnapshotIndex, PaddedRecordSize, Resolve;
    var s := Raced(k, v1, v2);
    if j != k {
      forall l ensures !Tail(s.segs, 1, j, l) {
        if ValidLoc(s.segs, l) { assert l == Loc(1, 0, 0) || l == Loc(1, 1, 0); }
      }
      NoTailLoaded(s.segs, s, 1, j);
    }
  }

  // ---- Snapshots that miss a record ----

  /** The files of a crash after which segment 0 holds the record of `k`, and segment 1 nothing. */
  function OneRecord(k: Key, v: Value): Segments {
    map[0 := Segment([Blob(None, [Record(1, Scalar, k, v)])], 1), 1 := Segment([], 0)]
  }

  lemma OneScanned(k: Key, v: Value)
    ensures var segs := OneRecord(k, v); ReadMap(segs, ScanIndex(segs, 1)) == map[k := v]
  {
    hide Winners;
    var (segs, l) := (OneRecord(k, v), Loc(0, 0, 0));
    forall m | ValidLoc(segs, m) ensures m == l { }
    FullScanWins(segs, 1);
    var w := Winners(segs, 2);
    assert ValidLoc(segs, l) && Dominated(segs, w, l);
    forall j | j in w ensures j == k {
      assert ValidLoc(segs, w[j]);
    }
    assert w == map[k := l];
  }

  /** With nothing in the segments from its high-water mark on, a snapshot is recovered as it is loaded. */
  lemma OneReplayed(k: Key, v: Value, s0: State)
    requires s0.active == 1
    ensures SnapshotIndex(OneRecord(k, v), s0, 1) == Loaded(s0, OneRecord(k, v))
  {
    hide Replay, Loaded;
    var segs := OneRecord(k, v);
    var (index, entries) := (SnapshotIndex(segs, s0, 1), Loaded(s0, segs));
    forall j ensures (j in index <==> j in entries) && (j in index ==> index[j] == entries[j]) {
      assert forall l :: !Tail(segs, 1, j, l);
      NoTailLoaded(segs, s0, 1, j);
    }
    assert index == entries;
  }

  /** A snapshot taken between the swap of a relocation and its sync points at the copy; a crash that drops the
      copy keeps the original, which the full scan finds and the snapshot does not know. */
  lemma SnapshotLosesUnsyncedCopy(k: Key, v: Value)
    ensures var s := Relocated(k, v);
            var keep := map[0 := 1, 1 := 0];
            && QuietBelow(s.ops, s.moves, s.active) && ValidKeep(s.segs, keep)
            && var segs := Kept(s.segs, keep);
               && Usable(segs, s) && ReadMap(segs, ScanIndex(segs, 1)) == map[k := v]
               && ReadMap(segs, OpenIndex(segs, s, 1)) == map[]
  {
    hide ScanIndex, SnapshotIndex, ReadMap, QuietBelow, Relocated, Kept, ValidKeep, OneRecord;
    RelocatedFiles(k, v);
    OneScanned(k, v);
    OneReplayed(k, v, Relocated(k, v));
    GoneEntry(k, v);
  }

  lemma RelocatedFiles(k: Key, v: Value)
    ensures var (s, keep) := (Relocated(k, v), map[0 := 1, 1 := 0]);
            && s.active == 1 && QuietBelow(s.ops, s.moves, 1) && ValidKeep(s.segs, keep) && Kept(s.segs, keep) == OneRecord(k, v)
  {
    var b := Blob(None, [Record(1, Scalar, k, v)]);
    assert [b][..1] == [b] && [b][..0] == [];
  }

  lemma GoneEntry(k: Key, v: Value)
    ensures var (s, segs) := (Relocated(k, v), OneRecord(k, v)); Usable(segs, s) && ReadMap(segs, Loaded(s, segs)) == map[]
  {
    hide Offset;
    var (s, segs) := (Relocated(k, v), OneRecord(k, v));
    forall j | j in s.index ensures Resolve(s.segs, s.index[j], segs) == None {
      assert forall m :: ValidLoc(segs, m) ==> m.seg == 0;
    }
    assert Loaded(s, segs) == map[];
  }

  /** A snapshot taken while an append below its high-water mark awaits its acknowledgement never sees the write:
      the acknowledged write is lost to a recovery that trusts it. */
  lemma SnapshotMissesPendingWrite(k: Key, v: Value)
    ensures var (s0, s) := (Unacknowledged(k, v), Acknowledged(k, v));
            var keep := map[0 := 1, 1 := 0];
            && CanApply(s0, 0) && s == ApplyOp(s0, 0) && !QuietBelow(s0.ops, s0.moves, s0.active) && ValidKeep(s.segs, keep)
            && var segs := Kept(s.segs, keep);
               && Usable(segs, s0) && ReadMap(segs, ScanIndex(segs, 1)) == map[k := v]
               && ReadMap(segs, OpenIndex(segs, s0, 1)) == map[]
  {
    hide ScanIndex, SnapshotIndex, Kept, ValidKeep, OneRecord, Acknowledged;
    AcknowledgedReached(k, v);
    AcknowledgedFiles(k, v);
    OneScanned(k, v);
    OneReplayed(k, v, Unacknowledged(k, v));
    assert Unacknowledged(k, v).ops[0].phase.seg == 0;
  }

  lemma AcknowledgedFiles(k: Key, v: Value)
    ensures var (s, keep) := (Acknowledged(k, v), map[0 := 1, 1 := 0]);
            ValidKeep(s.segs, keep) && Kept(s.segs, keep) == OneRecord(k, v)
  {
    var b := Blob(None, [Record(1, Scalar, k, v)]);
    var none: seq<Blob> := [];
    assert [b][..1] == [b] && none[..0] == [];
  }

  // ---- A live counter that counts too much ----

  /** The books when the first write was acknowledged: its bytes are live in segment 0. */
  function FirstBooks(k: Key, v1: Value): Ledger {
    var n := PaddedRecordSize(|k|, |v1|);
    Ledger(map[0 := n, 1 := 0], map[TenantOf(k) := n])
  }

  lemma FirstBooksReached(k: Key, v1: Value)
    ensures ChargeAck(Ledger(map[0 := 0, 1 := 0], map[]), Unacknowledged(k, v1), 0) == FirstBooks(k, v1)
  {
    hide TenantOf, PaddedRecordSize;
    var l := ChargeAck(Ledger(map[0 := 0, 1 := 0], map[]), Unacknowledged(k, v1), 0);
    assert l.live == FirstBooks(k, v1).live && l.disk == FirstBooks(k, v1).disk;
  }

  /** The relocation is finished before the write that races it is acknowledged: the write then gives back the
      bytes of the record it had read, in the source, and the bytes of the copy stay counted where it landed. */
  lemma LiveOvercounted(k: Key, v1: Value, v2: Value)
    ensures var (s, l) := (RaceWritten(k, v1, v2), Loc(0, 0, 0));
            && ValidLoc(s.segs, l) && Swaps(s, l)
            && var (s1, l1) := (FinishMove(s, 0, l), FirstBooks(k, v1).(live := IncLive(FirstBooks(k, v1).live, 1, SizeOf(At(s.segs, l)))));
               && CanApply(s1, 1)
               && var (s2, l2) := (ApplyOp(s1, 1), ChargeAck(l1, s1, 1));
                  1 in l2.live && 1 !in s2.moves && l2.live[1] == Charged(s2.index, InSegment(1)) + PaddedRecordSize(|k|, |v1|)
  {
    hide TenantOf, PaddedRecordSize, Charged, ApplyNewest, ApplyCache, FinishMove;
    var (s, l) := (RaceWritten(k, v1, v2), Loc(0, 0, 0));
    var r := Record(2, Scalar, k, v2);
    var (n1, e2) := (PaddedRecordSize(|k|, |v1|), Entry(Loc(1, 0, 0), SizeOf(r)));
    RaceMoved(k, v1, v2);
    var s1 := FinishMove(s, 0, l);
    var l1 := FirstBooks(k, v1).(live := map[0 := n1, 1 := n1]);
    assert IncLive(FirstBooks(k, v1).live, 1, n1) == l1.live;
    SingleApply(s1.index, [r], 1, 0);
    assert s1.index[k := e2] == map[k := e2];
    OneEntry(k, e2);
    assert ChargeAck(l1, s1, 1).live == map[0 := 0, 1 := n1 + e2.size];
  }

  /** The recheck succeeds: the index is swapped to the copy. */
  lemma RaceMoved(k: Key, v1: Value, v2: Value)
    ensures var (s, l) := (RaceWritten(k, v1, v2), Loc(0, 0, 0));
            && ValidLoc(s.segs, l) && Swaps(s, l)
            && var s1 := FinishMove(s, 0, l);
               && s1.index == map[k := Entry(Loc(1, 1, 0), PaddedRecordSize(|k|, |v1|))]
               && s1.ops == s.ops && s1.segs == s.segs && s1.moves.Keys == {0}
  {
    hide PaddedRecordSize;
  }

  lemma OneEntry(k: Key, e: Entry)
    ensures Charged(map[k := e], InSegment(e.loc.seg)) == e.size
  {
    var none: map<Key, Entry> := map[];
    NothingCharged(none, InSegment(e.loc.seg));
    ChargedSet(none, k, e, InSegment(e.loc.seg));
    assert none[k := e] == map[k := e];
  }

  // ---- Writes of one key that overlap ----

  /** Two `set`s of `k` written and synced: the one that drew its timestamp first was written last. */
  function Overlapping(k: Key, v1: Value, v2: Value): State {
    var (b1, b2) := (Blob(None, [Record(1, Scalar, k, v1)]), Blob(None, [Record(2, Scalar, k, v2)]));
    State(map[0 := Segment([b2, b1], 2)], 0, 3, map[], map[],
          map[0 := ClientOp(b1, None, Written(0, 1)), 1 := ClientOp(b2, None, Written(0, 0))], map[], map[], map[])
  }

  /** Reached from an empty store, but for the guard of the second `set`. */
  lemma OverlappingReached(k: Key, v1: Value, v2: Value)
    ensures var s1 := BeginSet(Init(), 0, k, v1);
            && !Idle(s1, k)
            && var s2 := s1.(clock := s1.clock + 1, ops := s1.ops[1 := ClientOp(Blob(None, [Record(s1.clock, Scalar, k, v2)]), None, Drawn)]);
               var s3 := WriteOp(ReserveOp(s2, 1), 1);
               SyncSeg(WriteOp(ReserveOp(s3, 0), 0), 0) == Overlapping(k, v1, v2)
  {
    hide Idle;
    FirstBegun(k, v1);
    var b2 := Blob(None, [Record(2, Scalar, k, v2)]);
    var s1 := BeginSet(Init(), 0, k, v1);
    var s2 := s1.(clock := s1.clock + 1, ops := s1.ops[1 := ClientOp(b2, None, Drawn)]);
    assert [] + [b2] == [b2];
    var s3 := WriteOp(ReserveOp(s2, 1), 1);
    assert s3.ops == HalfWritten(k, v1, v2).ops && s3.segs == HalfWritten(k, v1, v2).segs;
    SecondWritten(k, v1, v2);
  }

  /** The second `set` is written, the first has only drawn its timestamp. */
  function HalfWritten(k: Key, v1: Value, v2: Value): State {
    var (b1, b2) := (Blob(None, [Record(1, Scalar, k, v1)]), Blob(None, [Record(2, Scalar, k, v2)]));
    State(map[0 := Segment([b2], 0)], 0, 3, map[], map[],
          map[0 := ClientOp(b1, None, Drawn), 1 := ClientOp(b2, None, Written(0, 0))], map[], map[], map[])
  }

  lemma FirstBegun(k: Key, v: Value)
    ensures Idle(Init(), k) && !Idle(BeginSet(Init(), 0, k, v), k)
  {
    var b := Blob(None, [Record(1, Scalar, k, v)]);
    assert BeginSet(Init(), 0, k, v).ops[0].blob == b && b.recs[0].key == k;
    assert HasKey(b, k);
  }

  lemma SecondWritten(k: Key, v1: Value, v2: Value)
    ensures SyncSeg(WriteOp(ReserveOp(HalfWritten(k, v1, v2), 0), 0), 0) == Overlapping(k, v1, v2)
  {
    var (b1, b2) := (Blob(None, [Record(1, Scalar, k, v1)]), Blob(None, [Record(2, Scalar, k, v2)]));
    assert [b2] + [b1] == [b2, b1];
    var s := WriteOp(ReserveOp(HalfWritten(k, v1, v2), 0), 0);
    assert s.segs == map[0 := Segment([b2, b1], 0)];
    assert s.ops == Overlapping(k, v1, v2).ops;
  }

  lemma OverlappingScanned(k: Key, v1: Value, v2: Value)
    ensures var segs := Overlapping(k, v1, v2).segs; ReadMap(segs, ScanIndex(segs, 0)) == map[k := v2]
  {
    hide Winners;
    var (segs, a) := (Overlapping(k, v1, v2).segs, Loc(0, 0, 0));
    forall l | ValidLoc(segs, l) ensures l == a || l == Loc(0, 1, 0) { }
    FullScanWins(segs, 0);
    var w := Winners(segs, 1);
    assert ValidLoc(segs, a) && Dominated(segs, w, a);
    assert w[k] == a;
    forall j | j in w ensures j == k {
      assert ValidLoc(segs, w[j]);
    }
    assert w == map[k := a];
  }

  /** Acknowledged in the order they were written, clients read the value of the lower timestamp, which a
      reopened store does not show. */
  lemma OverlappingSetsDiverge(k: Key, v1: Value, v2: Value)
    ensures var s := Overlapping(k, v1, v2);
            && CanApply(s, 1) && CanApply(ApplyOp(s, 1), 0)
            && var s' := ApplyOp(ApplyOp(s, 1), 0);
               && s'.ops == map[] && IndexPoints(s') && Contents(s') == map[k := v1]
               && ReadMap(s'.segs, ScanIndex(s'.segs, 0)) == map[k := v2]
  {
    hide PaddedRecordSize, ApplyOp, CanApply, Winners;
    OverlappingAcked(k, v1, v2);
    OverlappingScanned(k, v1, v2);
  }

  lemma OverlappingAcked(k: Key, v1: Value, v2: Value)
    ensures var s := Overlapping(k, v1, v2);
            && CanApply(s, 1) && CanApply(ApplyOp(s, 1), 0)
            && var s' := ApplyOp(ApplyOp(s, 1), 0);
               s'.ops == map[] && s'.segs == s.segs && s'.index == map[k := Entry(Loc(0, 1, 0), PaddedRecordSize(|k|, |v1|))]
  {
    hide PaddedRecordSize, ApplyNewest, ApplyCache;
    var s := Overlapping(k, v1, v2);
    SingleApply(s.index, [Record(2, Scalar, k, v2)], 0, 0);
    var s1 := ApplyOp(s, 1);
    assert s1.ops == map[0 := s.ops[0]];
    SingleApply(s1.index, [Record(1, Scalar, k, v1)], 0, 1);
    assert ApplyOp(s1, 0).ops == map[];
  }
}
