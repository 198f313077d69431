/** What the guards of the machine prevent, exactly: operations that overlap on one key, and unlinks that come
    too early. */
module VLogGuards {
  import opened Bytes
  import opened Records
  import opened Batches
  import opened VLogState
  import opened VLogInv
  import opened VLogClient
  import opened VLogRecover
  import opened VLogRefinement
  import opened VLogLedgers
  import opened VLogSnapshot

  // ---- Operations without their guard ----

  /** A `set` that has drawn its timestamp, whatever else is in flight. */
  function DrawSet(s: State, id: nat, k: Key, v: Value): State {
    s.(clock := s.clock + 1, ops := s.ops[id := ClientOp(Lone(s.clock, k, v), PrevEntry(s, k), Drawn)])
  }

  function Lone(ts: nat, k: Key, v: Value): Blob {
    Blob(None, [Record(ts, Scalar, k, v)])
  }

  /** Its blob reserved, written and synced. */
  function Committed(s: State, id: nat): State
    requires id in s.ops && s.ops[id].phase.Drawn? && s.active in s.segs
  {
    SyncSeg(WriteOp(ReserveOp(s, id), id), s.active)
  }

  lemma CommittedIs(s: State, id: nat)
    requires id in s.ops && s.ops[id].phase.Drawn? && s.active in s.segs
    ensures var (x, n) := (s.active, |s.segs[s.active].blobs|);
            Committed(s, id) == s.(segs := s.segs[x := Segment(s.segs[x].blobs + [s.ops[id].blob], n + 1)],
                                   ops := s.ops[id := s.ops[id].(phase := Written(x, n))])
  {
    var (x, n) := (s.active, |s.segs[s.active].blobs|);
    var s' := Committed(s, id);
    assert s'.ops == s.ops[id := s.ops[id].(phase := Written(x, n))];
    assert s'.segs == s.segs[x := Segment(s.segs[x].blobs + [s.ops[id].blob], n + 1)];
  }

  /** The acknowledgement of a lone `set`. */
  lemma AckedSet(s: State, id: nat, k: Key, v: Value, ts: nat, x: nat, b: nat)
    requires id in s.ops && s.ops[id].blob == Lone(ts, k, v) && s.ops[id].phase == Written(x, b)
    ensures var s' := ApplyOp(s, id);
            && s'.index == s.index[k := Entry(Loc(x, b, 0), PaddedRecordSize(|k|, |v|))] && s'.cache == s.cache[k := v]
            && s'.ops == s.ops - {id} && s'.segs == s.segs && s'.active == s.active && s'.gets == s.gets
  {
    hide PaddedRecordSize, ApplyNewest;
    var recs := s.ops[id].blob.recs;
    assert recs[..0] == [];
    SingleApply(s.index, recs, x, b);
    assert ApplyCache(s.cache, []) == s.cache;
  }

  // ---- Two writes of one key ----

  /** Two `set`s of `k` in flight, the first with the lower timestamp; committed in either order. */
  function BothCommitted(s: State, i: nat, j: nat, k: Key, v1: Value, v2: Value, swapped: bool): State
    requires i != j && s.active in s.segs
  {
    var s2 := DrawSet(DrawSet(s, i, k, v1), j, k, v2);
    if swapped then Committed(Committed(s2, j), i) else Committed(Committed(s2, i), j)
  }

  lemma BothIs(s: State, i: nat, j: nat, k: Key, v1: Value, v2: Value, swapped: bool)
    requires i != j && s.active in s.segs
    ensures var (s4, x, n) := (BothCommitted(s, i, j, k, v1, v2, swapped), s.active, |s.segs[s.active].blobs|);
            var (b1, b2) := (Lone(s.clock, k, v1), Lone(s.clock + 1, k, v2));
            && s4.segs == s.segs[x := Segment(s.segs[x].blobs + if swapped then [b2, b1] else [b1, b2], n + 2)]
            && s4.active == x && i in s4.ops && j in s4.ops && s4.ops[i].blob == b1 && s4.ops[j].blob == b2
            && s4.ops[i].phase == Written(x, if swapped then n + 1 else n)
            && s4.ops[j].phase == Written(x, if swapped then n else n + 1)
  {
    hide Committed;
    var s2 := DrawSet(DrawSet(s, i, k, v1), j, k, v2);
    var (x, a, b) := (s.active, if swapped then j else i, if swapped then i else j);
    CommittedIs(s2, a);
    var s3 := Committed(s2, a);
    CommittedIs(s3, b);
    assert s.segs[x].blobs + [s2.ops[a].blob] + [s2.ops[b].blob] == s.segs[x].blobs + [s2.ops[a].blob, s2.ops[b].blob];
  }

  /** Acknowledged one after the other, `j` last or not. */
  function BothAcked(s4: State, i: nat, j: nat, higherLast: bool): State
    requires i != j && i in s4.ops && j in s4.ops && s4.ops[i].phase.Written? && s4.ops[j].phase.Written?
  {
    if higherLast then ApplyOp(ApplyOp(s4, i), j) else ApplyOp(ApplyOp(s4, j), i)
  }

  /** Clients read the write acknowledged last. */
  lemma LastAcked(s: State, i: nat, j: nat, k: Key, v1: Value, v2: Value, swapped: bool, higherLast: bool)
    requires i != j && s.active in s.segs
    ensures var s4 := BothCommitted(s, i, j, k, v1, v2, swapped);
            && i in s4.ops && j in s4.ops && s4.ops[i].phase.Written? && s4.ops[j].phase.Written?
            && var s' := BothAcked(s4, i, j, higherLast);
               && s'.segs == s4.segs && k in s'.index && ValidLoc(s'.segs, s'.index[k].loc)
               && At(s'.segs, s'.index[k].loc).value == if higherLast then v2 else v1
  {
    hide BothCommitted, ApplyOp, PaddedRecordSize;
    BothIs(s, i, j, k, v1, v2, swapped);
    var (s4, x, n) := (BothCommitted(s, i, j, k, v1, v2, swapped), s.active, |s.segs[s.active].blobs|);
    var (bi, bj) := (if swapped then n + 1 else n, if swapped then n else n + 1);
    AckedSet(s4, i, k, v1, s.clock, x, bi);
    AckedSet(s4, j, k, v2, s.clock + 1, x, bj);
    if higherLast {
      AckedSet(ApplyOp(s4, i), j, k, v2, s.clock + 1, x, bj);
    } else {
      AckedSet(ApplyOp(s4, j), i, k, v1, s.clock, x, bi);
    }
  }

  /** A reopened store shows the higher timestamp. */
  lemma HigherScanned(s: State, i: nat, j: nat, k: Key, v1: Value, v2: Value, swapped: bool)
    requires Inv(s) && i != j
    ensures s.active in s.segs
    ensures var segs := BothCommitted(s, i, j, k, v1, v2, swapped).segs;
            var m := ReadMap(segs, ScanIndex(segs, s.active));
            k in m && m[k] == v2
  {
    hide BothCommitted, Winners, Inv, SizeOf;
    InvPlaces(s);
    BothIs(s, i, j, k, v1, v2, swapped);
    var (segs, x, n) := (BothCommitted(s, i, j, k, v1, v2, swapped).segs, s.active, |s.segs[s.active].blobs|);
    FullScanWins(segs, x);
    var (w, l) := (Winners(segs, x + 1), Loc(x, if swapped then n else n + 1, 0));
    assert ValidLoc(segs, l) && At(segs, l) == Record(s.clock + 1, Scalar, k, v2);
    assert Dominated(segs, w, l);
    OnlyHigher(s, i, j, k, v1, v2, swapped, w[k]);
  }

  lemma OnlyHigher(s: State, i: nat, j: nat, k: Key, v1: Value, v2: Value, swapped: bool, m: Loc)
    requires Inv(s) && i != j
    ensures s.active in s.segs
    ensures var segs := BothCommitted(s, i, j, k, v1, v2, swapped).segs;
            ValidLoc(segs, m) && At(segs, m).ts > s.clock ==> At(segs, m) == Record(s.clock + 1, Scalar, k, v2)
  {
    hide BothCommitted, Ordered, NewestOk, IndexOk, MovesOk, CacheOk, Agree, OpsOk;
    BothIs(s, i, j, k, v1, v2, swapped);
    var (segs, x, n) := (BothCommitted(s, i, j, k, v1, v2, swapped).segs, s.active, |s.segs[s.active].blobs|);
    if ValidLoc(segs, m) && (m.seg != x || m.blob < n) {
      assert ValidLoc(s.segs, m) && At(segs, m) == At(s.segs, m);
    }
  }

  /** Two `set`s of a key that overlap, in any store: clients and a reopened store agree on the key if and only if
      the one with the higher timestamp is acknowledged last, or both write the same value. */
  lemma OverlappingSetsIff(s: State, i: nat, j: nat, k: Key, v1: Value, v2: Value, swapped: bool, higherLast: bool)
    requires Inv(s) && Idle(s, k) && i !in s.ops && j !in s.ops && i != j
    ensures s.active in s.segs && DrawSet(s, i, k, v1) == BeginSet(s, i, k, v1) && !Idle(DrawSet(s, i, k, v1), k)
    ensures var s4 := BothCommitted(s, i, j, k, v1, v2, swapped);
            && i in s4.ops && j in s4.ops && s4.ops[i].phase.Written? && s4.ops[j].phase.Written?
            && var s' := BothAcked(s4, i, j, higherLast);
               SameAt(ReadMap(s'.segs, s'.index), ReadMap(s'.segs, ScanIndex(s'.segs, s.active)), k) <==> higherLast || v1 == v2
  {
    hide Inv, BothCommitted, BothAcked, ScanIndex;
    HigherScanned(s, i, j, k, v1, v2, swapped);
    LastAcked(s, i, j, k, v1, v2, swapped, higherLast);
    assert Lone(s.clock, k, v1).recs[0].key == k;
    assert HasKey(DrawSet(s, i, k, v1).ops[i].blob, k);
  }

  // ---- A read and a write of one key ----

  /** A read of `k` from the log, then a `set` of it; the read caches its value before the acknowledgement or
      after it. */
  function ReadAndSet(s: State, g: nat, id: nat, k: Key, v: Value, readFirst: bool): State
    requires g !in s.gets && k in s.index && ValidLoc(s.segs, s.index[k].loc) && s.active in s.segs
  {
    var s1 := Committed(DrawSet(BeginGet(s, g, k), id, k, v), id);
    if readFirst then ApplyOp(FinishGet(s1, g), id) else FinishGet(ApplyOp(s1, id), g)
  }

  /** In any store: the cache then holds the value the log holds if and only if the read was the first to finish,
      or found the value that was written. */
  lemma ReadAndSetIff(s: State, g: nat, id: nat, k: Key, v: Value, readFirst: bool)
    requires Inv(s) && Idle(s, k) && g !in s.gets && id !in s.ops && k in s.index
    ensures ValidLoc(s.segs, s.index[k].loc) && s.active in s.segs && !Idle(BeginGet(s, g, k), k)
    ensures var s' := ReadAndSet(s, g, id, k, v, readFirst);
            && k in s'.index && ValidLoc(s'.segs, s'.index[k].loc) && At(s'.segs, s'.index[k].loc).value == v && k in s'.cache
            && (s'.cache[k] == v <==> readFirst || At(s.segs, s.index[k].loc).value == v)
  {
    hide Inv, Committed, ApplyOp, PaddedRecordSize;
    InvPlaces(s);
    var (s1, x, n) := (DrawSet(BeginGet(s, g, k), id, k, v), s.active, |s.segs[s.active].blobs|);
    CommittedIs(s1, id);
    var s2 := Committed(s1, id);
    AckedSet(s2, id, k, v, s.clock, x, n);
    AckedSet(FinishGet(s2, g), id, k, v, s.clock, x, n);
    assert BeginGet(s, g, k).gets[g].key == k;
  }

  lemma InvPlaces(s: State)
    requires Inv(s)
    ensures s.active in s.segs && (forall x :: x in s.segs ==> x <= s.active) && IndexPoints(s)
  {
    hide Ordered, MovesOk, CacheOk, Agree, ClockBound, OpsOk;
  }

  // ---- Unlinks ----

  /** The write leaves a value behind: its last record of some key is no tombstone. */
  ghost predicate HasData(b: Blob) {
    exists k :: HasKey(b, k) && !IsTomb(b.recs[LastOf(b.recs, k)])
  }

  /** The keys of a write can be read after its acknowledgement. */
  ghost predicate AckReadable(s: State, id: nat)
    requires id in s.ops && s.ops[id].phase.Written?
  {
    var index := ApplyOp(s, id).index;
    forall k :: HasKey(s.ops[id].blob, k) && k in index ==> ValidLoc(s.segs, index[k].loc)
  }

  lemma AckReadableIff(s: State, src: nat, id: nat)
    requires Inv(s) && id in s.ops && s.ops[id].phase.Written?
    ensures AckReadable(Unlink(s, src), id) <==> (HasData(s.ops[id].blob) ==> s.ops[id].phase.seg != src)
  {
    hide Ordered, NewestOk, IndexOk, MovesOk, CacheOk, Agree, ClockBound, ApplyIndex, ApplyNewest, ApplyCache, SizeOf;
    var (s', op) := (Unlink(s, src), s.ops[id]);
    assert OpOk(s.segs, s.moves, op);
    var (recs, x, b) := (op.blob.recs, op.phase.seg, op.phase.blob);
    forall k | HasKey(op.blob, k)
      ensures var index := ApplyOp(s', id).index;
              if IsTomb(recs[LastOf(recs, k)]) then k !in index
              else k in index && (ValidLoc(s'.segs, index[k].loc) <==> x != src)
    {
      ApplyIndexAt(s'.index, recs, x, b, k);
    }
  }

  /** Unlinking a segment leaves every later acknowledgement readable if and only if no write in flight that leaves
      a value is bound to it. */
  lemma UnlinkReadableIff(s: State, src: nat)
    requires Inv(s)
    ensures (forall id :: id in s.ops && s.ops[id].phase.Written? ==> AckReadable(Unlink(s, src), id)) <==>
            (forall id :: id in s.ops && s.ops[id].phase.Written? && HasData(s.ops[id].blob) ==> s.ops[id].phase.seg != src)
  {
    hide Inv, AckReadable, HasData, Unlink;
    forall id | id in s.ops && s.ops[id].phase.Written?
      ensures id in Unlink(s, src).ops && Unlink(s, src).ops[id].phase.Written?
      ensures AckReadable(Unlink(s, src), id) <==> (HasData(s.ops[id].blob) ==> s.ops[id].phase.seg != src)
    {
      UnlinkOps(s, src);
      AckReadableIff(s, src, id);
    }
  }

  lemma UnlinkOps(s: State, src: nat)
    ensures Unlink(s, src).ops == s.ops
  {
  }

  /** Files from which the full scan shows, for every key, nothing older than its newest acknowledged record. */
  ghost predicate NothingLost(s: State, segs: Segments) {
    var w := Winners(segs, s.active + 1);
    forall k :: k in s.newest && ValidLoc(s.segs, s.newest[k]) ==> k in w && At(s.segs, s.newest[k]).ts <= At(segs, w[k]).ts
  }

  /** A synced record of `k`, outside the source, that is no older. */
  ghost predicate SafeCopy(s: State, src: nat, k: Key, l: Loc)
    requires k in s.newest && ValidLoc(s.segs, s.newest[k])
  {
    Durable(s.segs, l) && l.seg != src && At(s.segs, l).key == k && At(s.segs, s.newest[k]).ts <= At(s.segs, l).ts
  }

  lemma WithoutAt(s: State, src: nat, keep: map<nat, nat>, l: Loc)
    requires ValidKeep(s.segs - {src}, keep) && ValidLoc(Kept(s.segs - {src}, keep), l)
    ensures ValidLoc(s.segs, l) && l.seg != src && At(s.segs, l) == At(Kept(s.segs - {src}, keep), l) && l.blob < keep[l.seg]
  {
    KeptAt(s.segs - {src}, keep, l);
  }

  lemma SafeKept(s: State, src: nat, keep: map<nat, nat>, k: Key, l: Loc)
    requires Inv(s) && ValidKeep(s.segs - {src}, keep) && k in s.newest && ValidLoc(s.segs, s.newest[k]) && SafeCopy(s, src, k, l)
    ensures var segs := Kept(s.segs - {src}, keep);
            var w := Winners(segs, s.active + 1);
            k in w && At(s.segs, s.newest[k]).ts <= At(segs, w[k]).ts
  {
    hide Ordered, NewestOk, IndexOk, MovesOk, CacheOk, Agree, ClockBound, OpsOk, Winners;
    var segs := Kept(s.segs - {src}, keep);
    KeptAt(s.segs - {src}, keep, l);
    FullScanWins(segs, s.active);
    assert Dominated(segs, Winners(segs, s.active + 1), l);
  }

  /** What is synced, and no more, is a crash the store must survive. */
  function SyncedOnly(segs: Segments): map<nat, nat> {
    map x | x in segs :: segs[x].synced
  }

  lemma LostWithout(s: State, src: nat, k: Key) returns (l: Loc)
    requires Inv(s) && k in s.newest && ValidLoc(s.segs, s.newest[k])
    requires ValidKeep(s.segs - {src}, SyncedOnly(s.segs - {src}))
    requires NothingLost(s, Kept(s.segs - {src}, SyncedOnly(s.segs - {src})))
    ensures SafeCopy(s, src, k, l)
  {
    hide Ordered, NewestOk, IndexOk, MovesOk, CacheOk, Agree, ClockBound, OpsOk, Winners;
    var keep := SyncedOnly(s.segs - {src});
    var segs := Kept(s.segs - {src}, keep);
    FullScanWins(segs, s.active);
    l := Winners(segs, s.active + 1)[k];
    WithoutAt(s, src, keep, l);
  }

  lemma SyncedValid(s: State, src: nat)
    requires Inv(s)
    ensures ValidKeep(s.segs - {src}, SyncedOnly(s.segs - {src}))
  {
    hide Ordered, NewestOk, IndexOk, MovesOk, CacheOk, Agree, ClockBound, OpsOk;
  }

  /** Unlinking a segment loses nothing acknowledged to any later crash if and only if every key has a synced copy
      of its newest record, or a newer one, elsewhere. A compaction syncs the copies it made itself. */
  lemma UnlinkDurableIff(s: State, src: nat)
    requires Inv(s)
    ensures (forall keep :: ValidKeep(s.segs - {src}, keep) ==> NothingLost(s, Kept(s.segs - {src}, keep))) <==>
            (forall k :: k in s.newest && ValidLoc(s.segs, s.newest[k]) ==> exists l :: SafeCopy(s, src, k, l))
  {
    hide Inv, Winners, Kept, SafeCopy;
    if forall keep :: ValidKeep(s.segs - {src}, keep) ==> NothingLost(s, Kept(s.segs - {src}, keep)) {
      SyncedValid(s, src);
      forall k | k in s.newest && ValidLoc(s.segs, s.newest[k]) ensures exists l :: SafeCopy(s, src, k, l) {
        var l := LostWithout(s, src, k);
      }
    }
    if forall k :: k in s.newest && ValidLoc(s.segs, s.newest[k]) ==> exists l :: SafeCopy(s, src, k, l) {
      forall keep | ValidKeep(s.segs - {src}, keep) ensures NothingLost(s, Kept(s.segs - {src}, keep)) {
        forall k | k in s.newest && ValidLoc(s.segs, s.newest[k])
          ensures var segs := Kept(s.segs - {src}, keep);
                  var w := Winners(segs, s.active + 1);
                  k in w && At(s.segs, s.newest[k]).ts <= At(segs, w[k]).ts
        {
          var l :| SafeCopy(s, src, k, l);
          SafeKept(s, src, keep, k, l);
        }
      }
    }
  }
}
