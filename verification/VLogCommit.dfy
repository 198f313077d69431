/** Client operations that do not overlap, as compositions of the machine steps they run through. */
module VLogCommit {
  import opened Bytes
  import opened Records
  import opened Batches
  import opened VLogState
  import opened VLogInv
  import opened VLogClient
  import opened VLogRuns
  import opened VLogRefinement
  import opened VLogLedgers

  // ---- Operations as compositions of steps ----

  /** A store between operations, with exact books. */
  ghost predicate Good(s: State, l: Ledger) {
    Sane(s, l, true)
  }

  /** The same, but the live counters may be too high unless `exact`. */
  ghost predicate Sane(s: State, l: Ledger, exact: bool) {
    && Inv(s) && s.ops == map[] && s.gets == map[] && s.moves == map[]
    && DiskExact(s.index, l.disk) && LiveOk(s.segs, s.moves, s.index, l.live, exact)
  }

  /** The cache after `get_scoped`. */
  function CacheAfterGet(s: State, k: Key): State
    requires k in s.index ==> ValidLoc(s.segs, s.index[k].loc)
  {
    if k !in s.cache && k in s.index then s.(cache := s.cache[k := At(s.segs, s.index[k].loc).value]) else s
  }

  /** It is the composition of the two steps of a `get`. */
  lemma GetIsTwoSteps(s: State, k: Key)
    requires s.gets == map[] && k !in s.cache && k in s.index && ValidLoc(s.segs, s.index[k].loc)
    ensures FinishGet(BeginGet(s, 0, k), 0) == CacheAfterGet(s, k)
  {
    assert BeginGet(s, 0, k).gets - {0} == map[];
  }

  lemma GetInv(s: State, k: Key)
    requires Inv(s) && s.ops == map[] && s.gets == map[] && k !in s.cache && k in s.index
    ensures ValidLoc(s.segs, s.index[k].loc) && Inv(CacheAfterGet(s, k))
  {
    hide Ordered, NewestOk, MovesOk, Agree, ClockBound, OpsOk, Shape;
    GetIsTwoSteps(s, k);
    BeginGetInv(s, 0, k);
    FinishGetInv(BeginGet(s, 0, k), 0);
  }

  lemma GetGood(s: State, l: Ledger, k: Key)
    requires Good(s, l)
    ensures k in s.index ==> ValidLoc(s.segs, s.index[k].loc)
    ensures Good(CacheAfterGet(s, k), l)
    ensures k in s.cache ==> k in s.index && s.cache[k] == At(s.segs, s.index[k].loc).value
  {
    hide Ordered, NewestOk, MovesOk, Agree, ClockBound, OpsOk, LiveOk, DiskExact;
    InvPoints(s);
    if k !in s.cache && k in s.index {
      GetInv(s, k);
    }
  }

  lemma RotateSane(s: State, l: Ledger, exact: bool)
    requires Sane(s, l, exact)
    ensures Sane(Rotate(s), l.(live := l.live[s.active + 1 := 0]), exact) && IndexPoints(s) && SameReads(s, Rotate(s))
  {
    RotateInv(s);
    InvPoints(s);
    RotateLive(s, l, exact);
    VLogRefinement.CommitReads(s, DoRotate);
  }

  /** The store after a client blob has gone through all its steps with nothing else running. */
  function Commit(s: State, b: Blob, clock: nat): State
    requires s.active in s.segs
  {
    var x := s.active;
    var n := |s.segs[x].blobs|;
    s.(segs := s.segs[x := Segment(s.segs[x].blobs + [b], n + 1)], clock := clock,
       index := ApplyIndex(s.index, b.recs, x, n), newest := ApplyNewest(s.newest, b.recs, x, n),
       cache := ApplyCache(s.cache, b.recs))
  }

  function Begun(s: State, b: Blob, prev: Option<Entry>, clock: nat): State {
    s.(clock := clock, ops := s.ops[0 := ClientOp(b, prev, Drawn)])
  }

  /** The blob written and synced, its acknowledgement due. */
  function Synced(s1: State): State
    requires 0 in s1.ops && s1.ops[0].phase.Drawn? && s1.active in s1.segs
  {
    SyncSeg(WriteOp(ReserveOp(s1, 0), 0), s1.active)
  }

  lemma CommitIsSteps(s: State, b: Blob, prev: Option<Entry>, clock: nat)
    requires s.ops == map[] && s.active in s.segs
    ensures var s4 := Synced(Begun(s, b, prev, clock));
            && s4.ops == map[0 := ClientOp(b, prev, Written(s.active, |s.segs[s.active].blobs|))]
            && s4.index == s.index && s4.moves == s.moves && CanApply(s4, 0)
            && ApplyOp(s4, 0) == Commit(s, b, clock)
  {
    hide ApplyIndex, ApplyNewest, ApplyCache, Synced;
    SyncedIs(s, b, prev, clock);
    var s4 := Synced(Begun(s, b, prev, clock));
    assert s4.ops - {0} == map[];
  }

  lemma SyncedIs(s: State, b: Blob, prev: Option<Entry>, clock: nat)
    requires s.ops == map[] && s.active in s.segs
    ensures var (x, n) := (s.active, |s.segs[s.active].blobs|);
            Synced(Begun(s, b, prev, clock)) ==
            s.(clock := clock, ops := map[0 := ClientOp(b, prev, Written(x, n))],
               segs := s.segs[x := Segment(s.segs[x].blobs + [b], n + 1)])
  {
    var (x, n) := (s.active, |s.segs[s.active].blobs|);
    var s2 := ReserveOp(Begun(s, b, prev, clock), 0);
    assert s2.ops == map[0 := ClientOp(b, prev, Reserved(x))];
    var s4 := Synced(Begun(s, b, prev, clock));
    assert s4.ops == map[0 := ClientOp(b, prev, Written(x, n))];
    assert s4.segs == s.segs[x := Segment(s.segs[x].blobs + [b], n + 1)];
  }

  lemma CommitInv(s: State, b: Blob, prev: Option<Entry>, clock: nat)
    requires Inv(Begun(s, b, prev, clock)) && s.ops == map[] && s.active in s.segs
    ensures Inv(Synced(Begun(s, b, prev, clock))) && Inv(Commit(s, b, clock))
  {
    hide Inv, CacheOk, IndexOk, Ordered;
    var s1 := Begun(s, b, prev, clock);
    ReserveOpInv(s1, 0);
    var s2 := ReserveOp(s1, 0);
    WriteOpInv(s2, 0);
    SyncSegInv(WriteOp(s2, 0), s.active);
    CommitIsSteps(s, b, prev, clock);
    ApplyOpInv(Synced(s1), 0);
  }

  lemma SyncedReads(s: State, b: Blob, prev: Option<Entry>, clock: nat)
    requires IndexPoints(s) && s.ops == map[] && s.active in s.segs
    ensures var s4 := Synced(Begun(s, b, prev, clock));
            IndexPoints(s4) && Contents(s4) == Contents(s)
  {
    var s4 := Synced(Begun(s, b, prev, clock));
    CommitIsSteps(s, b, prev, clock);
    forall k | k in s.index
      ensures ValidLoc(s4.segs, s.index[k].loc) && At(s4.segs, s.index[k].loc) == At(s.segs, s.index[k].loc)
    {
      assert ValidLoc(s.segs, s.index[k].loc);
    }
  }

  lemma CommitContents(s: State, b: Blob, prev: Option<Entry>, clock: nat)
    requires Inv(Begun(s, b, prev, clock)) && IndexPoints(s) && s.ops == map[] && s.active in s.segs
    ensures IndexPoints(Commit(s, b, clock)) && Contents(Commit(s, b, clock)) == ApplyMap(Contents(s), b.recs)
  {
    var s4 := Synced(Begun(s, b, prev, clock));
    CommitInv(s, b, prev, clock);
    CommitIsSteps(s, b, prev, clock);
    SyncedReads(s, b, prev, clock);
    ApplyOpContents(s4, 0);
    InvPoints(ApplyOp(s4, 0));
  }

  /** The books after the acknowledgement of the only op. */
  function CommitBooks(s: State, l: Ledger, b: Blob): Ledger
    requires s.active in s.segs && WellFormed(b)
  {
    var (x, n) := (s.active, |s.segs[s.active].blobs|);
    var r := b.recs[0];
    if b.header.Some? then ChargeMany(l, s.index, b.recs, x, n)
    else if IsTomb(r) then ChargeDel(l, EntryOf(s.index, r.key), r.key)
    else ChargeSet(l, EntryOf(s.index, r.key), r.key, Entry(Loc(x, n, 0), SizeOf(r)))
  }

  lemma CommitBooksExact(s: State, l: Ledger, b: Blob, clock: nat)
    requires WellFormed(b) && s.active in s.segs && s.moves == map[]
    requires DiskExact(s.index, l.disk) && LiveExact(s.segs, s.moves, s.index, l.live)
    requires b.header.Some? ==> forall i :: 0 <= i < |b.recs| ==> !IsTomb(b.recs[i])
    ensures var (s', l') := (Commit(s, b, clock), CommitBooks(s, l, b));
            DiskExact(s'.index, l'.disk) && LiveExact(s'.segs, s'.moves, s'.index, l'.live)
  {
    var (x, n) := (s.active, |s.segs[s.active].blobs|);
    var s' := Commit(s, b, clock);
    assert LiveExact(s'.segs, s.moves, s.index, l.live);
    if b.header.Some? {
      ManyDiskExact(l, s.index, b.recs, x, n);
      ManyLiveOk(l, s'.segs, s.moves, s.index, b.recs, x, n, true);
    } else {
      var r := b.recs[0];
      SingleApply(s.index, b.recs, x, n);
      if IsTomb(r) {
        DelDiskExact(l, s.index, EntryOf(s.index, r.key), r.key);
        DelLiveOk(l, s'.segs, s.moves, s.index, r.key, true);
      } else {
        SetDiskExact(l, s.index, EntryOf(s.index, r.key), r.key, Entry(Loc(x, n, 0), SizeOf(r)));
        SetLiveExact(l, s'.segs, s.moves, s.index, r.key, Entry(Loc(x, n, 0), SizeOf(r)));
      }
    }
  }

  lemma SaneActive(s: State, l: Ledger, exact: bool)
    requires Sane(s, l, exact)
    ensures s.active in s.segs
  {
  }

  lemma SanePoints(s: State, l: Ledger, exact: bool)
    requires Sane(s, l, exact)
    ensures IndexPoints(s)
  {
    InvPoints(s);
  }

  lemma GoodPoints(s: State, l: Ledger)
    requires Good(s, l)
    ensures IndexPoints(s)
  {
    SanePoints(s, l, true);
  }

  /** The tenant's disk bytes if `k` is set to `v`: what `set_scoped` compares with the limit. */
  function Projected(disk: map<nat, nat>, index: map<Key, Entry>, k: Key, v: Value): nat {
    SatSub(Row(disk, TenantOf(k)), OldSize(EntryOf(index, k))) + PaddedRecordSize(|k|, |v|)
  }

  /** `b` is what `set`, `del` or `set_many` writes when the clock shows `s.clock`. */
  ghost predicate ClientBlob(s: State, b: Blob, clock: nat) {
    && WellFormed(b) && s.clock <= clock
    && (forall i :: 0 <= i < |b.recs| ==> s.clock <= b.recs[i].ts < clock)
    && (forall i, j :: 0 <= i < j < |b.recs| ==> b.recs[i].ts < b.recs[j].ts)
    && (b.header.Some? ==> forall i :: 0 <= i < |b.recs| ==> !IsTomb(b.recs[i]))
  }

  /** A client operation keeps the store sound and applies its records to the map. */
  lemma CommitGood(s: State, l: Ledger, b: Blob, clock: nat)
    requires Good(s, l) && ClientBlob(s, b, clock)
    ensures s.active in s.segs && Good(Commit(s, b, clock), CommitBooks(s, l, b))
    ensures IndexPoints(s) && IndexPoints(Commit(s, b, clock))
    ensures Contents(Commit(s, b, clock)) == ApplyMap(Contents(s), b.recs)
  {
    hide LiveOk, DiskExact, Ordered, NewestOk, MovesOk, Agree;
    InvPoints(s);
    BeginInv(s, Begun(s, b, None, clock), 0, ClientOp(b, None, Drawn));
    CommitInv(s, b, None, clock);
    CommitContents(s, b, None, clock);
    CommitBooksExact(s, l, b, clock);
  }

  /** A commit of one record, spelled out. */
  function CommitOne(s: State, r: Record): State
    requires s.active in s.segs
  {
    var (x, n) := (s.active, |s.segs[s.active].blobs|);
    s.(segs := s.segs[x := Segment(s.segs[x].blobs + [Blob(None, [r])], n + 1)],
       clock := r.ts + 1,
       index := if IsTomb(r) then s.index - {r.key} else s.index[r.key := Entry(Loc(x, n, 0), SizeOf(r))],
       newest := s.newest[r.key := Loc(x, n, 0)],
       cache := if IsTomb(r) then s.cache - {r.key} else s.cache[r.key := r.value])
  }

  lemma CommitOneIs(s: State, r: Record)
    requires s.active in s.segs
    ensures CommitOne(s, r) == Commit(s, Blob(None, [r]), r.ts + 1)
  {
    var (x, n) := (s.active, |s.segs[s.active].blobs|);
    assert [r][..0] == [];
    SingleApply(s.index, [r], x, n);
    assert ApplyNewest(s.newest, [r], x, n) == s.newest[r.key := Loc(x, n, 0)];
    ApplyOneMap(s.cache, r);
  }

  lemma ApplyOneMap(m: map<Key, Value>, r: Record)
    ensures ApplyMap(m, [r]) == if IsTomb(r) then m - {r.key} else m[r.key := r.value]
  {
    assert [r][..0] == [];
    assert ApplyCache(m, [r][..0]) == m;
  }

  /** The store and its books after the rotation `maybe_rotate` may make. */
  function Rotated(s: State, rotate: bool): State {
    if rotate then Rotate(s) else s
  }

  function RotatedBooks(s: State, l: Ledger, rotate: bool): Ledger {
    if rotate then l.(live := l.live[s.active + 1 := 0]) else l
  }

  lemma RotatedGood(s: State, l: Ledger, rotate: bool)
    requires Good(s, l)
    ensures Good(Rotated(s, rotate), RotatedBooks(s, l, rotate))
    ensures IndexPoints(s) && IndexPoints(Rotated(s, rotate)) && Contents(Rotated(s, rotate)) == Contents(s)
  {
    hide Sane;
    RotatedSane(s, l, rotate, true);
  }

  lemma RotatedSane(s: State, l: Ledger, rotate: bool, exact: bool)
    requires Sane(s, l, exact)
    ensures Sane(Rotated(s, rotate), RotatedBooks(s, l, rotate), exact)
    ensures IndexPoints(s) && IndexPoints(Rotated(s, rotate)) && Contents(Rotated(s, rotate)) == Contents(s)
  {
    hide Sane;
    SanePoints(s, l, exact);
    if rotate {
      RotateSane(s, l, exact);
      ReadsContents(s, Rotate(s));
    }
  }

  /** The books after a commit of one record. */
  function ChargeOne(s: State, l: Ledger, r: Record): Ledger
    requires s.active in s.segs
  {
    if IsTomb(r) then ChargeDel(l, EntryOf(s.index, r.key), r.key)
    else ChargeSet(l, EntryOf(s.index, r.key), r.key, Entry(Loc(s.active, |s.segs[s.active].blobs|, 0), SizeOf(r)))
  }

  /** `set` or `del`, from a sound store to a sound store. */
  lemma CommitOneGood(s0: State, l0: Ledger, r: Record, rotate: bool)
    requires Good(s0, l0) && r.ts == s0.clock && r.kind != BatchBegin
    ensures var (s, l) := (Rotated(s0, rotate), RotatedBooks(s0, l0, rotate));
            && s.active in s.segs && Good(CommitOne(s, r), ChargeOne(s, l, r))
            && IndexPoints(s0) && IndexPoints(CommitOne(s, r))
            && Contents(CommitOne(s, r)) == if IsTomb(r) then Contents(s0) - {r.key} else Contents(s0)[r.key := r.value]
  {
    hide Good;
    var (s, l) := (Rotated(s0, rotate), RotatedBooks(s0, l0, rotate));
    RotatedGood(s0, l0, rotate);
    CommitGood(s, l, Blob(None, [r]), r.ts + 1);
    CommitOneIs(s, r);
    ApplyOneMap(Contents(s0), r);
  }

  // ---- Batches ----

  /** Bytes of a `set_many` blob with these members. */
  function BatchBytes(recs: seq<Record>): nat {
    BlobSize(Blob(Some(0), recs))
  }

  /** Timestamps drawn by an operation that then gives up. */
  lemma ClockGood(s: State, l: Ledger, clock: nat)
    requires Good(s, l) && s.clock <= clock
    ensures Good(s.(clock := clock), l)
  {
    hide Ordered, NewestOk, IndexOk, MovesOk, CacheOk, Agree, OpsOk, Shape;
  }

  lemma MembersBlob(s: State, pairs: seq<(Key, Value)>)
    requires 1 <= |pairs| <= U32_MAX
    ensures ClientBlob(s, Blob(Some(s.clock), Members(pairs, s.clock + 1)), s.clock + 1 + |pairs|)
  {
  }

  function BatchState(s: State, pairs: seq<(Key, Value)>, clock: nat): State
    requires s.active in s.segs
  {
    Commit(s, Blob(Some(clock), Members(pairs, clock + 1)), clock + 1 + |pairs|)
  }

  function BatchBooks(s: State, l: Ledger, pairs: seq<(Key, Value)>, clock: nat): Ledger
    requires s.active in s.segs
  {
    ChargeMany(l, s.index, Members(pairs, clock + 1), s.active, |s.segs[s.active].blobs|)
  }

  /** `set_many`, from a sound store to a sound store. */
  lemma BatchGood(s: State, l: Ledger, pairs: seq<(Key, Value)>)
    requires Good(s, l) && 1 <= |pairs| <= U32_MAX
    ensures s.active in s.segs && Good(BatchState(s, pairs, s.clock), BatchBooks(s, l, pairs, s.clock))
    ensures IndexPoints(s) && IndexPoints(BatchState(s, pairs, s.clock))
    ensures Contents(BatchState(s, pairs, s.clock)) == Perform(Contents(s), Puts(pairs))
  {
    hide Commit, MovesOk, Good;
    var recs := Members(pairs, s.clock + 1);
    MembersBlob(s, pairs);
    CommitGood(s, l, Blob(Some(s.clock), recs), s.clock + 1 + |pairs|);
    PerformApplies(Contents(s), recs, Puts(pairs));
  }

  /** The first loop of `set_many`: a timestamp for each pair, and the size of the blob. */
  method BuildMembers(pairs: seq<(Key, Value)>, ts: nat) returns (recs: seq<Record>, bytes: nat)
    ensures recs == Members(pairs, ts) && bytes == BatchBytes(recs)
  {
    hide BlobSize, PaddedRecordSize;
    recs, bytes := [], PaddedRecordSize(0, 4);
    for i := 0 to |pairs|
      invariant recs == Members(pairs[..i], ts) && bytes == BatchBytes(recs)
    {
      var r := Record(ts + i, Scalar, pairs[i].0, pairs[i].1);
      TotalSizeMore(recs, r);
      recs, bytes := recs + [r], bytes + SizeOf(r);
    }
    assert pairs[..|pairs|] == pairs;
  }

  lemma AppliedNone(index: map<Key, Entry>, cache: map<Key, Value>, l: Ledger, x: nat, b: nat)
    ensures ApplyIndex(index, [], x, b) == index && ApplyCache(cache, []) == cache && ChargeMany(l, index, [], x, b) == l
  {
  }

  lemma AppliedMore(index: map<Key, Entry>, cache: map<Key, Value>, l: Ledger, recs: seq<Record>, x: nat, b: nat, i: nat)
    requires i < |recs| && !IsTomb(recs[i])
    ensures var (r, before, e) := (recs[i], ApplyIndex(index, recs[..i], x, b), Entry(Loc(x, b, i), SizeOf(recs[i])));
            && ApplyIndex(index, recs[..i + 1], x, b) == before[r.key := e]
            && ApplyCache(cache, recs[..i + 1]) == ApplyCache(cache, recs[..i])[r.key := r.value]
            && ChargeMany(l, index, recs[..i + 1], x, b) == ChargeSet(ChargeMany(l, index, recs[..i], x, b), EntryOf(before, r.key), r.key, e)
  {
    hide ChargeSet;
    assert recs[..i + 1][..i] == recs[..i];
  }

  /** The second half of `set_many`: one append, then index, cache and books member by member. */
  method ApplyBatch(s: State, l: Ledger, b: Blob, clock: nat) returns (s': State, books: Ledger)
    requires s.active in s.segs && forall i :: 0 <= i < |b.recs| ==> !IsTomb(b.recs[i])
    ensures s' == Commit(s, b, clock)
    ensures books == ChargeMany(l, s.index, b.recs, s.active, |s.segs[s.active].blobs|)
  {
    hide ApplyIndex, ApplyCache, ChargeMany, ChargeSet, ApplyNewest;
    var x, n := s.active, |s.segs[s.active].blobs|;
    var recs := b.recs;
    var index, cache := s.index, s.cache;
    books := l;
    assert recs[..0] == [];
    AppliedNone(s.index, s.cache, l, x, n);
    for i := 0 to |recs|
      invariant index == ApplyIndex(s.index, recs[..i], x, n)
      invariant cache == ApplyCache(s.cache, recs[..i])
      invariant books == ChargeMany(l, s.index, recs[..i], x, n)
    {
      var r := recs[i];
      AppliedMore(s.index, s.cache, l, recs, x, n, i);
      books := ChargeSet(books, EntryOf(index, r.key), r.key, Entry(Loc(x, n, i), SizeOf(r)));
      index := index[r.key := Entry(Loc(x, n, i), SizeOf(r))];
      cache := cache[r.key := r.value];
    }
    assert recs[..|recs|] == recs;
    s' := s.(segs := s.segs[x := Segment(s.segs[x].blobs + [b], n + 1)], clock := clock, index := index,
             newest := ApplyNewest(s.newest, recs, x, n), cache := cache);
  }

  /** `set_many`: all or nothing. A batch that does not fit one segment still uses up timestamps. */
  method SetBatch(s0: State, l0: Ledger, pairs: seq<(Key, Value)>, maxSegment: nat, rotate: bool)
    returns (s: State, l: Ledger, ok: bool)
    requires Good(s0, l0) && 1 <= |pairs| <= U32_MAX
    ensures Good(s, l) && IndexPoints(s0) && IndexPoints(s)
    ensures ok <==> BatchBytes(Members(pairs, s0.clock + 1)) <= maxSegment
    ensures ok ==> Contents(s) == Perform(Contents(s0), Puts(pairs))
    ensures !ok ==> Contents(s) == Contents(s0) && l == l0
  {
    hide Sane, Perform, BatchBytes, Commit, ChargeMany;
    GoodPoints(s0, l0);
    var recs, bytes := BuildMembers(pairs, s0.clock + 1);
    var clock := s0.clock + 1 + |pairs|;
    if bytes > maxSegment {
      ClockGood(s0, l0, clock);
      return s0.(clock := clock), l0, false;
    }
    RotatedGood(s0, l0, rotate);
    s, l := Rotated(s0, rotate), RotatedBooks(s0, l0, rotate);
    BatchGood(s, l, pairs);
    s, l := ApplyBatch(s, l, Blob(Some(s.clock), recs), clock);
    ok := true;
  }
}
