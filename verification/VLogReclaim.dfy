/** Sequential compaction and `reclaim_all_dead`: what is left in the files. */
module VLogReclaim {
  import opened Bytes
  import opened Records
  import opened Batches
  import opened VLogState
  import opened VLogInv
  import opened VLogClient
  import opened VLogCompact
  import opened VLogRecover
  import opened VLogRuns
  import opened VLogRefinement
  import opened VLogLedgers
  import opened VLogCommit

  /** A data record the index does not point at: an overwritten or deleted value still on disk. */
  ghost predicate Dead(s: State, l: Loc) {
    ValidLoc(s.segs, l) && var r := At(s.segs, l); !IsTomb(r) && !(r.key in s.index && s.index[r.key].loc == l)
  }

  // ---- One record out of the source ----

  /** Where the copy goes. */
  function Target(s: State): Loc
    requires s.active in s.segs
  {
    Loc(s.active, |s.segs[s.active].blobs|, 0)
  }

  /** One record of the source dealt with, without interruption. */
  function Relocate(s: State, src: nat, l: Loc): State
    requires src in s.moves && ValidLoc(s.segs, l) && s.active in s.segs
  {
    var (r, d) := (At(s.segs, l), Target(s));
    if !Carry(s, l) then SetMove(s, src, l, Skipped)
    else
      s.(segs := Append(s.segs, s.active, Blob(None, [r])),
         moves := s.moves[src := s.moves[src][l := Moved(d)]],
         index := if IsTomb(r) then s.index else s.index[r.key := Entry(d, SizeOf(r))],
         newest := if r.key in s.newest && s.newest[r.key] == l then s.newest[r.key := d] else s.newest)
  }

  /** The copy is written. */
  lemma RelocateCopied(s: State, src: nat, l: Loc)
    requires src in s.moves && ValidLoc(s.segs, l) && s.active in s.segs && Carry(s, l)
    ensures WriteMove(ReserveMove(Examine(s, src, l), src, l), src, l) ==
            s.(segs := Append(s.segs, s.active, Blob(None, [At(s.segs, l)])),
               moves := s.moves[src := s.moves[src][l := Copied(Target(s))]])
  {
    var m := s.moves[src];
    assert m[l := Chosen][l := Slot(s.active)] == m[l := Slot(s.active)];
    assert m[l := Slot(s.active)][l := Copied(Target(s))] == m[l := Copied(Target(s))];
    var s2 := ReserveMove(Examine(s, src, l), src, l);
    assert s2.moves == s.moves[src := m[l := Slot(s.active)]];
  }

  /** It is what the steps of a relocation do. */
  lemma RelocateIsSteps(s: State, src: nat, l: Loc)
    requires src in s.moves && ValidLoc(s.segs, l) && s.active in s.segs && Carry(s, l)
    ensures var s3 := WriteMove(ReserveMove(Examine(s, src, l), src, l), src, l);
            ValidLoc(s3.segs, l) && s3.moves[src][l] == Copied(Target(s)) && Relocate(s, src, l) == FinishMove(s3, src, l)
  {
    hide SizeOf, IsTomb, Grows;
    RelocateCopied(s, src, l);
    var segs' := Append(s.segs, s.active, Blob(None, [At(s.segs, l)]));
    AppendGrows(s.segs, s.active, Blob(None, [At(s.segs, l)]));
    GrowsAt(s.segs, segs', l);
    var m := s.moves[src];
    assert m[l := Copied(Target(s))][l := Moved(Target(s))] == m[l := Moved(Target(s))];
    assert s.moves[src := m[l := Copied(Target(s))]][src := m[l := Moved(Target(s))]] == s.moves[src := m[l := Moved(Target(s))]];
  }

  lemma RelocateInv(s: State, src: nat, l: Loc)
    requires Inv(s) && src in s.moves && ValidLoc(s.segs, l) && l.seg == src && l !in s.moves[src]
    ensures s.active in s.segs && s.active != src && Inv(Relocate(s, src, l))
  {
    hide Ordered, NewestOk, IndexOk, CacheOk, Agree, ClockBound, OpsOk;
    ExamineInv(s, src, l);
    if Carry(s, l) {
      var s1 := Examine(s, src, l);
      ReserveMoveInv(s1, src, l);
      var s2 := ReserveMove(s1, src, l);
      WriteMoveInv(s2, src, l);
      RelocateIsSteps(s, src, l);
      FinishMoveInv(WriteMove(s2, src, l), src, l);
    }
  }

  lemma FreshTarget(s: State, m: Loc)
    requires s.active in s.segs && ValidLoc(s.segs, m)
    ensures m != Target(s)
  {
  }

  /** A relocation makes no record outside the source dead. */
  lemma RelocateDead(s: State, src: nat, l: Loc, m: Loc)
    requires src in s.moves && ValidLoc(s.segs, l) && s.active in s.segs && s.active != src && l.seg == src
    requires IndexPoints(s) && m.seg != src
    ensures Dead(Relocate(s, src, l), m) <==> Dead(s, m)
  {
    hide ValidLoc, Append, At, SizeOf, Grows, IndexPoints;
    var s' := Relocate(s, src, l);
    if Carry(s, l) {
      AppendGrows(s.segs, s.active, Blob(None, [At(s.segs, l)]));
      if ValidLoc(s.segs, m) {
        FreshTarget(s, m);
        GrowsAt(s.segs, s'.segs, m);
      }
    }
  }

  // ---- How full a segment is ----

  function Reached(x: nat, b: nat, p: nat): (Key, Entry) -> bool {
    (k: Key, e: Entry) => e.loc.seg == x && Before(e.loc, x, b, p)
  }

  predicate Pointed(segs: Segments, index: map<Key, Entry>, l: Loc) {
    ValidLoc(segs, l) && At(segs, l).key in index && index[At(segs, l).key].loc == l
  }

  /** Every entry points at a record with its key and size. */
  ghost predicate EntriesOk(segs: Segments, index: map<Key, Entry>) {
    forall k :: k in index ==>
      ValidLoc(segs, index[k].loc) && At(segs, index[k].loc).key == k && index[k].size == SizeOf(At(segs, index[k].loc))
  }

  lemma SameReach(index: map<Key, Entry>, p: (Key, Entry) -> bool, p': (Key, Entry) -> bool)
    requires forall k :: k in index ==> p(k, index[k]) == p'(k, index[k])
    ensures Charged(index, p) == Charged(index, p')
  {
    assert (map k | k in index && p(k, index[k]) :: index[k].size) == (map k | k in index && p'(k, index[k]) :: index[k].size);
  }

  function PointedSize(segs: Segments, index: map<Key, Entry>, l: Loc): nat {
    if Pointed(segs, index, l) then SizeOf(At(segs, l)) else 0
  }

  /** One more record reached: its size is charged if and only if it is pointed at. */
  lemma ReachOne(segs: Segments, index: map<Key, Entry>, l: Loc)
    requires EntriesOk(segs, index) && ValidLoc(segs, l)
    ensures Charged(index, Reached(l.seg, l.blob, l.pos + 1)) == Charged(index, Reached(l.seg, l.blob, l.pos)) + PointedSize(segs, index, l)
  {
    hide Charged;
    var (p, p') := (Reached(l.seg, l.blob, l.pos), Reached(l.seg, l.blob, l.pos + 1));
    var k := At(segs, l).key;
    ChargedDrop(index, k, p);
    ChargedDrop(index, k, p');
    forall j | j in index - {k} ensures p(j, index[j]) == p'(j, index[j]) {
      assert At(segs, index[j].loc).key != k;
    }
    SameReach(index - {k}, p, p');
    assert k in index && index[k].loc == l ==> index[k].size == SizeOf(At(segs, l));
  }

  /** Bytes of the records of a blob, before position `p`, that the index points at. */
  function PointedBytes(segs: Segments, index: map<Key, Entry>, x: nat, b: nat, p: nat): nat {
    if p == 0 then 0 else PointedBytes(segs, index, x, b, p - 1) + PointedSize(segs, index, Loc(x, b, p - 1))
  }

  lemma {:induction false} BlobCharge(segs: Segments, index: map<Key, Entry>, x: nat, b: nat, p: nat)
    requires EntriesOk(segs, index) && x in segs && b < |segs[x].blobs| && p <= |segs[x].blobs[b].recs|
    ensures Charged(index, Reached(x, b, p)) == Charged(index, Reached(x, b, 0)) + PointedBytes(segs, index, x, b, p)
    decreases p
  {
    hide Charged, Reached;
    if p > 0 {
      BlobCharge(segs, index, x, b, p - 1);
      ReachOne(segs, index, Loc(x, b, p - 1));
    }
  }

  lemma {:induction false} PointedBound(segs: Segments, index: map<Key, Entry>, x: nat, b: nat, p: nat)
    requires x in segs && b < |segs[x].blobs| && p <= |segs[x].blobs[b].recs|
    ensures PointedBytes(segs, index, x, b, p) <= TotalSize(segs[x].blobs[b].recs[..p])
    ensures forall q :: 0 <= q < p && !Pointed(segs, index, Loc(x, b, q)) ==>
              PointedBytes(segs, index, x, b, p) < TotalSize(segs[x].blobs[b].recs[..p])
    decreases p
  {
    if p > 0 {
      var recs := segs[x].blobs[b].recs;
      PointedBound(segs, index, x, b, p - 1);
      TotalSizeMore(recs[..p - 1], recs[p - 1]);
      assert recs[..p] == recs[..p - 1] + [recs[p - 1]];
    }
  }

  function SegmentPointed(segs: Segments, index: map<Key, Entry>, x: nat, b: nat): nat
    requires x in segs && b <= |segs[x].blobs|
  {
    if b == 0 then 0
    else SegmentPointed(segs, index, x, b - 1) + PointedBytes(segs, index, x, b - 1, |segs[x].blobs[b - 1].recs|)
  }

  lemma NextBlob(segs: Segments, index: map<Key, Entry>, x: nat, b: nat)
    requires EntriesOk(segs, index) && x in segs && b < |segs[x].blobs|
    ensures Charged(index, Reached(x, b + 1, 0)) == Charged(index, Reached(x, b, |segs[x].blobs[b].recs|))
  {
    var n := |segs[x].blobs[b].recs|;
    forall k | k in index ensures Reached(x, b + 1, 0)(k, index[k]) == Reached(x, b, n)(k, index[k]) {
      assert ValidLoc(segs, index[k].loc);
    }
    SameReach(index, Reached(x, b + 1, 0), Reached(x, b, n));
  }

  lemma NothingReached(index: map<Key, Entry>, x: nat)
    ensures Charged(index, Reached(x, 0, 0)) == 0
  {
    assert (map k | k in index && Reached(x, 0, 0)(k, index[k]) :: index[k].size) == map[];
  }

  lemma {:induction false} SegmentCharge(segs: Segments, index: map<Key, Entry>, x: nat, b: nat)
    requires EntriesOk(segs, index) && x in segs && b <= |segs[x].blobs|
    ensures Charged(index, Reached(x, b, 0)) == SegmentPointed(segs, index, x, b)
    decreases b
  {
    hide Charged, PointedBytes, Reached;
    if b == 0 {
      NothingReached(index, x);
    } else {
      SegmentCharge(segs, index, x, b - 1);
      BlobCharge(segs, index, x, b - 1, |segs[x].blobs[b - 1].recs|);
      NextBlob(segs, index, x, b - 1);
    }
  }

  lemma {:induction false} SegmentBound(segs: Segments, index: map<Key, Entry>, x: nat, b: nat, l: Loc)
    requires x in segs && b <= |segs[x].blobs| && ValidLoc(segs, l) && l.seg == x
    ensures SegmentPointed(segs, index, x, b) <= SegBytes(segs[x].blobs, b)
    ensures l.blob < b && !Pointed(segs, index, l) ==> SegmentPointed(segs, index, x, b) < SegBytes(segs[x].blobs, b)
    decreases b
  {
    hide BlobSize, TotalSize, PointedBytes, PaddedRecordSize, Pointed;
    if b > 0 {
      SegmentBound(segs, index, x, b - 1, l);
      var recs := segs[x].blobs[b - 1].recs;
      PointedBound(segs, index, x, b - 1, |recs|);
      assert recs[..|recs|] == recs;
      assert l == Loc(l.seg, l.blob, l.pos);
    }
  }

  /** A segment whose live bytes fill its file holds no dead record. */
  lemma FullSegmentIsClean(s: State, x: nat, size: nat, l: Loc)
    requires EntriesOk(s.segs, s.index) && x in s.segs && SegBytes(s.segs[x].blobs, |s.segs[x].blobs|) <= size
    requires size <= Charged(s.index, InSegment(x)) && ValidLoc(s.segs, l) && l.seg == x
    ensures Pointed(s.segs, s.index, l)
  {
    var n := |s.segs[x].blobs|;
    SegmentCharge(s.segs, s.index, x, n);
    SegmentBound(s.segs, s.index, x, n, l);
    forall k | k in s.index ensures InSegment(x)(k, s.index[k]) == Reached(x, n, 0)(k, s.index[k]) {
      assert ValidLoc(s.segs, s.index[k].loc);
    }
    SameReach(s.index, InSegment(x), Reached(x, n, 0));
  }

  // ---- One segment compacted ----

  /** A compaction of `src` that began in `s0` and has dealt with the records before (`b`, `p`). */
  ghost predicate Progress(s0: State, s: State, l: Ledger, src: nat, b: nat, p: nat, exact: bool) {
    && Inv(s) && s.ops == map[] && s.gets == map[] && OnlySource(s.moves, src)
    && src in s0.segs && src in s.segs && s.segs[src].blobs == s0.segs[src].blobs
    && Dealt(s, src, b, p) && SameReads(s0, s) && SameDead(s0, s, src) && Wider(s0, s)
    && DiskExact(s.index, l.disk) && LiveOk(s.segs, s.moves, s.index, l.live, exact)
  }

  /** Segments are only added, past the active one. */
  ghost predicate Wider(s0: State, s: State) {
    s0.active <= s.active && forall x :: x in s0.segs ==> x in s.segs
  }

  ghost predicate OnlySource(moves: Moves, src: nat) {
    forall c :: c in moves <==> c == src
  }

  /** Exactly the records before (`b`, `p`) have been skipped or moved. */
  ghost predicate Dealt(s: State, src: nat, b: nat, p: nat)
    requires src in s.moves
  {
    && (forall m :: m in s.moves[src] ==> s.moves[src][m].Skipped? || s.moves[src][m].Moved?)
    && (forall m :: ValidLoc(s.segs, m) && m.seg == src ==> (m in s.moves[src] <==> Before(m, src, b, p)))
  }

  /** Outside the source the dead records are those of before. */
  ghost predicate SameDead(s0: State, s: State, src: nat) {
    forall m: Loc :: m.seg != src ==> (Dead(s, m) <==> Dead(s0, m))
  }

  lemma StartDealt(s: State, src: nat)
    requires s.moves == map[src := map[]]
    ensures Dealt(s, src, 0, 0)
  {
  }

  lemma CanCompactAlone(s: State, src: nat)
    requires s.ops == map[] && s.moves == map[] && src in s.segs && src != s.active
    ensures CanCompact(s, src)
  {
  }

  lemma StartFrame(s: State, src: nat)
    requires s.moves == map[] && CanCompact(s, src)
    ensures var s' := BeginCompact(s, src);
            s'.moves == map[src := map[]] && OnlySource(s'.moves, src)
  {
  }

  lemma StartLive(segs: Segments, moves: Moves, moves': Moves, index: map<Key, Entry>, live: map<nat, nat>, exact: bool)
    requires LiveOk(segs, moves, index, live, exact) && moves == map[]
    ensures LiveOk(segs, moves', index, live, exact)
  {
  }

  lemma StartCompacting(s: State, l: Ledger, src: nat, exact: bool)
    requires Sane(s, l, exact) && src in s.segs && src != s.active
    ensures CanCompact(s, src) && Progress(s, BeginCompact(s, src), l, src, 0, 0, exact)
  {
    CanCompactAlone(s, src);
    var s' := BeginCompact(s, src);
    BeginCompactInv(s, src);
    InvPoints(s);
    StartFrame(s, src);
    StartDealt(s', src);
    StartLive(s.segs, s.moves, s'.moves, s.index, l.live, exact);
  }

  lemma RelocateReads(s: State, src: nat, l: Loc)
    requires IndexPoints(s) && src in s.moves && ValidLoc(s.segs, l) && s.active in s.segs
    ensures SameReads(s, Relocate(s, src, l))
  {
    var s' := Relocate(s, src, l);
    if Carry(s, l) {
      var r := At(s.segs, l);
      AppendGrows(s.segs, s.active, Blob(None, [r]));
      SwapReads(s.segs, s.index, s'.segs, r, l, Target(s));
    } else {
      SwapNothing(s.segs, s.index);
    }
  }

  ghost predicate SameValues(segs: Segments, index: map<Key, Entry>, segs': Segments, index': map<Key, Entry>) {
    && index'.Keys == index.Keys
    && forall k :: k in index ==>
         && ValidLoc(segs, index[k].loc) && ValidLoc(segs', index'[k].loc)
         && At(segs', index'[k].loc) == At(segs, index[k].loc)
  }

  lemma SwapNothing(segs: Segments, index: map<Key, Entry>)
    requires forall k :: k in index ==> ValidLoc(segs, index[k].loc)
    ensures SameValues(segs, index, segs, index)
  {
  }

  /** Pointing a key at a copy of its record changes no value. */
  lemma SwapReads(segs: Segments, index: map<Key, Entry>, segs': Segments, r: Record, l: Loc, d: Loc)
    requires (forall k :: k in index ==> ValidLoc(segs, index[k].loc)) && Grows(segs, segs')
    requires ValidLoc(segs, l) && At(segs, l) == r && ValidLoc(segs', d) && At(segs', d) == r
    requires !IsTomb(r) ==> r.key in index && index[r.key].loc == l
    ensures SameValues(segs, index, segs', if IsTomb(r) then index else index[r.key := Entry(d, SizeOf(r))])
  {
    forall k | k in index ensures ValidLoc(segs', index[k].loc) && At(segs', index[k].loc) == At(segs, index[k].loc) {
      GrowsAt(segs, segs', index[k].loc);
    }
  }

  lemma ReadsTrans(s0: State, s: State, s': State)
    requires SameReads(s0, s) && SameReads(s, s')
    ensures SameReads(s0, s')
  {
  }

  lemma RelocateDealt(s: State, src: nat, b: nat, p: nat)
    requires src in s.moves && s.active in s.segs && s.active != src && ValidLoc(s.segs, Loc(src, b, p)) && Dealt(s, src, b, p)
    ensures Dealt(Relocate(s, src, Loc(src, b, p)), src, b, p + 1)
  {
    hide Append;
    var (l, s') := (Loc(src, b, p), Relocate(s, src, Loc(src, b, p)));
    RelocatedMoves(s, src, l);
    forall m | ValidLoc(s'.segs, m) && m.seg == src ensures m in s'.moves[src] <==> Before(m, src, b, p + 1) {
      assert ValidLoc(s.segs, m);
      assert Before(m, src, b, p + 1) <==> Before(m, src, b, p) || m == l;
    }
  }

  lemma RelocatedMoves(s: State, src: nat, l: Loc)
    requires src in s.moves && s.active in s.segs && s.active != src && ValidLoc(s.segs, l) && l.seg == src
    ensures var s' := Relocate(s, src, l);
            && src in s'.moves && src in s'.segs && s'.segs[src] == s.segs[src]
            && (s'.moves[src] == s.moves[src][l := Skipped] || s'.moves[src] == s.moves[src][l := Moved(Target(s))])
  {
  }

  /** The books after a relocation. */
  function RelocateBooks(s: State, l: Ledger, loc: Loc): Ledger
    requires ValidLoc(s.segs, loc) && s.active in s.segs
  {
    if Swaps(s, loc) then l.(live := IncLive(l.live, s.active, SizeOf(At(s.segs, loc)))) else l
  }

  lemma MoveDisk(disk: map<nat, nat>, index: map<Key, Entry>, k: Key, e: Entry)
    requires DiskExact(index, disk) && k in index && index[k].size == e.size
    ensures DiskExact(index[k := e], disk)
  {
    forall t ensures Charged(index[k := e], OfTenant(t)) == Charged(index, OfTenant(t)) {
      ChargedSet(index, k, e, OfTenant(t));
    }
  }

  lemma LiveKeys(segs: Segments, moves: Moves, segs': Segments, moves': Moves, index: map<Key, Entry>, live: map<nat, nat>, exact: bool)
    requires LiveOk(segs, moves, index, live, exact) && segs'.Keys == segs.Keys && moves'.Keys == moves.Keys
    ensures LiveOk(segs', moves', index, live, exact)
  {
  }

  lemma RelocateExact(s: State, l: Ledger, src: nat, loc: Loc, exact: bool)
    requires src in s.moves && ValidLoc(s.segs, loc) && loc.seg == src && s.active in s.segs && EntriesOk(s.segs, s.index)
    requires DiskExact(s.index, l.disk) && LiveOk(s.segs, s.moves, s.index, l.live, exact)
    ensures var (s', l') := (Relocate(s, src, loc), RelocateBooks(s, l, loc));
            DiskExact(s'.index, l'.disk) && LiveOk(s'.segs, s'.moves, s'.index, l'.live, exact)
  {
    hide Charged, DiskExact, LiveOk, IncLive;
    var r := At(s.segs, loc);
    var (s', l') := (Relocate(s, src, loc), RelocateBooks(s, l, loc));
    if Swaps(s, loc) {
      hide EntriesOk;
      var e := Entry(Target(s), SizeOf(r));
      assert s.index[r.key].size == e.size by { SameSize(s, loc); }
      MoveDisk(l.disk, s.index, r.key, e);
      MoveLive(l.live, s.segs, s.moves, s.index, r.key, e, exact);
    }
    RelocatedKeys(s, src, loc);
    LiveKeys(s.segs, s.moves, s'.segs, s'.moves, s'.index, l'.live, exact);
  }

  lemma SameSize(s: State, loc: Loc)
    requires ValidLoc(s.segs, loc) && EntriesOk(s.segs, s.index) && Swaps(s, loc)
    ensures s.index[At(s.segs, loc).key].size == SizeOf(At(s.segs, loc))
  {
    hide SizeOf;
  }

  lemma RelocatedKeys(s: State, src: nat, l: Loc)
    requires src in s.moves && ValidLoc(s.segs, l) && s.active in s.segs
    ensures Relocate(s, src, l).segs.Keys == s.segs.Keys && Relocate(s, src, l).moves.Keys == s.moves.Keys
  {
    hide Carry, IsTomb, Target;
  }

  lemma InvEntries(s: State)
    requires Inv(s)
    ensures EntriesOk(s.segs, s.index)
  {
  }

  lemma DeadTrans(s0: State, s: State, src: nat, l: Loc)
    requires src in s.moves && ValidLoc(s.segs, l) && s.active in s.segs && s.active != src && l.seg == src && IndexPoints(s)
    requires SameDead(s0, s, src)
    ensures SameDead(s0, Relocate(s, src, l), src)
  {
    forall m: Loc | m.seg != src ensures Dead(Relocate(s, src, l), m) <==> Dead(s0, m) {
      RelocateDead(s, src, l, m);
    }
  }

  lemma RelocateProgress(s0: State, s: State, l: Ledger, src: nat, b: nat, p: nat, exact: bool)
    requires Progress(s0, s, l, src, b, p, exact) && b < |s0.segs[src].blobs| && p < |s0.segs[src].blobs[b].recs|
    ensures s.active in s.segs && ValidLoc(s.segs, Loc(src, b, p)) && src in s.moves
    ensures Progress(s0, Relocate(s, src, Loc(src, b, p)), RelocateBooks(s, l, Loc(src, b, p)), src, b, p + 1, exact)
  {
    var loc := Loc(src, b, p);
    assert ValidLoc(s.segs, loc);
    RelocateInv(s, src, loc);
    RelocateFrame(s, src, loc);
    var s', l' := Relocate(s, src, loc), RelocateBooks(s, l, loc);
    assert Dealt(s', src, b, p + 1) by { RelocateDealt(s, src, b, p); }
    assert SameReads(s0, s') by {
      InvPoints(s);
      RelocateReads(s, src, loc);
      ReadsTrans(s0, s, s');
    }
    assert DiskExact(s'.index, l'.disk) && LiveOk(s'.segs, s'.moves, s'.index, l'.live, exact) by {
      InvEntries(s);
      RelocateExact(s, l, src, loc, exact);
    }
    assert SameDead(s0, s', src) by {
      InvPoints(s);
      DeadTrans(s0, s, src, loc);
    }
  }

  lemma RelocateFrame(s: State, src: nat, l: Loc)
    requires OnlySource(s.moves, src) && ValidLoc(s.segs, l) && s.active in s.segs && s.active != src && src in s.segs
    ensures var s' := Relocate(s, src, l);
            s'.ops == s.ops && s'.gets == s.gets && s'.active == s.active && OnlySource(s'.moves, src)
            && src in s'.segs && s'.segs[src] == s.segs[src] && s'.segs.Keys == s.segs.Keys
  {
    hide Carry, IsTomb, Target;
    var s' := Relocate(s, src, l);
    assert forall c :: c in s'.moves ==> c == src;
    assert s'.segs.Keys == s.segs.Keys;
  }

  // ---- Rotations during a compaction, and its end ----

  lemma RotateDead(s0: State, s: State, src: nat)
    requires SameDead(s0, s, src) && forall x :: x in s.segs ==> x <= s.active
    ensures SameDead(s0, Rotate(s), src)
  {
    forall m: Loc | m.seg != src ensures Dead(Rotate(s), m) <==> Dead(s0, m) {
      assert Dead(Rotate(s), m) <==> Dead(s, m);
    }
  }

  lemma RotateDealt(s: State, src: nat, b: nat, p: nat)
    requires src in s.moves && Dealt(s, src, b, p) && src <= s.active
    ensures Dealt(Rotate(s), src, b, p)
  {
    assert forall m: Loc :: m.seg == src ==> (ValidLoc(Rotate(s).segs, m) <==> ValidLoc(s.segs, m));
  }

  lemma RotateProgress(s0: State, s: State, l: Ledger, src: nat, b: nat, p: nat, exact: bool)
    requires Progress(s0, s, l, src, b, p, exact)
    ensures Progress(s0, Rotate(s), l.(live := l.live[s.active + 1 := 0]), src, b, p, exact)
  {
    InvPoints(s);
    assert src <= s.active;
    RotateInv(s);
    RotateDead(s0, s, src);
    RotateDealt(s, src, b, p);
    assert SameReads(s0, Rotate(s)) by {
      CommitReads(s, DoRotate);
      ReadsTrans(s0, s, Rotate(s));
    }
    assert LiveOk(Rotate(s).segs, s.moves, s.index, l.live[s.active + 1 := 0], exact) by { RotateLive(s, l, exact); }
  }

  lemma BlobProgress(s0: State, s: State, l: Ledger, src: nat, b: nat, exact: bool)
    requires src in s0.segs && b < |s0.segs[src].blobs| && Progress(s0, s, l, src, b, |s0.segs[src].blobs[b].recs|, exact)
    ensures Progress(s0, s, l, src, b + 1, 0, exact)
  {
    BlobDealt(s, src, b);
  }

  lemma BlobDealt(s: State, src: nat, b: nat)
    requires src in s.moves && src in s.segs && b < |s.segs[src].blobs| && Dealt(s, src, b, |s.segs[src].blobs[b].recs|)
    ensures Dealt(s, src, b + 1, 0)
  {
    assert forall m :: ValidLoc(s.segs, m) && m.seg == src ==>
      (Before(m, src, b + 1, 0) <==> Before(m, src, b, |s.segs[src].blobs[b].recs|));
  }

  /** The destination segments of the records moved so far. */
  function Dests(moves: map<Loc, Move>): set<nat> {
    set m | m in moves && moves[m].Moved? :: moves[m].dst.seg
  }

  /** One sync per destination. */
  function SyncAll(s: State, xs: set<nat>): State {
    s.(segs := map x | x in s.segs :: if x in xs then s.segs[x].(synced := |s.segs[x].blobs|) else s.segs[x])
  }

  lemma SyncAllInv(s: State, xs: set<nat>)
    requires Inv(s)
    ensures Inv(SyncAll(s, xs)) && IndexPoints(s) && SameReads(s, SyncAll(s, xs))
  {
    FilesFrame(s, SyncAll(s, xs));
    InvPoints(s);
    GrowthReads(s, SyncAll(s, xs));
  }

  lemma ReadyToUnlink(s: State, src: nat)
    requires OnlySource(s.moves, src) && src in s.segs && Dealt(s, src, |s.segs[src].blobs|, 0)
    requires MovesOk(s.segs, s.active, s.ops, s.newest, s.moves)
    ensures CanUnlink(SyncAll(s, Dests(s.moves[src])), src)
  {
    var s' := SyncAll(s, Dests(s.moves[src]));
    forall l | ValidLoc(s'.segs, l) && l.seg == src
      ensures l in s'.moves[src] && (s'.moves[src][l].Skipped? || s'.moves[src][l].Moved?)
    {
      assert ValidLoc(s.segs, l) && Before(l, src, |s.segs[src].blobs|, 0);
    }
    forall l | l in s'.moves[src] && s'.moves[src][l].Moved? && s'.moves[src][l].dst.seg in s'.segs
      ensures Durable(s'.segs, s'.moves[src][l].dst)
    {
      assert MoveOk(s.segs, s.active, s.ops, s.newest, s.moves, l, s.moves[src][l]);
    }
  }

  lemma UnlinkDead(s0: State, s: State, src: nat, xs: set<nat>)
    requires SameDead(s0, s, src)
    ensures forall m :: Dead(Unlink(SyncAll(s, xs), src), m) <==> Dead(s0, m) && m.seg != src
  {
    forall m ensures Dead(Unlink(SyncAll(s, xs), src), m) <==> Dead(s, m) && m.seg != src {
    }
  }

  lemma UnlinkLive(segs: Segments, segs': Segments, moves: Moves, index: map<Key, Entry>, live: map<nat, nat>, src: nat, exact: bool)
    requires LiveOk(segs, moves, index, live, exact) && OnlySource(moves, src) && segs'.Keys == segs.Keys - {src}
    ensures LiveOk(segs', map[], index, live - {src}, exact)
  {
  }

  /** What a compaction leaves: the same values, and the dead records of before but for those of `src`. */
  ghost predicate Cleared(s0: State, s: State, src: nat) {
    && SameReads(s0, s) && s0.active <= s.active && (forall x :: x in s0.segs && x != src ==> x in s.segs)
    && src !in s.segs && forall m :: Dead(s, m) <==> Dead(s0, m) && m.seg != src
  }

  /** The end of a compaction: destinations synced, source deleted. */
  function Ended(s: State, src: nat): State
    requires src in s.moves
  {
    Unlink(SyncAll(s, Dests(s.moves[src])), src)
  }

  lemma EndFrame(s: State, src: nat)
    requires OnlySource(s.moves, src)
    ensures var s' := Ended(s, src);
            && s'.moves == map[] && s'.ops == s.ops && s'.gets == s.gets && s'.active == s.active && s'.index == s.index
            && forall x :: x in s'.segs <==> x in s.segs && x != src
  {
  }

  lemma EndReads(s0: State, s: State, src: nat, xs: set<nat>)
    requires Inv(s) && SameReads(s0, s) && CanUnlink(SyncAll(s, xs), src)
    ensures SameReads(s0, Unlink(SyncAll(s, xs), src)) && Inv(Unlink(SyncAll(s, xs), src))
  {
    var s1 := SyncAll(s, xs);
    SyncAllInv(s, xs);
    UnlinkInv(s1, src);
    UnlinkReads(s1, src);
    ReadsTrans(s0, s, s1);
    ReadsTrans(s0, s1, Unlink(s1, src));
  }

  lemma InvMoves(s: State)
    requires Inv(s)
    ensures MovesOk(s.segs, s.active, s.ops, s.newest, s.moves)
  {
  }

  lemma EndCompacting(s0: State, s: State, l: Ledger, src: nat, exact: bool)
    requires src in s0.segs && Progress(s0, s, l, src, |s0.segs[src].blobs|, 0, exact)
    ensures src in s.moves && Sane(Ended(s, src), l.(live := l.live - {src}), exact) && Cleared(s0, Ended(s, src), src)
  {
    hide Inv, SameReads, DiskExact, LiveOk, Dealt;
    var xs := Dests(s.moves[src]);
    assert Inv(Ended(s, src)) && SameReads(s0, Ended(s, src)) by {
      InvMoves(s);
      ReadyToUnlink(s, src);
      EndReads(s0, s, src, xs);
    }
    EndFrame(s, src);
    assert LiveOk(Ended(s, src).segs, map[], s.index, l.live - {src}, exact) by {
      UnlinkLive(s.segs, Ended(s, src).segs, s.moves, s.index, l.live, src, exact);
    }
    assert forall m :: Dead(Ended(s, src), m) <==> Dead(s0, m) && m.seg != src by { UnlinkDead(s0, s, src, xs); }
  }

  // ---- The loops ----

  /** `compact_segment` with nothing else running: every record of the source examined, the live
      ones and the tombstones still needed appended elsewhere, destinations synced, file deleted. */
  method Compact(s0: State, l0: Ledger, src: nat, ghost exact: bool) returns (s: State, l: Ledger)
    requires Sane(s0, l0, exact)
    ensures Sane(s, l, exact)
    ensures src == s0.active || src !in s0.segs ==> s == s0 && l == l0
    ensures src != s0.active && src in s0.segs ==> Cleared(s0, s, src)
  {
    hide Sane, Progress, Cleared, Relocate;
    s, l := s0, l0;
    if src == s0.active || src !in s0.segs {
      return;
    }
    var blobs := s0.segs[src].blobs;
    StartCompacting(s0, l0, src, exact);
    s := BeginCompact(s0, src);
    for b := 0 to |blobs|
      invariant Progress(s0, s, l, src, b, 0, exact)
    {
      for p := 0 to |blobs[b].recs|
        invariant Progress(s0, s, l, src, b, p, exact)
      {
        if * {
          RotateProgress(s0, s, l, src, b, p, exact);
          l := l.(live := l.live[s.active + 1 := 0]);
          s := Rotate(s);
        }
        RelocateProgress(s0, s, l, src, b, p, exact);
        s, l := Relocate(s, src, Loc(src, b, p)), RelocateBooks(s, l, Loc(src, b, p));
      }
      BlobProgress(s0, s, l, src, b, exact);
    }
    EndCompacting(s0, s, l, src, exact);
    s, l := Ended(s, src), l.(live := l.live - {src});
  }

  /** No data record is left that the index does not point at. */
  ghost predicate NoDead(s: State) {
    forall m :: !Dead(s, m)
  }

  /** The file of every segment is at least as long as its records, preallocation included. */
  ghost predicate FileSizes(s: State, sizes: map<nat, nat>) {
    forall x :: x in s.segs ==> x in sizes && SegBytes(s.segs[x].blobs, |s.segs[x].blobs|) <= sizes[x]
  }

  /** Of the dead records of `s0` those of the targets already compacted are gone, and no others. */
  ghost predicate Remaining(s0: State, s: State, targets: set<nat>, todo: set<nat>) {
    && todo <= targets && (forall x :: x in todo ==> x in s.segs && x < s.active)
    && forall m :: Dead(s, m) <==> Dead(s0, m) && (m.seg in targets ==> m.seg in todo)
  }

  lemma RemainingStep(s0: State, s: State, s': State, targets: set<nat>, todo: set<nat>, x: nat)
    requires Remaining(s0, s, targets, todo) && x in todo && Cleared(s, s', x)
    ensures Remaining(s0, s', targets, todo - {x}) && SameReads(s, s')
  {
  }

  lemma TargetSealed(s0: State, s: State, targets: set<nat>, todo: set<nat>, x: nat)
    requires Remaining(s0, s, targets, todo) && x in todo
    ensures x in s.segs && x != s.active
  {
  }

  /** A segment whose file is empty or holds nothing but live bytes is not a target. */
  predicate IsTarget(s: State, l: Ledger, sizes: map<nat, nat>, x: nat) {
    x in s.segs && x != s.active && x in sizes && sizes[x] > 0 && sizes[x] > Row(l.live, x)
  }

  function Targets(s: State, l: Ledger, sizes: map<nat, nat>): set<nat> {
    set x | x in s.segs && IsTarget(s, l, sizes, x)
  }

  lemma {:induction false} SegBytesGrow(blobs: seq<Blob>, b: nat)
    requires b < |blobs| && |blobs[b].recs| > 0
    ensures SegBytes(blobs, b + 1) > 0
  {
    assert TotalSize(blobs[b].recs) > 0;
  }

  /** A sealed segment with a dead record is a target unless its live counter has reached the size of its file. */
  lemma DeadInTarget(s: State, l: Ledger, sizes: map<nat, nat>, m: Loc)
    requires FileSizes(s, sizes) && Dead(s, m) && m.seg != s.active && |s.segs[m.seg].blobs[m.blob].recs| > 0
    ensures IsTarget(s, l, sizes, m.seg) <==> Row(l.live, m.seg) < sizes[m.seg]
  {
    SegBytesGrow(s.segs[m.seg].blobs, m.blob);
    SegBytesUp(s.segs[m.seg].blobs, m.blob + 1, |s.segs[m.seg].blobs|);
  }

  /** With exact counters it never has. */
  lemma ExactSees(s: State, l: Ledger, sizes: map<nat, nat>, m: Loc)
    requires Good(s, l) && FileSizes(s, sizes) && Dead(s, m)
    ensures Row(l.live, m.seg) < sizes[m.seg]
  {
    InvEntries(s);
    if sizes[m.seg] <= Row(l.live, m.seg) {
      FullSegmentIsClean(s, m.seg, sizes[m.seg], m);
    }
  }

  /** The targets once the active segment is empty. */
  lemma TargetsAre(s: State, l: Ledger, sizes: map<nat, nat>, m: Loc)
    requires Inv(s) && FileSizes(s, sizes) && (s.active in s.segs ==> s.segs[s.active].blobs == []) && Dead(s, m)
    ensures m.seg in Targets(s, l, sizes) <==> Row(l.live, m.seg) < sizes[m.seg]
  {
    hide Ordered, NewestOk, IndexOk, MovesOk, CacheOk, Agree, ClockBound, OpsOk;
    DeadInTarget(s, l, sizes, m);
  }

  lemma NothingDone(s: State, l: Ledger, sizes: map<nat, nat>)
    requires Inv(s)
    ensures Remaining(s, s, Targets(s, l, sizes), Targets(s, l, sizes))
  {
    hide Ordered, NewestOk, IndexOk, MovesOk, CacheOk, Agree, ClockBound, OpsOk;
  }

  lemma RotateSizes(s: State, sizes: map<nat, nat>)
    requires FileSizes(s, sizes)
    ensures FileSizes(Rotate(s), sizes[s.active + 1 := 0])
  {
  }

  /** The dead records a reclaim does not see: their segment's live counter, too high, has reached its size. */
  ghost predicate Unseen(s: State, l: Ledger, sizes: map<nat, nat>, m: Loc) {
    Dead(s, m) && m.seg in sizes && sizes[m.seg] <= Row(l.live, m.seg)
  }

  lemma RotatedUnseen(s0: State, l0: Ledger, sizes: map<nat, nat>, rotate: bool, m: Loc)
    requires s0.active in s0.segs && (forall x :: x in s0.segs ==> x <= s0.active)
    ensures Unseen(Rotated(s0, rotate), RotatedBooks(s0, l0, rotate), if rotate then sizes[s0.active + 1 := 0] else sizes, m) <==>
            Unseen(s0, l0, sizes, m)
  {
  }

  /** What is left when every target has been compacted. */
  lemma UnseenRemains(s0: State, l0: Ledger, sizes: map<nat, nat>, s: State, m: Loc)
    requires Inv(s0) && FileSizes(s0, sizes) && (s0.active in s0.segs ==> s0.segs[s0.active].blobs == [])
    requires Remaining(s0, s, Targets(s0, l0, sizes), {})
    ensures Dead(s, m) <==> Unseen(s0, l0, sizes, m)
  {
    hide Inv, Targets;
    if Dead(s0, m) {
      TargetsAre(s0, l0, sizes, m);
    }
  }

  lemma SaneInv(s: State, l: Ledger, exact: bool)
    requires Sane(s, l, exact)
    ensures Inv(s) && s.active in s.segs && forall x :: x in s.segs ==> x <= s.active
  {
  }

  /** `reclaim_all_dead` with nothing else running: every overwritten or deleted value leaves the disk, but for those
      in segments whose live counter was too high to show them; with exact counters there are none. */
  method ReclaimAll(s0: State, l0: Ledger, sizes: map<nat, nat>, ghost exact: bool) returns (s: State, l: Ledger)
    requires Sane(s0, l0, exact) && FileSizes(s0, sizes)
    ensures Sane(s, l, exact) && IndexPoints(s0) && IndexPoints(s) && Contents(s) == Contents(s0)
    ensures forall m :: Dead(s, m) <==> Unseen(s0, l0, sizes, m)
    ensures exact ==> NoDead(s)
  {
    hide Sane, Remaining, Cleared, SameReads, Targets, FileSizes, Unseen, Dead, Inv;
    SaneInv(s0, l0, exact);
    var rotate := s0.segs[s0.active].blobs != [];
    RotatedSane(s0, l0, rotate, exact);
    RotateSizes(s0, sizes);
    s, l := Rotated(s0, rotate), RotatedBooks(s0, l0, rotate);
    ghost var (s1, l1) := (s, l);
    SaneInv(s1, l1, exact);
    var sizes1 := if rotate then sizes[s.active := 0] else sizes;
    var todo := Targets(s, l, sizes1);
    ghost var targets := todo;
    NothingDone(s1, l1, sizes1);
    while todo != {}
      invariant Sane(s, l, exact) && IndexPoints(s) && Contents(s) == Contents(s0) && Remaining(s1, s, targets, todo)
    {
      var x :| x in todo;
      TargetSealed(s1, s, targets, todo, x);
      var s', l' := Compact(s, l, x, exact);
      RemainingStep(s1, s, s', targets, todo, x);
      SanePoints(s', l', exact);
      ReadsContents(s, s');
      s, l, todo := s', l', todo - {x};
    }
    forall m ensures Dead(s, m) <==> Unseen(s0, l0, sizes, m) {
      UnseenRemains(s1, l1, sizes1, s, m);
      RotatedUnseen(s0, l0, sizes, rotate, m);
    }
    if exact {
      NothingUnseen(s0, l0, sizes);
    }
  }

  lemma NothingUnseen(s: State, l: Ledger, sizes: map<nat, nat>)
    requires Good(s, l) && FileSizes(s, sizes)
    ensures forall m :: !Unseen(s, l, sizes, m)
  {
    hide Good;
    forall m ensures !Unseen(s, l, sizes, m) {
      if Dead(s, m) {
        ExactSees(s, l, sizes, m);
      }
    }
  }
}
