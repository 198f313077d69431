/** Compaction steps keep the invariant and what clients read. */
module VLogCompact {
  import opened Bytes
  import opened Records
  import opened Batches
  import opened VLogState
  import opened VLogInv
  import opened VLogClient

  lemma BeginCompactInv(s: State, src: nat)
    requires Inv(s) && CanCompact(s, src)
    ensures Inv(BeginCompact(s, src))
  {
    hide Shape, ClockBound, Agree, Ordered, IndexOk, CacheOk, OpsOk, NewestOk;
    var s' := BeginCompact(s, src);
    BoundElsewhere(s.segs, s.active, s.ops, s.newest, s.moves);
    OpsFrame(s.segs, s.ops, s.moves, s.segs, s'.moves);
    NewestFrame(s.segs, s.ops, s.moves, s.newest, s.segs, s.ops, s'.moves);
    BeginMovesOk(s, src);
  }

  lemma BeginMovesOk(s: State, src: nat)
    requires MovesOk(s.segs, s.active, s.ops, s.newest, s.moves) && CanCompact(s, src)
    ensures MovesOk(s.segs, s.active, s.ops, s.newest, BeginCompact(s, src).moves)
  {
    var moves' := BeginCompact(s, src).moves;
    forall c, l | c in moves' && l in moves'[c]
      ensures MoveOk(s.segs, s.active, s.ops, s.newest, moves', l, moves'[c][l])
    {
      MoveFrame(s.segs, s.active, s.ops, s.newest, s.moves, l, s.moves[c][l], s.segs, s.active, s.ops, moves');
    }
  }

  lemma SameKeysMoveOk(segs: Segments, active: nat, ops: Ops, newest: map<Key, Loc>, moves: Moves, l: Loc, m: Move, moves': Moves)
    requires MoveOk(segs, active, ops, newest, moves, l, m) && moves'.Keys <= moves.Keys
    ensures MoveOk(segs, active, ops, newest, moves', l, m)
  {
    hide CopyOf, LeftBehind;
  }

  /** Setting the state of one record of a source keeps the rest of the bookkeeping. */
  lemma SetMoveOk(segs: Segments, active: nat, ops: Ops, newest: map<Key, Loc>, moves: Moves, src: nat, l: Loc, m: Move)
    requires MovesOk(segs, active, ops, newest, moves) && src in moves && l.seg == src
    requires MoveOk(segs, active, ops, newest, moves, l, m)
    ensures MovesOk(segs, active, ops, newest, moves[src := moves[src][l := m]])
  {
    hide CopyOf, LeftBehind;
    var moves' := moves[src := moves[src][l := m]];
    assert moves'.Keys == moves.Keys;
    forall c, l': Loc | c in moves' && l' in moves'[c]
      ensures l'.seg == c && MoveOk(segs, active, ops, newest, moves', l', moves'[c][l'])
    {
      var m' := moves'[c][l'];
      assert l'.seg == c && MoveOk(segs, active, ops, newest, moves, l', m') by {
        if c != src || l' != l {
          assert l' in moves[c] && m' == moves[c][l'];
        }
      }
      SameKeysMoveOk(segs, active, ops, newest, moves, l', m', moves');
    }
  }

  /** Rewriting the state of a record that was not yet moved: the frame of four steps. */
  lemma SetMoveInv(s: State, src: nat, l: Loc, m: Move)
    requires Inv(s) && src in s.moves && l.seg == src
    requires l in s.moves[src] ==> !s.moves[src][l].Moved?
    requires MoveOk(s.segs, s.active, s.ops, s.newest, s.moves, l, m)
    ensures Inv(SetMove(s, src, l, m))
  {
    hide Shape, ClockBound, Agree, Ordered, IndexOk, CacheOk, NewestOk;
    var s' := SetMove(s, src, l, m);
    SetMoveOk(s.segs, s.active, s.ops, s.newest, s.moves, src, l, m);
    BoundElsewhere(s.segs, s.active, s.ops, s.newest, s.moves);
    OpsFrame(s.segs, s.ops, s.moves, s.segs, s'.moves);
    NewestFrame(s.segs, s.ops, s.moves, s.newest, s.segs, s.ops, s'.moves);
  }

  /** A record that need not be carried is not the newest of its key. */
  lemma SkippedIsStale(s: State, l: Loc)
    requires Inv(s) && ValidLoc(s.segs, l) && !Carry(s, l)
    ensures LeftBehind(s.segs, s.newest, l)
  {
    hide Ordered, Agree, MovesOk, CacheOk, OpsOk, ClockBound;
  }

  lemma ExamineInv(s: State, src: nat, l: Loc)
    requires Inv(s) && src in s.moves && ValidLoc(s.segs, l) && l.seg == src && l !in s.moves[src]
    ensures Inv(Examine(s, src, l))
  {
    hide Ordered, NewestOk, IndexOk, CacheOk, Agree, ClockBound, OpsOk;
    if !Carry(s, l) {
      SkippedIsStale(s, l);
    }
    SetMoveInv(s, src, l, if Carry(s, l) then Chosen else Skipped);
  }

  lemma ReserveMoveInv(s: State, src: nat, l: Loc)
    requires Inv(s) && src in s.moves && l in s.moves[src] && s.moves[src][l].Chosen?
    ensures Inv(ReserveMove(s, src, l))
  {
    hide Ordered, NewestOk, IndexOk, CacheOk, Agree, ClockBound;
    assert MoveOk(s.segs, s.active, s.ops, s.newest, s.moves, l, s.moves[src][l]);
    SetMoveInv(s, src, l, Slot(s.active));
  }

  // ---- The committer writes a copy ----

  ghost predicate CanWriteMove(s: State, src: nat, l: Loc) {
    src in s.moves && l in s.moves[src] && s.moves[src][l].Slot?
  }

  /** The files after the copy is written, the bookkeeping before. */
  function WithCopy(s: State, l: Loc, x: nat): State
    requires ValidLoc(s.segs, l) && x in s.segs
  {
    s.(segs := Append(s.segs, x, Blob(None, [At(s.segs, l)])))
  }

  lemma SourceNotInFlight(s: State, l: Loc)
    requires Inv(s) && ValidLoc(s.segs, l) && l.seg in s.moves
    ensures !InFlight(s.ops, l)
  {
    hide Ordered, NewestOk, IndexOk, CacheOk, Agree, ClockBound, MovesOk, Shape;
    forall id | id in s.ops ensures s.ops[id].phase != Written(l.seg, l.blob) {
      assert OpOk(s.segs, s.moves, s.ops[id]);
    }
  }

  lemma CopyAgree(segs: Segments, l: Loc, x: nat)
    requires Agree(segs) && ValidLoc(segs, l) && x in segs
    ensures Agree(Append(segs, x, Blob(None, [At(segs, l)])))
  {
    var segs' := Append(segs, x, Blob(None, [At(segs, l)]));
    AppendGrows(segs, x, Blob(None, [At(segs, l)]));
    forall m | ValidLoc(segs', m)
      ensures exists m' :: ValidLoc(segs, m') && At(segs, m') == At(segs', m)
    {
      if ValidLoc(segs, m) {
        GrowsAt(segs, segs', m);
      } else {
        assert At(segs', m) == At(segs, l);
      }
    }
    forall m, n | ValidLoc(segs', m) && ValidLoc(segs', n) && SameStamp(At(segs', m), At(segs', n))
      ensures At(segs', m) == At(segs', n)
    {
      var m' :| ValidLoc(segs, m') && At(segs, m') == At(segs', m);
      var n' :| ValidLoc(segs, n') && At(segs, n') == At(segs', n);
    }
  }

  lemma CopyClock(segs: Segments, ops: Ops, clock: nat, l: Loc, x: nat)
    requires ClockBound(segs, ops, clock) && ValidLoc(segs, l) && x in segs
    ensures ClockBound(Append(segs, x, Blob(None, [At(segs, l)])), ops, clock)
  {
    var segs' := Append(segs, x, Blob(None, [At(segs, l)]));
    AppendGrows(segs, x, Blob(None, [At(segs, l)]));
    forall m | ValidLoc(segs', m) ensures At(segs', m).ts < clock {
      if ValidLoc(segs, m) {
        GrowsAt(segs, segs', m);
      }
    }
  }

  lemma CopyOrdered(segs: Segments, ops: Ops, newest: map<Key, Loc>, l: Loc, x: nat)
    requires Ordered(segs, ops, newest) && NewestValid(segs, newest)
    requires ValidLoc(segs, l) && !InFlight(ops, l) && x in segs
    ensures Ordered(Append(segs, x, Blob(None, [At(segs, l)])), ops, newest)
  {
    var segs' := Append(segs, x, Blob(None, [At(segs, l)]));
    AppendGrows(segs, x, Blob(None, [At(segs, l)]));
    forall m | ValidLoc(segs', m) && !ValidLoc(segs, m) && !InFlight(ops, m)
      ensures Dominated(segs', newest, m)
    {
      assert Dominated(segs, newest, l);
      GrowsAt(segs, segs', newest[At(segs, l).key]);
    }
    OrderedFrame(segs, ops, newest, segs', ops);
  }

  lemma WithCopyInv(s: State, l: Loc, x: nat)
    requires Inv(s) && ValidLoc(s.segs, l) && l.seg in s.moves && x in s.segs
    ensures Inv(WithCopy(s, l, x))
  {
    hide IndexOk, CacheOk, Agree, Ordered, ClockBound;
    var b := Blob(None, [At(s.segs, l)]);
    var s' := WithCopy(s, l, x);
    SourceNotInFlight(s, l);
    assert WellFormed(s.segs[l.seg].blobs[l.blob]);
    AppendShape(s.segs, s.active, x, b);
    AppendGrows(s.segs, x, b);
    CopyClock(s.segs, s.ops, s.clock, l, x);
    CopyAgree(s.segs, l, x);
    CopyOrdered(s.segs, s.ops, s.newest, l, x);
    BoundElsewhere(s.segs, s.active, s.ops, s.newest, s.moves);
    OpsFrame(s.segs, s.ops, s.moves, s'.segs, s.moves);
    NewestFrame(s.segs, s.ops, s.moves, s.newest, s'.segs, s.ops, s.moves);
    IndexFrame(s.segs, s.newest, s.index, s'.segs);
    MovesFrame(s.segs, s.active, s.ops, s.newest, s.moves, s'.segs, s.active, s.ops);
    CacheFrame(s.segs, s.index, s.ops, s.gets, s.cache, s'.segs, s.ops);
  }

  /** The copy just written at the end of `x` is a copy of `l` that no op has in flight. */
  lemma FreshCopy(s: State, l: Loc, x: nat)
    requires Inv(s) && ValidLoc(s.segs, l) && x in s.segs && l.seg < x
    ensures CopyOf(WithCopy(s, l, x).segs, s.ops, l, Loc(x, |s.segs[x].blobs|, 0))
  {
    hide Ordered, NewestOk, IndexOk, CacheOk, Agree, ClockBound, MovesOk;
    var d := Loc(x, |s.segs[x].blobs|, 0);
    AppendGrows(s.segs, x, Blob(None, [At(s.segs, l)]));
    GrowsAt(s.segs, WithCopy(s, l, x).segs, l);
    forall id | id in s.ops ensures s.ops[id].phase != Written(d.seg, d.blob) {
      assert OpOk(s.segs, s.moves, s.ops[id]);
    }
  }

  lemma WriteMoveInv(s: State, src: nat, l: Loc)
    requires Inv(s) && CanWriteMove(s, src, l)
    ensures ValidLoc(s.segs, l) && s.moves[src][l].seg in s.segs
    ensures Inv(WriteMove(s, src, l))
  {
    hide Ordered, NewestOk, IndexOk, CacheOk, Agree, ClockBound, OpsOk;
    assert MoveOk(s.segs, s.active, s.ops, s.newest, s.moves, l, s.moves[src][l]);
    var x := s.moves[src][l].seg;
    WithCopyInv(s, l, x);
    FreshCopy(s, l, x);
    SetMoveInv(WithCopy(s, l, x), src, l, Copied(Loc(x, |s.segs[x].blobs|, 0)));
    assert WriteMove(s, src, l) == SetMove(WithCopy(s, l, x), src, l, Copied(Loc(x, |s.segs[x].blobs|, 0)));
  }

  // ---- The recheck and swap ----

  ghost predicate CanFinishMove(s: State, src: nat, l: Loc) {
    src in s.moves && l in s.moves[src] && s.moves[src][l].Copied?
  }

  lemma FinishNewestOk(s: State, src: nat, l: Loc)
    requires NewestOk(s.segs, s.ops, s.moves, s.newest) && CanFinishMove(s, src, l) && l.seg == src
    requires CopyOf(s.segs, s.ops, l, s.moves[src][l].dst)
    ensures NewestOk(s.segs, s.ops, FinishMove(s, src, l).moves, FinishMove(s, src, l).newest)
  {
    var s' := FinishMove(s, src, l);
    var d := s.moves[src][l].dst;
    NewestFrame(s.segs, s.ops, s.moves, s.newest, s.segs, s.ops, s'.moves);
    var k := At(s.segs, l).key;
    if k in s.newest && s.newest[k] == l {
      assert Backed(s.segs, s'.moves, l);
      assert src in s'.moves && l in s'.moves[src] && s'.moves[src][l] == Moved(d) && l.seg == src < d.seg;
      assert Backed(s.segs, s'.moves, d);
    }
  }

  lemma FinishOrdered(segs: Segments, ops: Ops, newest: map<Key, Loc>, l: Loc, d: Loc)
    requires Ordered(segs, ops, newest) && CopyOf(segs, ops, l, d)
    requires At(segs, l).key in newest && newest[At(segs, l).key] == l
    ensures Ordered(segs, ops, newest[At(segs, l).key := d])
  {
  }

  /** Repointing a key outside every source leaves behind whatever was left behind. */
  lemma RepointMovesOk(segs: Segments, active: nat, ops: Ops, newest: map<Key, Loc>, moves: Moves, k: Key, d: Loc)
    requires MovesOk(segs, active, ops, newest, moves) && d.seg !in moves
    ensures MovesOk(segs, active, ops, newest[k := d], moves)
  {
    forall c, l | c in moves && l in moves[c]
      ensures MoveOk(segs, active, ops, newest[k := d], moves, l, moves[c][l])
    {
      assert MoveOk(segs, active, ops, newest, moves, l, moves[c][l]);
    }
  }

  lemma FinishMovesOk(s: State, src: nat, l: Loc)
    requires MovesOk(s.segs, s.active, s.ops, s.newest, s.moves) && Shape(s.segs, s.active)
    requires CanFinishMove(s, src, l) && l.seg == src
    requires CopyOf(s.segs, s.ops, l, s.moves[src][l].dst) && s.moves[src][l].dst.seg !in s.moves
    ensures MovesOk(s.segs, s.active, s.ops, FinishMove(s, src, l).newest, FinishMove(s, src, l).moves)
  {
    var newest' := FinishMove(s, src, l).newest;
    var d := s.moves[src][l].dst;
    var k := At(s.segs, l).key;
    if newest' != s.newest {
      RepointMovesOk(s.segs, s.active, s.ops, s.newest, s.moves, k, d);
    }
    SetMoveOk(s.segs, s.active, s.ops, newest', s.moves, src, l, Moved(d));
  }

  /** The swap: index and newest-record map change together, or not at all. */
  lemma SwapIndexOk(segs: Segments, ops: Ops, newest: map<Key, Loc>, index: map<Key, Entry>, l: Loc, d: Loc)
    requires IndexOk(segs, newest, index) && CopyOf(segs, ops, l, d)
    requires At(segs, l).key in newest && newest[At(segs, l).key] == l
    ensures var r := At(segs, l);
            IndexOk(segs, newest[r.key := d], if IsTomb(r) then index else index[r.key := Entry(d, SizeOf(r))])
  {
  }

  lemma FinishIndexOk(s: State, src: nat, l: Loc)
    requires IndexOk(s.segs, s.newest, s.index) && NewestValid(s.segs, s.newest)
    requires CanFinishMove(s, src, l) && CopyOf(s.segs, s.ops, l, s.moves[src][l].dst)
    ensures IndexOk(s.segs, FinishMove(s, src, l).newest, FinishMove(s, src, l).index)
  {
    var r := At(s.segs, l);
    if r.key in s.newest && s.newest[r.key] == l {
      SwapIndexOk(s.segs, s.ops, s.newest, s.index, l, s.moves[src][l].dst);
    }
  }

  lemma FinishCacheOk(s: State, src: nat, l: Loc)
    requires IndexOk(s.segs, s.newest, s.index) && CacheOk(s.segs, s.index, s.ops, s.gets, s.cache)
    requires CanFinishMove(s, src, l) && CopyOf(s.segs, s.ops, l, s.moves[src][l].dst)
    ensures CacheOk(s.segs, FinishMove(s, src, l).index, s.ops, s.gets, s.cache)
  {
    var s' := FinishMove(s, src, l);
    forall k | k in s.index
      ensures k in s'.index && ValidLoc(s.segs, s'.index[k].loc) && At(s.segs, s'.index[k].loc) == At(s.segs, s.index[k].loc)
    {
    }
  }

  lemma FinishMoveInv(s: State, src: nat, l: Loc)
    requires Inv(s) && CanFinishMove(s, src, l)
    ensures ValidLoc(s.segs, l) && Inv(FinishMove(s, src, l))
  {
    hide InFlight, Shape, ClockBound, Agree, CacheOk, OpsOk;
    var s' := FinishMove(s, src, l);
    var k := At(s.segs, l).key;
    assert MoveOk(s.segs, s.active, s.ops, s.newest, s.moves, l, s.moves[src][l]);
    BoundElsewhere(s.segs, s.active, s.ops, s.newest, s.moves);
    OpsFrame(s.segs, s.ops, s.moves, s.segs, s'.moves);
    if k in s.newest && s.newest[k] == l {
      FinishOrdered(s.segs, s.ops, s.newest, l, s.moves[src][l].dst);
    }
    FinishNewestOk(s, src, l);
    FinishIndexOk(s, src, l);
    FinishMovesOk(s, src, l);
    FinishCacheOk(s, src, l);
  }

  // ---- Unlinking the source ----

  /** When the source may go, no newest record lies in it. */
  lemma SourceIsEmpty(s: State, src: nat, k: Key)
    requires Inv(s) && CanUnlink(s, src) && k in s.newest
    ensures s.newest[k].seg != src
  {
    hide Ordered, Agree, Shape, WellFormed, IndexOk;
    assert ValidLoc(s.segs, s.newest[k]);
  }

  lemma UnlinkAt(segs: Segments, src: nat, l: Loc)
    ensures ValidLoc(segs - {src}, l) <==> ValidLoc(segs, l) && l.seg != src
    ensures ValidLoc(segs - {src}, l) ==> At(segs - {src}, l) == At(segs, l) && (Durable(segs - {src}, l) <==> Durable(segs, l))
  {
  }

  /** A record outside the source stays backed: a chain of relocations that led through the
      source is cut at a copy the compaction has synced. */
  lemma {:induction false} BackedUnlink(s: State, src: nat, l: Loc)
    requires Inv(s) && CanUnlink(s, src) && Backed(s.segs, s.moves, l) && l.seg != src
    ensures Backed(s.segs - {src}, s.moves - {src}, l)
    decreases l.seg
  {
    hide Ordered, IndexOk, CacheOk, Agree, ClockBound, OpsOk;
    UnlinkAt(s.segs, src, l);
    if !Durable(s.segs, l) {
      var c, l0 :| c in s.moves && l0 in s.moves[c] && s.moves[c][l0] == Moved(l) && l0.seg == c < l.seg &&
        Backed(s.segs, s.moves, l0) && At(s.segs, l0) == At(s.segs, l);
      assert c != src;
      BackedUnlink(s, src, l0);
      UnlinkAt(s.segs, src, l0);
      assert (s.moves - {src})[c][l0] == Moved(l);
    }
  }

  lemma UnlinkOpsOk(s: State, src: nat)
    requires Inv(s) && src in s.moves
    ensures OpsOk(s.segs - {src}, s.ops, s.moves - {src})
  {
    hide Ordered, NewestOk, IndexOk, CacheOk, Agree, ClockBound, Shape, MovesOk;
    forall id | id in s.ops ensures OpOk(s.segs - {src}, s.moves - {src}, s.ops[id]) {
      assert OpOk(s.segs, s.moves, s.ops[id]);
    }
  }

  lemma UnlinkMovesOk(s: State, src: nat)
    requires Inv(s) && src in s.moves
    ensures MovesOk(s.segs - {src}, s.active, s.ops, s.newest, s.moves - {src})
  {
    hide Ordered, NewestOk, IndexOk, CacheOk, Agree, ClockBound, OpsOk, MoveOk;
    var segs', moves' := s.segs - {src}, s.moves - {src};
    forall c, l: Loc | c in moves' && l in moves'[c]
      ensures l.seg == c && MoveOk(segs', s.active, s.ops, s.newest, moves', l, moves'[c][l])
    {
      assert l.seg == c && MoveOk(s.segs, s.active, s.ops, s.newest, s.moves, l, s.moves[c][l]);
      UnlinkMoveOk(s.segs, s.active, s.ops, s.newest, s.moves, l, s.moves[c][l], src);
    }
  }

  lemma UnlinkMoveOk(segs: Segments, active: nat, ops: Ops, newest: map<Key, Loc>, moves: Moves, l: Loc, m: Move, src: nat)
    requires MoveOk(segs, active, ops, newest, moves, l, m) && src in moves && l.seg != src
    ensures MoveOk(segs - {src}, active, ops, newest, moves - {src}, l, m)
  {
    UnlinkAt(segs, src, l);
    if m.Copied? || m.Moved? {
      UnlinkAt(segs, src, m.dst);
    }
  }

  lemma UnlinkOrdered(s: State, src: nat)
    requires Inv(s) && CanUnlink(s, src)
    ensures Ordered(s.segs - {src}, s.ops, s.newest)
    ensures IndexOk(s.segs - {src}, s.newest, s.index)
  {
    hide CacheOk, Agree, ClockBound, OpsOk, MovesOk;
    var segs' := s.segs - {src};
    forall k | k in s.newest
      ensures ValidLoc(segs', s.newest[k]) && At(segs', s.newest[k]) == At(s.segs, s.newest[k])
    {
      SourceIsEmpty(s, src, k);
      UnlinkAt(s.segs, src, s.newest[k]);
    }
    forall l | ValidLoc(segs', l) && !InFlight(s.ops, l) ensures Dominated(segs', s.newest, l) {
      UnlinkAt(s.segs, src, l);
      assert Dominated(s.segs, s.newest, l);
    }
  }

  lemma UnlinkNewestOk(s: State, src: nat)
    requires Inv(s) && CanUnlink(s, src)
    ensures NewestOk(s.segs - {src}, s.ops, s.moves - {src}, s.newest)
  {
    hide IndexOk, CacheOk, Agree, ClockBound, OpsOk, MovesOk;
    forall k | k in s.newest
      ensures Backed(s.segs - {src}, s.moves - {src}, s.newest[k]) && At(s.segs - {src}, s.newest[k]).key == k
    {
      SourceIsEmpty(s, src, k);
      BackedUnlink(s, src, s.newest[k]);
      UnlinkAt(s.segs, src, s.newest[k]);
    }
  }

  lemma UnlinkCacheOk(s: State, src: nat)
    requires Inv(s) && CanUnlink(s, src)
    ensures CacheOk(s.segs - {src}, s.index, s.ops, s.gets, s.cache)
  {
    hide Ordered, Agree, ClockBound, OpsOk, MovesOk;
    forall k | k in s.index
      ensures ValidLoc(s.segs - {src}, s.index[k].loc) && At(s.segs - {src}, s.index[k].loc) == At(s.segs, s.index[k].loc)
    {
      SourceIsEmpty(s, src, k);
      UnlinkAt(s.segs, src, s.newest[k]);
    }
  }

  lemma UnlinkInv(s: State, src: nat)
    requires Inv(s) && CanUnlink(s, src)
    ensures Inv(Unlink(s, src))
  {
    hide OpsOk, Ordered, NewestOk, IndexOk, CacheOk;
    var segs' := s.segs - {src};
    assert SameRecords(s.segs, segs') by {
      forall l | ValidLoc(segs', l) ensures ValidLoc(s.segs, l) && At(segs', l) == At(s.segs, l) {
        UnlinkAt(s.segs, src, l);
      }
    }
    AgreeFrame(s.segs, segs');
    UnlinkOpsOk(s, src);
    UnlinkOrdered(s, src);
    UnlinkNewestOk(s, src);
    UnlinkMovesOk(s, src);
    UnlinkCacheOk(s, src);
  }
}
