/** Client steps keep the invariant, and only the acknowledgement changes what clients read. */
module VLogClient {
  import opened Bytes
  import opened Records
  import opened Batches
  import opened VLogState
  import opened VLogInv

  lemma BeginSetInv(s: State, id: nat, k: Key, v: Value)
    requires Inv(s) && id !in s.ops && Idle(s, k)
    ensures Inv(BeginSet(s, id, k, v))
  {
    hide Inv, Idle;
    var s' := BeginSet(s, id, k, v);
    BeginInv(s, s', id, s'.ops[id]);
  }

  lemma BeginDelInv(s: State, id: nat, k: Key)
    requires Inv(s) && id !in s.ops && Idle(s, k) && k in s.index
    ensures Inv(BeginDel(s, id, k))
  {
    hide Inv, Idle;
    var s' := BeginDel(s, id, k);
    BeginInv(s, s', id, s'.ops[id]);
  }

  lemma BeginSetManyInv(s: State, id: nat, pairs: seq<(Key, Value)>)
    requires Inv(s) && id !in s.ops && 1 <= |pairs| <= U32_MAX
    requires forall i :: 0 <= i < |pairs| ==> Idle(s, pairs[i].0)
    ensures Inv(BeginSetMany(s, id, pairs))
  {
    hide Inv, Idle;
    var s' := BeginSetMany(s, id, pairs);
    BeginInv(s, s', id, s'.ops[id]);
  }

  lemma ReserveOpInv(s: State, id: nat)
    requires Inv(s) && id in s.ops && s.ops[id].phase.Drawn?
    ensures Inv(ReserveOp(s, id))
  {
    hide Agree, IndexOk, MovesOk, CacheOk, WellFormed;
    var s' := ReserveOp(s, id);
    InFlightSame(s.ops, s'.ops);
    assert OpOk(s.segs, s.moves, s.ops[id]);
    ActiveFree(s);
    ReplaceOpOk(s.segs, s.ops, s.moves, id, s'.ops[id]);
    OrderedFrame(s.segs, s.ops, s.newest, s.segs, s'.ops);
    NewestFrame(s.segs, s.ops, s.moves, s.newest, s.segs, s'.ops, s.moves);
    MovesFrame(s.segs, s.active, s.ops, s.newest, s.moves, s.segs, s.active, s'.ops);
    CacheFrame(s.segs, s.index, s.ops, s.gets, s.cache, s.segs, s'.ops);
  }

  lemma ActiveFree(s: State)
    requires Inv(s)
    ensures s.active in s.segs && s.active !in s.moves
  {
    hide Ordered, NewestOk, IndexOk, CacheOk, OpsOk, Agree;
  }

  lemma ReplaceOpOk(segs: Segments, ops: Ops, moves: Moves, id: nat, op: ClientOp)
    requires OpsOk(segs, ops, moves) && id in ops && op.blob == ops[id].blob && OpOk(segs, moves, op)
    ensures OpsOk(segs, ops[id := op], moves)
  {
    var ops' := ops[id := op];
    forall j, j', k | j in ops' && j' in ops' && HasKey(ops'[j].blob, k) && HasKey(ops'[j'].blob, k)
      ensures j == j'
    {
      assert HasKey(ops[j].blob, k) && HasKey(ops[j'].blob, k);
    }
  }

  // ---- The committer writes a client blob ----

  /** After the write, exactly the new blob has joined the records in flight. */
  lemma WriteInFlight(ops: Ops, id: nat, op: ClientOp)
    requires id in ops && !ops[id].phase.Written? && op.phase.Written?
    ensures forall l :: InFlight(ops[id := op], l) <==> InFlight(ops, l) || Written(l.seg, l.blob) == op.phase
  {
    var ops' := ops[id := op];
    forall l | InFlight(ops', l) ensures InFlight(ops, l) || Written(l.seg, l.blob) == op.phase {
      var j :| j in ops' && ops'[j].phase == Written(l.seg, l.blob);
      assert j != id ==> ops[j].phase == Written(l.seg, l.blob);
    }
    forall l | InFlight(ops, l) ensures InFlight(ops', l) {
      var j :| j in ops && ops[j].phase == Written(l.seg, l.blob);
      assert ops'[j].phase == Written(l.seg, l.blob);
    }
    forall l: Loc | Written(l.seg, l.blob) == op.phase ensures InFlight(ops', l) {
      assert ops'[id].phase == Written(l.seg, l.blob);
    }
  }

  /** A pending record is newer than every record of its key on disk. */
  lemma PendingIsNewer(segs: Segments, ops: Ops, moves: Moves, newest: map<Key, Loc>, id: nat, i: nat, l: Loc)
    requires OpsOk(segs, ops, moves) && Ordered(segs, ops, newest)
    requires id in ops && !ops[id].phase.Written? && i < |ops[id].blob.recs|
    requires ValidLoc(segs, l) && At(segs, l).key == ops[id].blob.recs[i].key
    ensures At(segs, l).ts < ops[id].blob.recs[i].ts
  {
    if InFlight(ops, l) {
      var j :| j in ops && ops[j].phase == Written(l.seg, l.blob);
      var k := ops[id].blob.recs[i].key;
      assert OpOk(segs, moves, ops[j]);
      assert ops[j].blob.recs[l.pos].key == k;
      assert HasKey(ops[id].blob, k) && HasKey(ops[j].blob, k);
    }
  }

  lemma WriteAgree(s: State, id: nat)
    requires Inv(s) && id in s.ops && s.ops[id].phase.Reserved?
    ensures Agree(WriteOp(s, id).segs)
  {
    hide IndexOk, MovesOk, CacheOk, NewestOk, ClockBound;
    var segs' := WriteOp(s, id).segs;
    AppendGrows(s.segs, s.ops[id].phase.seg, s.ops[id].blob);
    assert OpOk(s.segs, s.moves, s.ops[id]);
    forall l, m | ValidLoc(segs', l) && ValidLoc(segs', m) && SameStamp(At(segs', l), At(segs', m))
      ensures At(segs', l) == At(segs', m)
    {
      if ValidLoc(s.segs, l) {
        GrowsAt(s.segs, segs', l);
        if ValidLoc(s.segs, m) {
          GrowsAt(s.segs, segs', m);
        } else {
          PendingIsNewer(s.segs, s.ops, s.moves, s.newest, id, m.pos, l);
        }
      } else if ValidLoc(s.segs, m) {
        GrowsAt(s.segs, segs', m);
        PendingIsNewer(s.segs, s.ops, s.moves, s.newest, id, l.pos, m);
      } else {
        assert l.pos <= m.pos && m.pos <= l.pos;
      }
    }
  }

  lemma WriteClock(segs: Segments, ops: Ops, clock: nat, id: nat, x: nat, op: ClientOp)
    requires ClockBound(segs, ops, clock) && id in ops && x in segs && op.blob == ops[id].blob
    ensures ClockBound(Append(segs, x, op.blob), ops[id := op], clock)
  {
    AppendGrows(segs, x, op.blob);
    forall l | ValidLoc(Append(segs, x, op.blob), l)
      ensures At(Append(segs, x, op.blob), l).ts < clock
    {
      if ValidLoc(segs, l) {
        GrowsAt(segs, Append(segs, x, op.blob), l);
      }
    }
  }

  lemma AppendShape(segs: Segments, active: nat, x: nat, b: Blob)
    requires Shape(segs, active) && x in segs && WellFormed(b)
    ensures Shape(Append(segs, x, b), active)
  {
  }

  lemma WriteOpsOk(s: State, id: nat)
    requires OpsOk(s.segs, s.ops, s.moves) && MovesOk(s.segs, s.active, s.ops, s.newest, s.moves)
    requires id in s.ops && s.ops[id].phase.Reserved? && s.ops[id].phase.seg in s.segs
    ensures OpsOk(WriteOp(s, id).segs, WriteOp(s, id).ops, s.moves)
  {
    var s' := WriteOp(s, id);
    assert OpOk(s.segs, s.moves, s.ops[id]);
    AppendGrows(s.segs, s.ops[id].phase.seg, s.ops[id].blob);
    BoundElsewhere(s.segs, s.active, s.ops, s.newest, s.moves);
    OpsFrame(s.segs, s.ops, s.moves, s'.segs, s.moves);
    ReplaceOpOk(s'.segs, s.ops, s.moves, id, s'.ops[id]);
  }

  lemma WriteOrdered(segs: Segments, ops: Ops, newest: map<Key, Loc>, id: nat, op: ClientOp)
    requires Ordered(segs, ops, newest) && NewestValid(segs, newest)
    requires id in ops && ops[id].phase.Reserved? && ops[id].phase.seg in segs && op.blob == ops[id].blob
    requires op.phase == Written(ops[id].phase.seg, |segs[ops[id].phase.seg].blobs|)
    ensures Ordered(Append(segs, ops[id].phase.seg, op.blob), ops[id := op], newest)
  {
    AppendGrows(segs, ops[id].phase.seg, op.blob);
    WriteInFlight(ops, id, op);
    OrderedFrame(segs, ops, newest, Append(segs, ops[id].phase.seg, op.blob), ops[id := op]);
  }

  lemma WriteOpInv(s: State, id: nat)
    requires Inv(s) && id in s.ops && s.ops[id].phase.Reserved?
    ensures Inv(WriteOp(s, id))
  {
    hide Agree, IndexOk, CacheOk, Ordered;
    var s' := WriteOp(s, id);
    var op := s.ops[id];
    var x := op.phase.seg;
    assert OpOk(s.segs, s.moves, op);
    AppendGrows(s.segs, x, op.blob);
    AppendShape(s.segs, s.active, x, op.blob);
    WriteInFlight(s.ops, id, s'.ops[id]);
    WriteClock(s.segs, s.ops, s.clock, id, x, s'.ops[id]);
    WriteAgree(s, id);
    WriteOpsOk(s, id);
    WriteOrdered(s.segs, s.ops, s.newest, id, s'.ops[id]);
    NewestFrame(s.segs, s.ops, s.moves, s.newest, s'.segs, s'.ops, s.moves);
    IndexFrame(s.segs, s.newest, s.index, s'.segs);
    MovesFrame(s.segs, s.active, s.ops, s.newest, s.moves, s'.segs, s.active, s'.ops);
    CacheFrame(s.segs, s.index, s.ops, s.gets, s.cache, s'.segs, s'.ops);
  }

  // ---- Syncs and rotations ----

  lemma FilesFrame(s: State, s': State)
    requires Inv(s) && s' == s.(segs := s'.segs, active := s'.active)
    requires Grows(s.segs, s'.segs) && SameRecords(s.segs, s'.segs) && Shape(s'.segs, s'.active)
    requires s.active <= s'.active && s'.active !in s.moves
    requires forall x :: x in s'.segs && x !in s.segs ==> s.active < x
    ensures Inv(s')
  {
    hide Agree, IndexOk, CacheOk, Ordered;
    AgreeFrame(s.segs, s'.segs);
    BoundElsewhere(s.segs, s.active, s.ops, s.newest, s.moves);
    OpsFrame(s.segs, s.ops, s.moves, s'.segs, s.moves);
    OrderedFrame(s.segs, s.ops, s.newest, s'.segs, s.ops);
    NewestFrame(s.segs, s.ops, s.moves, s.newest, s'.segs, s.ops, s.moves);
    IndexFrame(s.segs, s.newest, s.index, s'.segs);
    MovesFrame(s.segs, s.active, s.ops, s.newest, s.moves, s'.segs, s'.active, s.ops);
    CacheFrame(s.segs, s.index, s.ops, s.gets, s.cache, s'.segs, s.ops);
  }

  lemma SyncSegInv(s: State, x: nat)
    requires Inv(s) && x in s.segs
    ensures Inv(SyncSeg(s, x))
  {
    FilesFrame(s, SyncSeg(s, x));
  }

  lemma RotateInv(s: State)
    requires Inv(s)
    ensures Inv(Rotate(s))
  {
    FilesFrame(s, Rotate(s));
  }

  // ---- Reads ----

  lemma BeginGetInv(s: State, id: nat, k: Key)
    requires Inv(s) && id !in s.gets && Unwritten(s, k) && k in s.index
    ensures ValidLoc(s.segs, s.index[k].loc) && Inv(BeginGet(s, id, k))
  {
    hide Shape, ClockBound, Agree, OpsOk, Ordered, NewestOk, MovesOk;
    GetCacheOk(s.segs, s.index, s.ops, s.gets, s.cache, id, k);
  }

  lemma GetCacheOk(segs: Segments, index: map<Key, Entry>, ops: Ops, gets: map<nat, Read>, cache: map<Key, Value>, id: nat, k: Key)
    requires CacheOk(segs, index, ops, gets, cache) && k in index && ValidLoc(segs, index[k].loc)
    requires forall op :: op in ops ==> !HasKey(ops[op].blob, k)
    ensures CacheOk(segs, index, ops, gets[id := Read(k, At(segs, index[k].loc).value)], cache)
  {
  }

  lemma FinishGetInv(s: State, id: nat)
    requires Inv(s) && id in s.gets
    ensures Inv(FinishGet(s, id))
  {
    hide Shape, ClockBound, Agree, OpsOk, Ordered, NewestOk, MovesOk, IndexOk, HasKey;
  }

  lemma EvictInv(s: State, k: Key)
    requires Inv(s)
    ensures Inv(Evict(s, k))
  {
    hide Shape, ClockBound, Agree, OpsOk, Ordered, NewestOk, MovesOk, IndexOk, HasKey;
  }

  // ---- The acknowledgement ----

  lemma {:induction false} ApplyNewestAt(newest: map<Key, Loc>, recs: seq<Record>, x: nat, b: nat, k: Key)
    ensures var m := ApplyNewest(newest, recs, x, b);
            if exists i :: 0 <= i < |recs| && recs[i].key == k
            then k in m && m[k] == Loc(x, b, LastOf(recs, k))
            else (k in m <==> k in newest) && (k in m ==> m[k] == newest[k])
  {
    if recs != [] {
      var n := |recs| - 1;
      ApplyNewestAt(newest, recs[..n], x, b, k);
      PrefixKeys(recs, k);
    }
  }

  /** Looking a key up in all of `recs` but the last record. */
  lemma PrefixKeys(recs: seq<Record>, k: Key)
    requires recs != []
    ensures var n := |recs| - 1;
            (exists i :: 0 <= i < |recs| && recs[i].key == k) <==>
              recs[n].key == k || exists i :: 0 <= i < n && recs[..n][i].key == k
  {
    var n := |recs| - 1;
    if i :| 0 <= i < |recs| && recs[i].key == k {
      if i < n { assert recs[..n][i].key == k; }
    }
    if i :| 0 <= i < n && recs[..n][i].key == k {
      assert recs[i].key == k;
    }
  }

  lemma {:induction false} ApplyIndexAt(index: map<Key, Entry>, recs: seq<Record>, x: nat, b: nat, k: Key)
    ensures var m := ApplyIndex(index, recs, x, b);
            if exists i :: 0 <= i < |recs| && recs[i].key == k
            then var r := recs[LastOf(recs, k)];
                 if IsTomb(r) then k !in m else k in m && m[k] == Entry(Loc(x, b, LastOf(recs, k)), SizeOf(r))
            else (k in m <==> k in index) && (k in m ==> m[k] == index[k])
  {
    if recs != [] {
      var n := |recs| - 1;
      ApplyIndexAt(index, recs[..n], x, b, k);
      PrefixKeys(recs, k);
    }
  }

  lemma {:induction false} ApplyCacheAt(cache: map<Key, Value>, recs: seq<Record>, k: Key)
    ensures var m := ApplyCache(cache, recs);
            if exists i :: 0 <= i < |recs| && recs[i].key == k
            then var r := recs[LastOf(recs, k)];
                 if IsTomb(r) then k !in m else k in m && m[k] == r.value
            else (k in m <==> k in cache) && (k in m ==> m[k] == cache[k])
  {
    if recs != [] {
      var n := |recs| - 1;
      ApplyCacheAt(cache, recs[..n], k);
      PrefixKeys(recs, k);
    }
  }

  lemma OneOpPerBlob(segs: Segments, ops: Ops, moves: Moves, id: nat, j: nat)
    requires OpsOk(segs, ops, moves) && id in ops && j in ops && ops[id].phase.Written? && ops[j].phase == ops[id].phase
    ensures j == id
  {
    assert OpOk(segs, moves, ops[id]) && OpOk(segs, moves, ops[j]);
    var k := ops[id].blob.recs[0].key;
    assert HasKey(ops[id].blob, k) && HasKey(ops[j].blob, k);
  }

  /** Acknowledging `id` takes exactly its blob out of flight. */
  lemma ApplyInFlight(segs: Segments, ops: Ops, moves: Moves, id: nat)
    requires OpsOk(segs, ops, moves) && id in ops && ops[id].phase.Written?
    ensures forall l :: InFlight(ops - {id}, l) <==> InFlight(ops, l) && Written(l.seg, l.blob) != ops[id].phase
  {
    var ops' := ops - {id};
    assert OpOk(segs, moves, ops[id]);
    forall l | InFlight(ops', l) ensures InFlight(ops, l) && Written(l.seg, l.blob) != ops[id].phase {
      var j :| j in ops' && ops'[j].phase == Written(l.seg, l.blob);
      assert OpOk(segs, moves, ops[j]);
      if ops[j].phase == ops[id].phase { OneOpPerBlob(segs, ops, moves, id, j); }
    }
    forall l | InFlight(ops, l) && Written(l.seg, l.blob) != ops[id].phase ensures InFlight(ops', l) {
      var j :| j in ops && ops[j].phase == Written(l.seg, l.blob);
      assert ops'[j].phase == Written(l.seg, l.blob);
    }
  }

  ghost predicate CanApply(s: State, id: nat) {
    && id in s.ops && s.ops[id].phase.Written?
    && s.ops[id].phase.seg in s.segs && s.ops[id].phase.blob < s.segs[s.ops[id].phase.seg].synced
  }

  /** Where the newest record of each key is after the acknowledgement. */
  lemma ApplyNewestMap(s: State, id: nat, k: Key)
    requires Inv(s) && CanApply(s, id)
    ensures var op := s.ops[id];
            var m := ApplyOp(s, id).newest;
            if HasKey(op.blob, k)
            then k in m && m[k] == Loc(op.phase.seg, op.phase.blob, LastOf(op.blob.recs, k)) &&
                 ValidLoc(s.segs, m[k]) && At(s.segs, m[k]) == op.blob.recs[LastOf(op.blob.recs, k)]
            else (k in m <==> k in s.newest) && (k in m ==> m[k] == s.newest[k])
  {
    hide Ordered, NewestOk, IndexOk, MovesOk, CacheOk, Agree, ClockBound, Shape;
    var op := s.ops[id];
    assert OpOk(s.segs, s.moves, op);
    ApplyNewestAt(s.newest, op.blob.recs, op.phase.seg, op.phase.blob, k);
  }

  lemma ApplyDominated(s: State, id: nat, l: Loc)
    requires Inv(s) && CanApply(s, id)
    requires ValidLoc(s.segs, l) && (InFlight(s.ops, l) ==> Written(l.seg, l.blob) == s.ops[id].phase)
    ensures Dominated(s.segs, ApplyOp(s, id).newest, l)
  {
    hide CacheOk, IndexOk, MovesOk, Agree, ClockBound, Shape, WellFormed, ApplyNewest, ApplyIndex, ApplyCache;
    var op := s.ops[id];
    assert OpOk(s.segs, s.moves, op);
    var k := At(s.segs, l).key;
    ApplyNewestMap(s, id, k);
    if Written(l.seg, l.blob) == op.phase {
      assert op.blob.recs[l.pos].key == k;
      assert l.pos <= LastOf(op.blob.recs, k);
    } else {
      assert Dominated(s.segs, s.newest, l);
    }
  }

  lemma ApplyStillNewer(s: State, id: nat, j: nat, i: nat)
    requires Inv(s) && CanApply(s, id) && j in s.ops && j != id && i < |s.ops[j].blob.recs|
    ensures var r := s.ops[j].blob.recs[i];
            var m := ApplyOp(s, id).newest;
            r.key in m && ValidLoc(s.segs, m[r.key]) ==> At(s.segs, m[r.key]).ts < r.ts
  {
    hide NewestOk, IndexOk, MovesOk, CacheOk, Agree, ClockBound, Shape;
    var r := s.ops[j].blob.recs[i];
    ApplyNewestMap(s, id, r.key);
    assert HasKey(s.ops[j].blob, r.key);
  }

  lemma ApplyOrdered(s: State, id: nat)
    requires Inv(s) && CanApply(s, id)
    ensures Ordered(s.segs, ApplyOp(s, id).ops, ApplyOp(s, id).newest)
  {
    hide IndexOk, CacheOk, Agree, ClockBound, Shape, MovesOk;
    var s' := ApplyOp(s, id);
    ApplyInFlight(s.segs, s.ops, s.moves, id);
    forall l | ValidLoc(s.segs, l) && !InFlight(s'.ops, l) ensures Dominated(s.segs, s'.newest, l) {
      ApplyDominated(s, id, l);
    }
    forall j, i | j in s'.ops && 0 <= i < |s'.ops[j].blob.recs|
      ensures var r := s'.ops[j].blob.recs[i];
              r.key in s'.newest && ValidLoc(s.segs, s'.newest[r.key]) ==> At(s.segs, s'.newest[r.key]).ts < r.ts
    {
      ApplyStillNewer(s, id, j, i);
    }
  }

  lemma ApplyNewestOk(s: State, id: nat)
    requires Inv(s) && CanApply(s, id)
    ensures NewestOk(s.segs, ApplyOp(s, id).ops, s.moves, ApplyOp(s, id).newest)
  {
    hide Ordered, IndexOk, MovesOk, CacheOk, Agree, ClockBound, Shape;
    var s' := ApplyOp(s, id);
    ApplyInFlight(s.segs, s.ops, s.moves, id);
    forall k | k in s'.newest
      ensures Backed(s.segs, s.moves, s'.newest[k]) && At(s.segs, s'.newest[k]).key == k && !InFlight(s'.ops, s'.newest[k])
    {
      ApplyNewestMap(s, id, k);
      if HasKey(s.ops[id].blob, k) {
        assert Durable(s.segs, s'.newest[k]);
      }
    }
  }

  lemma ApplyIndexOk(s: State, id: nat)
    requires Inv(s) && CanApply(s, id)
    ensures IndexOk(s.segs, ApplyOp(s, id).newest, ApplyOp(s, id).index)
  {
    hide Ordered, MovesOk, CacheOk, Agree, ClockBound, Shape;
    var s' := ApplyOp(s, id);
    var op := s.ops[id];
    forall k
      ensures k in s'.index ==>
                && k in s'.newest && s'.index[k].loc == s'.newest[k] && ValidLoc(s.segs, s'.newest[k])
                && !IsTomb(At(s.segs, s'.newest[k])) && s'.index[k].size == SizeOf(At(s.segs, s'.newest[k]))
      ensures k in s'.newest && ValidLoc(s.segs, s'.newest[k]) && !IsTomb(At(s.segs, s'.newest[k])) ==> k in s'.index
    {
      ApplyNewestMap(s, id, k);
      ApplyIndexAt(s.index, op.blob.recs, op.phase.seg, op.phase.blob, k);
    }
  }

  lemma ApplyMovesOk(s: State, id: nat)
    requires Inv(s) && CanApply(s, id)
    ensures MovesOk(s.segs, s.active, ApplyOp(s, id).ops, ApplyOp(s, id).newest, s.moves)
  {
    hide Ordered, IndexOk, CacheOk, Agree, ClockBound, Shape;
    var s' := ApplyOp(s, id);
    ApplyInFlight(s.segs, s.ops, s.moves, id);
    assert OpOk(s.segs, s.moves, s.ops[id]);
    forall c, l | c in s.moves && l in s.moves[c]
      ensures MoveOk(s.segs, s.active, s'.ops, s'.newest, s.moves, l, s.moves[c][l])
    {
      var m := s.moves[c][l];
      assert MoveOk(s.segs, s.active, s.ops, s.newest, s.moves, l, m);
      ApplyNewestMap(s, id, At(s.segs, l).key);
      MoveFrame(s.segs, s.active, s.ops, s.newest, s.moves, l, m, s.segs, s.active, s'.ops, s.moves);
    }
  }

  lemma ApplyCacheOk(s: State, id: nat)
    requires Inv(s) && CanApply(s, id)
    ensures CacheOk(s.segs, ApplyOp(s, id).index, ApplyOp(s, id).ops, s.gets, ApplyOp(s, id).cache)
  {
    hide Ordered, MovesOk, Agree, ClockBound, Shape, NewestOk, IndexOk, LastOf, IsTomb, ApplyCache, ApplyNewest, WellFormed;
    var s' := ApplyOp(s, id);
    var op := s.ops[id];
    assert OpOk(s.segs, s.moves, op);
    forall k
      ensures k in s'.cache ==> k in s'.index && ValidLoc(s.segs, s'.index[k].loc) && s'.cache[k] == At(s.segs, s'.index[k].loc).value
      ensures !HasKey(op.blob, k) ==> (k in s'.index <==> k in s.index) && (k in s.index ==> s'.index[k] == s.index[k])
    {
      ApplyCacheAt(s.cache, op.blob.recs, k);
      ApplyIndexAt(s.index, op.blob.recs, op.phase.seg, op.phase.blob, k);
    }
  }

  lemma ApplyOpInv(s: State, id: nat)
    requires Inv(s) && CanApply(s, id)
    ensures Inv(ApplyOp(s, id))
  {
    hide Shape, Agree, OpsOk, Ordered, NewestOk, IndexOk, MovesOk, CacheOk;
    ApplyOrdered(s, id);
    ApplyNewestOk(s, id);
    ApplyIndexOk(s, id);
    ApplyMovesOk(s, id);
    ApplyCacheOk(s, id);
    DropOpOk(s.segs, s.ops, s.moves, id);
  }

  lemma DropOpOk(segs: Segments, ops: Ops, moves: Moves, id: nat)
    requires OpsOk(segs, ops, moves)
    ensures OpsOk(segs, ops - {id}, moves)
  {
    var ops' := ops - {id};
    forall j, j', k | j in ops' && j' in ops' && HasKey(ops'[j].blob, k) && HasKey(ops'[j'].blob, k)
      ensures j == j'
    {
      assert HasKey(ops[j].blob, k) && HasKey(ops[j'].blob, k);
    }
  }

  /** Acknowledging a write applies its records to the map clients read, in order. */
  lemma ApplyOpContents(s: State, id: nat)
    requires Inv(s) && CanApply(s, id)
    ensures Inv(ApplyOp(s, id))
    ensures Contents(ApplyOp(s, id)) == ApplyMap(Contents(s), s.ops[id].blob.recs)
  {
    hide Ordered, MovesOk, CacheOk, Agree, ClockBound, Shape, OpsOk;
    ApplyOpInv(s, id);
    var a, m := Contents(ApplyOp(s, id)), ApplyMap(Contents(s), s.ops[id].blob.recs);
    forall k ensures SameAt(a, m, k) {
      ApplyContentsAt(s, id, k);
    }
    SameEverywhere(a, m);
  }

  predicate SameAt(a: map<Key, Value>, m: map<Key, Value>, k: Key) {
    (k in a <==> k in m) && (k in m ==> a[k] == m[k])
  }

  lemma SameEverywhere(a: map<Key, Value>, m: map<Key, Value>)
    requires forall k :: SameAt(a, m, k)
    ensures a == m
  {
    forall k | k in a ensures k in m && a[k] == m[k] {
      assert SameAt(a, m, k);
    }
    forall k | k in m ensures k in a {
      assert SameAt(a, m, k);
    }
  }

  lemma ApplyContentsAt(s: State, id: nat, k: Key)
    requires Inv(s) && CanApply(s, id) && Inv(ApplyOp(s, id))
    ensures SameAt(Contents(ApplyOp(s, id)), ApplyMap(Contents(s), s.ops[id].blob.recs), k)
  {
    hide Ordered, MovesOk, CacheOk, Agree, ClockBound, Shape, NewestOk, ApplyNewest, WellFormed, LastOf;
    var op := s.ops[id];
    assert OpOk(s.segs, s.moves, op);
    ApplyCacheAt(Contents(s), op.blob.recs, k);
    ApplyIndexAt(s.index, op.blob.recs, op.phase.seg, op.phase.blob, k);
  }
}
