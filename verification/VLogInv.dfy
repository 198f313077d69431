/** The invariant of the value log and its preservation by every step. */
module VLogInv {
  import opened Records
  import opened Batches
  import opened VLogState

  // ---- The invariant ----

  ghost predicate Shape(segs: Segments, active: nat) {
    && active in segs
    && (forall x :: x in segs ==> x <= active && segs[x].synced <= |segs[x].blobs|)
    && (forall x, b :: x in segs && 0 <= b < |segs[x].blobs| ==> WellFormed(segs[x].blobs[b]))
  }

  ghost predicate ClockBound(segs: Segments, ops: Ops, clock: nat) {
    && (forall l :: ValidLoc(segs, l) ==> At(segs, l).ts < clock)
    && (forall id, i :: id in ops && 0 <= i < |ops[id].blob.recs| ==> ops[id].blob.recs[i].ts < clock)
  }

  predicate SameStamp(r: Record, r': Record) {
    r.key == r'.key && r.ts == r'.ts
  }

  /** A timestamp of a key identifies the record: relocation only ever copies. */
  ghost predicate Agree(segs: Segments) {
    forall l, m :: ValidLoc(segs, l) && ValidLoc(segs, m) && SameStamp(At(segs, l), At(segs, m)) ==>
      At(segs, l) == At(segs, m)
  }

  ghost predicate OpOk(segs: Segments, moves: Moves, op: ClientOp) {
    && WellFormed(op.blob)
    && (forall i, j :: 0 <= i < j < |op.blob.recs| ==> op.blob.recs[i].ts < op.blob.recs[j].ts)
    && (op.phase.Reserved? ==> op.phase.seg in segs && op.phase.seg !in moves)
    && (op.phase.Written? ==>
          && op.phase.seg in segs && op.phase.seg !in moves
          && op.phase.blob < |segs[op.phase.seg].blobs|
          && segs[op.phase.seg].blobs[op.phase.blob] == op.blob)
  }

  ghost predicate OpsOk(segs: Segments, ops: Ops, moves: Moves) {
    && (forall id :: id in ops ==> OpOk(segs, moves, ops[id]))
    && (forall id, id', k :: id in ops && id' in ops && HasKey(ops[id].blob, k) && HasKey(ops[id'].blob, k) ==> id == id')
  }

  /** Every applied record is at most as new as the newest of its key; every pending one is newer. */
  ghost predicate Ordered(segs: Segments, ops: Ops, newest: map<Key, Loc>) {
    && (forall l :: ValidLoc(segs, l) && !InFlight(ops, l) ==>
          var k := At(segs, l).key;
          k in newest && ValidLoc(segs, newest[k]) && At(segs, l).ts <= At(segs, newest[k]).ts)
    && (forall id, i :: id in ops && 0 <= i < |ops[id].blob.recs| ==>
          var r := ops[id].blob.recs[i];
          r.key in newest && ValidLoc(segs, newest[r.key]) ==> At(segs, newest[r.key]).ts < r.ts)
  }

  /** The record survives any crash: it is durable, or it is the relocated copy of a record that
      does and whose segment its compaction has not unlinked yet. */
  ghost predicate Backed(segs: Segments, moves: Moves, l: Loc)
    decreases l.seg
  {
    && ValidLoc(segs, l)
    && (Durable(segs, l) ||
        exists c, l0 :: c in moves && l0 in moves[c] && moves[c][l0] == Moved(l) && l0.seg == c < l.seg &&
          Backed(segs, moves, l0) && At(segs, l0) == At(segs, l))
  }

  ghost predicate NewestOk(segs: Segments, ops: Ops, moves: Moves, newest: map<Key, Loc>) {
    forall k :: k in newest ==>
      Backed(segs, moves, newest[k]) && At(segs, newest[k]).key == k && !InFlight(ops, newest[k])
  }

  /** The index is the newest-record map without its tombstones. */
  ghost predicate IndexOk(segs: Segments, newest: map<Key, Loc>, index: map<Key, Entry>) {
    && (forall k :: k in index ==>
          && k in newest && index[k].loc == newest[k] && ValidLoc(segs, newest[k])
          && !IsTomb(At(segs, newest[k])) && index[k].size == SizeOf(At(segs, newest[k])))
    && (forall k :: k in newest && ValidLoc(segs, newest[k]) && !IsTomb(At(segs, newest[k])) ==> k in index)
  }

  ghost predicate CopyOf(segs: Segments, ops: Ops, l: Loc, d: Loc) {
    ValidLoc(segs, l) && ValidLoc(segs, d) && At(segs, d) == At(segs, l) && l.seg < d.seg && !InFlight(ops, d)
  }

  ghost predicate LeftBehind(segs: Segments, newest: map<Key, Loc>, l: Loc)
    requires ValidLoc(segs, l)
  {
    At(segs, l).key in newest ==> newest[At(segs, l).key] != l
  }

  ghost predicate MoveOk(segs: Segments, active: nat, ops: Ops, newest: map<Key, Loc>, moves: Moves, l: Loc, m: Move) {
    && ValidLoc(segs, l)
    && match m
       case Skipped => LeftBehind(segs, newest, l)
       case Chosen => true
       case Slot(x) => x in segs && x !in moves && l.seg < x
       case Copied(d) => CopyOf(segs, ops, l, d) && d.seg !in moves
       case Moved(d) => LeftBehind(segs, newest, l) && d.seg <= active && l.seg < d.seg && (d.seg in segs ==> CopyOf(segs, ops, l, d))
  }

  ghost predicate MovesOk(segs: Segments, active: nat, ops: Ops, newest: map<Key, Loc>, moves: Moves) {
    && (forall c :: c in moves ==> c in segs && c != active)
    && (forall c, l :: c in moves && l in moves[c] ==> l.seg == c && MoveOk(segs, active, ops, newest, moves, l, moves[c][l]))
  }

  ghost predicate CacheOk(segs: Segments, index: map<Key, Entry>, ops: Ops, gets: map<nat, Read>, cache: map<Key, Value>) {
    && (forall k :: k in cache ==> k in index && ValidLoc(segs, index[k].loc) && cache[k] == At(segs, index[k].loc).value)
    && (forall id :: id in gets ==>
          var k := gets[id].key;
          k in index && ValidLoc(segs, index[k].loc) && gets[id].value == At(segs, index[k].loc).value)
    && (forall id, op :: id in gets && op in ops ==> !HasKey(ops[op].blob, gets[id].key))
  }

  ghost predicate Inv(s: State) {
    && Shape(s.segs, s.active)
    && ClockBound(s.segs, s.ops, s.clock)
    && Agree(s.segs)
    && OpsOk(s.segs, s.ops, s.moves)
    && Ordered(s.segs, s.ops, s.newest)
    && NewestOk(s.segs, s.ops, s.moves, s.newest)
    && IndexOk(s.segs, s.newest, s.index)
    && MovesOk(s.segs, s.active, s.ops, s.newest, s.moves)
    && CacheOk(s.segs, s.index, s.ops, s.gets, s.cache)
  }

  // ---- What a step that only adds to the files keeps ----

  /** Every segment keeps its blobs; blobs may be added at its end and synced, segments added. */
  ghost predicate Grows(segs: Segments, segs': Segments) {
    forall x :: x in segs ==>
      && x in segs' && |segs[x].blobs| <= |segs'[x].blobs| && segs[x].synced <= segs'[x].synced
      && forall b :: 0 <= b < |segs[x].blobs| ==> segs'[x].blobs[b] == segs[x].blobs[b]
  }

  lemma GrowsAt(segs: Segments, segs': Segments, l: Loc)
    requires Grows(segs, segs') && ValidLoc(segs, l)
    ensures ValidLoc(segs', l) && At(segs', l) == At(segs, l) && (Durable(segs, l) ==> Durable(segs', l))
  {
  }

  /** The records of `segs'` are those of `segs`. */
  ghost predicate SameRecords(segs: Segments, segs': Segments) {
    forall l :: ValidLoc(segs', l) ==> ValidLoc(segs, l) && At(segs', l) == At(segs, l)
  }

  lemma AppendGrows(segs: Segments, x: nat, b: Blob)
    requires x in segs
    ensures Grows(segs, Append(segs, x, b))
    ensures forall l :: ValidLoc(Append(segs, x, b), l) && !ValidLoc(segs, l) ==>
              l.seg == x && l.blob == |segs[x].blobs| && l.pos < |b.recs| && At(Append(segs, x, b), l) == b.recs[l.pos]
  {
  }

  ghost predicate MovesGrow(moves: Moves, moves': Moves) {
    forall c, l :: c in moves && l in moves[c] && moves[c][l].Moved? ==>
      c in moves' && l in moves'[c] && moves'[c][l] == moves[c][l]
  }

  lemma {:induction false} BackedMono(segs: Segments, moves: Moves, segs': Segments, moves': Moves, l: Loc)
    requires Grows(segs, segs') && MovesGrow(moves, moves') && Backed(segs, moves, l)
    ensures Backed(segs', moves', l)
    decreases l.seg
  {
    GrowsAt(segs, segs', l);
    if !Durable(segs, l) {
      var c, l0 :| c in moves && l0 in moves[c] && moves[c][l0] == Moved(l) && l0.seg == c < l.seg &&
        Backed(segs, moves, l0) && At(segs, l0) == At(segs, l);
      BackedMono(segs, moves, segs', moves', l0);
      GrowsAt(segs, segs', l0);
      assert moves'[c][l0] == Moved(l);
    }
  }

  /** A backed record has a durable copy. */
  lemma {:induction false} DurableCopy(segs: Segments, moves: Moves, l: Loc) returns (d: Loc)
    requires Backed(segs, moves, l)
    ensures Durable(segs, d) && At(segs, d) == At(segs, l)
    decreases l.seg
  {
    if Durable(segs, l) {
      d := l;
    } else {
      var c, l0 :| c in moves && l0 in moves[c] && moves[c][l0] == Moved(l) && l0.seg == c < l.seg &&
        Backed(segs, moves, l0) && At(segs, l0) == At(segs, l);
      d := DurableCopy(segs, moves, l0);
    }
  }

  /** `ops'` puts no record of `segs` in flight that `ops` did not. */
  ghost predicate NoNewFlight(segs: Segments, ops: Ops, ops': Ops) {
    forall l :: ValidLoc(segs, l) && InFlight(ops', l) ==> InFlight(ops, l)
  }

  lemma NewestFrame(segs: Segments, ops: Ops, moves: Moves, newest: map<Key, Loc>, segs': Segments, ops': Ops, moves': Moves)
    requires NewestOk(segs, ops, moves, newest)
    requires Grows(segs, segs') && MovesGrow(moves, moves') && NoNewFlight(segs, ops, ops')
    ensures NewestOk(segs', ops', moves', newest)
  {
    forall k | k in newest
      ensures Backed(segs', moves', newest[k]) && At(segs', newest[k]).key == k && !InFlight(ops', newest[k])
    {
      BackedMono(segs, moves, segs', moves', newest[k]);
      GrowsAt(segs, segs', newest[k]);
    }
  }

  /** The newest records exist; enough of `NewestOk` for what follows. */
  ghost predicate NewestValid(segs: Segments, newest: map<Key, Loc>) {
    forall k :: k in newest ==> ValidLoc(segs, newest[k]) && At(segs, newest[k]).key == k
  }

  lemma IndexFrame(segs: Segments, newest: map<Key, Loc>, index: map<Key, Entry>, segs': Segments)
    requires IndexOk(segs, newest, index) && NewestValid(segs, newest) && Grows(segs, segs')
    ensures IndexOk(segs', newest, index) && NewestValid(segs', newest)
  {
    forall k | k in newest
      ensures ValidLoc(segs', newest[k]) && At(segs', newest[k]) == At(segs, newest[k])
    {
      GrowsAt(segs, segs', newest[k]);
    }
  }

  lemma CacheFrame(segs: Segments, index: map<Key, Entry>, ops: Ops, gets: map<nat, Read>, cache: map<Key, Value>,
                   segs': Segments, ops': Ops)
    requires CacheOk(segs, index, ops, gets, cache) && Grows(segs, segs')
    requires forall id :: id in ops' ==> id in ops && ops'[id].blob == ops[id].blob
    ensures CacheOk(segs', index, ops', gets, cache)
  {
    forall k | k in index && ValidLoc(segs, index[k].loc)
      ensures ValidLoc(segs', index[k].loc) && At(segs', index[k].loc) == At(segs, index[k].loc)
    {
      GrowsAt(segs, segs', index[k].loc);
    }
  }

  /** No op or relocation that is bound to a segment is bound to one of `moves'`. */
  ghost predicate UnboundFrom(ops: Ops, moves: Moves, moves': Moves) {
    && (forall id :: id in ops && !ops[id].phase.Drawn? ==> ops[id].phase.seg !in moves')
    && (forall c, l :: c in moves && l in moves[c] ==>
          && (moves[c][l].Slot? ==> moves[c][l].seg !in moves')
          && (moves[c][l].Copied? ==> moves[c][l].dst.seg !in moves'))
  }

  lemma BoundElsewhere(segs: Segments, active: nat, ops: Ops, newest: map<Key, Loc>, moves: Moves)
    requires OpsOk(segs, ops, moves) && MovesOk(segs, active, ops, newest, moves)
    ensures UnboundFrom(ops, moves, moves)
  {
    forall id | id in ops && !ops[id].phase.Drawn? ensures ops[id].phase.seg !in moves {
      assert OpOk(segs, moves, ops[id]);
    }
    forall c, l | c in moves && l in moves[c]
      ensures moves[c][l].Slot? ==> moves[c][l].seg !in moves
      ensures moves[c][l].Copied? ==> moves[c][l].dst.seg !in moves
    {
      assert MoveOk(segs, active, ops, newest, moves, l, moves[c][l]);
    }
  }

  lemma OpsFrame(segs: Segments, ops: Ops, moves: Moves, segs': Segments, moves': Moves)
    requires OpsOk(segs, ops, moves) && Grows(segs, segs') && UnboundFrom(ops, moves, moves')
    ensures OpsOk(segs', ops, moves')
  {
    forall id | id in ops ensures OpOk(segs', moves', ops[id]) {
      assert OpOk(segs, moves, ops[id]);
    }
  }

  lemma MoveFrame(segs: Segments, active: nat, ops: Ops, newest: map<Key, Loc>, moves: Moves, l: Loc, m: Move,
                  segs': Segments, active': nat, ops': Ops, moves': Moves)
    requires MoveOk(segs, active, ops, newest, moves, l, m)
    requires Grows(segs, segs') && NoNewFlight(segs, ops, ops')
    requires active <= active' && (forall x :: x in segs' && x !in segs ==> active < x)
    requires m.Slot? ==> m.seg !in moves'
    requires m.Copied? ==> m.dst.seg !in moves'
    ensures MoveOk(segs', active', ops', newest, moves', l, m)
  {
    GrowsAt(segs, segs', l);
    if m.Copied? || (m.Moved? && m.dst.seg in segs) {
      assert CopyOf(segs, ops, l, m.dst);
      GrowsAt(segs, segs', m.dst);
    }
  }

  lemma MovesFrame(segs: Segments, active: nat, ops: Ops, newest: map<Key, Loc>, moves: Moves,
                   segs': Segments, active': nat, ops': Ops)
    requires MovesOk(segs, active, ops, newest, moves)
    requires Grows(segs, segs') && NoNewFlight(segs, ops, ops')
    requires active <= active' && active' !in moves && (forall x :: x in segs' && x !in segs ==> active < x)
    ensures MovesOk(segs', active', ops', newest, moves)
  {
    forall c, l | c in moves && l in moves[c]
      ensures MoveOk(segs', active', ops', newest, moves, l, moves[c][l])
    {
      MoveFrame(segs, active, ops, newest, moves, l, moves[c][l], segs', active', ops', moves);
    }
  }

  /** A record that is neither old nor in flight must be no newer than the newest of its key. */
  ghost predicate Dominated(segs: Segments, newest: map<Key, Loc>, l: Loc)
    requires ValidLoc(segs, l)
  {
    var k := At(segs, l).key;
    k in newest && ValidLoc(segs, newest[k]) && At(segs, l).ts <= At(segs, newest[k]).ts
  }

  lemma OrderedFrame(segs: Segments, ops: Ops, newest: map<Key, Loc>, segs': Segments, ops': Ops)
    requires Ordered(segs, ops, newest) && NewestValid(segs, newest) && Grows(segs, segs')
    requires forall l :: ValidLoc(segs, l) && InFlight(ops, l) ==> InFlight(ops', l)
    requires forall id :: id in ops' ==> id in ops && ops'[id].blob == ops[id].blob
    requires forall l :: ValidLoc(segs', l) && !ValidLoc(segs, l) && !InFlight(ops', l) ==> Dominated(segs', newest, l)
    ensures Ordered(segs', ops', newest)
  {
    forall l | ValidLoc(segs', l) && !InFlight(ops', l) ensures Dominated(segs', newest, l) {
      if ValidLoc(segs, l) {
        GrowsAt(segs, segs', l);
        GrowsAt(segs, segs', newest[At(segs, l).key]);
      }
    }
    forall k | k in newest ensures ValidLoc(segs', newest[k]) && At(segs', newest[k]) == At(segs, newest[k]) {
      GrowsAt(segs, segs', newest[k]);
    }
  }

  lemma AgreeFrame(segs: Segments, segs': Segments)
    requires Agree(segs) && SameRecords(segs, segs')
    ensures Agree(segs')
  {
  }

  // ---- Client steps ----

  /** The frame of a step that leaves the files alone and adds the op `id`. */
  lemma BeginInv(s: State, s': State, id: nat, op: ClientOp)
    requires Inv(s) && id !in s.ops && op.phase.Drawn? && WellFormed(op.blob)
    requires forall i :: 0 <= i < |op.blob.recs| ==> Idle(s, op.blob.recs[i].key)
    requires forall i :: 0 <= i < |op.blob.recs| ==> s.clock <= op.blob.recs[i].ts < s'.clock
    requires forall i, j :: 0 <= i < j < |op.blob.recs| ==> op.blob.recs[i].ts < op.blob.recs[j].ts
    requires s' == s.(clock := s'.clock, ops := s.ops[id := op])
    ensures Inv(s')
  {
    hide Shape, Agree, IndexOk;
    assert s.clock <= op.blob.recs[0].ts < s'.clock;
    BeginInFlight(s.ops, id, op);
    BeginOpsOk(s.segs, s.ops, s.moves, id, op);
    BeginOrdered(s.segs, s.ops, s.newest, s.clock, id, op);
    NewestFrame(s.segs, s.ops, s.moves, s.newest, s.segs, s'.ops, s.moves);
    MovesFrame(s.segs, s.active, s.ops, s.newest, s.moves, s.segs, s.active, s'.ops);
    BeginCache(s.segs, s.index, s.ops, s.gets, s.cache, id, op);
  }

  lemma BeginInFlight(ops: Ops, id: nat, op: ClientOp)
    requires id !in ops && op.phase.Drawn?
    ensures forall l :: InFlight(ops, l) <==> InFlight(ops[id := op], l)
  {
    InFlightSame(ops, ops[id := op]);
  }

  lemma BeginOpsOk(segs: Segments, ops: Ops, moves: Moves, id: nat, op: ClientOp)
    requires OpsOk(segs, ops, moves) && id !in ops && OpOk(segs, moves, op)
    requires forall i, j :: 0 <= i < |op.blob.recs| && j in ops ==> !HasKey(ops[j].blob, op.blob.recs[i].key)
    ensures OpsOk(segs, ops[id := op], moves)
  {
  }

  lemma BeginOrdered(segs: Segments, ops: Ops, newest: map<Key, Loc>, clock: nat, id: nat, op: ClientOp)
    requires Ordered(segs, ops, newest) && id !in ops && op.phase.Drawn? && ClockBound(segs, ops, clock)
    requires forall i :: 0 <= i < |op.blob.recs| ==> clock <= op.blob.recs[i].ts
    ensures Ordered(segs, ops[id := op], newest)
  {
    BeginInFlight(ops, id, op);
  }

  lemma BeginCache(segs: Segments, index: map<Key, Entry>, ops: Ops, gets: map<nat, Read>, cache: map<Key, Value>, id: nat, op: ClientOp)
    requires CacheOk(segs, index, ops, gets, cache)
    requires forall i, g :: 0 <= i < |op.blob.recs| && g in gets ==> gets[g].key != op.blob.recs[i].key
    ensures CacheOk(segs, index, ops[id := op], gets, cache)
  {
  }

  /** Ops that are written at the same places leave the same records in flight. */
  lemma InFlightSame(ops: Ops, ops': Ops)
    requires forall id :: id in ops && ops[id].phase.Written? ==> id in ops' && ops'[id].phase == ops[id].phase
    requires forall id :: id in ops' && ops'[id].phase.Written? ==> id in ops && ops'[id].phase == ops[id].phase
    ensures forall l :: InFlight(ops, l) <==> InFlight(ops', l)
  {
    forall l | InFlight(ops, l) ensures InFlight(ops', l) {
      var j :| j in ops && ops[j].phase == Written(l.seg, l.blob);
      assert ops'[j].phase == Written(l.seg, l.blob);
    }
    forall l | InFlight(ops', l) ensures InFlight(ops, l) {
      var j :| j in ops' && ops'[j].phase == Written(l.seg, l.blob);
      assert ops[j].phase == Written(l.seg, l.blob);
    }
  }
}
