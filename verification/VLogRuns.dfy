/** Whole runs of the value log: clients, compactions, crashes and reopens, interleaved at will,
    refine a map that knows nothing of segments. */
module VLogRuns {
  import opened Bytes
  import opened Records
  import opened Batches
  import opened VLogState
  import opened VLogInv
  import opened VLogClient
  import opened VLogCompact
  import opened VLogRecover

  // ---- What a crash recovers ----

  /** The blob of the unacknowledged write `id` is among those the crash keeps. */
  predicate Survives(s: State, keep: map<nat, nat>, id: nat) {
    && id in s.ops && s.ops[id].phase.Written?
    && s.ops[id].phase.seg in keep && s.ops[id].phase.blob < keep[s.ops[id].phase.seg]
  }

  /** Unacknowledged writes committed one after the other. */
  function CommitAll(m: map<Key, Value>, ops: Ops, order: seq<nat>): map<Key, Value>
    requires forall i :: 0 <= i < |order| ==> order[i] in ops
  {
    if order == [] then m
    else ApplyMap(CommitAll(m, ops, order[..|order| - 1]), ops[order[|order| - 1]].blob.recs)
  }

  lemma {:induction false} CommitAllAt(s: State, m: map<Key, Value>, order: seq<nat>, k: Key)
    requires OpsOk(s.segs, s.ops, s.moves) && forall i :: 0 <= i < |order| ==> order[i] in s.ops
    ensures (forall i :: 0 <= i < |order| ==> !HasKey(s.ops[order[i]].blob, k)) ==> SameAt(CommitAll(m, s.ops, order), m, k)
    ensures forall i :: 0 <= i < |order| && HasKey(s.ops[order[i]].blob, k) ==>
              SameAt(CommitAll(m, s.ops, order), ApplyMap(m, s.ops[order[i]].blob.recs), k)
  {
    hide ApplyCache, OpOk, ValidLoc;
    if order != [] {
      var n := |order| - 1;
      var m1 := CommitAll(m, s.ops, order[..n]);
      CommitAllAt(s, m, order[..n], k);
      ApplyCacheAt(m1, s.ops[order[n]].blob.recs, k);
      ApplyCacheAt(m, s.ops[order[n]].blob.recs, k);
      forall i | 0 <= i < n && HasKey(s.ops[order[i]].blob, k)
        ensures SameAt(CommitAll(m, s.ops, order), ApplyMap(m, s.ops[order[i]].blob.recs), k)
      {
        assert order[..n][i] == order[i];
        if HasKey(s.ops[order[n]].blob, k) {
          assert order[i] == order[n];
        }
      }
    }
  }

  /** The record recovered for a key whose last write was unacknowledged but survived. */
  lemma SurvivorWins(s: State, keep: map<nat, nat>, id: nat, k: Key, w: map<Key, Loc>)
    requires Inv(s) && ValidKeep(s.segs, keep) && Survives(s, keep, id) && HasKey(s.ops[id].blob, k)
    requires IsWinners(Kept(s.segs, keep), w)
    ensures var segs' := Kept(s.segs, keep);
            k in w && ValidLoc(segs', w[k]) && At(segs', w[k]) == s.ops[id].blob.recs[LastOf(s.ops[id].blob.recs, k)]
  {
    hide CacheOk, IndexOk, MovesOk, ClockBound, NewestOk, Backed, Ordered, WellFormed;
    var segs' := Kept(s.segs, keep);
    var op := s.ops[id];
    assert OpOk(s.segs, s.moves, op);
    var i := LastOf(op.blob.recs, k);
    var l := Loc(op.phase.seg, op.phase.blob, i);
    KeptAt(s.segs, keep, l);
    assert Dominated(segs', w, l);
    KeptAt(s.segs, keep, w[k]);
    assert At(s.segs, l) == op.blob.recs[i];
    SurvivorIsNewest(s.segs, s.ops, s.moves, s.newest, id, k, w[k]);
    assert SameStamp(At(s.segs, w[k]), At(s.segs, l));
  }

  lemma SurvivorIsNewest(segs: Segments, ops: Ops, moves: Moves, newest: map<Key, Loc>, id: nat, k: Key, w: Loc)
    requires OpsOk(segs, ops, moves) && Ordered(segs, ops, newest)
    requires id in ops && HasKey(ops[id].blob, k) && ValidLoc(segs, w) && At(segs, w).key == k
    ensures At(segs, w).ts <= ops[id].blob.recs[LastOf(ops[id].blob.recs, k)].ts
  {
    hide WellFormed;
    assert OpOk(segs, moves, ops[id]);
    var i := LastOf(ops[id].blob.recs, k);
    if InFlight(ops, w) {
      var j :| j in ops && ops[j].phase == Written(w.seg, w.blob);
      assert OpOk(segs, moves, ops[j]);
      assert ops[j].blob.recs[w.pos].key == k;
      assert HasKey(ops[j].blob, k);
      assert w.pos <= i;
    } else {
      assert Dominated(segs, newest, w);
      assert ops[id].blob.recs[i].key == k;
    }
  }

  /** The record recovered for a key no surviving unacknowledged write touches. */
  lemma NewestSurvives(s: State, keep: map<nat, nat>, k: Key, w: map<Key, Loc>)
    requires Inv(s) && ValidKeep(s.segs, keep) && IsWinners(Kept(s.segs, keep), w)
    requires forall id :: Survives(s, keep, id) ==> !HasKey(s.ops[id].blob, k)
    ensures var segs' := Kept(s.segs, keep);
            (k in w <==> k in s.newest) && (k in w ==> ValidLoc(segs', w[k]) && At(segs', w[k]) == At(s.segs, s.newest[k]))
  {
    hide CacheOk, IndexOk, MovesOk, ClockBound, OpsOk;
    var segs' := Kept(s.segs, keep);
    if k in w {
      KeptAt(s.segs, keep, w[k]);
      if InFlight(s.ops, w[k]) {
        var id := FlightSurvives(s, keep, w[k]);
      }
      assert Dominated(s.segs, s.newest, w[k]);
    }
    if k in s.newest {
      var d := DurableCopy(s.segs, s.moves, s.newest[k]);
      KeptAt(s.segs, keep, d);
      assert Dominated(segs', w, d);
      assert SameStamp(At(s.segs, w[k]), At(s.segs, s.newest[k]));
    }
  }

  /** A kept record in flight belongs to a write that survives. */
  lemma FlightSurvives(s: State, keep: map<nat, nat>, l: Loc) returns (id: nat)
    requires Inv(s) && ValidKeep(s.segs, keep) && ValidLoc(Kept(s.segs, keep), l) && ValidLoc(s.segs, l) && InFlight(s.ops, l)
    ensures Survives(s, keep, id) && HasKey(s.ops[id].blob, At(s.segs, l).key)
  {
    id :| id in s.ops && s.ops[id].phase == Written(l.seg, l.blob);
    assert OpOk(s.segs, s.moves, s.ops[id]);
    assert s.ops[id].blob.recs[l.pos].key == At(s.segs, l).key;
  }

  /** `order` lists the surviving unacknowledged writes. */
  ghost predicate Lists(s: State, keep: map<nat, nat>, order: seq<nat>) {
    && (forall i :: 0 <= i < |order| ==> Survives(s, keep, order[i]))
    && (forall id :: Survives(s, keep, id) ==> id in order)
  }

  lemma Readable(s: State)
    requires Inv(s)
    ensures forall k :: k in s.index ==> ValidLoc(s.segs, s.index[k].loc)
  {
    hide Ordered, MovesOk, CacheOk, Agree, ClockBound, OpsOk;
  }

  lemma InvOps(s: State)
    requires Inv(s)
    ensures OpsOk(s.segs, s.ops, s.moves)
  {
    hide OpsOk;
  }

  /** What clients read of `k`: its newest record, unless a tombstone. */
  lemma ReadsNewest(s: State, k: Key)
    requires Inv(s)
    ensures (k in Contents(s) <==> k in s.newest && ValidLoc(s.segs, s.newest[k]) && !IsTomb(At(s.segs, s.newest[k])))
    ensures k in Contents(s) ==> Contents(s)[k] == At(s.segs, s.newest[k]).value
    ensures k in s.newest ==> ValidLoc(s.segs, s.newest[k])
  {
    hide Ordered, MovesOk, CacheOk, Agree, ClockBound, OpsOk;
  }

  lemma CrashAt(s: State, keep: map<nat, nat>, clock: nat, order: seq<nat>, newest: map<Key, Loc>, k: Key)
    requires Inv(s) && ValidKeep(s.segs, keep) && ClockPast(Kept(s.segs, keep), clock) && Lists(s, keep, order)
    requires IsWinners(Kept(s.segs, keep), newest)
    requires Inv(Opened(Kept(s.segs, keep), s.active, clock, newest))
    ensures SameAt(Contents(Opened(Kept(s.segs, keep), s.active, clock, newest)), CommitAll(Contents(s), s.ops, order), k)
  {
    hide Inv, Winners, Contents, Kept, ApplyCache, CommitAll, IndexOf;
    Readable(s);
    Readable(Opened(Kept(s.segs, keep), s.active, clock, newest));
    ReadsNewest(s, k);
    ReadsNewest(Opened(Kept(s.segs, keep), s.active, clock, newest), k);
    assert OpsOk(s.segs, s.ops, s.moves) by { InvOps(s); }
    CommitAllAt(s, Contents(s), order, k);
    if i :| 0 <= i < |order| && HasKey(s.ops[order[i]].blob, k) {
      SurvivorWins(s, keep, order[i], k, newest);
      ApplyCacheAt(Contents(s), s.ops[order[i]].blob.recs, k);
    } else {
      NewestSurvives(s, keep, k, newest);
    }
  }

  /** Recovery: whatever the crash kept of the unsynced tails, the reopened store shows the
      acknowledged writes and exactly the unacknowledged ones whose blob survived whole. */
  lemma CrashRecovers(s: State, keep: map<nat, nat>, clock: nat, order: seq<nat>, newest: map<Key, Loc>)
    requires Inv(s) && ValidKeep(s.segs, keep) && ClockPast(Kept(s.segs, keep), clock) && Lists(s, keep, order)
    requires IsWinners(Kept(s.segs, keep), newest)
    ensures Inv(Opened(Kept(s.segs, keep), s.active, clock, newest))
    ensures Contents(Opened(Kept(s.segs, keep), s.active, clock, newest)) == CommitAll(Contents(s), s.ops, order)
  {
    CrashInv(s, keep, clock, newest);
    var a, m := Contents(Opened(Kept(s.segs, keep), s.active, clock, newest)), CommitAll(Contents(s), s.ops, order);
    forall k ensures SameAt(a, m, k) {
      CrashAt(s, keep, clock, order, newest, k);
    }
    SameEverywhere(a, m);
  }

  // ---- The machine ----

  /** A crash keeps `keep` whole blobs of the active segment and cuts the next one after `torn` of its records.
      A cut inside a batch of two or more whose header survived is excluded: its records stay in the file, and
      the records of the next session behind them are no longer recovered as written. */
  predicate CleanCut(blobs: seq<Blob>, keep: nat, torn: nat) {
    torn > 0 ==> keep < |blobs| && blobs[keep].header.Some? && torn <= |blobs[keep].recs| && |blobs[keep].recs| < 2
  }

  /** The store is reopened on what the crash kept, with its clock past every record there. */
  ghost predicate CanCrash(s: State, keep: map<nat, nat>, torn: nat, clock: nat, order: seq<nat>) {
    && ValidKeep(s.segs, keep) && s.active in keep && CleanCut(s.segs[s.active].blobs, keep[s.active], torn)
    && ClockPast(Kept(s.segs, keep), clock) && Lists(s, keep, order)
  }

  datatype Action =
    | DoBeginSet(id: nat, key: Key, value: Value)
    | DoBeginDel(id: nat, key: Key)
    | DoBeginSetMany(id: nat, pairs: seq<(Key, Value)>)
    | DoReserve(id: nat)
    | DoWrite(id: nat)
    | DoSync(seg: nat)
    | DoAck(id: nat)
    | DoRotate
    | DoBeginGet(id: nat, key: Key)
    | DoFinishGet(id: nat)
    | DoEvict(key: Key)
    | DoBeginCompact(src: nat)
    | DoExamine(src: nat, loc: Loc)
    | DoReserveMove(src: nat, loc: Loc)
    | DoWriteMove(src: nat, loc: Loc)
    | DoFinishMove(src: nat, loc: Loc)
    | DoUnlink(src: nat)
    | DoCrash(keep: map<nat, nat>, torn: nat, clock: nat, order: seq<nat>, newest: map<Key, Loc>)

  ghost predicate Enabled(s: State, a: Action) {
    match a
    case DoBeginSet(id, k, v) => id !in s.ops && Idle(s, k)
    case DoBeginDel(id, k) => id !in s.ops && Idle(s, k) && k in s.index
    case DoBeginSetMany(id, pairs) =>
      id !in s.ops && 1 <= |pairs| <= U32_MAX && forall i :: 0 <= i < |pairs| ==> Idle(s, pairs[i].0)
    case DoReserve(id) => id in s.ops && s.ops[id].phase.Drawn?
    case DoWrite(id) => id in s.ops && s.ops[id].phase.Reserved? && s.ops[id].phase.seg in s.segs
    case DoSync(x) => x in s.segs
    case DoAck(id) => CanApply(s, id)
    case DoRotate => true
    case DoBeginGet(id, k) => id !in s.gets && Unwritten(s, k) && k in s.index && ValidLoc(s.segs, s.index[k].loc)
    case DoFinishGet(id) => id in s.gets
    case DoEvict(k) => true
    case DoBeginCompact(src) => CanCompact(s, src)
    case DoExamine(src, l) => src in s.moves && ValidLoc(s.segs, l) && l.seg == src && l !in s.moves[src]
    case DoReserveMove(src, l) => src in s.moves && l in s.moves[src] && s.moves[src][l].Chosen?
    case DoWriteMove(src, l) => CanWriteMove(s, src, l) && ValidLoc(s.segs, l) && s.moves[src][l].seg in s.segs
    case DoFinishMove(src, l) => CanFinishMove(s, src, l) && ValidLoc(s.segs, l)
    case DoUnlink(src) => CanUnlink(s, src)
    case DoCrash(keep, torn, clock, order, newest) =>
      CanCrash(s, keep, torn, clock, order) && IsWinners(Kept(s.segs, keep), newest)
  }

  ghost function Next(s: State, a: Action): State
    requires Enabled(s, a)
  {
    match a
    case DoBeginSet(id, k, v) => BeginSet(s, id, k, v)
    case DoBeginDel(id, k) => BeginDel(s, id, k)
    case DoBeginSetMany(id, pairs) => BeginSetMany(s, id, pairs)
    case DoReserve(id) => ReserveOp(s, id)
    case DoWrite(id) => WriteOp(s, id)
    case DoSync(x) => SyncSeg(s, x)
    case DoAck(id) => ApplyOp(s, id)
    case DoRotate => Rotate(s)
    case DoBeginGet(id, k) => BeginGet(s, id, k)
    case DoFinishGet(id) => FinishGet(s, id)
    case DoEvict(k) => Evict(s, k)
    case DoBeginCompact(src) => BeginCompact(s, src)
    case DoExamine(src, l) => Examine(s, src, l)
    case DoReserveMove(src, l) => ReserveMove(s, src, l)
    case DoWriteMove(src, l) => WriteMove(s, src, l)
    case DoFinishMove(src, l) => FinishMove(s, src, l)
    case DoUnlink(src) => Unlink(s, src)
    case DoCrash(keep, torn, clock, order, newest) => Opened(Kept(s.segs, keep), s.active, clock, newest)
  }

  predicate IsBegin(a: Action) {
    a.DoBeginSet? || a.DoBeginDel? || a.DoBeginSetMany?
  }

  predicate IsRead(a: Action) {
    a.DoBeginGet? || a.DoFinishGet? || a.DoEvict?
  }

  predicate IsCommit(a: Action) {
    a.DoReserve? || a.DoWrite? || a.DoSync? || a.DoRotate?
  }

  predicate IsChoice(a: Action) {
    a.DoBeginCompact? || a.DoExamine? || a.DoReserveMove?
  }

  predicate IsMove(a: Action) {
    a.DoWriteMove? || a.DoFinishMove? || a.DoUnlink?
  }

  predicate IsCompaction(a: Action) {
    IsChoice(a) || IsMove(a)
  }

  lemma BeginStepInv(s: State, a: Action)
    requires Inv(s) && IsBegin(a) && Enabled(s, a)
    ensures Inv(Next(s, a))
  {
    hide Inv, Idle;
    match a
    case DoBeginSet(id, k, v) => BeginSetInv(s, id, k, v);
    case DoBeginDel(id, k) => BeginDelInv(s, id, k);
    case DoBeginSetMany(id, pairs) => BeginSetManyInv(s, id, pairs);
  }

  lemma ReadStepInv(s: State, a: Action)
    requires Inv(s) && IsRead(a) && Enabled(s, a)
    ensures Inv(Next(s, a))
  {
    hide Inv, CanUnlink, CanCompact;
    match a
    case DoBeginGet(id, k) => BeginGetInv(s, id, k);
    case DoFinishGet(id) => FinishGetInv(s, id);
    case DoEvict(k) => EvictInv(s, k);
  }

  lemma CommitStepInv(s: State, a: Action)
    requires Inv(s) && IsCommit(a) && Enabled(s, a)
    ensures Inv(Next(s, a))
  {
    hide Inv;
    match a
    case DoReserve(id) => ReserveOpInv(s, id);
    case DoWrite(id) => WriteOpInv(s, id);
    case DoSync(x) => SyncSegInv(s, x);
    case DoRotate => RotateInv(s);
  }

  lemma ChoiceStepInv(s: State, a: Action)
    requires Inv(s) && IsChoice(a) && Enabled(s, a)
    ensures Inv(Next(s, a))
  {
    hide Inv;
    match a
    case DoBeginCompact(src) => BeginCompactInv(s, src);
    case DoExamine(src, l) => ExamineInv(s, src, l);
    case DoReserveMove(src, l) => ReserveMoveInv(s, src, l);
  }

  lemma MoveStepInv(s: State, a: Action)
    requires Inv(s) && IsMove(a) && Enabled(s, a)
    ensures Inv(Next(s, a))
  {
    hide Inv, CacheOk;
    match a
    case DoWriteMove(src, l) => WriteMoveInv(s, src, l);
    case DoFinishMove(src, l) => FinishMoveInv(s, src, l);
    case DoUnlink(src) => UnlinkInv(s, src);
  }

  /** Every step keeps the invariant. */
  lemma StepInv(s: State, a: Action)
    requires Inv(s) && Enabled(s, a)
    ensures Inv(Next(s, a))
  {
    if IsBegin(a) {
      BeginStepInv(s, a);
    } else if IsRead(a) {
      ReadStepInv(s, a);
    } else if IsCommit(a) {
      CommitStepInv(s, a);
    } else if IsChoice(a) {
      ChoiceStepInv(s, a);
    } else if IsMove(a) {
      MoveStepInv(s, a);
    } else if a.DoAck? {
      ApplyOpInv(s, a.id);
    } else {
      CrashInv(s, a.keep, a.clock, a.newest);
    }
  }
}
