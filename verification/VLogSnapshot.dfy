/** Recovery from an index snapshot: the `Some(snap)` branch of `open_shared`. The index is seeded
    from the snapshot and the segments from its high-water mark on are replayed, last record wins. */
module VLogSnapshot {
  import opened Bytes
  import opened Records
  import opened Batches
  import opened VLogState
  import opened VLogInv
  import opened VLogClient
  import opened VLogRecover
  import opened VLogPlaces
  import opened VLogCompact
  import opened VLogRuns

  // ---- The replay ----

  function ReplayRecord(segs: Segments, index: map<Key, Entry>, l: Loc): map<Key, Entry>
    requires ValidLoc(segs, l)
  {
    var r := At(segs, l);
    if IsTomb(r) then index - {r.key} else index[r.key := Entry(l, SizeOf(r))]
  }

  function ReplayBlob(segs: Segments, index: map<Key, Entry>, x: nat, b: nat, p: nat): map<Key, Entry>
    requires x in segs && b < |segs[x].blobs| && p <= |segs[x].blobs[b].recs|
    decreases p
  {
    if p == 0 then index else ReplayRecord(segs, ReplayBlob(segs, index, x, b, p - 1), Loc(x, b, p - 1))
  }

  function ReplaySegment(segs: Segments, index: map<Key, Entry>, x: nat, b: nat): map<Key, Entry>
    requires x in segs && b <= |segs[x].blobs|
    decreases b
  {
    if b == 0 then index
    else ReplayBlob(segs, ReplaySegment(segs, index, x, b - 1), x, b - 1, |segs[x].blobs[b - 1].recs|)
  }

  /** Replay the segments with ids from `hwm` to below `x` over the seeded index. */
  function Replay(segs: Segments, entries: map<Key, Entry>, hwm: nat, x: nat): map<Key, Entry> {
    if x <= hwm then entries
    else if x - 1 in segs then ReplaySegment(segs, Replay(segs, entries, hwm, x - 1), x - 1, |segs[x - 1].blobs|)
    else Replay(segs, entries, hwm, x - 1)
  }

  // ---- What the replay computes ----

  predicate Tail(segs: Segments, hwm: nat, k: Key, l: Loc) {
    ValidLoc(segs, l) && hwm <= l.seg && At(segs, l).key == k
  }

  /** `l` is the last record of `k` from `hwm` on, before (`x`, `b`, `p`). */
  ghost predicate LastTail(segs: Segments, hwm: nat, k: Key, l: Loc, x: nat, b: nat, p: nat) {
    && Tail(segs, hwm, k, l) && Before(l, x, b, p)
    && forall m :: Tail(segs, hwm, k, m) && Before(m, x, b, p) ==> m == l || Before(m, l.seg, l.blob, l.pos)
  }

  /** The entry the index should hold for a key whose last record is at `l`. */
  predicate Reflects(segs: Segments, index: map<Key, Entry>, k: Key, l: Loc) {
    ValidLoc(segs, l) &&
    if IsTomb(At(segs, l)) then k !in index else k in index && index[k] == Entry(l, SizeOf(At(segs, l)))
  }

  ghost predicate ReplayedAt(segs: Segments, entries: map<Key, Entry>, index: map<Key, Entry>, hwm: nat, k: Key, x: nat, b: nat, p: nat) {
    if exists l :: Tail(segs, hwm, k, l) && Before(l, x, b, p)
    then exists l :: LastTail(segs, hwm, k, l, x, b, p) && Reflects(segs, index, k, l)
    else (k in index <==> k in entries) && (k in index ==> index[k] == entries[k])
  }

  lemma RecordReplayed(segs: Segments, entries: map<Key, Entry>, index: map<Key, Entry>, hwm: nat, k: Key, x: nat, b: nat, p: nat)
    requires ValidLoc(segs, Loc(x, b, p)) && hwm <= x && ReplayedAt(segs, entries, index, hwm, k, x, b, p)
    ensures ReplayedAt(segs, entries, ReplayRecord(segs, index, Loc(x, b, p)), hwm, k, x, b, p + 1)
  {
    var l := Loc(x, b, p);
    var index' := ReplayRecord(segs, index, l);
    BeforeNext(x, b, p);
    if At(segs, l).key == k {
      assert Tail(segs, hwm, k, l) && Before(l, x, b, p + 1);
      assert LastTail(segs, hwm, k, l, x, b, p + 1) && Reflects(segs, index', k, l);
    } else if m :| LastTail(segs, hwm, k, m, x, b, p) && Reflects(segs, index, k, m) {
      assert LastTail(segs, hwm, k, m, x, b, p + 1) && Reflects(segs, index', k, m);
    }
  }

  lemma {:induction false} BlobReplayed(segs: Segments, entries: map<Key, Entry>, index: map<Key, Entry>, hwm: nat, k: Key, x: nat, b: nat, p: nat)
    requires x in segs && b < |segs[x].blobs| && p <= |segs[x].blobs[b].recs| && hwm <= x
    requires ReplayedAt(segs, entries, index, hwm, k, x, b, 0)
    ensures ReplayedAt(segs, entries, ReplayBlob(segs, index, x, b, p), hwm, k, x, b, p)
    decreases p
  {
    hide ReplayedAt;
    if p > 0 {
      BlobReplayed(segs, entries, index, hwm, k, x, b, p - 1);
      RecordReplayed(segs, entries, ReplayBlob(segs, index, x, b, p - 1), hwm, k, x, b, p - 1);
    }
  }

  /** Two ends of a scan that no record of `k` separates. */
  lemma SameScan(segs: Segments, entries: map<Key, Entry>, index: map<Key, Entry>, hwm: nat, k: Key, x: nat, b: nat, p: nat, x': nat, b': nat, p': nat)
    requires ReplayedAt(segs, entries, index, hwm, k, x, b, p)
    requires forall l :: Tail(segs, hwm, k, l) ==> (Before(l, x, b, p) <==> Before(l, x', b', p'))
    ensures ReplayedAt(segs, entries, index, hwm, k, x', b', p')
  {
    if l :| LastTail(segs, hwm, k, l, x, b, p) && Reflects(segs, index, k, l) {
      assert LastTail(segs, hwm, k, l, x', b', p');
    }
  }

  lemma {:induction false} SegmentReplayed(segs: Segments, entries: map<Key, Entry>, index: map<Key, Entry>, hwm: nat, k: Key, x: nat, b: nat)
    requires x in segs && b <= |segs[x].blobs| && hwm <= x
    requires ReplayedAt(segs, entries, index, hwm, k, x, 0, 0)
    ensures ReplayedAt(segs, entries, ReplaySegment(segs, index, x, b), hwm, k, x, b, 0)
    decreases b
  {
    hide ReplayedAt;
    if b > 0 {
      SegmentReplayed(segs, entries, index, hwm, k, x, b - 1);
      var n := |segs[x].blobs[b - 1].recs|;
      BlobReplayed(segs, entries, ReplaySegment(segs, index, x, b - 1), hwm, k, x, b - 1, n);
      SameScan(segs, entries, ReplaySegment(segs, index, x, b), hwm, k, x, b - 1, n, x, b, 0);
    }
  }

  lemma NothingReplayed(segs: Segments, entries: map<Key, Entry>, hwm: nat, k: Key)
    ensures ReplayedAt(segs, entries, entries, hwm, k, hwm, 0, 0)
  {
  }

  lemma {:induction false} TailReplayed(segs: Segments, entries: map<Key, Entry>, hwm: nat, k: Key, x: nat)
    requires hwm <= x
    ensures ReplayedAt(segs, entries, Replay(segs, entries, hwm, x), hwm, k, x, 0, 0)
    decreases x
  {
    hide ReplayedAt;
    if x == hwm {
      NothingReplayed(segs, entries, hwm, k);
    } else {
      TailReplayed(segs, entries, hwm, k, x - 1);
      var before := Replay(segs, entries, hwm, x - 1);
      if x - 1 in segs {
        var n := |segs[x - 1].blobs|;
        SegmentReplayed(segs, entries, before, hwm, k, x - 1, n);
        SameScan(segs, entries, Replay(segs, entries, hwm, x), hwm, k, x - 1, n, 0, x, 0, 0);
      } else {
        SameScan(segs, entries, before, hwm, k, x - 1, 0, 0, x, 0, 0);
      }
    }
  }

  /** The last record of `k` in the whole tail. */
  ghost predicate IsLast(segs: Segments, hwm: nat, k: Key, l: Loc) {
    && Tail(segs, hwm, k, l)
    && forall m :: Tail(segs, hwm, k, m) ==> m == l || Before(m, l.seg, l.blob, l.pos)
  }

  /** The replayed index: the last tail record of a key decides, and without one the snapshot. */
  lemma ReplayDecides(segs: Segments, entries: map<Key, Entry>, hwm: nat, active: nat, k: Key)
    requires hwm <= active && forall x :: x in segs ==> x <= active
    ensures var index := Replay(segs, entries, hwm, active + 1);
            if exists l :: Tail(segs, hwm, k, l)
            then exists l :: IsLast(segs, hwm, k, l) && Reflects(segs, index, k, l)
            else (k in index <==> k in entries) && (k in index ==> index[k] == entries[k])
  {
    TailReplayed(segs, entries, hwm, k, active + 1);
    assert forall l :: Tail(segs, hwm, k, l) ==> Before(l, active + 1, 0, 0);
    var index := Replay(segs, entries, hwm, active + 1);
    if l :| Tail(segs, hwm, k, l) {
      var m :| LastTail(segs, hwm, k, m, active + 1, 0, 0) && Reflects(segs, index, k, m);
      assert IsLast(segs, hwm, k, m);
    }
  }

  // ---- From the snapshot to the open ----

  /** Nothing still to be written or acknowledged is bound to a segment below `hwm`. */
  ghost predicate QuietBelow(ops: Ops, moves: Moves, hwm: nat) {
    && (forall id :: id in ops && !ops[id].phase.Drawn? ==> hwm <= ops[id].phase.seg)
    && (forall c, l :: c in moves && l in moves[c] ==>
          && (moves[c][l].Slot? ==> hwm <= moves[c][l].seg)
          && (moves[c][l].Copied? ==> hwm <= moves[c][l].dst.seg))
  }

  /** What was synced stays. */
  ghost predicate Extends(a: Segment, b: Segment) {
    && a.synced <= b.synced
    && (a.synced <= |a.blobs| ==> a.synced <= |b.blobs| && b.blobs[..a.synced] == a.blobs[..a.synced])
  }

  /** How the files `b` may differ from the earlier files `a`: new segments, segments removed, unsynced blobs lost
      and, from `hwm` on, others written. */
  ghost predicate FilesLater(a: Segments, active: nat, hwm: nat, b: Segments) {
    forall x :: x in b ==>
      && (x in a ==> Extends(a[x], b[x]))
      && (x !in a ==> active < x)
      && (x < hwm ==> x in a && b[x].blobs <= a[x].blobs)
  }

  ghost predicate NewestLater(a: Segments, na: map<Key, Loc>, b: Segments, nb: map<Key, Loc>) {
    forall k :: k in na && ValidLoc(a, na[k]) ==> k in nb && ValidLoc(b, nb[k]) && At(a, na[k]).ts <= At(b, nb[k]).ts
  }

  /** `s` is a state after `s0`, in which the snapshot was taken, crashes in between or not. */
  ghost predicate Since(s0: State, s: State) {
    && s0.active <= s.active
    && FilesLater(s0.segs, s0.active, s0.active, s.segs)
    && NewestLater(s0.segs, s0.newest, s.segs, s.newest)
    && QuietBelow(s.ops, s.moves, s0.active)
  }

  lemma SinceStart(s: State)
    requires Inv(s) && QuietBelow(s.ops, s.moves, s.active)
    ensures Since(s, s)
  {
    assert forall k :: k in s.newest ==> ValidLoc(s.segs, s.newest[k]);
  }

  lemma FilesLaterTrans(a: Segments, active: nat, b: Segments, active': nat, c: Segments)
    requires FilesLater(a, active, active, b) && FilesLater(b, active', active, c) && active <= active'
    requires (forall x :: x in a ==> x <= active) && forall x :: x in b ==> b[x].synced <= |b[x].blobs|
    ensures FilesLater(a, active, active, c)
  {
    forall x | x in c && x in a ensures Extends(a[x], c[x]) {
      assert x in b;
      var n := a[x].synced;
      if n <= |a[x].blobs| {
        assert c[x].blobs[..n] == c[x].blobs[..b[x].synced][..n] && b[x].blobs[..n] == b[x].blobs[..b[x].synced][..n];
      }
    }
  }

  /** Between two states of a step, from the point of view of segments below `hwm`. */
  ghost predicate StepLater(s: State, s': State, hwm: nat) {
    && s.active <= s'.active
    && FilesLater(s.segs, s.active, hwm, s'.segs)
    && NewestLater(s.segs, s.newest, s'.segs, s'.newest)
    && QuietBelow(s'.ops, s'.moves, hwm)
  }

  lemma SinceStep(s0: State, s: State, s': State)
    requires Inv(s0) && Inv(s) && Since(s0, s) && StepLater(s, s', s0.active)
    ensures Since(s0, s')
  {
    FilesLaterTrans(s0.segs, s0.active, s.segs, s.active, s'.segs);
    forall k | k in s0.newest && ValidLoc(s0.segs, s0.newest[k])
      ensures k in s'.newest && ValidLoc(s'.segs, s'.newest[k]) && At(s0.segs, s0.newest[k]).ts <= At(s'.segs, s'.newest[k]).ts
    {
      assert k in s.newest && ValidLoc(s.segs, s.newest[k]);
    }
  }

  lemma GrowthLater(s: State, s': State, hwm: nat)
    requires NewestValid(s.segs, s.newest) && s'.newest == s.newest && s.active <= s'.active && Grows(s.segs, s'.segs)
    requires forall x :: x in s'.segs ==> (x !in s.segs ==> s.active < x) && (x < hwm ==> x in s.segs && s'.segs[x].blobs == s.segs[x].blobs)
    requires QuietBelow(s'.ops, s'.moves, hwm)
    ensures StepLater(s, s', hwm)
  {
    forall k | k in s.newest
      ensures ValidLoc(s'.segs, s.newest[k]) && At(s'.segs, s.newest[k]) == At(s.segs, s.newest[k])
    {
      GrowsAt(s.segs, s'.segs, s.newest[k]);
    }
    forall x | x in s'.segs && x in s.segs ensures Extends(s.segs[x], s'.segs[x]) {
      var n := s.segs[x].synced;
      if n <= |s.segs[x].blobs| {
        assert s'.segs[x].blobs[..n] == s'.segs[x].blobs[..|s.segs[x].blobs|][..n];
      }
    }
  }

  lemma InvNewest(s: State)
    requires Inv(s)
    ensures NewestValid(s.segs, s.newest)
  {
  }

  lemma StillLater(s: State, a: Action, hwm: nat)
    requires NewestValid(s.segs, s.newest) && Enabled(s, a) && (IsBegin(a) || IsRead(a) || IsChoice(a) || a.DoReserve?)
    requires hwm <= s.active && (forall x :: x in s.segs ==> x <= s.active) && QuietBelow(s.ops, s.moves, hwm)
    ensures StepLater(s, Next(s, a), hwm)
  {
    hide StepLater, NewestValid, QuietBelow;
    var s' := Next(s, a);
    assert s'.segs == s.segs && s'.newest == s.newest && s'.active == s.active;
    assert QuietBelow(s'.ops, s'.moves, hwm) by { StillQuiet(s, a, hwm); }
    GrowthLater(s, s', hwm);
  }

  lemma StillQuiet(s: State, a: Action, hwm: nat)
    requires Enabled(s, a) && (IsBegin(a) || IsRead(a) || IsChoice(a) || a.DoReserve?)
    requires hwm <= s.active && QuietBelow(s.ops, s.moves, hwm)
    ensures QuietBelow(Next(s, a).ops, Next(s, a).moves, hwm)
  {
    hide QuietBelow, Enabled, Next;
    if a.DoReserve? {
      ReserveQuiet(s, a, hwm);
    } else if IsChoice(a) {
      ChoiceQuiet(s, a, hwm);
    } else {
      ClientQuiet(s, a, hwm);
    }
  }

  lemma ReserveQuiet(s: State, a: Action, hwm: nat)
    requires Enabled(s, a) && a.DoReserve? && hwm <= s.active && QuietBelow(s.ops, s.moves, hwm)
    ensures QuietBelow(Next(s, a).ops, Next(s, a).moves, hwm)
  {
  }

  lemma ChoiceQuiet(s: State, a: Action, hwm: nat)
    requires Enabled(s, a) && IsChoice(a) && hwm <= s.active && QuietBelow(s.ops, s.moves, hwm)
    ensures QuietBelow(Next(s, a).ops, Next(s, a).moves, hwm)
  {
    hide Carry, Quiet, HasKey, CanCompact, ValidLoc, QuietBelow, SetMove;
    match a
    case DoBeginCompact(src) => NewMovesQuiet(s.ops, s.moves, src, hwm);
    case DoExamine(src, l) => MoveQuiet(s, src, l, if Carry(s, l) then Chosen else Skipped, hwm);
    case DoReserveMove(src, l) => MoveQuiet(s, src, l, Slot(s.active), hwm);
  }

  lemma NewMovesQuiet(ops: Ops, moves: Moves, src: nat, hwm: nat)
    requires QuietBelow(ops, moves, hwm)
    ensures QuietBelow(ops, moves[src := map[]], hwm)
  {
  }

  lemma MoveQuiet(s: State, src: nat, l: Loc, m: Move, hwm: nat)
    requires QuietBelow(s.ops, s.moves, hwm) && src in s.moves && (m.Slot? ==> hwm <= m.seg) && (m.Copied? ==> hwm <= m.dst.seg)
    ensures QuietBelow(SetMove(s, src, l, m).ops, SetMove(s, src, l, m).moves, hwm)
  {
  }

  lemma ClientQuiet(s: State, a: Action, hwm: nat)
    requires Enabled(s, a) && (IsBegin(a) || IsRead(a)) && QuietBelow(s.ops, s.moves, hwm)
    ensures QuietBelow(Next(s, a).ops, Next(s, a).moves, hwm)
  {
    hide Idle, Unwritten, HasKey;
    assert Next(s, a).moves == s.moves;
  }

  lemma CommitLater(s: State, a: Action, hwm: nat)
    requires NewestValid(s.segs, s.newest) && Enabled(s, a) && (a.DoWrite? || a.DoSync? || a.DoRotate? || a.DoWriteMove?)
    requires hwm <= s.active && (forall x :: x in s.segs ==> x <= s.active && s.segs[x].synced <= |s.segs[x].blobs|)
    requires QuietBelow(s.ops, s.moves, hwm)
    ensures StepLater(s, Next(s, a), hwm)
  {
    hide StepLater, NewestValid, QuietBelow, WriteOp, WriteMove, SyncSeg, Rotate;
    match a
    case DoWrite(id) => WriteLater(s, id, hwm);
    case DoWriteMove(src, l) => WriteMoveLater(s, src, l, hwm);
    case DoSync(x) => SyncLater(s, x, hwm);
    case DoRotate => RotateLater(s, hwm);
  }

  lemma SyncLater(s: State, x: nat, hwm: nat)
    requires NewestValid(s.segs, s.newest) && x in s.segs
    requires (forall x :: x in s.segs ==> s.segs[x].synced <= |s.segs[x].blobs|) && QuietBelow(s.ops, s.moves, hwm)
    ensures StepLater(s, SyncSeg(s, x), hwm)
  {
    hide StepLater, NewestValid, QuietBelow;
    GrowthLater(s, SyncSeg(s, x), hwm);
  }

  lemma RotateLater(s: State, hwm: nat)
    requires NewestValid(s.segs, s.newest) && hwm <= s.active
    requires (forall x :: x in s.segs ==> x <= s.active && s.segs[x].synced <= |s.segs[x].blobs|) && QuietBelow(s.ops, s.moves, hwm)
    ensures StepLater(s, Rotate(s), hwm)
  {
    hide StepLater, NewestValid, QuietBelow;
    GrowthLater(s, Rotate(s), hwm);
  }

  lemma WriteLater(s: State, id: nat, hwm: nat)
    requires NewestValid(s.segs, s.newest) && Enabled(s, DoWrite(id))
    requires hwm <= s.active && (forall x :: x in s.segs ==> x <= s.active)
    requires QuietBelow(s.ops, s.moves, hwm)
    ensures StepLater(s, WriteOp(s, id), hwm)
  {
    hide StepLater, NewestValid;
    AppendGrows(s.segs, s.ops[id].phase.seg, s.ops[id].blob);
    GrowthLater(s, WriteOp(s, id), hwm);
  }

  lemma SlotLater(s: State, src: nat, l: Loc, hwm: nat)
    requires QuietBelow(s.ops, s.moves, hwm) && src in s.moves && l in s.moves[src] && s.moves[src][l].Slot?
    ensures hwm <= s.moves[src][l].seg
  {
  }

  lemma WriteMoveLater(s: State, src: nat, l: Loc, hwm: nat)
    requires NewestValid(s.segs, s.newest) && Enabled(s, DoWriteMove(src, l))
    requires hwm <= s.active && (forall x :: x in s.segs ==> x <= s.active)
    requires QuietBelow(s.ops, s.moves, hwm)
    ensures StepLater(s, WriteMove(s, src, l), hwm)
  {
    hide StepLater, NewestValid, QuietBelow;
    var x := s.moves[src][l].seg;
    assert hwm <= x by { SlotLater(s, src, l, hwm); }
    AppendGrows(s.segs, x, Blob(None, [At(s.segs, l)]));
    MoveQuiet(s, src, l, Copied(Loc(x, |s.segs[x].blobs|, 0)), hwm);
    GrowthLater(s, WriteMove(s, src, l), hwm);
  }

  lemma AckLater(s: State, id: nat, hwm: nat)
    requires Inv(s) && CanApply(s, id) && hwm <= s.active && QuietBelow(s.ops, s.moves, hwm)
    ensures StepLater(s, ApplyOp(s, id), hwm)
  {
    var s' := ApplyOp(s, id);
    assert OpOk(s.segs, s.moves, s.ops[id]);
    forall k | k in s.newest
      ensures k in s'.newest && ValidLoc(s.segs, s'.newest[k]) && At(s.segs, s.newest[k]).ts <= At(s.segs, s'.newest[k]).ts
    {
      ApplyNewestMap(s, id, k);
    }
  }

  lemma FinishLater(s: State, src: nat, l: Loc, hwm: nat)
    requires NewestValid(s.segs, s.newest) && CanFinishMove(s, src, l) && CopyOf(s.segs, s.ops, l, s.moves[src][l].dst)
    requires QuietBelow(s.ops, s.moves, hwm)
    ensures StepLater(s, FinishMove(s, src, l), hwm)
  {
  }

  lemma UnlinkLater(s: State, src: nat, hwm: nat)
    requires Inv(s) && CanUnlink(s, src) && QuietBelow(s.ops, s.moves, hwm)
    ensures StepLater(s, Unlink(s, src), hwm)
  {
    forall k | k in s.newest
      ensures ValidLoc(s.segs - {src}, s.newest[k]) && At(s.segs - {src}, s.newest[k]) == At(s.segs, s.newest[k])
    {
      SourceIsEmpty(s, src, k);
      UnlinkAt(s.segs, src, s.newest[k]);
    }
  }

  /** A crash loses unsynced blobs only, and the newest record of a key has a synced copy. */
  lemma CrashLater(s: State, keep: map<nat, nat>, clock: nat, newest: map<Key, Loc>, hwm: nat)
    requires Inv(s) && ValidKeep(s.segs, keep) && IsWinners(Kept(s.segs, keep), newest)
    ensures StepLater(s, Opened(Kept(s.segs, keep), s.active, clock, newest), hwm)
  {
    hide Inv, NewestLater, FilesLater, Kept, IsWinners, IndexOf;
    CrashFiles(s.segs, s.active, keep, hwm);
    CrashNewest(s, keep, newest);
  }

  lemma CrashFiles(a: Segments, active: nat, keep: map<nat, nat>, hwm: nat)
    requires ValidKeep(a, keep)
    ensures FilesLater(a, active, hwm, Kept(a, keep))
  {
    var b := Kept(a, keep);
    forall x | x in b ensures Extends(a[x], b[x]) && b[x].blobs <= a[x].blobs {
      assert b[x].blobs[..a[x].synced] == a[x].blobs[..a[x].synced];
    }
  }

  lemma CrashNewest(s: State, keep: map<nat, nat>, newest: map<Key, Loc>)
    requires Inv(s) && ValidKeep(s.segs, keep) && IsWinners(Kept(s.segs, keep), newest)
    ensures NewestLater(s.segs, s.newest, Kept(s.segs, keep), newest)
  {
    hide CacheOk, IndexOk, MovesOk, ClockBound, OpsOk, Agree, Ordered, SizeOf, HasKey;
    var segs := Kept(s.segs, keep);
    forall k | k in s.newest && ValidLoc(s.segs, s.newest[k])
      ensures k in newest && ValidLoc(segs, newest[k]) && At(s.segs, s.newest[k]).ts <= At(segs, newest[k]).ts
    {
      var d := DurableCopy(s.segs, s.moves, s.newest[k]);
      KeptAt(s.segs, keep, d);
      assert Dominated(segs, newest, d);
    }
  }

  lemma FinishStepLater(s: State, src: nat, l: Loc, hwm: nat)
    requires Inv(s) && CanFinishMove(s, src, l) && QuietBelow(s.ops, s.moves, hwm)
    ensures ValidLoc(s.segs, l) && StepLater(s, FinishMove(s, src, l), hwm)
  {
    hide IndexOk, Ordered, CacheOk, Agree, ClockBound, OpsOk, StepLater, QuietBelow;
    InvNewest(s);
    assert MoveOk(s.segs, s.active, s.ops, s.newest, s.moves, l, s.moves[src][l]);
    FinishLater(s, src, l, hwm);
  }

  lemma InvShape(s: State)
    requires Inv(s)
    ensures Shape(s.segs, s.active)
  {
    hide Shape;
  }

  /** Every step, a crash and reopen included, keeps the relation to the snapshot state. */
  lemma SinceNext(s0: State, s: State, a: Action)
    requires Inv(s0) && Inv(s) && Since(s0, s) && Enabled(s, a)
    ensures Since(s0, Next(s, a))
  {
    hide Inv, StepLater, FilesLater, NewestLater, QuietBelow, CanCompact, CanUnlink, Idle, Unwritten;
    InvNewest(s);
    InvShape(s);
    if IsBegin(a) || IsRead(a) || IsChoice(a) || a.DoReserve? {
      StillLater(s, a, s0.active);
    } else if a.DoAck? {
      AckLater(s, a.id, s0.active);
    } else if a.DoFinishMove? {
      FinishStepLater(s, a.src, a.loc, s0.active);
    } else if a.DoUnlink? {
      UnlinkLater(s, a.src, s0.active);
    } else if a.DoCrash? {
      CrashLater(s, a.keep, a.clock, a.newest, s0.active);
    } else {
      CommitLater(s, a, s0.active);
    }
    SinceStep(s0, s, Next(s, a));
  }

  // ---- The two recoveries compared ----

  /** The key-value map an index gives over the files. */
  function ReadMap(segs: Segments, index: map<Key, Entry>): map<Key, Value> {
    map k | k in index && ValidLoc(segs, index[k].loc) :: At(segs, index[k].loc).value
  }

  /** The entries of a snapshot of `s0` beside the files `segs`: what the reads at their offsets find. An entry
      that finds nothing fails every read, and is left out. */
  ghost function Loaded(s0: State, segs: Segments): map<Key, Entry> {
    map k | k in s0.index && Resolve(s0.segs, s0.index[k], segs).Some? ::
      Entry(Resolve(s0.segs, s0.index[k], segs).value, s0.index[k].size)
  }

  ghost function SnapshotIndex(segs: Segments, s0: State, active: nat): map<Key, Entry> {
    Replay(segs, Loaded(s0, segs), s0.active, active + 1)
  }

  function ScanIndex(segs: Segments, active: nat): map<Key, Entry> {
    IndexOf(segs, Winners(segs, active + 1))
  }

  predicate SameEffect(r: Record, r': Record) {
    (IsTomb(r) <==> IsTomb(r')) && (!IsTomb(r) ==> r.value == r'.value)
  }

  /** A snapshot of `s0` lies beside the files a crash of `s`, some time later, left. */
  ghost predicate SnapshotUsed(s0: State, s: State, keep: map<nat, nat>) {
    Inv(s0) && Inv(s) && Since(s0, s) && ValidKeep(s.segs, keep)
  }

  /** The check of `open_shared`: a snapshot is used only if every segment it refers to still exists. */
  ghost predicate Usable(segs: Segments, s0: State) {
    forall k :: k in s0.index ==> s0.index[k].loc.seg in segs
  }

  /** The index `open_shared` builds beside a snapshot of `s0`. */
  ghost function OpenIndex(segs: Segments, s0: State, active: nat): map<Key, Entry> {
    if Usable(segs, s0) then SnapshotIndex(segs, s0, active) else ScanIndex(segs, active)
  }

  /** The read of the entry of `k` finds the value it found at `s0`. */
  ghost predicate StillReads(s0: State, segs: Segments, k: Key) {
    && k in s0.index && ValidLoc(s0.segs, s0.index[k].loc)
    && var r := Resolve(s0.segs, s0.index[k], segs);
       r.Some? && At(segs, r.value).value == At(s0.segs, s0.index[k].loc).value
  }

  /** The entries of the keys no record from the high-water mark on replaces still read their values. */
  ghost predicate StillThere(segs: Segments, s0: State) {
    forall k :: k in s0.index && (forall l :: !Tail(segs, s0.active, k, l)) ==> StillReads(s0, segs, k)
  }

  /** A durable entry whose segment still exists is still there. */
  lemma DurableStays(s0: State, s: State, keep: map<nat, nat>, k: Key)
    requires SnapshotUsed(s0, s, keep) && k in s0.index && Durable(s0.segs, s0.index[k].loc) && s0.index[k].loc.seg in s.segs
    ensures Resolve(s0.segs, s0.index[k], Kept(s.segs, keep)) == Some(s0.index[k].loc)
    ensures var (segs, l) := (Kept(s.segs, keep), s0.index[k].loc); ValidLoc(segs, l) && At(segs, l) == At(s0.segs, l)
  {
    hide Ordered, OpsOk, MovesOk, CacheOk, ClockBound, Agree, NewestLater, QuietBelow, Resolve;
    var (e, segs) := (s0.index[k], Kept(s.segs, keep));
    var x := e.loc.seg;
    var n := s0.segs[x].synced;
    assert Extends(s0.segs[x], s.segs[x]);
    assert segs[x].blobs[..n] == s.segs[x].blobs[..n];
    PlaceStays(s0.segs, e, segs, n);
  }

  /** A record of the reopened files below the high-water mark was already applied at `s0`. */
  lemma BelowIsOld(s0: State, s: State, keep: map<nat, nat>, w: Loc)
    requires SnapshotUsed(s0, s, keep) && QuietBelow(s0.ops, s0.moves, s0.active)
    requires ValidLoc(Kept(s.segs, keep), w) && w.seg < s0.active
    ensures ValidLoc(s0.segs, w) && At(s0.segs, w) == At(Kept(s.segs, keep), w) && Dominated(s0.segs, s0.newest, w)
  {
    hide CacheOk, IndexOk, MovesOk, ClockBound, OpsOk, Backed;
    KeptAt(s.segs, keep, w);
    assert s.segs[w.seg].blobs[w.blob] == s0.segs[w.seg].blobs[w.blob];
    assert !InFlight(s0.ops, w);
  }

  /** What the full scan finds for a key is no older than its newest record at `s0`. */
  lemma ScanNotOlder(s0: State, s: State, keep: map<nat, nat>, k: Key)
    requires SnapshotUsed(s0, s, keep) && k in s0.newest
    ensures var w := Winners(Kept(s.segs, keep), s.active + 1);
            k in w && At(s0.segs, s0.newest[k]).ts <= At(Kept(s.segs, keep), w[k]).ts
  {
    hide CacheOk, IndexOk, MovesOk, ClockBound, OpsOk, Agree, Ordered, QuietBelow;
    var segs := Kept(s.segs, keep);
    assert ValidLoc(s0.segs, s0.newest[k]);
    assert k in s.newest;
    var d := DurableCopy(s.segs, s.moves, s.newest[k]);
    KeptAt(s.segs, keep, d);
    FullScanWins(segs, s.active);
    assert Dominated(segs, Winners(segs, s.active + 1), d);
  }

  /** A record of `s0` that its newest record dominates and that is as new is the newest record. */
  lemma AsNew(segs: Segments, newest: map<Key, Loc>, w: Loc)
    requires Agree(segs) && NewestValid(segs, newest) && ValidLoc(segs, w) && Dominated(segs, newest, w)
    requires At(segs, newest[At(segs, w).key]).ts <= At(segs, w).ts
    ensures At(segs, w) == At(segs, newest[At(segs, w).key])
  {
    assert SameStamp(At(segs, w), At(segs, newest[At(segs, w).key]));
  }

  /** A winner below the high-water mark is the newest record of `s0`. */
  lemma OldWinner(s0: State, s: State, keep: map<nat, nat>, k: Key, w: Loc)
    requires SnapshotUsed(s0, s, keep) && QuietBelow(s0.ops, s0.moves, s0.active)
    requires ValidLoc(Kept(s.segs, keep), w) && w.seg < s0.active && At(Kept(s.segs, keep), w).key == k
    requires k in s0.newest && ValidLoc(s0.segs, s0.newest[k]) ==> At(s0.segs, s0.newest[k]).ts <= At(Kept(s.segs, keep), w).ts
    ensures k in s0.newest && ValidLoc(s0.segs, s0.newest[k]) && At(Kept(s.segs, keep), w) == At(s0.segs, s0.newest[k])
  {
    BelowIsOld(s0, s, keep, w);
    InvNewest(s0);
    AsNew(s0.segs, s0.newest, w);
  }

  /** Without a tail record, the full scan finds the newest record of `s0`. */
  lemma NoTailRecord(s0: State, s: State, keep: map<nat, nat>, k: Key)
    requires SnapshotUsed(s0, s, keep) && QuietBelow(s0.ops, s0.moves, s0.active)
    requires forall l :: !Tail(Kept(s.segs, keep), s0.active, k, l)
    ensures var segs := Kept(s.segs, keep);
            var w := Winners(segs, s.active + 1);
            (k in w <==> k in s0.newest) && (k in w ==> ValidLoc(s0.segs, s0.newest[k]) && At(segs, w[k]) == At(s0.segs, s0.newest[k]))
  {
    var segs := Kept(s.segs, keep);
    var w := Winners(segs, s.active + 1);
    if k in w {
      FullScanWins(segs, s.active);
      assert !Tail(segs, s0.active, k, w[k]);
      if k in s0.newest { ScanNotOlder(s0, s, keep, k); }
      OldWinner(s0, s, keep, k, w[k]);
    } else if k in s0.newest {
      ScanNotOlder(s0, s, keep, k);
    }
  }

  lemma NoTailIndex(s0: State, k: Key)
    requires Inv(s0)
    ensures k in s0.index <==> k in s0.newest && !IsTomb(At(s0.segs, s0.newest[k]))
  {
    if k in s0.newest { assert ValidLoc(s0.segs, s0.newest[k]); }
  }

  /** What the full scan reads of such a key: its value at `s0`. */
  lemma NoTailScanned(s0: State, s: State, keep: map<nat, nat>, k: Key)
    requires SnapshotUsed(s0, s, keep) && QuietBelow(s0.ops, s0.moves, s0.active)
    requires forall l :: !Tail(Kept(s.segs, keep), s0.active, k, l)
    ensures var m := ReadMap(Kept(s.segs, keep), ScanIndex(Kept(s.segs, keep), s.active));
            && (k in m <==> k in s0.index)
            && (k in s0.index ==> ValidLoc(s0.segs, s0.index[k].loc) && m[k] == At(s0.segs, s0.index[k].loc).value)
  {
    hide Ordered, OpsOk, MovesOk, CacheOk, NewestOk, ClockBound, Agree, QuietBelow, Winners, FilesLater, NewestLater;
    hide IsWinners, At, HasKey, SizeOf, Backed, ValidLoc;
    NoTailRecord(s0, s, keep, k);
    NoTailIndex(s0, k);
    FullScanWins(Kept(s.segs, keep), s.active);
  }

  /** What the snapshot makes of it. */
  lemma NoTailLoaded(segs: Segments, s0: State, active: nat, k: Key)
    requires s0.active <= active && (forall x :: x in segs ==> x <= active) && forall l :: !Tail(segs, s0.active, k, l)
    ensures var (index, e) := (SnapshotIndex(segs, s0, active), Loaded(s0, segs));
            (k in index <==> k in e) && (k in index ==> index[k] == e[k])
  {
    hide Replay, Loaded;
    ReplayDecides(segs, Loaded(s0, segs), s0.active, active, k);
  }

  /** Such a key is read alike if and only if its entry still reads its value. */
  lemma NoTailIff(s0: State, s: State, keep: map<nat, nat>, k: Key)
    requires SnapshotUsed(s0, s, keep) && QuietBelow(s0.ops, s0.moves, s0.active)
    requires forall l :: !Tail(Kept(s.segs, keep), s0.active, k, l)
    ensures var segs := Kept(s.segs, keep);
            SameAt(ReadMap(segs, SnapshotIndex(segs, s0, s.active)), ReadMap(segs, ScanIndex(segs, s.active)), k) <==>
            (k in s0.index ==> StillReads(s0, segs, k))
  {
    hide Inv, Kept, FilesLater, NewestLater, QuietBelow, Replay, Winners, ScanIndex, SnapshotIndex, Tail, Offset;
    var segs := Kept(s.segs, keep);
    KeptBelow(s, keep);
    NoTailScanned(s0, s, keep, k);
    NoTailLoaded(segs, s0, s.active, k);
  }

  lemma Reflexive(m: map<Key, Value>)
    ensures forall k :: SameAt(m, m, k)
  {
  }

  lemma TailDecides(segs: Segments, s0: State, active: nat, k: Key, l: Loc)
    requires s0.active <= active && (forall x :: x in segs ==> x <= active) && IsLast(segs, s0.active, k, l)
    ensures var w := Winners(segs, active + 1);
            k in w && (SameAt(ReadMap(segs, SnapshotIndex(segs, s0, active)), ReadMap(segs, ScanIndex(segs, active)), k) <==>
                       SameEffect(At(segs, l), At(segs, w[k])))
  {
    var w := Winners(segs, active + 1);
    FullScanWins(segs, active);
    assert Dominated(segs, w, l);
    ReplayDecides(segs, Loaded(s0, segs), s0.active, active, k);
    var index := SnapshotIndex(segs, s0, active);
    assert Tail(segs, s0.active, k, l);
    var m :| IsLast(segs, s0.active, k, m) && Reflects(segs, index, k, m);
    assert m == l;
  }

  /** The last record of every key from the high-water mark on does what the record with the
      highest timestamp does. */
  ghost predicate LastIsNewest(segs: Segments, hwm: nat, active: nat) {
    var w := Winners(segs, active + 1);
    forall k, l :: IsLast(segs, hwm, k, l) ==> k in w && SameEffect(At(segs, l), At(segs, w[k]))
  }

  /** Nothing is left in a segment above the active one. */
  lemma KeptBelow(s: State, keep: map<nat, nat>)
    requires Inv(s) && ValidKeep(s.segs, keep)
    ensures forall x :: x in Kept(s.segs, keep) ==> x <= s.active
  {
    hide Ordered, OpsOk, MovesOk, CacheOk, IndexOk, NewestOk, ClockBound, Agree;
  }

  lemma KeyAgrees(s0: State, s: State, keep: map<nat, nat>, k: Key)
    requires SnapshotUsed(s0, s, keep) && QuietBelow(s0.ops, s0.moves, s0.active)
    requires LastIsNewest(Kept(s.segs, keep), s0.active, s.active) && StillThere(Kept(s.segs, keep), s0)
    ensures var segs := Kept(s.segs, keep);
            SameAt(ReadMap(segs, SnapshotIndex(segs, s0, s.active)), ReadMap(segs, ScanIndex(segs, s.active)), k)
  {
    hide Inv, FilesLater, NewestLater, QuietBelow, ReadMap, Winners, Replay, SameAt, SameEffect, Kept, StillReads, Loaded;
    var segs := Kept(s.segs, keep);
    KeptBelow(s, keep);
    if l :| Tail(segs, s0.active, k, l) {
      ReplayDecides(segs, Loaded(s0, segs), s0.active, s.active, k);
      var last :| IsLast(segs, s0.active, k, last);
      TailDecides(segs, s0, s.active, k, last);
    } else {
      NoTailIff(s0, s, keep, k);
    }
  }

  /** Recovery from the snapshot shows the map of the full scan if and only if the last record of
      every key from the high-water mark on has the effect of the key's newest record, and the
      entries of the other keys are still there. */
  lemma SnapshotIff(s0: State, s: State, keep: map<nat, nat>)
    requires SnapshotUsed(s0, s, keep) && QuietBelow(s0.ops, s0.moves, s0.active)
    ensures var segs := Kept(s.segs, keep);
            ReadMap(segs, SnapshotIndex(segs, s0, s.active)) == ReadMap(segs, ScanIndex(segs, s.active)) <==>
              LastIsNewest(segs, s0.active, s.active) && StillThere(segs, s0)
  {
    hide Inv, FilesLater, NewestLater, QuietBelow, ReadMap, Winners, Replay, SameAt, SameEffect, Kept, StillReads, Loaded;
    var segs := Kept(s.segs, keep);
    var a, m := ReadMap(segs, SnapshotIndex(segs, s0, s.active)), ReadMap(segs, ScanIndex(segs, s.active));
    if LastIsNewest(segs, s0.active, s.active) && StillThere(segs, s0) {
      forall k ensures SameAt(a, m, k) {
        KeyAgrees(s0, s, keep, k);
      }
      SameEverywhere(a, m);
    }
    if a == m {
      KeptBelow(s, keep);
      Reflexive(a);
      forall k, l | IsLast(segs, s0.active, k, l)
        ensures k in Winners(segs, s.active + 1) && SameEffect(At(segs, l), At(segs, Winners(segs, s.active + 1)[k]))
      {
        TailDecides(segs, s0, s.active, k, l);
      }
      forall k | k in s0.index && (forall l :: !Tail(segs, s0.active, k, l)) ensures StillReads(s0, segs, k) {
        NoTailIff(s0, s, keep, k);
      }
    }
  }
}
