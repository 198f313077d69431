/** The files of the store over whole runs: what every step writes, what a crash leaves, and what the next open
    reads back. */
module VLogBytes {
  import opened Bytes
  import opened Records
  import opened Batches
  import opened SegmentRecovery
  import opened VLogState
  import opened VLogInv
  import opened VLogRecover
  import opened VLogRuns
  import opened VLogRefinement
  import opened VLogFiles
  import opened VLogReopen

  type Files = map<nat, seq<byte>>

  /** A file that stands for a segment: appended to in this session or sealed before it. */
  ghost predicate Backs(crc: Checksum, file: seq<byte>, seg: Segment) {
    Holds(crc, file, seg) || Shown(crc, file, seg)
  }

  /** Segments that may still be written to. */
  ghost predicate Bound(s: State, x: nat) {
    || x == s.active
    || (exists id :: id in s.ops && s.ops[id].phase == Reserved(x))
    || (exists c, l :: c in s.moves && l in s.moves[c] && s.moves[c][l] == Slot(x))
  }

  /** The files are those of the machine's segments, and can be appended to where that may happen. */
  ghost predicate FilesOk(crc: Checksum, files: Files, s: State) {
    && files.Keys == s.segs.Keys && s.active in files
    && forall x :: x in files ==> Backs(crc, files[x], s.segs[x]) && (Bound(s, x) ==> Holds(crc, files[x], s.segs[x]))
  }

  // ---- Crashes ----

  /** A crash cuts the files of this session anywhere behind what was synced, and spares the others. */
  ghost predicate ByteCrash(crc: Checksum, files: Files, s: State, left: Files) {
    && left.Keys == files.Keys == s.segs.Keys && s.active in files && CutTo(crc, files[s.active], s.segs[s.active], left[s.active])
    && forall x :: x in files ==>
         CutTo(crc, files[x], s.segs[x], left[x]) || (Shown(crc, files[x], s.segs[x]) && left[x] == files[x])
  }

  /** In the machine's terms: `keep` blobs of each file, and `torn` records more of the active one. */
  ghost predicate Leaves(crc: Checksum, s: State, keep: map<nat, nat>, torn: nat, left: Files) {
    && left.Keys == keep.Keys == s.segs.Keys && s.active in left
    && LeftOf(crc, s.segs[s.active], keep[s.active], torn, left[s.active])
    && forall x :: x in left ==> LeftAs(crc, s.segs[x], keep[x], left[x])
  }

  ghost predicate LeftAs(crc: Checksum, seg: Segment, keep: nat, left: seq<byte>) {
    && seg.synced <= keep <= |seg.blobs|
    && ((exists torn :: LeftOf(crc, seg, keep, torn, left)) || (keep == |seg.blobs| && Shown(crc, left, seg)))
  }

  lemma CutLeftAs(crc: Checksum, file: seq<byte>, seg: Segment, left: seq<byte>) returns (keep: nat, torn: nat)
    requires CutTo(crc, file, seg, left)
    ensures LeftAs(crc, seg, keep, left) && LeftOf(crc, seg, keep, torn, left)
  {
    hide CutBy, LeftOf;
    var head, d, n :| CutBy(crc, file, seg, left, head, d, n);
    keep, torn := CutForms(crc, file, seg, left, head, d, n);
  }

  lemma ShownLeftAs(crc: Checksum, file: seq<byte>, seg: Segment)
    requires Shown(crc, file, seg)
    ensures LeftAs(crc, seg, |seg.blobs|, file)
  {
    hide Recs, Recovered, DataRecords;
  }

  ghost function KeepOf(crc: Checksum, seg: Segment, left: seq<byte>): (keep: nat)
    requires exists n :: LeftAs(crc, seg, n, left)
    ensures LeftAs(crc, seg, keep, left)
  {
    var n :| LeftAs(crc, seg, n, left); n
  }

  /** Every crash of the bytes is one of the machine. */
  lemma CrashForms(crc: Checksum, files: Files, s: State, left: Files) returns (keep: map<nat, nat>, torn: nat)
    requires ByteCrash(crc, files, s, left)
    ensures ValidKeep(s.segs, keep) && Leaves(crc, s, keep, torn, left)
  {
    hide CutTo, LeftOf, Shown;
    var first;
    first, torn := CutLeftAs(crc, files[s.active], s.segs[s.active], left[s.active]);
    forall x | x in s.segs ensures exists n :: LeftAs(crc, s.segs[x], n, left[x]) {
      if CutTo(crc, files[x], s.segs[x], left[x]) {
        var n, t := CutLeftAs(crc, files[x], s.segs[x], left[x]);
      } else {
        ShownLeftAs(crc, files[x], s.segs[x]);
      }
    }
    keep := map x | x in s.segs :: if x == s.active then first else KeepOf(crc, s.segs[x], left[x]);
    assert forall x :: x in left ==> LeftAs(crc, s.segs[x], keep[x], left[x]);
  }

  /** What recovery reads of a file a crash left, and what the file is to the next session. */
  lemma LeftBacks(crc: Checksum, seg: Segment, keep: nat, left: seq<byte>)
    requires LeftAs(crc, seg, keep, left)
    ensures Recs(Recovered(crc, left)) == DataRecords(seg.blobs[..keep])
    ensures Shown(crc, left, Segment(seg.blobs[..keep], keep))
  {
    hide LeftOf, Recs, Recovered, DataRecords, Clean, Truncated, Holds, CleanCut;
    if torn :| LeftOf(crc, seg, keep, torn, left) {
      LeftShows(crc, seg, keep, torn, left);
    } else {
      assert seg.blobs[..keep] == seg.blobs;
    }
  }

  /** The files after the open: the active one truncated, the others as the crash left them. */
  function Reopen(crc: Checksum, active: nat, left: Files): Files
    requires active in left
  {
    left[active := Truncated(crc, left[active])]
  }

  /** Whatever bytes a crash leaves: recovery reads from each file exactly the records of the blobs the machine
      keeps, and the files of the reopened store are those of the reopened machine if and only if the machine's
      guard is met. */
  lemma CrashBytes(crc: Checksum, files: Files, s: State, left: Files, clock: nat, newest: map<Key, Loc>)
    returns (keep: map<nat, nat>, torn: nat)
    requires FilesOk(crc, files, s) && ByteCrash(crc, files, s, left)
    ensures ValidKeep(s.segs, keep) && Leaves(crc, s, keep, torn, left)
    ensures forall x :: x in left ==> Recs(Recovered(crc, left[x])) == DataRecords(Kept(s.segs, keep)[x].blobs)
    ensures s.active in left && s.active in keep && (CleanCut(s.segs[s.active].blobs, keep[s.active], torn) <==>
              Clean(crc, Truncated(crc, left[s.active]), Kept(s.segs, keep)[s.active].blobs))
    ensures CleanCut(s.segs[s.active].blobs, keep[s.active], torn) && Points(Kept(s.segs, keep), newest) ==>
              FilesOk(crc, Reopen(crc, s.active, left), Opened(Kept(s.segs, keep), s.active, clock, newest))
  {
    hide LeftOf, Recs, Recovered, DataRecords, Clean, Truncated, Holds, CleanCut, FilesOk, LeftAs, Shown, IndexOf;
    keep, torn := CrashForms(crc, files, s, left);
    forall x | x in left ensures Recs(Recovered(crc, left[x])) == DataRecords(Kept(s.segs, keep)[x].blobs) {
      LeftBacks(crc, s.segs[x], keep[x], left[x]);
    }
    LeftShows(crc, s.segs[s.active], keep[s.active], torn, left[s.active]);
    if CleanCut(s.segs[s.active].blobs, keep[s.active], torn) && Points(Kept(s.segs, keep), newest) {
      ReopenOk(crc, s, keep, torn, left, clock, newest);
    }
  }

  lemma ReopenOk(crc: Checksum, s: State, keep: map<nat, nat>, torn: nat, left: Files, clock: nat, newest: map<Key, Loc>)
    requires Leaves(crc, s, keep, torn, left) && ValidKeep(s.segs, keep) && Points(Kept(s.segs, keep), newest)
    requires CleanCut(s.segs[s.active].blobs, keep[s.active], torn)
    ensures FilesOk(crc, Reopen(crc, s.active, left), Opened(Kept(s.segs, keep), s.active, clock, newest))
  {
    hide LeftOf, Recs, Recovered, DataRecords, Clean, Truncated, Holds, CleanCut, LeftAs, Shown, IndexOf;
    var (s', files) := (Opened(Kept(s.segs, keep), s.active, clock, newest), Reopen(crc, s.active, left));
    LeftShows(crc, s.segs[s.active], keep[s.active], torn, left[s.active]);
    forall x | x in files ensures Backs(crc, files[x], s'.segs[x]) && (Bound(s', x) ==> Holds(crc, files[x], s'.segs[x])) {
      if x != s.active {
        LeftBacks(crc, s.segs[x], keep[x], left[x]);
      }
    }
  }

  // ---- Steps ----

  /** What a step does to the files. What is written fits the widths of the format. */
  ghost predicate FileStep(crc: Checksum, s: State, a: Action, files: Files, files': Files)
    requires Enabled(s, a)
  {
    match a
    case DoWrite(id) => Appended(crc, files, s.ops[id].phase.seg, s.ops[id].blob, files')
    case DoWriteMove(src, l) => Appended(crc, files, s.moves[src][l].seg, Blob(None, [At(s.segs, l)]), files')
    case DoRotate => files' == files[s.active + 1 := []]
    case DoUnlink(src) => files' == files - {src}
    case DoCrash(keep, torn, _, _, _) =>
      exists left :: ByteCrash(crc, files, s, left) && Leaves(crc, s, keep, torn, left) && files' == Reopen(crc, s.active, left)
    case _ => files' == files
  }

  ghost predicate Appended(crc: Checksum, files: Files, x: nat, b: Blob, files': Files) {
    x in files && BlobsOk([b]) && files' == files[x := files[x] + FileOf(crc, [b])]
  }

  lemma AppendOk(crc: Checksum, files: Files, s: State, s': State, x: nat, b: Blob, files': Files)
    requires FilesOk(crc, files, s) && Appended(crc, files, x, b, files') && Bound(s, x)
    requires x in s.segs && s'.segs == Append(s.segs, x, b) && s'.active == s.active && forall y :: Bound(s', y) ==> Bound(s, y)
    ensures FilesOk(crc, files', s')
  {
    hide Bound, Holds, Shown, FileOf, BlobsOk;
    AppendHolds(crc, files[x], s.segs[x], b);
  }

  lemma SameOk(crc: Checksum, files: Files, s: State, s': State)
    requires FilesOk(crc, files, s) && s'.segs == s.segs && s'.active == s.active && forall y :: Bound(s', y) ==> Bound(s, y)
    ensures FilesOk(crc, files, s')
  {
    hide Bound, Holds, Shown;
  }

  lemma SyncHolds(crc: Checksum, file: seq<byte>, seg: Segment)
    requires Holds(crc, file, seg)
    ensures Holds(crc, file, Segment(seg.blobs, |seg.blobs|))
  {
    hide BlobsOk, Clean, FileOf;
    var head, d :| HeldBy(crc, file, seg, head, d);
    assert HeldBy(crc, file, Segment(seg.blobs, |seg.blobs|), head, d);
  }

  lemma SyncOk(crc: Checksum, files: Files, s: State, x: nat)
    requires FilesOk(crc, files, s) && x in s.segs
    ensures FilesOk(crc, files, SyncSeg(s, x))
  {
    hide Holds;
    var s' := SyncSeg(s, x);
    assert forall y :: Bound(s', y) ==> Bound(s, y);
    if Holds(crc, files[x], s.segs[x]) {
      SyncHolds(crc, files[x], s.segs[x]);
    }
  }

  lemma RotateOk(crc: Checksum, files: Files, s: State)
    requires FilesOk(crc, files, s) && s.active + 1 !in s.segs
    ensures FilesOk(crc, files[s.active + 1 := []], Rotate(s))
  {
    hide Holds, Shown, Bound;
    NewHolds(crc);
    forall y | Bound(Rotate(s), y) ensures Bound(s, y) || y == s.active + 1 {
      RotateBound(s, y);
    }
  }

  lemma RotateBound(s: State, y: nat)
    requires Bound(Rotate(s), y)
    ensures Bound(s, y) || y == s.active + 1
  {
  }

  lemma UnlinkOk(crc: Checksum, files: Files, s: State, src: nat)
    requires FilesOk(crc, files, s) && CanUnlink(s, src) && src != s.active
    ensures FilesOk(crc, files - {src}, Unlink(s, src))
  {
    hide Holds, Shown;
    assert forall y :: Bound(Unlink(s, src), y) ==> Bound(s, y);
  }

  // ---- No step but a reservation binds a segment, and that the active one ----

  lemma ReserveBound(s: State, id: nat, y: nat)
    requires id in s.ops && s.ops[id].phase.Drawn? && Bound(ReserveOp(s, id), y)
    ensures Bound(s, y)
  {
    var s' := ReserveOp(s, id);
    if j :| j in s'.ops && s'.ops[j].phase == Reserved(y) {
      assert j == id || s.ops[j] == s'.ops[j];
    }
  }

  lemma MoveBound(s: State, src: nat, l: Loc, m: Move, y: nat)
    requires src in s.moves && (m.Slot? ==> m.seg == s.active) && Bound(SetMove(s, src, l, m), y)
    ensures Bound(s, y)
  {
    var s' := SetMove(s, src, l, m);
    if c, j :| c in s'.moves && j in s'.moves[c] && s'.moves[c][j] == Slot(y) {
      if c == src && j == l {
        assert m == Slot(y);
      } else {
        assert c in s.moves && j in s.moves[c] && s.moves[c][j] == s'.moves[c][j];
      }
    }
  }

  /** Fewer operations and moves in flight. */
  lemma LessBound(s: State, s': State, y: nat)
    requires s'.active == s.active && Bound(s', y)
    requires forall id :: id in s'.ops && s'.ops[id].phase.Reserved? ==> id in s.ops && s.ops[id].phase == s'.ops[id].phase
    requires forall c, l :: c in s'.moves && l in s'.moves[c] && s'.moves[c][l].Slot? ==>
               c in s.moves && l in s.moves[c] && s.moves[c][l] == s'.moves[c][l]
    ensures Bound(s, y)
  {
    if id :| id in s'.ops && s'.ops[id].phase == Reserved(y) {
      assert s.ops[id].phase == Reserved(y);
    } else if c, l :| c in s'.moves && l in s'.moves[c] && s'.moves[c][l] == Slot(y) {
      assert s.moves[c][l] == Slot(y);
    }
  }

  lemma WriteOk(crc: Checksum, files: Files, s: State, id: nat, files': Files)
    requires FilesOk(crc, files, s) && id in s.ops && s.ops[id].phase.Reserved? && s.ops[id].phase.seg in s.segs
    requires Appended(crc, files, s.ops[id].phase.seg, s.ops[id].blob, files')
    ensures FilesOk(crc, files', WriteOp(s, id))
  {
    hide FilesOk, Bound, Appended;
    var (x, s') := (s.ops[id].phase.seg, WriteOp(s, id));
    assert Bound(s, x) by { assert s.ops[id].phase == Reserved(x); BoundBy(s, id, x); }
    forall y | Bound(s', y) ensures Bound(s, y) {
      LessBound(s, s', y);
    }
    AppendOk(crc, files, s, s', x, s.ops[id].blob, files');
  }

  lemma BoundBy(s: State, id: nat, x: nat)
    requires id in s.ops && s.ops[id].phase == Reserved(x)
    ensures Bound(s, x)
  {
  }

  lemma BoundByMove(s: State, src: nat, l: Loc, x: nat)
    requires src in s.moves && l in s.moves[src] && s.moves[src][l] == Slot(x)
    ensures Bound(s, x)
  {
  }

  lemma WriteMoveOk(crc: Checksum, files: Files, s: State, src: nat, l: Loc, files': Files)
    requires FilesOk(crc, files, s) && src in s.moves && l in s.moves[src] && s.moves[src][l].Slot? && s.moves[src][l].seg in s.segs && ValidLoc(s.segs, l)
    requires Appended(crc, files, s.moves[src][l].seg, Blob(None, [At(s.segs, l)]), files')
    ensures FilesOk(crc, files', WriteMove(s, src, l))
  {
    hide FilesOk, Bound, Appended, Append;
    var (x, s') := (s.moves[src][l].seg, WriteMove(s, src, l));
    BoundByMove(s, src, l, x);
    var d := Copied(Loc(x, |s.segs[x].blobs|, 0));
    forall y | Bound(s', y) ensures Bound(s, y) {
      LessBound(SetMove(s, src, l, d), s', y);
      MoveBound(s, src, l, d, y);
    }
    AppendOk(crc, files, s, s', x, Blob(None, [At(s.segs, l)]), files');
  }

  /** Steps that touch neither files nor segments. */
  predicate IsInner(a: Action) {
    IsBegin(a) || IsRead(a) || IsChoice(a) || a.DoReserve? || a.DoAck? || a.DoFinishMove?
  }

  lemma InnerBound(s: State, a: Action, y: nat)
    requires IsInner(a) && Enabled(s, a) && Bound(Next(s, a), y)
    ensures Bound(s, y)
  {
    hide Bound, Enabled, Next;
    if a.DoReserve? {
      ReserveStepBound(s, a, y);
    } else if IsChoice(a) || a.DoFinishMove? {
      ChoiceBound(s, a, y);
    } else {
      ClientBound(s, a, y);
    }
  }

  lemma ReserveStepBound(s: State, a: Action, y: nat)
    requires a.DoReserve? && Enabled(s, a) && Bound(Next(s, a), y)
    ensures Bound(s, y)
  {
    hide Bound;
    ReserveBound(s, a.id, y);
  }

  lemma ChoiceBound(s: State, a: Action, y: nat)
    requires (IsChoice(a) || a.DoFinishMove?) && Enabled(s, a) && Bound(Next(s, a), y)
    ensures Bound(s, y)
  {
    hide Bound, CanCompact, Carry, ValidLoc;
    match a
    case DoBeginCompact(src) => LessBound(s, Next(s, a), y);
    case DoExamine(src, l) => MoveBound(s, src, l, if Carry(s, l) then Chosen else Skipped, y);
    case DoReserveMove(src, l) => MoveBound(s, src, l, Slot(s.active), y);
    case DoFinishMove(src, l) => FinishBound(s, src, l, y);
  }

  lemma FinishBound(s: State, src: nat, l: Loc, y: nat)
    requires src in s.moves && l in s.moves[src] && s.moves[src][l].Copied? && ValidLoc(s.segs, l) && Bound(FinishMove(s, src, l), y)
    ensures Bound(s, y)
  {
    hide Bound, IsTomb, SizeOf;
    var m := Moved(s.moves[src][l].dst);
    LessBound(SetMove(s, src, l, m), FinishMove(s, src, l), y);
    MoveBound(s, src, l, m, y);
  }

  lemma ClientBound(s: State, a: Action, y: nat)
    requires (IsBegin(a) || IsRead(a) || a.DoAck?) && Enabled(s, a) && Bound(Next(s, a), y)
    ensures Bound(s, y)
  {
    hide Bound, Idle, Unwritten, ApplyIndex, ApplyNewest, ApplyCache;
    var s' := Next(s, a);
    assert s'.moves == s.moves && s'.active == s.active;
    LessBound(s, s', y);
  }

  lemma InnerFrame(s: State, a: Action)
    requires IsInner(a) && Enabled(s, a)
    ensures Next(s, a).segs == s.segs && Next(s, a).active == s.active
  {
    hide CanCompact, Carry, Idle, Unwritten;
  }

  /** Every step of the machine, with what it does to the files. */
  lemma FileStepOk(crc: Checksum, s: State, a: Action, files: Files, files': Files)
    requires Inv(s) && FilesOk(crc, files, s) && Enabled(s, a) && FileStep(crc, s, a, files, files')
    ensures FilesOk(crc, files', Next(s, a))
  {
    hide FilesOk, Bound, Ordered, NewestOk, IndexOk, CacheOk, Agree, ClockBound, OpsOk, Appended, Leaves, ByteCrash, Reopen, CanCrash, Opened;
    if IsInner(a) {
      InnerFrame(s, a);
      forall y | Bound(Next(s, a), y) ensures Bound(s, y) {
        InnerBound(s, a, y);
      }
      SameOk(crc, files, s, Next(s, a));
    } else {
      match a
      case DoWrite(id) => WriteOk(crc, files, s, id, files');
      case DoWriteMove(src, l) => WriteMoveOk(crc, files, s, src, l, files');
      case DoSync(x) => SyncOk(crc, files, s, x);
      case DoRotate => RotateOk(crc, files, s);
      case DoUnlink(src) => UnlinkOk(crc, files, s, src);
      case DoCrash(keep, torn, clock, order, newest) =>
        CrashOk(crc, s, a, files, files');
    }
  }

  lemma CrashOk(crc: Checksum, s: State, a: Action, files: Files, files': Files)
    requires a.DoCrash? && Enabled(s, a) && FileStep(crc, s, a, files, files')
    ensures FilesOk(crc, files', Next(s, a))
  {
    hide FilesOk, CutTo, Reopen, IndexOf, CleanCut, ClockPast, Lists, LeftAs, LeftOf, Shown;
    var left :| ByteCrash(crc, files, s, left) && Leaves(crc, s, a.keep, a.torn, left) && files' == Reopen(crc, s.active, left);
    ReopenOk(crc, s, a.keep, a.torn, left, a.clock, a.newest);
  }

  // ---- Runs ----

  /** A run with the files it leaves behind, from an empty directory. */
  ghost predicate FileRun(crc: Checksum, run: seq<State>, acts: seq<Action>, files: seq<Files>) {
    && IsRun(run, acts) && |files| == |run| && files[0] == map[0 := []]
    && forall i :: 0 <= i < |acts| ==> Step(run[i], acts[i], run[i + 1]) && FileStep(crc, run[i], acts[i], files[i], files[i + 1])
  }

  lemma FirstFiles(crc: Checksum)
    ensures FilesOk(crc, map[0 := []], Init())
  {
    hide Holds, Shown;
    NewHolds(crc);
  }

  /** In every state of every run the files are those of the machine: so every crash of the bytes is one of the
      machine, and every open reads back what the machine keeps (`CrashBytes`). */
  lemma {:induction false} FilesOfRun(crc: Checksum, run: seq<State>, acts: seq<Action>, files: seq<Files>, i: nat)
    requires FileRun(crc, run, acts, files) && i < |run|
    ensures FilesOk(crc, files[i], run[i])
    decreases i
  {
    hide FilesOk, FileStep, Inv, Enabled, Next;
    if i == 0 {
      FirstFiles(crc);
    } else {
      FilesOfRun(crc, run, acts, files, i - 1);
      RunInv(run, acts, i - 1);
      assert Step(run[i - 1], acts[i - 1], run[i - 1 + 1]) && FileStep(crc, run[i - 1], acts[i - 1], files[i - 1], files[i - 1 + 1]);
      FileStepOk(crc, run[i - 1], acts[i - 1], files[i - 1], files[i]);
    }
  }
}
