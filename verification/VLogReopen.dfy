/** Stores reopened from a snapshot: when that shows the map of the full scan, and when the run may go on. */
module VLogReopen {
  import opened Bytes
  import opened Records
  import opened VLogState
  import opened VLogInv
  import opened VLogRecover
  import opened VLogPlaces
  import opened VLogRuns
  import opened VLogRefinement
  import opened VLogSnapshot

  // ---- A snapshot index as the index of highest timestamps ----

  /** `index` points at a highest-timestamp record of every key that has not been deleted. */
  ghost predicate Sound(segs: Segments, index: map<Key, Entry>) {
    exists newest :: IsWinners(segs, newest) && index == IndexOf(segs, newest)
  }

  /** The last record of every key from the high-water mark on is the one with the highest timestamp, or both are
      tombstones. */
  ghost predicate LastIsHighest(segs: Segments, hwm: nat, active: nat) {
    var w := Winners(segs, active + 1);
    forall k, l :: IsLast(segs, hwm, k, l) ==>
      && k in w
      && if IsTomb(At(segs, l)) then IsTomb(At(segs, w[k])) else At(segs, l) == At(segs, w[k])
  }

  /** The read of the entry of `k` finds the record it found at `s0`. */
  ghost predicate StillHolds(s0: State, segs: Segments, k: Key) {
    && k in s0.index && ValidLoc(s0.segs, s0.index[k].loc)
    && var r := Resolve(s0.segs, s0.index[k], segs);
       r.Some? && At(segs, r.value) == At(s0.segs, s0.index[k].loc)
  }

  ghost predicate StillItself(segs: Segments, s0: State) {
    forall k :: k in s0.index && (forall l :: !Tail(segs, s0.active, k, l)) ==> StillHolds(s0, segs, k)
  }

  /** Two ways to pick highest timestamps pick the same records. */
  lemma SameWinners(segs: Segments, w: map<Key, Loc>, w': map<Key, Loc>, k: Key)
    requires Agree(segs) && IsWinners(segs, w) && IsWinners(segs, w')
    ensures (k in w <==> k in w') && (k in w ==> At(segs, w[k]) == At(segs, w'[k]))
  {
    if k in w {
      assert Dominated(segs, w', w[k]);
      assert Dominated(segs, w, w'[k]);
      assert SameStamp(At(segs, w[k]), At(segs, w'[k]));
    }
    if k in w' {
      assert Dominated(segs, w, w'[k]);
    }
  }

  /** A map that differs from one of highest timestamps only in which copy of a record it names. */
  lemma OtherCopies(segs: Segments, w: map<Key, Loc>, w': map<Key, Loc>)
    requires IsWinners(segs, w) && w'.Keys == w.Keys
    requires forall k :: k in w' ==> ValidLoc(segs, w'[k]) && At(segs, w'[k]) == At(segs, w[k])
    ensures IsWinners(segs, w')
  {
    forall l | ValidLoc(segs, l) ensures Dominated(segs, w', l) {
      assert Dominated(segs, w, l);
    }
  }

  /** An index that names, for each key, the highest-timestamp record or a copy of it, is sound. */
  lemma CopiesSound(segs: Segments, w: map<Key, Loc>, index: map<Key, Entry>)
    requires IsWinners(segs, w)
    requires forall k :: k in index <==> k in w && !IsTomb(At(segs, w[k]))
    requires forall k :: k in index ==>
               ValidLoc(segs, index[k].loc) && At(segs, index[k].loc) == At(segs, w[k]) && index[k].size == SizeOf(At(segs, w[k]))
    ensures Sound(segs, index)
  {
    hide SizeOf, IsTomb;
    var w' := map k | k in w :: if k in index then index[k].loc else w[k];
    OtherCopies(segs, w, w');
    assert IndexOf(segs, w') == index;
  }

  /** And conversely. */
  lemma SoundCopies(segs: Segments, w: map<Key, Loc>, index: map<Key, Entry>, k: Key)
    requires Agree(segs) && IsWinners(segs, w) && Sound(segs, index)
    ensures k in index <==> k in w && !IsTomb(At(segs, w[k]))
    ensures k in index ==>
              ValidLoc(segs, index[k].loc) && At(segs, index[k].loc) == At(segs, w[k]) && index[k].size == SizeOf(At(segs, w[k]))
  {
    hide SizeOf, IsTomb;
    var w' :| IsWinners(segs, w') && index == IndexOf(segs, w');
    SameWinners(segs, w, w', k);
  }

  // ---- Key by key ----

  ghost predicate RightAt(segs: Segments, w: map<Key, Loc>, index: map<Key, Entry>, k: Key)
    requires IsWinners(segs, w)
  {
    && (k in index <==> k in w && !IsTomb(At(segs, w[k])))
    && (k in index ==>
          ValidLoc(segs, index[k].loc) && At(segs, index[k].loc) == At(segs, w[k]) && index[k].size == SizeOf(At(segs, w[k])))
  }

  lemma TailRight(segs: Segments, s0: State, active: nat, k: Key, l: Loc)
    requires s0.active <= active && (forall x :: x in segs ==> x <= active) && IsLast(segs, s0.active, k, l)
    ensures var w := Winners(segs, active + 1);
            && IsWinners(segs, w) && k in w
            && (RightAt(segs, w, SnapshotIndex(segs, s0, active), k) <==>
                if IsTomb(At(segs, l)) then IsTomb(At(segs, w[k])) else At(segs, l) == At(segs, w[k]))
  {
    hide SizeOf, IsTomb, Loaded, Replay;
    var w := Winners(segs, active + 1);
    FullScanWins(segs, active);
    assert Dominated(segs, w, l);
    ReplayDecides(segs, Loaded(s0, segs), s0.active, active, k);
    var index := SnapshotIndex(segs, s0, active);
    assert Tail(segs, s0.active, k, l);
    var m :| IsLast(segs, s0.active, k, m) && Reflects(segs, index, k, m);
    assert m == l;
  }

  lemma NoTailRight(s0: State, s: State, keep: map<nat, nat>, k: Key)
    requires SnapshotUsed(s0, s, keep) && QuietBelow(s0.ops, s0.moves, s0.active)
    requires forall l :: !Tail(Kept(s.segs, keep), s0.active, k, l)
    ensures var segs := Kept(s.segs, keep);
            var w := Winners(segs, s.active + 1);
            && IsWinners(segs, w)
            && (RightAt(segs, w, SnapshotIndex(segs, s0, s.active), k) <==> (k in s0.index ==> StillHolds(s0, segs, k)))
  {
    hide Ordered, OpsOk, MovesOk, CacheOk, NewestOk, ClockBound, Agree, QuietBelow, Winners, FilesLater, NewestLater;
    hide SnapshotIndex, Backed, SizeOf, Offset, HasKey;
    var segs := Kept(s.segs, keep);
    KeptBelow(s, keep);
    FullScanWins(segs, s.active);
    NoTailRecord(s0, s, keep, k);
    NoTailIndex(s0, k);
    NoTailLoaded(segs, s0, s.active, k);
  }

  /** Recovery from the snapshot points at highest-timestamp records if and only if the last record of every key
      from the high-water mark on is one, and the entries of the other keys still find their records. */
  lemma SoundIff(s0: State, s: State, keep: map<nat, nat>)
    requires SnapshotUsed(s0, s, keep) && QuietBelow(s0.ops, s0.moves, s0.active)
    ensures var segs := Kept(s.segs, keep);
            Sound(segs, SnapshotIndex(segs, s0, s.active)) <==> LastIsHighest(segs, s0.active, s.active) && StillItself(segs, s0)
  {
    hide Inv, Kept, FilesLater, NewestLater, QuietBelow, Winners, SnapshotIndex, IsTomb, Sound, RightAt, StillHolds, IsWinners, LastIsHighest;
    var segs := Kept(s.segs, keep);
    var (w, index) := (Winners(segs, s.active + 1), SnapshotIndex(segs, s0, s.active));
    KeptBelow(s, keep);
    FullScanWins(segs, s.active);
    KeptAgree(s, keep);
    if LastIsHighest(segs, s0.active, s.active) && StillItself(segs, s0) {
      forall k ensures RightAt(segs, w, index, k) {
        KeyRight(s0, s, keep, k);
      }
      AllRight(segs, w, index);
    }
    if Sound(segs, index) {
      forall k ensures RightAt(segs, w, index, k) {
        RightOfSound(segs, w, index, k);
      }
      RightTails(segs, s0, s.active, w, index);
      forall k | k in s0.index && (forall l :: !Tail(segs, s0.active, k, l)) ensures StillHolds(s0, segs, k) {
        NoTailRight(s0, s, keep, k);
      }
    }
  }

  lemma RightTails(segs: Segments, s0: State, active: nat, w: map<Key, Loc>, index: map<Key, Entry>)
    requires s0.active <= active && (forall x :: x in segs ==> x <= active) && IsWinners(segs, w)
    requires w == Winners(segs, active + 1) && index == SnapshotIndex(segs, s0, active) && forall k :: RightAt(segs, w, index, k)
    ensures LastIsHighest(segs, s0.active, active)
  {
    hide Winners, SnapshotIndex, IsTomb, RightAt, Dominated, Before;
    forall k, l | IsLast(segs, s0.active, k, l)
      ensures k in w && if IsTomb(At(segs, l)) then IsTomb(At(segs, w[k])) else At(segs, l) == At(segs, w[k])
    {
      TailRight(segs, s0, active, k, l);
      assert RightAt(segs, w, index, k);
    }
  }

  lemma KeyRight(s0: State, s: State, keep: map<nat, nat>, k: Key)
    requires SnapshotUsed(s0, s, keep) && QuietBelow(s0.ops, s0.moves, s0.active)
    requires LastIsHighest(Kept(s.segs, keep), s0.active, s.active) && StillItself(Kept(s.segs, keep), s0)
    ensures var segs := Kept(s.segs, keep);
            var w := Winners(segs, s.active + 1);
            IsWinners(segs, w) && RightAt(segs, w, SnapshotIndex(segs, s0, s.active), k)
  {
    hide Inv, Kept, FilesLater, NewestLater, QuietBelow, Winners, Loaded, IsTomb, IsWinners, RightAt, StillHolds, Replay;
    var segs := Kept(s.segs, keep);
    KeptBelow(s, keep);
    FullScanWins(segs, s.active);
    if l :| Tail(segs, s0.active, k, l) {
      ReplayDecides(segs, Loaded(s0, segs), s0.active, s.active, k);
      var last :| IsLast(segs, s0.active, k, last);
      TailRight(segs, s0, s.active, k, last);
    } else {
      NoTailRight(s0, s, keep, k);
    }
  }

  lemma AllRight(segs: Segments, w: map<Key, Loc>, index: map<Key, Entry>)
    requires IsWinners(segs, w) && forall k :: RightAt(segs, w, index, k)
    ensures Sound(segs, index)
  {
    hide Sound, IsTomb, SizeOf, Dominated;
    forall k ensures k in index <==> k in w && !IsTomb(At(segs, w[k])) {
      assert RightAt(segs, w, index, k);
    }
    forall k | k in index
      ensures ValidLoc(segs, index[k].loc) && At(segs, index[k].loc) == At(segs, w[k]) && index[k].size == SizeOf(At(segs, w[k]))
    {
      assert RightAt(segs, w, index, k);
    }
    CopiesSound(segs, w, index);
  }

  lemma RightOfSound(segs: Segments, w: map<Key, Loc>, index: map<Key, Entry>, k: Key)
    requires Agree(segs) && IsWinners(segs, w) && Sound(segs, index)
    ensures RightAt(segs, w, index, k)
  {
    hide IsWinners, Sound, IsTomb, SizeOf;
    SoundCopies(segs, w, index, k);
  }

  lemma KeptAgree(s: State, keep: map<nat, nat>)
    requires Inv(s) && ValidKeep(s.segs, keep)
    ensures Agree(Kept(s.segs, keep))
  {
    hide Ordered, OpsOk, MovesOk, CacheOk, IndexOk, NewestOk, ClockBound;
    var segs := Kept(s.segs, keep);
    forall l | ValidLoc(segs, l) ensures ValidLoc(s.segs, l) && At(segs, l) == At(s.segs, l) {
      KeptAt(s.segs, keep, l);
    }
  }

  // ---- When nothing can go wrong ----

  /** Scan order agrees with timestamp order from the high-water mark on, and no record before it
      is newer than one after it. */
  ghost predicate ScanInOrder(segs: Segments, hwm: nat) {
    forall k, l, m :: Tail(segs, hwm, k, l) && ValidLoc(segs, m) && At(segs, m).key == k && Before(m, l.seg, l.blob, l.pos) ==>
      At(segs, m).ts <= At(segs, l).ts
  }

  /** When scan order agrees with timestamp order the last record of a key is its newest. */
  lemma InOrderIsHighest(s0: State, s: State, keep: map<nat, nat>)
    requires SnapshotUsed(s0, s, keep) && ScanInOrder(Kept(s.segs, keep), s0.active)
    ensures LastIsHighest(Kept(s.segs, keep), s0.active, s.active)
  {
    hide Inv, Kept, FilesLater, NewestLater, QuietBelow, SizeOf, Winners;
    var segs := Kept(s.segs, keep);
    var w := Winners(segs, s.active + 1);
    KeptBelow(s, keep);
    FullScanWins(segs, s.active);
    KeptAgree(s, keep);
    forall k, l | IsLast(segs, s0.active, k, l) ensures k in w && At(segs, l) == At(segs, w[k]) {
      assert Dominated(segs, w, l);
      assert w[k] == l || Before(w[k], l.seg, l.blob, l.pos) by {
        if s0.active <= w[k].seg { assert Tail(segs, s0.active, k, w[k]); }
      }
      assert SameStamp(At(segs, l), At(segs, w[k]));
    }
  }

  /** The condition for going on is the stronger one. */
  lemma SoundReads(segs: Segments, s0: State, active: nat)
    ensures LastIsHighest(segs, s0.active, active) ==> LastIsNewest(segs, s0.active, active)
    ensures StillItself(segs, s0) ==> StillThere(segs, s0)
  {
    hide Winners, Resolve;
    if StillItself(segs, s0) {
      forall k | k in s0.index && (forall l :: !Tail(segs, s0.active, k, l)) ensures StillReads(s0, segs, k) {
        assert StillHolds(s0, segs, k);
      }
    }
  }

  /** With scan order in timestamp order, a usable snapshot whose entries were durable when it was taken is as
      good as the full scan, to read and to go on from. */
  lemma DurableSnapshotSound(s0: State, s: State, keep: map<nat, nat>)
    requires SnapshotUsed(s0, s, keep) && QuietBelow(s0.ops, s0.moves, s0.active)
    requires ScanInOrder(Kept(s.segs, keep), s0.active) && Usable(Kept(s.segs, keep), s0)
    requires forall k :: k in s0.index ==> Durable(s0.segs, s0.index[k].loc)
    ensures var segs := Kept(s.segs, keep);
            && ReadMap(segs, SnapshotIndex(segs, s0, s.active)) == ReadMap(segs, ScanIndex(segs, s.active))
            && Sound(segs, SnapshotIndex(segs, s0, s.active))
  {
    hide Inv, LastIsNewest, LastIsHighest, ScanInOrder, Since, QuietBelow, ReadMap, SnapshotIndex, ScanIndex, Sound, Resolve, StillThere;
    var segs := Kept(s.segs, keep);
    InOrderIsHighest(s0, s, keep);
    forall k | k in s0.index ensures StillHolds(s0, segs, k) {
      DurableStays(s0, s, keep, k);
    }
    SoundReads(segs, s0, s.active);
    SnapshotIff(s0, s, keep);
    SoundIff(s0, s, keep);
  }

  // ---- Over whole runs ----

  /** State `n` of the run took the snapshot, when no append or copy was bound below its high-water mark. Any steps
      may have followed, crashes and reopens among them. */
  ghost predicate Snapped(run: seq<State>, acts: seq<Action>, n: nat) {
    IsRun(run, acts) && n <= |acts| && QuietBelow(run[n].ops, run[n].moves, run[n].active)
  }

  lemma RunInv(run: seq<State>, acts: seq<Action>, i: nat)
    requires IsRun(run, acts) && i <= |acts|
    ensures Inv(run[i])
  {
    hide Inv, Enabled, Next, Abstracts;
    RunsRefine(run[..i + 1], acts[..i]);
  }

  lemma {:induction false} SnappedSince(run: seq<State>, acts: seq<Action>, n: nat, i: nat)
    requires Snapped(run, acts, n) && n <= i <= |acts|
    ensures Since(run[n], run[i])
    decreases i
  {
    hide Inv, Enabled, Next, Since, QuietBelow;
    RunInv(run, acts, n);
    if i == n {
      SinceStart(run[n]);
    } else {
      SnappedSince(run, acts, n, i - 1);
      RunInv(run, acts, i - 1);
      assert Step(run[i - 1], acts[i - 1], run[i]);
      SinceNext(run[n], run[i - 1], acts[i - 1]);
    }
  }

  lemma SnappedUsed(run: seq<State>, acts: seq<Action>, n: nat, keep: map<nat, nat>)
    requires Snapped(run, acts, n) && ValidKeep(run[|acts|].segs, keep)
    ensures SnapshotUsed(run[n], run[|acts|], keep)
  {
    hide Inv, Since, QuietBelow, ValidKeep;
    RunInv(run, acts, n);
    RunInv(run, acts, |acts|);
    SnappedSince(run, acts, n, |acts|);
  }

  /** In every run, whatever happened since the snapshot: the store opens with the map of the full scan if and
      only if, should the snapshot be used, no key ends, from the high-water mark on, in a record older in effect
      than its newest, and the entries of the other keys still read their values. */
  lemma SnapshotOfRunIff(run: seq<State>, acts: seq<Action>, n: nat, keep: map<nat, nat>)
    requires Snapped(run, acts, n) && ValidKeep(run[|acts|].segs, keep)
    ensures var (s0, s) := (run[n], run[|acts|]);
            var segs := Kept(s.segs, keep);
            && s0.active <= s.active
            && (ReadMap(segs, OpenIndex(segs, s0, s.active)) == ReadMap(segs, ScanIndex(segs, s.active)) <==>
                  (Usable(segs, s0) ==> LastIsNewest(segs, s0.active, s.active) && StillThere(segs, s0)))
  {
    hide Inv, QuietBelow, LastIsNewest, SnapshotIndex, ScanIndex, ReadMap, StillThere, Usable;
    SnappedUsed(run, acts, n, keep);
    SnapshotIff(run[n], run[|acts|], keep);
  }

  /** The clock an open from the snapshot computes - past the snapshot's and past every record it replays - is past
      every record there is. */
  lemma SnapshotClock(run: seq<State>, acts: seq<Action>, n: nat, keep: map<nat, nat>, clock: nat)
    requires Snapped(run, acts, n) && ValidKeep(run[|acts|].segs, keep) && run[n].clock <= clock
    requires var segs := Kept(run[|acts|].segs, keep); forall k, l :: Tail(segs, run[n].active, k, l) ==> At(segs, l).ts < clock
    ensures ClockPast(Kept(run[|acts|].segs, keep), clock)
  {
    hide Kept, Since, QuietBelow, Ordered, OpsOk, MovesOk, CacheOk, IndexOk, NewestOk, Agree;
    SnappedUsed(run, acts, n, keep);
    var (s0, s, segs) := (run[n], run[|acts|], Kept(run[|acts|].segs, keep));
    forall l | ValidLoc(segs, l) ensures At(segs, l).ts < clock {
      if l.seg < s0.active {
        BelowIsOld(s0, s, keep, l);
      } else {
        assert Tail(segs, s0.active, At(segs, l).key, l);
      }
    }
  }

  /** In every run, whatever happened since the snapshot: reopening beside the snapshot is a reopen of the machine,
      after which every theorem about runs goes on to hold, if and only if, should the snapshot be used, every key
      that ends, from the high-water mark on, in a record ends in its newest, and the entries of the other keys
      still find their records. */
  lemma SnapshotStepIff(run: seq<State>, acts: seq<Action>, n: nat, keep: map<nat, nat>, torn: nat, clock: nat, order: seq<nat>)
    requires Snapped(run, acts, n) && CanCrash(run[|acts|], keep, torn, clock, order)
    ensures var (s0, s) := (run[n], run[|acts|]);
            var segs := Kept(s.segs, keep);
            && s0.active <= s.active
            && (Reopens(s, keep, torn, clock, order, OpenIndex(segs, s0, s.active)) <==>
                  (Usable(segs, s0) ==> LastIsHighest(segs, s0.active, s.active) && StillItself(segs, s0)))
  {
    hide Inv, QuietBelow, LastIsHighest, SnapshotIndex, StillItself, Usable, Reopens, Sound, ScanIndex, Kept, CleanCut, ClockPast, Lists;
    SnappedUsed(run, acts, n, keep);
    var (s0, s, segs) := (run[n], run[|acts|], Kept(run[|acts|].segs, keep));
    SoundIff(s0, s, keep);
    ReopensIff(s, keep, torn, clock, order, OpenIndex(segs, s0, s.active));
    ScanSound(s, keep);
  }

  lemma ScanSound(s: State, keep: map<nat, nat>)
    requires Inv(s) && ValidKeep(s.segs, keep)
    ensures var segs := Kept(s.segs, keep); Sound(segs, ScanIndex(segs, s.active))
  {
    hide Inv, Winners, Kept, IsWinners, IndexOf;
    KeptBelow(s, keep);
    FullScanWins(Kept(s.segs, keep), s.active);
  }

  /** A crash step of the machine leaves the store with this index. */
  ghost predicate Reopens(s: State, keep: map<nat, nat>, torn: nat, clock: nat, order: seq<nat>, index: map<Key, Entry>) {
    exists newest :: CrashTo(s, DoCrash(keep, torn, clock, order, newest), index)
  }

  ghost predicate CrashTo(s: State, a: Action, index: map<Key, Entry>) {
    Enabled(s, a) && Next(s, a).index == index
  }

  lemma CrashToIff(s: State, keep: map<nat, nat>, torn: nat, clock: nat, order: seq<nat>, newest: map<Key, Loc>, index: map<Key, Entry>)
    requires CanCrash(s, keep, torn, clock, order)
    ensures var segs := Kept(s.segs, keep);
            CrashTo(s, DoCrash(keep, torn, clock, order, newest), index) <==> IsWinners(segs, newest) && index == IndexOf(segs, newest)
  {
    hide CanCrash, Kept, IndexOf, Dominated;
  }

  lemma ReopensIff(s: State, keep: map<nat, nat>, torn: nat, clock: nat, order: seq<nat>, index: map<Key, Entry>)
    requires CanCrash(s, keep, torn, clock, order)
    ensures Reopens(s, keep, torn, clock, order, index) <==> Sound(Kept(s.segs, keep), index)
  {
    hide CleanCut, ClockPast, Lists, Kept, IndexOf, Dominated, CrashTo;
    var segs := Kept(s.segs, keep);
    if Reopens(s, keep, torn, clock, order, index) {
      var newest :| CrashTo(s, DoCrash(keep, torn, clock, order, newest), index);
      CrashToIff(s, keep, torn, clock, order, newest, index);
    }
    if Sound(segs, index) {
      var newest :| IsWinners(segs, newest) && index == IndexOf(segs, newest);
      CrashToIff(s, keep, torn, clock, order, newest, index);
      assert CrashTo(s, DoCrash(keep, torn, clock, order, newest), index);
    }
  }
}
