/** Full-scan recovery: `open_shared` without a snapshot, on whole blobs. */
module VLogRecover {
  import opened Records
  import opened VLogState
  import opened VLogInv

  // ---- The scan: segments in id order, the record with the highest timestamp wins ----

  predicate Points(segs: Segments, w: map<Key, Loc>) {
    forall k :: k in w ==> ValidLoc(segs, w[k])
  }

  /** One record met by the scan: it wins if no earlier record of its key has its timestamp or a later one. */
  function Better(segs: Segments, w: map<Key, Loc>, l: Loc): map<Key, Loc>
    requires ValidLoc(segs, l) && Points(segs, w)
  {
    var r := At(segs, l);
    if r.key !in w || At(segs, w[r.key]).ts < r.ts then w[r.key := l] else w
  }

  /** `l` comes before position `p` of blob `b` of segment `x` in the scan. */
  predicate Before(l: Loc, x: nat, b: nat, p: nat) {
    l.seg < x || (l.seg == x && (l.blob < b || (l.blob == b && l.pos < p)))
  }

  lemma BeforeNext(x: nat, b: nat, p: nat)
    ensures forall m :: Before(m, x, b, p + 1) <==> Before(m, x, b, p) || m == Loc(x, b, p)
  {
    forall m: Loc ensures Before(m, x, b, p + 1) <==> Before(m, x, b, p) || m == Loc(x, b, p) {
      assert m == Loc(m.seg, m.blob, m.pos);
    }
  }

  /** `w` holds, for every key met before (`x`, `b`, `p`), a record with the highest timestamp met. */
  ghost predicate WinnersBefore(segs: Segments, w: map<Key, Loc>, x: nat, b: nat, p: nat) {
    && Points(segs, w)
    && (forall k :: k in w ==> At(segs, w[k]).key == k && Before(w[k], x, b, p))
    && (forall l :: ValidLoc(segs, l) && Before(l, x, b, p) ==> Dominated(segs, w, l))
  }

  function ScanBlob(segs: Segments, w: map<Key, Loc>, x: nat, b: nat, p: nat): (w': map<Key, Loc>)
    requires x in segs && b < |segs[x].blobs| && p <= |segs[x].blobs[b].recs|
    requires Points(segs, w)
    ensures Points(segs, w')
    decreases p
  {
    if p == 0 then w else Better(segs, ScanBlob(segs, w, x, b, p - 1), Loc(x, b, p - 1))
  }

  function ScanSegment(segs: Segments, w: map<Key, Loc>, x: nat, b: nat): (w': map<Key, Loc>)
    requires x in segs && b <= |segs[x].blobs|
    requires Points(segs, w)
    ensures Points(segs, w')
    decreases b
  {
    if b == 0 then w
    else ScanBlob(segs, ScanSegment(segs, w, x, b - 1), x, b - 1, |segs[x].blobs[b - 1].recs|)
  }

  /** The winners among the segments with an id below `x`. */
  function Winners(segs: Segments, x: nat): (w: map<Key, Loc>)
    ensures Points(segs, w)
  {
    if x == 0 then map[]
    else if x - 1 in segs then ScanSegment(segs, Winners(segs, x - 1), x - 1, |segs[x - 1].blobs|)
    else Winners(segs, x - 1)
  }

  lemma BetterStep(segs: Segments, w: map<Key, Loc>, x: nat, b: nat, p: nat)
    requires ValidLoc(segs, Loc(x, b, p)) && WinnersBefore(segs, w, x, b, p)
    ensures WinnersBefore(segs, Better(segs, w, Loc(x, b, p)), x, b, p + 1)
  {
    assert forall l :: Before(l, x, b, p + 1) <==> Before(l, x, b, p) || l == Loc(x, b, p);
  }

  lemma {:induction false} ScanBlobWins(segs: Segments, w: map<Key, Loc>, x: nat, b: nat, p: nat)
    requires x in segs && b < |segs[x].blobs| && p <= |segs[x].blobs[b].recs| && WinnersBefore(segs, w, x, b, 0)
    ensures WinnersBefore(segs, ScanBlob(segs, w, x, b, p), x, b, p)
    decreases p
  {
    hide Better;
    if p > 0 {
      ScanBlobWins(segs, w, x, b, p - 1);
      var w1 := ScanBlob(segs, w, x, b, p - 1);
      BetterStep(segs, w1, x, b, p - 1);
      assert ScanBlob(segs, w, x, b, p) == Better(segs, w1, Loc(x, b, p - 1));
    }
  }

  lemma {:induction false} ScanSegmentWins(segs: Segments, w: map<Key, Loc>, x: nat, b: nat)
    requires x in segs && b <= |segs[x].blobs| && WinnersBefore(segs, w, x, 0, 0)
    ensures WinnersBefore(segs, ScanSegment(segs, w, x, b), x, b, 0)
    decreases b
  {
    hide ScanBlob, At;
    if b > 0 {
      ScanSegmentWins(segs, w, x, b - 1);
      var w1 := ScanSegment(segs, w, x, b - 1);
      ScanBlobWins(segs, w1, x, b - 1, |segs[x].blobs[b - 1].recs|);
      assert forall l :: ValidLoc(segs, l) && Before(l, x, b, 0) ==> Before(l, x, b - 1, |segs[x].blobs[b - 1].recs|);
    }
  }

  lemma {:induction false} WinnersWin(segs: Segments, x: nat)
    ensures WinnersBefore(segs, Winners(segs, x), x, 0, 0)
  {
    if x > 0 {
      WinnersWin(segs, x - 1);
      if x - 1 in segs {
        var n := |segs[x - 1].blobs|;
        ScanSegmentWins(segs, Winners(segs, x - 1), x - 1, n);
        assert forall l :: ValidLoc(segs, l) && Before(l, x, 0, 0) ==> Before(l, x - 1, n, 0);
      } else {
        assert forall l :: ValidLoc(segs, l) && Before(l, x, 0, 0) ==> Before(l, x - 1, 0, 0);
      }
    }
  }

  /** `newest` holds a highest-timestamp record for every key on disk. */
  ghost predicate IsWinners(segs: Segments, newest: map<Key, Loc>) {
    && Points(segs, newest)
    && (forall k :: k in newest ==> At(segs, newest[k]).key == k)
    && (forall l :: ValidLoc(segs, l) ==> Dominated(segs, newest, l))
  }

  /** The full scan keeps, for every key on disk, a record with its highest timestamp. */
  lemma FullScanWins(segs: Segments, active: nat)
    requires forall x :: x in segs ==> x <= active
    ensures IsWinners(segs, Winners(segs, active + 1))
  {
    WinnersWin(segs, active + 1);
    assert forall l :: ValidLoc(segs, l) ==> Before(l, active + 1, 0, 0);
  }

  // ---- What a crash leaves, and the store reopened on it ----

  /** Per segment, a crash keeps the durable blobs and any number of those written after them. */
  ghost predicate ValidKeep(segs: Segments, keep: map<nat, nat>) {
    && keep.Keys == segs.Keys
    && forall x :: x in segs ==> segs[x].synced <= keep[x] <= |segs[x].blobs|
  }

  function Kept(segs: Segments, keep: map<nat, nat>): Segments
    requires keep.Keys == segs.Keys && forall x :: x in segs ==> keep[x] <= |segs[x].blobs|
  {
    map x | x in segs :: Segment(segs[x].blobs[..keep[x]], keep[x])
  }

  function IndexOf(segs: Segments, newest: map<Key, Loc>): map<Key, Entry>
    requires Points(segs, newest)
  {
    map k | k in newest && !IsTomb(At(segs, newest[k])) :: Entry(newest[k], SizeOf(At(segs, newest[k])))
  }

  /** The store `open_shared` returns on files `segs` when its index holds the records `newest`, its clock set
      to `clock`. */
  function Opened(segs: Segments, active: nat, clock: nat, newest: map<Key, Loc>): State
    requires Points(segs, newest)
  {
    State(segs, active, clock, IndexOf(segs, newest), newest, map[], map[], map[], map[])
  }

  /** Past the timestamp of every record of the files. `max_ts + 1` is, and past those of headers and torn
      members too. */
  ghost predicate ClockPast(segs: Segments, clock: nat) {
    forall l :: ValidLoc(segs, l) ==> At(segs, l).ts < clock
  }

  lemma KeptAt(segs: Segments, keep: map<nat, nat>, l: Loc)
    requires ValidKeep(segs, keep)
    ensures ValidLoc(Kept(segs, keep), l) <==> ValidLoc(segs, l) && l.blob < keep[l.seg]
    ensures ValidLoc(Kept(segs, keep), l) ==> At(Kept(segs, keep), l) == At(segs, l) && Durable(Kept(segs, keep), l)
    ensures Durable(segs, l) ==> ValidLoc(Kept(segs, keep), l)
  {
  }

  /** Opening any well-shaped files whose timestamps identify records, with a highest-timestamp record of every
      key, establishes the invariant. */
  lemma OpenedInv(segs: Segments, active: nat, clock: nat, newest: map<Key, Loc>)
    requires Shape(segs, active) && Agree(segs) && ClockPast(segs, clock) && IsWinners(segs, newest)
    requires forall l :: ValidLoc(segs, l) ==> Durable(segs, l)
    ensures Inv(Opened(segs, active, clock, newest))
  {
    var s := Opened(segs, active, clock, newest);
    assert forall l :: ValidLoc(segs, l) ==> Dominated(segs, s.newest, l);
    assert NewestOk(segs, s.ops, s.moves, s.newest);
    assert IndexOk(segs, s.newest, s.index);
  }

  /** Reopening after a crash establishes the invariant again. */
  lemma CrashInv(s: State, keep: map<nat, nat>, clock: nat, newest: map<Key, Loc>)
    requires Inv(s) && ValidKeep(s.segs, keep) && ClockPast(Kept(s.segs, keep), clock) && IsWinners(Kept(s.segs, keep), newest)
    ensures Inv(Opened(Kept(s.segs, keep), s.active, clock, newest))
  {
    var segs' := Kept(s.segs, keep);
    forall l | ValidLoc(segs', l) ensures ValidLoc(s.segs, l) && At(segs', l) == At(s.segs, l) && Durable(segs', l) {
      KeptAt(s.segs, keep, l);
    }
    assert Shape(segs', s.active);
    AgreeFrame(s.segs, segs');
    OpenedInv(segs', s.active, clock, newest);
  }
}
