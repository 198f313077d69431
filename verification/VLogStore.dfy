/** The value log as the object clients hold: `VLog`, for operations that do not overlap. Each
    method is the composition of machine steps its source runs through, with I/O that succeeds. */
module VLogStore {
  import opened Bytes
  import opened Records
  import opened VLogState
  import opened VLogInv
  import opened VLogRecover
  import opened VLogRefinement
  import opened VLogLedgers
  import opened VLogCommit
  import opened VLogOpen
  import opened VLogReclaim

  /** No record of the same key has a higher timestamp. */
  ghost predicate Highest(files: Segments, l: Loc) {
    ValidLoc(files, l) && forall m :: ValidLoc(files, m) && At(files, m).key == At(files, l).key ==> At(files, m).ts <= At(files, l).ts
  }

  /** `m` is what the highest-timestamp record of each key on disk says. */
  ghost predicate HighestWins(files: Segments, m: map<Key, Value>) {
    && (forall l :: Highest(files, l) ==>
          var r := At(files, l);
          (r.key in m <==> !IsTomb(r)) && (!IsTomb(r) ==> m[r.key] == r.value))
    && (forall k :: k in m ==> exists l :: Highest(files, l) && At(files, l).key == k)
  }

  lemma WinnersHighest(files: Segments, w: map<Key, Loc>)
    requires Agree(files) && IsWinners(files, w)
    ensures HighestWins(files, map k | k in w && !IsTomb(At(files, w[k])) :: At(files, w[k]).value)
  {
    forall l | Highest(files, l) ensures At(files, l).key in w && At(files, w[At(files, l).key]) == At(files, l) {
      var r := At(files, l);
      assert Dominated(files, w, l);
      assert SameStamp(r, At(files, w[r.key]));
    }
    forall k | k in w ensures Highest(files, w[k]) {
      forall m | ValidLoc(files, m) && At(files, m).key == k ensures At(files, m).ts <= At(files, w[k]).ts {
        assert Dominated(files, w, m);
      }
    }
  }

  lemma OpenContents(s: State, files: Segments, w: map<Key, Loc>)
    requires s.segs == files && IsWinners(files, w) && s.index == IndexOf(files, w)
    ensures IndexPoints(s) && Contents(s) == map k | k in w && !IsTomb(At(files, w[k])) :: At(files, w[k]).value
  {
  }

  lemma EntriesInFiles(files: Segments, w: map<Key, Loc>)
    requires Points(files, w)
    ensures forall k :: k in IndexOf(files, w) ==> IndexOf(files, w)[k].loc.seg in files && IndexOf(files, w)[k].size > 0
  {
  }

  lemma OpenGood(files: Segments, active: nat, clock: nat, books: Ledger)
    requires Shape(files, active) && Agree(files) && ClockPast(files, clock)
    requires forall m :: ValidLoc(files, m) ==> Durable(files, m)
    requires DiskExact(IndexOf(files, Winners(files, active + 1)), books.disk)
    requires LiveExact(files, map[], IndexOf(files, Winners(files, active + 1)), books.live)
    ensures var s := Opened(files, active, clock, Winners(files, active + 1)); Good(s, books) && IndexPoints(s) && HighestWins(files, Contents(s))
  {
    hide Inv, HighestWins, Winners, IndexOf, LiveOk, DiskExact, IsWinners;
    var s := Opened(files, active, clock, Winners(files, active + 1));
    FullScanWins(files, active);
    OpenedInv(files, active, clock, s.newest);
    WinnersHighest(files, s.newest);
    OpenContents(s, files, s.newest);
  }

  /** The store. Its fields - segments, active id, clock, index, cache - are those of `st`, its two
      ledgers those of `books`; operations that do not overlap leave no op, read or move pending. */
  class VLog {
    var st: State
    var books: Ledger

    ghost predicate Valid()
      reads this
    {
      Good(st, books) && IndexPoints(st)
    }

    /** The map clients read. */
    ghost function Map(): map<Key, Value>
      reads this
      requires Valid()
    {
      Contents(st)
    }

    /** `open_shared` by full scan: `files` are the records of the files found, after the cut of torn
        tails, all of them durable. */
    constructor Open(files: Segments, active: nat)
      requires Shape(files, active) && Agree(files) && forall m :: ValidLoc(files, m) ==> Durable(files, m)
      ensures Valid() && HighestWins(files, Map()) && ClockPast(files, st.clock)
    {
      hide Sane, HighestWins, Winners, IndexOf, DiskExact, LiveExact;
      FullScanWins(files, active);
      var w, ts := FullScan(files, active);
      var index := BuildIndex(files, w);
      EntriesInFiles(files, w);
      ghost var a, b;
      var live, disk;
      live, a := SeedLive(files, index);
      disk, b := RecoverTenantDisk(index);
      st := State(files, active, ts + 1, index, w, map[], map[], map[], map[]);
      books := Ledger(live, disk);
      OpenGood(files, active, ts + 1, Ledger(live, disk));
    }

    /** `get_scoped`: the cache first, then the record the index points at, which then is cached. */
    method Get(k: Key) returns (v: Option<Value>)
      requires Valid()
      modifies this`st
      ensures Valid() && Map() == old(Map()) && st.index == old(st).index
      ensures v == if k in Map() then Some(Map()[k]) else None
    {
      hide Sane;
      GetGood(st, books, k);
      if k in st.cache {
        return Some(st.cache[k]);
      }
      if k !in st.index {
        return None;
      }
      v := Some(At(st.segs, st.index[k].loc).value);
      st := st.(cache := st.cache[k := v.value]);
    }

    /** `set_scoped` with the disk quota; `rotate` says whether `maybe_rotate` starts a new segment. */
    method Set(k: Key, v: Value, limit: Option<nat>, rotate: bool) returns (ok: bool)
      requires Valid()
      modifies this
      ensures Valid()
      ensures !ok <==> limit.Some? && limit.value < Projected(old(books).disk, old(st).index, k, v)
      ensures ok ==> Map() == old(Map())[k := v]
      ensures !ok ==> st == old(st) && books == old(books)
      ensures ok && limit.Some? ==> Row(books.disk, TenantOf(k)) <= limit.value
    {
      hide Sane;
      SaneActive(st, books, true);
      if limit.Some? && Projected(books.disk, st.index, k, v) > limit.value {
        return false;
      }
      var r := Record(st.clock, Scalar, k, v);
      CommitOneGood(st, books, r, rotate);
      st, books := Rotated(st, rotate), RotatedBooks(st, books, rotate);
      st, books := CommitOne(st, r), ChargeOne(st, books, r);
      ok := true;
    }

    /** `append_scoped`: the value grows at its end, and the new length is returned; over quota nothing
        is written. */
    method Append(k: Key, v: Value, limit: Option<nat>, rotate: bool) returns (length: Option<nat>)
      requires Valid()
      modifies this
      ensures Valid()
      ensures var grown := (if k in old(Map()) then old(Map())[k] else []) + v;
              && (length.None? <==> limit.Some? && limit.value < Projected(old(books).disk, old(st).index, k, grown))
              && (length.Some? ==> length.value == |grown| && Map() == old(Map())[k := grown])
              && (length.None? ==> Map() == old(Map()) && books == old(books))
    {
      hide Sane;
      var current := Get(k);
      var grown := if current.Some? then current.value + v else v;
      assert grown == (if current.Some? then current.value else []) + v;
      var ok := Set(k, grown, limit, rotate);
      length := if ok then Some(|grown|) else None;
    }

    /** `del`: false if the key was absent, and then nothing is written. */
    method Del(k: Key, rotate: bool) returns (existed: bool)
      requires Valid()
      modifies this
      ensures Valid()
      ensures existed == (k in old(Map())) && Map() == old(Map()) - {k}
      ensures !existed ==> st == old(st) && books == old(books)
    {
      hide Sane;
      SaneActive(st, books, true);
      if k !in st.index {
        return false;
      }
      var r := Record(st.clock, Tombstone, k, []);
      CommitOneGood(st, books, r, rotate);
      st, books := Rotated(st, rotate), RotatedBooks(st, books, rotate);
      st, books := CommitOne(st, r), ChargeOne(st, books, r);
      existed := true;
    }

    /** `set_many`: all pairs in order, later ones winning, or nothing if the batch is too big. */
    method SetMany(pairs: seq<(Key, Value)>, maxSegment: nat, rotate: bool) returns (ok: bool)
      requires Valid() && |pairs| <= U32_MAX
      modifies this
      ensures Valid()
      ensures ok ==> Map() == Perform(old(Map()), Puts(pairs))
      ensures ok <==> pairs == [] || BatchBytes(Members(pairs, old(st).clock + 1)) <= maxSegment
      ensures !ok ==> Map() == old(Map()) && books == old(books)
    {
      hide Sane, BatchBytes;
      if pairs == [] {
        assert Puts(pairs) == [];
        return true;
      }
      var s, l;
      s, l, ok := SetBatch(st, books, pairs, maxSegment, rotate);
      st, books := s, l;
    }

    /** `compact_segment`: nothing a client can read changes, the source is gone and no dead record
        appears elsewhere; the active segment and unknown ids are left alone. */
    method CompactSegment(src: nat)
      requires Valid()
      modifies this
      ensures Valid() && Map() == old(Map())
      ensures src == old(st).active || src !in old(st).segs ==> st == old(st) && books == old(books)
      ensures src != old(st).active && src in old(st).segs ==> Cleared(old(st), st, src)
    {
      hide Sane;
      var s, l := Compact(st, books, src, true);
      GoodPoints(s, l);
      if src != st.active && src in st.segs {
        ReadsContents(st, s);
      }
      st, books := s, l;
    }

    /** `reclaim_all_dead`: every data record left on disk is one the index points at. */
    method ReclaimAllDead(sizes: map<nat, nat>)
      requires Valid() && FileSizes(st, sizes)
      modifies this
      ensures Valid() && Map() == old(Map()) && NoDead(st)
    {
      hide Sane, NoDead;
      var s, l := ReclaimAll(st, books, sizes, true);
      st, books := s, l;
    }
  }
}
