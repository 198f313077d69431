/** The value log as a state machine: `vlog.rs`, cut at its `.await` points.

    A segment is the sequence of blobs written to its file, with the length of the prefix a sync
    has made durable. A client write goes through four steps: its timestamps are drawn, room is
    reserved in the active segment, the committer writes the blob, and - once a sync has covered
    it - the index is updated. A compaction of a segment examines each record, and relocates the
    live ones through the same append path, keeping their timestamps. */
module VLogState {
  import opened Bytes
  import opened Records
  import opened Batches

  /** Where a record is: segment, blob within the segment, position within the blob. */
  datatype Loc = Loc(seg: nat, blob: nat, pos: nat)

  datatype Entry = Entry(loc: Loc, size: nat)

  datatype Segment = Segment(blobs: seq<Blob>, synced: nat)

  datatype Phase = Drawn | Reserved(seg: nat) | Written(seg: nat, blob: nat)

  /** A `set`, `del` or `set_many` between its first step and its index update. `prev` is the
      index entry `set` and `del` read before their await. */
  datatype ClientOp = ClientOp(blob: Blob, prev: Option<Entry>, phase: Phase)

  /** A `get` that missed the cache, between its `pread` and its cache insert. */
  datatype Read = Read(key: Key, value: Value)

  /** One record of a segment under compaction. */
  datatype Move =
    | Skipped
    | Chosen
    | Slot(seg: nat)
    | Copied(dst: Loc)
    | Moved(dst: Loc)

  type Segments = map<nat, Segment>
  type Ops = map<nat, ClientOp>
  type Moves = map<nat, map<Loc, Move>>

  datatype State = State(
    segs: Segments,
    active: nat,
    clock: nat,
    index: map<Key, Entry>,
    /** History: the newest applied record of each key, tombstones included. */
    newest: map<Key, Loc>,
    ops: Ops,
    gets: map<nat, Read>,
    /** The compactions in progress, by source segment. */
    moves: Moves,
    cache: map<Key, Value>)

  // ---- Looking at the files ----

  predicate ValidLoc(segs: Segments, l: Loc) {
    && l.seg in segs
    && l.blob < |segs[l.seg].blobs|
    && l.pos < |segs[l.seg].blobs[l.blob].recs|
  }

  function At(segs: Segments, l: Loc): Record
    requires ValidLoc(segs, l)
  {
    segs[l.seg].blobs[l.blob].recs[l.pos]
  }

  predicate Durable(segs: Segments, l: Loc) {
    ValidLoc(segs, l) && l.blob < segs[l.seg].synced
  }

  /** The record belongs to a client write whose index update has not run yet. */
  predicate InFlight(ops: Ops, l: Loc) {
    exists id :: id in ops && ops[id].phase == Written(l.seg, l.blob)
  }

  function Append(segs: Segments, x: nat, b: Blob): Segments
    requires x in segs
  {
    segs[x := Segment(segs[x].blobs + [b], segs[x].synced)]
  }

  predicate IsTomb(r: Record) {
    r.kind == Tombstone
  }

  predicate HasKey(b: Blob, k: Key) {
    exists i :: 0 <= i < |b.recs| && b.recs[i].key == k
  }

  /** The last record of `b` with key `k`: the one that wins, its timestamp being the highest. */
  function LastOf(recs: seq<Record>, k: Key): (i: nat)
    requires exists i :: 0 <= i < |recs| && recs[i].key == k
    ensures i < |recs| && recs[i].key == k
    ensures forall j :: i < j < |recs| ==> recs[j].key != k
  {
    if recs[|recs| - 1].key == k then |recs| - 1 else LastOf(recs[..|recs| - 1], k)
  }

  /** The key-value map clients read. */
  function Contents(s: State): (m: map<Key, Value>)
    requires forall k :: k in s.index ==> ValidLoc(s.segs, s.index[k].loc)
  {
    map k | k in s.index :: At(s.segs, s.index[k].loc).value
  }

  // ---- Client steps ----

  /** No pending write touches `k`: reads of one key may overlap. */
  predicate Unwritten(s: State, k: Key) {
    forall id :: id in s.ops ==> !HasKey(s.ops[id].blob, k)
  }

  /** No pending write or read touches `k`. */
  predicate Idle(s: State, k: Key) {
    && Unwritten(s, k)
    && (forall id :: id in s.gets ==> s.gets[id].key != k)
  }

  function PrevEntry(s: State, k: Key): Option<Entry> {
    if k in s.index then Some(s.index[k]) else None
  }

  /** `set_scoped` up to its first await: read the previous entry, draw a timestamp. */
  function BeginSet(s: State, id: nat, k: Key, v: Value): State
    requires id !in s.ops && Idle(s, k)
  {
    s.(clock := s.clock + 1,
       ops := s.ops[id := ClientOp(Blob(None, [Record(s.clock, Scalar, k, v)]), PrevEntry(s, k), Drawn)])
  }

  /** `del` of a key the index holds, up to its first await. */
  function BeginDel(s: State, id: nat, k: Key): State
    requires id !in s.ops && Idle(s, k) && k in s.index
  {
    s.(clock := s.clock + 1,
       ops := s.ops[id := ClientOp(Blob(None, [Record(s.clock, Tombstone, k, [])]), PrevEntry(s, k), Drawn)])
  }

  /** The members of a batch, with consecutive timestamps from `ts`. */
  function Members(pairs: seq<(Key, Value)>, ts: nat): (recs: seq<Record>)
    ensures |recs| == |pairs|
    ensures forall i :: 0 <= i < |pairs| ==> recs[i] == Record(ts + i, Scalar, pairs[i].0, pairs[i].1)
  {
    seq(|pairs|, i requires 0 <= i < |pairs| => Record(ts + i, Scalar, pairs[i].0, pairs[i].1))
  }

  /** `set_many` of a non-empty batch, up to its first await: header and members draw a timestamp each. */
  function BeginSetMany(s: State, id: nat, pairs: seq<(Key, Value)>): State
    requires id !in s.ops && 1 <= |pairs| <= U32_MAX
    requires forall i :: 0 <= i < |pairs| ==> Idle(s, pairs[i].0)
  {
    s.(clock := s.clock + 1 + |pairs|,
       ops := s.ops[id := ClientOp(Blob(Some(s.clock), Members(pairs, s.clock + 1)), None, Drawn)])
  }

  /** Reserve room in the active segment and submit to its committer. */
  function ReserveOp(s: State, id: nat): State
    requires id in s.ops && s.ops[id].phase.Drawn?
  {
    s.(ops := s.ops[id := s.ops[id].(phase := Reserved(s.active))])
  }

  /** The committer writes the blob at the end of the segment. */
  function WriteOp(s: State, id: nat): State
    requires id in s.ops && s.ops[id].phase.Reserved? && s.ops[id].phase.seg in s.segs
  {
    var op := s.ops[id];
    var x := op.phase.seg;
    s.(segs := Append(s.segs, x, op.blob),
       ops := s.ops[id := op.(phase := Written(x, |s.segs[x].blobs|))])
  }

  /** A sync of segment `x` returns: everything written to it is durable. */
  function SyncSeg(s: State, x: nat): State
    requires x in s.segs
  {
    s.(segs := s.segs[x := s.segs[x].(synced := |s.segs[x].blobs|)])
  }

  /** The loop of `set_many`, and the straight-line tail of `set` and `del`: point the index at
      record `i` of the blob written at (`x`, `b`), for each `i`. */
  function ApplyIndex(index: map<Key, Entry>, recs: seq<Record>, x: nat, b: nat): map<Key, Entry> {
    if recs == [] then index
    else
      var n := |recs| - 1;
      var r := recs[n];
      var before := ApplyIndex(index, recs[..n], x, b);
      if IsTomb(r) then before - {r.key} else before[r.key := Entry(Loc(x, b, n), SizeOf(r))]
  }

  function ApplyNewest(newest: map<Key, Loc>, recs: seq<Record>, x: nat, b: nat): map<Key, Loc> {
    if recs == [] then newest
    else ApplyNewest(newest, recs[..|recs| - 1], x, b)[recs[|recs| - 1].key := Loc(x, b, |recs| - 1)]
  }

  function ApplyCache(cache: map<Key, Value>, recs: seq<Record>): map<Key, Value> {
    if recs == [] then cache
    else
      var r := recs[|recs| - 1];
      var before := ApplyCache(cache, recs[..|recs| - 1]);
      if IsTomb(r) then before - {r.key} else before[r.key := r.value]
  }

  /** What a committed blob does to the key-value map. */
  function ApplyMap(m: map<Key, Value>, recs: seq<Record>): map<Key, Value> {
    ApplyCache(m, recs)
  }

  /** The committer's acknowledgement arrives: the client op updates index and cache and returns.
      At `Kernel` or `Power` durability this is after a sync that covers the blob. */
  function ApplyOp(s: State, id: nat): State
    requires id in s.ops && s.ops[id].phase.Written?
  {
    var op := s.ops[id];
    var (x, b) := (op.phase.seg, op.phase.blob);
    s.(index := ApplyIndex(s.index, op.blob.recs, x, b),
       newest := ApplyNewest(s.newest, op.blob.recs, x, b),
       cache := ApplyCache(s.cache, op.blob.recs),
       ops := s.ops - {id})
  }

  /** `maybe_rotate` installs the next segment. */
  function Rotate(s: State): State {
    s.(segs := s.segs[s.active + 1 := Segment([], 0)], active := s.active + 1)
  }

  /** `get_scoped` of a key the cache misses: the record the index points at is read. */
  function BeginGet(s: State, id: nat, k: Key): State
    requires id !in s.gets && k in s.index && ValidLoc(s.segs, s.index[k].loc)
  {
    s.(gets := s.gets[id := Read(k, At(s.segs, s.index[k].loc).value)])
  }

  /** `get_scoped` after its await: the value read goes into the cache. */
  function FinishGet(s: State, id: nat): State
    requires id in s.gets
  {
    s.(cache := s.cache[s.gets[id].key := s.gets[id].value], gets := s.gets - {id})
  }

  /** The cache drops an entry. */
  function Evict(s: State, k: Key): State {
    s.(cache := s.cache - {k})
  }

  // ---- Compaction steps ----

  /** No append to `x` is waiting for its acknowledgement. */
  predicate Quiet(s: State, x: nat) {
    && (forall id :: id in s.ops ==> s.ops[id].phase != Reserved(x))
    && (forall id :: id in s.ops && s.ops[id].phase.Written? ==> s.ops[id].phase.seg != x)
    && (forall c, l :: c in s.moves && l in s.moves[c] ==>
          s.moves[c][l] != Slot(x) && (s.moves[c][l].Copied? ==> s.moves[c][l].dst.seg != x))
  }

  predicate CanCompact(s: State, src: nat) {
    src in s.segs && src != s.active && src !in s.moves && Quiet(s, src)
  }

  /** `compact_segment` scans a sealed source. */
  function BeginCompact(s: State, src: nat): State
    requires CanCompact(s, src)
  {
    s.(moves := s.moves[src := map[]])
  }

  function SetMove(s: State, src: nat, l: Loc, m: Move): State
    requires src in s.moves
  {
    s.(moves := s.moves[src := s.moves[src][l := m]])
  }

  /** Must this record be carried out of the source? A tombstone while its key stays deleted, a
      data record while the index points at exactly this location. */
  predicate Carry(s: State, l: Loc)
    requires ValidLoc(s.segs, l)
  {
    var r := At(s.segs, l);
    if IsTomb(r) then r.key !in s.index else r.key in s.index && s.index[r.key].loc == l
  }

  function Examine(s: State, src: nat, l: Loc): State
    requires src in s.moves && ValidLoc(s.segs, l)
  {
    SetMove(s, src, l, if Carry(s, l) then Chosen else Skipped)
  }

  function ReserveMove(s: State, src: nat, l: Loc): State
    requires src in s.moves
  {
    SetMove(s, src, l, Slot(s.active))
  }

  /** The committer writes the copy, with the original timestamp. */
  function WriteMove(s: State, src: nat, l: Loc): State
    requires src in s.moves && l in s.moves[src] && s.moves[src][l].Slot?
    requires s.moves[src][l].seg in s.segs && ValidLoc(s.segs, l)
  {
    var x := s.moves[src][l].seg;
    SetMove(s, src, l, Copied(Loc(x, |s.segs[x].blobs|, 0))).(
      segs := Append(s.segs, x, Blob(None, [At(s.segs, l)])))
  }

  /** The recheck: adopt the copy only if the index still points at the source record. */
  function FinishMove(s: State, src: nat, l: Loc): State
    requires src in s.moves && l in s.moves[src] && s.moves[src][l].Copied? && ValidLoc(s.segs, l)
  {
    var dst := s.moves[src][l].dst;
    var r := At(s.segs, l);
    var k := r.key;
    var s1 := SetMove(s, src, l, Moved(dst));
    s1.(index := if !IsTomb(r) && k in s.index && s.index[k].loc == l
                 then s.index[k := Entry(dst, SizeOf(r))] else s.index,
        newest := if k in s.newest && s.newest[k] == l then s.newest[k := dst] else s.newest)
  }

  /** Every record of the source is dealt with and every destination has been synced. */
  ghost predicate CanUnlink(s: State, src: nat) {
    && src in s.moves
    && (forall l :: ValidLoc(s.segs, l) && l.seg == src ==>
          l in s.moves[src] && (s.moves[src][l].Skipped? || s.moves[src][l].Moved?))
    && (forall l :: l in s.moves[src] && s.moves[src][l].Moved? ==>
          s.moves[src][l].dst.seg in s.segs ==> Durable(s.segs, s.moves[src][l].dst))
  }

  /** The source file is deleted. */
  function Unlink(s: State, src: nat): State {
    s.(segs := s.segs - {src}, moves := s.moves - {src})
  }
}
