/** The storage ledgers of the value log: live bytes per segment, disk bytes per tenant. */
module VLogLedgers {
  import opened Bytes
  import opened Records
  import opened Batches
  import opened MapSum
  import opened VLogState
  import opened VLogInv
  import opened VLogClient
  import opened VLogCompact
  import opened VLogRecover
  import opened VLogRuns
  import opened VLogRefinement

  datatype Ledger = Ledger(live: map<nat, nat>, disk: map<nat, nat>)

  /** `tenant_from_key`: the 16-byte prefix, or tenant 0. */
  function TenantOf(k: Key): nat {
    if |k| >= 16 then FromLE(k[..16]) else 0
  }

  function SatSub(a: nat, b: nat): nat {
    if a < b then 0 else a - b
  }

  function Row(m: map<nat, nat>, t: nat): nat {
    if t in m then m[t] else 0
  }

  function IncLive(live: map<nat, nat>, x: nat, n: nat): map<nat, nat> {
    if x in live then live[x := live[x] + n] else live
  }

  function DecLive(live: map<nat, nat>, prev: Option<Entry>): map<nat, nat> {
    if prev.Some? && prev.value.loc.seg in live
    then live[prev.value.loc.seg := SatSub(live[prev.value.loc.seg], prev.value.size)]
    else live
  }

  function OldSize(prev: Option<Entry>): nat {
    if prev.Some? then prev.value.size else 0
  }

  /** The accounting of one data record that replaces `prev`. */
  function ChargeSet(l: Ledger, prev: Option<Entry>, k: Key, e: Entry): Ledger {
    var t := TenantOf(k);
    Ledger(IncLive(DecLive(l.live, prev), e.loc.seg, e.size),
           l.disk[t := SatSub(Row(l.disk, t), OldSize(prev)) + e.size])
  }

  /** The accounting of a deletion; a row that reaches zero is dropped. */
  function ChargeDel(l: Ledger, prev: Option<Entry>, k: Key): Ledger {
    var t := TenantOf(k);
    Ledger(DecLive(l.live, prev),
           if t !in l.disk then l.disk
           else if SatSub(l.disk[t], OldSize(prev)) == 0 then l.disk - {t}
           else l.disk[t := SatSub(l.disk[t], OldSize(prev))])
  }

  function EntryOf(index: map<Key, Entry>, k: Key): Option<Entry> {
    if k in index then Some(index[k]) else None
  }

  /** The loop of `set_many`: each member charges against the index as its predecessors left it. */
  function ChargeMany(l: Ledger, index: map<Key, Entry>, recs: seq<Record>, x: nat, b: nat): Ledger {
    if recs == [] then l
    else
      var n := |recs| - 1;
      var r := recs[n];
      ChargeSet(ChargeMany(l, index, recs[..n], x, b), EntryOf(ApplyIndex(index, recs[..n], x, b), r.key),
                r.key, Entry(Loc(x, b, n), SizeOf(r)))
  }

  /** The accounting at the acknowledgement of a client op. `set` and `del` use the entry they
      read before their await, `set_many` the current one. */
  function ChargeAck(l: Ledger, s: State, id: nat): Ledger
    requires id in s.ops && s.ops[id].phase.Written? && WellFormed(s.ops[id].blob)
  {
    var op := s.ops[id];
    var (x, b) := (op.phase.seg, op.phase.blob);
    var r := op.blob.recs[0];
    if op.blob.header.Some? then ChargeMany(l, s.index, op.blob.recs, x, b)
    else if IsTomb(r) then ChargeDel(l, op.prev, r.key)
    else ChargeSet(l, op.prev, r.key, Entry(Loc(x, b, 0), SizeOf(r)))
  }

  // ---- What the ledgers should say ----

  ghost function Charged(index: map<Key, Entry>, p: (Key, Entry) -> bool): nat {
    Sum(map k | k in index && p(k, index[k]) :: index[k].size)
  }

  function InSegment(x: nat): (Key, Entry) -> bool {
    (k: Key, e: Entry) => e.loc.seg == x
  }

  function OfTenant(t: nat): (Key, Entry) -> bool {
    (k: Key, e: Entry) => TenantOf(k) == t
  }

  /** Every tenant's counter is the sum of its entries' sizes, and no row is zero. */
  ghost predicate DiskExact(index: map<Key, Entry>, disk: map<nat, nat>) {
    && (forall t :: Row(disk, t) == Charged(index, OfTenant(t)))
    && (forall t :: t in disk ==> disk[t] > 0)
  }

  /** Every segment that is not being compacted has its live bytes counted: none is missed and, if `exact`, none
      is counted that is not live. */
  ghost predicate LiveOk(segs: Segments, moves: Moves, index: map<Key, Entry>, live: map<nat, nat>, exact: bool) {
    && live.Keys == segs.Keys
    && forall x :: x in segs && x !in moves ==>
         live[x] >= Charged(index, InSegment(x)) && (exact ==> live[x] == Charged(index, InSegment(x)))
  }

  ghost predicate LiveExact(segs: Segments, moves: Moves, index: map<Key, Entry>, live: map<nat, nat>) {
    LiveOk(segs, moves, index, live, true)
  }

  function Part(index: map<Key, Entry>, k: Key, p: (Key, Entry) -> bool): nat {
    if k in index && p(k, index[k]) then index[k].size else 0
  }

  lemma ChargedSet(index: map<Key, Entry>, k: Key, e: Entry, p: (Key, Entry) -> bool)
    ensures Charged(index[k := e], p) + Part(index, k, p) == Charged(index, p) + (if p(k, e) then e.size else 0)
  {
    var m := map j | j in index && p(j, index[j]) :: index[j].size;
    var index' := index[k := e];
    var m' := map j | j in index' && p(j, index'[j]) :: index'[j].size;
    assert m - {k} == m' - {k};
    if k in m { SumRemove(m, k); } else { assert m - {k} == m; }
    if k in m' { SumRemove(m', k); } else { assert m' - {k} == m'; }
  }

  lemma ChargedDrop(index: map<Key, Entry>, k: Key, p: (Key, Entry) -> bool)
    ensures Charged(index - {k}, p) + Part(index, k, p) == Charged(index, p)
  {
    var m := map j | j in index && p(j, index[j]) :: index[j].size;
    var index' := index - {k};
    var m' := map j | j in index' && p(j, index'[j]) :: index'[j].size;
    assert m - {k} == m';
    if k in m { SumRemove(m, k); } else { assert m - {k} == m; }
  }

  // ---- One record ----

  /** `prev` is the entry whose charge the new one replaces: same presence and size as the current one. */
  ghost predicate SameCharge(index: map<Key, Entry>, k: Key, prev: Option<Entry>) {
    (prev.Some? <==> k in index) && (k in index ==> prev.value.size == index[k].size)
  }

  lemma SetDiskExact(l: Ledger, index: map<Key, Entry>, prev: Option<Entry>, k: Key, e: Entry)
    requires DiskExact(index, l.disk) && SameCharge(index, k, prev) && e.size > 0
    ensures DiskExact(index[k := e], ChargeSet(l, prev, k, e).disk)
  {
    var disk' := ChargeSet(l, prev, k, e).disk;
    forall t ensures Row(disk', t) == Charged(index[k := e], OfTenant(t)) {
      ChargedSet(index, k, e, OfTenant(t));
      assert Part(index, k, OfTenant(t)) <= Charged(index, OfTenant(t)) by { ChargedDrop(index, k, OfTenant(t)); }
    }
  }

  lemma DelDiskExact(l: Ledger, index: map<Key, Entry>, prev: Option<Entry>, k: Key)
    requires DiskExact(index, l.disk) && SameCharge(index, k, prev)
    ensures DiskExact(index - {k}, ChargeDel(l, prev, k).disk)
  {
    var disk' := ChargeDel(l, prev, k).disk;
    forall t ensures Row(disk', t) == Charged(index - {k}, OfTenant(t)) {
      ChargedDrop(index, k, OfTenant(t));
    }
  }

  /** A current previous entry keeps the live counters as good as they were. */
  lemma SetLiveOk(l: Ledger, segs: Segments, moves: Moves, index: map<Key, Entry>, k: Key, e: Entry, exact: bool)
    requires LiveOk(segs, moves, index, l.live, exact) && e.loc.seg in segs
    ensures LiveOk(segs, moves, index[k := e], ChargeSet(l, EntryOf(index, k), k, e).live, exact)
  {
    hide Charged, Row;
    var live' := ChargeSet(l, EntryOf(index, k), k, e).live;
    forall x | x in segs && x !in moves
      ensures live'[x] >= Charged(index[k := e], InSegment(x)) && (exact ==> live'[x] == Charged(index[k := e], InSegment(x)))
    {
      ChargedSet(index, k, e, InSegment(x));
      ChargedDrop(index, k, InSegment(x));
    }
  }

  lemma SetLiveExact(l: Ledger, segs: Segments, moves: Moves, index: map<Key, Entry>, k: Key, e: Entry)
    requires LiveExact(segs, moves, index, l.live) && e.loc.seg in segs
    ensures LiveExact(segs, moves, index[k := e], ChargeSet(l, EntryOf(index, k), k, e).live)
  {
    hide LiveOk, ChargeSet;
    SetLiveOk(l, segs, moves, index, k, e, true);
  }

  lemma DelLiveOk(l: Ledger, segs: Segments, moves: Moves, index: map<Key, Entry>, k: Key, exact: bool)
    requires LiveOk(segs, moves, index, l.live, exact)
    ensures LiveOk(segs, moves, index - {k}, ChargeDel(l, EntryOf(index, k), k).live, exact)
  {
    hide Charged, Row;
    var live' := ChargeDel(l, EntryOf(index, k), k).live;
    forall x | x in segs && x !in moves
      ensures live'[x] >= Charged(index - {k}, InSegment(x)) && (exact ==> live'[x] == Charged(index - {k}, InSegment(x)))
    {
      ChargedDrop(index, k, InSegment(x));
    }
  }

  /** An entry read before a relocation moved it: the segment it names is gone or going. */
  predicate LeftItsSegment(segs: Segments, moves: Moves, prev: Entry) {
    prev.loc.seg !in segs || prev.loc.seg in moves
  }

  /** Replacing an entry through such a read misses no live byte. */
  lemma StaleSetOk(l: Ledger, segs: Segments, moves: Moves, index: map<Key, Entry>, prev: Entry, k: Key, e: Entry)
    requires LiveOk(segs, moves, index, l.live, false) && e.loc.seg in segs && LeftItsSegment(segs, moves, prev)
    ensures LiveOk(segs, moves, index[k := e], ChargeSet(l, Some(prev), k, e).live, false)
  {
    hide Charged, Row;
    var live' := ChargeSet(l, Some(prev), k, e).live;
    forall x | x in segs && x !in moves ensures live'[x] >= Charged(index[k := e], InSegment(x)) {
      ChargedSet(index, k, e, InSegment(x));
    }
  }

  lemma StaleDelOk(l: Ledger, segs: Segments, moves: Moves, index: map<Key, Entry>, prev: Entry, k: Key)
    requires LiveOk(segs, moves, index, l.live, false) && LeftItsSegment(segs, moves, prev)
    ensures LiveOk(segs, moves, index - {k}, ChargeDel(l, Some(prev), k).live, false)
  {
    hide Charged, Row;
    var live' := ChargeDel(l, Some(prev), k).live;
    forall x | x in segs && x !in moves ensures live'[x] >= Charged(index - {k}, InSegment(x)) {
      ChargedDrop(index, k, InSegment(x));
    }
  }

  // ---- Whole acknowledgements ----

  lemma {:induction false} ManyDiskExact(l: Ledger, index: map<Key, Entry>, recs: seq<Record>, x: nat, b: nat)
    requires DiskExact(index, l.disk) && forall i :: 0 <= i < |recs| ==> !IsTomb(recs[i])
    ensures DiskExact(ApplyIndex(index, recs, x, b), ChargeMany(l, index, recs, x, b).disk)
  {
    if recs != [] {
      var n := |recs| - 1;
      ManyDiskExact(l, index, recs[..n], x, b);
      var before := ApplyIndex(index, recs[..n], x, b);
      SetDiskExact(ChargeMany(l, index, recs[..n], x, b), before, EntryOf(before, recs[n].key), recs[n].key,
                   Entry(Loc(x, b, n), SizeOf(recs[n])));
    }
  }

  lemma {:induction false} ManyLiveOk(l: Ledger, segs: Segments, moves: Moves, index: map<Key, Entry>, recs: seq<Record>, x: nat, b: nat, exact: bool)
    requires LiveOk(segs, moves, index, l.live, exact) && x in segs && forall i :: 0 <= i < |recs| ==> !IsTomb(recs[i])
    ensures LiveOk(segs, moves, ApplyIndex(index, recs, x, b), ChargeMany(l, index, recs, x, b).live, exact)
  {
    hide LiveOk, ChargeSet;
    if recs != [] {
      var n := |recs| - 1;
      ManyLiveOk(l, segs, moves, index, recs[..n], x, b, exact);
      SetLiveOk(ChargeMany(l, index, recs[..n], x, b), segs, moves, ApplyIndex(index, recs[..n], x, b), recs[n].key,
                Entry(Loc(x, b, n), SizeOf(recs[n])), exact);
    }
  }

  /** Batches hold no tombstones, and the entry a `set` or `del` read still has the size of the
      current one, although a compaction may have moved the record meanwhile. */
  ghost predicate OpCharges(s: State) {
    && (forall id, i :: id in s.ops && s.ops[id].blob.header.Some? && 0 <= i < |s.ops[id].blob.recs| ==>
          !IsTomb(s.ops[id].blob.recs[i]))
    && (forall id :: id in s.ops && s.ops[id].blob.header.None? && s.ops[id].blob.recs != [] ==>
          SameCharge(s.index, s.ops[id].blob.recs[0].key, s.ops[id].prev))
  }

  lemma SingleApply(index: map<Key, Entry>, recs: seq<Record>, x: nat, b: nat)
    requires |recs| == 1
    ensures ApplyIndex(index, recs, x, b) ==
            if IsTomb(recs[0]) then index - {recs[0].key} else index[recs[0].key := Entry(Loc(x, b, 0), SizeOf(recs[0]))]
  {
    assert recs[..0] == [];
  }

  lemma AckDiskExact(s: State, l: Ledger, id: nat)
    requires Inv(s) && OpCharges(s) && CanApply(s, id) && DiskExact(s.index, l.disk)
    ensures WellFormed(s.ops[id].blob) && DiskExact(ApplyOp(s, id).index, ChargeAck(l, s, id).disk)
  {
    var op := s.ops[id];
    assert OpOk(s.segs, s.moves, op);
    var (x, b) := (op.phase.seg, op.phase.blob);
    if op.blob.header.Some? {
      ManyDiskExact(l, s.index, op.blob.recs, x, b);
    } else {
      var r := op.blob.recs[0];
      SingleApply(s.index, op.blob.recs, x, b);
      if IsTomb(r) {
        DelDiskExact(l, s.index, op.prev, r.key);
      } else {
        SetDiskExact(l, s.index, op.prev, r.key, Entry(Loc(x, b, 0), SizeOf(r)));
      }
    }
  }

  /** No compaction moved the record between the op's first step and its acknowledgement. */
  predicate FreshPrev(s: State, id: nat)
    requires id in s.ops
  {
    var op := s.ops[id];
    op.blob.header.None? && op.blob.recs != [] ==> op.prev == EntryOf(s.index, op.blob.recs[0].key)
  }

  /** If one did, the segment the op read has been its source. */
  ghost predicate PrevLeft(s: State) {
    forall id :: id in s.ops && !FreshPrev(s, id) ==>
      s.ops[id].prev.Some? && s.ops[id].prev.value.loc.seg <= s.active && LeftItsSegment(s.segs, s.moves, s.ops[id].prev.value)
  }

  lemma AckLiveOk(s: State, l: Ledger, id: nat, exact: bool)
    requires Inv(s) && OpCharges(s) && PrevLeft(s) && CanApply(s, id) && LiveOk(s.segs, s.moves, s.index, l.live, exact)
    requires exact ==> FreshPrev(s, id)
    ensures WellFormed(s.ops[id].blob) && LiveOk(s.segs, s.moves, ApplyOp(s, id).index, ChargeAck(l, s, id).live, exact)
  {
    hide Ordered, NewestOk, IndexOk, CacheOk, Agree, ClockBound, MovesOk, LiveOk, ChargeMany, ChargeSet, ChargeDel, ApplyIndex;
    var op := s.ops[id];
    assert OpOk(s.segs, s.moves, op);
    var (x, b) := (op.phase.seg, op.phase.blob);
    if op.blob.header.Some? {
      ManyLiveOk(l, s.segs, s.moves, s.index, op.blob.recs, x, b, exact);
    } else {
      var r := op.blob.recs[0];
      SingleApply(s.index, op.blob.recs, x, b);
      SingleLiveOk(l, s.segs, s.moves, s.index, op.prev, r, Entry(Loc(x, b, 0), SizeOf(r)), exact);
    }
  }

  lemma SingleLiveOk(l: Ledger, segs: Segments, moves: Moves, index: map<Key, Entry>, prev: Option<Entry>, r: Record, e: Entry, exact: bool)
    requires LiveOk(segs, moves, index, l.live, exact) && e.loc.seg in segs
    requires prev == EntryOf(index, r.key) || (!exact && prev.Some? && LeftItsSegment(segs, moves, prev.value))
    ensures if IsTomb(r) then LiveOk(segs, moves, index - {r.key}, ChargeDel(l, prev, r.key).live, exact)
            else LiveOk(segs, moves, index[r.key := e], ChargeSet(l, prev, r.key, e).live, exact)
  {
    hide LiveOk, ChargeSet, ChargeDel, LeftItsSegment;
    if prev == EntryOf(index, r.key) {
      SetLiveOk(l, segs, moves, index, r.key, e, exact);
      DelLiveOk(l, segs, moves, index, r.key, exact);
    } else {
      StaleSetOk(l, segs, moves, index, prev.value, r.key, e);
      StaleDelOk(l, segs, moves, index, prev.value, r.key);
    }
  }

  // ---- Whole runs ----

  /** Does finishing this relocation swap the index entry? */
  predicate Swaps(s: State, l: Loc)
    requires ValidLoc(s.segs, l)
  {
    var r := At(s.segs, l);
    !IsTomb(r) && r.key in s.index && s.index[r.key].loc == l
  }

  /** The live counters after the entries of `order` have been added. */
  function SeededLive(live: map<nat, nat>, index: map<Key, Entry>, order: seq<Key>): map<nat, nat>
    requires forall i :: 0 <= i < |order| ==> order[i] in index
  {
    if order == [] then live
    else
      var e := index[order[|order| - 1]];
      IncLive(SeededLive(live, index, order[..|order| - 1]), e.loc.seg, e.size)
  }

  /** `recover_tenant_disk` on a fresh counter. */
  function SeededDisk(index: map<Key, Entry>, order: seq<Key>): map<nat, nat>
    requires forall i :: 0 <= i < |order| ==> order[i] in index
  {
    if order == [] then map[]
    else
      var k := order[|order| - 1];
      var disk := SeededDisk(index, order[..|order| - 1]);
      disk[TenantOf(k) := Row(disk, TenantOf(k)) + index[k].size]
  }

  /** `order` lists keys of the index, none twice. */
  ghost predicate Distinct(index: map<Key, Entry>, order: seq<Key>) {
    && (forall i :: 0 <= i < |order| ==> order[i] in index)
    && (forall i, j :: 0 <= i < j < |order| ==> order[i] != order[j])
  }

  /** An order in which the index may be iterated. */
  ghost predicate Iterates(index: map<Key, Entry>, order: seq<Key>) {
    Distinct(index, order) && forall k :: k in index ==> k in order
  }

  /** The ledgers a reopen computes from the index. */
  ghost predicate Seeded(segs: Segments, index: map<Key, Entry>, l: Ledger) {
    exists a, b :: Iterates(index, a) && Iterates(index, b)
      && l == Ledger(SeededLive(map x | x in segs :: 0, index, a), SeededDisk(index, b))
  }

  function Listed(index: map<Key, Entry>, order: seq<Key>): map<Key, Entry>
    requires forall i :: 0 <= i < |order| ==> order[i] in index
  {
    map k | k in order :: index[k]
  }

  lemma ListedMore(index: map<Key, Entry>, order: seq<Key>)
    requires Distinct(index, order) && order != []
    ensures var (n, k) := (|order| - 1, order[|order| - 1]);
            Distinct(index, order[..n]) && k !in Listed(index, order[..n]) && Listed(index, order) == Listed(index, order[..n])[k := index[k]]
  {
    var n := |order| - 1;
    assert order == order[..n] + [order[n]];
  }

  lemma {:induction false} SeededLiveOk(segs: Segments, index: map<Key, Entry>, order: seq<Key>)
    requires Distinct(index, order) && forall k :: k in index ==> index[k].loc.seg in segs
    ensures LiveExact(segs, map[], Listed(index, order), SeededLive(map x | x in segs :: 0, index, order))
    decreases |order|
  {
    hide Charged, LiveExact, IncLive;
    var zero := map x | x in segs :: 0;
    if order == [] {
      assert Listed(index, order) == map[];
      NothingSeeded(segs);
    } else {
      hide Listed;
      var (n, k) := (|order| - 1, order[|order| - 1]);
      ListedMore(index, order);
      SeededLiveOk(segs, index, order[..n]);
      SeedLiveStep(segs, Listed(index, order[..n]), SeededLive(zero, index, order[..n]), k, index[k]);
    }
  }

  lemma {:induction false} SeededDiskOk(index: map<Key, Entry>, order: seq<Key>)
    requires Distinct(index, order) && forall k :: k in index ==> index[k].size > 0
    ensures DiskExact(Listed(index, order), SeededDisk(index, order))
    decreases |order|
  {
    hide Charged, DiskExact, TenantOf, Row;
    if order == [] {
      assert Listed(index, order) == map[];
      NothingSeeded(map[]);
    } else {
      hide Listed;
      var (n, k) := (|order| - 1, order[|order| - 1]);
      ListedMore(index, order);
      SeededDiskOk(index, order[..n]);
      SeedDiskStep(Listed(index, order[..n]), SeededDisk(index, order[..n]), k, index[k]);
    }
  }

  lemma NothingSeeded(segs: Segments)
    ensures LiveExact(segs, map[], map[], map x | x in segs :: 0) && DiskExact(map[], map[])
  {
    forall x | x in segs ensures Charged(map[], InSegment(x)) == 0 { NothingCharged(map[], InSegment(x)); }
    forall t ensures Charged(map[], OfTenant(t)) == 0 { NothingCharged(map[], OfTenant(t)); }
  }

  /** One entry more in the ledgers. */
  lemma SeedLiveStep(segs: Segments, done: map<Key, Entry>, live: map<nat, nat>, k: Key, e: Entry)
    requires LiveExact(segs, map[], done, live) && k !in done && e.loc.seg in segs
    ensures LiveExact(segs, map[], done[k := e], IncLive(live, e.loc.seg, e.size))
  {
    hide Charged, LiveExact;
    SetLiveExact(Ledger(live, map[]), segs, map[], done, k, e);
  }

  lemma SeedDiskStep(done: map<Key, Entry>, disk: map<nat, nat>, k: Key, e: Entry)
    requires DiskExact(done, disk) && k !in done && e.size > 0
    ensures DiskExact(done[k := e], disk[TenantOf(k) := Row(disk, TenantOf(k)) + e.size])
  {
    hide Charged, DiskExact;
    SetDiskExact(Ledger(map[], disk), done, None, k, e);
  }

  lemma SeededExact(segs: Segments, index: map<Key, Entry>, l: Ledger)
    requires Seeded(segs, index, l) && forall k :: k in index ==> index[k].loc.seg in segs && index[k].size > 0
    ensures LiveExact(segs, map[], index, l.live) && DiskExact(index, l.disk)
  {
    hide LiveExact, DiskExact, SeededLive, SeededDisk;
    var a, b :| Iterates(index, a) && Iterates(index, b)
      && l == Ledger(SeededLive(map x | x in segs :: 0, index, a), SeededDisk(index, b));
    SeededLiveOk(segs, index, a);
    SeededDiskOk(index, b);
    assert Listed(index, a) == index && Listed(index, b) == index;
  }

  /** What each step does to the ledgers; a reopen seeds them afresh from the index. */
  ghost predicate LedgerStep(s: State, l: Ledger, a: Action, s': State, l': Ledger)
    requires Enabled(s, a)
  {
    match a
    case DoAck(id) => WellFormed(s.ops[id].blob) && l' == ChargeAck(l, s, id)
    case DoRotate => l' == l.(live := l.live[s.active + 1 := 0])
    case DoFinishMove(src, loc) =>
      l' == if Swaps(s, loc) then l.(live := IncLive(l.live, s.moves[src][loc].dst.seg, SizeOf(At(s.segs, loc)))) else l
    case DoUnlink(src) => l' == l.(live := l.live - {src})
    case DoCrash(_, _, _, _, _) => Seeded(s'.segs, s'.index, l')
    case _ => l' == l
  }

  lemma SameChargeFrame(index: map<Key, Entry>, index': map<Key, Entry>, k: Key, prev: Option<Entry>)
    requires SameCharge(index, k, prev)
    requires (k in index' <==> k in index) && (k in index ==> index'[k].size == index[k].size)
    ensures SameCharge(index', k, prev)
  {
  }

  lemma AckCharges(s: State, id: nat)
    requires Inv(s) && OpCharges(s) && CanApply(s, id)
    ensures OpCharges(ApplyOp(s, id))
  {
    var s' := ApplyOp(s, id);
    var op := s.ops[id];
    forall j | j in s'.ops && s'.ops[j].blob.header.None? && s'.ops[j].blob.recs != []
      ensures SameCharge(s'.index, s'.ops[j].blob.recs[0].key, s'.ops[j].prev)
    {
      var k := s.ops[j].blob.recs[0].key;
      assert HasKey(s.ops[j].blob, k);
      ApplyIndexAt(s.index, op.blob.recs, op.phase.seg, op.phase.blob, k);
      assert !HasKey(op.blob, k);
      SameChargeFrame(s.index, s'.index, k, s.ops[j].prev);
    }
  }

  lemma FinishMoveCharges(s: State, src: nat, l: Loc)
    requires Inv(s) && OpCharges(s) && CanFinishMove(s, src, l) && ValidLoc(s.segs, l)
    ensures OpCharges(FinishMove(s, src, l))
  {
    hide MovesOk, Ordered, Backed, Row;
    var s' := FinishMove(s, src, l);
    forall j | j in s'.ops && s'.ops[j].blob.header.None? && s'.ops[j].blob.recs != []
      ensures SameCharge(s'.index, s'.ops[j].blob.recs[0].key, s'.ops[j].prev)
    {
      SameChargeFrame(s.index, s'.index, s.ops[j].blob.recs[0].key, s.ops[j].prev);
    }
  }

  lemma OtherCharges(s: State, a: Action)
    requires OpCharges(s) && Enabled(s, a) && !a.DoAck? && !a.DoFinishMove? && !a.DoCrash?
    ensures OpCharges(Next(s, a))
  {
    hide OpCharges, Idle, CanCompact, Carry;
    if IsBegin(a) {
      BeginCharges(s, a);
    } else {
      QuietOps(s, a);
      QuietIndex(s, a);
      ChargesFrame(s, Next(s, a));
    }
  }

  lemma BeginCharges(s: State, a: Action)
    requires OpCharges(s) && Enabled(s, a) && IsBegin(a)
    ensures OpCharges(Next(s, a))
  {
    hide Idle;
  }

  lemma ChargesFrame(s: State, s': State)
    requires OpCharges(s) && s'.index == s.index && s'.ops.Keys == s.ops.Keys
    requires forall id :: id in s.ops ==> s'.ops[id].blob == s.ops[id].blob && s'.ops[id].prev == s.ops[id].prev
    ensures OpCharges(s')
  {
  }

  lemma ChargesStep(s: State, a: Action)
    requires Inv(s) && OpCharges(s) && Enabled(s, a)
    ensures OpCharges(Next(s, a))
  {
    hide Inv, OpCharges;
    if a.DoAck? {
      AckCharges(s, a.id);
    } else if a.DoFinishMove? {
      FinishMoveSource(s, a.src, a.loc);
      FinishMoveCharges(s, a.src, a.loc);
    } else if a.DoCrash? {
      NoCharges(Next(s, a));
    } else {
      OtherCharges(s, a);
    }
  }

  lemma NoCharges(s: State)
    requires s.ops == map[]
    ensures OpCharges(s)
  {
  }

  /** The relocated entry has the size of the one it replaces. */
  lemma FinishMoveDisk(s: State, src: nat, l: Loc, t: nat)
    requires Inv(s) && CanFinishMove(s, src, l) && ValidLoc(s.segs, l)
    ensures Charged(FinishMove(s, src, l).index, OfTenant(t)) == Charged(s.index, OfTenant(t))
  {
    hide Charged, Shape, ClockBound, Agree, OpsOk, Ordered, NewestOk, CacheOk, TenantOf;
    var r := At(s.segs, l);
    if Swaps(s, l) {
      ChargedSet(s.index, r.key, Entry(s.moves[src][l].dst, SizeOf(r)), OfTenant(t));
    }
  }

  /** An entry that leaves a segment under compaction is counted where it lands. */
  lemma MoveLive(live: map<nat, nat>, segs: Segments, moves: Moves, index: map<Key, Entry>, k: Key, e: Entry, exact: bool)
    requires LiveOk(segs, moves, index, live, exact) && k in index && index[k].loc.seg in moves
    ensures LiveOk(segs, moves, index[k := e], IncLive(live, e.loc.seg, e.size), exact)
  {
    hide Charged;
    var live' := IncLive(live, e.loc.seg, e.size);
    forall x | x in segs && x !in moves
      ensures live'[x] >= Charged(index[k := e], InSegment(x)) && (exact ==> live'[x] == Charged(index[k := e], InSegment(x)))
    {
      ChargedSet(index, k, e, InSegment(x));
    }
  }

  lemma FinishMoveLive(s: State, lg: Ledger, src: nat, l: Loc, exact: bool)
    requires CanFinishMove(s, src, l) && ValidLoc(s.segs, l) && l.seg == src && LiveOk(s.segs, s.moves, s.index, lg.live, exact)
    ensures var d := s.moves[src][l].dst;
            var live' := if Swaps(s, l) then IncLive(lg.live, d.seg, SizeOf(At(s.segs, l))) else lg.live;
            LiveOk(s.segs, FinishMove(s, src, l).moves, FinishMove(s, src, l).index, live', exact)
  {
    hide Charged, IncLive;
    var r := At(s.segs, l);
    assert FinishMove(s, src, l).moves.Keys == s.moves.Keys;
    if Swaps(s, l) {
      MoveLive(lg.live, s.segs, s.moves, s.index, r.key, Entry(s.moves[src][l].dst, SizeOf(r)), exact);
    }
  }

  lemma DiskStep(s: State, l: Ledger, a: Action, l': Ledger)
    requires Inv(s) && OpCharges(s) && Enabled(s, a) && LedgerStep(s, l, a, Next(s, a), l') && DiskExact(s.index, l.disk)
    ensures DiskExact(Next(s, a).index, l'.disk)
  {
    hide Inv, OpCharges, Charged, Seeded, Opened;
    if a.DoAck? {
      AckDiskExact(s, l, a.id);
    } else if a.DoFinishMove? {
      FinishMoveSource(s, a.src, a.loc);
      forall t ensures Charged(Next(s, a).index, OfTenant(t)) == Charged(s.index, OfTenant(t)) {
        FinishMoveDisk(s, a.src, a.loc, t);
      }
    } else if a.DoCrash? {
      CrashBooks(s, a, l');
    } else {
      QuietIndex(s, a);
    }
  }

  /** A reopened store has exact books. */
  lemma CrashBooks(s: State, a: Action, l': Ledger)
    requires Inv(s) && a.DoCrash? && Enabled(s, a) && Seeded(Next(s, a).segs, Next(s, a).index, l')
    ensures var s' := Next(s, a);
            DiskExact(s'.index, l'.disk) && s'.moves == map[] && LiveExact(s'.segs, s'.moves, s'.index, l'.live)
  {
    hide Inv, Seeded, LiveExact, DiskExact, Winners;
    var s' := Next(s, a);
    CrashInv(s, a.keep, a.clock, a.newest);
    OpenedEntries(Kept(s.segs, a.keep), s.active, a.clock, a.newest);
    SeededExact(s'.segs, s'.index, l');
  }

  lemma OpenedEntries(segs: Segments, active: nat, clock: nat, newest: map<Key, Loc>)
    requires Points(segs, newest)
    ensures var s := Opened(segs, active, clock, newest); forall k :: k in s.index ==> s.index[k].loc.seg in segs && s.index[k].size > 0
  {
  }

  lemma FinishMoveSource(s: State, src: nat, l: Loc)
    requires Inv(s) && CanFinishMove(s, src, l)
    ensures ValidLoc(s.segs, l) && l.seg == src
  {
    hide Ordered, NewestOk, IndexOk, CacheOk, Agree, ClockBound, OpsOk, Shape;
    assert MoveOk(s.segs, s.active, s.ops, s.newest, s.moves, l, s.moves[src][l]);
  }

  lemma QuietIndex(s: State, a: Action)
    requires Enabled(s, a) && !a.DoAck? && !a.DoFinishMove? && !a.DoCrash?
    ensures Next(s, a).index == s.index
  {
  }

  lemma NothingCharged(index: map<Key, Entry>, p: (Key, Entry) -> bool)
    requires forall k :: k in index ==> !p(k, index[k])
    ensures Charged(index, p) == 0
  {
    assert (map k | k in index && p(k, index[k]) :: index[k].size) == map[];
  }

  lemma RotateLive(s: State, l: Ledger, exact: bool)
    requires IndexPoints(s) && Shape(s.segs, s.active) && LiveOk(s.segs, s.moves, s.index, l.live, exact)
    ensures LiveOk(Rotate(s).segs, s.moves, s.index, l.live[s.active + 1 := 0], exact)
  {
    hide Inv, Charged;
    forall k | k in s.index ensures !InSegment(s.active + 1)(k, s.index[k]) {
      assert ValidLoc(s.segs, s.index[k].loc);
    }
    NothingCharged(s.index, InSegment(s.active + 1));
  }

  /** What the live counters depend on does not change. */
  lemma LiveFrame(segs: Segments, moves: Moves, segs': Segments, moves': Moves, index: map<Key, Entry>, live: map<nat, nat>, exact: bool)
    requires LiveOk(segs, moves, index, live, exact) && segs'.Keys == segs.Keys && moves.Keys <= moves'.Keys
    ensures LiveOk(segs', moves', index, live, exact)
  {
    hide Charged;
  }

  lemma QuietFrame(s: State, a: Action)
    requires Enabled(s, a) && !a.DoAck? && !a.DoFinishMove? && !a.DoCrash? && !a.DoRotate? && !a.DoUnlink?
    ensures Next(s, a).segs.Keys == s.segs.Keys && s.moves.Keys <= Next(s, a).moves.Keys && Next(s, a).active == s.active
  {
    hide Idle, CanCompact, Carry, Members, CanWriteMove;
  }

  lemma LiveStep(s: State, l: Ledger, a: Action, l': Ledger, exact: bool)
    requires Inv(s) && OpCharges(s) && PrevLeft(s) && Enabled(s, a) && LedgerStep(s, l, a, Next(s, a), l')
    requires LiveOk(s.segs, s.moves, s.index, l.live, exact) && (exact && a.DoAck? ==> FreshPrev(s, a.id))
    ensures LiveOk(Next(s, a).segs, Next(s, a).moves, Next(s, a).index, l'.live, exact)
  {
    hide Inv, LiveOk, OpCharges, PrevLeft, FreshPrev, ChargeAck, Seeded, Opened, CanUnlink;
    if a.DoAck? {
      AckLiveOk(s, l, a.id, exact);
    } else if a.DoFinishMove? {
      FinishMoveSource(s, a.src, a.loc);
      FinishMoveLive(s, l, a.src, a.loc, exact);
    } else if a.DoRotate? {
      InvPoints(s);
      InvShape(s);
      RotateLive(s, l, exact);
    } else if a.DoUnlink? {
      UnlinkedLive(s, l, a.src, exact);
    } else if a.DoCrash? {
      CrashBooks(s, a, l');
      ExactIsOk(Next(s, a).segs, map[], Next(s, a).index, l'.live, exact);
    } else {
      QuietIndex(s, a);
      QuietFrame(s, a);
      LiveFrame(s.segs, s.moves, Next(s, a).segs, Next(s, a).moves, s.index, l.live, exact);
    }
  }

  lemma InvShape(s: State)
    requires Inv(s)
    ensures Shape(s.segs, s.active)
  {
    hide Shape;
  }

  lemma ExactIsOk(segs: Segments, moves: Moves, index: map<Key, Entry>, live: map<nat, nat>, exact: bool)
    requires LiveExact(segs, moves, index, live)
    ensures LiveOk(segs, moves, index, live, exact)
  {
    hide Charged;
  }

  lemma UnlinkedLive(s: State, l: Ledger, src: nat, exact: bool)
    requires LiveOk(s.segs, s.moves, s.index, l.live, exact)
    ensures LiveOk(Unlink(s, src).segs, Unlink(s, src).moves, s.index, l.live - {src}, exact)
  {
    hide Charged;
  }

  // ---- The entries ops have read ----

  lemma PrevStep(s: State, a: Action)
    requires Inv(s) && PrevLeft(s) && Enabled(s, a)
    ensures PrevLeft(Next(s, a))
  {
    hide Inv, PrevLeft, CanUnlink, Kept, Winners;
    if IsBegin(a) {
      BeginPrev(s, a);
    } else if a.DoAck? {
      AckPrev(s, a.id);
    } else if a.DoFinishMove? {
      FinishMoveSource(s, a.src, a.loc);
      FinishMovePrev(s, a.src, a.loc);
    } else if a.DoCrash? {
      NoPrev(Next(s, a));
    } else if a.DoRotate? || a.DoUnlink? {
      FilesPrev(s, a);
    } else {
      QuietPrev(s, a);
    }
  }

  lemma NoPrev(s: State)
    requires s.ops == map[]
    ensures PrevLeft(s)
  {
  }

  lemma BeginPrev(s: State, a: Action)
    requires PrevLeft(s) && IsBegin(a) && Enabled(s, a)
    ensures PrevLeft(Next(s, a))
  {
    hide Idle, Members;
    var s' := Next(s, a);
    assert s'.index == s.index && s'.segs == s.segs && s'.moves == s.moves && s'.active == s.active;
    assert s'.ops == s.ops[a.id := s'.ops[a.id]] && FreshPrev(s', a.id);
    forall id | id in s'.ops && id != a.id ensures FreshPrev(s', id) <==> FreshPrev(s, id) { }
  }

  lemma AckPrev(s: State, id: nat)
    requires Inv(s) && PrevLeft(s) && CanApply(s, id)
    ensures PrevLeft(ApplyOp(s, id))
  {
    hide Shape, ClockBound, Agree, Ordered, NewestOk, IndexOk, MovesOk, CacheOk, OpOk, ApplyNewest, ApplyCache, LeftItsSegment;
    var (s', op) := (ApplyOp(s, id), s.ops[id]);
    forall j | j in s'.ops ensures FreshPrev(s', j) <==> FreshPrev(s, j) {
      if s.ops[j].blob.header.None? && s.ops[j].blob.recs != [] {
        var k := s.ops[j].blob.recs[0].key;
        assert HasKey(s.ops[j].blob, k);
        assert !HasKey(op.blob, k);
        ApplyIndexAt(s.index, op.blob.recs, op.phase.seg, op.phase.blob, k);
      }
    }
  }

  lemma FinishMovePrev(s: State, src: nat, l: Loc)
    requires Inv(s) && PrevLeft(s) && CanFinishMove(s, src, l) && ValidLoc(s.segs, l) && l.seg == src
    ensures PrevLeft(FinishMove(s, src, l))
  {
    hide ClockBound, Agree, Ordered, NewestOk, IndexOk, MovesOk, CacheOk, OpsOk;
    var s' := FinishMove(s, src, l);
    assert s'.moves.Keys == s.moves.Keys && s'.segs == s.segs && s'.ops == s.ops && s'.active == s.active;
    forall id | id in s'.ops && !FreshPrev(s', id)
      ensures s.ops[id].prev.Some? && s.ops[id].prev.value.loc.seg <= s.active && LeftItsSegment(s.segs, s'.moves, s.ops[id].prev.value)
    {
      if FreshPrev(s, id) {
        var k := s.ops[id].blob.recs[0].key;
        assert k == At(s.segs, l).key && s.index[k].loc == l;
      }
    }
  }

  lemma FilesPrev(s: State, a: Action)
    requires PrevLeft(s) && (a.DoRotate? || a.DoUnlink?) && Enabled(s, a)
    ensures PrevLeft(Next(s, a))
  {
    hide CanUnlink;
    var s' := if a.DoRotate? then Rotate(s) else Unlink(s, a.src);
    assert s'.ops == s.ops && s'.index == s.index;
    forall id | id in s.ops ensures FreshPrev(s', id) <==> FreshPrev(s, id) { }
  }

  lemma QuietPrev(s: State, a: Action)
    requires PrevLeft(s) && Enabled(s, a)
    requires !IsBegin(a) && !a.DoAck? && !a.DoFinishMove? && !a.DoCrash? && !a.DoRotate? && !a.DoUnlink?
    ensures PrevLeft(Next(s, a))
  {
    hide Enabled, Next;
    var s' := Next(s, a);
    QuietIndex(s, a);
    QuietFrame(s, a);
    QuietOps(s, a);
    assert forall id :: id in s'.ops ==> (FreshPrev(s', id) <==> FreshPrev(s, id));
  }

  ghost predicate LedgerRun(run: seq<State>, acts: seq<Action>, books: seq<Ledger>) {
    && IsRun(run, acts) && |books| == |run| && books[0] == Ledger(map[0 := 0], map[])
    && forall i :: 0 <= i < |acts| ==> BookedStep(run[i], books[i], acts[i], run[i + 1], books[i + 1])
  }

  ghost predicate BookedStep(s: State, l: Ledger, a: Action, s': State, l': Ledger) {
    Step(s, a, s') && LedgerStep(s, l, a, s', l')
  }

  /** Every `set` or `del` of the run was acknowledged with the index entry it had read. */
  ghost predicate NoStaleAck(run: seq<State>, acts: seq<Action>)
    requires IsRun(run, acts)
  {
    forall i :: 0 <= i < |acts| ==> FreshAck(run[i], acts[i])
  }

  predicate FreshAck(s: State, a: Action) {
    a.DoAck? && a.id in s.ops ==> FreshPrev(s, a.id)
  }

  lemma LedgerPrefix(run: seq<State>, acts: seq<Action>, books: seq<Ledger>)
    requires LedgerRun(run, acts, books) && acts != []
    ensures var n := |acts| - 1;
            && LedgerRun(run[..n + 1], acts[..n], books[..n + 1])
            && BookedStep(run[n], books[n], acts[n], run[n + 1], books[n + 1])
            && (NoStaleAck(run, acts) ==> NoStaleAck(run[..n + 1], acts[..n]) && FreshAck(run[n], acts[n]))
  {
  }

  lemma InitLedger()
    ensures OpCharges(Init()) && PrevLeft(Init()) && DiskExact(Init().index, map[])
    ensures LiveExact(Init().segs, Init().moves, Init().index, map[0 := 0])
  {
    forall t ensures Charged(Init().index, OfTenant(t)) == 0 { NothingCharged(Init().index, OfTenant(t)); }
    NothingCharged(Init().index, InSegment(0));
  }

  lemma BooksStep(s: State, l: Ledger, a: Action, s': State, l': Ledger)
    requires Inv(s) && OpCharges(s) && PrevLeft(s) && DiskExact(s.index, l.disk) && BookedStep(s, l, a, s', l')
    requires LiveOk(s.segs, s.moves, s.index, l.live, false)
    ensures OpCharges(s') && PrevLeft(s') && DiskExact(s'.index, l'.disk) && LiveOk(s'.segs, s'.moves, s'.index, l'.live, false)
    ensures LiveExact(s.segs, s.moves, s.index, l.live) && FreshAck(s, a) ==>
              LiveExact(s'.segs, s'.moves, s'.index, l'.live)
  {
    hide Inv, OpCharges, PrevLeft, DiskExact, LiveOk, LedgerStep, Enabled, Next;
    ChargesStep(s, a);
    PrevStep(s, a);
    DiskStep(s, l, a, l');
    LiveStep(s, l, a, l', false);
    if LiveExact(s.segs, s.moves, s.index, l.live) && FreshAck(s, a) {
      AckPresent(s, a);
      LiveStep(s, l, a, l', true);
    }
  }

  lemma AckPresent(s: State, a: Action)
    requires Enabled(s, a)
    ensures a.DoAck? ==> a.id in s.ops
  {
  }

  lemma {:induction false} RunBooks(run: seq<State>, acts: seq<Action>, books: seq<Ledger>)
    requires LedgerRun(run, acts, books)
    ensures var (s, l) := (run[|acts|], books[|acts|]);
            && OpCharges(s) && PrevLeft(s) && DiskExact(s.index, l.disk) && LiveOk(s.segs, s.moves, s.index, l.live, false)
            && (NoStaleAck(run, acts) ==> LiveExact(s.segs, s.moves, s.index, l.live))
  {
    hide OpCharges, PrevLeft, DiskExact, LiveOk, BookedStep, Inv, FreshAck;
    if acts == [] {
      InitLedger();
      ExactIsOk(Init().segs, Init().moves, Init().index, map[0 := 0], false);
    } else {
      var n := |acts| - 1;
      LedgerPrefix(run, acts, books);
      RunBooks(run[..n + 1], acts[..n], books[..n + 1]);
      RunsRefine(run[..n + 1], acts[..n]);
      BooksStep(run[n], books[n], acts[n], run[n + 1], books[n + 1]);
    }
  }

  /** Every tenant's disk counter equals the bytes of its live records, in every run, overlapping
      compactions included. */
  lemma TenantDiskExact(run: seq<State>, acts: seq<Action>, books: seq<Ledger>, t: nat)
    requires LedgerRun(run, acts, books)
    ensures Row(books[|acts|].disk, t) == Charged(run[|acts|].index, OfTenant(t))
  {
    RunBooks(run, acts, books);
  }

  /** The live counters are exact, sources of running compactions aside, in every run in which no
      relocation moved a record between the first step and the acknowledgement of an op on its key. */
  lemma SegmentLiveExact(run: seq<State>, acts: seq<Action>, books: seq<Ledger>, x: nat)
    requires LedgerRun(run, acts, books) && NoStaleAck(run, acts)
    requires x in run[|acts|].segs && x !in run[|acts|].moves
    ensures x in books[|acts|].live && books[|acts|].live[x] == Charged(run[|acts|].index, InSegment(x))
  {
    RunBooks(run, acts, books);
  }

  /** In every run, overtaken operations included, no live byte of such a segment is missed: a segment counted as
      dead is dead. */
  lemma SegmentLiveNeverBelow(run: seq<State>, acts: seq<Action>, books: seq<Ledger>, x: nat)
    requires LedgerRun(run, acts, books) && x in run[|acts|].segs && x !in run[|acts|].moves
    ensures x in books[|acts|].live && books[|acts|].live[x] >= Charged(run[|acts|].index, InSegment(x))
  {
    RunBooks(run, acts, books);
  }

  /** Replacing an entry through a stale read of it keeps the live counters exact if and only if
      the entry's current segment is itself being compacted. */
  lemma StaleSetIff(l: Ledger, segs: Segments, moves: Moves, index: map<Key, Entry>, prev: Entry, k: Key, e: Entry)
    requires LiveExact(segs, moves, index, l.live) && k in index && index[k].loc.seg in segs && index[k].size > 0
    requires LeftItsSegment(segs, moves, prev) && prev.loc.seg != index[k].loc.seg
    ensures LiveExact(segs, moves, index[k := e], ChargeSet(l, Some(prev), k, e).live) <==> index[k].loc.seg in moves
  {
    hide Charged, Row;
    var live' := ChargeSet(l, Some(prev), k, e).live;
    var x := index[k].loc.seg;
    if x in moves {
      forall y | y in segs && y !in moves ensures live'[y] == Charged(index[k := e], InSegment(y)) {
        ChargedSet(index, k, e, InSegment(y));
      }
    } else {
      ChargedSet(index, k, e, InSegment(x));
      assert live'[x] != Charged(index[k := e], InSegment(x));
    }
  }

  /** The same for a deletion. */
  lemma StaleDelIff(l: Ledger, segs: Segments, moves: Moves, index: map<Key, Entry>, prev: Entry, k: Key)
    requires LiveExact(segs, moves, index, l.live) && k in index && index[k].loc.seg in segs && index[k].size > 0
    requires LeftItsSegment(segs, moves, prev) && prev.loc.seg != index[k].loc.seg
    ensures LiveExact(segs, moves, index - {k}, ChargeDel(l, Some(prev), k).live) <==> index[k].loc.seg in moves
  {
    hide Charged, Row;
    var live' := ChargeDel(l, Some(prev), k).live;
    var x := index[k].loc.seg;
    ChargedDrop(index, k, InSegment(x));
    if x in moves {
      forall y | y in segs && y !in moves ensures live'[y] == Charged(index - {k}, InSegment(y)) {
        ChargedDrop(index, k, InSegment(y));
      }
    }
  }
}
