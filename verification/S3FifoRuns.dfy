/** Whole runs of the cache, and the cache as the object shards hold. */
module CacheRuns {
  import opened Bytes
  import opened Records
  import opened Caches
  import opened CacheInv
  import opened CacheExact

  datatype Op = Lookup(key: Key) | Put(key: Key, value: Value, bytes: nat, tenant: nat) | Forget(key: Key)

  /** One operation that returns. */
  ghost predicate Step(c: Cache, op: Op, c': Cache, budget: nat, hash: Key -> nat) {
    match op
    case Lookup(k) => c' == Get(c, k)
    case Put(k, v, bytes, t) => Insert(c, k, v, bytes, t, budget, hash) == Some(c')
    case Forget(k) => c' == Remove(c, k)
  }

  ghost predicate IsRun(cs: seq<Cache>, ops: seq<Op>, budget: nat, hash: Key -> nat) {
    |cs| == |ops| + 1 && cs[0] == EMPTY && forall i :: 0 <= i < |ops| ==> Step(cs[i], ops[i], cs[i + 1], budget, hash)
  }

  /** What the last operation that set or removed `k` left: the value a store without a cache holds. */
  function Latest(ops: seq<Op>, k: Key): Option<Value> {
    if ops == [] then None
    else
      var op := ops[|ops| - 1];
      if op.Put? && op.key == k then Some(op.value)
      else if op.Forget? && op.key == k then None
      else Latest(ops[..|ops| - 1], k)
  }

  /** Nothing cached is stale. */
  ghost predicate Fresh(c: Cache, ops: seq<Op>) {
    forall k :: k in c.entries ==> Latest(ops, k) == Some(c.entries[k].value)
  }

  lemma EmptyOk()
    ensures Inv(EMPTY) && Exact(EMPTY)
  {
    forall t ensures Total(EMPTY.entries, SizeFor(t)) == 0 {
    }
  }

  lemma StepOk(c: Cache, op: Op, c': Cache, budget: nat, hash: Key -> nat, ops: seq<Op>)
    requires Inv(c) && Fresh(c, ops) && Step(c, op, c', budget, hash)
    ensures Inv(c') && Fresh(c', ops + [op]) && (Exact(c) && !op.Forget? ==> Exact(c'))
  {
    hide Inv, Exact, Insert, Get, Remove;
    assert (ops + [op])[..|ops|] == ops;
    match op
    case Lookup(k) =>
      GetInv(c, k);
      if Exact(c) {
        GetExact(c, k);
      }
    case Put(k, v, bytes, t) =>
      InsertInv(c, k, v, bytes, t, budget, hash);
      if Exact(c) {
        InsertEnds(c, k, v, bytes, t, budget, hash);
      }
    case Forget(k) => RemoveInv(c, k);
  }

  /** In every run: counters and tenant charges are exact, ghosts bounded, every live key queued, and
      nothing cached is stale; while no `remove` has happened, queues and `smallBytes` are exact too. */
  lemma {:induction false} RunSafe(cs: seq<Cache>, ops: seq<Op>, budget: nat, hash: Key -> nat, i: nat)
    requires IsRun(cs, ops, budget, hash) && i < |cs|
    ensures Inv(cs[i]) && Fresh(cs[i], ops[..i])
    ensures (forall j :: 0 <= j < i ==> !ops[j].Forget?) ==> Exact(cs[i])
    decreases i
  {
    hide Inv, Exact;
    if i == 0 {
      EmptyOk();
      assert Fresh(cs[0], ops[..0]);
    } else {
      RunSafe(cs, ops, budget, hash, i - 1);
      StepOk(cs[i - 1], ops[i - 1], cs[i], budget, hash, ops[..i - 1]);
      assert ops[..i] == ops[..i - 1] + [ops[i - 1]];
    }
  }

  // ---- Exactly when every insert returns ----

  lemma SizedStep(c: Cache, op: Op, c': Cache, budget: nat, hash: Key -> nat)
    requires Inv(c) && Sized(c) && Step(c, op, c', budget, hash)
    ensures Sized(c')
  {
    hide Inv, MakeRoom;
    match op
    case Lookup(k) => GetInv(c, k);
    case Put(k, v, bytes, t) =>
      if k !in c.entries {
        MakeRoomInv(c, EntrySize(k, bytes), budget, hash);
      }
    case Forget(k) => RemoveInv(c, k);
  }

  lemma {:induction false} RunSized(cs: seq<Cache>, ops: seq<Op>, budget: nat, hash: Key -> nat, i: nat)
    requires IsRun(cs, ops, budget, hash) && i < |cs|
    ensures Sized(cs[i])
    decreases i
  {
    hide Inv, Exact, Fresh;
    if i > 0 {
      RunSized(cs, ops, budget, hash, i - 1);
      RunSafe(cs, ops, budget, hash, i - 1);
      SizedStep(cs[i - 1], ops[i - 1], cs[i], budget, hash);
    }
  }

  ghost predicate NoForget(ops: seq<Op>) {
    forall j :: 0 <= j < |ops| ==> !ops[j].Forget?
  }

  /** After every run without `remove`, an insert of an entry of `size` bytes returns. */
  ghost predicate AlwaysEnds(size: nat, budget: nat, hash: Key -> nat) {
    forall cs, ops, k, v, bytes, t :: IsRun(cs, ops, budget, hash) && NoForget(ops) && EntrySize(k, bytes) == size ==>
      Insert(cs[|ops|], k, v, bytes, t, budget, hash).Some?
  }

  lemma RoomyEnds(cs: seq<Cache>, ops: seq<Op>, k: Key, v: Value, bytes: nat, t: nat, budget: nat, hash: Key -> nat)
    requires IsRun(cs, ops, budget, hash) && NoForget(ops)
    requires SmallBudget(budget) <= ENTRY_OVERHEAD || EntrySize(k, bytes) + SmallBudget(budget) <= budget + 1
    ensures Insert(cs[|ops|], k, v, bytes, t, budget, hash).Some?
  {
    hide Inv, Exact, Fresh, Insert, IsRun;
    assert |cs| == |ops| + 1 by { RunLength(cs, ops, budget, hash); }
    RunSafe(cs, ops, budget, hash, |ops|);
    RunSized(cs, ops, budget, hash, |ops|);
    InsertEnds(cs[|ops|], k, v, bytes, t, budget, hash);
  }

  lemma RunLength(cs: seq<Cache>, ops: seq<Op>, budget: nat, hash: Key -> nat)
    requires IsRun(cs, ops, budget, hash)
    ensures |cs| == |ops| + 1
  {
  }

  /** One entry that fills Small's share but for a byte; then the insert hangs. */
  lemma TightHangs(size: nat, budget: nat, hash: Key -> nat)
    requires size > ENTRY_OVERHEAD && SmallBudget(budget) > ENTRY_OVERHEAD && size + SmallBudget(budget) > budget + 1
    ensures !AlwaysEnds(size, budget, hash)
  {
    hide Admit, Insert, Inv, Stuck;
    var n := SmallBudget(budget) - 1;
    var op := Put([], [], n - ENTRY_OVERHEAD, 0);
    PutFits(EMPTY, [], n - ENTRY_OVERHEAD, budget, hash);
    var c := Admit(EMPTY, [], [], n, 0, hash([]));
    OneSmall(n, budget, hash([]));
    StuckInsertHangs(c, [0], [], size - ENTRY_OVERHEAD - 1, 0, budget, hash);
    assert IsRun([EMPTY, c], [op], budget, hash);
    assert EntrySize([0], size - ENTRY_OVERHEAD - 1) == size;
    assert [EMPTY, c][|[op]|] == c;
  }

  /** A single entry below Small's share is a stuck cache. */
  lemma OneSmall(n: nat, budget: nat, h: nat)
    requires 0 < n < SmallBudget(budget)
    ensures var c := Admit(EMPTY, [], [], n, 0, h);
            Inv(c) && Stuck(c, budget) && c.entries.Keys == {[]} && c.total == n
  {
    EmptyOk();
    AdmitInv(EMPTY, [], [], n, 0, h);
  }

  /** Without `remove`, every insert of `size` bytes returns if and only if Small's share is at most one
      entry's overhead, or the entry fits beside a Small that is one byte short of its share. */
  lemma AlwaysEndsIff(size: nat, budget: nat, hash: Key -> nat)
    requires size > ENTRY_OVERHEAD
    ensures AlwaysEnds(size, budget, hash) <==> SmallBudget(budget) <= ENTRY_OVERHEAD || size + SmallBudget(budget) <= budget + 1
  {
    hide IsRun, Insert;
    if SmallBudget(budget) <= ENTRY_OVERHEAD || size + SmallBudget(budget) <= budget + 1 {
      forall cs, ops, k, v, bytes, t | IsRun(cs, ops, budget, hash) && NoForget(ops) && EntrySize(k, bytes) == size
        ensures |cs| == |ops| + 1 && Insert(cs[|ops|], k, v, bytes, t, budget, hash).Some?
      {
        RunLength(cs, ops, budget, hash);
        RoomyEnds(cs, ops, k, v, bytes, t, budget, hash);
      }
    } else {
      TightHangs(size, budget, hash);
    }
  }

  // ---- Where the promises end ----

  /** A cache of 1000 bytes that holds one entry of 70 in Small: an insert of 965 never returns. */
  lemma HangReached(hash: Key -> nat)
    ensures var c := Insert(EMPTY, [1], [], 5, 0, 1000, hash);
            c.Some? && Insert(c.value, [2], [], 900, 0, 1000, hash) == None
  {
    EmptyOk();
    InsertInv(EMPTY, [1], [], 5, 0, 1000, hash);
    var c := Insert(EMPTY, [1], [], 5, 0, 1000, hash).value;
    assert c.total == 70 && c.smallBytes == 70 && c.main == [];
    StuckInsertHangs(c, [2], [], 900, 0, 1000, hash);
  }

  function One(k: Key, size: nat, inSmall: bool): Entries {
    map[k := CacheEntry([], size, 0, inSmall, 0)]
  }

  const K: Key := [1]
  const L: Key := [2]
  const N: Key := [3]

  const C1 := Cache(One(K, 100, true), [K], [], [], {}, Tenants(100, map[]), 100, 100)
  const C2 := EMPTY.(small := [K])
  const C3 := C1.(small := [K, K])

  function C4(h: nat): Cache {
    Cache(One(L, 66, true), [K, L], [], [h], {h}, Tenants(66, map[]), 66, 66)
  }

  function C5(h: nat): Cache {
    Cache(One(L, 66, true) + One(K, 65, false), [K, L], [K], [h], {}, Tenants(131, map[]), 131, 66)
  }

  /** A new key that fits: no eviction, and the entry goes where its hash says. */
  lemma PutFits(c: Cache, k: Key, bytes: nat, budget: nat, hash: Key -> nat)
    requires k !in c.entries && c.total + EntrySize(k, bytes) <= budget
    ensures Insert(c, k, [], bytes, 0, budget, hash) == Some(Admit(c, k, [], EntrySize(k, bytes), 0, hash(k)))
  {
  }

  lemma FirstPut(h: nat)
    ensures Admit(EMPTY, K, [], 100, 0, h) == C1 && Admit(C2, K, [], 100, 0, h) == C3 && Remove(C1, K) == C2
  {
    assert EMPTY.entries[K := CacheEntry([], 100, 0, true, 0)] == One(K, 100, true);
    assert EMPTY.small + [K] == [K] && [K] + [K] == [K, K];
    assert EMPTY.hashes - {h} == {};
    assert One(K, 100, true) - {K} == map[];
  }

  /** The second `K` is evicted through the place the first left in Small. */
  lemma ThenEvicted(hash: Key -> nat)
    ensures EvictOne(C3, 150, hash) == (C2.(ghosts := [hash(K)], hashes := {hash(K)}), true)
  {
    hide EvictFromMain;
    var c1 := C2.(ghosts := [hash(K)], hashes := {hash(K)});
    assert [K, K][1..] == [K];
    assert One(K, 100, true) - {K} == map[];
    assert EMPTY.ghosts + [hash(K)] == [hash(K)] && EMPTY.hashes + {hash(K)} == {hash(K)};
    assert EvictCold(C3.(small := [K]), K, hash) == c1;
  }

  lemma ThenAdmitted(h: nat, h': nat)
    requires h' != h
    ensures Admit(C2.(ghosts := [h], hashes := {h}), L, [], 66, 0, h') == C4(h)
    ensures Admit(C4(h), K, [], 65, 0, h) == C5(h)
  {
    assert EMPTY.entries[L := CacheEntry([], 66, 0, true, 0)] == One(L, 66, true);
    assert [K] + [L] == [K, L] && {h} - {h'} == {h};
    assert One(L, 66, true)[K := CacheEntry([], 65, 0, false, 0)] == One(L, 66, true) + One(K, 65, false);
    assert C4(h).main + [K] == [K] && {h} - {h} == {};
  }

  function C6(h: nat): Cache {
    Cache(One(L, 66, true), [L], [K], [h, h], {h}, Tenants(66, map[]), 66, 1)
  }

  /** The stale place in Small evicts `K` from Main and charges it to Small. */
  lemma ThenMischarged(hash: Key -> nat)
    ensures EvictOne(C5(hash(K)), 150, hash) == (C6(hash(K)), true)
  {
    hide EvictFromMain;
    var h := hash(K);
    assert [K, L][1..] == [L];
    assert One(L, 66, true) + One(K, 65, false) - {K} == One(L, 66, true);
    assert [h] + [h] == [h, h] && C5(h).hashes + {h} == {h};
    assert EvictCold(C5(h).(small := [L]), K, hash) == C6(h);
  }

  lemma ThenStuck(hash: Key -> nat)
    ensures EvictOne(C6(hash(K)), 150, hash) == (C6(hash(K)).(main := []), false)
  {
    hide EvictFromSmall;
    var c := C6(hash(K));
    assert [K][1..] == [];
    assert EvictFromMain(c.(main := []), None, 0) == (c.(main := []), false);
    assert EvictFromMain(c, None, 0) == (c.(main := []), false);
  }

  lemma ThenHangs(hash: Key -> nat)
    ensures Insert(C5(hash(K)), N, [], 20, 0, 150, hash) == None
  {
    hide EvictOne;
    ThenMischarged(hash);
    ThenStuck(hash);
    assert L in C6(hash(K)).entries && L in C5(hash(K)).entries;
    assert MakeRoom(C6(hash(K)), 85, 150, hash) == None;
    assert MakeRoom(C5(hash(K)), 85, 150, hash) == None;
  }

  lemma ThenRoom(hash: Key -> nat)
    requires hash(L) != hash(K)
    ensures Insert(C3, L, [], 1, 0, 150, hash) == Some(C4(hash(K)))
  {
    hide EvictOne, Admit;
    var c := C2.(ghosts := [hash(K)], hashes := {hash(K)});
    ThenEvicted(hash);
    ThenAdmitted(hash(K), hash(L));
    assert MakeRoom(c, 66, 150, hash) == Some(c);
    assert MakeRoom(C3, 66, 150, hash) == Some(c);
  }

  /** One `remove` is enough to lose the promise: a run after which `smallBytes` is too low for the
      entries in Small, and an insert of 85 bytes, well within Main's 135, never returns. */
  lemma RemoveThenHang(hash: Key -> nat)
    requires hash(L) != hash(K)
    ensures exists cs: seq<Cache>, ops: seq<Op> ::
              && IsRun(cs, ops, 150, hash) && EntrySize(N, 20) + SmallBudget(150) <= 150
              && Insert(cs[|cs| - 1], N, [], 20, 0, 150, hash) == None
  {
    hide Insert, Remove;
    var h := hash(K);
    FirstPut(h);
    PutFits(EMPTY, K, 35, 150, hash);
    PutFits(C2, K, 35, 150, hash);
    ThenRoom(hash);
    ThenAdmitted(h, hash(L));
    PutFits(C4(h), K, 0, 150, hash);
    ThenHangs(hash);
    var cs := [EMPTY, C1, C2, C3, C4(h), C5(h)];
    var ops := [Put(K, [], 35, 0), Forget(K), Put(K, [], 35, 0), Put(L, [], 1, 0), Put(K, [], 0, 0)];
    assert IsRun(cs, ops, 150, hash);
  }
}
