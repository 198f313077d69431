/** What the cache keeps in every run, and what more in runs without `remove`. */
module CacheInv {
  import opened Bytes
  import opened Records
  import opened Caches

  /** Counters exact, ghosts bounded, every live key in a queue. */
  ghost predicate Inv(c: Cache) {
    Books(c.entries, c.total, c.tenants) && Ghosts(c.ghosts, c.hashes) && Queued(c.entries, c.small, c.main)
  }

  /** Besides: each live key once in the queue its flag names, and `smallBytes` exact. */
  ghost predicate Exact(c: Cache) {
    ExactQueues(c.entries, c.small, c.main, c.smallBytes)
  }

  /** Cached values are only dropped. */
  ghost predicate Kept(c: Cache, c': Cache) {
    forall k :: k in c'.entries ==> k in c.entries && c'.entries[k].value == c.entries[k].value && c'.entries[k].size == c.entries[k].size
  }

  // ---- Counters ----

  lemma DropBooks(m: Entries, total: nat, ts: Tenants, k: Key)
    requires Books(m, total, ts) && k in m
    ensures m[k].size <= total && Books(m - {k}, total - m[k].size, SubTenant(ts, m[k].tenant, m[k].size))
  {
    hide Total, TenantsExact, SubTenant;
    TotalDrop(m, SizeIn(), k);
    TenantsDrop(m, ts, k);
  }

  lemma PutBooks(m: Entries, total: nat, ts: Tenants, k: Key, e: CacheEntry)
    requires Books(m, total, ts) && k !in m && e.size > 0 && e.freq <= 3
    ensures Books(m[k := e], total + e.size, AddTenant(ts, e.tenant, e.size))
  {
    hide Total, TenantsExact, AddTenant;
    TotalAdd(m, SizeIn(), k, e);
    TenantsPut(m, ts, k, e);
  }

  /** A change of frequency or queue. */
  lemma TouchBooks(m: Entries, total: nat, ts: Tenants, k: Key, e: CacheEntry)
    requires Books(m, total, ts) && k in m && e.size == m[k].size && e.tenant == m[k].tenant && e.freq <= 3
    ensures Books(m[k := e], total, ts)
  {
    hide Total, TenantsExact;
    TotalSwap(m, SizeIn(), k, e);
    TenantsSame(m, ts, k, e);
  }

  lemma OverwriteBooks(m: Entries, total: nat, ts: Tenants, k: Key, e: CacheEntry)
    requires Books(m, total, ts) && k in m && e.size > 0 && e.freq <= 3
    ensures m[k].size <= total
    ensures Books(m[k := e], total + e.size - m[k].size, AddTenant(SubTenant(ts, m[k].tenant, m[k].size), e.tenant, e.size))
  {
    hide Total, Books, AddTenant, SubTenant;
    DropBooks(m, total, ts, k);
    PutBooks(m - {k}, total - m[k].size, SubTenant(ts, m[k].tenant, m[k].size), k, e);
    assert (m - {k})[k := e] == m[k := e];
  }

  // ---- Ghosts ----

  lemma TrimGhosts(ghosts: seq<nat>, hashes: set<nat>)
    requires |ghosts| <= GHOST_CAPACITY + 1 && forall h :: h in hashes ==> h in ghosts
    ensures Ghosts(Trim(ghosts, hashes).0, Trim(ghosts, hashes).1)
  {
    if |ghosts| > GHOST_CAPACITY {
      assert forall h :: h in ghosts ==> h == ghosts[0] || h in ghosts[1..];
    }
  }

  lemma PushGhosts(c: Cache, h: nat)
    requires Ghosts(c.ghosts, c.hashes)
    ensures Ghosts(GhostPush(c, h).ghosts, GhostPush(c, h).hashes)
  {
    TrimGhosts(if h in c.hashes then c.ghosts else c.ghosts + [h], c.hashes + {h});
  }

  lemma {:induction false} FewHashes(queue: seq<nat>, hashes: set<nat>)
    requires forall h :: h in hashes ==> h in queue
    ensures |hashes| <= |queue|
    decreases |queue|
  {
    if queue == [] {
      assert hashes == {};
    } else {
      var rest := hashes - {queue[0]};
      FewHashes(queue[1..], rest);
      assert hashes <= rest + {queue[0]};
      Subset(hashes, rest + {queue[0]});
    }
  }

  lemma {:induction false} Subset(a: set<nat>, b: set<nat>)
    requires a <= b
    ensures |a| <= |b|
    decreases |a|
  {
    if a != {} {
      var x :| x in a;
      Subset(a - {x}, b - {x});
    }
  }

  // ---- Evictions keep the invariant ----

  lemma PopSmallInv(c: Cache)
    requires Inv(c) && c.small != [] && c.small[0] !in c.entries
    ensures Inv(c.(small := c.small[1..]))
  {
    forall k | k in c.entries ensures k in c.small[1..] || k in c.main {
      assert k in c.small ==> k in c.small[1..];
    }
  }

  lemma PromoteInv(c: Cache)
    requires Inv(c) && c.small != [] && c.small[0] in c.entries
    ensures Inv(Promote(c.(small := c.small[1..]), c.small[0]))
  {
    hide Books;
    var k := c.small[0];
    var c' := Promote(c.(small := c.small[1..]), k);
    TouchBooks(c.entries, c.total, c.tenants, k, c'.entries[k]);
    forall j | j in c'.entries ensures j in c'.small || j in c'.main {
      assert j in c.small ==> j == k || j in c.small[1..];
    }
  }

  lemma EvictColdInv(c: Cache, hash: Key -> nat)
    requires Inv(c) && c.small != [] && c.small[0] in c.entries
    ensures Inv(EvictCold(c.(small := c.small[1..]), c.small[0], hash))
  {
    hide Books, Ghosts, GhostPush, SubTenant;
    var k := c.small[0];
    var c1 := DropEntry(c.(small := c.small[1..], smallBytes := Minus(c.smallBytes, c.entries[k].size)), k);
    DropBooks(c.entries, c.total, c.tenants, k);
    PushGhosts(c1, hash(k));
    GhostFrame(c1, hash(k));
    forall j | j in c1.entries ensures j in c1.small || j in c1.main {
      assert j in c.small ==> j == k || j in c.small[1..];
    }
  }

  lemma GhostFrame(c: Cache, h: nat)
    ensures GhostPush(c, h) == c.(ghosts := GhostPush(c, h).ghosts, hashes := GhostPush(c, h).hashes)
  {
  }

  lemma {:induction false} EvictFromSmallInv(c: Cache, hash: Key -> nat)
    requires Inv(c)
    ensures Inv(EvictFromSmall(c, hash).0) && Kept(c, EvictFromSmall(c, hash).0)
    decreases |c.small|
  {
    hide Inv;
    if c.small != [] {
      var k := c.small[0];
      var c1 := c.(small := c.small[1..]);
      if k !in c.entries {
        PopSmallInv(c);
        EvictFromSmallInv(c1, hash);
      } else if c.entries[k].freq > 1 {
        PromoteInv(c);
        EvictFromSmallInv(Promote(c1, k), hash);
      } else {
        EvictColdInv(c, hash);
      }
    }
  }

  lemma PopMainInv(c: Cache)
    requires Inv(c) && c.main != [] && c.main[0] !in c.entries
    ensures Inv(c.(main := c.main[1..]))
  {
    forall k | k in c.entries ensures k in c.small || k in c.main[1..] {
      assert k in c.main ==> k in c.main[1..];
    }
  }

  /** The front of Main goes to its back, with `e` for its entry. */
  lemma RotateInv(c: Cache, e: CacheEntry)
    requires Inv(c) && c.main != [] && c.main[0] in c.entries
    requires var was := c.entries[c.main[0]]; e.size == was.size && e.tenant == was.tenant && e.freq <= was.freq
    ensures Inv(c.(main := c.main[1..] + [c.main[0]], entries := c.entries[c.main[0] := e]))
  {
    var k := c.main[0];
    TouchBooks(c.entries, c.total, c.tenants, k, e);
    forall j | j in c.entries ensures j in c.small || j in c.main[1..] + [k] {
      assert j in c.main ==> j == k || j in c.main[1..];
    }
  }

  lemma EvictHeadInv(c: Cache)
    requires Inv(c) && c.main != [] && c.main[0] in c.entries
    ensures Inv(DropEntry(c.(main := c.main[1..]), c.main[0]))
  {
    var k := c.main[0];
    DropBooks(c.entries, c.total, c.tenants, k);
    forall j | j in c.entries && j != k ensures j in c.small || j in c.main[1..] {
      assert j in c.main ==> j == k || j in c.main[1..];
    }
  }

  /** A live key in the queue. */
  ghost predicate HasLive(m: Entries, q: seq<Key>) {
    exists k :: k in q && k in m
  }

  lemma LiveAfterPop(m: Entries, q: seq<Key>)
    requires q != [] && q[0] !in m
    ensures HasLive(m, q) <==> HasLive(m, q[1..])
  {
    if HasLive(m, q) {
      var k :| k in q && k in m;
      assert k in q[1..];
    }
  }

  ghost predicate MainEvicted(c: Cache, r: (Cache, bool)) {
    && Inv(r.0) && Kept(c, r.0) && r.0.small == c.small && r.0.smallBytes == c.smallBytes
    && (r.1 <==> HasLive(c.entries, c.main))
    && (!r.1 ==> r.0 == c.(main := []))
  }

  lemma EvictedAfterPop(c: Cache, r: (Cache, bool))
    requires c.main != [] && c.main[0] !in c.entries && MainEvicted(c.(main := c.main[1..]), r)
    ensures MainEvicted(c, r)
  {
    hide Inv, HasLive;
    LiveAfterPop(c.entries, c.main);
  }

  lemma EvictedAfterRotate(c: Cache, e: CacheEntry, r: (Cache, bool))
    requires c.main != [] && c.main[0] in c.entries && e.value == c.entries[c.main[0]].value && e.size == c.entries[c.main[0]].size
    requires MainEvicted(c.(main := c.main[1..] + [c.main[0]], entries := c.entries[c.main[0] := e]), r)
    ensures MainEvicted(c, r)
  {
    hide Inv, HasLive;
    HeadLive(c.entries, c.entries[c.main[0] := e], c.main);
  }

  /** `evict_from_main` keeps the invariant, and removes exactly one entry exactly when Main holds a
      live key. */
  lemma {:induction false} EvictFromMainInv(c: Cache, target: Option<nat>, skips: nat)
    requires Inv(c) && skips <= MAX_FAIR_SKIPS
    ensures MainEvicted(c, EvictFromMain(c, target, skips))
    decreases Total(c.entries, Freq()) + (MAX_FAIR_SKIPS - skips) + |c.main|
  {
    hide Inv, Total, Charged, SubTenant, EvictFromMain, OneOrNone;
    if c.main == [] {
      NothingInMain(c, target, skips);
    } else {
      EvictTurn(c, target, skips);
      var k := c.main[0];
      var c1 := c.(main := c.main[1..]);
      if k !in c.entries {
        hide MainEvicted;
        PopMainInv(c);
        EvictFromMainInv(c1, target, skips);
        EvictedAfterPop(c, EvictFromMain(c, target, skips));
      } else if c.entries[k].freq > 0 {
        hide MainEvicted;
        TouchLess(c1, k);
        RotateInv(c, Touch(c1, k).entries[k]);
        EvictFromMainInv(Touch(c1, k), target, skips);
        EvictedAfterRotate(c, Touch(c1, k).entries[k], EvictFromMain(c, target, skips));
      } else if target.Some? && skips < MAX_FAIR_SKIPS && Charged(c.tenants, c.entries[k].tenant) <= target.value {
        hide MainEvicted;
        RotateInv(c, c.entries[k]);
        assert c.entries[k := c.entries[k]] == c.entries;
        EvictFromMainInv(c1.(main := c1.main + [k]), target, skips + 1);
        EvictedAfterRotate(c, c.entries[k], EvictFromMain(c, target, skips));
      } else {
        EvictHeadInv(c);
        HeadLive(c.entries, c.entries, c.main);
      }
    }
  }

  lemma HeadLive(m: Entries, m': Entries, q: seq<Key>)
    requires q != [] && q[0] in m && q[0] in m'
    ensures HasLive(m, q) && HasLive(m', q[1..] + [q[0]])
  {
    assert (q[1..] + [q[0]])[|q| - 1] == q[0];
  }

  /** What `evict_from_small` leaves when it removes nothing. */
  lemma {:induction false} SmallDrained(c: Cache, hash: Key -> nat)
    requires Queued(c.entries, c.small, c.main) && !EvictFromSmall(c, hash).1
    ensures var c' := EvictFromSmall(c, hash).0;
            c'.small == [] && c'.entries.Keys == c.entries.Keys && Queued(c'.entries, [], c'.main)
    decreases |c.small|
  {
    hide EvictCold;
    if c.small != [] {
      var k := c.small[0];
      var c1 := c.(small := c.small[1..]);
      assert forall j :: j in c.small ==> j == k || j in c.small[1..];
      if k !in c.entries {
        SmallDrained(c1, hash);
      } else if c.entries[k].freq > 1 {
        var c2 := Promote(c1, k);
        assert k in c2.main;
        SmallDrained(c2, hash);
      }
    }
  }

  /** Exactly when an eviction removes nothing: Small is below its share and Main holds no live key. */
  ghost predicate Stuck(c: Cache, budget: nat) {
    c.smallBytes < SmallBudget(budget) && !HasLive(c.entries, c.main)
  }

  lemma EvictOneInv(c: Cache, budget: nat, hash: Key -> nat)
    requires Inv(c) && c.entries != map[]
    ensures var r := EvictOne(c, budget, hash);
            && Inv(r.0) && Kept(c, r.0) && (!r.1 <==> Stuck(c, budget))
            && (!r.1 ==> r.0 == c.(main := []))
  {
    hide Inv, HasLive, EvictFromMain, EvictFromSmall;
    if c.smallBytes >= SmallBudget(budget) {
      var s := EvictFromSmall(c, hash);
      EvictFromSmallInv(c, hash);
      if !s.1 {
        assert Queued(c.entries, c.small, c.main) by { InvQueued(c); }
        SmallDrained(c, hash);
        EvictFromMainInv(s.0, OverShare(s.0.tenants, budget), 0);
        AllInMain(s.0);
      }
    } else {
      EvictFromMainInv(c, OverShare(c.tenants, budget), 0);
    }
  }

  lemma InvQueued(c: Cache)
    requires Inv(c)
    ensures Queued(c.entries, c.small, c.main)
  {
  }

  lemma AllInMain(c: Cache)
    requires Queued(c.entries, [], c.main) && c.entries.Keys != {}
    ensures HasLive(c.entries, c.main)
  {
    var k :| k in c.entries;
    assert k in c.main;
  }

  /** Once stuck, always stuck: evicting again changes nothing but stale places in Main. */
  lemma StuckForever(c: Cache, budget: nat, hash: Key -> nat)
    requires Inv(c) && c.entries != map[] && Stuck(c, budget)
    ensures var c' := EvictOne(c, budget, hash).0;
            c' == c.(main := []) && Inv(c') && Stuck(c', budget) && EvictOne(c', budget, hash) == (c', false)
  {
    EvictOneInv(c, budget, hash);
    EvictOneInv(c.(main := []), budget, hash);
  }

  // ---- Insertion ----

  lemma {:induction false} MakeRoomInv(c: Cache, size: nat, budget: nat, hash: Key -> nat)
    requires Inv(c)
    ensures var r := MakeRoom(c, size, budget, hash);
            r.Some? ==> Inv(r.value) && Kept(c, r.value) && (r.value.total + size <= budget || r.value.entries == map[])
    decreases c.entries.Keys
  {
    hide Inv, EvictOne;
    if c.total + size > budget && c.entries != map[] {
      EvictOneInv(c, budget, hash);
      var r := EvictOne(c, budget, hash);
      if r.1 {
        MakeRoomInv(r.0, size, budget, hash);
      }
    }
  }

  lemma AdmitInv(c: Cache, k: Key, v: Value, size: nat, t: nat, h: nat)
    requires Inv(c) && k !in c.entries && size > 0
    ensures Inv(Admit(c, k, v, size, t, h))
  {
    var c' := Admit(c, k, v, size, t, h);
    PutBooks(c.entries, c.total, c.tenants, k, c'.entries[k]);
    forall j | j in c'.entries ensures j in c'.small || j in c'.main {
      if j == k {
        assert k in c.small + [k] && k in c.main + [k];
      }
    }
  }

  /** An insert that returns: the key has its value, every other cached value is an old one, and a new
      key leaves the cache within its budget or alone in it. */
  lemma InsertInv(c: Cache, k: Key, v: Value, bytes: nat, t: nat, budget: nat, hash: Key -> nat)
    requires Inv(c)
    ensures var r := Insert(c, k, v, bytes, t, budget, hash);
            r.Some? ==>
              && Inv(r.value) && k in r.value.entries && r.value.entries[k].value == v
              && (forall j :: j in r.value.entries && j != k ==> j in c.entries && r.value.entries[j].value == c.entries[j].value)
              && (k !in c.entries ==> r.value.total <= budget || r.value.entries.Keys == {k})
  {
    hide Inv, MakeRoom, AddTenant, SubTenant, Minus;
    var size := EntrySize(k, bytes);
    if k in c.entries {
      OverwriteInv(c, k, v, size, t);
    } else {
      MakeRoomInv(c, size, budget, hash);
      var room := MakeRoom(c, size, budget, hash);
      if room.Some? {
        assert k !in room.value.entries;
        AdmitInv(room.value, k, v, size, t, hash(k));
      }
    }
  }

  lemma OverwriteInv(c: Cache, k: Key, v: Value, size: nat, t: nat)
    requires Inv(c) && k in c.entries && size > 0
    ensures Inv(Overwrite(c, k, v, size, t))
  {
    hide Total, TenantsExact, AddTenant, SubTenant;
    OverwriteBooks(c.entries, c.total, c.tenants, k, Overwrite(c, k, v, size, t).entries[k]);
  }

  lemma GetInv(c: Cache, k: Key)
    requires Inv(c)
    ensures Inv(Get(c, k)) && Kept(c, Get(c, k)) && Kept(Get(c, k), c)
  {
    if k in c.entries {
      TouchBooks(c.entries, c.total, c.tenants, k, Get(c, k).entries[k]);
    }
  }

  lemma RemoveInv(c: Cache, k: Key)
    requires Inv(c)
    ensures Inv(Remove(c, k)) && k !in Remove(c, k).entries && Kept(c, Remove(c, k))
    ensures forall j :: j in c.entries && j != k ==> j in Remove(c, k).entries
  {
    if k in c.entries {
      DropBooks(c.entries, c.total, c.tenants, k);
    }
  }
}
