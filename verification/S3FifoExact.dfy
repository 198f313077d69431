/** The cache in runs without `remove`: queues and `smallBytes` exact, the victim of Small in closed form,
    and when the eviction loop ends. */
module CacheExact {
  import opened Bytes
  import opened Records
  import opened Caches
  import opened CacheInv

  // ---- Queues that list the live keys once each ----

  lemma ListsPop(m: Entries, q: seq<Key>, inSmall: bool)
    requires Lists(m, q, inSmall) && q != []
    ensures q[0] in m && m[q[0]].inSmall == inSmall && q[0] !in q[1..] && Lists(m - {q[0]}, q[1..], inSmall)
  {
    assert forall k :: k in q ==> k == q[0] || k in q[1..];
  }

  lemma ListsOther(m: Entries, q: seq<Key>, inSmall: bool, k: Key)
    requires Lists(m, q, inSmall) && (k in m ==> m[k].inSmall != inSmall)
    ensures k !in q && Lists(m - {k}, q, inSmall)
  {
  }

  lemma ListsPush(m: Entries, q: seq<Key>, inSmall: bool, k: Key, e: CacheEntry)
    requires Lists(m, q, inSmall) && k !in m
    ensures e.inSmall == inSmall ==> Lists(m[k := e], q + [k], inSmall)
    ensures e.inSmall != inSmall ==> Lists(m[k := e], q, inSmall)
  {
    assert k !in q;
    assert forall j :: j in q + [k] <==> j in q || j == k;
  }

  /** A new value, size, frequency or tenant. */
  lemma ListsTouch(m: Entries, q: seq<Key>, inSmall: bool, k: Key, e: CacheEntry)
    requires Lists(m, q, inSmall) && k in m && e.inSmall == m[k].inSmall
    ensures Lists(m[k := e], q, inSmall)
  {
  }

  lemma ListsRotate(m: Entries, q: seq<Key>, inSmall: bool)
    requires Lists(m, q, inSmall) && q != []
    ensures Lists(m, q[1..] + [q[0]], inSmall)
  {
    var q' := q[1..] + [q[0]];
    assert forall j :: j in q' <==> j in q by {
      assert forall j :: j in q ==> j == q[0] || j in q[1..];
    }
  }

  // ---- Single steps ----

  lemma SmallHeadLive(c: Cache)
    requires Exact(c) && c.small != []
    ensures c.small[0] in c.entries && c.entries[c.small[0]].inSmall && c.entries[c.small[0]].size <= c.smallBytes
  {
    assert c.small[0] in c.small;
    TotalDrop(c.entries, SmallSize(), c.small[0]);
  }

  lemma PromoteExact(c: Cache)
    requires Exact(c) && c.small != []
    ensures c.small[0] in c.entries && Exact(Promote(c.(small := c.small[1..]), c.small[0]))
  {
    hide Lists;
    SmallHeadLive(c);
    var (m, k) := (c.entries, c.small[0]);
    var c' := Promote(c.(small := c.small[1..]), k);
    ListsPop(m, c.small, true);
    ListsOther(m, c.main, false, k);
    ListsPush(m - {k}, c.small[1..], true, k, c'.entries[k]);
    ListsPush(m - {k}, c.main, false, k, c'.entries[k]);
    assert (m - {k})[k := c'.entries[k]] == c'.entries;
    TotalSwap(m, SmallSize(), k, c'.entries[k]);
  }

  lemma EvictColdExact(c: Cache, hash: Key -> nat)
    requires Exact(c) && c.small != []
    ensures c.small[0] in c.entries && Exact(EvictCold(c.(small := c.small[1..]), c.small[0], hash))
  {
    hide Lists, GhostPush;
    SmallHeadLive(c);
    var (m, k) := (c.entries, c.small[0]);
    var c1 := DropEntry(c.(small := c.small[1..], smallBytes := Minus(c.smallBytes, c.entries[k].size)), k);
    ListsPop(m, c.small, true);
    ListsOther(m, c.main, false, k);
    TotalDrop(m, SmallSize(), k);
    GhostFrame(c1, hash(k));
  }

  lemma MainHeadLive(c: Cache)
    requires Exact(c) && c.main != []
    ensures c.main[0] in c.entries && !c.entries[c.main[0]].inSmall
  {
    assert c.main[0] in c.main;
  }

  lemma RotateExact(c: Cache, e: CacheEntry)
    requires Exact(c) && c.main != [] && c.main[0] in c.entries && !e.inSmall
    ensures Exact(c.(main := c.main[1..] + [c.main[0]], entries := c.entries[c.main[0] := e]))
  {
    hide Lists;
    MainHeadLive(c);
    var k := c.main[0];
    ListsRotate(c.entries, c.main, false);
    ListsTouch(c.entries, c.main[1..] + [k], false, k, e);
    ListsTouch(c.entries, c.small, true, k, e);
    TotalSwap(c.entries, SmallSize(), k, e);
  }

  lemma EvictHeadExact(c: Cache)
    requires Exact(c) && c.main != []
    ensures c.main[0] in c.entries && Exact(DropEntry(c.(main := c.main[1..]), c.main[0]))
  {
    hide Lists;
    MainHeadLive(c);
    var k := c.main[0];
    ListsPop(c.entries, c.main, false);
    ListsOther(c.entries, c.small, true, k);
    TotalDrop(c.entries, SmallSize(), k);
  }

  lemma AdmitExact(c: Cache, k: Key, v: Value, size: nat, t: nat, h: nat)
    requires Exact(c) && k !in c.entries
    ensures Exact(Admit(c, k, v, size, t, h))
  {
    hide Lists, AddTenant;
    var e := Admit(c, k, v, size, t, h).entries[k];
    ListsPush(c.entries, c.small, true, k, e);
    ListsPush(c.entries, c.main, false, k, e);
    TotalAdd(c.entries, SmallSize(), k, e);
  }

  lemma OverwriteExact(c: Cache, k: Key, v: Value, size: nat, t: nat)
    requires Exact(c) && k in c.entries
    ensures Exact(Overwrite(c, k, v, size, t))
  {
    hide Lists, AddTenant, SubTenant;
    var e := Overwrite(c, k, v, size, t).entries[k];
    ListsTouch(c.entries, c.small, true, k, e);
    ListsTouch(c.entries, c.main, false, k, e);
    TotalSwap(c.entries, SmallSize(), k, e);
    TotalDrop(c.entries, SmallSize(), k);
  }

  lemma GetExact(c: Cache, k: Key)
    requires Exact(c)
    ensures Exact(Get(c, k))
  {
    hide Lists;
    if k in c.entries {
      var e := Get(c, k).entries[k];
      ListsTouch(c.entries, c.small, true, k, e);
      ListsTouch(c.entries, c.main, false, k, e);
      TotalSwap(c.entries, SmallSize(), k, e);
    }
  }

  // ---- Evictions and insertions ----

  lemma {:induction false} EvictFromSmallExact(c: Cache, hash: Key -> nat)
    requires Exact(c)
    ensures Exact(EvictFromSmall(c, hash).0)
    decreases |c.small|
  {
    hide Exact, EvictCold, Promote;
    if c.small != [] {
      SmallHeadLive(c);
      var k := c.small[0];
      if c.entries[k].freq > 1 {
        PromoteExact(c);
        PromoteSmall(c.(small := c.small[1..]), k);
        EvictFromSmallExact(Promote(c.(small := c.small[1..]), k), hash);
      } else {
        EvictColdExact(c, hash);
      }
    }
  }

  lemma PromoteSmall(c: Cache, k: Key)
    requires k in c.entries
    ensures Promote(c, k).small == c.small
  {
  }

  lemma {:induction false} EvictFromMainExact(c: Cache, target: Option<nat>, skips: nat)
    requires Exact(c) && skips <= MAX_FAIR_SKIPS
    ensures Exact(EvictFromMain(c, target, skips).0)
    decreases Total(c.entries, Freq()) + (MAX_FAIR_SKIPS - skips) + |c.main|
  {
    hide Exact, Total, Charged, DropEntry;
    if c.main != [] {
      MainHeadLive(c);
      var k := c.main[0];
      var c1 := c.(main := c.main[1..]);
      if c.entries[k].freq > 0 {
        TouchLess(c1, k);
        RotateExact(c, Touch(c1, k).entries[k]);
        EvictFromMainExact(Touch(c1, k), target, skips);
      } else if target.Some? && skips < MAX_FAIR_SKIPS && Charged(c.tenants, c.entries[k].tenant) <= target.value {
        RotateExact(c, c.entries[k]);
        assert c.entries[k := c.entries[k]] == c.entries;
        EvictFromMainExact(c1.(main := c1.main + [k]), target, skips + 1);
      } else {
        EvictHeadExact(c);
      }
    }
  }

  lemma EvictOneExact(c: Cache, budget: nat, hash: Key -> nat)
    requires Exact(c)
    ensures Exact(EvictOne(c, budget, hash).0)
  {
    hide Exact, EvictFromMain, EvictFromSmall;
    EvictFromSmallExact(c, hash);
    var s := if c.smallBytes >= SmallBudget(budget) then EvictFromSmall(c, hash) else (c, false);
    EvictFromMainExact(s.0, OverShare(s.0.tenants, budget), 0);
  }

  /** Without `remove`, a stuck cache holds nothing but Small entries, below Small's share. */
  lemma StuckTotal(c: Cache, budget: nat)
    requires Inv(c) && Exact(c)
    ensures Stuck(c, budget) <==> c.main == [] && c.total < SmallBudget(budget)
  {
    if c.main == [] {
      assert forall k :: k in c.entries ==> c.entries[k].inSmall;
      TotalBelow(c.entries, SizeIn(), SmallSize());
      TotalBelow(c.entries, SmallSize(), SizeIn());
    } else {
      MainHeadLive(c);
      assert c.main[0] in c.main;
    }
  }

  /** Every entry carries the fixed overhead. */
  ghost predicate Sized(c: Cache) {
    forall k :: k in c.entries ==> c.entries[k].size >= ENTRY_OVERHEAD
  }

  lemma SizedTotal(c: Cache)
    requires Inv(c) && Sized(c) && c.entries != map[]
    ensures c.total >= ENTRY_OVERHEAD
  {
    var k :| k in c.entries;
    TotalDrop(c.entries, SizeIn(), k);
  }

  /** A stuck cache, which holds less than Small's share, leaves room for `size` bytes; or the share is
      so small that a cache with an entry in it is never stuck. */
  ghost predicate Roomy(c: Cache, size: nat, budget: nat) {
    size + SmallBudget(budget) <= budget + 1 || (Sized(c) && SmallBudget(budget) <= ENTRY_OVERHEAD)
  }

  /** The eviction loop ends, and with exact queues, for every entry that leaves it room in the
      budget. */
  lemma {:induction false} MakeRoomEnds(c: Cache, size: nat, budget: nat, hash: Key -> nat)
    requires Inv(c) && Exact(c)
    ensures var r := MakeRoom(c, size, budget, hash);
            (Roomy(c, size, budget) ==> r.Some?) && (r.Some? ==> Exact(r.value))
    decreases c.entries.Keys
  {
    hide Inv, Exact, EvictOne, Stuck;
    if c.total + size > budget && c.entries != map[] {
      EvictOneInv(c, budget, hash);
      EvictOneExact(c, budget, hash);
      StuckTotal(c, budget);
      if Sized(c) {
        SizedTotal(c);
      }
      var r := EvictOne(c, budget, hash);
      if r.1 {
        MakeRoomEnds(r.0, size, budget, hash);
      }
    }
  }

  lemma InsertEnds(c: Cache, k: Key, v: Value, bytes: nat, t: nat, budget: nat, hash: Key -> nat)
    requires Inv(c) && Exact(c)
    ensures var r := Insert(c, k, v, bytes, t, budget, hash);
            (k in c.entries || Roomy(c, EntrySize(k, bytes), budget) ==> r.Some?) && (r.Some? ==> Exact(r.value))
  {
    hide Inv, Exact, MakeRoom, Admit, Overwrite;
    var size := EntrySize(k, bytes);
    if k in c.entries {
      OverwriteExact(c, k, v, size, t);
    } else {
      MakeRoomEnds(c, size, budget, hash);
      var room := MakeRoom(c, size, budget, hash);
      if room.Some? {
        MakeRoomInv(c, size, budget, hash);
        AdmitExact(room.value, k, v, size, t, hash(k));
      }
    }
  }

  /** An insert of a new key into a stuck cache without room never returns. */
  lemma StuckInsertHangs(c: Cache, k: Key, v: Value, bytes: nat, t: nat, budget: nat, hash: Key -> nat)
    requires Inv(c) && c.entries != map[] && k !in c.entries && Stuck(c, budget) && c.total + EntrySize(k, bytes) > budget
    ensures Insert(c, k, v, bytes, t, budget, hash) == None
  {
    EvictOneInv(c, budget, hash);
  }

  // ---- The victim of Small ----

  /** The first entry of Small touched at most once, or the length of the queue. */
  function FirstCold(m: Entries, q: seq<Key>): (i: nat)
    requires forall k :: k in q ==> k in m
    ensures i <= |q| && (forall j :: 0 <= j < i ==> m[q[j]].freq > 1) && (i < |q| ==> m[q[i]].freq <= 1)
  {
    if q == [] || m[q[0]].freq <= 1 then 0 else 1 + FirstCold(m, q[1..])
  }

  /** Small after its first `i` entries were promoted and the next one, if any, evicted. */
  ghost predicate SmallOutcome(c: Cache, i: nat, c': Cache, removed: bool)
    requires i <= |c.small|
  {
    && c'.main == c.main + c.small[..i] && (removed <==> i < |c.small|)
    && c'.small == (if removed then c.small[i + 1..] else [])
    && c'.entries.Keys == (if removed then c.entries.Keys - {c.small[i]} else c.entries.Keys)
    && forall k :: k in c'.entries && k in c.entries ==>
         c'.entries[k] == if k in c.small[..i] then c.entries[k].(freq := 0, inSmall := false) else c.entries[k]
  }

  lemma SmallOutcomeStep(c: Cache, i: nat, c': Cache, removed: bool)
    requires c.small != [] && c.small[0] in c.entries && c.small[0] !in c.small[1..] && i < |c.small|
    requires SmallOutcome(Promote(c.(small := c.small[1..]), c.small[0]), i, c', removed)
    ensures SmallOutcome(c, i + 1, c', removed)
  {
    var (k, rest) := (c.small[0], c.small[1..]);
    assert c.small[..i + 1] == [k] + rest[..i];
    assert c.main + [k] + rest[..i] == c.main + c.small[..i + 1];
    assert k !in rest[..i];
    assert forall j :: j in c.small[..i + 1] <==> j == k || j in rest[..i];
  }

  lemma ColdOutcome(c: Cache, hash: Key -> nat)
    requires c.small != [] && c.small[0] in c.entries
    ensures SmallOutcome(c, 0, EvictCold(c.(small := c.small[1..]), c.small[0], hash), true)
  {
    hide Minus, SubTenant, GhostPush;
    var k := c.small[0];
    GhostFrame(DropEntry(c.(small := c.small[1..], smallBytes := Minus(c.smallBytes, c.entries[k].size)), k), hash(k));
    assert c.main + c.small[..0] == c.main;
  }

  /** `evict_from_small` in closed form: it evicts the first cold entry and moves those before it to
      the back of Main; with no cold entry it empties Small into Main. */
  lemma {:induction false} SmallVictim(c: Cache, hash: Key -> nat)
    requires Exact(c)
    ensures forall k :: k in c.small ==> k in c.entries
    ensures var r := EvictFromSmall(c, hash); SmallOutcome(c, FirstCold(c.entries, c.small), r.0, r.1)
    decreases |c.small|
  {
    hide Exact, Promote, EvictCold, SmallOutcome;
    SmallLive(c);
    if c.small == [] {
      NothingSmall(c);
    } else {
      var (k, rest) := (c.small[0], c.small[1..]);
      var c2 := Promote(c.(small := rest), k);
      if c.entries[k].freq > 1 {
        PromoteExact(c);
        SmallOnce(c);
        PromoteOthers(c.(small := rest), k);
        SmallVictim(c2, hash);
        SameCold(c.entries, c2.entries, rest);
        SmallOutcomeStep(c, FirstCold(c.entries, rest), EvictFromSmall(c2, hash).0, EvictFromSmall(c2, hash).1);
      } else {
        ColdOutcome(c, hash);
      }
    }
  }

  lemma NothingSmall(c: Cache)
    requires c.small == []
    ensures SmallOutcome(c, 0, c, false)
  {
    assert c.main + c.small[..0] == c.main;
  }

  lemma PromoteOthers(c: Cache, k: Key)
    requires k in c.entries
    ensures var c' := Promote(c, k); c'.small == c.small && forall j :: j in c.entries && j != k ==> j in c'.entries && c'.entries[j] == c.entries[j]
  {
  }

  lemma SmallLive(c: Cache)
    requires Exact(c)
    ensures forall k :: k in c.small ==> k in c.entries
  {
  }

  lemma SmallOnce(c: Cache)
    requires Exact(c) && c.small != []
    ensures c.small[0] !in c.small[1..]
  {
  }

  lemma {:induction false} SameCold(m: Entries, m': Entries, q: seq<Key>)
    requires forall k :: k in q ==> k in m && k in m' && m'[k] == m[k]
    ensures FirstCold(m', q) == FirstCold(m, q)
  {
    if q != [] {
      SameCold(m, m', q[1..]);
    }
  }
}
