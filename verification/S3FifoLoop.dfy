/** When the eviction loop of an insert ends, in every run, `remove` included. */
module CacheLoop {
  import opened Bytes
  import opened Records
  import opened Caches
  import opened CacheInv

  /** The live entries without a place in Main: no eviction from Main reaches them. */
  function Outside(m: Entries, main: seq<Key>): Entries {
    map k | k in m && k !in main :: m[k]
  }

  ghost predicate MainOnly(c: Cache, c': Cache) {
    && Outside(c'.entries, c'.main) == Outside(c.entries, c.main)
    && c'.small == c.small && c'.smallBytes == c.smallBytes
  }

  lemma PopOutside(m: Entries, q: seq<Key>)
    requires q != [] && q[0] !in m
    ensures Outside(m, q[1..]) == Outside(m, q)
  {
    assert forall k :: k in q <==> k == q[0] || k in q[1..];
  }

  lemma RotateOutside(m: Entries, q: seq<Key>, e: CacheEntry)
    requires q != [] && q[0] in m
    ensures Outside(m[q[0] := e], q[1..] + [q[0]]) == Outside(m, q)
  {
    assert forall k :: k in q <==> k == q[0] || k in q[1..];
    assert forall k :: k in q[1..] + [q[0]] <==> k in q;
  }

  lemma EvictOutside(m: Entries, q: seq<Key>)
    requires q != []
    ensures Outside(m - {q[0]}, q[1..]) == Outside(m, q)
  {
    assert forall k :: k in q <==> k == q[0] || k in q[1..];
  }

  /** `evict_from_main` leaves the entries outside Main, and Small, as they are. */
  lemma {:induction false} EvictFromMainOnly(c: Cache, target: Option<nat>, skips: nat)
    requires skips <= MAX_FAIR_SKIPS
    ensures MainOnly(c, EvictFromMain(c, target, skips).0)
    decreases Total(c.entries, Freq()) + (MAX_FAIR_SKIPS - skips) + |c.main|
  {
    hide Total, Charged, SubTenant, EvictFromMain, OneOrNone, Outside;
    if c.main == [] {
      NothingInMain(c, target, skips);
    } else {
      EvictTurn(c, target, skips);
      var k := c.main[0];
      var c1 := c.(main := c.main[1..]);
      if k !in c.entries {
        PopOutside(c.entries, c.main);
        EvictFromMainOnly(c1, target, skips);
      } else if c.entries[k].freq > 0 {
        TouchLess(c1, k);
        RotateOutside(c.entries, c.main, Touch(c1, k).entries[k]);
        EvictFromMainOnly(Touch(c1, k), target, skips);
      } else if target.Some? && skips < MAX_FAIR_SKIPS && Charged(c.tenants, c.entries[k].tenant) <= target.value {
        RotateOutside(c.entries, c.main, c.entries[k]);
        assert c.entries[k := c.entries[k]] == c.entries;
        EvictFromMainOnly(c1.(main := c1.main + [k]), target, skips + 1);
      } else {
        EvictOutside(c.entries, c.main);
      }
    }
  }

  lemma {:induction false} OutsideTotal(m: Entries, main: seq<Key>)
    ensures Total(Outside(m, main), SizeIn()) <= Total(m, SizeIn())
    decreases |m|
  {
    hide Total;
    if m == map[] {
      assert Outside(m, main) == m;
    } else {
      var k :| k in m;
      TotalDrop(m, SizeIn(), k);
      OutsideTotal(m - {k}, main);
      if k in main {
        assert Outside(m - {k}, main) == Outside(m, main);
      } else {
        TotalDrop(Outside(m, main), SizeIn(), k);
        assert Outside(m, main) - {k} == Outside(m - {k}, main);
      }
    }
  }

  /** With Main gone, `size` more bytes fit or nothing is left. */
  ghost predicate FitsOutside(c: Cache, size: nat, budget: nat) {
    Outside(c.entries, c.main) == map[] || Total(Outside(c.entries, c.main), SizeIn()) + size <= budget
  }

  /** Evictions go to Main alone: Small is below its share, or it has nothing to evict. */
  ghost predicate SmallIdle(c: Cache, budget: nat) {
    c.smallBytes < SmallBudget(budget) || c.small == []
  }

  lemma NoSmall(c: Cache, hash: Key -> nat)
    requires c.small == []
    ensures EvictFromSmall(c, hash) == (c, false)
  {
  }

  /** Nothing outside a queue: with Small empty everything is in Main. */
  lemma AllQueued(c: Cache)
    requires Inv(c) && c.small == []
    ensures Outside(c.entries, c.main) == map[]
  {
  }

  /** In an eviction that removes nothing, everything is outside Main. */
  lemma StuckOutside(c: Cache, budget: nat)
    requires Stuck(c, budget)
    ensures Outside(c.entries, c.main) == c.entries
  {
    assert forall k :: k in c.entries ==> k !in c.main;
  }

  lemma TotalIsSum(c: Cache)
    requires Inv(c)
    ensures c.total == Total(c.entries, SizeIn())
  {
  }

  lemma NothingOutside(main: seq<Key>)
    ensures Outside(map[], main) == map[]
  {
  }

  lemma RoomFits(c: Cache, size: nat, budget: nat)
    requires Inv(c) && (c.total + size <= budget || c.entries == map[])
    ensures FitsOutside(c, size, budget)
  {
    hide Inv, Outside, Total;
    OutsideTotal(c.entries, c.main);
    TotalIsSum(c);
    if c.entries == map[] {
      NothingOutside(c.main);
    }
  }

  /** From then on the loop ends if and only if what Main cannot free leaves room. */
  lemma {:induction false} MainLoopIff(c: Cache, size: nat, budget: nat, hash: Key -> nat)
    requires Inv(c) && SmallIdle(c, budget)
    ensures MakeRoom(c, size, budget, hash).Some? <==> FitsOutside(c, size, budget)
    decreases c.entries.Keys
  {
    hide Inv, EvictFromMain, EvictFromSmall, Stuck, Outside, Total, OneOrNone;
    if c.total + size <= budget || c.entries == map[] {
      RoomFits(c, size, budget);
    } else {
      var r := EvictOne(c, budget, hash);
      EvictOneInv(c, budget, hash);
      if c.small == [] {
        NoSmall(c, hash);
      }
      EvictFromMainOnly(c, OverShare(c.tenants, budget), 0);
      if r.1 {
        EvictOneShrinks(c, budget, hash);
        MainLoopIff(r.0, size, budget, hash);
      } else {
        StuckOutside(c, budget);
        TotalIsSum(c);
      }
    }
  }

  lemma EvictOneShrinks(c: Cache, budget: nat, hash: Key -> nat)
    requires EvictOne(c, budget, hash).1
    ensures EvictOne(c, budget, hash).0.entries.Keys < c.entries.Keys
  {
    hide EvictFromMain, EvictFromSmall;
  }

  /** The cache once Small is below its share, or everything cold in it is gone, or there is room. */
  ghost function Settled(c: Cache, size: nat, budget: nat, hash: Key -> nat): Cache
    decreases c.entries.Keys
  {
    if c.total + size <= budget || c.entries == map[] || c.smallBytes < SmallBudget(budget) then c
    else
      var s := EvictFromSmall(c, hash);
      if s.1 then Settled(s.0, size, budget, hash) else s.0
  }

  /** In every run the loop ends if and only if, once Small is below its share by `smallBytes`, the
      entries Main cannot free leave room for the new one, or there are none. */
  lemma {:induction false} LoopEndsIff(c: Cache, size: nat, budget: nat, hash: Key -> nat)
    requires Inv(c)
    ensures MakeRoom(c, size, budget, hash).Some? <==> FitsOutside(Settled(c, size, budget, hash), size, budget)
    decreases c.entries.Keys
  {
    hide Inv, EvictFromMain, EvictFromSmall, Outside, Total, FitsOutside;
    if c.total + size <= budget || c.entries == map[] {
      RoomFits(c, size, budget);
    } else if c.smallBytes < SmallBudget(budget) {
      MainLoopIff(c, size, budget, hash);
    } else {
      var s := EvictFromSmall(c, hash);
      EvictFromSmallInv(c, hash);
      if s.1 {
        LoopEndsIff(s.0, size, budget, hash);
      } else {
        InvQueued(c);
        SmallDrained(c, hash);
        DrainedEnds(c, size, budget, hash);
      }
    }
  }

  /** Small drained without a victim: everything is in Main, and the loop ends. */
  lemma DrainedEnds(c: Cache, size: nat, budget: nat, hash: Key -> nat)
    requires Inv(c) && c.total + size > budget && c.entries != map[] && c.smallBytes >= SmallBudget(budget)
    requires var s := EvictFromSmall(c, hash); !s.1 && s.0.small == [] && Inv(s.0)
    ensures MakeRoom(c, size, budget, hash).Some? && FitsOutside(EvictFromSmall(c, hash).0, size, budget)
  {
    hide Inv, EvictFromMain, EvictFromSmall, Outside, Total, OneOrNone;
    var s := EvictFromSmall(c, hash).0;
    AllQueued(s);
    EvictOneInv(c, budget, hash);
    EvictFromMainOnly(s, OverShare(s.tenants, budget), 0);
    MainLoopIff(EvictOne(c, budget, hash).0, size, budget, hash);
  }

  /** An insert returns if and only if its key is cached or the loop ends. */
  lemma InsertEndsIff(c: Cache, k: Key, v: Value, bytes: nat, t: nat, budget: nat, hash: Key -> nat)
    requires Inv(c)
    ensures Insert(c, k, v, bytes, t, budget, hash).Some? <==>
            k in c.entries || FitsOutside(Settled(c, EntrySize(k, bytes), budget, hash), EntrySize(k, bytes), budget)
  {
    hide Inv, MakeRoom, FitsOutside, Settled, Admit, Overwrite;
    LoopEndsIff(c, EntrySize(k, bytes), budget, hash);
  }
}
