/** The cache as the object a shard holds: `S3Fifo`, its queues and counters changed in place. */
module CacheStore {
  import opened Bytes
  import opened Records
  import opened Caches
  import opened CacheInv
  import opened CacheExact

  class S3Fifo {
    const budget: nat
    const smallBudget: nat
    const hash: Key -> nat
    var entries: Entries
    var small: seq<Key>
    var main: seq<Key>
    var ghosts: seq<nat>
    var hashes: set<nat>
    var tenants: Tenants
    var total: nat
    var smallBytes: nat

    function State(): Cache
      reads this
    {
      Cache(entries, small, main, ghosts, hashes, tenants, total, smallBytes)
    }

    ghost predicate Valid()
      reads this
    {
      smallBudget == SmallBudget(budget) && Inv(State())
    }

    /** The panic on a zero budget is the caller's to avoid. */
    constructor (budget: nat, hash: Key -> nat)
      requires budget >= 1
      ensures this.budget == budget && this.hash == hash && State() == EMPTY && smallBudget == SmallBudget(budget)
    {
      this.budget, this.hash := budget, hash;
      smallBudget := if budget / 10 < 1 then 1 else budget / 10;
      entries, small, main, ghosts, hashes := map[], [], [], [], {};
      tenants, total, smallBytes := Tenants(0, map[]), 0, 0;
    }

    method Get(k: Key) returns (v: Option<Value>)
      modifies this
      ensures State() == Caches.Get(old(State()), k)
      ensures v == if k in old(entries) then Some(old(entries)[k].value) else None
    {
      if k in entries {
        var e := entries[k];
        entries := entries[k := e.(freq := if e.freq + 1 < 3 then e.freq + 1 else 3)];
        return Some(e.value);
      }
      return None;
    }

    method AddTenantBytes(t: nat, n: nat)
      modifies this`tenants
      ensures tenants == AddTenant(old(tenants), t, n)
    {
      if t == 0 {
        tenants := tenants.(zero := tenants.zero + n);
      } else {
        tenants := tenants.(others := tenants.others[t := (if t in tenants.others then tenants.others[t] else 0) + n]);
      }
    }

    method SubTenantBytes(t: nat, n: nat)
      modifies this`tenants
      ensures tenants == SubTenant(old(tenants), t, n)
    {
      if t == 0 {
        tenants := tenants.(zero := Minus(tenants.zero, n));
      } else if t in tenants.others {
        var left := Minus(tenants.others[t], n);
        tenants := tenants.(others := if left == 0 then tenants.others - {t} else tenants.others[t := left]);
      }
    }

    method Remove(k: Key) returns (was: bool)
      modifies this
      ensures State() == Caches.Remove(old(State()), k) && was == (k in old(entries))
    {
      if k !in entries {
        return false;
      }
      var e := entries[k];
      entries := entries - {k};
      total := Minus(total, e.size);
      if e.inSmall {
        smallBytes := Minus(smallBytes, e.size);
      }
      SubTenantBytes(e.tenant, e.size);
      return true;
    }

    method PushGhost(h: nat)
      modifies this`ghosts, this`hashes
      ensures State() == GhostPush(old(State()), h)
    {
      if h !in hashes {
        hashes, ghosts := hashes + {h}, ghosts + [h];
      }
      assert old(hashes) + {h} == hashes;
      ghost var goal := Trim(ghosts, hashes);
      while |ghosts| > GHOST_CAPACITY
        invariant Trim(ghosts, hashes) == goal
      {
        hashes, ghosts := hashes - {ghosts[0]}, ghosts[1..];
      }
    }

    method EvictSmall() returns (removed: bool)
      modifies this
      ensures (State(), removed) == EvictFromSmall(old(State()), hash)
    {
      hide GhostPush, SubTenant, Minus, OneOrNone;
      ghost var goal := EvictFromSmall(State(), hash);
      while small != []
        invariant EvictFromSmall(State(), hash) == goal
        decreases |small|
      {
        ghost var c := State();
        var k := small[0];
        small := small[1..];
        if k !in entries {
          continue;
        }
        var e := entries[k];
        if e.freq > 1 {
          entries := entries[k := e.(freq := 0, inSmall := false)];
          smallBytes := Minus(smallBytes, e.size);
          main := main + [k];
          assert State() == Promote(c.(small := c.small[1..]), k);
        } else {
          entries := entries - {k};
          total := Minus(total, e.size);
          smallBytes := Minus(smallBytes, e.size);
          SubTenantBytes(e.tenant, e.size);
          assert State() == DropEntry(c.(small := c.small[1..], smallBytes := smallBytes), k);
          PushGhost(hash(k));
          return true;
        }
      }
      return false;
    }

    method TargetShare() returns (target: Option<nat>)
      ensures target == OverShare(tenants, budget)
    {
      if tenants.others == map[] {
        return None;
      }
      var active := |tenants.others| + if tenants.zero > 0 then 1 else 0;
      var t := budget / active;
      if tenants.zero > t || exists u :: u in tenants.others && tenants.others[u] > t {
        return Some(t);
      }
      return None;
    }

    method EvictMain() returns (removed: bool)
      modifies this
      ensures (State(), removed) == EvictFromMain(old(State()), OverShare(old(tenants), budget), 0)
    {
      hide EvictFromMain, Total, OneOrNone, SubTenant, Charged, Minus, OverShare;
      var target := TargetShare();
      ghost var goal := EvictFromMain(State(), target, 0);
      var skips := 0;
      while main != []
        invariant skips <= MAX_FAIR_SKIPS && EvictFromMain(State(), target, skips) == goal
        decreases Total(entries, Freq()) + (MAX_FAIR_SKIPS - skips) + |main|
      {
        ghost var c := State();
        EvictTurn(c, target, skips);
        var k := main[0];
        main := main[1..];
        if k !in entries {
          continue;
        }
        var e := entries[k];
        if e.freq > 0 {
          TouchLess(c.(main := c.main[1..]), k);
          entries := entries[k := e.(freq := e.freq - 1)];
          main := main + [k];
          assert State() == Touch(c.(main := c.main[1..]), k);
          continue;
        }
        if target.Some? && skips < MAX_FAIR_SKIPS && Charged(tenants, e.tenant) <= target.value {
          main := main + [k];
          skips := skips + 1;
          continue;
        }
        entries := entries - {k};
        total := Minus(total, e.size);
        SubTenantBytes(e.tenant, e.size);
        return true;
      }
      NothingInMain(State(), target, skips);
      return false;
    }

    method Evict() returns (removed: bool)
      requires smallBudget == SmallBudget(budget)
      modifies this
      ensures (State(), removed) == EvictOne(old(State()), budget, hash)
    {
      if smallBytes >= smallBudget {
        removed := EvictSmall();
        if removed {
          return;
        }
      }
      removed := EvictMain();
    }

    /** `insert_for`. `ended` is false where the source's loop would go on forever: there the model
        stops, in the state every further turn of the loop would leave as it is. */
    method InsertFor(k: Key, v: Value, bytes: nat, tenant: nat) returns (ended: bool)
      requires Valid()
      modifies this
      ensures Valid()
      ensures Insert(old(State()), k, v, bytes, tenant % 0x1_0000_0000_0000_0000, budget, hash) == if ended then Some(State()) else None
      ensures !ended ==> Stuck(State(), budget) && entries != map[] && total + EntrySize(k, bytes) > budget
                         && EvictOne(State(), budget, hash) == (State(), false)
      ensures old(Exact(State())) && EntrySize(k, bytes) + smallBudget <= budget ==> ended
    {
      hide Inv, Exact, MakeRoom, EvictOne, Admit, Overwrite, Stuck;
      var t := tenant % 0x1_0000_0000_0000_0000;
      var size := |k| + bytes + ENTRY_OVERHEAD;
      assert old(Exact(State())) ==> (k in entries || size + smallBudget <= budget ==> Insert(State(), k, v, bytes, t, budget, hash).Some?) by {
        if Exact(State()) {
          InsertEnds(State(), k, v, bytes, t, budget, hash);
        }
      }
      InsertInv(State(), k, v, bytes, t, budget, hash);
      if k in entries {
        UpdateEntry(k, v, size, t);
        return true;
      }
      ended := Room(size);
      if ended {
        AdmitEntry(k, v, size, t);
      }
    }

    method UpdateEntry(k: Key, v: Value, size: nat, t: nat)
      requires k in entries
      modifies this
      ensures State() == Overwrite(old(State()), k, v, size, t)
    {
      hide AddTenant, SubTenant, Minus;
      var e := entries[k];
      entries := entries[k := e.(value := v, size := size, tenant := t)];
      total := Minus(total + size, e.size);
      if e.inSmall {
        smallBytes := Minus(smallBytes + size, e.size);
      }
      SubTenantBytes(e.tenant, e.size);
      AddTenantBytes(t, size);
    }

    method AdmitEntry(k: Key, v: Value, size: nat, t: nat)
      modifies this
      ensures State() == Admit(old(State()), k, v, size, t, hash(k))
    {
      hide AddTenant;
      var inSmall := hash(k) !in hashes;
      hashes := hashes - {hash(k)};
      if inSmall {
        small := small + [k];
        smallBytes := smallBytes + size;
      } else {
        main := main + [k];
      }
      entries := entries[k := CacheEntry(v, size, 0, inSmall, t)];
      total := total + size;
      AddTenantBytes(t, size);
    }

    /** The eviction loop of `insert_for`. */
    method Room(size: nat) returns (ended: bool)
      requires Valid()
      modifies this
      ensures Valid()
      ensures MakeRoom(old(State()), size, budget, hash) == if ended then Some(State()) else None
      ensures !ended ==> Stuck(State(), budget) && entries != map[] && total + size > budget
                         && EvictOne(State(), budget, hash) == (State(), false)
    {
      hide Inv, EvictOne, Stuck;
      ghost var goal := MakeRoom(State(), size, budget, hash);
      while total + size > budget && entries != map[]
        invariant Valid() && MakeRoom(State(), size, budget, hash) == goal
        decreases entries.Keys
      {
        ghost var c := State();
        EvictOneInv(c, budget, hash);
        var removed := Evict();
        if !removed {
          StuckForever(c, budget, hash);
          return false;
        }
      }
      return true;
    }
  }
}
