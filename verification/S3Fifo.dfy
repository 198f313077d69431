/** The byte-budgeted cache: `cache.rs`. */
module Caches {
  import opened Bytes
  import opened MapSum
  import opened Records

  const ENTRY_OVERHEAD: nat := 64
  const GHOST_CAPACITY: nat := 0x1_0000
  const MAX_FAIR_SKIPS: nat := 16

  datatype CacheEntry = CacheEntry(value: Value, size: nat, freq: nat, inSmall: bool, tenant: nat)

  type Entries = map<Key, CacheEntry>

  // ---- Sums over the live entries ----

  ghost function Total(m: Entries, f: CacheEntry -> nat): nat {
    Sum(Parts(m, f))
  }

  function Parts(m: Entries, f: CacheEntry -> nat): map<Key, nat> {
    map k | k in m :: f(m[k])
  }

  lemma TotalDrop(m: Entries, f: CacheEntry -> nat, k: Key)
    requires k in m
    ensures Total(m, f) == f(m[k]) + Total(m - {k}, f)
  {
    SumRemove(Parts(m, f), k);
    assert Parts(m, f) - {k} == Parts(m - {k}, f);
  }

  lemma TotalPut(m: Entries, f: CacheEntry -> nat, k: Key, e: CacheEntry)
    ensures Total(m[k := e], f) == f(e) + Total(m - {k}, f)
  {
    hide Total;
    TotalDrop(m[k := e], f, k);
    assert m[k := e] - {k} == m - {k};
  }

  lemma TotalAdd(m: Entries, f: CacheEntry -> nat, k: Key, e: CacheEntry)
    requires k !in m
    ensures Total(m[k := e], f) == f(e) + Total(m, f)
  {
    hide Total;
    TotalPut(m, f, k, e);
    assert m - {k} == m;
  }

  /** Replacing an entry moves the sum by the difference. */
  lemma TotalSwap(m: Entries, f: CacheEntry -> nat, k: Key, e: CacheEntry)
    requires k in m
    ensures Total(m[k := e], f) + f(m[k]) == Total(m, f) + f(e)
  {
    hide Total;
    TotalPut(m, f, k, e);
    TotalDrop(m, f, k);
  }

  lemma {:induction false} TotalBelow(m: Entries, f: CacheEntry -> nat, g: CacheEntry -> nat)
    requires forall k :: k in m ==> f(m[k]) <= g(m[k])
    ensures Total(m, f) <= Total(m, g)
    decreases |m|
  {
    if m != map[] {
      var k :| k in m;
      TotalDrop(m, f, k);
      TotalDrop(m, g, k);
      TotalBelow(m - {k}, f, g);
    }
  }

  function SizeIn(): CacheEntry -> nat {
    (e: CacheEntry) => e.size
  }

  function SizeFor(t: nat): CacheEntry -> nat {
    (e: CacheEntry) => if e.tenant == t then e.size else 0
  }

  function SmallSize(): CacheEntry -> nat {
    (e: CacheEntry) => if e.inSmall then e.size else 0
  }

  function Freq(): CacheEntry -> nat {
    (e: CacheEntry) => e.freq
  }

  /** `usize` subtraction: below zero it wraps. */
  function Minus(x: nat, n: nat): (d: nat)
    ensures n <= x ==> d == x - n
  {
    if n <= x then x - n else (x - n) % 0x1_0000_0000_0000_0000
  }

  // ---- Tenant accounting ----

  datatype Tenants = Tenants(zero: nat, others: map<nat, nat>)

  function Charged(ts: Tenants, t: nat): nat {
    if t == 0 then ts.zero else if t in ts.others then ts.others[t] else 0
  }

  function AddTenant(ts: Tenants, t: nat, n: nat): (ts': Tenants)
    ensures forall u :: Charged(ts', u) == Charged(ts, u) + if u == t then n else 0
  {
    if t == 0 then ts.(zero := ts.zero + n) else ts.(others := ts.others[t := Charged(ts, t) + n])
  }

  /** A tenant whose charge reaches zero loses its row. */
  function SubTenant(ts: Tenants, t: nat, n: nat): (ts': Tenants)
    ensures n <= Charged(ts, t) ==> forall u :: Charged(ts', u) == Charged(ts, u) - if u == t then n else 0
  {
    if t == 0 then ts.(zero := Minus(ts.zero, n))
    else if t !in ts.others then ts
    else if Minus(ts.others[t], n) == 0 then ts.(others := ts.others - {t})
    else ts.(others := ts.others[t := Minus(ts.others[t], n)])
  }

  /** Every charge is the sum over the tenant's live entries, and only tenants with one have a row. */
  ghost predicate TenantsExact(m: Entries, ts: Tenants) {
    && (forall t :: Charged(ts, t) == Total(m, SizeFor(t)))
    && 0 !in ts.others && forall t :: t in ts.others ==> ts.others[t] > 0
  }

  lemma TenantHolds(m: Entries, ts: Tenants, k: Key)
    requires TenantsExact(m, ts) && k in m
    ensures m[k].size <= Charged(ts, m[k].tenant)
  {
    hide Total;
    TotalDrop(m, SizeFor(m[k].tenant), k);
  }

  lemma TenantsDrop(m: Entries, ts: Tenants, k: Key)
    requires TenantsExact(m, ts) && k in m
    ensures m[k].size <= Charged(ts, m[k].tenant) && TenantsExact(m - {k}, SubTenant(ts, m[k].tenant, m[k].size))
  {
    hide Total;
    TenantHolds(m, ts, k);
    var ts' := SubTenant(ts, m[k].tenant, m[k].size);
    forall t ensures Charged(ts', t) == Total(m - {k}, SizeFor(t)) {
      TotalDrop(m, SizeFor(t), k);
    }
  }

  lemma TenantsPut(m: Entries, ts: Tenants, k: Key, e: CacheEntry)
    requires TenantsExact(m, ts) && k !in m && e.size > 0
    ensures TenantsExact(m[k := e], AddTenant(ts, e.tenant, e.size))
  {
    hide Total;
    var ts' := AddTenant(ts, e.tenant, e.size);
    forall t ensures Charged(ts', t) == Total(m[k := e], SizeFor(t)) {
      TotalAdd(m, SizeFor(t), k, e);
    }
  }

  lemma TenantsSame(m: Entries, ts: Tenants, k: Key, e: CacheEntry)
    requires TenantsExact(m, ts) && k in m && e.size == m[k].size && e.tenant == m[k].tenant
    ensures TenantsExact(m[k := e], ts)
  {
    hide Total;
    forall t ensures Total(m[k := e], SizeFor(t)) == Total(m, SizeFor(t)) {
      TotalSwap(m, SizeFor(t), k, e);
    }
  }

  // ---- What holds in every run ----

  /** The byte counters are the sums over the live entries. */
  ghost predicate Books(m: Entries, total: nat, ts: Tenants) {
    && total == Total(m, SizeIn()) && TenantsExact(m, ts)
    && forall k :: k in m ==> m[k].size > 0 && m[k].freq <= 3
  }

  ghost predicate Ghosts(queue: seq<nat>, hashes: set<nat>) {
    |queue| <= GHOST_CAPACITY && forall h :: h in hashes ==> h in queue
  }

  /** Every live key is in a queue. */
  ghost predicate Queued(m: Entries, small: seq<Key>, main: seq<Key>) {
    forall k :: k in m ==> k in small || k in main
  }

  // ---- What holds in runs without `remove` ----

  ghost predicate Distinct(q: seq<Key>) {
    forall i, j :: 0 <= i < j < |q| ==> q[i] != q[j]
  }

  /** `q` lists the live keys whose flag is `inSmall`, once each. */
  ghost predicate Lists(m: Entries, q: seq<Key>, inSmall: bool) {
    && Distinct(q)
    && (forall k :: k in q ==> k in m && m[k].inSmall == inSmall)
    && (forall k :: k in m && m[k].inSmall == inSmall ==> k in q)
  }

  ghost predicate ExactQueues(m: Entries, small: seq<Key>, main: seq<Key>, smallBytes: nat) {
    Lists(m, small, true) && Lists(m, main, false) && smallBytes == Total(m, SmallSize())
  }

  // ---- The operations ----

  datatype Cache = Cache(entries: Entries, small: seq<Key>, main: seq<Key>, ghosts: seq<nat>, hashes: set<nat>,
                         tenants: Tenants, total: nat, smallBytes: nat)

  const EMPTY := Cache(map[], [], [], [], {}, Tenants(0, map[]), 0, 0)

  function SmallBudget(budget: nat): nat {
    if budget / 10 < 1 then 1 else budget / 10
  }

  function Get(c: Cache, k: Key): Cache {
    if k !in c.entries then c
    else
      var e := c.entries[k];
      c.(entries := c.entries[k := e.(freq := if e.freq < 3 then e.freq + 1 else 3)])
  }

  /** The live entry of `k` goes; its places in the queues stay. */
  function DropEntry(c: Cache, k: Key): Cache
    requires k in c.entries
  {
    var e := c.entries[k];
    c.(entries := c.entries - {k}, total := Minus(c.total, e.size), tenants := SubTenant(c.tenants, e.tenant, e.size))
  }

  function Remove(c: Cache, k: Key): Cache {
    if k !in c.entries then c
    else
      var e := c.entries[k];
      DropEntry(c, k).(smallBytes := if e.inSmall then Minus(c.smallBytes, e.size) else c.smallBytes)
  }

  /** The ghost queue cut to its capacity from the front. */
  function Trim(ghosts: seq<nat>, hashes: set<nat>): (seq<nat>, set<nat>) {
    if |ghosts| <= GHOST_CAPACITY then (ghosts, hashes) else Trim(ghosts[1..], hashes - {ghosts[0]})
  }

  function GhostPush(c: Cache, h: nat): Cache {
    var (ghosts, hashes) := Trim(if h in c.hashes then c.ghosts else c.ghosts + [h], c.hashes + {h});
    c.(ghosts := ghosts, hashes := hashes)
  }

  function Promote(c: Cache, k: Key): Cache
    requires k in c.entries
  {
    var e := c.entries[k];
    c.(entries := c.entries[k := e.(freq := 0, inSmall := false)], smallBytes := Minus(c.smallBytes, e.size), main := c.main + [k])
  }

  function EvictCold(c: Cache, k: Key, hash: Key -> nat): Cache
    requires k in c.entries
  {
    GhostPush(DropEntry(c.(smallBytes := Minus(c.smallBytes, c.entries[k].size)), k), hash(k))
  }

  /** Exactly one key leaves, or none. */
  ghost predicate OneOrNone(c: Cache, c': Cache, removed: bool) {
    if removed then exists k :: k in c.entries && c'.entries.Keys == c.entries.Keys - {k}
    else c'.entries.Keys == c.entries.Keys
  }

  /** Small drained up to and including its first cold entry, touched ones promoted. */
  function EvictFromSmall(c: Cache, hash: Key -> nat): (r: (Cache, bool))
    ensures OneOrNone(c, r.0, r.1)
    decreases |c.small|
  {
    if c.small == [] then (c, false)
    else
      var k := c.small[0];
      var c1 := c.(small := c.small[1..]);
      if k !in c.entries then EvictFromSmall(c1, hash)
      else if c.entries[k].freq > 1 then
        assert Promote(c1, k).entries.Keys == c.entries.Keys;
        EvictFromSmall(Promote(c1, k), hash)
      else
        assert EvictCold(c1, k, hash).entries.Keys == c.entries.Keys - {k};
        (EvictCold(c1, k, hash), true)
  }

  /** The fair share, if some tenant holds more. */
  function OverShare(ts: Tenants, budget: nat): Option<nat> {
    if ts.others == map[] then None
    else
      var target := budget / (|ts.others| + if ts.zero > 0 then 1 else 0);
      if ts.zero > target || exists t :: t in ts.others && ts.others[t] > target then Some(target) else None
  }

  function Touch(c: Cache, k: Key): Cache
    requires k in c.entries && c.entries[k].freq > 0
  {
    var e := c.entries[k];
    c.(entries := c.entries[k := e.(freq := e.freq - 1)], main := c.main + [k])
  }

  lemma TouchLess(c: Cache, k: Key)
    requires k in c.entries && c.entries[k].freq > 0
    ensures Total(Touch(c, k).entries, Freq()) < Total(c.entries, Freq()) && Touch(c, k).entries.Keys == c.entries.Keys
  {
    TotalSwap(c.entries, Freq(), k, Touch(c, k).entries[k]);
  }

  /** Main with second chances; an untouched entry of a tenant within its share is spared while skips
      are left. */
  ghost function EvictFromMain(c: Cache, target: Option<nat>, skips: nat): (r: (Cache, bool))
    requires skips <= MAX_FAIR_SKIPS
    ensures OneOrNone(c, r.0, r.1)
    decreases Total(c.entries, Freq()) + (MAX_FAIR_SKIPS - skips) + |c.main|
  {
    if c.main == [] then (c, false)
    else
      var k := c.main[0];
      var c1 := c.(main := c.main[1..]);
      if k !in c.entries then EvictFromMain(c1, target, skips)
      else if c.entries[k].freq > 0 then
        TouchLess(c1, k);
        EvictFromMain(Touch(c1, k), target, skips)
      else if target.Some? && skips < MAX_FAIR_SKIPS && Charged(c.tenants, c.entries[k].tenant) <= target.value then
        EvictFromMain(c1.(main := c1.main + [k]), target, skips + 1)
      else (DropEntry(c1, k), true)
  }

  lemma NothingInMain(c: Cache, target: Option<nat>, skips: nat)
    requires skips <= MAX_FAIR_SKIPS && c.main == []
    ensures EvictFromMain(c, target, skips) == (c, false)
  {
  }

  /** One turn of the loop. */
  lemma EvictTurn(c: Cache, target: Option<nat>, skips: nat)
    requires skips <= MAX_FAIR_SKIPS && c.main != []
    ensures var k := c.main[0];
            var c1 := c.(main := c.main[1..]);
            EvictFromMain(c, target, skips) ==
            if k !in c.entries then EvictFromMain(c1, target, skips)
            else if c.entries[k].freq > 0 then EvictFromMain(Touch(c1, k), target, skips)
            else if target.Some? && skips < MAX_FAIR_SKIPS && Charged(c.tenants, c.entries[k].tenant) <= target.value then
              EvictFromMain(c1.(main := c1.main + [k]), target, skips + 1)
            else (DropEntry(c1, k), true)
  {
    hide Total, Touch, DropEntry, Charged, OneOrNone;
  }

  ghost function EvictOne(c: Cache, budget: nat, hash: Key -> nat): (r: (Cache, bool))
    ensures OneOrNone(c, r.0, r.1)
  {
    var small := if c.smallBytes >= SmallBudget(budget) then EvictFromSmall(c, hash) else (c, false);
    if small.1 then small else EvictFromMain(small.0, OverShare(small.0.tenants, budget), 0)
  }

  /** The eviction loop of `insert_for`; `None` if it never ends: an eviction that removes nothing leaves
      every later one nothing to remove. */
  ghost function MakeRoom(c: Cache, size: nat, budget: nat, hash: Key -> nat): Option<Cache>
    decreases c.entries.Keys
  {
    if c.total + size <= budget || c.entries == map[] then Some(c)
    else
      var r := EvictOne(c, budget, hash);
      if r.1 then MakeRoom(r.0, size, budget, hash) else None
  }

  function EntrySize(k: Key, bytes: nat): nat {
    |k| + bytes + ENTRY_OVERHEAD
  }

  function Overwrite(c: Cache, k: Key, v: Value, size: nat, t: nat): Cache
    requires k in c.entries
  {
    var e := c.entries[k];
    c.(entries := c.entries[k := e.(value := v, size := size, tenant := t)],
       total := Minus(c.total + size, e.size),
       smallBytes := if e.inSmall then Minus(c.smallBytes + size, e.size) else c.smallBytes,
       tenants := AddTenant(SubTenant(c.tenants, e.tenant, e.size), t, size))
  }

  /** A new key: into Main if its hash is remembered from an eviction, else into Small. */
  function Admit(c: Cache, k: Key, v: Value, size: nat, t: nat, h: nat): Cache {
    var inSmall := h !in c.hashes;
    c.(entries := c.entries[k := CacheEntry(v, size, 0, inSmall, t)], hashes := c.hashes - {h},
       small := if inSmall then c.small + [k] else c.small, main := if inSmall then c.main else c.main + [k],
       smallBytes := if inSmall then c.smallBytes + size else c.smallBytes,
       total := c.total + size, tenants := AddTenant(c.tenants, t, size))
  }

  /** `insert_for`; `None` if its loop never ends. */
  ghost function Insert(c: Cache, k: Key, v: Value, bytes: nat, t: nat, budget: nat, hash: Key -> nat): Option<Cache> {
    var size := EntrySize(k, bytes);
    if k in c.entries then Some(Overwrite(c, k, v, size, t))
    else
      var room := MakeRoom(c, size, budget, hash);
      if room.None? then None else Some(Admit(room.value, k, v, size, t, hash(k)))
  }
}
