/** The victim of Main in closed form, in every state: second chances and tenant fairness together,
    stale places and keys with several places included. */
module CacheVictims {
  import opened Bytes
  import opened Records
  import opened Caches
  import opened CacheInv

  // ---- Stale places ----

  /** The places of a queue that hold a live key. */
  function LivePlaces(m: Entries, q: seq<Key>): (p: seq<Key>)
    ensures forall k :: k in p ==> k in m
  {
    if q == [] then [] else (if q[0] in m then [q[0]] else []) + LivePlaces(m, q[1..])
  }

  lemma {:induction false} LiveConcat(m: Entries, a: seq<Key>, b: seq<Key>)
    ensures LivePlaces(m, a + b) == LivePlaces(m, a) + LivePlaces(m, b)
  {
    if a == [] {
      assert a + b == b;
    } else {
      LiveConcat(m, a[1..], b);
      assert (a + b)[1..] == a[1..] + b;
    }
  }

  lemma LiveRotate(m: Entries, q: seq<Key>)
    requires q != [] && q[0] in m
    ensures LivePlaces(m, q) == [q[0]] + LivePlaces(m, q[1..])
    ensures LivePlaces(m, q[1..] + [q[0]]) == LivePlaces(m, q[1..]) + [q[0]]
  {
    LiveConcat(m, q[1..], [q[0]]);
  }

  lemma {:induction false} SameLive(m: Entries, m': Entries, q: seq<Key>)
    requires m'.Keys == m.Keys
    ensures LivePlaces(m', q) == LivePlaces(m, q)
  {
    if q != [] {
      SameLive(m, m', q[1..]);
    }
  }

  /** Dropping the dead first changes nothing for fewer live keys. */
  lemma {:induction false} LiveTwice(m: Entries, m': Entries, q: seq<Key>)
    requires m'.Keys <= m.Keys
    ensures LivePlaces(m', LivePlaces(m, q)) == LivePlaces(m', q)
  {
    if q != [] {
      LiveTwice(m, m', q[1..]);
      if q[0] in m {
        assert ([q[0]] + LivePlaces(m, q[1..]))[1..] == LivePlaces(m, q[1..]);
      } else {
        assert [] + LivePlaces(m, q[1..]) == LivePlaces(m, q[1..]);
      }
    }
  }

  /** The same cache up to stale places in Main. */
  ghost predicate Alike(c: Cache, d: Cache) {
    d.(main := c.main) == c && LivePlaces(c.entries, d.main) == LivePlaces(c.entries, c.main)
  }

  function Cleaned(c: Cache): Cache {
    c.(main := LivePlaces(c.entries, c.main))
  }

  /** `evict_from_main` does the same with the stale places of Main gone. */
  lemma {:induction false} StaleIgnored(c: Cache, target: Option<nat>, skips: nat)
    requires skips <= MAX_FAIR_SKIPS
    ensures var (e, f) := (EvictFromMain(c, target, skips), EvictFromMain(Cleaned(c), target, skips));
            e.1 == f.1 && Alike(e.0, f.0)
    decreases Total(c.entries, Freq()) + (MAX_FAIR_SKIPS - skips) + |c.main|
  {
    hide Total, Charged, SubTenant, Minus, EvictFromMain, OneOrNone, LivePlaces;
    if c.main == [] {
      NoPlaces(c.entries);
    } else {
      EvictTurn(c, target, skips);
      var (k, d) := (c.main[0], Cleaned(c));
      var c1 := c.(main := c.main[1..]);
      if k !in c.entries {
        LiveDead(c.entries, c.main);
        StaleIgnored(c1, target, skips);
      } else {
        LiveRotate(c.entries, c.main);
        var d1 := d.(main := d.main[1..]);
        assert d1.main == LivePlaces(c.entries, c.main[1..]);
        EvictTurn(d, target, skips);
        if c.entries[k].freq > 0 {
          TouchLess(c1, k);
          SameLive(c.entries, Touch(c1, k).entries, c.main[1..] + [k]);
          assert Cleaned(Touch(c1, k)) == Touch(d1, k);
          StaleIgnored(Touch(c1, k), target, skips);
        } else if target.Some? && skips < MAX_FAIR_SKIPS && Charged(c.tenants, c.entries[k].tenant) <= target.value {
          StaleIgnored(c1.(main := c1.main + [k]), target, skips + 1);
        } else {
          LiveTwice(c.entries, c.entries - {k}, c.main[1..]);
        }
      }
    }
  }

  lemma NoPlaces(m: Entries)
    ensures LivePlaces(m, []) == []
  {
  }

  lemma LiveDead(m: Entries, q: seq<Key>)
    requires q != [] && q[0] !in m
    ensures LivePlaces(m, q[1..]) == LivePlaces(m, q)
  {
  }

  // ---- Visits ----

  // The loop visits the live places from the head, round after round. Visit `(r, i)` is the one of place
  // `i` in round `r`, both counted from zero. A key touched `f` times pays one touch at each of the first
  // `f` visits of its places; from then on a visit either spares it or is the end.

  function Less(a: nat, b: nat): nat {
    if a < b then 0 else a - b
  }

  function Count(q: seq<Key>, k: Key): nat {
    if q == [] then 0 else Count(q[..|q| - 1], k) + if q[|q| - 1] == k then 1 else 0
  }

  /** How many visits of places of `k` there are before `(r, i)`. */
  function Visits(q: seq<Key>, k: Key, r: nat, i: nat): nat
    requires i <= |q|
    decreases r
  {
    if r == 0 then Count(q[..i], k) else Count(q, k) + Visits(q, k, r - 1, i)
  }

  predicate Untouched(m: Entries, q: seq<Key>, r: nat, i: nat)
    requires i < |q| && forall k :: k in q ==> k in m
  {
    m[q[i]].freq <= Visits(q, q[i], r, i)
  }

  /** How many visits before `(r, i)` found a key without a touch left. */
  function Spared(m: Entries, q: seq<Key>, r: nat, i: nat): nat
    requires i <= |q| && forall k :: k in q ==> k in m
    decreases r, i
  {
    if i > 0 then Spared(m, q, r, i - 1) + if Untouched(m, q, r, i - 1) then 1 else 0
    else if r > 0 then Spared(m, q, r - 1, |q|)
    else 0
  }

  /** Whether visit `(r, i)` evicts: the key has no touch left, and it is not spared, because nobody is
      over the share, or its tenant is, or sixteen were spared before it. */
  predicate Falls(c: Cache, target: Option<nat>, r: nat, i: nat)
    requires i < |c.main| && forall k :: k in c.main ==> k in c.entries
  {
    && Untouched(c.entries, c.main, r, i)
    && (|| target.None? || Charged(c.tenants, c.entries[c.main[i]].tenant) > target.value
        || Spared(c.entries, c.main, r, i) >= MAX_FAIR_SKIPS)
  }

  predicate Earlier(r: nat, i: nat, r': nat, i': nat) {
    r < r' || (r == r' && i < i')
  }

  lemma {:induction false} VisitEachRound(q: seq<Key>, k: Key, r: nat)
    requires k in q
    ensures Visits(q, k, r, 0) >= r
    decreases r
  {
    if r > 0 {
      CountIn(q, k);
      VisitEachRound(q, k, r - 1);
    }
  }

  lemma {:induction false} CountIn(q: seq<Key>, k: Key)
    ensures Count(q, k) > 0 <==> k in q
  {
    if q != [] {
      CountIn(q[..|q| - 1], k);
      assert q == q[..|q| - 1] + [q[|q| - 1]];
    }
  }

  lemma {:induction false} SparedGrows(m: Entries, q: seq<Key>, r: nat, i: nat)
    requires i <= |q| && forall k :: k in q ==> k in m
    ensures Spared(m, q, r, 0) <= Spared(m, q, r, i)
    ensures i > 0 && Untouched(m, q, r, 0) ==> Spared(m, q, r, 0) < Spared(m, q, r, i)
    decreases i
  {
    if i > 0 {
      SparedGrows(m, q, r, i - 1);
    }
  }

  lemma {:induction false} HeadSpared(m: Entries, q: seq<Key>, r: nat)
    requires q != [] && forall k :: k in q ==> k in m
    ensures Spared(m, q, r, 0) >= Less(r, m[q[0]].freq)
    decreases r
  {
    hide Visits;
    if r > 0 {
      HeadSpared(m, q, r - 1);
      VisitEachRound(q, q[0], r - 1);
      SparedGrows(m, q, r - 1, |q|);
    }
  }

  /** The round in which the head of the queue falls at the latest. */
  function LastRound(c: Cache): nat
    requires c.main != [] && c.main[0] in c.entries
  {
    c.entries[c.main[0]].freq + MAX_FAIR_SKIPS
  }

  lemma FallsAtLast(c: Cache, target: Option<nat>)
    requires c.main != [] && forall k :: k in c.main ==> k in c.entries
    ensures Falls(c, target, LastRound(c), 0)
  {
    VisitEachRound(c.main, c.main[0], LastRound(c));
    HeadSpared(c.entries, c.main, LastRound(c));
  }

  /** The first visit from `(r, i)` on that evicts. */
  function Victim(c: Cache, target: Option<nat>, r: nat, i: nat): (at: (nat, nat))
    requires i < |c.main| && forall k :: k in c.main ==> k in c.entries
    requires !Earlier(LastRound(c), 0, r, i)
    ensures at.1 < |c.main| && !Earlier(at.0, at.1, r, i) && Falls(c, target, at.0, at.1)
    ensures forall r', i' :: 0 <= i' < |c.main| && 0 <= r' && !Earlier(r', i', r, i) && Earlier(r', i', at.0, at.1) ==> !Falls(c, target, r', i')
    decreases LastRound(c) - r, |c.main| - i
  {
    if Falls(c, target, r, i) then (r, i)
    else
      FallsAtLast(c, target);
      if i + 1 < |c.main| then Victim(c, target, r, i + 1) else Victim(c, target, r + 1, 0)
  }

  // ---- The state at a visit ----

  /** Frequencies before visit `(r, i)`. */
  function Aged(m: Entries, q: seq<Key>, r: nat, i: nat): Entries
    requires i <= |q|
  {
    map k | k in m :: m[k].(freq := Less(m[k].freq, Visits(q, k, r, i)))
  }

  function Turned(c: Cache, r: nat, i: nat): Cache
    requires i <= |c.main|
  {
    c.(main := c.main[i..] + c.main[..i], entries := Aged(c.entries, c.main, r, i))
  }

  lemma {:induction false} VisitsWhole(q: seq<Key>, k: Key, r: nat)
    ensures Visits(q, k, r, |q|) == Visits(q, k, r + 1, 0)
    decreases r
  {
    assert q[..|q|] == q;
    if r > 0 {
      VisitsWhole(q, k, r - 1);
    }
  }

  lemma {:induction false} VisitsStep(q: seq<Key>, k: Key, r: nat, i: nat)
    requires i < |q|
    ensures Visits(q, k, r, i + 1) == Visits(q, k, r, i) + if q[i] == k then 1 else 0
    decreases r
  {
    assert q[..i + 1][..i] == q[..i];
    if r > 0 {
      VisitsStep(q, k, r - 1, i);
    }
  }

  lemma TurnedWhole(c: Cache, r: nat)
    ensures Turned(c, r, |c.main|) == Turned(c, r + 1, 0)
  {
    hide Visits;
    var q := c.main;
    assert q[|q|..] + q[..|q|] == q[0..] + q[..0];
    forall k | k in c.entries ensures Visits(q, k, r, |q|) == Visits(q, k, r + 1, 0) {
      VisitsWhole(q, k, r);
    }
    assert Aged(c.entries, q, r, |q|) == Aged(c.entries, q, r + 1, 0);
  }

  lemma NotTurned(c: Cache)
    ensures Turned(c, 0, 0) == c
  {
    assert c.main[0..] + c.main[..0] == c.main;
    assert Aged(c.entries, c.main, 0, 0) == c.entries;
  }

  /** The key a visit finds at the head. */
  lemma TurnedHead(c: Cache, r: nat, i: nat)
    requires i < |c.main| && c.main[i] in c.entries
    ensures var (t, k) := (Turned(c, r, i), c.main[i]);
            && t.main != [] && t.main[0] == k && t.main[1..] + [k] == c.main[i + 1..] + c.main[..i + 1]
            && k in t.entries && t.entries[k] == c.entries[k].(freq := Less(c.entries[k].freq, Visits(c.main, k, r, i)))
            && t.tenants == c.tenants
  {
    hide Visits;
    var (q, k) := (c.main, c.main[i]);
    assert q[..i + 1] == q[..i] + [k];
    assert q[i + 1..] + q[..i] + [k] == q[i + 1..] + q[..i + 1];
  }

  /** A visit of a key with touches left, or of one that is spared. */
  lemma TurnedStep(c: Cache, r: nat, i: nat)
    requires i < |c.main| && c.main[i] in c.entries
    ensures var (t, t', k) := (Turned(c, r, i), Turned(c, r, i + 1), c.main[i]);
            && k in t.entries
            && t' == t.(main := c.main[i + 1..] + c.main[..i + 1],
                        entries := t.entries[k := t.entries[k].(freq := Less(t.entries[k].freq, 1))])
  {
    hide Visits;
    var (t, q, k) := (Turned(c, r, i), c.main, c.main[i]);
    TurnedHead(c, r, i);
    forall j | j in c.entries ensures Visits(q, j, r, i + 1) == Visits(q, j, r, i) + if q[i] == j then 1 else 0 {
      VisitsStep(q, j, r, i);
    }
    assert Aged(c.entries, q, r, i + 1) == t.entries[k := t.entries[k].(freq := Less(t.entries[k].freq, 1))];
  }

  // ---- The loop ----

  /** A visit that does not evict leads to the next one. */
  lemma VisitPasses(c: Cache, target: Option<nat>, r: nat, i: nat)
    requires (forall k :: k in c.main ==> k in c.entries) && i < |c.main| && !Falls(c, target, r, i)
    requires Spared(c.entries, c.main, r, i) <= MAX_FAIR_SKIPS
    ensures Spared(c.entries, c.main, r, i + 1) <= MAX_FAIR_SKIPS
    ensures EvictFromMain(Turned(c, r, i), target, Spared(c.entries, c.main, r, i)) ==
            EvictFromMain(Turned(c, r, i + 1), target, Spared(c.entries, c.main, r, i + 1))
  {
    hide EvictFromMain, Turned, DropEntry, Charged, Visits;
    var (t, k, n) := (Turned(c, r, i), c.main[i], Spared(c.entries, c.main, r, i));
    TurnedHead(c, r, i);
    TurnedStep(c, r, i);
    EvictTurn(t, target, n);
    var t1 := t.(main := t.main[1..]);
    if !Untouched(c.entries, c.main, r, i) {
      assert Touch(t1, k) == Turned(c, r, i + 1);
    } else {
      assert t.entries[k := t.entries[k].(freq := 0)] == t.entries;
      assert t1.(main := t1.main + [k]) == Turned(c, r, i + 1);
    }
  }

  lemma VisitEvicts(c: Cache, target: Option<nat>, r: nat, i: nat)
    requires (forall k :: k in c.main ==> k in c.entries) && i < |c.main| && Falls(c, target, r, i)
    requires Spared(c.entries, c.main, r, i) <= MAX_FAIR_SKIPS
    ensures var (t, k) := (Turned(c, r, i), c.main[i]);
            && t.main != [] && k in t.entries
            && EvictFromMain(t, target, Spared(c.entries, c.main, r, i)) == (DropEntry(t.(main := t.main[1..]), k), true)
  {
    hide EvictFromMain, Turned, Spared, DropEntry, Charged, Visits;
    TurnedHead(c, r, i);
    EvictTurn(Turned(c, r, i), target, Spared(c.entries, c.main, r, i));
  }

  lemma {:induction false} VictimRun(c: Cache, target: Option<nat>, r: nat, i: nat)
    requires (forall k :: k in c.main ==> k in c.entries) && i < |c.main| && !Earlier(LastRound(c), 0, r, i)
    requires Spared(c.entries, c.main, r, i) <= MAX_FAIR_SKIPS
    ensures var at := Victim(c, target, r, i);
            var (t, k) := (Turned(c, at.0, at.1), c.main[at.1]);
            && t.main != [] && k in t.entries && Spared(c.entries, c.main, at.0, at.1) <= MAX_FAIR_SKIPS
            && EvictFromMain(Turned(c, r, i), target, Spared(c.entries, c.main, r, i)) == (DropEntry(t.(main := t.main[1..]), k), true)
    decreases LastRound(c) - r, |c.main| - i
  {
    hide EvictFromMain, Turned, Spared, DropEntry, Falls;
    if Falls(c, target, r, i) {
      VisitEvicts(c, target, r, i);
    } else {
      FallsAtLast(c, target);
      VisitPasses(c, target, r, i);
      if i + 1 < |c.main| {
        VictimRun(c, target, r, i + 1);
      } else {
        TurnedWhole(c, r);
        NextRound(c.entries, c.main, r);
        VictimRun(c, target, r + 1, 0);
      }
    }
  }

  lemma NextRound(m: Entries, q: seq<Key>, r: nat)
    requires forall k :: k in q ==> k in m
    ensures Spared(m, q, r, |q|) == Spared(m, q, r + 1, 0)
  {
  }

  lemma NoneSpared(m: Entries, q: seq<Key>)
    requires forall k :: k in q ==> k in m
    ensures Spared(m, q, 0, 0) == 0
  {
  }

  lemma DropTurned(c: Cache, r: nat, v: nat)
    requires v < |c.main| && c.main[v] in Turned(c, r, v).entries
    ensures var t := Turned(c, r, v);
            var c' := DropEntry(t.(main := t.main[1..]), c.main[v]);
            c'.main == c.main[v + 1..] + c.main[..v] && c'.entries == Aged(c.entries, c.main, r, v) - {c.main[v]}
  {
    hide Aged, Minus, SubTenant;
  }

  /** `evict_from_main` in closed form, in every state of the cache and whatever the shares: with the
      live places of Main it evicts at the first visit that evicts, `(r, v)`; every other key has paid a
      touch, if it had one left, for each visit of its places before that one; and the queue goes on
      behind the victim, up to stale places. */
  lemma MainVictim(c: Cache, target: Option<nat>)
    requires LivePlaces(c.entries, c.main) != []
    ensures var (d, e) := (Cleaned(c), EvictFromMain(c, target, 0));
            var (r, v) := Victim(d, target, 0, 0);
            && e.1 && e.0.entries == Aged(d.entries, d.main, r, v) - {d.main[v]}
            && LivePlaces(e.0.entries, e.0.main) == LivePlaces(e.0.entries, d.main[v + 1..] + d.main[..v])
  {
    hide Aged, EvictFromMain, DropEntry, Victim, Spared, LivePlaces;
    var d := Cleaned(c);
    StaleIgnored(c, target, 0);
    NotTurned(d);
    NoneSpared(d.entries, d.main);
    VictimRun(d, target, 0, 0);
    var (r, v) := Victim(d, target, 0, 0);
    DropTurned(d, r, v);
  }

  /** With a tenant over its share: the victim's tenant is over it, or sixteen untouched keys were spared
      first; and no key of such a tenant was passed at a visit that found it untouched. */
  lemma FairVictim(c: Cache, target: nat, r': nat, j: nat)
    requires j < |LivePlaces(c.entries, c.main)|
    ensures var d := Cleaned(c);
            var (r, v) := Victim(d, Some(target), 0, 0);
            && (Charged(d.tenants, d.entries[d.main[v]].tenant) > target || Spared(d.entries, d.main, r, v) == MAX_FAIR_SKIPS)
            && (Earlier(r', j, r, v) && Charged(d.tenants, d.entries[d.main[j]].tenant) > target ==>
                Visits(d.main, d.main[j], r', j) < d.entries[d.main[j]].freq)
  {
    hide Charged, Spared, EvictFromMain, LivePlaces, Turned, DropEntry;
    var d := Cleaned(c);
    NoneSpared(d.entries, d.main);
    VictimRun(d, Some(target), 0, 0);
    var (r, v) := Victim(d, Some(target), 0, 0);
    if Earlier(r', j, r, v) {
      assert !Falls(d, Some(target), r', j);
    }
  }

  // ---- Without `remove` ----

  lemma MainLive(c: Cache)
    requires Exact(c)
    ensures Distinct(c.main) && forall k :: k in c.main ==> k in c.entries
  {
  }

  lemma {:induction false} AllLive(m: Entries, q: seq<Key>)
    requires forall k :: k in q ==> k in m
    ensures LivePlaces(m, q) == q
  {
    if q != [] {
      AllLive(m, q[1..]);
    }
  }

  lemma {:induction false} CountDistinct(q: seq<Key>, k: Key)
    requires Distinct(q)
    ensures Count(q, k) == if k in q then 1 else 0
  {
    if q != [] {
      CountDistinct(q[..|q| - 1], k);
      assert q == q[..|q| - 1] + [q[|q| - 1]];
    }
  }

  /** A key with one place is visited once a round. */
  lemma {:induction false} VisitsDistinct(q: seq<Key>, r: nat, j: nat, i: nat)
    requires Distinct(q) && j < |q| && i <= |q|
    ensures Visits(q, q[j], r, i) == r + if j < i then 1 else 0
    decreases r
  {
    CountDistinct(q, q[j]);
    CountDistinct(q[..i], q[j]);
    assert j < i <==> q[j] in q[..i] by {
      if j < i {
        assert q[..i][j] == q[j];
      }
    }
    if r > 0 {
      VisitsDistinct(q, r - 1, j, i);
    }
  }

  /** With no tenant over its share the victim is the first of the least touched entries. */
  lemma LeastTouched(c: Cache, j: nat)
    requires Exact(c) && j < |c.main|
    ensures Cleaned(c) == c && forall k :: k in c.main ==> k in c.entries
    ensures var (r, v) := Victim(c, None, 0, 0);
            && c.entries[c.main[v]].freq == r && c.entries[c.main[j]].freq >= r && (j < v ==> c.entries[c.main[j]].freq > r)
  {
    hide Exact, Spared, Visits, LivePlaces, Distinct;
    MainLive(c);
    AllLive(c.entries, c.main);
    var (r, v) := Victim(c, None, 0, 0);
    VisitsDistinct(c.main, r, v, v);
    if r > 0 {
      VisitsDistinct(c.main, r - 1, v, v);
      VisitsDistinct(c.main, r - 1, j, j);
      assert !Falls(c, None, r - 1, v) && !Falls(c, None, r - 1, j);
    }
    if j < v {
      VisitsDistinct(c.main, r, j, j);
      assert !Falls(c, None, r, j);
    }
  }
}
