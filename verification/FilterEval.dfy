/** Filters and their evaluation: `Filter::evaluate` of `payload.rs` against pointwise meaning. */
module Filters {
  import opened Bytes
  import opened Payloads

  datatype Limit = Included(value: Value) | Excluded(value: Value) | Unbounded

  datatype Filter =
    | Eq(field: string, value: Value)
    | In(field: string, values: seq<Value>)
    | Range(field: string, lo: Limit, hi: Limit)
    | Exists(field: string)
    | And(parts: seq<Filter>)
    | Or(parts: seq<Filter>)
    | Not(inner: Filter)

  // ---- What a filter means ----

  predicate Above(v: Value, lo: Limit) {
    match lo
    case Included(a) => v == a || Less(a, v)
    case Excluded(a) => Less(a, v)
    case Unbounded => true
  }

  predicate Below(v: Value, hi: Limit) {
    match hi
    case Included(b) => v == b || Less(v, b)
    case Excluded(b) => Less(v, b)
    case Unbounded => true
  }

  /** The boolean formula, at one indexed id. */
  ghost predicate Matches(byId: map<nat, Fields>, f: Filter, id: nat)
    decreases f
  {
    id in byId &&
    match f
    case Eq(field, v) => Has(byId, id, field, v)
    case In(field, vs) => exists v :: v in vs && Has(byId, id, field, v)
    case Range(field, lo, hi) => exists v :: Has(byId, id, field, v) && Above(v, lo) && Below(v, hi)
    case Exists(field) => exists v :: Has(byId, id, field, v)
    case And(parts) => forall p :: p in parts ==> Matches(byId, p, id)
    case Or(parts) => exists p :: p in parts && Matches(byId, p, id)
    case Not(inner) => !Matches(byId, inner, id)
  }

  // ---- When evaluation panics ----

  /** `BTreeMap::range` panics on these bounds. */
  predicate BadRange(lo: Limit, hi: Limit) {
    && !lo.Unbounded? && !hi.Unbounded?
    && (Less(hi.value, lo.value) || (lo.value == hi.value && lo.Excluded? && hi.Excluded?))
  }

  predicate Negative(f: Filter) {
    f.Not?
  }

  /** `id` survives the positive parts of a conjunction and the negated ones before position `k`. */
  ghost predicate Reaches(byId: map<nat, Fields>, parts: seq<Filter>, k: nat, id: nat)
    requires k <= |parts|
    decreases parts, 0
  {
    && id in byId
    && (forall p :: p in parts && !Negative(p) ==> Matches(byId, p, id))
    && (forall p :: p in parts[..k] && Negative(p) ==> Matches(byId, p, id))
  }

  /** Evaluation panics exactly here: a bad range over an indexed field is evaluated. A negated part of
      a conjunction is evaluated only while some id is left. */
  ghost predicate Panics(idx: Index, f: Filter)
    decreases f
  {
    match f
    case Eq(_, _) => false
    case In(_, _) => false
    case Exists(_) => false
    case Range(field, lo, hi) => field in idx.byField && BadRange(lo, hi)
    case Or(parts) => exists p :: p in parts && Panics(idx, p)
    case Not(inner) => Panics(idx, inner)
    case And(parts) =>
      || (exists p :: p in parts && !Negative(p) && Panics(idx, p))
      || (exists k :: 0 <= k < |parts| && Negative(parts[k]) && Panics(idx, parts[k]) && exists id :: Reaches(idx.byId, parts, k, id))
  }

  /** Ranges whose bounds are in order. */
  ghost predicate OrderedRanges(f: Filter) {
    match f
    case Range(_, lo, hi) => !BadRange(lo, hi)
    case And(parts) => forall p :: p in parts ==> OrderedRanges(p)
    case Or(parts) => forall p :: p in parts ==> OrderedRanges(p)
    case Not(inner) => OrderedRanges(inner)
    case _ => true
  }

  /** With ordered ranges nothing panics, whatever is indexed. */
  lemma {:induction false} OrderedNeverPanics(idx: Index, f: Filter)
    requires OrderedRanges(f)
    ensures !Panics(idx, f)
    decreases f
  {
    match f
    case And(parts) =>
      forall p | p in parts ensures !Panics(idx, p) {
        OrderedNeverPanics(idx, p);
      }
    case Or(parts) =>
      forall p | p in parts ensures !Panics(idx, p) {
        OrderedNeverPanics(idx, p);
      }
    case Not(inner) => OrderedNeverPanics(idx, inner);
    case _ =>
  }

  // ---- Sorted id lists ----

  ghost predicate Increasing(s: seq<nat>) {
    forall i, j :: 0 <= i < j < |s| ==> s[i] < s[j]
  }

  ghost predicate SameIds(s: seq<nat>, ids: set<nat>) {
    forall id :: id in s <==> id in ids
  }

  lemma {:induction false} Least(ids: set<nat>) returns (least: nat)
    requires ids != {}
    ensures least in ids && forall id :: id in ids ==> least <= id
    decreases |ids|
  {
    var x :| x in ids;
    var rest := ids - {x};
    assert forall id :: id in ids ==> id == x || id in rest;
    if rest == {} {
      least := x;
    } else {
      var y := Least(rest);
      least := if x < y then x else y;
    }
  }

  /** The elements of a `BTreeSet`, in order. */
  method Ascending(ids: set<nat>) returns (s: seq<nat>)
    ensures Increasing(s) && SameIds(s, ids)
  {
    s := [];
    var rest := ids;
    while rest != {}
      invariant rest <= ids && Increasing(s) && SameIds(s, ids - rest)
      invariant forall i, id :: 0 <= i < |s| && id in rest ==> s[i] < id
    {
      ghost var least := Least(rest);
      var x :| x in rest && forall id :: id in rest ==> x <= id;
      s, rest := s + [x], rest - {x};
    }
  }

  /** `sort_dedup`. */
  method SortDedup(v: seq<nat>) returns (s: seq<nat>)
    ensures Increasing(s) && forall id :: id in s <==> id in v
  {
    s := Ascending(set id | id in v);
  }

  /** `intersect_sorted`: two pointers. */
  method IntersectSorted(a: seq<nat>, b: seq<nat>) returns (out: seq<nat>)
    requires Increasing(a) && Increasing(b)
    ensures Increasing(out) && forall id :: id in out <==> id in a && id in b
  {
    var i, j := 0, 0;
    out := [];
    while i < |a| && j < |b|
      invariant i <= |a| && j <= |b| && Increasing(out)
      invariant forall id :: id in out <==> id in a[..i] && id in b[..j]
      invariant forall x, y :: 0 <= x < i && j <= y < |b| ==> a[x] != b[y]
      invariant forall x, y :: i <= x < |a| && 0 <= y < j ==> a[x] != b[y]
      invariant forall k, x :: 0 <= k < |out| && i <= x < |a| ==> out[k] < a[x]
      decreases |a| - i + |b| - j
    {
      assert a[..i + 1] == a[..i] + [a[i]] && b[..j + 1] == b[..j] + [b[j]];
      if a[i] < b[j] {
        i := i + 1;
      } else if a[i] > b[j] {
        j := j + 1;
      } else {
        out := out + [a[i]];
        i, j := i + 1, j + 1;
      }
    }
    forall id ensures id in out <==> id in a && id in b {
      assert id in a ==> id in a[..i] || id in a[i..];
      assert id in b ==> id in b[..j] || id in b[j..];
    }
  }

  /** `binary_search`, as far as it is used: is `x` in the sorted list? */
  method Search(s: seq<nat>, x: nat) returns (found: bool)
    requires Increasing(s)
    ensures found <==> x in s
  {
    var lo, hi := 0, |s|;
    while lo < hi
      invariant 0 <= lo <= hi <= |s|
      invariant forall i :: 0 <= i < lo ==> s[i] < x
      invariant forall i :: hi <= i < |s| ==> s[i] > x
    {
      var mid := (lo + hi) / 2;
      if s[mid] < x {
        lo := mid + 1;
      } else if s[mid] > x {
        hi := mid;
      } else {
        return true;
      }
    }
    return false;
  }

  /** `retain` of the ids a sorted list does not hold. */
  method Subtract(a: seq<nat>, b: seq<nat>) returns (out: seq<nat>)
    requires Increasing(a) && Increasing(b)
    ensures Increasing(out) && forall id :: id in out <==> id in a && id !in b
  {
    out := [];
    for i := 0 to |a|
      invariant Increasing(out) && forall id :: id in out <==> id in a[..i] && id !in b
      invariant forall k :: 0 <= k < |out| && i < |a| ==> out[k] < a[i]
    {
      var hit := Search(b, a[i]);
      assert a[..i + 1] == a[..i] + [a[i]];
      if !hit {
        out := out + [a[i]];
      }
    }
    assert a[..|a|] == a;
  }

  // ---- Lookups ----

  /** `In`: the postings of all listed values together. */
  method InIds(idx: Index, field: string, vs: seq<Value>) returns (s: seq<nat>)
    requires IndexOk(idx)
    ensures Increasing(s) && forall id :: id in s <==> exists v :: v in vs && Has(idx.byId, id, field, v)
  {
    var out: seq<nat> := [];
    for i := 0 to |vs|
      invariant forall id :: id in out <==> exists v :: v in vs[..i] && Has(idx.byId, id, field, v)
    {
      var more := Ascending(Post(idx.byField, field, vs[i]));
      assert vs[..i + 1] == vs[..i] + [vs[i]];
      out := out + more;
    }
    assert vs[..|vs|] == vs;
    s := SortDedup(out);
  }

  /** `range_ids`: `None` where `BTreeMap::range` panics. `Exists` is the range without bounds. */
  method RangeIds(idx: Index, field: string, lo: Limit, hi: Limit) returns (r: Option<seq<nat>>)
    requires IndexOk(idx)
    ensures r.None? <==> field in idx.byField && BadRange(lo, hi)
    ensures r.Some? ==> Increasing(r.value)
    ensures r.Some? ==> forall id :: id in r.value <==> exists v :: Has(idx.byId, id, field, v) && Above(v, lo) && Below(v, hi)
  {
    var out: seq<nat> := [];
    if field in idx.byField {
      if BadRange(lo, hi) {
        return None;
      }
      var rows := idx.byField[field];
      var todo := rows.Keys;
      while todo != {}
        invariant todo <= rows.Keys
        invariant forall id, v :: v in rows && v !in todo && Above(v, lo) && Below(v, hi) && id in rows[v] ==> id in out
        invariant forall id :: id in out ==> exists v :: v in rows && id in rows[v] && Above(v, lo) && Below(v, hi)
      {
        var v :| v in todo;
        if Above(v, lo) && Below(v, hi) {
          var more := Ascending(rows[v]);
          out := out + more;
        }
        todo := todo - {v};
      }
    }
    var s := SortDedup(out);
    forall id ensures id in s <==> exists v :: Has(idx.byId, id, field, v) && Above(v, lo) && Below(v, hi) {
      if id in s {
        var v :| v in idx.byField[field] && id in idx.byField[field][v] && Above(v, lo) && Below(v, hi);
        assert id in Post(idx.byField, field, v);
      }
      if v :| Has(idx.byId, id, field, v) && Above(v, lo) && Below(v, hi) {
        assert id in Post(idx.byField, field, v);
      }
    }
    r := Some(s);
  }

  // ---- Conjunctions ----

  ghost predicate AllIncreasing(sets: seq<seq<nat>>) {
    forall i :: 0 <= i < |sets| ==> Increasing(sets[i])
  }

  ghost predicate InAll(sets: seq<seq<nat>>, id: nat) {
    forall i :: 0 <= i < |sets| ==> id in sets[i]
  }

  /** The sets in order of length, as `sort_by_key` leaves them. */
  method ByLength(sets: seq<seq<nat>>) returns (sorted: seq<seq<nat>>)
    requires AllIncreasing(sets)
    ensures |sorted| == |sets| && AllIncreasing(sorted) && forall id :: InAll(sorted, id) <==> InAll(sets, id)
    ensures forall i, j :: 0 <= i < j < |sorted| ==> |sorted[i]| <= |sorted[j]|
  {
    sorted := [];
    for n := 0 to |sets|
      invariant |sorted| == n && AllIncreasing(sorted) && forall id :: InAll(sorted, id) <==> InAll(sets[..n], id)
      invariant forall i, j :: 0 <= i < j < |sorted| ==> |sorted[i]| <= |sorted[j]|
    {
      var k := n;
      while 0 < k && |sorted[k - 1]| > |sets[n]|
        invariant 0 <= k <= n && forall i :: k <= i < n ==> |sorted[i]| > |sets[n]|
      {
        k := k - 1;
      }
      Inserted(sorted, k, sets[n]);
      Inserted(sets[..n], n, sets[n]);
      assert sets[..n + 1] == sets[..n][..n] + [sets[n]] + sets[..n][n..];
      sorted := sorted[..k] + [sets[n]] + sorted[k..];
    }
    assert sets[..|sets|] == sets;
  }

  lemma Inserted(sets: seq<seq<nat>>, k: nat, s: seq<nat>)
    requires k <= |sets|
    ensures forall id :: InAll(sets[..k] + [s] + sets[k..], id) <==> InAll(sets, id) && id in s
  {
    var all := sets[..k] + [s] + sets[k..];
    forall id | InAll(all, id) ensures InAll(sets, id) && id in s {
      assert all[k] == s;
      forall i | 0 <= i < |sets| ensures id in sets[i] {
        assert sets[i] == if i < k then all[i] else all[i + 1];
      }
    }
  }

  lemma InAllFirst(sets: seq<seq<nat>>, n: nat, id: nat)
    requires n <= |sets| && InAll(sets, id)
    ensures InAll(sets[..n], id)
  {
  }

  /** The intersection of at least one set, smallest first, ended early once it is empty. */
  method IntersectAll(sets: seq<seq<nat>>) returns (a: seq<nat>)
    requires sets != [] && AllIncreasing(sets)
    ensures Increasing(a) && forall id :: id in a <==> InAll(sets, id)
  {
    var sorted := ByLength(sets);
    a := sorted[0];
    var n := 1;
    assert forall id :: id in a <==> InAll(sorted[..1], id);
    while n < |sorted|
      invariant 1 <= n <= |sorted| && Increasing(a) && forall id :: id in a <==> InAll(sorted[..n], id)
    {
      a := IntersectSorted(a, sorted[n]);
      assert sorted[..n + 1] == sorted[..n] + [sorted[n]];
      n := n + 1;
      if a == [] {
        break;
      }
    }
    forall id ensures id in a <==> InAll(sets, id) {
      if n == |sorted| {
        assert sorted[..n] == sorted;
      } else if InAll(sorted, id) {
        InAllFirst(sorted, n, id);
      }
    }
  }

  /** What evaluating `f` must return. */
  ghost predicate Answers(idx: Index, f: Filter, s: seq<nat>) {
    Increasing(s) && forall id :: id in s <==> Matches(idx.byId, f, id)
  }

  lemma MatchesIndexed(byId: map<nat, Fields>, f: Filter, id: nat)
    requires Matches(byId, f, id)
    ensures id in byId
  {
  }

  lemma ReachesMore(byId: map<nat, Fields>, parts: seq<Filter>, k: nat, m: nat, id: nat)
    requires k <= m <= |parts| && Reaches(byId, parts, m, id)
    ensures Reaches(byId, parts, k, id)
  {
    assert forall p :: p in parts[..k] ==> p in parts[..m];
  }

  lemma ReachesStep(byId: map<nat, Fields>, parts: seq<Filter>, k: nat, id: nat)
    requires k < |parts|
    ensures Reaches(byId, parts, k + 1, id) <==> Reaches(byId, parts, k, id) && (Negative(parts[k]) ==> Matches(byId, parts[k], id))
  {
    assert parts[..k + 1] == parts[..k] + [parts[k]];
  }

  lemma ReachesAll(byId: map<nat, Fields>, parts: seq<Filter>, id: nat)
    ensures Reaches(byId, parts, |parts|, id) <==> Matches(byId, And(parts), id)
  {
    assert parts[..|parts|] == parts;
  }

  /** No negated part before position `k` made evaluation panic. */
  ghost predicate QuietUpTo(idx: Index, parts: seq<Filter>, k: nat)
    requires k <= |parts|
  {
    && (forall p :: p in parts && !Negative(p) ==> !Panics(idx, p))
    && (forall j, id :: 0 <= j < k && Negative(parts[j]) && Reaches(idx.byId, parts, j, id) ==> !Panics(idx, parts[j]))
  }

  lemma QuietAll(idx: Index, parts: seq<Filter>)
    requires QuietUpTo(idx, parts, |parts|)
    ensures !Panics(idx, And(parts))
  {
  }

  /** Nothing left at `k`: the parts after are not evaluated, and nothing matches. */
  lemma NothingLeft(idx: Index, parts: seq<Filter>, k: nat)
    requires k <= |parts| && QuietUpTo(idx, parts, k) && forall id :: !Reaches(idx.byId, parts, k, id)
    ensures !Panics(idx, And(parts)) && forall id :: !Matches(idx.byId, And(parts), id)
  {
    hide Reaches, Panics, Matches;
    forall j, id | k <= j <= |parts| ensures !Reaches(idx.byId, parts, j, id) {
      if Reaches(idx.byId, parts, j, id) {
        ReachesMore(idx.byId, parts, k, j, id);
      }
    }
    forall id ensures !Matches(idx.byId, And(parts), id) {
      ReachesAll(idx.byId, parts, id);
    }
    QuietAll(idx, parts);
  }

  /** `evaluate`: a strictly increasing list of exactly the indexed ids that satisfy the formula;
      `None`, the panic, exactly where a bad range is reached. */
  method Evaluate(idx: Index, f: Filter) returns (r: Option<seq<nat>>)
    requires IndexOk(idx)
    ensures r.None? <==> Panics(idx, f)
    ensures r.Some? ==> Answers(idx, f, r.value)
    decreases f, 1
  {
    match f {
      case Eq(field, v) =>
        var s := Ascending(Post(idx.byField, field, v));
        r := Some(s);
      case In(field, vs) =>
        var s := InIds(idx, field, vs);
        r := Some(s);
      case Range(field, lo, hi) =>
        r := RangeIds(idx, field, lo, hi);
      case Exists(field) =>
        r := RangeIds(idx, field, Unbounded, Unbounded);
      case And(parts) =>
        r := EvaluateAnd(idx, parts);
      case Or(parts) =>
        r := EvaluateOr(idx, parts);
      case Not(inner) =>
        var excluded := Evaluate(idx, inner);
        if excluded.None? {
          return None;
        }
        var all := Ascending(idx.byId.Keys);
        var s := Subtract(all, excluded.value);
        r := Some(s);
    }
  }

  ghost predicate AnyMatches(byId: map<nat, Fields>, parts: seq<Filter>, id: nat) {
    exists p :: p in parts && Matches(byId, p, id)
  }

  lemma AnyMore(byId: map<nat, Fields>, parts: seq<Filter>, p: Filter, id: nat)
    ensures AnyMatches(byId, parts + [p], id) <==> AnyMatches(byId, parts, id) || Matches(byId, p, id)
  {
    assert p in parts + [p];
    assert forall q :: q in parts + [p] <==> q in parts || q == p;
  }

  /** `id` satisfies the positive parts. */
  ghost predicate Passes(byId: map<nat, Fields>, parts: seq<Filter>, id: nat) {
    forall p :: p in parts && !Negative(p) ==> Matches(byId, p, id)
  }

  ghost predicate AllNegative(parts: seq<Filter>) {
    forall p :: p in parts ==> Negative(p)
  }

  lemma PartMore(byId: map<nat, Fields>, parts: seq<Filter>, p: Filter)
    ensures forall id :: Passes(byId, parts + [p], id) <==> Passes(byId, parts, id) && (Negative(p) || Matches(byId, p, id))
    ensures AllNegative(parts + [p]) <==> AllNegative(parts) && Negative(p)
  {
    assert p in parts + [p];
    assert forall q :: q in parts + [p] <==> q in parts || q == p;
  }

  lemma SetMore(sets: seq<seq<nat>>, s: seq<nat>)
    ensures forall id :: InAll(sets + [s], id) <==> InAll(sets, id) && id in s
  {
    Inserted(sets, |sets|, s);
    assert sets[..|sets|] + [s] + sets[|sets|..] == sets + [s];
  }

  method EvaluateOr(idx: Index, parts: seq<Filter>) returns (r: Option<seq<nat>>)
    requires IndexOk(idx)
    ensures r.None? <==> Panics(idx, Or(parts))
    ensures r.Some? ==> Answers(idx, Or(parts), r.value)
    decreases parts, 0
  {
    var out: seq<nat> := [];
    for i := 0 to |parts|
      invariant forall p :: p in parts[..i] ==> !Panics(idx, p)
      invariant forall id :: id in out <==> AnyMatches(idx.byId, parts[..i], id)
    {
      var more := Evaluate(idx, parts[i]);
      if more.None? {
        return None;
      }
      assert parts[..i + 1] == parts[..i] + [parts[i]];
      forall id ensures AnyMatches(idx.byId, parts[..i + 1], id) <==> AnyMatches(idx.byId, parts[..i], id) || Matches(idx.byId, parts[i], id) {
        AnyMore(idx.byId, parts[..i], parts[i], id);
      }
      out := out + more.value;
    }
    assert parts[..|parts|] == parts;
    var s := SortDedup(out);
    r := Some(s);
  }

  /** Positive parts are intersected; negated ones are subtracted from what is left, never
      complemented. */
  method EvaluateAnd(idx: Index, parts: seq<Filter>) returns (r: Option<seq<nat>>)
    requires IndexOk(idx)
    ensures r.None? <==> Panics(idx, And(parts))
    ensures r.Some? ==> Answers(idx, And(parts), r.value)
    decreases parts, 1
  {
    var start := EvaluatePositives(idx, parts);
    if start.None? {
      return None;
    }
    var acc := start.value;
    for k := 0 to |parts|
      invariant Increasing(acc) && forall id :: id in acc <==> Reaches(idx.byId, parts, k, id)
      invariant QuietUpTo(idx, parts, k)
    {
      hide Reaches;
      forall id ensures Reaches(idx.byId, parts, k + 1, id) <==> Reaches(idx.byId, parts, k, id) && (Negative(parts[k]) ==> Matches(idx.byId, parts[k], id)) {
        ReachesStep(idx.byId, parts, k, id);
      }
      if parts[k].Not? {
        if acc == [] {
          NothingLeft(idx, parts, k);
          return Some([]);
        }
        var b := Evaluate(idx, parts[k].inner);
        if b.None? {
          assert Reaches(idx.byId, parts, k, acc[0]);
          return None;
        }
        acc := Subtract(acc, b.value);
      }
    }
    forall id ensures id in acc <==> Matches(idx.byId, And(parts), id) {
      ReachesAll(idx.byId, parts, id);
    }
    QuietAll(idx, parts);
    r := Some(acc);
  }

  method EvaluatePositives(idx: Index, parts: seq<Filter>) returns (r: Option<seq<nat>>)
    requires IndexOk(idx)
    ensures r.None? <==> exists p :: p in parts && !Negative(p) && Panics(idx, p)
    ensures r.Some? ==> Increasing(r.value) && forall id :: id in r.value <==> Reaches(idx.byId, parts, 0, id)
    decreases parts, 0
  {
    var sets: seq<seq<nat>> := [];
    for i := 0 to |parts|
      invariant forall p :: p in parts[..i] && !Negative(p) ==> !Panics(idx, p)
      invariant AllIncreasing(sets) && (sets == [] <==> AllNegative(parts[..i]))
      invariant forall id :: id in idx.byId ==> (InAll(sets, id) <==> Passes(idx.byId, parts[..i], id))
      invariant sets != [] ==> forall id :: InAll(sets, id) ==> id in idx.byId
    {
      hide InAll, Passes, AllNegative, Matches;
      assert parts[..i + 1] == parts[..i] + [parts[i]];
      PartMore(idx.byId, parts[..i], parts[i]);
      if !parts[i].Not? {
        var s := Evaluate(idx, parts[i]);
        if s.None? {
          return None;
        }
        SetMore(sets, s.value);
        forall id | id in s.value ensures id in idx.byId {
          MatchesIndexed(idx.byId, parts[i], id);
        }
        sets := sets + [s.value];
      }
    }
    assert parts[..|parts|] == parts;
    var a;
    if sets == [] {
      a := Ascending(idx.byId.Keys);
    } else {
      a := IntersectAll(sets);
    }
    r := Some(a);
  }
}
