/** The disk quota: what the check of `set_scoped` before its append promises after it, and exactly when. */
module VLogQuota {
  import opened Bytes
  import opened Records
  import opened Batches
  import opened MapSum
  import opened VLogState
  import opened VLogInv
  import opened VLogClient
  import opened VLogCompact
  import opened VLogRecover
  import opened VLogRuns
  import opened VLogRefinement
  import opened VLogLedgers

  /** The check `set_scoped` makes before it writes. */
  predicate QuotaAdmits(l: Ledger, s: State, k: Key, v: Value, limit: nat) {
    SatSub(Row(l.disk, TenantOf(k)), OldSize(PrevEntry(s, k))) + PaddedRecordSize(|k|, |v|) <= limit
  }

  /** The bytes of a tenant. */
  ghost function Used(s: State, t: nat): nat {
    Charged(s.index, OfTenant(t))
  }

  /** What records add to the bytes of a tenant when they are acknowledged; less than nothing if they replace more. */
  ghost function Growth(index: map<Key, Entry>, recs: seq<Record>, t: nat): int {
    Charged(ApplyIndex(index, recs, 0, 0), OfTenant(t)) - Charged(index, OfTenant(t))
  }

  function Pos(n: int): nat {
    if n < 0 then 0 else n
  }

  ghost function Growths(s: State, t: nat, except: set<nat>): map<nat, nat> {
    map id | id in s.ops && id !in except :: Pos(Growth(s.index, s.ops[id].blob.recs, t))
  }

  /** The most that the operations in flight, those in `except` aside, can add to a tenant. */
  ghost function Worst(s: State, t: nat, except: set<nat>): nat {
    Sum(Growths(s, t, except))
  }

  // ---- Growth ----

  ghost predicate SameSizes(a: map<Key, Entry>, b: map<Key, Entry>) {
    a.Keys == b.Keys && forall k :: k in a ==> a[k].size == b[k].size
  }

  lemma SameCharged(a: map<Key, Entry>, b: map<Key, Entry>, t: nat)
    requires SameSizes(a, b)
    ensures Charged(a, OfTenant(t)) == Charged(b, OfTenant(t))
  {
    assert (map k | k in a && OfTenant(t)(k, a[k]) :: a[k].size) == (map k | k in b && OfTenant(t)(k, b[k]) :: b[k].size);
  }

  lemma {:induction false} ApplySizes(a: map<Key, Entry>, b: map<Key, Entry>, recs: seq<Record>, x: nat, y: nat)
    requires SameSizes(a, b)
    ensures SameSizes(ApplyIndex(a, recs, x, y), ApplyIndex(b, recs, 0, 0))
  {
    hide SizeOf;
    if recs != [] {
      ApplySizes(a, b, recs[..|recs| - 1], x, y);
    }
  }

  /** Where the records lie does not matter. */
  lemma GrowthAt(index: map<Key, Entry>, recs: seq<Record>, x: nat, y: nat, t: nat)
    ensures Charged(ApplyIndex(index, recs, x, y), OfTenant(t)) == Charged(index, OfTenant(t)) + Growth(index, recs, t)
  {
    hide Charged, ApplyIndex;
    ApplySizes(index, index, recs, x, y);
    SameCharged(ApplyIndex(index, recs, x, y), ApplyIndex(index, recs, 0, 0), t);
  }

  /** What one record adds. */
  function Delta(index: map<Key, Entry>, r: Record, t: nat): int {
    if TenantOf(r.key) != t then 0
    else (if IsTomb(r) then 0 else SizeOf(r)) - (if r.key in index then index[r.key].size else 0)
  }

  lemma GrowthStep(index: map<Key, Entry>, recs: seq<Record>, t: nat)
    requires recs != []
    ensures var n := |recs| - 1;
            Growth(index, recs, t) == Growth(index, recs[..n], t) + Delta(ApplyIndex(index, recs[..n], 0, 0), recs[n], t)
  {
    hide Charged, TenantOf, SizeOf;
    var n := |recs| - 1;
    var (before, r) := (ApplyIndex(index, recs[..n], 0, 0), recs[n]);
    ChargedSet(before, r.key, Entry(Loc(0, 0, n), SizeOf(r)), OfTenant(t));
    ChargedDrop(before, r.key, OfTenant(t));
  }

  lemma NoRecords(index: map<Key, Entry>, t: nat)
    ensures Growth(index, [], t) == 0
  {
  }

  ghost predicate AgreeAt(a: map<Key, Entry>, b: map<Key, Entry>, k: Key) {
    (k in a <==> k in b) && (k in a ==> a[k].size == b[k].size)
  }

  lemma ApplyAgree(a: map<Key, Entry>, b: map<Key, Entry>, recs: seq<Record>, k: Key)
    requires AgreeAt(a, b, k)
    ensures AgreeAt(ApplyIndex(a, recs, 0, 0), ApplyIndex(b, recs, 0, 0), k)
  {
    hide ApplyIndex;
    ApplyIndexAt(a, recs, 0, 0, k);
    ApplyIndexAt(b, recs, 0, 0, k);
  }

  /** Growth depends on the entries of the records' own keys. */
  lemma {:induction false} GrowthFrame(a: map<Key, Entry>, b: map<Key, Entry>, recs: seq<Record>, t: nat)
    requires forall i :: 0 <= i < |recs| ==> AgreeAt(a, b, recs[i].key)
    ensures Growth(a, recs, t) == Growth(b, recs, t)
  {
    hide Growth, ApplyIndex, SizeOf, TenantOf;
    if recs == [] {
      NoRecords(a, t);
      NoRecords(b, t);
    } else {
      var n := |recs| - 1;
      GrowthFrame(a, b, recs[..n], t);
      GrowthStep(a, recs, t);
      GrowthStep(b, recs, t);
      ApplyAgree(a, b, recs[..n], recs[n].key);
    }
  }

  predicate ForTenant(recs: seq<Record>, t: nat) {
    exists i :: 0 <= i < |recs| && TenantOf(recs[i].key) == t
  }

  lemma {:induction false} NoGrowth(index: map<Key, Entry>, recs: seq<Record>, t: nat)
    requires !ForTenant(recs, t)
    ensures Growth(index, recs, t) == 0
  {
    hide Growth, ApplyIndex, TenantOf;
    if recs == [] {
      NoRecords(index, t);
    } else {
      var n := |recs| - 1;
      assert forall i :: 0 <= i < n ==> recs[..n][i] == recs[i];
      NoGrowth(index, recs[..n], t);
      GrowthStep(index, recs, t);
      assert TenantOf(recs[n].key) != t;
    }
  }

  // ---- Steps ----

  lemma AckUsed(s: State, id: nat, t: nat)
    requires id in s.ops && s.ops[id].phase.Written?
    ensures Used(ApplyOp(s, id), t) == Used(s, t) + Growth(s.index, s.ops[id].blob.recs, t)
  {
    hide Charged, ApplyIndex, Growth;
    var op := s.ops[id];
    GrowthAt(s.index, op.blob.recs, op.phase.seg, op.phase.blob, t);
  }

  /** The growth of the other operations is not touched: they have other keys. */
  lemma AckGrowth(s: State, id: nat, j: nat, t: nat)
    requires OpsOk(s.segs, s.ops, s.moves) && id in s.ops && s.ops[id].phase.Written? && j in s.ops && j != id
    ensures Growth(ApplyOp(s, id).index, s.ops[j].blob.recs, t) == Growth(s.index, s.ops[j].blob.recs, t)
  {
    hide Growth, ApplyIndex, OpOk;
    var (op, recs) := (s.ops[id], s.ops[j].blob.recs);
    var s' := ApplyOp(s, id);
    forall i | 0 <= i < |recs| ensures AgreeAt(s'.index, s.index, recs[i].key) {
      assert HasKey(s.ops[j].blob, recs[i].key);
      assert !HasKey(op.blob, recs[i].key);
      ApplyIndexAt(s.index, op.blob.recs, op.phase.seg, op.phase.blob, recs[i].key);
    }
    GrowthFrame(s'.index, s.index, recs, t);
  }

  lemma AckWorst(s: State, id: nat, t: nat, except: set<nat>)
    requires OpsOk(s.segs, s.ops, s.moves) && id in s.ops && s.ops[id].phase.Written? && id !in except
    ensures Worst(ApplyOp(s, id), t, except) + Pos(Growth(s.index, s.ops[id].blob.recs, t)) == Worst(s, t, except)
  {
    hide Growth, ApplyIndex, OpsOk, Sum;
    var m: map<nat, nat> := Growths(s, t, except);
    var m': map<nat, nat> := Growths(ApplyOp(s, id), t, except);
    forall j | j in m' ensures j in m && m'[j] == m[j] {
      AckGrowth(s, id, j, t);
    }
    assert m' == m - {id};
    SumRemove(m, id);
  }

  /** A step that moves records and changes no size. */
  lemma SizesUsed(s: State, s': State, t: nat, except: set<nat>)
    requires SameSizes(s'.index, s.index) && s'.ops.Keys == s.ops.Keys && forall id :: id in s.ops ==> s'.ops[id].blob == s.ops[id].blob
    ensures Used(s', t) == Used(s, t) && Worst(s', t, except) == Worst(s, t, except)
  {
    hide Growth, Charged;
    SameCharged(s'.index, s.index, t);
    forall id | id in s.ops ensures Growth(s'.index, s.ops[id].blob.recs, t) == Growth(s.index, s.ops[id].blob.recs, t) {
      GrowthFrame(s'.index, s.index, s.ops[id].blob.recs, t);
    }
    assert Growths(s', t, except) == Growths(s, t, except);
  }

  lemma FinishMoveSizes(s: State, src: nat, l: Loc)
    requires Inv(s) && CanFinishMove(s, src, l) && ValidLoc(s.segs, l)
    ensures SameSizes(FinishMove(s, src, l).index, s.index)
  {
    hide Ordered, NewestOk, MovesOk, CacheOk, Agree, ClockBound, OpsOk, Shape;
  }

  /** The action begins an operation on a key of the tenant. */
  predicate BeginsFor(a: Action, t: nat) {
    match a
    case DoBeginSet(_, k, _) => TenantOf(k) == t
    case DoBeginDel(_, k) => TenantOf(k) == t
    case DoBeginSetMany(_, pairs) => exists i :: 0 <= i < |pairs| && TenantOf(pairs[i].0) == t
    case _ => false
  }

  lemma BeginWorst(s: State, a: Action, t: nat, except: set<nat>)
    requires IsBegin(a) && Enabled(s, a) && !BeginsFor(a, t)
    ensures Used(Next(s, a), t) == Used(s, t) && Worst(Next(s, a), t, except) == Worst(s, t, except)
  {
    hide Growth, Charged, Sum, ForTenant, BeginsFor, Next, Enabled;
    var s' := Next(s, a);
    BegunOp(s, a, t);
    var recs := s'.ops[a.id].blob.recs;
    NoGrowth(s.index, recs, t);
    var m: map<nat, nat> := Growths(s, t, except);
    var m': map<nat, nat> := Growths(s', t, except);
    if a.id in except {
      assert m' == m;
    } else {
      assert m' - {a.id} == m && m'[a.id] == 0;
      SumRemove(m', a.id);
    }
  }

  lemma BegunOp(s: State, a: Action, t: nat)
    requires IsBegin(a) && Enabled(s, a)
    ensures var s' := Next(s, a);
            && s'.index == s.index && a.id !in s.ops && a.id in s'.ops && s'.ops == s.ops[a.id := s'.ops[a.id]]
            && (ForTenant(s'.ops[a.id].blob.recs, t) ==> BeginsFor(a, t))
  {
    hide Idle, TenantOf;
  }

  lemma QuietWorst(s: State, a: Action, t: nat, except: set<nat>)
    requires Inv(s) && Enabled(s, a) && !IsBegin(a) && !a.DoAck? && !a.DoCrash?
    ensures Used(Next(s, a), t) == Used(s, t) && Worst(Next(s, a), t, except) == Worst(s, t, except)
  {
    hide Inv, Worst, Used, Enabled, Next;
    QuietOps(s, a);
    if a.DoFinishMove? {
      MoveSizes(s, a);
    } else {
      QuietIndex(s, a);
    }
    SizesUsed(s, Next(s, a), t, except);
  }

  lemma MoveSizes(s: State, a: Action)
    requires Inv(s) && a.DoFinishMove? && Enabled(s, a)
    ensures SameSizes(Next(s, a).index, s.index)
  {
    hide Inv, SameSizes;
    FinishMoveSizes(s, a.src, a.loc);
  }

  // ---- Paths ----

  ghost predicate Path(s: State, acts: seq<Action>, s': State)
    decreases |acts|
  {
    if acts == [] then s' == s else Enabled(s, acts[0]) && Path(Next(s, acts[0]), acts[1..], s')
  }

  lemma {:induction false} PathConcat(s: State, a: seq<Action>, s1: State, b: seq<Action>, s2: State)
    requires Path(s, a, s1) && Path(s1, b, s2)
    ensures Path(s, a + b, s2)
    decreases |a|
  {
    hide Enabled, Next;
    if a == [] {
      assert a + b == b;
    } else {
      PathConcat(Next(s, a[0]), a[1..], s1, b, s2);
      assert (a + b)[1..] == a[1..] + b;
    }
  }

  lemma PathOne(s: State, a: Action)
    requires Enabled(s, a)
    ensures Path(s, [a], Next(s, a))
  {
    hide Enabled, Next;
    assert [a][1..] == [];
  }

  /** The session goes on, the operation `id` waits, and no further operation of the tenant begins. */
  predicate Calm(a: Action, id: nat, t: nat) {
    !a.DoCrash? && a != DoAck(id) && !BeginsFor(a, t)
  }

  predicate AllCalm(acts: seq<Action>, id: nat, t: nat) {
    forall i :: 0 <= i < |acts| ==> Calm(acts[i], id, t)
  }

  /** The operation `id` is as it was begun. */
  ghost predicate StillPending(s: State, s': State, id: nat) {
    id in s.ops && id in s'.ops && s'.ops[id].blob == s.ops[id].blob && s'.ops[id].prev == s.ops[id].prev
  }

  /** What a tenant uses and what it may come to use together never grow on the way. */
  lemma CalmStep(s: State, a: Action, id: nat, t: nat)
    requires Inv(s) && OpCharges(s) && Enabled(s, a) && Calm(a, id, t) && id in s.ops
    ensures var s' := Next(s, a);
            Inv(s') && OpCharges(s') && StillPending(s, s', id) && Used(s', t) + Worst(s', t, {id}) <= Used(s, t) + Worst(s, t, {id})
  {
    hide Inv, OpCharges, Used, Worst, Growth, StillPending, Next, Enabled, BeginsFor;
    StepInv(s, a);
    ChargesStep(s, a);
    StaysPending(s, a, id);
    if IsBegin(a) {
      BeginWorst(s, a, t, {id});
    } else if a.DoAck? {
      AckStep(s, a, id, t);
    } else {
      QuietWorst(s, a, t, {id});
    }
  }

  lemma AckStep(s: State, a: Action, id: nat, t: nat)
    requires Inv(s) && a.DoAck? && Enabled(s, a) && a.id != id
    ensures Used(Next(s, a), t) + Worst(Next(s, a), t, {id}) <= Used(s, t) + Worst(s, t, {id})
  {
    hide Inv, Used, Worst, Growth;
    InvOps(s);
    AckUsed(s, a.id, t);
    AckWorst(s, a.id, t, {id});
  }

  lemma {:induction false} CalmPath(s: State, acts: seq<Action>, s': State, id: nat, t: nat)
    requires Inv(s) && OpCharges(s) && id in s.ops && Path(s, acts, s') && AllCalm(acts, id, t)
    ensures Inv(s') && OpCharges(s') && StillPending(s, s', id) && Used(s', t) + Worst(s', t, {id}) <= Used(s, t) + Worst(s, t, {id})
    decreases |acts|
  {
    hide Inv, OpCharges, Used, Worst, Next, Enabled, Calm;
    if acts != [] {
      CalmStep(s, acts[0], id, t);
      CalmPath(Next(s, acts[0]), acts[1..], s', id, t);
    }
  }

  // ---- One set among others ----

  /** The pending operation is a `set` of `k` to `v`. */
  ghost predicate IsSet(s: State, id: nat, k: Key, v: Value) {
    && id in s.ops && s.ops[id].blob.header.None? && |s.ops[id].blob.recs| == 1
    && s.ops[id].blob.recs[0] == Record(s.ops[id].blob.recs[0].ts, Scalar, k, v)
  }

  /** Its acknowledgement replaces the bytes it found by its own. */
  lemma SetGrowth(s: State, id: nat, k: Key, v: Value)
    requires OpCharges(s) && IsSet(s, id, k, v)
    ensures Growth(s.index, s.ops[id].blob.recs, TenantOf(k)) == PaddedRecordSize(|k|, |v|) - OldSize(s.ops[id].prev)
  {
    hide Charged, TenantOf, PaddedRecordSize, Growth;
    var (recs, t) := (s.ops[id].blob.recs, TenantOf(k));
    assert SameCharge(s.index, k, s.ops[id].prev);
    assert recs[..0] == [];
    GrowthStep(s.index, recs, t);
    NoRecords(s.index, t);
  }

  /** Whatever calm path leads to its acknowledgement, the tenant ends within `limit`. */
  ghost predicate Safe(s: State, id: nat, t: nat, limit: nat) {
    forall acts, s' :: Path(s, acts, s') && AllCalm(acts, id, t) && CanApply(s', id) ==> Used(ApplyOp(s', id), t) <= limit
  }

  /** The bytes of the tenant, the most its other operations in flight can add, and those of the set. */
  ghost predicate Fits(s: State, id: nat, k: Key, v: Value, limit: nat) {
    id in s.ops && Used(s, TenantOf(k)) + Worst(s, TenantOf(k), {id}) + PaddedRecordSize(|k|, |v|) <= limit + OldSize(s.ops[id].prev)
  }

  lemma FitsSafe(s: State, id: nat, k: Key, v: Value, limit: nat, acts: seq<Action>, s': State)
    requires Inv(s) && OpCharges(s) && IsSet(s, id, k, v) && Fits(s, id, k, v, limit)
    requires Path(s, acts, s') && AllCalm(acts, id, TenantOf(k)) && CanApply(s', id)
    ensures Used(ApplyOp(s', id), TenantOf(k)) <= limit
  {
    hide Inv, OpCharges, Used, Worst, Growth, Path, AllCalm, ApplyOp, TenantOf, PaddedRecordSize;
    var t := TenantOf(k);
    CalmPath(s, acts, s', id, t);
    AckUsed(s', id, t);
    SetGrowth(s', id, k, v);
  }

  // ---- The worst that can happen does ----

  /** Nothing but reservations, writes and syncs: an operation is brought to its acknowledgement. */
  predicate Plain(acts: seq<Action>) {
    forall i :: 0 <= i < |acts| ==> acts[i].DoReserve? || acts[i].DoWrite? || acts[i].DoSync?
  }

  ghost predicate Prepared(s: State, s': State, id: nat) {
    && Inv(s') && OpCharges(s') && s'.index == s.index && s'.ops.Keys == s.ops.Keys
    && (forall j :: j in s.ops ==> s'.ops[j].blob == s.ops[j].blob && s'.ops[j].prev == s.ops[j].prev)
  }

  lemma PlainStep(s: State, a: Action, id: nat)
    requires Inv(s) && OpCharges(s) && Enabled(s, a) && (a.DoReserve? || a.DoWrite? || a.DoSync?)
    ensures Prepared(s, Next(s, a), id)
  {
    hide Inv, OpCharges, Next, Enabled;
    StepInv(s, a);
    ChargesStep(s, a);
    QuietIndex(s, a);
    QuietOps(s, a);
  }

  lemma PrepareWritten(s: State, id: nat) returns (acts: seq<Action>, s': State)
    requires Inv(s) && OpCharges(s) && id in s.ops && s.ops[id].phase.Written?
    ensures Path(s, acts, s') && Plain(acts) && Prepared(s, s', id) && CanApply(s', id)
  {
    hide Inv, OpCharges, Path;
    var x := s.ops[id].phase.seg;
    PhaseOk(s, id);
    acts, s' := [DoSync(x)], SyncSeg(s, x);
    PathOne(s, DoSync(x));
    PlainStep(s, DoSync(x), id);
  }

  lemma PhaseOk(s: State, id: nat)
    requires Inv(s) && id in s.ops
    ensures s.ops[id].phase.Reserved? ==> s.ops[id].phase.seg in s.segs
    ensures s.ops[id].phase.Written? ==> s.ops[id].phase.seg in s.segs && s.ops[id].phase.blob < |s.segs[s.ops[id].phase.seg].blobs|
  {
    hide Ordered, NewestOk, MovesOk, CacheOk, Agree, ClockBound, IndexOk, Shape;
    assert OpOk(s.segs, s.moves, s.ops[id]);
  }

  lemma PrepareReserved(s: State, id: nat) returns (acts: seq<Action>, s': State)
    requires Inv(s) && OpCharges(s) && id in s.ops && s.ops[id].phase.Reserved?
    ensures Path(s, acts, s') && Plain(acts) && Prepared(s, s', id) && CanApply(s', id)
  {
    hide Inv, OpCharges, Path, CanApply;
    PhaseOk(s, id);
    var s1 := WriteOp(s, id);
    PathOne(s, DoWrite(id));
    PlainStep(s, DoWrite(id), id);
    var more;
    more, s' := PrepareWritten(s1, id);
    acts := [DoWrite(id)] + more;
    PathConcat(s, [DoWrite(id)], s1, more, s');
  }

  lemma Prepare(s: State, id: nat) returns (acts: seq<Action>, s': State)
    requires Inv(s) && OpCharges(s) && id in s.ops
    ensures Path(s, acts, s') && Plain(acts) && Prepared(s, s', id) && CanApply(s', id)
  {
    hide Inv, OpCharges, Path, CanApply;
    if s.ops[id].phase.Written? {
      acts, s' := PrepareWritten(s, id);
    } else if s.ops[id].phase.Reserved? {
      acts, s' := PrepareReserved(s, id);
    } else {
      var s1 := ReserveOp(s, id);
      PathOne(s, DoReserve(id));
      PlainStep(s, DoReserve(id), id);
      var more;
      more, s' := PrepareReserved(s1, id);
      acts := [DoReserve(id)] + more;
      PathConcat(s, [DoReserve(id)], s1, more, s');
    }
  }

  lemma PlainCalm(acts: seq<Action>, id: nat, t: nat)
    requires Plain(acts)
    ensures AllCalm(acts, id, t)
  {
  }

  lemma {:induction false} SumZero(m: map<nat, nat>)
    requires forall k :: k in m ==> m[k] == 0
    ensures Sum(m) == 0
    decreases |m|
  {
    if m != map[] {
      var k :| k in m;
      SumRemove(m, k);
      SumZero(m - {k});
    }
  }

  /** Every operation in flight that grows the tenant is acknowledged, and `id` still waits. */
  lemma {:induction false} AckAll(s: State, id: nat, t: nat) returns (acts: seq<Action>, s': State)
    requires Inv(s) && OpCharges(s) && id in s.ops
    ensures Path(s, acts, s') && AllCalm(acts, id, t) && Inv(s') && OpCharges(s') && StillPending(s, s', id)
    ensures Used(s', t) == Used(s, t) + Worst(s, t, {id})
    decreases |s.ops|
  {
    hide Inv, OpCharges, Path, Used, Growth, Calm, Sum;
    if j :| j in s.ops && j != id && Growth(s.index, s.ops[j].blob.recs, t) > 0 {
      var a, s1 := Prepare(s, j);
      PlainCalm(a, id, t);
      SizesUsed(s, s1, t, {id});
      var s2 := ApplyOp(s1, j);
      AckOne(s1, j, id, t);
      PathConcat(s, a, s1, [DoAck(j)], s2);
      var b;
      b, s' := AckAll(s2, id, t);
      acts := a + [DoAck(j)] + b;
      PathConcat(s, a + [DoAck(j)], s2, b, s');
    } else {
      acts, s' := [], s;
      assert Path(s, [], s) by { PathNone(s); }
      SumZero(Growths(s, t, {id}));
    }
  }

  lemma PathNone(s: State)
    ensures Path(s, [], s)
  {
  }

  lemma AckOne(s: State, j: nat, id: nat, t: nat)
    requires Inv(s) && OpCharges(s) && CanApply(s, j) && id in s.ops && j != id && Growth(s.index, s.ops[j].blob.recs, t) > 0
    ensures var s' := ApplyOp(s, j);
            && Path(s, [DoAck(j)], s') && Calm(DoAck(j), id, t) && Inv(s') && OpCharges(s') && StillPending(s, s', id) && |s'.ops| < |s.ops|
            && Used(s', t) + Worst(s', t, {id}) == Used(s, t) + Worst(s, t, {id})
  {
    hide Inv, OpCharges, Used, Worst, Growth, Path, ApplyOp, Durable;
    AckPath(s, j);
    ApplyOpInv(s, j);
    AckCharges(s, j);
    InvOps(s);
    AckUsed(s, j, t);
    AckWorst(s, j, t, {id});
    Smaller(s.ops, j);
  }

  lemma AckPath(s: State, j: nat)
    requires CanApply(s, j)
    ensures Path(s, [DoAck(j)], ApplyOp(s, j)) && ApplyOp(s, j).ops == s.ops - {j}
  {
    hide Path, ApplyIndex, ApplyNewest, ApplyCache;
    PathOne(s, DoAck(j));
  }

  lemma Smaller(ops: Ops, j: nat)
    requires j in ops
    ensures |ops - {j}| < |ops|
  {
    assert (ops - {j}).Keys == ops.Keys - {j};
  }

  /** A `set` that has begun leaves its tenant within the limit on every way to its acknowledgement on which no
      further operation of the tenant begins, if and only if the bytes of the tenant, the most its other operations
      in flight can add, and its own fit. All of it is known when it begins. */
  lemma QuotaSafeIff(s: State, id: nat, k: Key, v: Value, limit: nat)
    requires Inv(s) && OpCharges(s) && IsSet(s, id, k, v)
    ensures Safe(s, id, TenantOf(k), limit) <==> Fits(s, id, k, v, limit)
  {
    hide Inv, OpCharges, Used, Worst, Growth, Path, AllCalm, ApplyOp, TenantOf, PaddedRecordSize;
    var t := TenantOf(k);
    if Fits(s, id, k, v, limit) {
      forall acts, s' | Path(s, acts, s') && AllCalm(acts, id, t) && CanApply(s', id)
        ensures Used(ApplyOp(s', id), t) <= limit
      {
        FitsSafe(s, id, k, v, limit, acts, s');
      }
    } else {
      WorstReached(s, id, k, v, limit);
    }
  }

  lemma WorstReached(s: State, id: nat, k: Key, v: Value, limit: nat)
    requires Inv(s) && OpCharges(s) && IsSet(s, id, k, v) && !Fits(s, id, k, v, limit)
    ensures !Safe(s, id, TenantOf(k), limit)
  {
    hide Inv, OpCharges, Used, Worst, Growth, Path, AllCalm, ApplyOp, TenantOf, PaddedRecordSize;
    var t := TenantOf(k);
    var a, s1 := AckAll(s, id, t);
    var b, s2 := Prepare(s1, id);
    PlainCalm(b, id, t);
    PathConcat(s, a, s1, b, s2);
    CalmConcat(a, b, id, t);
    SizesUsed(s1, s2, t, {id});
    AckUsed(s2, id, t);
    SetGrowth(s2, id, k, v);
    assert Path(s, a + b, s2) && AllCalm(a + b, id, t);
  }

  lemma CalmConcat(a: seq<Action>, b: seq<Action>, id: nat, t: nat)
    requires AllCalm(a, id, t) && AllCalm(b, id, t)
    ensures AllCalm(a + b, id, t)
  {
    hide Calm;
  }

  // ---- The check and its outcome ----

  /** Before the call: the same for the `set` about to begin, over the operations in flight. */
  lemma QuotaBeforeIff(s: State, id: nat, k: Key, v: Value, limit: nat)
    requires Inv(s) && OpCharges(s) && id !in s.ops && Idle(s, k)
    ensures Safe(BeginSet(s, id, k, v), id, TenantOf(k), limit) <==>
            Used(s, TenantOf(k)) + Worst(s, TenantOf(k), {}) + PaddedRecordSize(|k|, |v|) <= limit + OldSize(PrevEntry(s, k))
  {
    hide Inv, OpCharges, Growth, Safe, Charged, TenantOf, PaddedRecordSize, Sum, Idle;
    var (s1, t) := (BeginSet(s, id, k, v), TenantOf(k));
    BegunSet(s, id, k, v);
    assert Growths(s1, t, {id}) == Growths(s, t, {});
    QuotaSafeIff(s1, id, k, v, limit);
  }

  lemma BegunSet(s: State, id: nat, k: Key, v: Value)
    requires Inv(s) && OpCharges(s) && id !in s.ops && Idle(s, k)
    ensures Inv(BeginSet(s, id, k, v)) && OpCharges(BeginSet(s, id, k, v)) && IsSet(BeginSet(s, id, k, v), id, k, v)
  {
    hide Inv, OpCharges, Idle;
    BeginSetInv(s, id, k, v);
    ChargesStep(s, DoBeginSet(id, k, v));
  }

  /** The action acknowledges an operation on a key of the tenant. */
  ghost predicate AcksFor(s: State, a: Action, t: nat) {
    a.DoAck? && a.id in s.ops && ForTenant(s.ops[a.id].blob.recs, t)
  }

  lemma UsedStep(s: State, a: Action, t: nat)
    requires Inv(s) && Enabled(s, a) && !a.DoCrash? && !AcksFor(s, a, t)
    ensures Used(Next(s, a), t) == Used(s, t)
  {
    hide Inv, Used, Growth, ForTenant;
    if a.DoAck? {
      AckUsed(s, a.id, t);
      NoGrowth(s.index, s.ops[a.id].blob.recs, t);
    } else if IsBegin(a) {
      BegunUsed(s, a, t);
    } else {
      QuietWorst(s, a, t, {});
    }
  }

  lemma BegunUsed(s: State, a: Action, t: nat)
    requires IsBegin(a) && Enabled(s, a)
    ensures Used(Next(s, a), t) == Used(s, t)
  {
    hide Charged, Enabled, Next;
    BegunOp(s, a, t);
  }

  /** From the first step of the `set` to just before its acknowledgement, with no crash and no acknowledgement of
      the tenant in between. */
  ghost predicate Undisturbed(run: seq<State>, acts: seq<Action>, i: nat, j: nat, id: nat, t: nat) {
    && IsRun(run, acts) && i < j < |acts|
    && forall m :: i < m < j ==> !acts[m].DoCrash? && acts[m] != DoAck(id) && !AcksFor(run[m], acts[m], t)
  }

  lemma RunStep(run: seq<State>, acts: seq<Action>, m: nat)
    requires IsRun(run, acts) && m < |acts|
    ensures Inv(run[m]) && Enabled(run[m], acts[m]) && run[m + 1] == Next(run[m], acts[m])
  {
    hide Inv, Enabled, Next, Abstracts, SpecRun;
    RunsRefine(run[..m + 1], acts[..m]);
    assert Step(run[m], acts[m], run[m + 1]);
  }

  lemma {:induction false} UndisturbedUsed(run: seq<State>, acts: seq<Action>, i: nat, j: nat, id: nat, k: Key, v: Value, m: nat)
    requires Undisturbed(run, acts, i, j, id, TenantOf(k)) && acts[i] == DoBeginSet(id, k, v) && i < m <= j
    ensures Used(run[m], TenantOf(k)) == Used(run[i], TenantOf(k))
    ensures IsSet(run[m], id, k, v) && run[m].ops[id].prev == PrevEntry(run[i], k)
    decreases m
  {
    hide Inv, Enabled, Next, Used, TenantOf, Step, AcksFor;
    var t := TenantOf(k);
    if m == i + 1 {
      RunStep(run, acts, i);
      SetBegun(run[i], id, k, v, t);
    } else {
      UndisturbedUsed(run, acts, i, j, id, k, v, m - 1);
      RunStep(run, acts, m - 1);
      UsedStep(run[m - 1], acts[m - 1], t);
      StaysPending(run[m - 1], acts[m - 1], id);
    }
  }

  lemma SetBegun(s: State, id: nat, k: Key, v: Value, t: nat)
    requires Enabled(s, DoBeginSet(id, k, v))
    ensures var s' := Next(s, DoBeginSet(id, k, v)); IsSet(s', id, k, v) && s'.ops[id].prev == PrevEntry(s, k) && Used(s', t) == Used(s, t)
  {
    hide Charged, Idle;
  }

  lemma StaysPending(s: State, a: Action, id: nat)
    requires Enabled(s, a) && !a.DoCrash? && a != DoAck(id) && id in s.ops
    ensures StillPending(s, Next(s, a), id)
  {
    hide Enabled, Next;
    if IsBegin(a) {
      BegunOp(s, a, 0);
    } else if a.DoAck? {
      OthersStay(s, a, id);
    } else {
      QuietOps(s, a);
    }
  }

  lemma OthersStay(s: State, a: Action, id: nat)
    requires a.DoAck? && Enabled(s, a) && a.id != id && id in s.ops
    ensures StillPending(s, Next(s, a), id)
  {
  }

  /** In every run: a `set` the check admitted leaves its tenant within the limit, if no other operation of the
      tenant is acknowledged between the check and its own acknowledgement. */
  lemma QuotaHolds(run: seq<State>, acts: seq<Action>, books: seq<Ledger>, i: nat, j: nat, id: nat, k: Key, v: Value, limit: nat)
    requires LedgerRun(run, acts, books) && Undisturbed(run, acts, i, j, id, TenantOf(k))
    requires acts[i] == DoBeginSet(id, k, v) && acts[j] == DoAck(id) && QuotaAdmits(books[i], run[i], k, v, limit)
    ensures Row(books[j + 1].disk, TenantOf(k)) <= limit
  {
    hide Inv, Used, Growth, TenantOf, PaddedRecordSize, LedgerRun, AcksFor, Step, Enabled, OpCharges, Row, SatSub;
    var t := TenantOf(k);
    RunOf(run, acts, books);
    BooksAt(run, acts, books, i, t);
    BooksAt(run, acts, books, j, t);
    BooksAt(run, acts, books, j + 1, t);
    UndisturbedUsed(run, acts, i, j, id, k, v, j);
    RunStep(run, acts, j);
    AckedUsed(run[j], id, t);
    SetGrowth(run[j], id, k, v);
    PrevCounted(run[i], k);
    Admitted(books[i], run[i], k, v, limit);
  }

  lemma RunOf(run: seq<State>, acts: seq<Action>, books: seq<Ledger>)
    requires LedgerRun(run, acts, books)
    ensures IsRun(run, acts) && |books| == |run| == |acts| + 1
  {
  }

  lemma AckedUsed(s: State, id: nat, t: nat)
    requires Enabled(s, DoAck(id))
    ensures id in s.ops && Used(Next(s, DoAck(id)), t) == Used(s, t) + Growth(s.index, s.ops[id].blob.recs, t)
  {
    hide Used, Growth, ApplyOp;
    AckUsed(s, id, t);
  }

  lemma PrevCounted(s: State, k: Key)
    ensures OldSize(PrevEntry(s, k)) <= Used(s, TenantOf(k))
  {
    hide Charged, TenantOf;
    ChargedDrop(s.index, k, OfTenant(TenantOf(k)));
  }

  lemma Admitted(l: Ledger, s: State, k: Key, v: Value, limit: nat)
    requires QuotaAdmits(l, s, k, v, limit) && OldSize(PrevEntry(s, k)) <= Row(l.disk, TenantOf(k))
    ensures Row(l.disk, TenantOf(k)) - OldSize(PrevEntry(s, k)) + PaddedRecordSize(|k|, |v|) <= limit
  {
    hide TenantOf, PaddedRecordSize;
  }

  lemma BooksAt(run: seq<State>, acts: seq<Action>, books: seq<Ledger>, m: nat, t: nat)
    requires LedgerRun(run, acts, books) && m <= |acts|
    ensures OpCharges(run[m]) && Row(books[m].disk, t) == Used(run[m], t)
  {
    hide BookedStep, LiveOk, PrevLeft, OpCharges, Charged, Step;
    RunBooks(run[..m + 1], acts[..m], books[..m + 1]);
  }

  // ---- Two sets that exceed the limit together ----

  /** Two keys of the tenant with this 16-byte prefix. */
  function A(p: Key): Key {
    p + [1]
  }

  function B(p: Key): Key {
    p + [2]
  }

  lemma OneTenant(p: Key)
    requires |p| == 16
    ensures A(p) != B(p) && TenantOf(A(p)) == TenantOf(B(p)) == FromLE(p)
    ensures PaddedRecordSize(|A(p)|, 0) == PaddedRecordSize(|B(p)|, 0) == 128
  {
    hide FromLE;
    assert A(p)[16] != B(p)[16];
    assert A(p)[..16] == p && B(p)[..16] == p;
  }

  /** The store after two `set`s have begun, and been written and synced. */
  function TwoWritten(p: Key): State {
    var (a, b) := (Blob(None, [Record(1, Scalar, A(p), [])]), Blob(None, [Record(2, Scalar, B(p), [])]));
    State(map[0 := Segment([a, b], 2)], 0, 3, map[], map[],
          map[0 := ClientOp(a, None, Written(0, 0)), 1 := ClientOp(b, None, Written(0, 1))], map[], map[], map[])
  }

  lemma SecondIdle(p: Key)
    requires |p| == 16
    ensures Idle(Init(), A(p)) && Idle(BeginSet(Init(), 0, A(p), []), B(p))
  {
    OneTenant(p);
  }

  lemma TwoWrittenReached(p: Key)
    requires |p| == 16
    ensures Idle(Init(), A(p))
    ensures var s1 := BeginSet(Init(), 0, A(p), []);
            Idle(s1, B(p)) &&
            var s2 := ReserveOp(ReserveOp(BeginSet(s1, 1, B(p), []), 0), 1);
            SyncSeg(WriteOp(WriteOp(s2, 0), 1), 0) == TwoWritten(p)
  {
    hide PaddedRecordSize, Idle, A, B;
    SecondIdle(p);
    var (a, b) := (Blob(None, [Record(1, Scalar, A(p), [])]), Blob(None, [Record(2, Scalar, B(p), [])]));
    var s1 := BeginSet(Init(), 0, A(p), []);
    var s2 := ReserveOp(ReserveOp(BeginSet(s1, 1, B(p), []), 0), 1);
    assert [] + [a] == [a] && [a] + [b] == [a, b];
    var s4 := WriteOp(WriteOp(s2, 0), 1);
    assert s4.segs == map[0 := Segment([a, b], 0)];
    assert s4.ops == TwoWritten(p).ops;
  }

  /** Both are admitted under a limit of 128 bytes, for neither is charged when the other is checked; both are
      acknowledged; and the tenant, whichever it is, holds 256. */
  lemma QuotaExceeded(p: Key)
    requires |p| == 16
    ensures var (t, l0) := (FromLE(p), Ledger(map[0 := 0], map[]));
            && TenantOf(A(p)) == TenantOf(B(p)) == t && Idle(Init(), A(p))
            && QuotaAdmits(l0, Init(), A(p), [], 128) && QuotaAdmits(l0, BeginSet(Init(), 0, A(p), []), B(p), [], 128)
            && var s := TwoWritten(p);
               && CanApply(s, 0) && CanApply(ApplyOp(s, 0), 1)
               && var l1 := ChargeAck(l0, s, 0);
                  Row(ChargeAck(l1, ApplyOp(s, 0), 1).disk, t) == 256
  {
    hide PaddedRecordSize, TenantOf, Idle, A, B, ApplyIndex, ApplyNewest, ApplyCache;
    OneTenant(p);
    SecondIdle(p);
    var s := TwoWritten(p);
    var l1 := ChargeAck(Ledger(map[0 := 0], map[]), s, 0);
    assert Row(l1.disk, FromLE(p)) == 128;
  }
}
