/** The recovery gate for atomic batches: `BatchGate` of `vlog.rs`. */
module BatchGates {
  import opened Bytes
  import opened Records
  import opened Batches
  import opened SegmentScan

  datatype Gate = Gate(expected: Option<nat>, pending: seq<Found>)

  const CLOSED := Gate(None, [])

  /** The count a header announces; a value too short to hold one announces nothing. */
  function Announced(value: Value): nat {
    if |value| < 4 then 0 else FromLE(value[..4])
  }

  function Step(g: Gate, f: Found): Gate {
    if f.rec.kind == BatchBegin then
      Gate(if Announced(f.rec.value) > 0 then Some(Announced(f.rec.value)) else None, [])
    else if g.expected.None? then g
    else if |g.pending| + 1 == g.expected.value then CLOSED
    else g.(pending := g.pending + [f])
  }

  /** The records released by one more record. */
  function Released(g: Gate, f: Found): seq<Found> {
    if f.rec.kind == BatchBegin then []
    else if g.expected.None? then [f]
    else if |g.pending| + 1 == g.expected.value then g.pending + [f]
    else []
  }

  function After(g: Gate, fs: seq<Found>): Gate
    decreases |fs|
  {
    if fs == [] then g else After(Step(g, fs[0]), fs[1..])
  }

  /** Everything the gate applies while it is fed `fs`. */
  function Applied(g: Gate, fs: seq<Found>): seq<Found>
    decreases |fs|
  {
    if fs == [] then [] else Released(g, fs[0]) + Applied(Step(g, fs[0]), fs[1..])
  }

  /** What the gate keeps: nothing is withheld unless a run is open, and then less than all of it. */
  predicate GateOk(g: Gate) {
    match g.expected
    case None => g.pending == []
    case Some(n) => |g.pending| < n
  }

  class BatchGate {
    var expected: Option<nat>
    var pending: seq<Found>

    constructor ()
      ensures State() == CLOSED
    {
      expected, pending := None, [];
    }

    function State(): Gate
      reads this
    {
      Gate(expected, pending)
    }

    /** `feed`: `applied` are the calls of `apply`, in order. */
    method Feed(f: Found) returns (applied: seq<Found>)
      requires GateOk(State())
      modifies this
      ensures State() == Step(old(State()), f) && applied == Released(old(State()), f) && GateOk(State())
    {
      applied := [];
      if f.rec.kind == BatchBegin {
        var n := Announced(f.rec.value);
        pending := [];
        expected := if n > 0 then Some(n) else None;
        return;
      }
      match expected {
        case Some(n) =>
          pending := pending + [f];
          if |pending| == n {
            expected := None;
            while pending != []
              invariant applied + pending == old(pending) + [f] && expected == None
              decreases |pending|
            {
              applied, pending := applied + [pending[0]], pending[1..];
            }
            assert applied + [] == applied;
          }
        case None =>
          applied := [f];
      }
    }
  }

  lemma AppliedTurn(g: Gate, fs: seq<Found>)
    requires fs != []
    ensures Applied(g, fs) == Released(g, fs[0]) + Applied(Step(g, fs[0]), fs[1..])
  {
    hide Step, Released;
  }

  lemma NothingApplied(g: Gate)
    ensures Applied(g, []) == []
  {
  }

  lemma Regroup(a: seq<Found>, b: seq<Found>, c: seq<Found>)
    ensures (a + b) + c == a + (b + c)
  {
  }

  /** The recovery loop over one segment: a fresh gate fed with everything the scan finds. */
  method RecoverSegment(found: seq<Found>) returns (applied: seq<Found>)
    ensures applied == Applied(CLOSED, found)
  {
    hide Step, Released, Applied;
    var gate := new BatchGate();
    applied := [];
    assert found[0..] == found;
    for i := 0 to |found|
      invariant fresh(gate) && GateOk(gate.State())
      invariant applied + Applied(gate.State(), found[i..]) == Applied(CLOSED, found)
    {
      ghost var rest := found[i..];
      AppliedTurn(gate.State(), rest);
      assert rest[0] == found[i] && rest[1..] == found[i + 1..];
      var more := gate.Feed(found[i]);
      Regroup(applied, more, Applied(gate.State(), found[i + 1..]));
      applied := applied + more;
    }
    assert found[|found|..] == [];
    NothingApplied(gate.State());
  }

  // ---- Runs ----

  lemma {:induction false} AppliedConcat(g: Gate, a: seq<Found>, b: seq<Found>)
    ensures Applied(g, a + b) == Applied(g, a) + Applied(After(g, a), b) && After(g, a + b) == After(After(g, a), b)
    decreases |a|
  {
    hide Step, Released;
    if a == [] {
      assert a + b == b;
    } else {
      AppliedConcat(Step(g, a[0]), a[1..], b);
      assert (a + b)[1..] == a[1..] + b;
    }
  }

  lemma {:induction false} AfterOk(g: Gate, fs: seq<Found>)
    requires GateOk(g)
    ensures GateOk(After(g, fs))
    decreases |fs|
  {
    if fs != [] {
      AfterOk(Step(g, fs[0]), fs[1..]);
    }
  }

  predicate NoHeaders(fs: seq<Found>) {
    forall i :: 0 <= i < |fs| ==> fs[i].rec.kind != BatchBegin
  }

  /** Members of an open run are withheld until the last, which releases them all in order. */
  lemma {:induction false} RunHeld(n: nat, pending: seq<Found>, fs: seq<Found>)
    requires |pending| < n && |pending| + |fs| <= n && NoHeaders(fs)
    ensures |pending| + |fs| < n ==>
              After(Gate(Some(n), pending), fs) == Gate(Some(n), pending + fs) && Applied(Gate(Some(n), pending), fs) == []
    ensures |pending| + |fs| == n ==>
              After(Gate(Some(n), pending), fs) == CLOSED && Applied(Gate(Some(n), pending), fs) == pending + fs
    decreases |fs|
  {
    if fs == [] {
      assert pending + fs == pending;
    } else if |pending| + 1 < n {
      RunHeld(n, pending + [fs[0]], fs[1..]);
      assert pending + [fs[0]] + fs[1..] == pending + fs;
    } else {
      assert fs == [fs[0]];
      assert fs[1..] == [];
    }
  }

  // ---- The layout of a blob ----

  /** The data records of a blob, with their offsets. */
  function BlobPlaces(b: Blob, base: nat): seq<Found> {
    Places(b.recs, base + if b.header.None? then 0 else PaddedRecordSize(0, 4))
  }

  lemma {:induction false} PlacesAt(recs: seq<Record>, base: nat, i: nat)
    requires i < |recs|
    ensures Places(recs, base)[i].rec == recs[i]
    decreases i
  {
    if i > 0 {
      PlacesAt(recs[1..], base + SizeOf(recs[0]), i - 1);
    }
  }

  lemma MembersHaveNoHeader(b: Blob, base: nat, k: nat)
    requires WellFormed(b) && k <= |b.recs|
    ensures NoHeaders(Places(b.recs, base)[..k])
  {
    forall i | 0 <= i < k ensures Places(b.recs, base)[i].rec.kind != BatchBegin {
      PlacesAt(b.recs, base, i);
    }
  }

  lemma AnnouncedHeader(b: Blob)
    requires WellFormed(b)
    ensures Announced(ToLE(|b.recs|, 4)) == |b.recs|
  {
    Pow256Widths();
    LERoundTrip(|b.recs|, 4);
    assert ToLE(|b.recs|, 4)[..4] == ToLE(|b.recs|, 4);
  }

  lemma SingleBlob(b: Blob, base: nat)
    requires WellFormed(b) && b.header.None?
    ensures Places(BlobRecords(b), base) == [Found(base, b.recs[0])] == BlobPlaces(b, base)
  {
    assert b.recs[1..] == [];
  }

  /** What the gate does with the first `k` records of a blob: all of it if the blob is whole, else
      nothing; a cut batch whose header survived leaves the gate open. */
  lemma BlobGated(b: Blob, base: nat, k: nat)
    requires WellFormed(b) && k <= |BlobRecords(b)|
    ensures var fs := Places(BlobRecords(b), base)[..k];
            && Applied(CLOSED, fs) == (if k == |BlobRecords(b)| then BlobPlaces(b, base) else [])
            && (After(CLOSED, fs) == CLOSED <==> k == 0 || k == |BlobRecords(b)|)
  {
    var all := Places(BlobRecords(b), base);
    if k == 0 {
      assert all[..0] == [];
    } else if b.header.None? {
      SingleBlob(b, base);
      assert all[..k] == all;
      assert all[1..] == [];
    } else {
      BatchGated(b, base, k);
    }
  }

  lemma BatchGated(b: Blob, base: nat, k: nat)
    requires WellFormed(b) && b.header.Some? && 1 <= k <= |BlobRecords(b)|
    ensures var fs := Places(BlobRecords(b), base)[..k];
            && Applied(CLOSED, fs) == (if k == |BlobRecords(b)| then BlobPlaces(b, base) else [])
            && (After(CLOSED, fs) == CLOSED <==> k == |BlobRecords(b)|)
  {
    hide Places;
    var recs := BlobRecords(b);
    var fs := Places(recs, base)[..k];
    var members := BlobPlaces(b, base);
    assert Places(recs, base) == [Found(base, recs[0])] + members by { PlacesHead(b, base); }
    AnnouncedHeader(b);
    MembersHaveNoHeader(b, base + PaddedRecordSize(0, 4), k - 1);
    RunHeld(|b.recs|, [], members[..k - 1]);
    assert fs[1..] == members[..k - 1];
    assert [] + members[..k - 1] == members[..k - 1];
    assert members[..|members|] == members;
  }

  lemma PlacesHead(b: Blob, base: nat)
    requires b.header.Some?
    ensures Places(BlobRecords(b), base) == [Found(base, BlobRecords(b)[0])] + BlobPlaces(b, base)
  {
    assert BlobRecords(b)[1..] == b.recs;
  }
}
