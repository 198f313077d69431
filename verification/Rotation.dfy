/** Segment rotation: `maybe_rotate` and the synchronous reservation of `append_raw` and `set_many`,
    as a machine cut at their `.await` points. */
module Rotation {
  import opened Bytes
  import opened MapSum

  const MAX_ID: nat := 0xFFFF

  /** One call. `Waiting`: it found the segment full and waits for `rotate_lock`. `Creating`: it holds
      the lock, has created the file of segment `id` and awaits its committer. `Booked`: its bytes are
      reserved in `seg` and not handed to the committer yet. */
  datatype Call = Waiting(incoming: nat, append: bool) | Creating(incoming: nat, append: bool, id: nat) | Booked(seg: nat, bytes: nat)

  datatype State = State(
    active: nat,
    reserved: map<nat, nat>,
    handed: map<nat, nat>,
    lock: Option<nat>,
    calls: map<nat, Call>,
    /** History: the ids of the files created, oldest first, and the largest append reserved. */
    created: seq<nat>,
    largest: nat)

  /** Each call is an append of `incoming` bytes, or the bare rotation `reclaim_all_dead` asks for. */
  datatype Step =
    | Call(call: nat, incoming: nat, append: bool)
    | Acquire(call: nat)
    | Install(call: nat)
    | HandOver(call: nat)

  predicate Fits(s: State, incoming: nat, max: nat)
    requires s.active in s.reserved
  {
    s.reserved[s.active] + incoming <= max
  }

  /** `maybe_rotate` is done: an append reserves its bytes before anything else runs. */
  function Book(s: State, c: nat, incoming: nat, append: bool): State
    requires s.active in s.reserved
  {
    if append then
      s.(reserved := s.reserved[s.active := s.reserved[s.active] + incoming],
         calls := s.calls[c := Booked(s.active, incoming)],
         largest := if s.largest < incoming then incoming else s.largest)
    else s.(calls := s.calls - {c})
  }

  ghost predicate Enabled(s: State, step: Step) {
    match step
    case Call(c, _, _) => c !in s.calls
    case Acquire(c) => c in s.calls && s.calls[c].Waiting? && s.lock.None?
    case Install(c) => c in s.calls && s.calls[c].Creating?
    case HandOver(c) => c in s.calls && s.calls[c].Booked? && s.calls[c].seg in s.handed
  }

  function Next(s: State, step: Step, max: nat): State
    requires s.active in s.reserved && Enabled(s, step)
  {
    match step
    case Call(c, n, append) =>
      if Fits(s, n, max) then Book(s, c, n, append) else s.(calls := s.calls[c := Waiting(n, append)])
    case Acquire(c) =>
      var call := s.calls[c];
      if Fits(s, call.incoming, max) then Book(s, c, call.incoming, call.append)
      else if s.active == MAX_ID then s.(calls := s.calls - {c})
      else
        var id := s.active + 1;
        s.(lock := Some(c), calls := s.calls[c := Creating(call.incoming, call.append, id)], created := s.created + [id])
    case Install(c) =>
      var call := s.calls[c];
      Book(s.(active := call.id, reserved := s.reserved[call.id := 0], handed := s.handed[call.id := 0], lock := None),
           c, call.incoming, call.append)
    case HandOver(c) =>
      var call := s.calls[c];
      s.(handed := s.handed[call.seg := s.handed[call.seg] + call.bytes], calls := s.calls - {c})
  }

  // ---- The invariant ----

  ghost predicate Increasing(ids: seq<nat>) {
    forall i, j :: 0 <= i < j < |ids| ==> ids[i] < ids[j]
  }

  /** Bytes reserved in segment `x` and not handed over. */
  ghost function Due(calls: map<nat, Call>, x: nat): nat {
    Sum(Dues(calls, x))
  }

  function Dues(calls: map<nat, Call>, x: nat): map<nat, nat> {
    map c | c in calls :: DueOf(calls[c], x)
  }

  function DueOf(call: Call, x: nat): nat {
    if call.Booked? && call.seg == x then call.bytes else 0
  }

  lemma DueRemove(calls: map<nat, Call>, x: nat, c: nat)
    requires c in calls
    ensures Due(calls, x) == DueOf(calls[c], x) + Due(calls - {c}, x)
  {
    SumRemove(Dues(calls, x), c);
    assert Dues(calls, x) - {c} == Dues(calls - {c}, x);
  }

  lemma DuePut(calls: map<nat, Call>, x: nat, c: nat, call: Call)
    ensures Due(calls[c := call], x) == DueOf(call, x) + Due(calls - {c}, x)
  {
    hide Due;
    DueRemove(calls[c := call], x, c);
    assert calls[c := call] - {c} == calls - {c};
  }

  ghost predicate CallOk(s: State, c: nat, call: Call) {
    match call
    case Waiting(_, _) => true
    case Creating(_, _, id) => s.lock == Some(c) && id == s.active + 1 <= MAX_ID && s.created != [] && s.created[|s.created| - 1] == id
    case Booked(seg, _) => seg in s.reserved
  }

  ghost predicate Inv(s: State, max: nat) {
    && s.active in s.reserved && s.active <= MAX_ID && s.reserved.Keys == s.handed.Keys
    && (forall x :: x in s.reserved ==> x <= s.active)
    && (forall c :: c in s.calls ==> CallOk(s, c, s.calls[c]))
    && (s.lock.Some? ==> s.lock.value in s.calls && s.calls[s.lock.value].Creating?)
    && Increasing(s.created)
    && (forall i :: 0 <= i < |s.created| ==> s.created[i] <= if s.lock.Some? then s.active + 1 else s.active)
    && (forall x :: x in s.reserved ==> s.reserved[x] == s.handed[x] + Due(s.calls, x))
    && SizesOk(s, max)
  }

  /** No segment is over the limit, unless an append larger than the limit was reserved in one. */
  ghost predicate SizesOk(s: State, max: nat) {
    && (s.largest <= max ==> forall x :: x in s.reserved ==> s.reserved[x] <= max)
    && (s.largest > max ==> exists x :: x in s.reserved && s.reserved[x] >= s.largest)
  }

  lemma BookSizes(s: State, max: nat, c: nat, n: nat, append: bool)
    requires s.active in s.reserved && SizesOk(s, max) && (Fits(s, n, max) || s.reserved[s.active] == 0)
    ensures SizesOk(Book(s, c, n, append), max)
  {
    var s' := Book(s, c, n, append);
    if append && s'.largest > max {
      if n >= s.largest {
        assert s'.reserved[s.active] >= n;
      } else {
        var x :| x in s.reserved && s.reserved[x] >= s.largest;
        assert s'.reserved[x] >= s.largest;
      }
    }
  }

  lemma BookDue(s: State, c: nat, n: nat, append: bool, x: nat)
    requires s.active in s.reserved && (c in s.calls ==> !s.calls[c].Booked?)
    ensures Due(Book(s, c, n, append).calls, x) == Due(s.calls, x) + if append && x == s.active then n else 0
  {
    hide Due;
    DuePut(s.calls, x, c, Booked(s.active, n));
    DueGone(s.calls, x, c);
  }

  lemma DueGone(calls: map<nat, Call>, x: nat, c: nat)
    requires c in calls ==> DueOf(calls[c], x) == 0
    ensures Due(calls - {c}, x) == Due(calls, x)
  {
    hide Due;
    if c in calls {
      DueRemove(calls, x, c);
    } else {
      assert calls - {c} == calls;
    }
  }

  /** Booking by call `c` keeps the invariant of a state in which `c` neither holds the lock nor has
      anything due. */
  lemma BookInv(s: State, max: nat, c: nat, n: nat, append: bool)
    requires Inv(s.(calls := s.calls - {c}), max) && (c in s.calls ==> !s.calls[c].Booked?)
    requires Fits(s, n, max) || s.reserved[s.active] == 0
    ensures Inv(Book(s, c, n, append), max)
  {
    hide Due;
    var s0 := s.(calls := s.calls - {c});
    var s' := Book(s, c, n, append);
    assert SizesOk(s', max) by {
      assert SizesOk(s, max);
      BookSizes(s, max, c, n, append);
    }
    forall x | x in s'.reserved ensures s'.reserved[x] == s'.handed[x] + Due(s'.calls, x) {
      BookDue(s, c, n, append, x);
      DueGone(s.calls, x, c);
    }
    forall d | d in s'.calls ensures CallOk(s', d, s'.calls[d]) {
      if d != c {
        assert CallOk(s0, d, s0.calls[d]);
      }
    }
  }

  /** A call without reserved bytes goes away. */
  lemma DropInv(s: State, max: nat, c: nat)
    requires Inv(s, max) && (c in s.calls ==> s.calls[c].Waiting?)
    ensures Inv(s.(calls := s.calls - {c}), max)
  {
    hide Due;
    var s' := s.(calls := s.calls - {c});
    forall x ensures Due(s'.calls, x) == Due(s.calls, x) {
      DueGone(s.calls, x, c);
    }
    forall d | d in s'.calls ensures CallOk(s', d, s'.calls[d]) {
      assert CallOk(s, d, s.calls[d]);
    }
  }

  lemma WaitInv(s: State, max: nat, c: nat, n: nat, append: bool)
    requires Inv(s, max) && c !in s.calls
    ensures Inv(s.(calls := s.calls[c := Waiting(n, append)]), max)
  {
    hide Due;
    var s' := s.(calls := s.calls[c := Waiting(n, append)]);
    forall x ensures Due(s'.calls, x) == Due(s.calls, x) {
      DuePut(s.calls, x, c, Waiting(n, append));
      DueGone(s.calls, x, c);
    }
    forall d | d in s'.calls ensures CallOk(s', d, s'.calls[d]) {
      if d != c {
        assert CallOk(s, d, s.calls[d]);
      }
    }
  }

  lemma CreateInv(s: State, max: nat, c: nat)
    requires Inv(s, max) && Enabled(s, Acquire(c)) && !Fits(s, s.calls[c].incoming, max) && s.active < MAX_ID
    ensures Inv(Next(s, Acquire(c), max), max)
  {
    hide Due;
    var s' := Next(s, Acquire(c), max);
    forall x ensures Due(s'.calls, x) == Due(s.calls, x) {
      DuePut(s.calls, x, c, s'.calls[c]);
      DueGone(s.calls, x, c);
    }
    forall d | d in s'.calls ensures CallOk(s', d, s'.calls[d]) {
      if d != c {
        assert CallOk(s, d, s.calls[d]);
      }
    }
  }

  /** The new segment is in place and the lock released. */
  lemma InstallInv(s: State, max: nat, c: nat)
    requires Inv(s, max) && Enabled(s, Install(c))
    ensures Inv(Next(s, Install(c), max), max)
  {
    hide Due;
    var call := s.calls[c];
    assert CallOk(s, c, call);
    var s1 := s.(active := call.id, reserved := s.reserved[call.id := 0], handed := s.handed[call.id := 0], lock := None);
    var s2 := s1.(calls := s1.calls - {c});
    forall d | d in s2.calls ensures CallOk(s2, d, s2.calls[d]) {
      assert CallOk(s, d, s.calls[d]);
    }
    forall x | x in s2.reserved ensures s2.reserved[x] == s2.handed[x] + Due(s2.calls, x) {
      DueGone(s.calls, x, c);
      if x == call.id {
        NothingDue(s.calls, x);
      }
    }
    assert SizesOk(s2, max) by {
      if s.largest > max {
        var x :| x in s.reserved && s.reserved[x] >= s.largest;
        assert s2.reserved[x] >= s.largest;
      }
    }
    BookInv(s1, max, c, call.incoming, call.append);
  }

  lemma {:induction false} NothingDue(calls: map<nat, Call>, x: nat)
    requires forall c :: c in calls ==> DueOf(calls[c], x) == 0
    ensures Due(calls, x) == 0
    decreases |calls|
  {
    if calls != map[] {
      var c :| c in calls;
      NothingDue(calls - {c}, x);
      DueRemove(calls, x, c);
    }
  }

  lemma HandInv(s: State, max: nat, c: nat)
    requires Inv(s, max) && Enabled(s, HandOver(c))
    ensures Inv(Next(s, HandOver(c), max), max)
  {
    hide Due;
    var s' := Next(s, HandOver(c), max);
    forall x | x in s'.reserved ensures s'.reserved[x] == s'.handed[x] + Due(s'.calls, x) {
      DueRemove(s.calls, x, c);
    }
    forall d | d in s'.calls ensures CallOk(s', d, s'.calls[d]) {
      assert CallOk(s, d, s.calls[d]);
    }
  }

  lemma ActiveReserved(s: State, max: nat)
    requires Inv(s, max)
    ensures s.active in s.reserved && s.active <= MAX_ID
  {
  }

  lemma StepInv(s: State, step: Step, max: nat)
    requires Inv(s, max) && Enabled(s, step)
    ensures Inv(Next(s, step, max), max)
  {
    hide Inv, CallOk, Increasing, SizesOk;
    ActiveReserved(s, max);
    match step
    case Call(c, n, append) =>
      if Fits(s, n, max) {
        DropInv(s, max, c);
        BookInv(s, max, c, n, append);
      } else {
        WaitInv(s, max, c, n, append);
      }
    case Acquire(c) =>
      if Fits(s, s.calls[c].incoming, max) {
        DropInv(s, max, c);
        BookInv(s, max, c, s.calls[c].incoming, s.calls[c].append);
      } else if s.active == MAX_ID {
        DropInv(s, max, c);
      } else {
        CreateInv(s, max, c);
      }
    case Install(c) => InstallInv(s, max, c);
    case HandOver(c) => HandInv(s, max, c);
  }

  // ---- Whole runs ----

  /** A store whose segments are within the limit, with no call in progress. */
  ghost predicate Init(s: State, max: nat) {
    && s.active in s.reserved && s.active <= MAX_ID && s.handed == s.reserved && s.calls == map[] && s.lock == None
    && (forall x :: x in s.reserved ==> x <= s.active && s.reserved[x] <= max)
    && s.created == [] && s.largest == 0
  }

  ghost predicate IsRun(run: seq<State>, steps: seq<Step>, max: nat) {
    && |run| == |steps| + 1 && Init(run[0], max)
    && forall i :: 0 <= i < |steps| ==>
         run[i].active in run[i].reserved && Enabled(run[i], steps[i]) && run[i + 1] == Next(run[i], steps[i], max)
  }

  lemma {:induction false} RunInv(run: seq<State>, steps: seq<Step>, max: nat, i: nat)
    requires IsRun(run, steps, max) && i < |run|
    ensures Inv(run[i], max)
    decreases i
  {
    if i > 0 {
      RunInv(run, steps, max, i - 1);
      StepInv(run[i - 1], steps[i - 1], max);
    }
  }

  lemma {:induction false} CreatedPast(run: seq<State>, steps: seq<Step>, max: nat, i: nat)
    requires IsRun(run, steps, max) && i < |run|
    ensures run[0].active <= run[i].active && forall j :: 0 <= j < |run[i].created| ==> run[0].active < run[i].created[j]
    decreases i
  {
    hide Due;
    if i > 0 {
      CreatedPast(run, steps, max, i - 1);
      RunInv(run, steps, max, i - 1);
      if steps[i - 1].Install? {
        assert CallOk(run[i - 1], steps[i - 1].call, run[i - 1].calls[steps[i - 1].call]);
      }
    }
  }

  /** In every state of every run: segments stay within the limit if and only if every append reserved
      so far is; what the committers were handed never exceeds what was reserved; and the ids of the
      files created strictly increase, all past the first active one. */
  lemma RotationSafe(run: seq<State>, steps: seq<Step>, max: nat, i: nat)
    requires IsRun(run, steps, max) && i < |run|
    ensures (forall x :: x in run[i].reserved ==> run[i].reserved[x] <= max) <==> run[i].largest <= max
    ensures forall x :: x in run[i].handed ==> x in run[i].reserved && run[i].handed[x] <= run[i].reserved[x]
    ensures Increasing(run[i].created) && forall j :: 0 <= j < |run[i].created| ==> run[0].active < run[i].created[j]
  {
    hide Due;
    RunInv(run, steps, max, i);
    CreatedPast(run, steps, max, i);
  }
}
