/** The refinement: every run of the value log is a run of a key-value map. */
module VLogRefinement {
  import opened Bytes
  import opened Records
  import opened Batches
  import opened VLogState
  import opened VLogInv
  import opened VLogClient
  import opened VLogCompact
  import opened VLogRecover
  import opened VLogRuns

  // ---- The specification: a map and the writes that have begun ----

  datatype Write = Put(key: Key, value: Value) | Remove(key: Key)

  datatype Spec = Spec(m: map<Key, Value>, begun: map<nat, seq<Write>>)

  function Perform(m: map<Key, Value>, ws: seq<Write>): map<Key, Value> {
    if ws == [] then m
    else
      var before := Perform(m, ws[..|ws| - 1]);
      match ws[|ws| - 1]
      case Put(k, v) => before[k := v]
      case Remove(k) => before - {k}
  }

  function PerformAll(m: map<Key, Value>, begun: map<nat, seq<Write>>, order: seq<nat>): map<Key, Value>
    requires forall i :: 0 <= i < |order| ==> order[i] in begun
  {
    if order == [] then m
    else Perform(PerformAll(m, begun, order[..|order| - 1]), begun[order[|order| - 1]])
  }

  function Puts(pairs: seq<(Key, Value)>): (ws: seq<Write>)
    ensures |ws| == |pairs| && forall i :: 0 <= i < |pairs| ==> ws[i] == Put(pairs[i].0, pairs[i].1)
  {
    seq(|pairs|, i requires 0 <= i < |pairs| => Put(pairs[i].0, pairs[i].1))
  }

  ghost predicate SpecEnabled(t: Spec, a: Action) {
    match a
    case DoAck(id) => id in t.begun
    case DoCrash(_, _, _, order, _) => forall i :: 0 <= i < |order| ==> order[i] in t.begun
    case _ => true
  }

  /** A write begins, is performed at its acknowledgement, or is lost or performed by a crash.
      No other step - no compaction step in particular - changes anything. */
  ghost function SpecNext(t: Spec, a: Action): Spec
    requires SpecEnabled(t, a)
  {
    match a
    case DoBeginSet(id, k, v) => t.(begun := t.begun[id := [Put(k, v)]])
    case DoBeginDel(id, k) => t.(begun := t.begun[id := [Remove(k)]])
    case DoBeginSetMany(id, pairs) => t.(begun := t.begun[id := Puts(pairs)])
    case DoAck(id) => Spec(Perform(t.m, t.begun[id]), t.begun - {id})
    case DoCrash(_, _, _, order, _) => Spec(PerformAll(t.m, t.begun, order), map[])
    case _ => t
  }

  // ---- The abstraction ----

  function Effect(r: Record): Write {
    if IsTomb(r) then Remove(r.key) else Put(r.key, r.value)
  }

  ghost predicate Effects(recs: seq<Record>, ws: seq<Write>) {
    |ws| == |recs| && forall i :: 0 <= i < |recs| ==> ws[i] == Effect(recs[i])
  }

  /** The map is what clients read; the begun writes are the pending ops. */
  ghost predicate Abstracts(t: Spec, s: State) {
    && (forall k :: k in s.index ==> ValidLoc(s.segs, s.index[k].loc))
    && t.m == Contents(s)
    && t.begun.Keys == s.ops.Keys
    && (forall id :: id in s.ops ==> Effects(s.ops[id].blob.recs, t.begun[id]))
  }

  lemma {:induction false} PerformApplies(m: map<Key, Value>, recs: seq<Record>, ws: seq<Write>)
    requires Effects(recs, ws)
    ensures Perform(m, ws) == ApplyMap(m, recs)
  {
    if recs != [] {
      PerformApplies(m, recs[..|recs| - 1], ws[..|ws| - 1]);
    }
  }

  lemma {:induction false} PerformAllCommits(m: map<Key, Value>, ops: Ops, begun: map<nat, seq<Write>>, order: seq<nat>)
    requires begun.Keys == ops.Keys && forall id :: id in ops ==> Effects(ops[id].blob.recs, begun[id])
    requires forall i :: 0 <= i < |order| ==> order[i] in ops
    ensures PerformAll(m, begun, order) == CommitAll(m, ops, order)
  {
    if order != [] {
      var n := |order| - 1;
      PerformAllCommits(m, ops, begun, order[..n]);
      PerformApplies(CommitAll(m, ops, order[..n]), ops[order[n]].blob.recs, begun[order[n]]);
    }
  }

  // ---- Steps clients cannot see ----

  ghost predicate SameReads(s: State, s': State) {
    && s'.index.Keys == s.index.Keys
    && forall k :: k in s.index ==>
         && ValidLoc(s.segs, s.index[k].loc) && ValidLoc(s'.segs, s'.index[k].loc)
         && At(s'.segs, s'.index[k].loc) == At(s.segs, s.index[k].loc)
  }

  ghost predicate IndexPoints(s: State) {
    forall k :: k in s.index ==> ValidLoc(s.segs, s.index[k].loc)
  }

  lemma InvPoints(s: State)
    requires Inv(s)
    ensures IndexPoints(s)
  {
  }

  lemma GrowthReads(s: State, s': State)
    requires IndexPoints(s) && s'.index == s.index && Grows(s.segs, s'.segs)
    ensures SameReads(s, s')
  {
    forall k | k in s.index
      ensures ValidLoc(s'.segs, s.index[k].loc) && At(s'.segs, s.index[k].loc) == At(s.segs, s.index[k].loc)
    {
      GrowsAt(s.segs, s'.segs, s.index[k].loc);
    }
  }

  lemma FinishMoveReads(s: State, src: nat, l: Loc)
    requires IndexPoints(s) && CanFinishMove(s, src, l) && CopyOf(s.segs, s.ops, l, s.moves[src][l].dst)
    ensures SameReads(s, FinishMove(s, src, l))
  {
  }

  lemma UnlinkReads(s: State, src: nat)
    requires Inv(s) && CanUnlink(s, src)
    ensures SameReads(s, Unlink(s, src))
  {
    hide Ordered, CacheOk, Agree, ClockBound, MovesOk, OpsOk;
    forall k | k in s.index
      ensures ValidLoc(s.segs - {src}, s.index[k].loc) && At(s.segs - {src}, s.index[k].loc) == At(s.segs, s.index[k].loc)
    {
      SourceIsEmpty(s, src, k);
      UnlinkAt(s.segs, src, s.newest[k]);
    }
  }

  lemma WriteMoveReads(s: State, src: nat, l: Loc)
    requires IndexPoints(s) && CanWriteMove(s, src, l) && ValidLoc(s.segs, l) && s.moves[src][l].seg in s.segs
    ensures SameReads(s, WriteMove(s, src, l))
  {
    AppendGrows(s.segs, s.moves[src][l].seg, Blob(None, [At(s.segs, l)]));
    GrowthReads(s, WriteMove(s, src, l));
  }

  lemma ChoiceReads(s: State, a: Action)
    requires IndexPoints(s) && IsChoice(a) && Enabled(s, a)
    ensures SameReads(s, Next(s, a))
  {
    GrowthReads(s, Next(s, a));
  }

  /** A compaction step leaves the map clients read and the pending writes alone. */
  lemma CompactionReads(s: State, a: Action)
    requires Inv(s) && IsCompaction(a) && Enabled(s, a)
    ensures SameReads(s, Next(s, a))
  {
    hide Ordered, NewestOk, IndexOk, CacheOk, Agree, ClockBound, OpsOk, SameReads, CanUnlink;
    InvPoints(s);
    if IsChoice(a) {
      ChoiceReads(s, a);
    } else if a.DoWriteMove? {
      WriteMoveReads(s, a.src, a.loc);
    } else if a.DoFinishMove? {
      assert MoveOk(s.segs, s.active, s.ops, s.newest, s.moves, a.loc, s.moves[a.src][a.loc]);
      FinishMoveReads(s, a.src, a.loc);
    } else {
      UnlinkReads(s, a.src);
    }
  }

  lemma CompactionOps(s: State, a: Action)
    requires IsCompaction(a) && Enabled(s, a)
    ensures Next(s, a).ops == s.ops && Next(s, a).active == s.active
  {
  }

  lemma CommitReads(s: State, a: Action)
    requires IndexPoints(s) && IsCommit(a) && Enabled(s, a) && Shape(s.segs, s.active)
    ensures SameReads(s, Next(s, a))
  {
    if a.DoWrite? {
      AppendGrows(s.segs, s.ops[a.id].phase.seg, s.ops[a.id].blob);
    }
    GrowthReads(s, Next(s, a));
  }

  lemma OtherReads(s: State, a: Action)
    requires IndexPoints(s) && (IsBegin(a) || IsRead(a)) && Enabled(s, a)
    ensures SameReads(s, Next(s, a))
  {
    GrowthReads(s, Next(s, a));
  }

  lemma ReadsContents(s: State, s': State)
    requires SameReads(s, s')
    ensures Contents(s') == Contents(s)
  {
  }

  // ---- The theorems ----

  lemma BeginRefines(s: State, t: Spec, a: Action)
    requires Abstracts(t, s) && IsBegin(a) && Enabled(s, a)
    ensures Abstracts(SpecNext(t, a), Next(s, a))
  {
    hide Abstracts, Idle;
    match a
    case DoBeginSet(id, k, v) => BeginAbstracts(s, t, BeginSet(s, id, k, v), id, [Put(k, v)]);
    case DoBeginDel(id, k) => BeginAbstracts(s, t, BeginDel(s, id, k), id, [Remove(k)]);
    case DoBeginSetMany(id, pairs) => BeginAbstracts(s, t, BeginSetMany(s, id, pairs), id, Puts(pairs));
  }

  lemma BeginAbstracts(s: State, t: Spec, s': State, id: nat, ws: seq<Write>)
    requires Abstracts(t, s) && s'.segs == s.segs && s'.index == s.index
    requires id in s'.ops && s'.ops == s.ops[id := s'.ops[id]] && Effects(s'.ops[id].blob.recs, ws)
    ensures Abstracts(t.(begun := t.begun[id := ws]), s')
  {
    hide Effects;
  }

  lemma QuietOps(s: State, a: Action)
    requires !IsBegin(a) && !a.DoAck? && !a.DoCrash? && Enabled(s, a)
    ensures Next(s, a).ops.Keys == s.ops.Keys
    ensures forall id :: id in s.ops ==> Next(s, a).ops[id].blob == s.ops[id].blob && Next(s, a).ops[id].prev == s.ops[id].prev
  {
    if a.DoReserve? {
      assert Next(s, a).ops == s.ops[a.id := s.ops[a.id].(phase := Reserved(s.active))];
    } else if a.DoWrite? {
      var x := s.ops[a.id].phase.seg;
      assert Next(s, a).ops == s.ops[a.id := s.ops[a.id].(phase := Written(x, |s.segs[x].blobs|))];
    } else {
      SameOps(s, a);
    }
  }

  lemma SameOps(s: State, a: Action)
    requires !IsBegin(a) && !a.DoAck? && !a.DoCrash? && !a.DoReserve? && !a.DoWrite? && Enabled(s, a)
    ensures Next(s, a).ops == s.ops
  {
    hide Append, Carry, CanUnlink, CanCompact, Unwritten, CanWriteMove;
  }

  lemma QuietReads(s: State, a: Action)
    requires Inv(s) && !IsBegin(a) && !a.DoAck? && !a.DoCrash? && Enabled(s, a)
    ensures SameReads(s, Next(s, a))
  {
    hide Ordered, NewestOk, IndexOk, CacheOk, Agree, ClockBound, OpsOk, MovesOk, SameReads;
    InvPoints(s);
    if IsCompaction(a) {
      CompactionReads(s, a);
    } else if IsCommit(a) {
      CommitReads(s, a);
    } else {
      OtherReads(s, a);
    }
  }

  lemma QuietRefines(s: State, t: Spec, a: Action)
    requires Inv(s) && Abstracts(t, s) && !IsBegin(a) && !a.DoAck? && !a.DoCrash? && Enabled(s, a)
    ensures Abstracts(t, Next(s, a))
  {
    hide Inv, Enabled, Next;
    QuietReads(s, a);
    QuietOps(s, a);
    ReadsContents(s, Next(s, a));
  }

  lemma AckRefines(s: State, t: Spec, id: nat)
    requires Inv(s) && Abstracts(t, s) && CanApply(s, id)
    ensures Abstracts(Spec(Perform(t.m, t.begun[id]), t.begun - {id}), ApplyOp(s, id))
  {
    hide Ordered, NewestOk, CacheOk, Agree, ClockBound, MovesOk;
    ApplyOpContents(s, id);
    PerformApplies(t.m, s.ops[id].blob.recs, t.begun[id]);
  }

  lemma CrashRefines(s: State, t: Spec, keep: map<nat, nat>, torn: nat, clock: nat, order: seq<nat>, newest: map<Key, Loc>)
    requires Inv(s) && Abstracts(t, s) && Enabled(s, DoCrash(keep, torn, clock, order, newest))
    ensures Abstracts(Spec(PerformAll(t.m, t.begun, order), map[]), Opened(Kept(s.segs, keep), s.active, clock, newest))
  {
    hide Inv, Winners, Kept;
    CrashRecovers(s, keep, clock, order, newest);
    PerformAllCommits(t.m, s.ops, t.begun, order);
  }

  /** One step of the log is one step of the map. */
  lemma StepRefines(s: State, t: Spec, a: Action)
    requires Inv(s) && Abstracts(t, s) && Enabled(s, a)
    ensures SpecEnabled(t, a) && Abstracts(SpecNext(t, a), Next(s, a))
  {
    hide Inv;
    if IsBegin(a) {
      BeginRefines(s, t, a);
    } else if a.DoAck? {
      AckRefines(s, t, a.id);
    } else if a.DoCrash? {
      CrashRefines(s, t, a.keep, a.torn, a.clock, a.order, a.newest);
    } else {
      QuietRefines(s, t, a);
    }
  }

  /** The store `open` creates in an empty directory. */
  function Init(): State {
    State(map[0 := Segment([], 0)], 0, 1, map[], map[], map[], map[], map[], map[])
  }

  ghost predicate Step(s: State, a: Action, s': State) {
    Enabled(s, a) && s' == Next(s, a)
  }

  /** `run` lists the states the actions `acts` lead through. */
  ghost predicate IsRun(run: seq<State>, acts: seq<Action>) {
    && |run| == |acts| + 1 && run[0] == Init()
    && forall i :: 0 <= i < |acts| ==> Step(run[i], acts[i], run[i + 1])
  }

  /** The specification map after the same actions. */
  ghost function SpecRun(acts: seq<Action>): Option<Spec> {
    if acts == [] then Some(Spec(map[], map[]))
    else
      var t := SpecRun(acts[..|acts| - 1]);
      var a := acts[|acts| - 1];
      if t.Some? && SpecEnabled(t.value, a) then Some(SpecNext(t.value, a)) else None
  }

  lemma StepKeeps(s: State, t: Spec, a: Action, s': State)
    requires Inv(s) && Abstracts(t, s) && Step(s, a, s')
    ensures Inv(s') && SpecEnabled(t, a) && Abstracts(SpecNext(t, a), s')
  {
    hide Inv, Abstracts;
    StepInv(s, a);
    StepRefines(s, t, a);
  }

  lemma InitInv()
    ensures Inv(Init()) && Abstracts(Spec(map[], map[]), Init())
  {
  }

  /** For every run - every interleaving of clients, compactions and syncs, and every number of
      crashes and reopens - clients read exactly the specification map. */
  lemma {:induction false} RunsRefine(run: seq<State>, acts: seq<Action>)
    requires IsRun(run, acts)
    ensures Inv(run[|acts|])
    ensures SpecRun(acts).Some? && Abstracts(SpecRun(acts).value, run[|acts|])
  {
    hide Inv, Abstracts;
    if acts == [] {
      InitInv();
    } else {
      var n := |acts| - 1;
      RunsRefine(run[..n + 1], acts[..n]);
      StepKeeps(run[n], SpecRun(acts[..n]).value, acts[n], run[n + 1]);
    }
  }

  /** A read served from the cache returns what the log holds, in every reachable state. */
  lemma CacheAgrees(run: seq<State>, acts: seq<Action>, k: Key)
    requires IsRun(run, acts)
    ensures var s := run[|acts|];
            k in s.cache ==> k in s.index && ValidLoc(s.segs, s.index[k].loc) && s.cache[k] == At(s.segs, s.index[k].loc).value
    ensures var s := run[|acts|];
            SpecRun(acts).Some? && (k in s.cache ==> k in SpecRun(acts).value.m && s.cache[k] == SpecRun(acts).value.m[k])
  {
    RunsRefine(run, acts);
  }

  /** Compaction is invisible: no compaction step changes what clients read, and a crash right
      after it recovers the map a crash right before it, with the same survivors, would have. */
  lemma CompactionInvisible(s: State, a: Action, keep: map<nat, nat>, torn: nat, clock: nat, order: seq<nat>, newest: map<Key, Loc>)
    requires Inv(s) && IsCompaction(a) && Enabled(s, a)
    requires Enabled(Next(s, a), DoCrash(keep, torn, clock, order, newest))
    ensures Inv(Next(s, a)) && Contents(Next(s, a)) == Contents(s)
    ensures Inv(Next(Next(s, a), DoCrash(keep, torn, clock, order, newest)))
    ensures forall i :: 0 <= i < |order| ==> order[i] in s.ops
    ensures Contents(Next(Next(s, a), DoCrash(keep, torn, clock, order, newest))) == CommitAll(Contents(s), s.ops, order)
  {
    hide Inv, SameReads;
    StepInv(s, a);
    InvPoints(s);
    InvPoints(Next(s, a));
    CompactionReads(s, a);
    CompactionOps(s, a);
    ReadsContents(s, Next(s, a));
    CrashOutcome(Next(s, a), keep, torn, clock, order, newest);
  }

  /** What a crash step leaves. */
  lemma CrashOutcome(s: State, keep: map<nat, nat>, torn: nat, clock: nat, order: seq<nat>, newest: map<Key, Loc>)
    requires Inv(s) && Enabled(s, DoCrash(keep, torn, clock, order, newest))
    ensures IndexPoints(s) && (forall i :: 0 <= i < |order| ==> order[i] in s.ops)
    ensures var s' := Next(s, DoCrash(keep, torn, clock, order, newest));
            Inv(s') && IndexPoints(s') && Contents(s') == CommitAll(Contents(s), s.ops, order)
  {
    hide Inv, Winners, Kept, CommitAll;
    InvPoints(s);
    CrashRecovers(s, keep, clock, order, newest);
    InvPoints(Next(s, DoCrash(keep, torn, clock, order, newest)));
  }
}
