/** The device-global committer: `shared_committer.rs`. One batch may hold requests for several files;
    each file is written once, then one sync, a barrier for the whole device, covers them all. */
module SharedCommit {
  import opened Bytes
  import opened CommitLog

  /** What the device does to one flush: the files whose write fails, with the bytes it leaves, and
      whether the sync succeeds. */
  datatype Outcome = Outcome(failed: map<nat, seq<byte>>, synced: bool)

  /** A request written and not yet replied to. */
  datatype Slot = Slot(req: Req, at: nat)

  // ---- Groups ----

  function OfFile(batch: seq<Req>, f: nat): seq<Req> {
    if batch == [] then []
    else
      var before := OfFile(batch[..|batch| - 1], f);
      if batch[|batch| - 1].file == f then before + [batch[|batch| - 1]] else before
  }

  function OfFiles(batch: seq<Req>, fs: set<nat>): seq<Req> {
    if batch == [] then []
    else
      var before := OfFiles(batch[..|batch| - 1], fs);
      if batch[|batch| - 1].file in fs then before + [batch[|batch| - 1]] else before
  }

  function IdsOf(reqs: seq<Req>): multiset<nat> {
    if reqs == [] then multiset{} else IdsOf(reqs[..|reqs| - 1]) + multiset{reqs[|reqs| - 1].id}
  }

  lemma IdsStep(reqs: seq<Req>, r: Req)
    ensures IdsOf(reqs + [r]) == IdsOf(reqs) + multiset{r.id}
  {
    assert (reqs + [r])[..|reqs|] == reqs;
  }

  lemma {:induction false} IdsSplit(batch: seq<Req>, fs: set<nat>, f: nat)
    requires f in fs
    ensures IdsOf(OfFiles(batch, fs)) == IdsOf(OfFile(batch, f)) + IdsOf(OfFiles(batch, fs - {f}))
  {
    hide IdsOf;
    if batch == [] {
      NoneOf(f, fs);
    } else {
      hide OfFile, OfFiles;
      var (rest, r) := (batch[..|batch| - 1], batch[|batch| - 1]);
      IdsSplit(rest, fs, f);
      OfFileStep(batch, f);
      OfFilesStep(batch, fs);
      OfFilesStep(batch, fs - {f});
      var (a, b) := (IdsOf(OfFile(rest, f)), IdsOf(OfFiles(rest, fs - {f})));
      if r.file in fs {
        IdsStep(OfFiles(rest, fs), r);
        if r.file == f {
          IdsStep(OfFile(rest, f), r);
          Swap(a, b, multiset{r.id});
        } else {
          IdsStep(OfFiles(rest, fs - {f}), r);
          Regroup(a, b, multiset{r.id});
        }
      }
    }
  }

  lemma NoneOf(f: nat, fs: set<nat>)
    ensures OfFile([], f) == [] && OfFiles([], fs) == [] && IdsOf([]) == multiset{}
  {
  }

  lemma OfFileStep(batch: seq<Req>, f: nat)
    requires batch != []
    ensures var (rest, r) := (batch[..|batch| - 1], batch[|batch| - 1]);
            OfFile(batch, f) == if r.file == f then OfFile(rest, f) + [r] else OfFile(rest, f)
  {
  }

  lemma OfFilesStep(batch: seq<Req>, fs: set<nat>)
    requires batch != []
    ensures var (rest, r) := (batch[..|batch| - 1], batch[|batch| - 1]);
            OfFiles(batch, fs) == if r.file in fs then OfFiles(rest, fs) + [r] else OfFiles(rest, fs)
  {
  }

  lemma Swap(a: multiset<nat>, b: multiset<nat>, c: multiset<nat>)
    ensures (a + b) + c == (a + c) + b
  {
  }

  /** Requests in increasing order of submission, numbered from `first` on. */
  ghost predicate Rising(reqs: seq<Req>, first: nat, end: nat) {
    && (forall i, j :: 0 <= i < j < |reqs| ==> reqs[i].id < reqs[j].id)
    && (forall i :: 0 <= i < |reqs| ==> first <= reqs[i].id < end)
  }

  ghost predicate ToFile(reqs: seq<Req>, f: nat) {
    forall i :: 0 <= i < |reqs| ==> reqs[i].file == f
  }

  lemma {:induction false} OfFileRising(batch: seq<Req>, f: nat, first: nat, end: nat)
    requires Rising(batch, first, end)
    ensures Rising(OfFile(batch, f), first, end) && ToFile(OfFile(batch, f), f)
  {
    if batch != [] {
      hide OfFile;
      var (rest, r) := (batch[..|batch| - 1], batch[|batch| - 1]);
      assert Rising(rest, first, r.id);
      OfFileRising(rest, f, first, r.id);
      OfFileStep(batch, f);
      if r.file == f {
        RisingMore(OfFile(rest, f), first, r, end);
      }
    }
  }

  lemma RisingMore(reqs: seq<Req>, first: nat, r: Req, end: nat)
    requires Rising(reqs, first, r.id) && first <= r.id < end
    ensures Rising(reqs + [r], first, end)
  {
  }

  lemma {:induction false} AllFiles(batch: seq<Req>, fs: set<nat>)
    requires forall i :: 0 <= i < |batch| ==> batch[i].file in fs
    ensures OfFiles(batch, fs) == batch
  {
    if batch != [] {
      AllFiles(batch[..|batch| - 1], fs);
      assert batch == batch[..|batch| - 1] + [batch[|batch| - 1]];
    }
  }

  lemma {:induction false} NoFiles(batch: seq<Req>)
    ensures OfFiles(batch, {}) == []
  {
    if batch != [] {
      NoFiles(batch[..|batch| - 1]);
    }
  }

  // ---- The invariant ----

  function SlotIds(slots: seq<Slot>): multiset<nat> {
    if slots == [] then multiset{} else SlotIds(slots[..|slots| - 1]) + multiset{slots[|slots| - 1].req.id}
  }

  lemma NoSlotIds()
    ensures SlotIds([]) == multiset{}
  {
  }

  lemma SlotsStep(slots: seq<Slot>, s: Slot)
    ensures SlotIds(slots + [s]) == SlotIds(slots) + multiset{s.req.id}
  {
    assert (slots + [s])[..|slots|] == slots;
  }

  lemma {:induction false} SlotsHead(slots: seq<Slot>)
    requires slots != []
    ensures SlotIds(slots) == multiset{slots[0].req.id} + SlotIds(slots[1..])
  {
    hide SlotIds;
    var n := |slots| - 1;
    var (front, last) := (slots[..n], slots[n]);
    assert slots == front + [last];
    SlotsStep(front, last);
    if n == 0 {
      assert front == [] && slots[1..] == [];
      NoSlotIds();
    } else {
      SlotsHead(front);
      SlotsStep(front[1..], last);
      assert slots[1..] == front[1..] + [last];
      Regroup(multiset{slots[0].req.id}, SlotIds(front[1..]), multiset{last.req.id});
    }
  }

  lemma Regroup(a: multiset<nat>, b: multiset<nat>, c: multiset<nat>)
    ensures (a + b) + c == a + (b + c)
  {
  }

  /** A safe history: acknowledged bytes of each registered file end by its next offset; acknowledged
      requests were submitted before `first`. */
  ghost predicate History(log: Log, next: map<nat, nat>, first: nat) {
    && AcksOk(log) && AcksOrdered(log)
    && (forall f :: f in next ==> AckedBelow(log, f, next[f]))
    && (forall p :: 0 <= p < |log| && log[p].Acked? ==> log[p].req.id < first)
  }

  /** Written by the flush in progress and untouched since. */
  ghost predicate SlotBacked(log: Log, from: nat, s: Slot) {
    exists w :: from <= w && Writes(log, w, s.req.file, s.at, s.req.data) && Untouched(log, w, s.req.file, s.at + |s.req.data|)
  }

  ghost predicate SlotsOk(log: Log, from: nat, next: map<nat, nat>, slots: seq<Slot>, first: nat) {
    && (forall i :: 0 <= i < |slots| ==>
          && SlotBacked(log, from, slots[i]) && slots[i].req.id >= first
          && (slots[i].req.file in next ==> slots[i].at + |slots[i].req.data| <= next[slots[i].req.file]))
    && (forall i, j :: 0 <= i < j < |slots| && slots[i].req.file == slots[j].req.file ==>
          slots[i].req.id < slots[j].req.id && slots[i].at + |slots[i].req.data| <= slots[j].at)
    && (forall p, i :: 0 <= p < |log| && log[p].Acked? && 0 <= i < |slots| && log[p].req.file == slots[i].req.file ==>
          log[p].at + |log[p].req.data| <= slots[i].at)
  }

  /** Every request so far is replied to, waits in `slots`, or waits in `rest`: once. */
  ghost predicate OneReply(log: Log, slots: seq<Slot>, rest: seq<Req>, all: multiset<nat>) {
    multiset(Replies(log)) + SlotIds(slots) + IdsOf(rest) == all
  }

  lemma SlotStays(log: Log, from: nat, s: Slot, e: Event)
    requires SlotBacked(log, from, s) && (Touches(e, s.req.file) ==> s.at + |s.req.data| <= e.offset)
    ensures SlotBacked(log + [e], from, s)
  {
    var w :| from <= w && Writes(log, w, s.req.file, s.at, s.req.data) && Untouched(log, w, s.req.file, s.at + |s.req.data|);
    assert forall q :: 0 <= q < |log| ==> (log + [e])[q] == log[q];
    assert Writes(log + [e], w, s.req.file, s.at, s.req.data);
    assert Untouched(log + [e], w, s.req.file, s.at + |s.req.data|);
  }

  /** An event other than an acknowledgement, which writes - if it writes - at the next offset of a
      registered file. */
  lemma EventKeeps(log: Log, from: nat, next: map<nat, nat>, slots: seq<Slot>, first: nat, e: Event)
    requires History(log, next, first) && SlotsOk(log, from, next, slots, first) && !e.Acked?
    requires forall f :: Touches(e, f) ==> f in next && e.offset == next[f]
    ensures History(log + [e], next, first) && SlotsOk(log + [e], from, next, slots, first)
  {
    hide AcksOk, AcksOrdered, SlotBacked;
    EventSafe(log, e);
    EventOrdered(log, e);
    assert forall q :: 0 <= q < |log| ==> (log + [e])[q] == log[q];
    forall i | 0 <= i < |slots| ensures SlotBacked(log + [e], from, slots[i]) {
      SlotStays(log, from, slots[i], e);
    }
  }

  /** A sync at least as strong as `d` ended the writes of the flush; or none was needed. */
  ghost predicate SyncedAfter(log: Log, from: nat, d: Durability) {
    d == Relaxed ||
    exists y :: from <= y < |log| && log[y].Synced? && Rank(log[y].level) >= Rank(d) && forall q :: y < q < |log| ==> !log[q].Wrote?
  }

  lemma SyncCovers(log: Log, from: nat, d: Durability, w: nat)
    requires SyncedAfter(log, from, d) && w < |log| && log[w].Wrote?
    ensures SyncedSince(log, w, |log|, d)
  {
  }

  lemma SlotsRest(log: Log, from: nat, next: map<nat, nat>, slots: seq<Slot>, first: nat, e: Event)
    requires SlotsOk(log, from, next, slots, first) && slots != [] && e.Acked? && e.req == slots[0].req && e.at == slots[0].at
    ensures SlotsOk(log + [e], from, next, slots[1..], first)
  {
    var (log', rest) := (log + [e], slots[1..]);
    assert forall q :: 0 <= q < |log| ==> log'[q] == log[q];
    assert forall i :: 0 <= i < |rest| ==> rest[i] == slots[i + 1];
    forall i | 0 <= i < |rest| ensures SlotBacked(log', from, rest[i]) {
      SlotStays(log, from, slots[i + 1], e);
    }
  }

  lemma AckOrdered(log: Log, e: Event)
    requires AcksOrdered(log) && e.Acked?
    requires forall p :: 0 <= p < |log| && log[p].Acked? && log[p].req.file == e.req.file ==>
               log[p].req.id < e.req.id && log[p].at + |log[p].req.data| <= e.at
    ensures AcksOrdered(log + [e])
  {
    assert forall q :: 0 <= q < |log| ==> (log + [e])[q] == log[q];
  }

  /** Acknowledged requests of a file precede the waiting ones. */
  ghost predicate AckedFirst(log: Log, slots: seq<Slot>) {
    forall p, i :: 0 <= p < |log| && log[p].Acked? && 0 <= i < |slots| && log[p].req.file == slots[i].req.file ==>
      log[p].req.id < slots[i].req.id
  }

  /** The first waiting slot is acknowledged. */
  lemma AckKeeps(log: Log, from: nat, next: map<nat, nat>, slots: seq<Slot>, first: nat, end: nat)
    requires History(log, next, end) && SlotsOk(log, from, next, slots, first) && slots != [] && AckedFirst(log, slots)
    requires slots[0].req.id < end && SyncedAfter(log, from, slots[0].req.durability)
    ensures var log' := log + [Acked(slots[0].req, slots[0].at, |slots[0].req.data| % 0x1_0000_0000)];
            History(log', next, end) && SlotsOk(log', from, next, slots[1..], first) && AckedFirst(log', slots[1..])
  {
    hide AcksOk, AcksOrdered, SlotBacked, Writes, Untouched, SyncedSince, SyncedAfter;
    var s := slots[0];
    var e := Acked(s.req, s.at, |s.req.data| % 0x1_0000_0000);
    AckOneSafe(log, from, s);
    AckOrdered(log, e);
    SlotsRest(log, from, next, slots, first, e);
    assert forall i :: 0 <= i < |slots[1..]| ==> slots[1..][i] == slots[i + 1];
    forall f | f in next ensures AckedBelow(log + [e], f, next[f]) {
      assert AckedBelow(log, f, next[f]);
    }
  }

  lemma AckOneSafe(log: Log, from: nat, s: Slot)
    requires AcksOk(log) && SlotBacked(log, from, s) && SyncedAfter(log, from, s.req.durability)
    ensures AcksOk(log + [Acked(s.req, s.at, |s.req.data| % 0x1_0000_0000)])
  {
    var w :| from <= w && Writes(log, w, s.req.file, s.at, s.req.data) && Untouched(log, w, s.req.file, s.at + |s.req.data|);
    SyncCovers(log, from, s.req.durability, w);
    AckSafe(log, s.req, s.at, w);
  }

  // ---- Runs of replies ----

  function Refusals(reqs: seq<Req>): (log: Log)
    ensures |log| == |reqs|
  {
    if reqs == [] then [] else [Refused(reqs[0])] + Refusals(reqs[1..])
  }

  function Acks(slots: seq<Slot>): (log: Log)
    ensures |log| == |slots|
  {
    if slots == [] then []
    else [Acked(slots[0].req, slots[0].at, |slots[0].req.data| % 0x1_0000_0000)] + Acks(slots[1..])
  }

  lemma {:induction false} IdsHead(reqs: seq<Req>)
    requires reqs != []
    ensures IdsOf(reqs) == multiset{reqs[0].id} + IdsOf(reqs[1..])
  {
    hide IdsOf;
    var n := |reqs| - 1;
    IdsStep(reqs[..n], reqs[n]);
    assert reqs[..n] + [reqs[n]] == reqs;
    if n == 0 {
      NoIds();
    } else {
      IdsHead(reqs[..n]);
      IdsStep(reqs[..n][1..], reqs[n]);
      assert reqs[..n][1..] + [reqs[n]] == reqs[1..];
    }
  }

  /** The state of a flush: what is replied, written, or waiting. */
  ghost predicate Flushing(log: Log, from: nat, next: map<nat, nat>, slots: seq<Slot>, first: nat, rest: seq<Req>, all: multiset<nat>) {
    History(log, next, first) && SlotsOk(log, from, next, slots, first) && OneReply(log, slots, rest, all)
  }

  lemma {:induction false} RefusalsKeep(log: Log, from: nat, next: map<nat, nat>, slots: seq<Slot>, first: nat, reqs: seq<Req>, rest: seq<Req>, all: multiset<nat>)
    requires History(log, next, first) && SlotsOk(log, from, next, slots, first)
    requires multiset(Replies(log)) + SlotIds(slots) + IdsOf(reqs) + IdsOf(rest) == all
    ensures Flushing(log + Refusals(reqs), from, next, slots, first, rest, all)
    decreases |reqs|
  {
    hide History, SlotsOk, SlotIds, Replies, IdsOf;
    if reqs == [] {
      assert log + Refusals(reqs) == log;
      NoIds();
    } else {
      var (r, log') := (reqs[0], log + [Refused(reqs[0])]);
      IdsHead(reqs);
      EventKeeps(log, from, next, slots, first, Refused(r));
      assert multiset(Replies(log')) == multiset(Replies(log)) + multiset{r.id} by { RepliesStep(log, Refused(r)); }
      RefusalsKeep(log', from, next, slots, first, reqs[1..], rest, all);
      assert log' + Refusals(reqs[1..]) == log + Refusals(reqs);
    }
  }

  lemma NoIds()
    ensures IdsOf([]) == multiset{} && SlotIds([]) == multiset{}
  {
  }

  lemma SyncMore(log: Log, from: nat, d: Durability, e: Event)
    requires SyncedAfter(log, from, d) && !e.Wrote?
    ensures SyncedAfter(log + [e], from, d)
  {
    if d != Relaxed {
      var y :| from <= y < |log| && log[y].Synced? && Rank(log[y].level) >= Rank(d) && forall q :: y < q < |log| ==> !log[q].Wrote?;
      assert (log + [e])[y] == log[y];
    }
  }

  lemma {:induction false} AcksKeep(log: Log, from: nat, next: map<nat, nat>, slots: seq<Slot>, first: nat, end: nat, level: Durability, all: multiset<nat>)
    requires History(log, next, end) && SlotsOk(log, from, next, slots, first) && AckedFirst(log, slots)
    requires OneReply(log, slots, [], all) && SyncedAfter(log, from, level)
    requires forall i :: 0 <= i < |slots| ==> slots[i].req.id < end && Rank(slots[i].req.durability) <= Rank(level)
    ensures History(log + Acks(slots), next, end) && multiset(Replies(log + Acks(slots))) == all
    decreases |slots|
  {
    hide History, SlotsOk, SlotIds, Replies, IdsOf, AckedFirst, SyncedAfter;
    NoIds();
    if slots == [] {
      assert log + Acks(slots) == log;
    } else {
      var e := Acked(slots[0].req, slots[0].at, |slots[0].req.data| % 0x1_0000_0000);
      SlotsHead(slots);
      SyncWeaker(log, from, level, slots[0].req.durability);
      AckKeeps(log, from, next, slots, first, end);
      RepliesStep(log, e);
      SyncMore(log, from, level, e);
      AcksKeep(log + [e], from, next, slots[1..], first, end, level, all);
      assert log + [e] + Acks(slots[1..]) == log + Acks(slots);
    }
  }

  lemma SyncWeaker(log: Log, from: nat, d: Durability, weaker: Durability)
    requires SyncedAfter(log, from, d) && Rank(weaker) <= Rank(d)
    ensures SyncedAfter(log, from, weaker)
  {
  }

  lemma {:induction false} SlotRefusals(log: Log, next: map<nat, nat>, slots: seq<Slot>, first: nat, all: multiset<nat>)
    requires History(log, next, first) && OneReply(log, slots, [], all)
    ensures var log' := log + Refusals(SlotReqs(slots)); History(log', next, first) && multiset(Replies(log')) == all
  {
    hide History, SlotIds, Replies, IdsOf;
    SlotReqIds(slots);
    NoIds();
    NoSlots(log, next, first);
    RefusalsKeep(log, 0, next, [], first, SlotReqs(slots), [], all);
  }

  function SlotReqs(slots: seq<Slot>): seq<Req> {
    seq(|slots|, i requires 0 <= i < |slots| => slots[i].req)
  }

  lemma {:induction false} SlotReqIds(slots: seq<Slot>)
    ensures IdsOf(SlotReqs(slots)) == SlotIds(slots)
  {
    if slots != [] {
      SlotReqIds(slots[..|slots| - 1]);
      assert SlotReqs(slots)[..|slots| - 1] == SlotReqs(slots[..|slots| - 1]);
    }
  }

  lemma NoSlots(log: Log, next: map<nat, nat>, first: nat)
    ensures SlotsOk(log, 0, next, [], first)
  {
  }

  // ---- One file of a flush ----

  function NewSlots(reqs: seq<Req>, start: nat): (slots: seq<Slot>)
    ensures |slots| == |reqs|
  {
    seq(|reqs|, i requires 0 <= i < |reqs| => Slot(reqs[i], OffsetOf(reqs, start, i)))
  }

  lemma {:induction false} CombinedMono(reqs: seq<Req>, i: nat, j: nat)
    requires i <= j <= |reqs|
    ensures |Combined(reqs[..i])| <= |Combined(reqs[..j])|
    decreases j
  {
    if i < j {
      CombinedMono(reqs, i, j - 1);
      assert reqs[..j][..j - 1] == reqs[..j - 1];
    }
  }

  lemma {:induction false} NewSlotIds(slots: seq<Slot>, reqs: seq<Req>, start: nat, k: nat)
    requires k <= |reqs|
    ensures SlotIds(slots + NewSlots(reqs, start)[..k]) == SlotIds(slots) + IdsOf(reqs[..k])
    decreases k
  {
    hide SlotIds, IdsOf, OffsetOf;
    var added := NewSlots(reqs, start);
    if k == 0 {
      assert slots + added[..0] == slots && reqs[..0] == [];
      NoIds();
    } else {
      NewSlotIds(slots, reqs, start, k - 1);
      assert slots + added[..k] == (slots + added[..k - 1]) + [added[k - 1]];
      SlotsStep(slots + added[..k - 1], added[k - 1]);
      assert reqs[..k] == reqs[..k - 1] + [reqs[k - 1]];
      IdsStep(reqs[..k - 1], reqs[k - 1]);
    }
  }

  ghost predicate NotOf(slots: seq<Slot>, f: nat) {
    forall i :: 0 <= i < |slots| ==> slots[i].req.file != f
  }

  lemma NewSlotBacked(log: Log, reqs: seq<Req>, f: nat, start: nat, i: nat)
    requires i < |reqs| && ToFile(reqs, f)
    ensures SlotBacked(log + [Wrote(f, start, Combined(reqs))], |log|, NewSlots(reqs, start)[i])
    ensures start <= OffsetOf(reqs, start, i) && OffsetOf(reqs, start, i) + |reqs[i].data| == OffsetOf(reqs, start, i + 1)
    ensures OffsetOf(reqs, start, i + 1) <= start + |Combined(reqs)|
  {
    var (log', s) := (log + [Wrote(f, start, Combined(reqs))], NewSlots(reqs, start)[i]);
    CombinedAt(reqs, i);
    assert Writes(log', |log|, f, s.at, s.req.data);
    assert Untouched(log', |log|, f, s.at + |s.req.data|);
  }

  lemma SlotFrom(log: Log, from: nat, from': nat, s: Slot)
    requires SlotBacked(log, from', s) && from <= from'
    ensures SlotBacked(log, from, s)
  {
  }

  lemma NewSlotsOk(log: Log, from: nat, next: map<nat, nat>, reqs: seq<Req>, f: nat, first: nat, end: nat)
    requires f in next && AckedBelow(log, f, next[f]) && from <= |log| && Rising(reqs, first, end) && ToFile(reqs, f)
    ensures var next' := next[f := next[f] + |Combined(reqs)|];
            SlotsOk(log + [Wrote(f, next[f], Combined(reqs))], from, next', NewSlots(reqs, next[f]), first)
  {
    hide Combined, SlotBacked, Writes, Untouched;
    var (start, added) := (next[f], NewSlots(reqs, next[f]));
    var log' := log + [Wrote(f, start, Combined(reqs))];
    forall i | 0 <= i < |added|
      ensures SlotBacked(log', from, added[i]) && start <= added[i].at && added[i].at + |added[i].req.data| <= start + |Combined(reqs)|
    {
      NewSlotBacked(log, reqs, f, start, i);
      SlotFrom(log', from, |log|, added[i]);
    }
    forall i, j | 0 <= i < j < |added| ensures added[i].at + |added[i].req.data| <= added[j].at {
      NewSlotBacked(log, reqs, f, start, i);
      CombinedMono(reqs, i + 1, j);
    }
  }

  lemma OldSlotsOk(log: Log, from: nat, next: map<nat, nat>, slots: seq<Slot>, first: nat, f: nat, e: Event, end: nat)
    requires SlotsOk(log, from, next, slots, first) && NotOf(slots, f) && e.Wrote? && e.file == f
    ensures SlotsOk(log + [e], from, next[f := end], slots, first)
  {
    assert forall q :: 0 <= q < |log| ==> (log + [e])[q] == log[q];
    forall i | 0 <= i < |slots| ensures SlotBacked(log + [e], from, slots[i]) {
      SlotStays(log, from, slots[i], e);
    }
  }

  lemma SlotsJoin(log: Log, from: nat, next: map<nat, nat>, slots: seq<Slot>, added: seq<Slot>, first: nat, f: nat)
    requires SlotsOk(log, from, next, slots, first) && SlotsOk(log, from, next, added, first)
    requires NotOf(slots, f) && forall i :: 0 <= i < |added| ==> added[i].req.file == f
    ensures SlotsOk(log, from, next, slots + added, first)
  {
    hide SlotBacked;
  }

  lemma WriteHistory(log: Log, next: map<nat, nat>, first: nat, f: nat, data: seq<byte>)
    requires History(log, next, first) && f in next
    ensures History(log + [Wrote(f, next[f], data)], next[f := next[f] + |data|], first)
  {
    var e := Wrote(f, next[f], data);
    EventSafe(log, e);
    EventOrdered(log, e);
    assert forall q :: 0 <= q < |log| ==> (log + [e])[q] == log[q];
  }

  /** A group written: its requests wait for the sync. */
  lemma GroupWritten(log: Log, from: nat, next: map<nat, nat>, slots: seq<Slot>, first: nat, end: nat,
                     f: nat, reqs: seq<Req>, rest: seq<Req>, all: multiset<nat>)
    requires History(log, next, first) && SlotsOk(log, from, next, slots, first) && from <= |log|
    requires multiset(Replies(log)) + SlotIds(slots) + IdsOf(reqs) + IdsOf(rest) == all
    requires f in next && NotOf(slots, f) && Rising(reqs, first, end) && ToFile(reqs, f)
    ensures Flushing(log + [Wrote(f, next[f], Combined(reqs))], from, next[f := next[f] + |Combined(reqs)|],
                     slots + NewSlots(reqs, next[f]), first, rest, all)
  {
    hide SlotIds, Replies, IdsOf, SlotsOk, AcksOk, AcksOrdered, Combined;
    var (e, added) := (Wrote(f, next[f], Combined(reqs)), NewSlots(reqs, next[f]));
    var (log', next') := (log + [e], next[f := next[f] + |Combined(reqs)|]);
    WriteHistory(log, next, first, f, Combined(reqs));
    NewSlotsOk(log, from, next, reqs, f, first, end);
    OldSlotsOk(log, from, next, slots, first, f, e, next'[f]);
    SlotsJoin(log', from, next', slots, added, first, f);
    RepliesStep(log, e);
    NewSlotIds(slots, reqs, next[f], |reqs|);
    assert added[..|reqs|] == added && reqs[..|reqs|] == reqs;
    assert Replies(log) + [] == Replies(log);
  }

  lemma GroupFailed(log: Log, from: nat, next: map<nat, nat>, slots: seq<Slot>, first: nat, f: nat, junk: seq<byte>,
                    reqs: seq<Req>, rest: seq<Req>, all: multiset<nat>)
    requires History(log, next, first) && SlotsOk(log, from, next, slots, first) && f in next
    requires multiset(Replies(log)) + SlotIds(slots) + IdsOf(reqs) + IdsOf(rest) == all
    ensures Flushing(log + [WriteFailed(f, next[f], junk)] + Refusals(reqs), from, next, slots, first, rest, all)
  {
    hide History, SlotsOk, SlotIds, Replies, IdsOf, Refusals;
    var e := WriteFailed(f, next[f], junk);
    EventKeeps(log, from, next, slots, first, e);
    RepliesStep(log, e);
    assert Replies(log) + [] == Replies(log);
    RefusalsKeep(log + [e], from, next, slots, first, reqs, rest, all);
  }

  // ---- The committer ----

  function Upto(n: nat): multiset<nat> {
    if n == 0 then multiset{} else Upto(n - 1) + multiset{n - 1}
  }

  /** Grouping by file: order is kept within each group. */
  method GroupByFile(batch: seq<Req>) returns (groups: map<nat, seq<Req>>, level: Durability)
    ensures level == Strongest(batch) && forall f :: f in groups ==> groups[f] == OfFile(batch, f)
    ensures forall i :: 0 <= i < |batch| ==> batch[i].file in groups
  {
    groups, level := map[], Relaxed;
    for i := 0 to |batch|
      invariant level == Strongest(batch[..i])
      invariant forall f :: OfFile(batch[..i], f) == if f in groups then groups[f] else []
      invariant forall j :: 0 <= j < i ==> batch[j].file in groups
    {
      var r := batch[i];
      assert batch[..i + 1][..i] == batch[..i];
      level := Stronger(level, r.durability);
      groups := groups[r.file := (if r.file in groups then groups[r.file] else []) + [r]];
    }
    assert batch[..|batch|] == batch;
  }

  /** The combined buffer of a group and a slot per request. */
  method Place(reqs: seq<Req>, start: nat) returns (slots: seq<Slot>, combined: seq<byte>)
    ensures slots == NewSlots(reqs, start) && combined == Combined(reqs)
  {
    slots, combined := [], [];
    for i := 0 to |reqs|
      invariant slots == NewSlots(reqs, start)[..i] && combined == Combined(reqs[..i])
    {
      assert reqs[..i + 1][..i] == reqs[..i];
      slots := slots + [Slot(reqs[i], start + |combined|)];
      combined := combined + reqs[i].data;
    }
    assert reqs[..|reqs|] == reqs && NewSlots(reqs, start)[..|reqs|] == NewSlots(reqs, start);
  }

  method Refuse(log0: Log, reqs: seq<Req>) returns (log: Log)
    ensures log == log0 + Refusals(reqs)
  {
    log := log0;
    assert reqs[0..] == reqs;
    for i := 0 to |reqs|
      invariant log + Refusals(reqs[i..]) == log0 + Refusals(reqs)
    {
      assert reqs[i..][1..] == reqs[i + 1..];
      log := log + [Refused(reqs[i])];
    }
  }

  function ReplyTo(s: Slot, ok: bool): Event {
    if ok then Acked(s.req, s.at, |s.req.data| % 0x1_0000_0000) else Refused(s.req)
  }

  lemma {:induction false} RepliesAre(slots: seq<Slot>, ok: bool)
    ensures seq(|slots|, i requires 0 <= i < |slots| => ReplyTo(slots[i], ok)) == if ok then Acks(slots) else Refusals(SlotReqs(slots))
  {
    if slots != [] {
      RepliesAre(slots[1..], ok);
      assert SlotReqs(slots)[1..] == SlotReqs(slots[1..]);
      var replies := seq(|slots|, i requires 0 <= i < |slots| => ReplyTo(slots[i], ok));
      assert replies[1..] == seq(|slots[1..]|, i requires 0 <= i < |slots[1..]| => ReplyTo(slots[1..][i], ok));
      assert replies == [replies[0]] + replies[1..];
    }
  }

  method Reply(log0: Log, slots: seq<Slot>, ok: bool) returns (log: Log)
    ensures log == log0 + if ok then Acks(slots) else Refusals(SlotReqs(slots))
  {
    hide Acks, Refusals, SlotReqs;
    log := log0;
    for i := 0 to |slots|
      invariant log == log0 + seq(i, j requires 0 <= j < i => ReplyTo(slots[j], ok))
    {
      log := log + [ReplyTo(slots[i], ok)];
    }
    RepliesAre(slots, ok);
  }

  /** What becomes of one group: refused if its file is detached or its write fails, else written. */
  ghost predicate GroupEffect(log: Log, next: map<nat, nat>, slots: seq<Slot>, f: nat, reqs: seq<Req>, failed: map<nat, seq<byte>>,
                              log': Log, next': map<nat, nat>, slots': seq<Slot>)
  {
    if f !in next then log' == log + Refusals(reqs) && next' == next && slots' == slots
    else if f in failed then
      && log' == log + [WriteFailed(f, next[f], Leftover(failed[f], |Combined(reqs)|))] + Refusals(reqs)
      && next' == next && slots' == slots
    else
      && log' == log + [Wrote(f, next[f], Combined(reqs))]
      && next' == next[f := next[f] + |Combined(reqs)|] && slots' == slots + NewSlots(reqs, next[f])
  }

  /** The write of one group: a detached file, a failed write, or a slot for each request. */
  method WriteGroup(log0: Log, next0: map<nat, nat>, slots0: seq<Slot>, f: nat, reqs: seq<Req>, failed: map<nat, seq<byte>>)
    returns (log: Log, next: map<nat, nat>, slots: seq<Slot>)
    ensures GroupEffect(log0, next0, slots0, f, reqs, failed, log, next, slots)
  {
    log, next, slots := log0, next0, slots0;
    if f !in next {
      log := Refuse(log, reqs);
      return;
    }
    var acks, combined := Place(reqs, next[f]);
    if f in failed {
      log := Refuse(log + [WriteFailed(f, next[f], Leftover(failed[f], |combined|))], reqs);
    } else {
      log := log + [Wrote(f, next[f], combined)];
      next := next[f := next[f] + |combined|];
      slots := slots + acks;
    }
  }

  /** The reply request `r` got. */
  ghost predicate Served(log: Log, r: Req, ok: bool) {
    if ok then exists at :: Acked(r, at, |r.data| % 0x1_0000_0000) in log else Refused(r) in log
  }

  /** The offsets after the groups of all files but those of `todo`. */
  ghost predicate Advanced(next: map<nat, nat>, next': map<nat, nat>, batch: seq<Req>, failed: map<nat, seq<byte>>, todo: set<nat>) {
    && next'.Keys == next.Keys
    && forall f :: f in next ==>
         next'[f] == next[f] + if f in todo || f in failed then 0 else |Combined(OfFile(batch, f))|
  }

  ghost predicate HasSlot(slots: seq<Slot>, r: Req) {
    exists i :: 0 <= i < |slots| && slots[i].req == r
  }

  /** Requests whose file was dealt with wait in a slot or have been refused. */
  ghost predicate Dealt(log: Log, slots: seq<Slot>, batch: seq<Req>, todo: set<nat>, next: map<nat, nat>, failed: map<nat, seq<byte>>) {
    && (forall i :: 0 <= i < |slots| ==> slots[i].req in batch && slots[i].req.file !in todo)
    && (forall r :: r in batch && r.file !in todo ==>
          if r.file in next && r.file !in failed then HasSlot(slots, r) else Refused(r) in log)
  }

  ghost predicate NoAckOutside(log: Log, files: nat) {
    forall p :: 0 <= p < |log| && log[p].Acked? ==> log[p].req.file < files
  }

  lemma UptoStep(n: nat)
    ensures Upto(n + 1) == Upto(n) + multiset{n}
  {
  }

  lemma NothingToDo(next: map<nat, nat>, failed: map<nat, seq<byte>>)
    ensures Advanced(next, next, [], failed, {})
  {
  }

  lemma FlushStart(log: Log, from: nat, next: map<nat, nat>, batch: seq<Req>, first: nat, all: multiset<nat>, failed: map<nat, seq<byte>>, todo: set<nat>)
    requires History(log, next, first) && OneReply(log, [], batch, all)
    requires forall i :: 0 <= i < |batch| ==> batch[i].file in todo
    ensures Flushing(log, from, next, [], first, OfFiles(batch, todo), all)
    ensures Dealt(log, [], batch, todo, next, failed) && Advanced(next, next, batch, failed, todo)
  {
    AllFiles(batch, todo);
    forall f | f in next && f !in todo ensures Combined(OfFile(batch, f)) == [] {
      NoneOfFile(batch, f);
    }
  }

  lemma {:induction false} NoneOfFile(batch: seq<Req>, f: nat)
    requires forall i :: 0 <= i < |batch| ==> batch[i].file != f
    ensures OfFile(batch, f) == []
  {
    if batch != [] {
      NoneOfFile(batch[..|batch| - 1], f);
    }
  }

  lemma {:induction false} OfFileHas(batch: seq<Req>, f: nat)
    ensures forall r :: r in OfFile(batch, f) <==> r in batch && r.file == f
  {
    if batch != [] {
      OfFileHas(batch[..|batch| - 1], f);
      assert forall r :: r in batch <==> r in batch[..|batch| - 1] || r == batch[|batch| - 1];
    }
  }

  lemma {:induction false} RefusalsHave(reqs: seq<Req>, r: Req)
    requires r in reqs
    ensures Refused(r) in Refusals(reqs)
  {
    if reqs[0] != r {
      RefusalsHave(reqs[1..], r);
    }
  }

  lemma {:induction false} AcksHave(slots: seq<Slot>, i: nat)
    requires i < |slots|
    ensures Acked(slots[i].req, slots[i].at, |slots[i].req.data| % 0x1_0000_0000) in Acks(slots)
    decreases i
  {
    if i > 0 {
      AcksHave(slots[1..], i - 1);
    }
  }

  lemma FlushingDone(log: Log, from: nat, next: map<nat, nat>, slots: seq<Slot>, first: nat, end: nat, f: nat, reqs: seq<Req>,
                     rest: seq<Req>, failed: map<nat, seq<byte>>, all: multiset<nat>, log': Log, next': map<nat, nat>, slots': seq<Slot>)
    requires GroupEffect(log, next, slots, f, reqs, failed, log', next', slots') && from <= |log|
    requires History(log, next, first) && SlotsOk(log, from, next, slots, first)
    requires multiset(Replies(log)) + SlotIds(slots) + IdsOf(reqs) + IdsOf(rest) == all
    requires NotOf(slots, f) && Rising(reqs, first, end) && ToFile(reqs, f)
    ensures Flushing(log', from, next', slots', first, rest, all)
  {
    hide History, SlotsOk, SlotIds, Replies, IdsOf, Refusals, OneReply;
    if f !in next {
      RefusalsKeep(log, from, next, slots, first, reqs, rest, all);
    } else if f in failed {
      GroupFailed(log, from, next, slots, first, f, Leftover(failed[f], |Combined(reqs)|), reqs, rest, all);
    } else {
      GroupWritten(log, from, next, slots, first, end, f, reqs, rest, all);
    }
  }

  lemma DealtDone(log: Log, next: map<nat, nat>, slots: seq<Slot>, f: nat, batch: seq<Req>, todo: set<nat>,
                  failed: map<nat, seq<byte>>, log': Log, next': map<nat, nat>, slots': seq<Slot>, next0: map<nat, nat>)
    requires GroupEffect(log, next, slots, f, OfFile(batch, f), failed, log', next', slots')
    requires Dealt(log, slots, batch, todo, next0, failed) && next.Keys == next0.Keys && f in todo
    ensures Dealt(log', slots', batch, todo - {f}, next0, failed)
  {
    hide Combined, OffsetOf, OfFile;
    var reqs := OfFile(batch, f);
    OfFileHas(batch, f);
    forall r | r in batch && r.file !in todo - {f}
      ensures if r.file in next0 && r.file !in failed then HasSlot(slots', r) else Refused(r) in log'
    {
      if r.file == f {
        if f in next0 && f !in failed {
          var i :| 0 <= i < |reqs| && reqs[i] == r;
          assert slots'[|slots| + i].req == r;
        } else {
          RefusalsHave(reqs, r);
        }
      } else if r.file in next0 && r.file !in failed {
        var i :| 0 <= i < |slots| && slots[i].req == r;
        assert slots'[i].req == r;
      }
    }
    forall i | 0 <= i < |slots'| ensures slots'[i].req in batch && slots'[i].req.file !in todo - {f} {
      if i >= |slots| {
        assert slots'[i].req == reqs[i - |slots|];
      }
    }
  }

  lemma AdvancedDone(log: Log, next: map<nat, nat>, slots: seq<Slot>, f: nat, batch: seq<Req>, todo: set<nat>,
                     failed: map<nat, seq<byte>>, log': Log, next': map<nat, nat>, slots': seq<Slot>, next0: map<nat, nat>)
    requires GroupEffect(log, next, slots, f, OfFile(batch, f), failed, log', next', slots')
    requires Advanced(next0, next, batch, failed, todo) && f in todo
    ensures Advanced(next0, next', batch, failed, todo - {f})
  {
    hide Combined, OfFile, Refusals, NewSlots;
  }

  lemma {:induction false} NoAcksInRefusals(reqs: seq<Req>)
    ensures forall p :: 0 <= p < |Refusals(reqs)| ==> Refusals(reqs)[p].Refused?
  {
    if reqs != [] {
      NoAcksInRefusals(reqs[1..]);
    }
  }

  lemma OutsideDone(log: Log, next: map<nat, nat>, slots: seq<Slot>, f: nat, reqs: seq<Req>, failed: map<nat, seq<byte>>,
                    log': Log, next': map<nat, nat>, slots': seq<Slot>, files: nat)
    requires GroupEffect(log, next, slots, f, reqs, failed, log', next', slots') && NoAckOutside(log, files)
    ensures NoAckOutside(log', files) && log <= log' && next'.Keys == next.Keys
  {
    hide Combined, NewSlots, Refusals;
    NoAcksInRefusals(reqs);
    assert forall p :: 0 <= p < |log| ==> log'[p] == log[p];
  }

  lemma GroupDone(log: Log, from: nat, next: map<nat, nat>, slots: seq<Slot>, first: nat, end: nat, f: nat, batch: seq<Req>,
                  todo: set<nat>, next0: map<nat, nat>, failed: map<nat, seq<byte>>, all: multiset<nat>,
                  log': Log, next': map<nat, nat>, slots': seq<Slot>, files: nat)
    requires GroupEffect(log, next, slots, f, OfFile(batch, f), failed, log', next', slots') && from <= |log|
    requires Flushing(log, from, next, slots, first, OfFiles(batch, todo), all) && Rising(batch, first, end) && f in todo
    requires Dealt(log, slots, batch, todo, next0, failed) && Advanced(next0, next, batch, failed, todo) && NoAckOutside(log, files)
    ensures Flushing(log', from, next', slots', first, OfFiles(batch, todo - {f}), all)
    ensures Dealt(log', slots', batch, todo - {f}, next0, failed) && Advanced(next0, next', batch, failed, todo - {f})
    ensures NoAckOutside(log', files) && log <= log' && next'.Keys == next0.Keys
  {
    hide GroupEffect, History, SlotsOk, SlotIds, Replies, IdsOf, NoAckOutside;
    assert NotOf(slots, f);
    IdsSplit(batch, todo, f);
    OfFileRising(batch, f, first, end);
    FlushingDone(log, from, next, slots, first, end, f, OfFile(batch, f), OfFiles(batch, todo - {f}), failed, all, log', next', slots');
    DealtDone(log, next, slots, f, batch, todo, failed, log', next', slots', next0);
    AdvancedDone(log, next, slots, f, batch, todo, failed, log', next', slots', next0);
    OutsideDone(log, next, slots, f, OfFile(batch, f), failed, log', next', slots', files);
  }

  lemma HistoryLater(log: Log, next: map<nat, nat>, first: nat, end: nat)
    requires History(log, next, first) && first <= end
    ensures History(log, next, end)
  {
  }

  lemma AckedEarlier(log: Log, from: nat, next: map<nat, nat>, slots: seq<Slot>, first: nat)
    requires History(log, next, first) && SlotsOk(log, from, next, slots, first)
    ensures AckedFirst(log, slots)
  {
  }

  /** The sync, or its absence where none is needed, leaves the slots ready to be acknowledged. */
  lemma SyncDone(log: Log, from: nat, level: Durability)
    requires from <= |log|
    ensures SyncedAfter(log + [Synced(level)], from, level) && (level == Relaxed ==> SyncedAfter(log, from, level))
  {
    assert (log + [Synced(level)])[|log|].Synced?;
  }

  lemma SlotBounds(slots: seq<Slot>, batch: seq<Req>, first: nat, end: nat)
    requires Rising(batch, first, end) && forall i :: 0 <= i < |slots| ==> slots[i].req in batch
    ensures forall i :: 0 <= i < |slots| ==> slots[i].req.id < end && Rank(slots[i].req.durability) <= Rank(Strongest(batch))
  {
    forall i | 0 <= i < |slots|
      ensures slots[i].req.id < end && Rank(slots[i].req.durability) <= Rank(Strongest(batch))
    {
      var j :| 0 <= j < |batch| && batch[j] == slots[i].req;
      StrongestCovers(batch, j);
    }
  }

  /** All waiting slots replied to. */
  lemma RepliesEnd(log: Log, waiting: Log, from: nat, next: map<nat, nat>, slots: seq<Slot>, first: nat, end: nat, batch: seq<Req>,
                   all: multiset<nat>, synced: bool, ok: bool)
    requires Flushing(log, from, next, slots, first, [], all) && Rising(batch, first, end) && from <= |log| && first <= end
    requires forall i :: 0 <= i < |slots| ==> slots[i].req in batch
    requires var level := Strongest(batch);
             if level != Relaxed && slots != [] then ok == synced && waiting == log + [if synced then Synced(level) else SyncFailed(level)]
             else ok && waiting == log
    ensures var log' := waiting + if ok then Acks(slots) else Refusals(SlotReqs(slots));
            History(log', next, end) && multiset(Replies(log')) == all
  {
    hide History, SlotsOk, SlotIds, Replies, IdsOf, AckedFirst, SyncedAfter, Strongest, Refusals, Acks, SlotReqs;
    var level := Strongest(batch);
    NoIds();
    if slots == [] {
      HistoryLater(log, next, first, end);
      NoReplies(waiting);
    } else {
      if level != Relaxed {
        var e := if synced then Synced(level) else SyncFailed(level);
        EventKeeps(log, from, next, slots, first, e);
        RepliesStep(log, e);
        assert Replies(log) + [] == Replies(log);
      }
      SyncDone(log, from, level);
      SlotBounds(slots, batch, first, end);
      AckedEarlier(waiting, from, next, slots, first);
      HistoryLater(waiting, next, first, end);
      if ok {
        AcksKeep(waiting, from, next, slots, first, end, level, all);
      } else {
        SlotRefusals(waiting, next, slots, end, all);
      }
    }
  }

  lemma NoReplies(log: Log)
    ensures log + Acks([]) == log && log + Refusals(SlotReqs([])) == log
  {
  }

  lemma ServedEnd(log: Log, waiting: Log, slots: seq<Slot>, batch: seq<Req>, next: map<nat, nat>, failed: map<nat, seq<byte>>, ok: bool, i: nat)
    requires Dealt(log, slots, batch, {}, next, failed) && log <= waiting && i < |batch|
    ensures var r := batch[i];
            var log' := waiting + if ok then Acks(slots) else Refusals(SlotReqs(slots));
            Served(log', r, r.file in next && r.file !in failed && ok)
  {
    hide Acks, Refusals;
    var r := batch[i];
    if r.file in next && r.file !in failed {
      var j :| 0 <= j < |slots| && slots[j].req == r;
      if ok {
        AcksHave(slots, j);
      } else {
        assert SlotReqs(slots)[j] == r;
        RefusalsHave(SlotReqs(slots), r);
      }
    } else {
      assert Refused(r) in log;
      assert Refused(r) in waiting;
    }
  }

  lemma {:induction false} AcksOf(slots: seq<Slot>, p: nat)
    requires p < |Acks(slots)|
    ensures Acks(slots)[p].Acked? && Acks(slots)[p].req == slots[p].req
    decreases p
  {
    if p > 0 {
      AcksOf(slots[1..], p - 1);
    }
  }

  lemma {:induction false} OutsideEnd(waiting: Log, slots: seq<Slot>, ok: bool, files: nat)
    requires NoAckOutside(waiting, files) && forall i :: 0 <= i < |slots| ==> slots[i].req.file < files
    ensures NoAckOutside(waiting + if ok then Acks(slots) else Refusals(SlotReqs(slots)), files)
  {
    hide Acks, Refusals;
    var log' := waiting + if ok then Acks(slots) else Refusals(SlotReqs(slots));
    NoAcksInRefusals(SlotReqs(slots));
    forall p | 0 <= p < |log'| && log'[p].Acked? ensures log'[p].req.file < files {
      if p < |waiting| {
        assert log'[p] == waiting[p];
      } else if ok {
        AcksOf(slots, p - |waiting|);
      }
    }
  }

  /** A flush done: no slot is left. */
  lemma FlushEnd(log: Log, waiting: Log, log': Log, from: nat, next': map<nat, nat>, slots: seq<Slot>, first: nat, end: nat,
                 batch: seq<Req>, next: map<nat, nat>, o: Outcome, level: Durability, ok: bool, files: nat)
    requires Flushing(log, from, next', slots, first, OfFiles(batch, {}), Upto(end)) && from <= |log| && first <= end
    requires Rising(batch, first, end) && Dealt(log, slots, batch, {}, next, o.failed) && level == Strongest(batch)
    requires NoAckOutside(log, files) && forall i :: 0 <= i < |batch| ==> batch[i].file < files
    requires if level != Relaxed && slots != [] then ok == o.synced && waiting == log + [if o.synced then Synced(level) else SyncFailed(level)]
             else ok && waiting == log
    requires log' == waiting + if ok then Acks(slots) else Refusals(SlotReqs(slots))
    ensures History(log', next', end) && OneReply(log', [], [], Upto(end)) && NoAckOutside(log', files)
    ensures forall i :: 0 <= i < |batch| ==>
              var r := batch[i];
              Served(log', r, r.file in next && r.file !in o.failed && (o.synced || level == Relaxed))
  {
    hide History, SlotsOk, Replies, Strongest, Refusals, Acks, SlotReqs, Upto, Served;
    NoFiles(batch);
    assert forall i :: 0 <= i < |slots| ==> slots[i].req in batch;
    RepliesEnd(log, waiting, from, next', slots, first, end, batch, Upto(end), o.synced, ok);
    assert OneReply(log', [], [], Upto(end)) by { NoIds(); }
    OutsideEnd(waiting, slots, ok, files);
    forall i | 0 <= i < |batch|
      ensures var r := batch[i]; Served(log', r, r.file in next && r.file !in o.failed && (o.synced || level == Relaxed))
    {
      ServedEnd(log, waiting, slots, batch, next, o.failed, ok, i);
    }
  }

  /** `flush_batch` of a non-empty batch. */
  method FlushFiles(log0: Log, next0: map<nat, nat>, batch: seq<Req>, ghost first: nat, ghost end: nat, ghost files: nat, o: Outcome)
    returns (log: Log, next: map<nat, nat>)
    requires first <= end && Rising(batch, first, end) && History(log0, next0, first) && OneReply(log0, [], batch, Upto(end))
    requires NoAckOutside(log0, files) && forall i :: 0 <= i < |batch| ==> batch[i].file < files
    ensures History(log, next, end) && OneReply(log, [], [], Upto(end)) && NoAckOutside(log, files) && log0 <= log
    ensures Advanced(next0, next, batch, o.failed, {})
    ensures forall i :: 0 <= i < |batch| ==>
              var r := batch[i];
              Served(log, r, r.file in next0 && r.file !in o.failed && (o.synced || Strongest(batch) == Relaxed))
  {
    hide History, SlotsOk, OneReply, Dealt, Advanced, Served, GroupEffect, OfFile, OfFiles, Strongest, Upto, Refusals, Acks, NoAckOutside, Rising;
    var groups, level := GroupByFile(batch);
    var todo, slots := groups.Keys, [];
    log, next := log0, next0;
    ghost var from := |log0|;
    FlushStart(log, from, next, batch, first, Upto(end), o.failed, todo);
    while todo != {}
      invariant todo <= groups.Keys && from <= |log| && log0 <= log
      invariant Flushing(log, from, next, slots, first, OfFiles(batch, todo), Upto(end))
      invariant Dealt(log, slots, batch, todo, next0, o.failed) && Advanced(next0, next, batch, o.failed, todo)
      invariant NoAckOutside(log, files)
    {
      var f :| f in todo;
      var log', next', slots' := WriteGroup(log, next, slots, f, groups[f], o.failed);
      GroupDone(log, from, next, slots, first, end, f, batch, todo, next0, o.failed, Upto(end), log', next', slots', files);
      log, next, slots, todo := log', next', slots', todo - {f};
    }
    var ok := true;
    ghost var unsynced := log;
    if level != Relaxed && slots != [] {
      ok := o.synced;
      log := log + [if o.synced then Synced(level) else SyncFailed(level)];
    }
    ghost var waiting := log;
    log := Reply(log, slots, ok);
    FlushEnd(unsynced, waiting, log, from, next, slots, first, end, batch, next0, o, level, ok, files);
  }

  datatype Msg =
    | AttachFile(initial: nat)
    | DetachFile(file: nat)
    | AppendTo(file: nat, data: seq<byte>, durability: Durability, outcome: Outcome)
    | Flush(outcome: Outcome)
    | Timer(outcome: Outcome)

  function Attached(msgs: seq<Msg>): nat {
    if msgs == [] then 0 else Attached(msgs[..|msgs| - 1]) + if msgs[|msgs| - 1].AttachFile? then 1 else 0
  }

  function Appended(msgs: seq<Msg>): nat {
    if msgs == [] then 0 else Appended(msgs[..|msgs| - 1]) + if msgs[|msgs| - 1].AppendTo? then 1 else 0
  }

  lemma NoCounts()
    ensures Attached([]) == 0 && Appended([]) == 0
  {
  }

  lemma CountsStep(msgs: seq<Msg>, i: nat)
    requires i < |msgs|
    ensures Attached(msgs[..i + 1]) == Attached(msgs[..i]) + (if msgs[i].AttachFile? then 1 else 0)
    ensures Appended(msgs[..i + 1]) == Appended(msgs[..i]) + if msgs[i].AppendTo? then 1 else 0
  {
    assert msgs[..i + 1][..i] == msgs[..i];
  }

  /** Appends come from holders of an entry, and `attach` hands those out. */
  ghost predicate Known(msgs: seq<Msg>) {
    forall i :: 0 <= i < |msgs| && msgs[i].AppendTo? ==> msgs[i].file < Attached(msgs[..i])
  }

  /** `committer_loop` and its `flush_batch`. */
  class Committer {
    /** The registry: the next offset of each attached file. */
    var next: map<nat, nat>
    var batch: seq<Req>
    var batchBytes: nat
    var submitted: nat
    var nextFile: nat
    var log: Log

    ghost predicate Valid()
      reads this
    {
      && |batch| <= submitted && Rising(batch, submitted - |batch|, submitted) && History(log, next, submitted - |batch|)
      && OneReply(log, [], batch, Upto(submitted))
      && (forall f :: f in next ==> f < nextFile)
      && (forall i :: 0 <= i < |batch| ==> batch[i].file < nextFile)
      && (forall p :: 0 <= p < |log| && log[p].Acked? ==> log[p].req.file < nextFile)
    }

    constructor ()
      ensures Valid() && log == []
    {
      next, batch, batchBytes, submitted, nextFile, log := map[], [], 0, 0, 0, [];
    }

    /** A file is registered under an id never used before. */
    method Attach(initial: nat) returns (f: nat)
      requires Valid()
      modifies this
      ensures Valid() && f !in old(next) && next == old(next)[f := initial] && log == old(log) && batch == old(batch)
      ensures nextFile == old(nextFile) + 1 && submitted == old(submitted)
    {
      f := nextFile;
      next, nextFile := next[f := initial], nextFile + 1;
    }

    /** A file with requests in the batch stays registered. */
    method Detach(f: nat)
      requires Valid()
      modifies this`next
      ensures Valid()
      ensures next == if exists i :: 0 <= i < |batch| && batch[i].file == f then old(next) else old(next) - {f}
    {
      if forall i :: 0 <= i < |batch| ==> batch[i].file != f {
        next := next - {f};
      }
    }

    /** One flush. Each registered file that was written moves its offset past its group, even if the
        sync then fails; every request gets its reply, and exactly those whose file was written and
        synced are acknowledged. */
    method FlushBatch(o: Outcome)
      requires Valid()
      modifies this`next, this`batch, this`log
      ensures Valid() && batch == [] && old(log) <= log
      ensures Advanced(old(next), next, old(batch), o.failed, {})
      ensures forall i :: 0 <= i < |old(batch)| ==>
                var r := old(batch)[i];
                Served(log, r, r.file in old(next) && r.file !in o.failed && (o.synced || Strongest(old(batch)) == Relaxed))
    {
      hide History, OneReply, Served, Strongest, Upto, Combined, OfFile;
      if batch == [] {
        assert Advanced(next, next, [], o.failed, {}) by { NothingToDo(next, o.failed); }
        return;
      }
      log, next := FlushFiles(log, next, batch, submitted - |batch|, submitted, nextFile, o);
      batch := [];
    }

    method Append(f: nat, data: seq<byte>, durability: Durability, o: Outcome)
      requires Valid() && f < nextFile
      modifies this
      ensures Valid() && submitted == old(submitted) + 1 && nextFile == old(nextFile) && old(log) <= log
      ensures batch == [] || batch == old(batch) + [Req(old(submitted), f, data, durability)]
    {
      hide History, Upto, IdsOf, Replies, Advanced, Served, Combined;
      var r := Req(submitted, f, data, durability);
      assert IdsOf(batch + [r]) == IdsOf(batch) + multiset{submitted} && Upto(submitted + 1) == Upto(submitted) + multiset{submitted} by {
        IdsStep(batch, r);
        UptoStep(submitted);
      }
      batchBytes := batchBytes + |data|;
      batch, submitted := batch + [r], submitted + 1;
      if |batch| >= MAX_BATCH_ENTRIES || batchBytes >= MAX_BATCH_BYTES {
        FlushBatch(o);
        batchBytes := 0;
      }
    }

    /** One message, or the timer. */
    method Handle(m: Msg)
      requires Valid() && (m.AppendTo? ==> m.file < nextFile)
      modifies this
      ensures Valid() && old(log) <= log
      ensures nextFile == old(nextFile) + (if m.AttachFile? then 1 else 0)
      ensures submitted == old(submitted) + if m.AppendTo? then 1 else 0
    {
      hide History, OneReply, Rising, Advanced, Served, Combined, Strongest, Upto;
      match m {
        case AttachFile(initial) =>
          var f := Attach(initial);
        case DetachFile(f) =>
          Detach(f);
        case AppendTo(f, data, durability, outcome) =>
          Append(f, data, durability, outcome);
        case Flush(outcome) =>
          FlushBatch(outcome);
          batchBytes := 0;
        case Timer(outcome) =>
          if batch != [] {
            FlushBatch(outcome);
            batchBytes := 0;
          }
      }
    }

    /** The loop, from its start to the last message: each append gets exactly one reply, and the history
        is safe: acknowledged bytes stay, in order, synced as strongly as asked. */
    method Serve(msgs: seq<Msg>, last: Outcome)
      requires Valid() && log == [] && batch == [] && batchBytes == 0 && submitted == 0 && nextFile == 0 && Known(msgs)
      modifies this
      ensures AcksOk(log) && AcksOrdered(log) && batch == []
      ensures multiset(Replies(log)) == Upto(Appended(msgs))
    {
      hide History, OneReply, Rising, Advanced, Served, Combined, Strongest, Upto, Attached, Appended, AcksOk, AcksOrdered, Replies;
      NoCounts();
      assert msgs[..0] == [];
      for i := 0 to |msgs|
        invariant Valid() && nextFile == Attached(msgs[..i]) && submitted == Appended(msgs[..i])
      {
        CountsStep(msgs, i);
        Handle(msgs[i]);
      }
      assert msgs[..|msgs|] == msgs;
      FlushBatch(last);
      AllReplied(log, next, submitted);
    }
  }

  lemma AllReplied(log: Log, next: map<nat, nat>, first: nat)
    requires History(log, next, first) && OneReply(log, [], [], Upto(first))
    ensures AcksOk(log) && AcksOrdered(log) && multiset(Replies(log)) == Upto(first)
  {
    hide Replies, Upto, SlotIds, IdsOf, AcksOk, AcksOrdered;
    NoIds();
  }
}
