/** The per-file group committer: `group_commit.rs`. */
module GroupCommit {
  import opened Bytes
  import opened CommitLog

  /** What the disk does to one flush: a failed write leaves `junk`, then the sync may fail. */
  datatype Outcome = Outcome(wrote: bool, junk: seq<byte>, synced: bool)

  /** What a committer finds in its inbox, or the timer, with the fate of the flush it may cause. */
  datatype Msg =
    | Write(data: seq<byte>, durability: Durability, outcome: Outcome)
    | Flush(outcome: Outcome)
    | Timer(outcome: Outcome)

  function WriteCount(msgs: seq<Msg>): nat {
    if msgs == [] then 0 else WriteCount(msgs[..|msgs| - 1]) + if msgs[|msgs| - 1].Write? then 1 else 0
  }

  function Upto(n: nat): seq<nat> {
    seq(n, i => i)
  }

  /** A safe history whose acknowledged bytes end by `end` and whose replies went to the first
      `replied` requests, in order, one each. */
  ghost predicate History(log: Log, end: nat, replied: nat) {
    && AcksOk(log) && AcksOrdered(log) && AckedBelow(log, 0, end) && Replies(log) == Upto(replied)
    && forall p :: 0 <= p < |log| && log[p].Acked? ==> log[p].req.file == 0 && log[p].req.id < replied
  }

  lemma AllReplied(log: Log, end: nat, replied: nat)
    requires History(log, end, replied)
    ensures AcksOk(log) && AcksOrdered(log) && Replies(log) == Upto(replied)
  {
  }

  lemma DiskEvent(log: Log, end: nat, replied: nat, e: Event)
    requires History(log, end, replied) && !e.Acked? && !e.Refused? && forall f :: Touches(e, f) ==> e.offset == end
    ensures History(log + [e], end, replied)
  {
    forall f | Touches(e, f) ensures AckedBelow(log, f, e.offset) {
    }
    EventSafe(log, e);
    EventOrdered(log, e);
    RepliesStep(log, e);
    assert Replies(log) + [] == Replies(log);
  }

  lemma RefuseEvent(log: Log, end: nat, r: Req)
    requires History(log, end, r.id)
    ensures History(log + [Refused(r)], end, r.id + 1)
  {
    var e := Refused(r);
    EventSafe(log, e);
    EventOrdered(log, e);
    RepliesStep(log, e);
    assert Upto(r.id) + [r.id] == Upto(r.id + 1);
  }

  lemma AckEvent(log: Log, end: nat, r: Req, w: nat)
    requires History(log, end, r.id) && r.file == 0 && w < |log| && Writes(log, w, 0, end, r.data)
    requires Untouched(log, w, 0, end + |r.data|) && SyncedSince(log, w, |log|, r.durability)
    ensures History(log + [Acked(r, end, |r.data| % 0x1_0000_0000)], end + |r.data|, r.id + 1)
  {
    var e := Acked(r, end, |r.data| % 0x1_0000_0000);
    AckSafe(log, r, end, w);
    RepliesStep(log, e);
    assert Upto(r.id) + [r.id] == Upto(r.id + 1);
    assert AcksOrdered(log + [e]) by {
      assert forall p :: 0 <= p < |log| ==> (log + [e])[p] == log[p];
    }
  }

  /** The group `batch` has been written at `start` by event `w`, synced as strongly as any of it asked
      for, and nothing was written since. */
  ghost predicate Ready(log: Log, w: nat, batch: seq<Req>, start: nat) {
    && w < |log| && log[w] == Wrote(0, start, Combined(batch)) && SyncedSince(log, w, |log|, Strongest(batch))
    && forall q :: w < q < |log| ==> !Touches(log[q], 0)
  }

  lemma ReadyMore(log: Log, w: nat, batch: seq<Req>, start: nat, e: Event)
    requires Ready(log, w, batch, start) && !Touches(e, 0)
    ensures Ready(log + [e], w, batch, start)
  {
    var log' := log + [e];
    assert forall q :: 0 <= q < |log| ==> log'[q] == log[q];
    if Strongest(batch) != Relaxed {
      var y :| w < y < |log| && log[y].Synced? && Rank(log[y].level) >= Rank(Strongest(batch));
      assert log'[y].Synced?;
    }
  }

  /** Request `i` of a ready group may be acknowledged. */
  lemma ReadyAck(log: Log, w: nat, batch: seq<Req>, start: nat, i: nat)
    requires Ready(log, w, batch, start) && i < |batch|
    ensures var at := OffsetOf(batch, start, i);
            && Writes(log, w, 0, at, batch[i].data) && Untouched(log, w, 0, at + |batch[i].data|)
            && SyncedSince(log, w, |log|, batch[i].durability)
            && at + |batch[i].data| == OffsetOf(batch, start, i + 1)
  {
    CombinedAt(batch, i);
    StrongestCovers(batch, i);
    if batch[i].durability != Relaxed {
      var y :| w < y < |log| && log[y].Synced? && Rank(log[y].level) >= Rank(Strongest(batch));
      assert Rank(log[y].level) >= Rank(batch[i].durability);
    }
  }

  /** The write and the sync of a group leave it ready. */
  lemma GroupReady(was: Log, log: Log, batch: seq<Req>, start: nat)
    requires var w := was + [Wrote(0, start, Combined(batch))];
             log == if Strongest(batch) == Relaxed then w else w + [Synced(Strongest(batch))]
    ensures Ready(log, |was|, batch, start)
  {
    if Strongest(batch) != Relaxed {
      assert log[|was| + 1] == Synced(Strongest(batch));
    }
  }

  /** The first `k` requests have been acknowledged at their offsets. */
  ghost predicate AllAcked(log: Log, reqs: seq<Req>, start: nat, k: nat)
    requires k <= |reqs|
  {
    forall i :: 0 <= i < k ==> Acked(reqs[i], OffsetOf(reqs, start, i), |reqs[i].data| % 0x1_0000_0000) in log
  }

  lemma NoneAcked(log: Log, reqs: seq<Req>, start: nat)
    ensures AllAcked(log, reqs, start, 0)
  {
  }

  lemma AckedMore(log: Log, reqs: seq<Req>, start: nat, k: nat, e: Event)
    requires k < |reqs| && AllAcked(log, reqs, start, k)
    requires e == Acked(reqs[k], OffsetOf(reqs, start, k), |reqs[k].data| % 0x1_0000_0000)
    ensures AllAcked(log + [e], reqs, start, k + 1)
  {
    assert forall x :: x in log ==> x in log + [e];
    assert e in log + [e];
  }

  lemma OffsetEnds(reqs: seq<Req>, start: nat)
    ensures OffsetOf(reqs, start, 0) == start && OffsetOf(reqs, start, |reqs|) == start + |Combined(reqs)|
  {
    assert reqs[..0] == [] && reqs[..|reqs|] == reqs;
  }

  /** A flush acknowledges its group: the write succeeded, and so did the sync if one was needed. */
  predicate Succeeds(batch: seq<Req>, o: Outcome) {
    o.wrote && (o.synced || Strongest(batch) == Relaxed)
  }

  /** The first loop of `flush_batch`: sequential offsets and the strongest durability. */
  method Gather(batch: seq<Req>, start: nat) returns (chunks: seq<byte>, offsets: seq<nat>, pos: nat, level: Durability)
    ensures chunks == Combined(batch) && level == Strongest(batch) && pos == start + |chunks|
    ensures |offsets| == |batch| && forall j :: 0 <= j < |batch| ==> offsets[j] == OffsetOf(batch, start, j)
  {
    chunks, offsets, pos, level := [], [], start, Relaxed;
    for i := 0 to |batch|
      invariant chunks == Combined(batch[..i]) && level == Strongest(batch[..i]) && pos == start + |chunks|
      invariant |offsets| == i && forall j :: 0 <= j < i ==> offsets[j] == OffsetOf(batch, start, j)
    {
      assert batch[..i + 1][..i] == batch[..i];
      offsets := offsets + [pos];
      pos := pos + |batch[i].data|;
      level := Stronger(level, batch[i].durability);
      chunks := chunks + batch[i].data;
    }
    assert batch[..|batch|] == batch;
  }

  /** Requests numbered from `first`, all to the one file. */
  ghost predicate Numbered(batch: seq<Req>, first: nat) {
    forall i :: 0 <= i < |batch| ==> batch[i].id == first + i && batch[i].file == 0
  }

  /** `committer_task` and its `flush_batch`; `log` is the history of the file and the replies. */
  class Committer {
    var offset: nat
    var batch: seq<Req>
    var batchBytes: nat
    var submitted: nat
    var log: Log

    ghost predicate Valid()
      reads this
    {
      && |batch| <= submitted && Numbered(batch, submitted - |batch|) && History(log, offset, submitted - |batch|)
    }

    constructor (start: nat)
      ensures Valid() && offset == start && submitted == 0 && log == []
    {
      offset, batch, batchBytes, submitted, log := start, [], 0, 0, [];
    }

    /** One flush. The offset moves past the group exactly when both the write and the sync it needs
        succeed; every request of the group gets its reply; the history only grows. */
    method FlushBatch(o: Outcome)
      requires Valid()
      modifies this`offset, this`batch, this`log
      ensures Valid() && batch == [] && old(log) <= log
      ensures offset == old(offset) + if Succeeds(old(batch), o) then |Combined(old(batch))| else 0
      ensures Succeeds(old(batch), o) ==> AllAcked(log, old(batch), old(offset), |old(batch)|)
    {
      hide History, Ready, AllAcked;
      if batch == [] {
        assert AllAcked(log, batch, offset, 0) by { NoneAcked(log, batch, offset); }
        return;
      }
      var chunks, offsets, pos, level := Gather(batch, offset);
      ghost var (w, first) := (|log|, submitted - |batch|);
      var e := if o.wrote then Wrote(0, offset, chunks) else WriteFailed(0, offset, Leftover(o.junk, |chunks|));
      DiskEvent(log, offset, first, e);
      log := log + [e];
      if o.wrote && level != Relaxed {
        var s := if o.synced then Synced(level) else SyncFailed(level);
        DiskEvent(log, offset, first, s);
        log := log + [s];
      }
      if o.wrote && (o.synced || level == Relaxed) {
        GroupReady(old(log), log, batch, offset);
        AckAll(w, offsets);
        offset := pos;
      } else {
        RefuseAll();
      }
    }

    /** The replies of a group that succeeded. */
    method AckAll(ghost w: nat, offsets: seq<nat>)
      requires |batch| <= submitted && Numbered(batch, submitted - |batch|) && Ready(log, w, batch, offset)
      requires History(log, offset, submitted - |batch|)
      requires |offsets| == |batch| && forall j :: 0 <= j < |batch| ==> offsets[j] == OffsetOf(batch, offset, j)
      modifies this`batch, this`log
      ensures batch == [] && old(log) <= log
      ensures History(log, offset + |Combined(old(batch))|, submitted)
      ensures AllAcked(log, old(batch), offset, |old(batch)|)
    {
      hide History, Ready, AllAcked, Combined;
      ghost var (reqs, first) := (batch, submitted - |batch|);
      var done := 0;
      OffsetEnds(reqs, offset);
      NoneAcked(log, reqs, offset);
      while batch != []
        invariant done + |batch| == |reqs| && batch == reqs[done..]
        invariant Ready(log, w, reqs, offset) && old(log) <= log
        invariant History(log, OffsetOf(reqs, offset, done), first + done)
        invariant AllAcked(log, reqs, offset, done)
        decreases |batch|
      {
        var r := batch[0];
        var e := Acked(r, offsets[done], |r.data| % 0x1_0000_0000);
        ReadyAck(log, w, reqs, offset, done);
        AckEvent(log, offsets[done], r, w);
        ReadyMore(log, w, reqs, offset, e);
        AckedMore(log, reqs, offset, done, e);
        batch, log, done := batch[1..], log + [e], done + 1;
      }
    }

    /** The replies of a group that failed. */
    method RefuseAll()
      requires |batch| <= submitted && Numbered(batch, submitted - |batch|) && History(log, offset, submitted - |batch|)
      modifies this`batch, this`log
      ensures batch == [] && old(log) <= log && History(log, offset, submitted)
    {
      while batch != []
        invariant |batch| <= submitted && Numbered(batch, submitted - |batch|) && History(log, offset, submitted - |batch|)
        invariant old(log) <= log
        decreases |batch|
      {
        RefuseEvent(log, offset, batch[0]);
        log := log + [Refused(batch[0])];
        batch := batch[1..];
      }
    }

    /** One message: flushing on size, on request and on the timer. */
    method Handle(msg: Msg)
      requires Valid() && batchBytes == |Combined(batch)|
      modifies this
      ensures Valid() && batchBytes == |Combined(batch)| && old(log) <= log
      ensures submitted == old(submitted) + if msg.Write? then 1 else 0
    {
      hide History, AllAcked;
      match msg {
        case Write(data, durability, outcome) =>
          var r := Req(submitted, 0, data, durability);
          assert (batch + [r])[..|batch|] == batch;
          batchBytes := batchBytes + |data|;
          batch, submitted := batch + [r], submitted + 1;
          if batchBytes >= MAX_BATCH_BYTES || |batch| >= MAX_BATCH_ENTRIES {
            FlushBatch(outcome);
            batchBytes := 0;
          }
        case Flush(outcome) =>
          FlushBatch(outcome);
          batchBytes := 0;
        case Timer(outcome) =>
          if batch != [] {
            FlushBatch(outcome);
            batchBytes := 0;
          }
      }
    }

    /** `committer_task`: one message at a time, and a last flush at the end. */
    method Serve(msgs: seq<Msg>, last: Outcome)
      requires Valid() && batch == [] && batchBytes == 0
      modifies this
      ensures Valid() && batch == [] && old(log) <= log && submitted == old(submitted) + WriteCount(msgs)
      ensures AcksOk(log) && AcksOrdered(log) && Replies(log) == Upto(submitted)
    {
      hide History, AllAcked, AcksOk, AcksOrdered, Replies, Upto, Numbered;
      for i := 0 to |msgs|
        invariant Valid() && old(log) <= log && submitted == old(submitted) + WriteCount(msgs[..i])
        invariant batchBytes == |Combined(batch)|
      {
        assert msgs[..i + 1][..i] == msgs[..i];
        Handle(msgs[i]);
      }
      assert msgs[..|msgs|] == msgs;
      FlushBatch(last);
      AllReplied(log, offset, submitted);
    }
  }
}
