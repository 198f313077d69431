/** What the committers do to files and to their clients, as a history of events, and what makes such
    a history safe. Shared by the per-file and the device-global committer. */
module CommitLog {
  import opened Bytes

  datatype Durability = Relaxed | Kernel | Power

  function Rank(d: Durability): nat {
    match d
    case Relaxed => 0
    case Kernel => 1
    case Power => 2
  }

  function Stronger(a: Durability, b: Durability): Durability {
    if Rank(a) < Rank(b) then b else a
  }

  /** A failed write of `n` bytes touches no more than its range. */
  function Leftover(junk: seq<byte>, n: nat): (left: seq<byte>)
    ensures |left| <= n
  {
    if |junk| <= n then junk else junk[..n]
  }

  const MAX_BATCH_BYTES: nat := 256 * 1024
  const MAX_BATCH_ENTRIES: nat := 256

  /** A request: `id` is its place in the order of submission. */
  datatype Req = Req(id: nat, file: nat, data: seq<byte>, durability: Durability)

  /** `WriteFailed` leaves arbitrary bytes `junk` in the range it was to write. `Acked` is the reply
      `Ok((offset, size))` to request `req`, `Refused` the reply `Err`. */
  datatype Event =
    | Wrote(file: nat, offset: nat, data: seq<byte>)
    | WriteFailed(file: nat, offset: nat, junk: seq<byte>)
    | Synced(level: Durability)
    | SyncFailed(level: Durability)
    | Acked(req: Req, at: nat, size: nat)
    | Refused(req: Req)

  type Log = seq<Event>

  predicate Touches(e: Event, f: nat) {
    (e.Wrote? || e.WriteFailed?) && e.file == f
  }

  // ---- Safe histories ----

  /** Event `w` wrote `data` at `at` of file `f`. */
  predicate Writes(log: Log, w: nat, f: nat, at: nat, data: seq<byte>) {
    && w < |log| && log[w].Wrote? && log[w].file == f && log[w].offset <= at
    && at + |data| <= log[w].offset + |log[w].data|
    && log[w].data[at - log[w].offset..at - log[w].offset + |data|] == data
  }

  /** No later write to the file, successful or not, starts below `end`. */
  ghost predicate Untouched(log: Log, w: nat, f: nat, end: nat) {
    forall q :: w < q < |log| && Touches(log[q], f) ==> log[q].offset >= end
  }

  ghost predicate SyncedSince(log: Log, w: nat, p: nat, d: Durability)
    requires p <= |log|
  {
    d == Relaxed || exists y :: w < y < p && log[y].Synced? && Rank(log[y].level) >= Rank(d)
  }

  ghost predicate Backs(log: Log, w: nat, p: nat)
    requires p < |log| && log[p].Acked?
  {
    var e := log[p];
    && w < p && Writes(log, w, e.req.file, e.at, e.req.data)
    && Untouched(log, w, e.req.file, e.at + |e.req.data|) && SyncedSince(log, w, p, e.req.durability)
  }

  /** The acknowledgement `p` was preceded by the write of its bytes, nothing has touched them since,
      and a sync at least as strong as requested lies in between. */
  ghost predicate AckOk(log: Log, p: nat)
    requires p < |log| && log[p].Acked?
  {
    log[p].size == |log[p].req.data| % 0x1_0000_0000 && exists w :: Backs(log, w, p)
  }

  ghost predicate AcksOk(log: Log) {
    forall p :: 0 <= p < |log| && log[p].Acked? ==> AckOk(log, p)
  }

  /** Acknowledged intervals of one file are disjoint and in the order of submission. */
  ghost predicate AcksOrdered(log: Log) {
    forall p, q :: 0 <= p < q < |log| && log[p].Acked? && log[q].Acked? && log[p].req.file == log[q].req.file ==>
      log[p].req.id < log[q].req.id && log[p].at + |log[p].req.data| <= log[q].at
  }

  // ---- The file after a history ----

  function Overlay(s: seq<byte>, at: nat, data: seq<byte>): seq<byte> {
    (if |s| < at then s + Zeros(at - |s|) else s[..at]) + data + (if |s| > at + |data| then s[at + |data|..] else [])
  }

  /** The bytes of file `f`, starting from `was`. */
  function FileAfter(log: Log, f: nat, was: seq<byte>): seq<byte> {
    if log == [] then was
    else
      var before := FileAfter(log[..|log| - 1], f, was);
      var e := log[|log| - 1];
      if !Touches(e, f) then before
      else Overlay(before, e.offset, if e.Wrote? then e.data else e.junk)
  }

  predicate Holds(s: seq<byte>, at: nat, data: seq<byte>) {
    at + |data| <= |s| && s[at..at + |data|] == data
  }

  lemma OverlayKeeps(s: seq<byte>, at: nat, data: seq<byte>, off: nat, junk: seq<byte>)
    requires Holds(s, at, data) && at + |data| <= off
    ensures Holds(Overlay(s, off, junk), at, data)
  {
    var t := Overlay(s, off, junk);
    assert forall i :: 0 <= i < at + |data| ==> t[i] == s[i];
    assert t[at..at + |data|] == s[at..at + |data|];
  }

  lemma OverlayHolds(s: seq<byte>, at: nat, data: seq<byte>, off: nat, all: seq<byte>)
    requires off <= at && at + |data| <= off + |all| && all[at - off..at - off + |data|] == data
    ensures Holds(Overlay(s, off, all), at, data)
  {
    var t := Overlay(s, off, all);
    assert t[off..off + |all|] == all;
    assert forall i :: 0 <= i < |data| ==> t[at + i] == all[at - off + i] && data[i] == all[at - off + i];
    assert t[at..at + |data|] == data;
  }

  lemma {:induction false} WrittenStays(log: Log, w: nat, f: nat, at: nat, data: seq<byte>, was: seq<byte>)
    requires Writes(log, w, f, at, data) && Untouched(log, w, f, at + |data|)
    ensures Holds(FileAfter(log, f, was), at, data)
    decreases |log|
  {
    hide Overlay, Holds;
    var n := |log| - 1;
    var before := FileAfter(log[..n], f, was);
    if w == n {
      OverlayHolds(before, at, data, log[n].offset, log[n].data);
    } else {
      assert Writes(log[..n], w, f, at, data);
      assert Untouched(log[..n], w, f, at + |data|) by {
        assert forall q :: 0 <= q < n ==> log[..n][q] == log[q];
      }
      WrittenStays(log[..n], w, f, at, data, was);
      if Touches(log[n], f) {
        OverlayKeeps(before, at, data, log[n].offset, if log[n].Wrote? then log[n].data else log[n].junk);
      }
    }
  }

  /** In a safe history every acknowledged interval holds its bytes, at the end and so, later histories
      being extensions, forever. */
  lemma AckedBytesKept(log: Log, p: nat, was: seq<byte>)
    requires AcksOk(log) && p < |log| && log[p].Acked?
    ensures Holds(FileAfter(log, log[p].req.file, was), log[p].at, log[p].req.data)
  {
    assert AckOk(log, p);
    var w :| Backs(log, w, p);
    WrittenStays(log, w, log[p].req.file, log[p].at, log[p].req.data, was);
  }

  // ---- Growing a history ----

  /** Where the acknowledged bytes of a file end, at the latest. */
  ghost predicate AckedBelow(log: Log, f: nat, end: nat) {
    forall p :: 0 <= p < |log| && log[p].Acked? && log[p].req.file == f ==> log[p].at + |log[p].req.data| <= end
  }

  lemma BacksMore(log: Log, e: Event, w: nat, p: nat)
    requires p < |log| && log[p].Acked? && Backs(log, w, p)
    requires Touches(e, log[p].req.file) ==> log[p].at + |log[p].req.data| <= e.offset
    ensures Backs(log + [e], w, p)
  {
    var log' := log + [e];
    assert forall q :: 0 <= q < |log| ==> log'[q] == log[q];
    if log[p].req.durability != Relaxed {
      var y :| w < y < p && log[y].Synced? && Rank(log[y].level) >= Rank(log[p].req.durability);
      assert log'[y].Synced?;
    }
  }

  /** An event that writes nothing below the acknowledged bytes of its file keeps them safe. */
  lemma EventSafe(log: Log, e: Event)
    requires AcksOk(log) && !e.Acked?
    requires forall f :: Touches(e, f) ==> AckedBelow(log, f, e.offset)
    ensures AcksOk(log + [e])
  {
    var log' := log + [e];
    forall p | 0 <= p < |log'| && log'[p].Acked? ensures AckOk(log', p) {
      assert log'[p] == log[p] && AckOk(log, p);
      var w :| Backs(log, w, p);
      if Touches(e, log[p].req.file) {
        assert AckedBelow(log, log[p].req.file, e.offset);
      }
      BacksMore(log, e, w, p);
    }
  }

  lemma EventOrdered(log: Log, e: Event)
    requires AcksOrdered(log) && !e.Acked?
    ensures AcksOrdered(log + [e])
  {
  }

  /** One acknowledgement more. */
  lemma AckSafe(log: Log, r: Req, at: nat, w: nat)
    requires AcksOk(log) && w < |log| && Writes(log, w, r.file, at, r.data)
    requires Untouched(log, w, r.file, at + |r.data|) && SyncedSince(log, w, |log|, r.durability)
    ensures AcksOk(log + [Acked(r, at, |r.data| % 0x1_0000_0000)])
  {
    var e := Acked(r, at, |r.data| % 0x1_0000_0000);
    var log' := log + [e];
    forall p | 0 <= p < |log'| && log'[p].Acked? ensures AckOk(log', p) {
      if p < |log| {
        assert log'[p] == log[p] && AckOk(log, p);
        var v :| Backs(log, v, p);
        BacksMore(log, e, v, p);
      } else {
        NewAckBacked(log, e, w);
      }
    }
  }

  lemma NewAckBacked(log: Log, e: Event, w: nat)
    requires e.Acked? && w < |log| && Writes(log, w, e.req.file, e.at, e.req.data)
    requires Untouched(log, w, e.req.file, e.at + |e.req.data|) && SyncedSince(log, w, |log|, e.req.durability)
    ensures Backs(log + [e], w, |log|)
  {
    var log' := log + [e];
    assert forall q :: 0 <= q < |log| ==> log'[q] == log[q];
    if e.req.durability != Relaxed {
      var y :| w < y < |log| && log[y].Synced? && Rank(log[y].level) >= Rank(e.req.durability);
      assert log'[y].Synced?;
    }
  }

  // ---- A group of requests written together ----

  function Combined(reqs: seq<Req>): seq<byte> {
    if reqs == [] then [] else Combined(reqs[..|reqs| - 1]) + reqs[|reqs| - 1].data
  }

  /** The offset of request `i` of a group that starts at `start`. */
  function OffsetOf(reqs: seq<Req>, start: nat, i: nat): nat
    requires i <= |reqs|
  {
    start + |Combined(reqs[..i])|
  }

  lemma {:induction false} CombinedAt(reqs: seq<Req>, i: nat)
    requires i < |reqs|
    ensures |Combined(reqs[..i])| + |reqs[i].data| == |Combined(reqs[..i + 1])| <= |Combined(reqs)|
    ensures Combined(reqs)[|Combined(reqs[..i])|..|Combined(reqs[..i + 1])|] == reqs[i].data
    decreases |reqs|
  {
    var n := |reqs| - 1;
    assert reqs[..i + 1][..i] == reqs[..i];
    if i == n {
      assert reqs[..i + 1] == reqs;
    } else {
      CombinedAt(reqs[..n], i);
      assert reqs[..n][..i] == reqs[..i] && reqs[..n][..i + 1] == reqs[..i + 1];
    }
  }

  /** The strongest durability asked for. */
  function Strongest(reqs: seq<Req>): Durability {
    if reqs == [] then Relaxed else Stronger(Strongest(reqs[..|reqs| - 1]), reqs[|reqs| - 1].durability)
  }

  lemma {:induction false} StrongestCovers(reqs: seq<Req>, i: nat)
    requires i < |reqs|
    ensures Rank(reqs[i].durability) <= Rank(Strongest(reqs))
    decreases |reqs|
  {
    if i < |reqs| - 1 {
      StrongestCovers(reqs[..|reqs| - 1], i);
    }
  }

  // ---- Replies ----

  /** The request ids replied to. */
  function Replies(log: Log): seq<nat> {
    if log == [] then []
    else
      var e := log[|log| - 1];
      Replies(log[..|log| - 1]) + if e.Acked? || e.Refused? then [e.req.id] else []
  }

  lemma RepliesStep(log: Log, e: Event)
    ensures Replies(log + [e]) == Replies(log) + if e.Acked? || e.Refused? then [e.req.id] else []
  {
    assert (log + [e])[..|log|] == log;
  }
}
