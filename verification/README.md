# A verified model of skeg's storage core and wire layer

skeg is a key-value and vector server. Its store is an append-only value log: CRC-framed records in
numbered segment files, an index in memory, a byte-budgeted cache, group committers that batch writes and
syncs, and a compactor that relocates live records and unlinks their old file. In front of it stand a
RESP2/RESP3 codec, a native binary framing, a pipelined connection loop and a small filter language over
payload fields. This project models those parts and proves what they keep over whole runs.

`dafny verify dfyconfig.toml` checks everything. The proofs rest on nothing but the definitions in these
files: there is no axiom and no assumption.

## What is modelled

**The value log** (`VLogState` to `VLogStore`). A state machine cut at the `.await` points of `vlog.rs`,
which are its only interleaving points. A segment is the sequence of blobs written to its file and the
length of the prefix a sync has covered. A client write goes through four steps - timestamps drawn, room
reserved in the active segment, blob written by the committer, index updated after the sync - and a
relocation through five. Any number of clients, reads, rotations, syncs and compactions of different
segments interleave, and a crash may strike at any step, keep any blob prefix of every segment that
contains its synced prefix, and tear the blob after it. `VLogRefinement.RunsRefine` is the main theorem: every
run, with any number of crashes and reopens, is a run of a plain map in which acknowledgements apply writes
atomically and a crash applies exactly the unacknowledged writes whose blob survived whole.

`SegmentRecovery`, `VLogFiles` and `VLogBytes` carry this down to bytes: a file torn at any byte and followed by
preallocated zeros or any bytes that begin no valid record shows exactly its whole blobs; in every state of every
run the files are those of the machine's segments (`VLogBytes.FilesOfRun`); so a crash that cuts them anywhere
behind what was synced is a crash of the machine, and the next open reads back what the machine keeps
(`VLogBytes.CrashBytes`).

A reopen of the machine may hold, for each key, any record with its highest timestamp. The full scan is one such
reopen. `VLogReopen.SnapshotStepIff` says exactly when an open from a snapshot, left behind at any earlier state and
any number of crashes ago, is another, so that `RunsRefine` goes on to hold after it.

Four hypotheses are guards of the steps, because the code does not enforce them: a write of a key overlaps no
other operation on it; a compaction source has no unacknowledged append; a source is compacted once at a time;
and a crash after which the run goes on does not leave the header of a batch of two or more without its last
member in the active segment. `VLogLimits` shows from reachable states what the first three prevent, `VLogGuards`
the exact conditions behind them, and `SegmentRecovery.SessionIff` that the fourth is exact. The snapshot results
have a fifth: when the snapshot is taken no append or copy is in flight below its high-water mark
(`VLogLimits.SnapshotMissesPendingWrite` shows why).

`VLogStore.VLog` is the same store as an object, for operations that do not overlap. Its loops (full scan,
index construction, ledger seeding, `set_many`, compaction, `reclaim_all_dead`) are methods on values, each
proved against the machine.

**Committers** (`CommitLog`, `GroupCommit`, `SharedCommit`). Writes and syncs may fail at will; a failed
write leaves arbitrary bytes in its range. A history of writes, syncs and replies is kept, and a safe
history is one in which every acknowledged interval was written, then synced as strongly as asked, and
never touched again.

**Cache** (`Caches` to `CacheStore`). The three queues, the frequency counters, the tenant ledger and both
eviction loops, in place, with wrapping subtraction. The victims are given in closed form, in Main for every
state and every mix of touches and tenants, and the termination of the insert loop is settled exactly, with
and without `remove`.

**Payload filters** (`Payloads`, `Filters`, `FilterGrammar`, `FilterRender`, `FilterText`, `FilterParser`).
The inverted index, the set-algebra evaluator against pointwise meaning, the tokenizer and the
recursive-descent parser with its cursor, and every rendering of a filter, parenthesised minimally, fully
or in between.

**Wire** (`Streaming`, `Resp`, `RespCodec`, `RespStream`, `RespWire`, `NativeFrames`, `Pipeline`). The RESP
parser and encoder with the RESP2 downgrade, the streaming decoders of both protocols as instances of one
theorem about chunking, and the connection: a machine in which tasks end in any order with any reply, the
`HELLO` exchange, and the loop over its own fields.

## Where the code does less than hoped

Each is a lemma with a concrete input or run, and the exact condition where there is one.

- A tear inside a batch of two or more members whose header survived is skipped on the next open but not
  truncated. The next session's records are then recovered as written if and only if there was no such tear
  (`SegmentRecovery.NextSessionIff`, over any number of sessions `SegmentRecovery.SessionIff`); otherwise its
  first record is lost or brings torn members back (`SegmentRecovery.TornBatchOutcome`).
- Snapshot recovery replays last-wins without a timestamp test, trusts entries whose copy was not synced, and reads
  at an entry's offset without comparing keys. In every run, however many crashes lie between the snapshot and the
  open, it shows the map of the full scan if and only if, where the snapshot is used at all, the last record of
  every key from the high-water mark on has the effect of the key's newest record, and the entry of every key
  without one still reads its value (`VLogReopen.SnapshotOfRunIff`). A relocated old copy behind a newer record
  breaks the first half (`VLogLimits.SnapshotReplaysStaleCopy`), a crash between a relocation's swap and its sync the
  second (`VLogLimits.SnapshotLosesUnsyncedCopy`); and when the lost copy's place is written again in the next
  session, the key reads another key's value (`VLogReuse.SnapshotReadsAnotherKey`). A snapshot taken while an append
  below its mark awaits its acknowledgement loses the acknowledged write
  (`VLogLimits.SnapshotMissesPendingWrite`).
- Two `set`s of one key in flight may be acknowledged in another order than they drew timestamps. Clients then
  read the value of the lower one, and a reopened store shows the other (`VLogLimits.OverlappingSetsDiverge`). In any
  store they agree if and only if the higher timestamp is acknowledged last, or the values are equal
  (`VLogGuards.OverlappingSetsIff`).
- A read that overlaps a `set` of its key may cache the old value after the acknowledgement. The cache then agrees
  with the log if and only if the read was the first to finish, or read the value that was written
  (`VLogGuards.ReadAndSetIff`).
- Compacting a segment that still awaits an acknowledgement leaves the index pointing at a deleted file
  (`VLogLimits.CompactingUnquietSourceLosesWrite`). Unlinking leaves every later acknowledgement readable if and only
  if no write that leaves a value is bound to the segment (`VLogGuards.UnlinkReadableIff`).
- Compacting one source twice at a time loses an acknowledged write on a crash
  (`VLogLimits.CompactingTwiceLosesWrite`). An unlink loses nothing to any crash if and only if every key has a synced
  copy of its newest record, or a newer one, elsewhere (`VLogGuards.UnlinkDurableIff`).
- The live-byte counters over-count when a `set` or `del` replaces an entry that a relocation moved after
  the operation read it, if and only if the entry's new segment is not itself being compacted
  (`VLogLedgers.StaleSetIff`, `VLogLedgers.StaleDelIff`); `VLogLimits.LiveOvercounted` is a run that does. They
  never under-count (`VLogLedgers.SegmentLiveNeverBelow`), and the tenants' disk counters stay exact. With counters
  too high `reclaim_all_dead` leaves exactly the dead records of the segments whose counter has reached the size of
  their file (`VLogReclaim.ReclaimAll`).
- Concurrent `set`s of a tenant, whichever it is, may jointly exceed its disk limit: two admitted under 128 bytes
  end at 256 (`VLogQuota.QuotaExceeded`). A `set` is safe from this if and only if what the tenant holds, the most its
  operations in flight can add, and the new record fit (`VLogQuota.QuotaBeforeIff`).
- The insert loop of the cache may never end. In runs without `remove`, every insert of a given size returns
  if and only if it fits beside a Small queue one byte short of its share, or that share is at most one
  entry's overhead (`CacheRuns.AlwaysEndsIff`). After one `remove` even an entry well within that bound may hang
  the loop (`CacheRuns.RemoveThenHang`). In every state it ends if and only if, once Small is below its share by
  its counter, the entries without a place in Main leave room or there are none (`CacheLoop.LoopEndsIff`).
- `BETWEEN` with reversed bounds parses, and evaluating it panics if and only if the field is indexed
  (`FilterText.ReversedBetween`).
- The reply to a `HELLO` that is let in is encoded in the version it switches to, not in the one in force when
  it was sent; every other reply is in the version at submission (`Pipeline.ReplyVersion`).

## Model

| member | source | states |
|---|---|---|
| `Records.PaddedRecordSize` | crates/skeg-core/src/record.rs:58-60 | the bit mask rounds up to the next multiple of 128 |
| `Records.KindFromByte` | crates/skeg-core/src/record.rs:30-41 | exactly the six kind bytes are accepted, each as the kind that writes it |
| `Records.EncodeRecord` | crates/skeg-core/src/record.rs:67-83 | the buffer filled in place, checksum last, holds the record's encoding |
| `Records.DecodeEncode` | crates/skeg-core/src/record.rs:67-132 | decoding an encoded record returns it, whatever bytes follow, for any checksum function |
| `Records.DecodeAcceptsOnlyEncodings` | crates/skeg-core/src/record.rs:96-132 | an accepted buffer carries, up to the padding, exactly the bytes the encoder writes for the record returned |
| `SegmentScan.ScanFile` | crates/skeg-core/src/segment.rs:62-92 | the scan loop reports the maximal chain of valid records with their offsets, and where it ends |
| `SegmentScan.FindsRecord` | crates/skeg-core/src/segment.rs:62-92 | a whole record in front of anything is found |
| `SegmentScan.TornRecordIff` | crates/skeg-core/src/segment.rs:62-92 | a torn record with any bytes in place of its end is taken for a record if and only if the bytes that now stand there have its checksum |
| `SegmentScan.CutForm` | crates/skeg-core/src/segment.rs:62-92 | a file cut at any byte is its whole records and a rest that begins no record |
| `SegmentScan.MissesZeros` | crates/skeg-core/src/segment.rs:62-92 | nor is anything found in the zeros of a preallocated tail |
| `SegmentScan.ScanImage` | crates/skeg-core/src/segment.rs:62-92 | whole records followed by anything are reported in order, then the scan goes on with what follows |
| `SegmentScan.ScanCut` | crates/skeg-core/src/segment.rs:62-92 | whole records followed by any bytes that begin no valid record - a torn record, preallocated zeros, both - are exactly what the scan shows, and it stops after the last |
| `BatchGates.BatchGate.Feed` | crates/skeg-core/src/vlog.rs:84-108 | one record through the gate: the new gate state and the records released |
| `BatchGates.RecoverSegment` | crates/skeg-core/src/vlog.rs:334-352 | a fresh gate fed with everything found in a segment applies what the gate function says |
| `BatchGates.RunHeld` | crates/skeg-core/src/vlog.rs:84-108 | members of an open run are withheld until the last one, which releases all of them in order |
| `BatchGates.BlobGated` | crates/skeg-core/src/vlog.rs:66-108 | of the first `k` records of a blob the gate applies all if the blob is whole, else nothing; it is left open exactly by a cut batch whose header survived |
| `SegmentRecovery.ByteCut` | crates/skeg-core/src/vlog.rs:329-365 | a segment file cut at any byte, with anything behind the cut, is a number of whole records and a rest, the part before the cut beginning no record |
| `SegmentRecovery.CutRecovers` | crates/skeg-core/src/vlog.rs:329-365 | torn after any of its records, with any tail that begins no valid record, a segment file recovers exactly the data records of its whole blobs, in order and at their offsets - all of a batch or none - and is truncated to its whole records |
| `SegmentRecovery.TwoSessions` | crates/skeg-core/src/vlog.rs:353-357 | unless the first tear fell inside a batch of two or more, the next open shows the whole blobs of both sessions, either torn with any tail |
| `SegmentRecovery.TornBatchSpoils` | crates/skeg-core/src/vlog.rs:353-357 | after such a tear, whatever tail it left, a record appended next is never recovered as written |
| `SegmentRecovery.TornBatchOutcome` | crates/skeg-core/src/vlog.rs:84-108 | it is lost while members are missing besides it, else taken for the missing member |
| `SegmentRecovery.NextSessionIff` | crates/skeg-core/src/vlog.rs:353-357 | every continuation, with any tail, is recovered as written if and only if there was no such tear |
| `SegmentRecovery.SessionIff` | crates/skeg-core/src/vlog.rs:321-386 | over any number of sessions: a clean file torn again shows exactly its whole blobs, and is clean again after truncation if and only if the tear was not inside a batch of two or more |
| `VLogFiles.NewHolds` | crates/skeg-core/src/vlog.rs:1318-1334 | an empty file holds the empty segment of the machine |
| `VLogFiles.AppendHolds` | crates/skeg-core/src/vlog.rs:1202-1238 | bytes that hold a segment of the machine still do after the committer's write of a blob |
| `VLogFiles.LeftShows` | crates/skeg-core/src/vlog.rs:329-365 | the bytes a crash leaves of a segment recover the records of the blobs the machine keeps; truncated, they hold them again if and only if the crash step's guard is met |
| `VLogFiles.CutForms` | crates/skeg-core/src/vlog.rs:329-365 | a file of the session cut at any byte behind what was synced, with anything behind the cut that begins no record, is a number of whole blobs, not fewer than were synced, and records of the next |
| `VLogFiles.OffsetFound` | crates/skeg-core/src/vlog.rs:334-352 | in a file of whole blobs recovery finds each record at the offset the machine counts for it |
| `VLogBytes.FileStepOk` | crates/skeg-core/src/vlog.rs:434-1196 | every step of the machine, with what it does to the files - appends, new and deleted files, crash and truncation - keeps the files those of the segments |
| `VLogBytes.FilesOfRun` | crates/skeg-core/src/vlog.rs:249-1196 | so they are in every state of every run |
| `VLogBytes.CrashBytes` | crates/skeg-core/src/vlog.rs:321-386 | whatever bytes a crash leaves of such files, recovery reads from each exactly the records of the blobs the machine keeps, and the active file can be appended to again if and only if the crash step's guard is met |
| `Rotation.StepInv` | crates/skeg-core/src/vlog.rs:1202-1347 | every step of an append or a rotation, cut at its awaits, keeps the reservation bookkeeping |
| `Rotation.RotationSafe` | crates/skeg-core/src/vlog.rs:1291-1347 | in every run: segments stay within the limit if and only if every append reserved does; committers are never handed more than was reserved; created ids strictly increase |
| `CommitLog.AckedBytesKept` | crates/skeg-core/src/group_commit.rs:231-330 | in a safe history every acknowledged interval holds its bytes |
| `CommitLog.EventSafe` | crates/skeg-core/src/group_commit.rs:231-330 | an event that touches nothing below the acknowledged bytes of its file keeps the history safe |
| `GroupCommit.Gather` | crates/skeg-core/src/group_commit.rs:231-330 | the first loop of a flush: consecutive offsets, the concatenated bytes, the strongest durability |
| `GroupCommit.Committer.FlushBatch` | crates/skeg-core/src/group_commit.rs:231-330 | whatever fails, the history stays safe and every request of the group is replied to; the offset moves exactly when write and sync succeed |
| `GroupCommit.Committer.AckAll` | crates/skeg-core/src/group_commit.rs:231-330 | each request of a successful group is acknowledged at its own offset |
| `GroupCommit.Committer.RefuseAll` | crates/skeg-core/src/group_commit.rs:231-330 | each request of a failed group gets an error and the history stays safe |
| `GroupCommit.Committer.Handle` | crates/skeg-core/src/group_commit.rs:189-229 | one message keeps the history safe and the batch with its size |
| `GroupCommit.Committer.Serve` | crates/skeg-core/src/group_commit.rs:189-229 | over any message sequence and any failures: exactly one reply per request in order, acknowledged bytes safe, disjoint, in submission order |
| `SharedCommit.GroupByFile` | crates/skeg-core/src/shared_committer.rs:331-426 | grouping keeps the order within each file and misses no request |
| `SharedCommit.Place` | crates/skeg-core/src/shared_committer.rs:331-426 | the combined buffer of a group and a slot per request at its offset |
| `SharedCommit.FlushFiles` | crates/skeg-core/src/shared_committer.rs:331-426 | one flush over several files: safe history, one reply each, offsets advanced on write success even if the sync fails, exactly the written and synced requests acknowledged |
| `SharedCommit.Committer.Attach` | crates/skeg-core/src/shared_committer.rs:282-285 | a file is registered at its initial offset under a new id |
| `SharedCommit.Committer.Detach` | crates/skeg-core/src/shared_committer.rs:286-297 | a file goes unless the batch holds requests for it |
| `SharedCommit.Committer.FlushBatch` | crates/skeg-core/src/shared_committer.rs:331-426 | the flush on the committer's own registry and batch |
| `SharedCommit.Committer.Append` | crates/skeg-core/src/shared_committer.rs:298-307 | a request joins the batch, which is flushed when full |
| `SharedCommit.Committer.Handle` | crates/skeg-core/src/shared_committer.rs:261-329 | every message keeps the history safe and every request in exactly one place |
| `SharedCommit.Committer.Serve` | crates/skeg-core/src/shared_committer.rs:261-329 | over any message sequence and any failures: exactly one reply per append, acknowledged bytes safe, ordered per file, synced as asked |
| `Caches.SubTenant` | crates/skeg-core/src/cache.rs:179-224 | a tenant's charge falls by the bytes given and no other's changes |
| `CacheInv.EvictFromMainInv` | crates/skeg-core/src/cache.rs:328-364 | the loop ends; it removes exactly one entry exactly when Main holds a live key, and keeps all counters exact |
| `CacheInv.EvictOneInv` | crates/skeg-core/src/cache.rs:288-293 | an eviction removes nothing if and only if Small is below its share and Main holds no live key |
| `CacheInv.StuckForever` | crates/skeg-core/src/cache.rs:150-153 | once an eviction removes nothing, every later one removes nothing |
| `CacheInv.InsertInv` | crates/skeg-core/src/cache.rs:129-175 | an insert that returns stores the value, keeps every other value an old one, keeps counters exact, and leaves a new key within budget or alone |
| `CacheInv.RemoveInv` | crates/skeg-core/src/cache.rs:229-240 | exactly the key goes, counters stay exact |
| `CacheInv.GetInv` | crates/skeg-core/src/cache.rs:106-117 | a lookup changes no value, size or counter |
| `CacheInv.PushGhosts` | crates/skeg-core/src/cache.rs:366-375 | the ghost set stays within the ghost queue and the capacity |
| `CacheInv.FewHashes` | crates/skeg-core/src/cache.rs:366-375 | a ghost set contained in the queue is no larger than it |
| `CacheExact.SmallVictim` | crates/skeg-core/src/cache.rs:297-323 | the victim is the first entry of Small touched at most once; those before it move to Main; without one Small is emptied into Main |
| `CacheVictims.StaleIgnored` | crates/skeg-core/src/cache.rs:328-364 | stale places in Main change neither the victim nor what is left |
| `CacheVictims.MainVictim` | crates/skeg-core/src/cache.rs:328-364 | in every state, whatever the touches and the shares: the victim is at the first visit, counted round by round over the live places, that finds a key without a touch left which is not spared; every survivor's touches and the order of the queue in closed form |
| `CacheVictims.LeastTouched` | crates/skeg-core/src/cache.rs:328-364 | without `remove` and with no tenant over its share the victim is the first of the least touched entries |
| `CacheVictims.FairVictim` | crates/skeg-core/src/cache.rs:328-364 | with a tenant over its share the victim is of such a tenant unless sixteen untouched keys were spared first, and no key of such a tenant is passed at a visit that finds it untouched |
| `CacheExact.StuckTotal` | crates/skeg-core/src/cache.rs:288-293 | without `remove`, nothing can be evicted if and only if Main is empty and the total is below Small's share |
| `CacheExact.MakeRoomEnds` | crates/skeg-core/src/cache.rs:150-153 | without `remove`, the eviction loop ends for every entry that leaves room for a stuck cache |
| `CacheExact.StuckInsertHangs` | crates/skeg-core/src/cache.rs:150-153 | a new key that does not fit a stuck cache never returns |
| `CacheLoop.EvictFromMainOnly` | crates/skeg-core/src/cache.rs:328-364 | an eviction from Main leaves every live entry without a place there, and Small, as they are |
| `CacheLoop.LoopEndsIff` | crates/skeg-core/src/cache.rs:150-153 | in every state, `remove` included, the eviction loop ends if and only if, once Small is below its share by `smallBytes`, the entries without a place in Main leave room or there are none |
| `CacheLoop.InsertEndsIff` | crates/skeg-core/src/cache.rs:129-175 | an insert returns if and only if its key is cached or that loop ends |
| `CacheRuns.RunSafe` | crates/skeg-core/src/cache.rs:106-375 | in every run counters, charges, ghosts and queues are right and nothing cached is stale; without `remove` each live key is once in its queue and the Small counter is exact |
| `CacheRuns.AlwaysEndsIff` | crates/skeg-core/src/cache.rs:129-175 | the exact size bound under which every insert returns after every run without `remove` |
| `CacheRuns.HangReached` | crates/skeg-core/src/cache.rs:129-175 | a run of two inserts of which the second never returns |
| `CacheRuns.RemoveThenHang` | crates/skeg-core/src/cache.rs:229-240 | a run with one `remove` after which an entry within the bound hangs the loop |
| `CacheStore.S3Fifo.constructor` | crates/skeg-core/src/cache.rs:85-103 | an empty cache with a tenth of the budget, at least one byte, for Small |
| `CacheStore.S3Fifo.Get` | crates/skeg-core/src/cache.rs:106-117 | the cached value and one capped touch |
| `CacheStore.S3Fifo.Remove` | crates/skeg-core/src/cache.rs:229-240 | the entry goes and its queue place stays |
| `CacheStore.S3Fifo.PushGhost` | crates/skeg-core/src/cache.rs:366-375 | push and trim in place |
| `CacheStore.S3Fifo.EvictSmall` | crates/skeg-core/src/cache.rs:297-323 | the loop over Small refines its specification |
| `CacheStore.S3Fifo.EvictMain` | crates/skeg-core/src/cache.rs:328-364 | the second-chance loop refines its specification and ends by the sum of frequencies, skips left and queue length |
| `CacheStore.S3Fifo.Evict` | crates/skeg-core/src/cache.rs:288-293 | Small first when over its share, then Main |
| `CacheStore.S3Fifo.InsertFor` | crates/skeg-core/src/cache.rs:129-175 | refines the insert, and stops in a state that repeats itself exactly where the source would loop forever |
| `VLogInv.DurableCopy` | crates/skeg-core/src/vlog.rs:1026-1188 | a record whose relocations form a backed chain has a durable copy with the same contents |
| `VLogClient.ApplyOpInv` | crates/skeg-core/src/vlog.rs:507-534 | the index update after the sync keeps the invariant |
| `VLogClient.ApplyOpContents` | crates/skeg-core/src/vlog.rs:507-534 | it applies the records of the write, in order, to the map clients read |
| `VLogClient.WriteOpInv` | crates/skeg-core/src/vlog.rs:1202-1238 | the committer's write of a blob keeps the invariant |
| `VLogClient.FinishGetInv` | crates/skeg-core/src/vlog.rs:451-461 | caching a value after the read keeps the cache in agreement with the log |
| `VLogCompact.WriteMoveInv` | crates/skeg-core/src/vlog.rs:1061-1097 | appending a copy with its old timestamp keeps the invariant |
| `VLogCompact.FinishMoveInv` | crates/skeg-core/src/vlog.rs:1098-1113 | so does the recheck and the swap of the index |
| `VLogCompact.UnlinkInv` | crates/skeg-core/src/vlog.rs:1159-1188 | and the deletion of the source after its destinations were synced |
| `VLogRecover.FullScanWins` | crates/skeg-core/src/vlog.rs:329-365 | the full scan keeps, for every key on disk, a record with its highest timestamp |
| `VLogRecover.CrashInv` | crates/skeg-core/src/vlog.rs:329-419 | reopening the blobs any crash kept establishes the invariant again |
| `VLogRuns.CrashRecovers` | crates/skeg-core/src/vlog.rs:329-419 | a store reopened with highest-timestamp records shows the acknowledged writes and exactly the unacknowledged ones whose blob survived whole |
| `VLogRuns.StepInv` | crates/skeg-core/src/vlog.rs:434-1196 | every step of clients, reads, commits, compactions and crashes keeps the invariant |
| `VLogRefinement.CompactionReads` | crates/skeg-core/src/vlog.rs:1026-1196 | no compaction step changes what any key reads |
| `VLogRefinement.CompactionInvisible` | crates/skeg-core/src/vlog.rs:1026-1196 | nor what a crash right after it recovers |
| `VLogRefinement.StepRefines` | crates/skeg-core/src/vlog.rs:434-1196 | one step of the log is one step of the map |
| `VLogRefinement.RunsRefine` | crates/skeg-core/src/vlog.rs:249-1196 | every run, crashes and reopens included - by full scan, or from a snapshot where `VLogReopen.SnapshotStepIff` admits it - is a run of a key-value map, under the four guards named above |
| `VLogRefinement.CacheAgrees` | crates/skeg-core/src/vlog.rs:434-461 | in every reachable state a cached value is the one the log holds and the map shows |
| `VLogLedgers.SeededExact` | crates/skeg-core/src/vlog.rs:194-199 | the ledgers recovered by iterating over the index in any order are exact |
| `VLogLedgers.TenantDiskExact` | crates/skeg-core/src/vlog.rs:183-199 | in every run, reopens with recovered ledgers included, each tenant's disk counter is the sum of the sizes of its indexed records |
| `VLogLedgers.SegmentLiveExact` | crates/skeg-core/src/vlog.rs:1257-1279 | a segment's live counter is the sum over the entries that point into it, in every run in which no relocation overtook an operation on its key |
| `VLogLedgers.SegmentLiveNeverBelow` | crates/skeg-core/src/vlog.rs:1257-1279 | in every run it is at least that sum |
| `VLogLedgers.StaleSetIff` | crates/skeg-core/src/vlog.rs:486-533 | a `set` overtaken by a relocation keeps the live counters exact if and only if the entry's segment is being compacted |
| `VLogLedgers.StaleDelIff` | crates/skeg-core/src/vlog.rs:698-723 | the same for `del` |
| `VLogQuota.QuotaSafeIff` | crates/skeg-core/src/vlog.rs:492-500 | a `set` that has begun leaves its tenant within the limit on every way to its acknowledgement on which the tenant begins nothing more, if and only if what the tenant holds, the most its other operations in flight can add, and the new record fit |
| `VLogQuota.QuotaBeforeIff` | crates/skeg-core/src/vlog.rs:492-500 | the same condition before the call |
| `VLogQuota.QuotaHolds` | crates/skeg-core/src/vlog.rs:492-500 | in every run, an admitted `set` leaves its tenant within the limit if no other operation of the tenant is acknowledged in between |
| `VLogQuota.TwoWrittenReached` | crates/skeg-core/src/vlog.rs:478-535 | from an empty store: two `set`s of one tenant, any 16-byte prefix, begun, written and synced |
| `VLogQuota.QuotaExceeded` | crates/skeg-core/src/vlog.rs:492-500 | both were admitted under a limit of 128 bytes, and acknowledged they hold 256 |
| `VLogLimits.CompactingUnquietSourceLosesWrite` | crates/skeg-core/src/vlog.rs:1042-1044 | from a reachable state, compacting a source with an unacknowledged append leaves an index entry without a record |
| `VLogLimits.CompactingTwiceLosesWrite` | crates/skeg-core/src/vlog.rs:1026-1188 | two compactions of one source at a time and a crash lose an acknowledged write |
| `VLogLimits.UnacknowledgedReached` | crates/skeg-core/src/vlog.rs:478-535 | the state used above is reached from an empty store |
| `VLogLimits.AcknowledgedReached` | crates/skeg-core/src/vlog.rs:478-535 | and so is its acknowledged successor |
| `VLogLimits.RelocatedReached` | crates/skeg-core/src/vlog.rs:1026-1188 | and the state after one relocation of it |
| `VLogLimits.RaceWrittenReached` | crates/skeg-core/src/vlog.rs:1026-1188 | and the race between a relocation and a write |
| `VLogLimits.RacedReached` | crates/skeg-core/src/vlog.rs:1026-1188 | and its end, with the old copy behind the new record |
| `VLogLimits.SnapshotReplaysStaleCopy` | crates/skeg-core/src/vlog.rs:303-318 | there the full scan shows the new value and the snapshot recovery the old one |
| `VLogLimits.SnapshotLosesUnsyncedCopy` | crates/skeg-core/src/vlog.rs:756-772 | a snapshot of the relocated state and a crash that drops the unsynced copy: the full scan shows the value, the snapshot recovery nothing |
| `VLogLimits.SnapshotMissesPendingWrite` | crates/skeg-core/src/vlog.rs:756-772 | a snapshot taken before a pending append below its mark is acknowledged: the acknowledged write is lost to it |
| `VLogLimits.OverlappingReached` | crates/skeg-core/src/vlog.rs:478-535 | without the guard on overlapping writes: two `set`s of one key, the first to draw its timestamp written last |
| `VLogLimits.OverlappingSetsDiverge` | crates/skeg-core/src/vlog.rs:507-534 | acknowledged in that order, clients read the value with the lower timestamp and a reopened store shows the other |
| `VLogGuards.OverlappingSetsIff` | crates/skeg-core/src/vlog.rs:478-535 | two overlapping `set`s of a key, in any store and written in either order: clients and a reopened store agree on it if and only if the higher timestamp is acknowledged last or the values are equal |
| `VLogGuards.ReadAndSetIff` | crates/skeg-core/src/vlog.rs:434-461 | a read from the log and a `set` of its key, in any store: the cache then holds the log's value if and only if the read finished first or read the value that was written |
| `VLogGuards.UnlinkReadableIff` | crates/skeg-core/src/vlog.rs:1159-1188 | an unlink leaves every later acknowledgement readable if and only if no write that leaves a value is bound to the segment |
| `VLogGuards.UnlinkDurableIff` | crates/skeg-core/src/vlog.rs:1159-1188 | an unlink loses nothing acknowledged to any later crash if and only if every key has a synced copy of its newest record, or a newer one, elsewhere |
| `VLogLimits.FirstBooksReached` | crates/skeg-core/src/vlog.rs:507-534 | the ledgers of the acknowledged state used next |
| `VLogLimits.LiveOvercounted` | crates/skeg-core/src/vlog.rs:486-533 | from the reached race of a relocation and a write: the live counter of the copy's segment ends too high by the size of the copy |
| `VLogSnapshot.ReplayDecides` | crates/skeg-core/src/vlog.rs:303-318 | after the replay the last record of a key from the high-water mark on decides, and without one the snapshot |
| `VLogPlaces.PlaceUnique` | crates/skeg-core/src/vlog.rs:451-461 | no two records of a file begin at one offset |
| `VLogPlaces.PlaceStays` | crates/skeg-core/src/vlog.rs:451-461 | as long as a file keeps the blobs up to a record's, the read at its offset finds it |
| `VLogSnapshot.SinceNext` | crates/skeg-core/src/vlog.rs:756-772 | what the snapshot relies on survives every step, crashes and reopens included |
| `VLogSnapshot.SnapshotIff` | crates/skeg-core/src/vlog.rs:273-328 | snapshot recovery shows the map of the full scan if and only if last records have the effect of newest ones and the entries of keys without a record in the tail still read their values |
| `VLogReopen.SoundIff` | crates/skeg-core/src/vlog.rs:273-328 | its index holds highest-timestamp records, as the full scan's does, if and only if last records are newest ones and the entries of the other keys still find their records |
| `VLogReopen.InOrderIsHighest` | crates/skeg-core/src/vlog.rs:303-318 | the first half holds whenever scan order agrees with timestamp order |
| `VLogReopen.DurableSnapshotSound` | crates/skeg-core/src/vlog.rs:273-328 | so, with entries that were synced when the snapshot was taken, it is as good as the full scan, to read and to go on from |
| `VLogReopen.SnapshotOfRunIff` | crates/skeg-core/src/vlog.rs:273-328 | the exact condition for the same map over whole runs, any steps and crashes between the snapshot and the open, the fallback to the full scan included |
| `VLogReopen.SnapshotClock` | crates/skeg-core/src/vlog.rs:289-318 | the clock an open from the snapshot computes is past every record on disk |
| `VLogReopen.SnapshotStepIff` | crates/skeg-core/src/vlog.rs:273-328 | the exact condition, over whole runs, under which an open from the snapshot is a reopen of the machine |
| `VLogReuse.ReopenedReached` | crates/skeg-core/src/vlog.rs:329-365 | a crash of the relocated state that drops the unsynced copy, and the reopen by full scan |
| `VLogReuse.ReusedReached` | crates/skeg-core/src/vlog.rs:478-535 | a `set` of another key, acknowledged, whose record begins where the copy began |
| `VLogReuse.SnapshotReadsAnotherKey` | crates/skeg-core/src/vlog.rs:451-461 | beside a snapshot of the relocated state, which is used and whose tail is in order, the first key then reads the other key's value, where the full scan shows its own |
| `VLogCommit.CommitGood` | crates/skeg-core/src/vlog.rs:478-535 | a client operation run alone keeps invariant and ledgers and applies its records to the map |
| `VLogCommit.BuildMembers` | crates/skeg-core/src/vlog.rs:611-634 | the first loop of `set_many`: consecutive timestamps and the size of the blob |
| `VLogCommit.ApplyBatch` | crates/skeg-core/src/vlog.rs:648-691 | its second loop: index, cache and ledgers member by member equal one commit of the batch |
| `VLogCommit.SetBatch` | crates/skeg-core/src/vlog.rs:599-691 | all pairs in order or nothing, decided by the size of the encoded batch |
| `VLogOpen.FullScan` | crates/skeg-core/src/vlog.rs:329-365 | the scan loops compute the winners, and a clock above every timestamp on disk |
| `VLogOpen.BuildIndex` | crates/skeg-core/src/vlog.rs:360-364 | the winners that are not tombstones become the index |
| `VLogOpen.SeedLive` | crates/skeg-core/src/vlog.rs:367-372 | the live counters are those of seeding in iteration order, and exact |
| `VLogOpen.RecoverTenantDisk` | crates/skeg-core/src/vlog.rs:194-199 | the tenants' disk counters likewise |
| `VLogReclaim.RelocateIsSteps` | crates/skeg-core/src/vlog.rs:1061-1117 | a relocation run alone is its machine steps composed |
| `VLogReclaim.FullSegmentIsClean` | crates/skeg-core/src/vlog.rs:980-1009 | a segment whose live bytes fill its file holds no dead record, so skipping it is right |
| `VLogReclaim.Compact` | crates/skeg-core/src/vlog.rs:1026-1188 | the map is unchanged, the source is gone, the dead records elsewhere are those of before; the active and unknown segments are left alone |
| `VLogReclaim.ReclaimAll` | crates/skeg-core/src/vlog.rs:980-1009 | the map is unchanged and the dead records left are exactly those of segments whose live counter has reached the size of their file: none if the counters are exact |
| `VLogStore.VLog.Open` | crates/skeg-core/src/vlog.rs:249-419 | the opened store shows, for each key, the value of its highest timestamp on disk, and its clock is above all of them |
| `VLogStore.VLog.Get` | crates/skeg-core/src/vlog.rs:434-461 | with or without the cache, the value the map holds |
| `VLogStore.VLog.Set` | crates/skeg-core/src/vlog.rs:478-535 | the map with the key set, refused exactly above the quota and then without effect |
| `VLogStore.VLog.Append` | crates/skeg-core/src/vlog.rs:558-580 | the value grown at its end and the new length, refused exactly above the quota |
| `VLogStore.VLog.Del` | crates/skeg-core/src/vlog.rs:698-723 | the map without the key, and whether it was there |
| `VLogStore.VLog.SetMany` | crates/skeg-core/src/vlog.rs:599-691 | all pairs in order, later ones winning, or nothing |
| `VLogStore.VLog.CompactSegment` | crates/skeg-core/src/vlog.rs:1026-1188 | invisible to clients; the source is cleared |
| `VLogStore.VLog.ReclaimAllDead` | crates/skeg-core/src/vlog.rs:980-1009 | invisible to clients; no overwritten or deleted value stays on disk |
| `SnapshotCodec.Encode` | crates/skeg-core/src/snapshot.rs:59-77 | the buffer grown entry by entry is the snapshot's encoding |
| `SnapshotCodec.Decode` | crates/skeg-core/src/snapshot.rs:82-135 | the loop with its cursor decodes as specified, rejecting bad magic, version, checksum and lengths |
| `SnapshotCodec.DecodeEncodeSnapshot` | crates/skeg-core/src/snapshot.rs:59-135 | decoding an encoded snapshot returns it |
| `Payloads.LessTotal` | crates/skeg-server/src/payload.rs:20-32 | the derived order, keywords before integers, is total and strict |
| `Payloads.IndexDetermined` | crates/skeg-server/src/payload.rs:55-96 | the fields of the ids determine the postings: no stale or empty rows |
| `Payloads.PayloadIndex.Upsert` | crates/skeg-server/src/payload.rs:63-76 | the id carries exactly its new fields, and none removes it |
| `Payloads.PayloadIndex.Remove` | crates/skeg-server/src/payload.rs:79-96 | every posting of the id goes and nothing else |
| `Filters.SortDedup` | crates/skeg-server/src/payload.rs:132-136 | a strictly increasing list of the same ids |
| `Filters.IntersectSorted` | crates/skeg-server/src/payload.rs:139-154 | two pointers: exactly the common ids, strictly increasing |
| `Filters.RangeIds` | crates/skeg-server/src/payload.rs:114-124 | the ids with a value in the range, and a panic exactly on a bad range of an indexed field |
| `Filters.InIds` | crates/skeg-server/src/payload.rs:181-250 | the union of the postings of the listed values |
| `Filters.Evaluate` | crates/skeg-server/src/payload.rs:181-250 | a strictly increasing list of exactly the indexed ids that satisfy the formula; a panic exactly where a bad range is reached |
| `Filters.EvaluateAnd` | crates/skeg-server/src/payload.rs:181-250 | smallest-first intersection, early exits and the AND-NOT difference give pointwise conjunction |
| `Filters.EvaluateOr` | crates/skeg-server/src/payload.rs:181-250 | the union gives pointwise disjunction |
| `Filters.OrderedNeverPanics` | crates/skeg-server/src/payload.rs:181-250 | with ordered bounds nothing panics, whatever is indexed |
| `FilterRender.RenderParsed` | crates/skeg-server/src/payload.rs:308-447 | parsing the tokens of any rendering of a filter returns it |
| `FilterText.SpacedRead` | crates/skeg-server/src/payload.rs:268-298 | tokenizing tokens separated by spaces returns them |
| `FilterText.ParseInvertsRender` | crates/skeg-server/src/payload.rs:268-447 | `parse_filter` returns the filter from the text of any of its renderings |
| `FilterText.ParseStable` | crates/skeg-server/src/payload.rs:268-447 | whatever parses is a tree the grammar can write, and parses again to itself |
| `FilterText.ReversedBetween` | crates/skeg-server/src/payload.rs:377-423 | reversed `BETWEEN` bounds parse, and evaluation panics if and only if the field is indexed |
| `FilterParser.Tokenize` | crates/skeg-server/src/payload.rs:268-298 | the character loop refines the tokenizer function |
| `FilterParser.ParseFilter` | crates/skeg-server/src/payload.rs:308-319 | the whole input must be used up |
| `FilterParser.ParseOr` | crates/skeg-server/src/payload.rs:321-332 | the cursor loop refines the grammar, ends, and stays within the tokens |
| `FilterParser.ParseAnd` | crates/skeg-server/src/payload.rs:334-345 | the same one level down |
| `FilterParser.ParseNot` | crates/skeg-server/src/payload.rs:347-353 | the same for negations |
| `FilterParser.ParseAtom` | crates/skeg-server/src/payload.rs:355-366 | the same for parentheses and predicates |
| `FilterParser.TakeValue` | crates/skeg-server/src/payload.rs:368-375 | one unreserved token or an error |
| `FilterParser.ParsePredicate` | crates/skeg-server/src/payload.rs:377-423 | the seven forms, and the AND of `BETWEEN` never taken for a conjunction |
| `FilterParser.ParseIn` | crates/skeg-server/src/payload.rs:429-447 | the value list of `IN` |
| `Streaming.ChunkingInvariant` | crates/skeg-resp3/src/decoder.rs:73-81 | for any prefix-stable decoder, reading in chunks gives the frames and the first error of the whole stream |
| `Streaming.StreamRead` | crates/skeg-resp3/src/decoder.rs:73-81 | encoded frames, concatenated and cut anywhere, are decoded back with nothing left over |
| `Decimal.ParsePrint` | crates/skeg-resp3/src/parser.rs:116-125 | a printed 64-bit integer is read back |
| `RespCodec.ParseEncode` | crates/skeg-resp3/src/encoder.rs:28-173 | parsing an encoding returns the frame under RESP3 and its downgrade under RESP2, and uses exactly the encoding |
| `RespStream.FrameStable` | crates/skeg-resp3/src/parser.rs:60-342 | a frame or an error is unchanged by bytes that follow |
| `RespStream.RespChunking` | crates/skeg-resp3/src/decoder.rs:73-81 | however a RESP stream is cut, the frames and the first error are those of the whole |
| `RespStream.FrameDecoder.Decode` | crates/skeg-resp3/src/decoder.rs:73-81 | a frame leaves the buffer, part of one or an error stays |
| `RespStream.FrameDecoder.DecodeChunks` | crates/skeg-resp3/src/decoder.rs:42-81 | a connection's reads give the frames and the first error of the stream |
| `RespWire.Buffer.EncodeFrame` | crates/skeg-resp3/src/encoder.rs:28-88 | the recursive writer appends exactly the encoding |
| `RespWire.Buffer.WriteSeq` | crates/skeg-resp3/src/encoder.rs:112-119 | head and children in order |
| `RespWire.Buffer.WriteMap` | crates/skeg-resp3/src/encoder.rs:121-135 | pairs under RESP3, a flat array of twice the count under RESP2 |
| `RespWire.ReadItems` | crates/skeg-resp3/src/parser.rs:171-225 | the aggregate loop with its cursor refines the recursive parser |
| `RespWire.EncodedStreamRead` | crates/skeg-resp3/src/encoder.rs:28-173 | a stream of encodings cut anywhere decodes to what a client of that version sees |
| `NativeFrames.FrameRead` | crates/skeg-proto/src/frame.rs:133-212 | a whole native frame in front of anything is decoded to itself |
| `NativeFrames.NativeChunking` | crates/skeg-proto/src/frame.rs:79-124 | chunking a native stream changes neither its frames nor its first error |
| `NativeFrames.NativeStreamRead` | crates/skeg-proto/src/frame.rs:79-212 | concatenated native encodings decode to the original list of frames |
| `NativeFrames.FrameParser.Feed` | crates/skeg-proto/src/frame.rs:79-124 | the two-state parser returns the first frame or error of what it has seen and leaves the rest |
| `NativeFrames.FrameParser.FeedAll` | crates/skeg-proto/src/frame.rs:79-124 | the caller's loop drains an input |
| `Pipeline.VersionAtSubmission` | crates/skeg-resp3/src/connection.rs:42-93 | a reply is in the version in force before its request if and only if the request is not a `HELLO` that is let in and names the other version; a `HELLO` that is let in announces the version its reply is in; nothing else changes version or tenant |
| `Pipeline.HelloAnsweredInNewVersion` | crates/skeg-server/src/resp3_handler.rs:471-493 | `HELLO 3` on a fresh connection without a backend is answered in RESP3 |
| `Pipeline.RepliesInOrder` | crates/skeg-server/src/resp3_handler.rs:189-311 | in every state of every run, whatever order tasks end in and whatever they return: one reply per request in request order, each with what that very request returned and in the version its place calls for; at most 128 in flight, each with the tenant at its submission |
| `Pipeline.ReplyVersion` | crates/skeg-server/src/resp3_handler.rs:212-265 | a reply, written at whatever later step, is in the version of the step that took its request if and only if the request is not a `HELLO` that is let in and names the other version |
| `Pipeline.AllAnswered` | crates/skeg-server/src/resp3_handler.rs:267-311 | with the window empty and nothing held back, every request has its reply |
| `Pipeline.BarrierAlone` | crates/skeg-server/src/resp3_handler.rs:239-266 | when a command that is not pipelined runs, every earlier task has ended and been answered, and it runs in the session they left |
| `Pipeline.Connection.EmitFront` | crates/skeg-server/src/resp3_handler.rs:189-311 | the oldest task is awaited and its reply written; what is owed and what was sent together do not change |
| `Pipeline.Connection.Drain` | crates/skeg-server/src/resp3_handler.rs:189-311 | everything owed is sent in order |
| `Pipeline.Connection.Submit` | crates/skeg-server/src/resp3_handler.rs:189-311 | a pipelined command joins the window, which never grows past its limit |
| `Pipeline.Connection.Serve` | crates/skeg-server/src/resp3_handler.rs:189-311 | the loop over its own fields, for every sequence of frames and pauses and every result of every task: the same replies, and at most 128 in flight |

## Left out

- Platform files, io_uring, locks, affinity and cgroups: a file is its bytes or its blobs, and a write or sync may fail where the committers handle it.
- Channels, timers, threads, telemetry and error texts: a step is chosen freely, and errors carry no message.
- Vector indexes, quantisation, the shard layer, command parsing, key-value dispatch, admin verbs, quotas above the store, tenancy wrappers: single checks or code over other stores.
- `pick_compaction_candidate` and `maybe_compact`: they only choose a source, and every choice is covered. The number of records `compact_segment` returns is not modelled.
- Record locations in the value log are (segment, blob, position); byte offsets appear in `SegmentScan`, `BatchGates`, `SegmentRecovery`, `VLogFiles`, `VLogPlaces`, `Rotation` and the committers.
- The u16 bound on segment ids is modelled in `Rotation` only; counters are unbounded except where a wrap is written out (cache subtraction, acknowledged sizes).
- CRC-32C and the key hash are arbitrary functions. `SegmentScan.MissesZeros` needs that the checksum of an all-zero header is not zero.
- Doubles are opaque values with a printer and a parser that invert each other on the frames the round trip is stated for.
- Ghost-queue hashes and tenant ids are numbers; the tenant of a key is the prefix the store reads.
- `VLogStore.VLog`: I/O succeeds and operations do not overlap; whether `maybe_rotate` rotates is an argument. Overlap and crashes are in the machine, I/O failure in the committers. A failed append inside the store's own error paths is not modelled. Its fields are held in one value `st` and the two ledgers in `books`.
- In the value log the cache is a map that may lose any entry at any time; `CacheStore.S3Fifo` is the cache itself. That an insert of it may not return is not carried back into the log.
- Writes at relaxed durability: the machine acknowledges a write only once a sync has covered it, as the kernel and power levels do.
- After a crash the kept bytes count as durable when the store reopens.
- VLogReopen.SnapshotOfRunIff: the snapshot is taken when no append or copy is in flight below its high-water mark; without that it may lose an acknowledged write, as `VLogLimits.SnapshotMissesPendingWrite` shows. An entry reads the record that begins at its offset, counted over whole blobs: the 128 bytes a torn batch of one may leave in front of later records are not counted, and a record's image inside another record's value is not read as a record.
- VLogLedgers.SegmentLiveExact: is stated for runs in which no relocation overtakes an operation on its key, because outside them the counters over-count; `SegmentLiveNeverBelow` holds in all runs, and the single-step condition is exact in `StaleSetIff` and `StaleDelIff`.
- VLogStore.VLog.Open: takes files the store itself can have written, in which no two different records share key and timestamp; every step and every crash of the machine keeps that (`VLogRuns.StepInv`).
- CacheVictims.LeastTouched: is stated for runs without `remove`; `CacheVictims.MainVictim`, which it follows from, is not.
- SharedCommit.Committer.Serve: reads the single sync of a flush as a barrier for the whole device, as the source does.
- CacheRuns.AlwaysEndsIff: quantifies over runs without `remove`; with it `CacheLoop.LoopEndsIff` gives the condition state by state.
- Pipeline.Connection.Serve: write failures end a connection and are not modelled; a task that never ends blocks the loop, and nothing is said of it. Replies of commands other than `HELLO` are arbitrary: pipelined commands may take effect in another order than they are answered.
