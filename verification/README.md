# A verified model of the DStore storage engine core

DStore is a database storage engine. This project models its concurrent flush and recovery core and
several of its data layouts in Dafny, and proves what they guarantee.

- **Dirty pages and recovery** (`DirtyPage*.dfy`, `CrashRecovery.dfy`). Writers mark pages dirty, push
  them on a lock-free queue and append WAL records; the background page writer scans the queue, has
  pages flushed, moves the queue head with 128-bit compare-and-swap and publishes the recovery PLSN.
  The model is a transition system over any number of pages and threads, one step per access to
  shared memory. In every run, at any time, a recovery PLSN published so far is a safe redo point, and
  redo from it rebuilds every page, exactly when the pages handed to the slave writers and not yet
  reported flushed are on disk below it. In runs in which the master waits for every page it handed out,
  this is always so; a run in which it does not publishes an unsafe PLSN. In every run none of the
  release panics on the way can fire, except the two that compare recovery PLSNs: those need that no
  compare-and-swap succeeds on a word that went away and came back, and a run shows that without this
  Push stops the process. A round removes exactly the entries it scanned and publishes the PLSN of the
  last one, or stops at the first page it cannot park. Rebuilt means that the page holds every record it
  has in the WAL, once and in order.
- **Flush handshake** (`FlushHandshake.dfy`, `FlushBarrier.dfy`, `FlushRounds.dfy`, `FlushWakeups.dfy`,
  `FlushWrap.dfy`).
  The master publishes candidates in a 64-bit word, slaves claim batches with compare-and-swap, sleep on
  a condition variable and report through a flag. In every run whose 32-bit start does not wrap, spurious
  wake-ups and stale sizes included: claims of a round never overlap, a woken slave never sleeps while
  slots are unclaimed, and when the master has seen every slave idle nobody is at work, a published slot
  was claimed exactly when no claim of the round left it out, and flushed exactly when it was claimed or
  an older claim was under way. When the claims since the last completed round agree with the word every
  slot was flushed exactly once; runs without spurious wake-ups always do, and a run with one spurious
  wake-up loses a batch.
- **Both together** (`FlushRecovery*.dfy`, `FlushRoom.dfy`). The queue and the handshake composed over the
  candidate array. In every run in which no claim wraps the start or, in a published round, stops short,
  spurious wake-ups included, redo from every PLSN ever published rebuilds every page. Runs without
  spurious wake-ups are such runs; a run with short claims publishes an unsafe PLSN. In every run the
  array has room.
- **In-place update** (`TupleDiff.dfy`, `HeapUpdate.dfy`, `HeapWal.dfy`). The right-aligned tuple
  difference, the redo and undo records made from it, and the byte layouts of the heap WAL records.
- **Control file pages** (`ControlPages.dfy`). Items packed in linked pages and a scan that deletes
  while it iterates.
- **LRU lists and the elastic pool** (`Lru*.dfy`, `ListScan.dfy`, `BufferPool.dfy`). Ownership of
  nodes over all interleavings, the list and end every node goes to, what usage counts decide, intrusive
  lists scanned under removal, pool alignment, growth and fill.
- **Checkpoint counters and packed attributes** (`Checkpoint.dfy`, `Attributes.dfy`).

## How the models are built

Concurrent code is a transition system: a `State`, an `Action`, an `Enabled` predicate for the locks,
and an `Apply` function with one case per program point. Runs are sequences of states and actions from
the initial state. Fields marked as history in the comments are written but never read by a step.
The queue invariant is a conjunction of small predicates, each over only the part of the state it
depends on; every step lemma re-establishes the ones it touches. Objects that the source updates one
call at a time are classes; loops over byte buffers are loops over arrays.

Where code and comments disagree, the model follows the code:

- The comment of `DirtyPageQueue` argues that the recovery PLSN of the queue head is safe. It is not
  when a page was written again after its flush and is parked outside the queue (`HeadUnsafe`); the
  exact condition is `HeadSafeIff`.
- The page writer advances the queue head once it has seen every slave idle. When a batch was lost
  (`SpuriousLosesBatch`) this publishes a recovery PLSN above a record that is not on disk
  (`RecoveryUnsafe`, `SpuriousUnsafe`); the exact condition is `PublishedSafeIff`, and it always holds
  when no claim of a published round stops short (`RoundsRecover`).
- The comment of `CheckpointRequest` promises that a completed checkpoint sets the done counter to the
  start counter, that failures are counted, and that request flags are used. The code adds one to the
  done counter, counts no failures and ignores flags (`DoneCatchesUpIff`, `StillWaiting`); what a
  backend may still conclude is `RequestServed`.
- A slave reads the size of the candidate array and claims in two separate accesses, so a claim can
  use a size of another round (`ClaimExactIff`, `SpuriousLosesBatch`); what a round then guarantees is
  `AllClaimedIff` and `BarrierIff`.
- An insert record has room for a command id whenever the table is in the decode dictionary, also when
  no valid id is written; read from the back it is then misread (`InsertRoomIff`).
- The comment of `PushBackToLru` promises the LRU tail for a buffer that was not reused after all. The
  code puts it at the head in both cases (`Destination`).
- The hot list compares its length with the bound for equality only, so pushes keep it above a bound that
  was lowered until `ResizeHotList` returns (`NextHot`, `HotGrowth`, `ResizeRestores`).

## Model

| member | source | states |
|---|---|---|
| DirtyPageSafety.NextInv | src/buffer/dstore_bg_page_writer_mgr.cpp:483-703 | every step of every thread keeps the invariant, also when the master goes on before its candidates are flushed: the linked list from head to tail is the entries in push order, up to links still to be written, a page carries a recovery PLSN only while queued or parked, and every record missing on disk is answered for by a queued, parked or candidate page |
| DirtyPageSafety.ExecutionInv | src/buffer/dstore_bg_page_writer_mgr.cpp:483-703 | the invariant holds in every state of every run |
| DirtyPageSafety.RecoveryIsSafe | include/buffer/dstore_bg_page_writer_mgr.h:73-95 | when the master goes on only after every page it handed out was reported flushed, all WAL records below the published recovery PLSN are in the disk image of their page in every state of the run, in whatever order pushers read PLSNs and took the tail |
| DirtyPageSafety.SafePointsStay | include/buffer/dstore_bg_page_writer_mgr.h:73-95 | a safe redo point stays safe in every later state of the run |
| DirtyPageSafety.NextSafe | include/buffer/dstore_bg_page_writer_mgr.h:73-95 | one step never makes a safe redo point unsafe |
| DirtyPageSafety.PublishedStaysSafe | src/buffer/dstore_bg_disk_page_writer.cpp:149-170 | in such runs every recovery PLSN ever published is safe in every later state |
| DirtyPageSafety.PublishedSafeIff | src/buffer/dstore_bg_disk_page_writer.cpp:149-170 | in every run, a recovery PLSN published now or earlier is a safe redo point exactly when the pages handed to the slave writers and not yet reported flushed are on disk below it |
| DirtyPageSafety.NextOwed | src/buffer/dstore_bg_page_writer_mgr.cpp:637-703 | what the slave writers owe below a PLSN stays owed until it is on disk |
| DirtyPageSafety.NextIsSafe | src/buffer/dstore_bg_disk_page_writer.cpp:92-174 | a step that leaves the wait only with every candidate flushed keeps the published PLSN, and the one about to be published, safe |
| DirtyPageSafety.NeverStops | src/buffer/dstore_bg_page_writer_mgr.cpp:483-683 | no state of any run fails the checks of Push (floor, unlinked page), Remove (page is in the queue), AdvanceHeadAfterFlush (the list has not ended early), the parked-page scan, TerminateIo and the end of a WAL write |
| DirtyPageSafety.HeadSafeIff | src/buffer/dstore_bg_page_writer_mgr.cpp:545-560 | in every reachable state the recovery PLSN of the queue head is a safe redo point exactly when the parked pages and the candidates have no older record left to write |
| DirtyPageWitness.HeadUnsafe | include/buffer/dstore_bg_page_writer_mgr.h:73-95 | a run reaches a nonempty queue whose head's recovery PLSN is above a record that is not on disk |
| DirtyPageWitness.RecoveryUnsafe | src/buffer/dstore_bg_disk_page_writer.cpp:134-165 | a run in which the master goes on although a page it handed out was not flushed publishes a recovery PLSN above a record that is not on disk |
| DirtyPageWitness.PushCanStop | src/buffer/dstore_bg_page_writer_mgr.cpp:515-518 | a run in which a page leaves the queue and comes back between another writer's read and swap of the word reaches the predecessor check of Push with a younger predecessor |
| DirtyPageOrder.NeverMisordered | src/buffer/dstore_bg_page_writer_mgr.cpp:567-607 | when no swap succeeds on a word rewritten since it was read, the queue is sorted by recovery PLSN and the checks against the predecessor and against the published PLSN pass |
| DirtyPageOrder.RecoveryMonotone | src/buffer/dstore_bg_disk_page_writer.cpp:162-170 | in such runs the recovery PLSN never goes back |
| DirtyPageOrder.NextOrdered | src/buffer/dstore_bg_page_writer_mgr.cpp:567-703 | every step of such a run keeps the order of PLSNs |
| DirtyPageWriters.WriterInv | src/buffer/dstore_buf_mgr.cpp:878-935 | the steps of MarkDirty, Push and the WAL append keep the invariant |
| DirtyPageWriters.SwappedInv | src/buffer/dstore_bg_page_writer_mgr.cpp:567-607 | taking the tail with a PLSN read at any earlier time keeps the invariant |
| DirtyPageWriters.StoreInv | src/buffer/dstore_bg_page_writer_mgr.cpp:507-511 | storing the recovery PLSN after the swap keeps the invariant |
| DirtyPageWriters.LinkedInv | src/buffer/dstore_bg_page_writer_mgr.cpp:514-518 | linking the predecessor after the swap keeps the invariant |
| DirtyPageWriters.AppendInv | src/wal/dstore_wal_write_context.cpp:212-264 | appending the last record of a writer on its page keeps the invariant |
| DirtyPageWriters.LogInv | src/wal/dstore_wal_write_context.cpp:212-264 | appending any number of records of a marked page keeps the invariant |
| DirtyPageWriters.LoggedAnswered | include/buffer/dstore_bg_page_writer_mgr.h:83-90 | a new record is answered for by the entry of its page: PLSN read, push and WAL insert in this order |
| DirtyPageIo.StartIoInv | src/buffer/dstore_buf_mgr.cpp:1046-1110 | starting a page write keeps the invariant |
| DirtyPageIo.TerminateIoInv | src/buffer/dstore_buf_mgr.cpp:3706-3729 | ending a page write keeps the invariant, also when the page was marked again meanwhile |
| DirtyPageIo.SkipCleanInv | src/buffer/dstore_buf_mgr.cpp:1153-1166 | skipping a candidate found clean keeps the invariant |
| DirtyPageMaster.MasterInv | src/buffer/dstore_bg_disk_page_writer.cpp:92-174 | every step of the master keeps the invariant; what a round removes and publishes is `DirtyPageRounds` |
| DirtyPageMaster.TakeParkedInv | src/buffer/dstore_bg_disk_page_writer.cpp:384-397 | taking a parked page, which may be pushed again at once, keeps the invariant |
| DirtyPageMaster.ScannedPageInv | src/buffer/dstore_bg_disk_page_writer.cpp:403-424 | scanning an entry, with its dirty flag read without a lock, keeps the invariant |
| DirtyPageMaster.ScanAnswered | src/buffer/dstore_bg_disk_page_writer.cpp:149-161 | when the wait is over the scanned entries can be removed: a record still missing is above their PLSNs, or its page is a candidate still to be flushed |
| DirtyPageMaster.AdvLockInv | src/buffer/dstore_bg_page_writer_mgr.cpp:663-670 | parking a page that is dirty again, or stopping when it cannot be parked, keeps the invariant |
| DirtyPageMaster.PoppedInv | src/buffer/dstore_bg_page_writer_mgr.cpp:609-635 | moving the head past the first entry, against concurrent pushes, keeps the invariant |
| DirtyPageMaster.AdvRemInv | src/buffer/dstore_bg_page_writer_mgr.cpp:528-543 | clearing the removed entry keeps the invariant |
| DirtyPageMaster.GoalOwed | src/buffer/dstore_bg_page_writer_mgr.cpp:658-682 | below the recovery PLSN of every entry the round removes, only candidates have records to write |
| DirtyPageMaster.EmptyCasInv | src/buffer/dstore_bg_page_writer_mgr.cpp:685-703 | tagging an empty queue with the WAL end read before the scan keeps the invariant |
| DirtyPageMaster.EmptyOwed | src/buffer/dstore_bg_page_writer_mgr.cpp:685-703 | with an empty queue and no parked page, only candidates have records to write |
| DirtyPageRounds.ScanEnds | src/buffer/dstore_bg_disk_page_writer.cpp:372-427 | in every run: a scan takes all parked pages and looks at as many entries as the queue length it read, bounded by the capacity; it looks at fewer only when the list ended behind the last one |
| DirtyPageRounds.HandedOut | src/buffer/dstore_bg_disk_page_writer.cpp:385-417 | only a dirty page becomes a candidate: the parked one taken or the entry looked at |
| DirtyPageRounds.Reported | src/buffer/dstore_bg_disk_page_writer.cpp:633-653 | a candidate stops being one exactly when it is found clean, or a write of it begun for a slave ends |
| DirtyPageRounds.RoundRemoves | src/buffer/dstore_bg_page_writer_mgr.cpp:637-683 | in every run: a round that scanned entries removes exactly that many, whatever is pushed meanwhile, and publishes the recovery PLSN of the last one; when a page dirty again cannot be parked it removes fewer and publishes the recovery PLSN of the entry at the head; nothing is published before |
| DirtyPageRounds.NextRemoving | src/buffer/dstore_bg_page_writer_mgr.cpp:658-682 | every step of every thread keeps the number of entries the round is still to remove in step with those removed |
| DirtyPageRounds.EmptyRoundPublishes | src/buffer/dstore_bg_disk_page_writer.cpp:162-165 | in every run: a round with nothing to remove publishes the PLSN read before the scan exactly when the queue word is still the empty one it read, and otherwise nothing |
| CrashRecovery.RedoRebuildsIff | src/wal/dstore_wal_recovery.cpp:442-485 | redo from a PLSN, which replays a record only onto the version it was built on, gives every page each of its records in the WAL, once and in order, exactly when the PLSN is a safe point |
| CrashRecovery.CrashRebuilds | include/buffer/dstore_bg_page_writer_mgr.h:73-95 | in runs in which the master waits for every page it handed out: after a crash in any state, redo from the recovery PLSN published then or at any earlier time gives every page all its records |
| CrashRecovery.CrashRebuildsIff | src/buffer/dstore_bg_disk_page_writer.cpp:149-170 | in every run: redo from a published recovery PLSN gives every page all its records exactly when the candidates not yet reported flushed are on disk below it |
| CrashRecovery.RedoCompletes | src/wal/dstore_wal_recovery.cpp:442-485 | redo from a record finishes a page that is at that version or later: it then holds every record of the page, once and in order |
| CrashRecovery.RedoStuck | src/wal/dstore_wal_recovery.cpp:448-485 | redo never finishes a page that misses an older record |
| CrashRecovery.VersionContains | src/wal/dstore_wal_recovery.cpp:442-485 | a page after the first records of the WAL holds exactly its own ones among them, in increasing order, and the PLSN of the last |
| CrashRecovery.VersionOnly | src/wal/dstore_wal_recovery.cpp:442-485 | no other page image holds the same records |
| FlushRounds.Barrier | src/buffer/dstore_bg_disk_page_writer.cpp:454-478 | in runs whose claims all agree with the word: when the master has seen every slave idle, each slot published in the round was flushed exactly once and no slave is at work |
| FlushRounds.BarrierIff | src/buffer/dstore_bg_disk_page_writer.cpp:454-478 | in every run that does not wrap the start: when the master has seen every slave idle, every published slot was flushed since the publication exactly when each slot left out by a claim of the round had an older claim under way at the publication |
| FlushRounds.ClaimedIff | src/buffer/dstore_bg_disk_page_writer.cpp:557-573 | in every such run: at the end of a round a published slot was claimed exactly when no claim of the round left it out |
| FlushRounds.AllClaimedIff | src/buffer/dstore_bg_disk_page_writer.cpp:557-573 | in every such run: every published slot of a round was claimed exactly when no claim of the round stopped short of the batch of the word |
| FlushRounds.FlushedIff | src/buffer/dstore_bg_disk_page_writer.cpp:557-653 | in every such run: at the end of a round a slot was flushed since the publication exactly when it was claimed in the round or an older claim was under way to it |
| FlushRounds.ClaimsDisjoint | include/buffer/dstore_bg_page_writer_base.h:104-139 | in every such run the batches of two claims of a round do not overlap, whatever sizes they use |
| FlushRounds.NobodyAtWork | src/buffer/dstore_bg_disk_page_writer.cpp:454-478 | in every such run: when the master has seen every slave idle nobody is at work and nothing is left to claim |
| FlushRounds.BarrierSince | src/buffer/dstore_bg_disk_page_writer.cpp:454-478 | when only the claims since the scan after the last completed round agree with the word, every slot published in the round was flushed exactly once, whatever happened before |
| FlushRounds.NextRest | include/buffer/dstore_bg_page_writer_base.h:141-144 | after a completed round Set(0) brings the invariant of agreeing claims back, whatever happened before |
| FlushRounds.NextAwake | include/buffer/dstore_bg_disk_page_writer.h:129-156 | every step that does not wrap the start keeps that a woken slave sleeps only when nothing is left, and then claims nothing |
| FlushRounds.NoLostWakeup | include/buffer/dstore_bg_disk_page_writer.h:129-156 | in every run whose start does not wrap, spurious wake-ups and stale sizes included, a slave the master has woken is not asleep while slots are unclaimed |
| FlushRounds.StopsClaiming | src/buffer/dstore_bg_disk_page_writer.cpp:604-623 | in every run a slave goes from its work to the sleep test only when its claim was past the size it read, or the start read after its batch was at or past the valid size |
| FlushWrap.WrapLosesWakeup | include/buffer/dstore_bg_page_writer_base.h:104-115 | a run in which spurious wake-ups wrap the 32-bit start leaves a woken slave asleep over unclaimed slots |
| FlushRounds.ClaimedOnce | include/buffer/dstore_bg_page_writer_base.h:104-139 | when the claims since the scan after the last completed round agree with the word, the claimed slots are those below the minimum of start and valid size, each has one claimant, and none is flushed twice |
| FlushBarrier.ClaimExactIff | src/buffer/dstore_bg_disk_page_writer.cpp:557-573 | a claim keeps the claimed slots a prefix of the array exactly when the size read before gives the same batch as the word |
| FlushBarrier.NextInv | src/buffer/dstore_bg_disk_page_writer.cpp:557-653 | every step whose claim agrees with the word keeps the invariant of the handshake, spurious wake-ups included |
| FlushBarrier.ExecutionInv | src/buffer/dstore_bg_disk_page_writer.cpp:454-653 | the invariant of the handshake holds in every state of such a run |
| FlushWakeups.QuietIsSound | include/buffer/dstore_bg_disk_page_writer.h:149-156 | in runs without spurious wake-ups, with an array and slaves that fit (capacity plus 1000 slots for each of two claims per slave and two more is below 2^32), every claim agrees with the word and the 32-bit start never wraps |
| FlushWakeups.QuietBarrier | src/buffer/dstore_bg_disk_page_writer.cpp:454-478 | in such runs, with an array and slaves that fit, the barrier holds |
| FlushWakeups.OverBound | include/buffer/dstore_bg_page_writer_base.h:104-115 | without spurious wake-ups a slave claims past the end at most twice in a round |
| FlushWakeups.SpuriousLosesBatch | src/buffer/dstore_bg_disk_page_writer.cpp:557-573 | a run with one spurious wake-up passes the barrier with a published slot never flushed |
| FlushRecovery.NextInv | src/buffer/dstore_bg_disk_page_writer.cpp:92-174 | every step of queue and handshake together that makes no wrapping claim, and in a published round no short one, keeps that the published PLSN is safe and that every candidate has a slot that is unclaimed or under way |
| FlushRecovery.ReportInv | src/buffer/dstore_bg_disk_page_writer.cpp:633-653 | when a slave has written or skipped the page of its slot, every page that stays a candidate still has such a slot |
| FlushRecovery.NoneLeft | src/buffer/dstore_bg_disk_page_writer.cpp:471-478 | when no slot of the round is unclaimed or under way no candidate is left |
| FlushRecovery.RoundsRecover | src/buffer/dstore_bg_disk_page_writer.cpp:92-174 | in every run of both, spurious wake-ups included, whose claims do not wrap the start and, in a published round, do not stop short: after a crash in any state, redo from the recovery PLSN published then or at any earlier time rebuilds every page |
| FlushRecovery.QuietRecovery | src/buffer/dstore_bg_disk_page_writer.cpp:92-174 | the same in every run of both without spurious wake-ups, with an array and slaves that fit |
| FlushRoom.NoOverflow | src/buffer/dstore_bg_disk_page_writer.cpp:380-424 | in every run of both the pages handed out in a round fit in an array with one slot for every buffer |
| FlushRoom.NewStill | src/buffer/dstore_bg_disk_page_writer.cpp:380-424 | a page handed out was still to be looked at in this scan and is not any more |
| FlushRoom.NextStill | src/buffer/dstore_bg_disk_page_writer.cpp:380-424 | no step brings a page back into the scan, also when it is pushed again |
| FlushRecoveryWitness.SpuriousUnsafe | src/buffer/dstore_bg_disk_page_writer.cpp:557-573 | a run of queue and handshake with one slave, woken up by nobody after Set(0) in two rounds, publishes a recovery PLSN above a record that is not on disk |
| TupleDiff.RunsExact | src/heap/dstore_heap_update.cpp:1249-1281 | the maximal runs cover exactly the right-aligned positions that differ or exist in one version only |
| TupleDiff.DiffCovers | src/heap/dstore_heap_update.cpp:1264-1292 | at most five ordered ranges are recorded, every differing position is covered, and only a fifth range covers equal ones |
| TupleDiff.TruncatedCovers | src/heap/dstore_heap_update.cpp:1297-1319 | the ranges cut to one version cover exactly the covered positions it has |
| TupleDiff.PatchRebuildsIff | include/heap/dstore_heap_wal_struct.h:443-455 | putting ranges of a version in place gives that version exactly when the uncovered positions agree already |
| TupleDiff.CoveringRebuilds | include/heap/dstore_heap_wal_struct.h:418-458 | any range list that covers the differing and the absent positions turns one version into the other, for all lengths |
| TupleDiff.RedoRebuilds | src/heap/dstore_heap_wal_struct.cpp:246-291 | redo of the recorded ranges turns the old version into the new one |
| TupleDiff.UndoRebuilds | src/heap/dstore_heap_undo_struct.cpp:61-93 | undo of the same comparison turns the new version back |
| HeapUpdate.HeapUpdateHandler.GetDiffBetweenTuples | src/heap/dstore_heap_update.cpp:1249-1295 | the recorded positions are the maximal runs, the fifth stretched to the front when data follows it |
| HeapUpdate.HeapUpdateHandler.GetTupleDiffSize | src/heap/dstore_heap_update.cpp:1297-1319 | the ranges are cut to the version, and the size is what they take in a record |
| HeapUpdate.ScanRun | src/heap/dstore_heap_update.cpp:1264-1276 | the two scans find the next maximal run of differing positions |
| HeapUpdate.DiffRecord.SetData | src/heap/dstore_heap_wal_struct.cpp:220-244 | the record holds each start, end and the bytes of the version there, in order, and nothing behind them changes |
| HeapUpdate.RangeLayout | src/heap/dstore_heap_wal_struct.cpp:220-244 | the bytes of the record: for each range, behind the ranges before it, start and end as 16-bit numbers, low byte first, and the bytes of the version between these positions from the end |
| HeapUpdate.DiffRecord.ApplyDiffs | include/heap/dstore_heap_wal_struct.h:443-455 | the bytes of the record are put at their positions from the end, and nowhere else |
| HeapUpdate.DiffRecord.ApplyInPlace | src/heap/dstore_heap_wal_struct.cpp:262-291 | the tuple on the page is shifted to the new length and patched |
| HeapUpdate.DiffRecord.Redo | src/heap/dstore_heap_wal_struct.cpp:246-291 | redo on a page holding the old version leaves the new version |
| HeapUpdate.DiffRecord.Undo | src/heap/dstore_heap_undo_struct.cpp:61-93 | undo on a page holding the new version leaves the old version |
| HeapUpdate.MakeRecords | src/heap/dstore_heap_update.cpp:735-756 | for any two versions the redo and undo records fill buffers of exactly the computed sizes |
| HeapWal.FrontRecord.SetLogicalDecodeInfo | include/heap/dstore_heap_wal_struct.h:247-265 | the bytes of the record are the lead, the old tuple, oid, csn and, if it is valid, the command id, in this order |
| HeapWal.FrontRecord.SetAllocTd | include/heap/dstore_heap_wal_struct.h:266-279 | the transaction directory area is right behind everything else |
| HeapWal.FrontRecord.GetLogicalDecodeInfo | include/heap/dstore_heap_wal_struct.h:284-301 | the getters return the old tuple, oid and csn that were set, and the command id exactly when it is valid |
| HeapWal.GetAppendedTuples | include/heap/dstore_heap_wal_struct.h:580-591 | both tuples of an append-update record come back by their own sizes |
| HeapWal.WriteAndRead | include/heap/dstore_heap_wal_struct.h:536-608 | for delete, append-update and in-place update records everything written by the setters is read back, and the areas do not overlap |
| HeapWal.GetUpdateTuple | include/heap/dstore_heap_wal_struct.h:418-458 | the old tuple comes back as stored, and the data of the new one is rebuilt whenever the ranges cover the differences |
| HeapWal.MakeUpdate | src/heap/dstore_heap_update.cpp:1321-1367 | the record holds the ranges, the old tuple, the decoding information and the directory area one after the other, and the ranges cover every difference |
| HeapWal.UpdateAndDecode | include/heap/dstore_heap_wal_struct.h:372-458 | an in-place update record made from any two versions gives back the old tuple, the data of the new one, the decoding information and the directory area |
| HeapWal.InsertRecord.constructor | src/heap/dstore_heap_insert.cpp:894-938 | the bytes of the record are the tuple, the directory area, oid, csn and, if it is valid, the command id, in this order |
| HeapWal.InsertRecord.GetLogicalDecodeInfo | include/heap/dstore_heap_wal_struct.h:136-151 | read from the back, a record with nothing behind the information gives what was set |
| HeapWal.InsertRecord.GetInsertTuple | src/heap/dstore_heap_wal_struct.cpp:140-141 | the tuple comes back by its own size |
| HeapWal.InsertRecord.GetAllocTd | src/heap/dstore_heap_wal_struct.cpp:141-148 | the directory area computed from the record size is the one that was set when nothing is behind the information |
| HeapWal.InsertAndRead | src/heap/dstore_heap_insert.cpp:894-938 | an exactly sized insert record gives back tuple, directory area, oid, csn and command id |
| HeapWal.InsertReadsBack | include/heap/dstore_heap_wal_struct.h:107-151 | read from the back, an exactly sized insert record gives what was set |
| HeapWal.InsertRoomIff | src/heap/dstore_heap_insert.cpp:906-937 | it does so for all ids exactly when the record has no room for a command id it does not carry |
| HeapWal.BatchInsertRecord.AppendData | src/heap/dstore_heap_wal_struct.cpp:161-168 | the 16-bit offset, low byte first, and the tuple follow what was appended before, which stays |
| HeapWal.BatchInsertRecord.Walk | src/heap/dstore_heap_wal_struct.cpp:170-187 | the walk finds exactly the appended items and ends at the write position |
| ControlPages.ControlPage.AddItem | include/control/dstore_control_file_page.h:107-118 | the item is appended to the contents |
| ControlPages.ControlPage.RemoveItem | include/control/dstore_control_file_page.h:125-136 | exactly the item's bytes leave the contents |
| ControlPages.ControlPageIterator.NextItem | include/control/dstore_control_group.h:124-166 | the iterator goes to the first item ahead, over empty pages, after a visit and after a deletion |
| ControlPages.SeekItem | include/control/dstore_control_group.h:124-166 | what is ahead is that item and what is behind it |
| ControlPages.ControlPageIterator.GetItem | include/control/dstore_control_group.h:169-177 | the bytes of the item the iterator stands on |
| ControlPages.ControlPageIterator.MarkItemDelete | include/control/dstore_control_group.h:179-182 | after RemoveItem, also of the last item of a page, the next item ahead is at the same offset |
| ControlPages.ControlPageIterator.DeleteItem | src/control/dstore_control_logicrep.cpp:77-81 | RemoveItem and MarkItemDelete take exactly the current item out and leave the iterator valid in front of the next |
| ControlPages.Removed | include/control/dstore_control_file_page.h:125-136 | taking an item out changes neither what is in front of the iterator nor what is behind it |
| ControlPages.ScanExact | include/control/dstore_control_group.h:124-182 | from any position and for any choice of removals the scan visits every item ahead once, in order, and leaves the others in order |
| ControlPages.DeletingScan | include/control/dstore_control_group.h:124-182 | the whole scan visits all items once and the pages then hold exactly the kept ones |
| ControlPages.KeptLast | include/control/dstore_control_group.h:169-182 | the kept items are, in order, those the choice of removals does not pick by their number and bytes |
| ControlPages.RemoveItems | src/control/dstore_control_logicrep.cpp:61-86 | the deleting loop on the pages themselves: every item ahead is visited once, in order, the pages then hold what was behind and the items not removed, in order, and the loop ends |
| LruOwnership.NextInv | src/buffer/dstore_buf_lru.cpp:52-356 | every step of every thread keeps lists, tags, counters and holders consistent; where the nodes go is `LruPlacement` |
| LruOwnership.TakeInv | include/buffer/dstore_buf_lru.h:239-281 | a pop or remove moves exactly one node from its list into the hands of the thread |
| LruOwnership.AddInv | include/buffer/dstore_buf_lru.h:224-237 | a push moves exactly one node from the hands of the thread into the list |
| LruOwnership.MovedInv | include/buffer/dstore_buf_lru.h:519-585 | moving a node within the LRU list keeps all lists consistent |
| LruOwnership.Ownership | include/buffer/dstore_buf_lru.h:224-281 | in every state of every run a node is once in exactly one list with the matching tag, or in no list and in the hands of exactly one thread, or not in the pool |
| LruOwnership.TakenOnce | include/buffer/dstore_buf_lru.h:262-281 | of racing removals one wins: another thread has the node only after the first gave it away |
| LruOwnership.NextHot | include/buffer/dstore_buf_lru.h:350-370 | a step breaks the bound of the hot list exactly when it sets the bound below the length, and above the bound no push is refused |
| LruOwnership.HotGrowth | include/buffer/dstore_buf_lru.h:350-370 | until the bound is lowered again a list within it stays within it, and a list above it is longer than before by at most the pushes since |
| LruOwnership.ShrinkTakes | src/buffer/dstore_buf_lru.cpp:428-430 | above the bound each round of ResizeHotList takes one node off the hot list |
| LruOwnership.ResizeRestores | src/buffer/dstore_buf_lru.cpp:418-432 | when ResizeHotList returns the hot list is within its bound and stays so until the bound is lowered again |
| LruPlacement.Destination | src/buffer/dstore_buf_lru.cpp:52-555 | in every run, for a node a thread takes and later puts down: what the thread started and the list the node was in decide both ends. An accessed candidate goes to the LRU head, an accessed LRU node to the hot tail, a hot node popped for room, by a cool-down or by ResizeHotList to the LRU head, a node of MoveToCandidateList to the candidate tail, a candidate that GetCandidateBuffer rejects to the LRU tail, a reused one to the LRU head or the candidate tail, a node of a removed chunk to the invalidation tail, or nowhere if it was a candidate; GetCandidateBuffer takes the candidate head or the LRU tail, the hot list is popped at its head, and the other nodes keep their order |
| LruPlacement.NextTakes | src/buffer/dstore_buf_lru.cpp:52-555 | the step that takes a node takes it from the end its job demands and sets the goal |
| LruPlacement.NextHeld | src/buffer/dstore_buf_lru.cpp:157-316 | a thread with a node keeps its goal, and the step that gives the node away leaves it first, or last, in the list of the goal |
| LruPlacement.NextStays | src/buffer/dstore_buf_lru.cpp:96-199 | a step in which no node changes hands leaves all lists alone, or moves the accessed node, or the LRU tail that GetCandidateBuffer rejects, to the LRU head |
| LruPlacement.NextReturns | src/buffer/dstore_buf_lru.cpp:52-555 | MoveToCandidateList returns only with the node in the candidate list, a removal for reuse only after the node was put back, a removed chunk leaves no node in the other lists, GetCandidateBuffer gives up only without a reusable node at the LRU tail, and ResizeHotList returns only within the bound |
| LruPlacement.AccessReturns | src/buffer/dstore_buf_lru.cpp:142-207 | BufferAccessStat returns only when the node is hot or busy, or used at most half of the maximum, or was moved |
| LruUsage.AccessAlone | src/buffer/dstore_buf_lru.cpp:142-207 | a BufferAccessStat that is not disturbed: an LRU node is counted, stays up to a count of 2, goes to the LRU head at 3 and 4, and from 5 on to the hot tail with its count reset, after a full hot list gave its head to the LRU head; a candidate goes to the LRU head with a count of 1; a hot or busy node is left alone, and with a node in the invalidation list the call does not return |
| LruUsage.HotNeedsUse | src/buffer/dstore_buf_lru.cpp:174-204 | in every run an access takes a node off the LRU list only after it has read a count of at least the maximum |
| LruUsage.MoveNeedsUse | src/buffer/dstore_buf_lru.cpp:174-188 | in every run an access moves a node to the LRU head only after it has read a count between half of the maximum and it |
| LruUsage.NextUsage | include/buffer/dstore_buf.h:475-489 | a step leaves a usage count, adds one in eight bits or resets it, and only a thread that works for the node changes it; a node taken off the LRU list by an access or a removal starts again at 0 |
| ListScan.DeleteRing | include/common/algorithm/dstore_ilist.h:365-369 | unlinking a node leaves the ring of the others |
| ListScan.PushRing | include/common/algorithm/dstore_ilist.h:314-325 | pushing a node at the tail extends the ring |
| ListScan.Moved | include/common/algorithm/dstore_ilist.h:314-369 | moving a node from one list to another keeps both rings and no node is in both |
| ListScan.Scan | include/buffer/dstore_buf_lru.h:66-117 | a forward or reverse iteration that moves chosen nodes to another list visits every node originally present once, in the order of the iterator, ends, and leaves the other nodes in order |
| ListScan.PickFirst | include/buffer/dstore_buf_lru.h:66-117 | the moved and the kept nodes are those at the chosen and at the other places, in their order |
| BufferPool.Align | include/buffer/dstore_buf_mgr.h:891-946 | chunk size and partitions are the minima of configuration and pool, the larger of the two rounded down to a multiple of the other; the pool is the largest multiple of both not above the request, keeps more than half of it and has more than half of the minimum number of chunks |
| BufferPool.Concatenated | include/common/algorithm/dstore_ilist.h:353-360 | splicing a nonempty list to the tail gives the ring of both, and its first node is still found |
| BufferPool.BufferMemChunkList.AppendBufferMemChunkList | include/buffer/dstore_buf_memchunk.h:283-356 | on any failure list and count are as before and every chunk of the call is destroyed, otherwise exactly the new chunks follow the old ones |
| BufferPool.Rollback | include/buffer/dstore_buf_memchunk.h:283-356 | the rollback loop destroys exactly the chunks still in the new list |
| BufferPool.BufferMemChunkList.DestroyBufferMemChunkList | include/buffer/dstore_buf_memchunk.h:360-373 | every chunk is destroyed and the count is zero |
| BufferPool.HandOut | include/buffer/dstore_buf_mgr.h:871-887 | from a chunk to the end of the list the descriptors are handed out chunk after chunk, index after index, each exactly once when the chunks are distinct; descriptor k goes to partition k modulo the partitions |
| BufferPool.AllOnce | include/buffer/dstore_buf_mgr.h:871-887 | of distinct chunks in order, every descriptor of every chunk is in the list exactly once, and nothing else is |
| BufferPool.Grow | include/buffer/dstore_buf_mgr.h:836-869 | growth hands out every descriptor of exactly the new chunks once, in order and in turn, and nothing on failure |
| BufferPool.StartUp | include/buffer/dstore_buf_mgr.h:890-993 | at startup, with the aligned chunk size and partitions, every descriptor of the pool is handed out once, in order and in turn, and every partition gets exactly pool size / partitions |
| BufferPool.EvenShares | include/buffer/dstore_buf_lru.h:795-799 | shares differ by at most one, and are equal when the partitions divide the descriptors |
| Checkpoint.CheckpointRequest.StartCheckpoint | src/buffer/dstore_checkpointer.cpp:444-451 | the start counter counts the checkpoints begun, modulo 2^32 |
| Checkpoint.CheckpointRequest.FinishCheckpoint | src/buffer/dstore_checkpointer.cpp:453-458 | the done counter counts the checkpoints that succeeded, modulo 2^32 |
| Checkpoint.CheckpointRequest.FailCheckpoint | src/buffer/dstore_checkpointer.cpp:78-80 | a failure changes no counter |
| Checkpoint.RequestServed | include/buffer/dstore_checkpointer.h:43-75 | in any run of starts, ends and failures, any backend that saw the start counter change and the done counter reach the new value has had a successful checkpoint that began after its request, when fewer than 2^31 were started since and the done counter is at most 2^31 behind |
| Checkpoint.RunLater | src/buffer/dstore_checkpointer.cpp:438-458 | along a run of the checkpointer no checkpoint is forgotten and no ended one changes |
| Checkpoint.ReachedIff | include/buffer/dstore_checkpointer.h:64-67 | the modulo comparison of two counts is exact exactly within 2^31 |
| Checkpoint.LaterSuccess | include/buffer/dstore_checkpointer.h:43-75 | more successes than checkpoints begun before a point: one that began later has succeeded |
| Checkpoint.DoneCatchesUpIff | src/buffer/dstore_checkpointer.cpp:453-458 | between checkpoints the done count equals the start count exactly when none ever failed |
| Checkpoint.StillWaiting | include/buffer/dstore_checkpointer.h:52-54 | after one failure a backend whose checkpoint succeeded is still told to wait |
| Attributes.LengthExact | include/catalog/dstore_fake_attribute.h:315-331 | wherever an attribute stands, its length leads exactly to its end |
| Attributes.WalkExact | include/catalog/dstore_fake_attribute.h:301-331 | for any packed attributes the walk lands on every start and on the exact end |
| Attributes.StartsAt | include/catalog/dstore_fake_attribute.h:301-331 | an attribute starts behind the bytes of those before it, and the data ends behind the last |
| Attributes.ShortHeaderIff | include/common/dstore_datatype.h:484-532 | a 1-byte header has its low bit set and the length above it, and is read back exactly for lengths 1 to 127 |
| Attributes.LongHeaderReads | include/common/dstore_datatype.h:499-522 | a 4-byte header is read back and is never taken for a 1-byte one |
| Attributes.BytesIff | include/catalog/dstore_fake_attribute.h:340-359 | the low bytes of a number give it back exactly when it has no others |
| Attributes.ByValRoundTripIff | include/catalog/dstore_fake_attribute.h:213-359 | a by-value attribute survives store and fetch exactly when its datum has no bits beyond its length |

## Left out

- DirtyPageWriters.AppendInv: an atomic WAL group over several pages is several writers that append one after the other; that their records are contiguous is not used.
- Errors of page writes, failed buffer lookups, standby streams and several WAL slots: one stream and one queue.
- Global LSNs, which order records of one page across WAL streams: with one stream the PLSNs decide.
- WAL persistence: a page write waits for its records, so the model's WAL is the durable one.
- Stop requests of the page writers, and whether anything is ever scheduled (liveness).
- DirtyPageSafety.RecoveryIsSafe: for runs in which the master waits for every page it handed out, because otherwise it is false of the code (`DirtyPageWitness.RecoveryUnsafe`); `FlushRecovery.RoundsRecover` shows which runs of the handshake ensure it.
- DirtyPageSafety.PublishedStaysSafe: as RecoveryIsSafe; for all runs see `DirtyPageSafety.PublishedSafeIff`.
- CrashRecovery.CrashRebuilds: as RecoveryIsSafe; for all runs see `CrashRecovery.CrashRebuildsIff`.
- FlushRecovery.RoundsRecover: for runs without short claims in a published round, because otherwise it is false of the code (`FlushRecoveryWitness.SpuriousUnsafe`); for all runs see `CrashRecovery.CrashRebuildsIff`.
- FlushRoom.NoOverflow: for a pool that does not grow; the array is not enlarged with the pool.
- FlushRounds.BarrierIff: for runs whose 32-bit start does not wrap, as all results of FlushRounds; it takes more than four million claims past the end in one round to wrap it.
- FlushRounds.NoLostWakeup: for runs whose start does not wrap, because otherwise it is false of the code (`FlushWrap.WrapLosesWakeup`).
- FlushRounds.Barrier: for runs whose claims agree with the word, because otherwise it is false of the code (`FlushWakeups.SpuriousLosesBatch`); for all runs see `FlushRounds.BarrierIff`.
- FlushWakeups.QuietIsSound: for configurations that fit; all with at most 2^31 slots and a million slaves do.
- FlushWakeups.QuietBarrier: for configurations that fit, as QuietIsSound.
- FlushRecovery.QuietRecovery: for configurations that fit, as QuietIsSound.
- Asynchronous page writes, with several pages in flight per slave: a slave writes one page at a time.
- DirtyPageOrder.NeverMisordered: one direction only; a swap on a word that came back need not break the order.
- Checkpoint.RequestServed: says nothing about request flags, because the code does not use them.
- HeapWal.GetUpdateTuple: the header of the new tuple (size and info word) is not modelled.
- HeapUpdate.DiffRecord.ApplyInPlace: transaction fields that redo and undo set in the tuple header are not modelled.
- ControlPages.ControlPageIterator.NextItem: blocks that cannot be read are left out, and a block number is a reference to its page; both loops of the iterator work on local copies of the position and store it once.
- ListScan.Scan: pointers are functions from node to node, so aliasing of list memory with other memory is not captured.
- LruUsage.HotNeedsUse: one direction only; the count is read without a lock, so another thread may have reset it when the node leaves the list. Undisturbed calls are exact (`LruUsage.AccessAlone`).
- LruOwnership.NextInv: restoring a chunk after a failed shrink, which adds to the LRU list without its lock, is left out.
- BufferPool.BufferMemChunkList.AppendBufferMemChunkList: the chunk list is a sequence; the pointer splice is `BufferPool.Concatenated`.
- Attributes.WalkExact: expanded in-memory values, whose size is computed elsewhere, are left out.
- B-tree, free space map, visibility and transaction code, control file copies and their repair, I/O.
