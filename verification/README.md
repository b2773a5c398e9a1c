# Verification of the scan store, its sync, its imports and its decode trust

This project models the stateful and functional cores of a shop-inventory scanner and proves what
its source and its comments promise. Every core that changes state in place is modelled twice: as a
step system over values, on which the theorems about all runs are proved, and as a class or a loop
whose every method is proved to take exactly its step.

| files | core |
|---|---|
| `StampedCopy`, `PersistProtocol`, `PersistOrder`, `PersistDiscipline`, `PersistPipeline`, `PersistNewest`, `PersistRemoval`, `PersistReach`, `PersistReturn`, `PersistCommitted`, `PersistRewrite`, `PersistReads`, `PersistLatch`, `PersistLimits`, `PersistStorage` | the two-store persistence protocol: a coalescing writer over an asynchronous primary store and a synchronous fallback, with write stamps, newest-wins reads, read repair, write-through on failure, removal generations and a broken latch |
| `Adoption` | adopting the signed-out blob into a user's slot |
| `Ledger`, `Sums`, `LedgerTheorems`, `LedgerRows`, `OrphanMerge` | exactly-once counting, replay as ground truth, moving an orphan's count |
| `OrderedMap`, `CloudMerge`, `CloudRows`, `SyncLedger`, `SyncTheorems`, `SyncRetry` | merging cloud snapshots with local rows while increments wait in the queue; draining the queue into an idempotent backend |
| `TenantStore`, `TenantTheorems`, `TenantContext`, `ScanStore` | page refreshes, tenant switches, sign-out, re-scoping and loads that finish late |
| `DecodeCache`, `DecodeCacheStore`, `DecodeCacheTheorems`, `DecodeCacheMemory` | the bounded decode cache with single-flight computes |
| `Canonical`, `CanonicalText`, `CanonicalInjective`, `Fingerprint`, `ReviewDecision` | the lossless fingerprint and the review decision keys built on it |
| `CsvParser`, `CsvQuotes`, `ImportPlan`, `ImportTheorems`, `ColumnMapping`, `ColumnSignals`, `ImportPreview`, `PreviewRows` | the import pipeline |
| `CheckDigit`, `BarcodeVariants` | barcode arithmetic over digit strings of any length |
| `EvidenceTrust`, `EvidenceMatch`, `DecodeTrust`, `DecodeRoutes` | from provider answers and app-read evidence to a counted scan |
| `Decimal`, `Text`, `Seqs` | decimal numerals, the string operations of the source language, sequences |

A step is one uninterrupted piece of the program (the part between two awaits) or one move of the
environment: a clock value, the outcome of a transaction, a compute that settles, a load that
answers. Theorems about runs quantify over every list of enabled steps.

## Where the code does not keep a promise

Each of these names the lemma with the exact condition under which the code keeps the promise; where
that lemma does not show the failing run or input itself, a second one does.

- A removal is undone by a write parked behind a migration that then fails or is demoted, and, unless the latch has tripped, by a read that has picked the fallback copy: `PersistReturn.RemovalIsFinalExactly`, for the second kind with the run `PersistLimits.PickedReadOutlivesRemoval`. When everything commits, parked writes do no harm: `PersistCommitted.CommittedRemovalIsFinalExactly`.
- A write in flight at a removal deletes, by succeeding late, the value written after the removal, although every transaction commits in the order of issue: `PersistRewrite.RewriteSurvivesExactly`, with the run `PersistLimits.LateSuccessDeletesTheNextWrite`.
- A backing read that fails lets an older fallback copy overwrite the newest value: `PersistReads.FailingReadsAreHarmlessExactly`, with the run `PersistLimits.FailedBackingRead`.
- A write before the session has read the key can be stamped below what is on disk: `PersistLimits.WriteBeforeRead`.
- A failed write whose fallback does not fit is lost: `PersistLimits.FallbackThatDoesNotLand`.
- A read during a write can copy what it picked over the write, or drop the fallback the write just left: `PersistLimits.ReadDuringWrite`.
- After the latch trips, a direct fallback write can be overtaken by an older write still in flight: `PersistLimits.DemotedWriteOvertakes`; with none in flight it is not: `PersistLimits.DemotedWriteSurvives`.
- Adoption copies carry no stamp, so a copy that falls back after an earlier one reached IndexedDB is not the one the user reads next, and its source is gone: `Adoption.LastCopyIsReadExactly`.
- A compute that throws before it returns a promise leaves its key registered for good: `DecodeCacheTheorems.SingleFlight`, with what follows in `DecodeCacheTheorems.ThrowPoisonsTheKey`.
- A snapshot merged after an increment left the queue behind its back hides that scan until the next refresh: `SyncTheorems.MergeKeepsScansExactly`, with the run `SyncTheorems.StaleSnapshotHidesAScan`.
- An untrusted URL that comes first hides every trusted URL after it: `EvidenceTrust.StrongExactly`.
- The joined parts of an idempotency key are not escaped: `ReviewDecision.KeyIsAmbiguousExactly`, with the inputs of `ReviewDecision.PartsWithSeparatorsCollide`; `ReviewDecision.KeyNamesItsParts` says when callers are safe.
- A signed-in user whose id is `v1` has the signed-out blob's key: `Adoption.UsersHaveTheirOwnKeys`.
- A transfer between rows that share an event id counts it twice: `OrphanMerge.TransferCommutesWithReplay`.
- A CSV record of one empty field needs its line end, even when quoted: `CsvParser.LastLineEndIsOptionalExactly`.
- Two digits that differ by 5 can be swapped unnoticed: `CheckDigit.SwapIsMissedExactly`.
- The comment at src/stores/scanPersistNamespace.ts:194 says the two variants have the same contract; the asynchronous one can copy up to four times, which is what `Adoption` models.

## Model

| member | source | states |
|---|---|---|
| StampedCopy.EnvelopeRoundTrip | src/stores/scanPersistStorage.ts:272-291 | decoding an encoded envelope gives back blob and stamp exactly for stamps of at least 1; a stamp-0 envelope reads as a plain blob |
| StampedCopy.EnvelopeReads | src/stores/scanPersistStorage.ts:282-291 | a prefixed text reads as blob and stamp if and only if a numeral above zero stands before its first colon, else as a plain blob, whole |
| StampedCopy.NothingIsDiscarded | src/stores/scanPersistStorage.ts:277-291 | every other text reads as a plain blob as it stands |
| StampedCopy.IndexOf | src/stores/scanPersistStorage.ts:286-287 | the first position of the separator, or -1 when there is none |
| StampedCopy.JudgeReturnsTheNewer | src/stores/scanPersistStorage.ts:324-396 | the read returns the strictly newer copy, the primary one on a tie, and names its store |
| PersistProtocol.OtherLanesUntouched | src/stores/scanPersistStorage.ts:407-447 | a step changes nothing of any name but its own |
| PersistNewest.NewestWriteSurvives | src/stores/scanPersistStorage.ts:567-630 | in every disciplined run, over removals and sessions, whatever the clock does, whichever primary writes fail and whether or not the latch trips: once the newest write has landed, if only as a commit whose callback has not run, the next session reads the value flushed last, or nothing if the key was removed since, also when a write was parked at the removal; the discipline is spelled out under "Left out" |
| PersistNewest.InvAlways | src/stores/scanPersistStorage.ts:324-396 | every disciplined run keeps the invariant: the newest stamped copy on disk, less what is being removed and overtaken by the writes in flight that no removal follows, is the value flushed last and not removed |
| PersistNewest.StepKeepsInv | src/stores/scanPersistStorage.ts:711-749 | each single step keeps that invariant |
| PersistNewest.ReadRepairLosesNothing | src/stores/scanPersistStorage.ts:676-708 | with any overlapping reads, copies that commit or fail, and session ends, a fresh read returns the same bytes at every point and some store holds them |
| PersistOrder.OrderMatches | src/stores/scanPersistStorage.ts:622-628 | along every run in order, the operations handed to the backing and not yet in effect are exactly the writes, copies and deletes in flight, a parked write ahead of the deletes of a removal requested after it |
| PersistPipeline.StepKeepsPipeline | src/stores/scanPersistStorage.ts:773-780 | in every disciplined run, each write parked ahead of a removal is followed by its deletes, and no delete is outstanding behind a write that no removal follows |
| PersistRemoval.SoundAlways | src/stores/scanPersistStorage.ts:622-628 | in every run, writes and removals are parked only behind a migration, which is cancelled exactly when a removal is; no write carries a generation still to come; and a read that picked the fallback holds its bytes |
| PersistRemoval.RemovalIsFinal | src/stores/scanPersistStorage.ts:751-786 | after a removal, in every interleaving of started writes, a started migration and reads, the fallback never holds the key again and once all has settled neither store holds it or its stamp |
| PersistRemoval.DeadStaysDead | src/stores/scanPersistStorage.ts:567-620 | each step after a removal keeps every started write and copy from bringing the key back |
| PersistReturn.RemovalIsFinalExactly | src/stores/scanPersistStorage.ts:622-630 | whatever is in flight, reads and a migration included: a removal is final in all runs, and likewise in all runs in the order of issue, if and only if no write is parked behind a migration and, unless the latch has tripped, no read has picked the fallback copy |
| PersistReturn.ParkedWriteComesBack | src/stores/scanPersistStorage.ts:604-620 | in the order of issue, a write parked at a removal can fail or be demoted and leave its value in the fallback, where the deletes behind it do not reach |
| PersistReturn.PickComesBack | src/stores/scanPersistStorage.ts:676-708 | before the latch trips, every read that has picked the fallback can end with the removed key back in the backing, although everything commits in the order of issue |
| PersistCommitted.CommittedRemovalIsFinalExactly | src/stores/scanPersistStorage.ts:773-780 | when every transaction commits in the order of issue and the latch does not trip, a removal is final, whatever is parked and whatever reads go on, if and only if no read has picked the fallback copy and no write has been released behind the last removal |
| PersistCommitted.StepKeepsDoomed | src/stores/scanPersistStorage.ts:760-786 | after such a removal every step keeps a delete on its way to each backing cell that holds something, and the fallback empty |
| PersistRewrite.RewriteSurvivesExactly | src/stores/scanPersistStorage.ts:590-603 | with no read in flight at the removal, whatever is parked, all transactions committing and in the order of issue: what is flushed last after the removal, or nothing, is what the next session reads, in all runs, if and only if no write of the key was in flight at the removal |
| PersistReads.FailingReadsAreHarmlessExactly | src/stores/scanPersistStorage.ts:336-352 | with any pattern of failing reads, overlapping repairs and session ends, a fresh read returns the same bytes throughout, in all runs, if and only if there is no fallback copy or it carries the newest bytes |
| PersistLatch.LatchTripsExactly | src/stores/scanPersistStorage.ts:467-505 | in every run, over any number of sessions: the primary store is given up if and only if, in the present session, the probe has failed or three writes or copies in a row have |
| PersistLatch.FlushStartsExactly | src/stores/scanPersistStorage.ts:567-591 | a flushed value gets a stamp above every one before and goes to the primary store, or, once that is given up, into the fallback as one envelope without a sibling stamp |
| PersistLimits.FailedBackingRead | src/stores/scanPersistStorage.ts:336-352 | the run of a read whose backing half fails and of the repair it starts keeps the newest bytes if and only if the fallback held none or the same |
| PersistLimits.WriteBeforeRead | src/stores/scanPersistStorage.ts:711-729 | a write before the first read is read next if and only if the copy in the other store has no higher stamp, or the same bytes |
| PersistLimits.FallbackThatDoesNotLand | src/stores/scanPersistStorage.ts:513-533 | a write is read next if and only if it commits, or its fallback lands, or the bytes were there before |
| PersistLimits.ReadDuringWrite | src/stores/scanPersistStorage.ts:731-748 | a write in flight during a read is read next if and only if there was no fallback copy, or the read acts harmlessly on its pick, or the bytes are the same |
| PersistLimits.DemotedWriteOvertakes | src/stores/scanPersistStorage.ts:581-588 | after demotion the newer value survives an older write still in flight if and only if that write commits or wrote the same bytes |
| PersistLimits.DemotedWriteSurvives | src/stores/scanPersistStorage.ts:581-588 | with no write in flight a demoted write that lands is read next |
| PersistLimits.LateSuccessDeletesTheNextWrite | src/stores/scanPersistStorage.ts:590-603 | the run in which a late success deletes a write made after the removal |
| PersistLimits.PickedReadOutlivesRemoval | src/stores/scanPersistStorage.ts:711-749 | the run in which a read decided before a removal copies the value back after it |
| PersistStorage.AsyncPersistStorage.constructor | src/stores/scanPersistStorage.ts:398-416 | a new wrapper has nothing pending, no failures and stamp 0 |
| PersistStorage.AsyncPersistStorage.NextStamp | src/stores/scanPersistStorage.ts:420-425 | stamps strictly increase, whatever the clock says |
| PersistStorage.AsyncPersistStorage.RecordWriteFailure | src/stores/scanPersistStorage.ts:467-491 | the third consecutive failed write trips the latch |
| PersistStorage.AsyncPersistStorage.WriteThroughToLegacy | src/stores/scanPersistStorage.ts:513-533 | blob and stamp land in the fallback as one value, or not at all |
| PersistStorage.AsyncPersistStorage.SetItem | src/stores/scanPersistStorage.ts:788-794 | the object takes exactly the protocol's coalescing step and schedules a flush |
| PersistStorage.AsyncPersistStorage.Flush | src/stores/scanPersistStorage.ts:632-641 | the object takes exactly the protocol's flush step |
| PersistStorage.AsyncPersistStorage.StartWrite | src/stores/scanPersistStorage.ts:567-591 | generation and stamp are captured when the write starts, not when it is flushed |
| PersistStorage.AsyncPersistStorage.Resume | src/stores/scanPersistStorage.ts:622-628 | what was attached to a settled migration runs in order: a parked write starts, a parked removal issues its deletes |
| PersistStorage.AsyncPersistStorage.SettleWrite | src/stores/scanPersistStorage.ts:591-620 | the callback of a write takes exactly the protocol's settle step, on success and on failure |
| PersistStorage.AsyncPersistStorage.StartMigration | src/stores/scanPersistStorage.ts:676-696 | a repair copy carries the stamp of its source |
| PersistStorage.AsyncPersistStorage.FinishGetItem | src/stores/scanPersistStorage.ts:711-749 | the continuation of a read repairs or drops the loser exactly as the protocol says |
| PersistStorage.AsyncPersistStorage.SettleMigration | src/stores/scanPersistStorage.ts:691-708 | a settled copy clears the fallback only when it committed and was not cancelled, and releases what was attached to it in order |
| PersistStorage.AsyncPersistStorage.RemoveItem | src/stores/scanPersistStorage.ts:751-786 | the object takes exactly the protocol's removal step |
| Adoption.NormalizeRows | src/stores/scanPersistNamespace.ts:101-107 | the loop that edits the parsed rows in place computes the normalized rows |
| Adoption.NormalRowsAt | src/stores/scanPersistNamespace.ts:104-106 | exactly the literal zero deltas become one, every other row is unchanged |
| Adoption.NormalizationIsIdempotent | src/stores/scanPersistNamespace.ts:94-109 | normalizing a normalized blob changes nothing |
| Adoption.NormalizedKeepsScans | src/stores/scanPersistNamespace.ts:94-109 | a blob is normalized if and only if it parses; the normalized blob parses to the same rest and, row for row, the same scans, except that a literal zero delta is one |
| Adoption.UsersHaveTheirOwnKeys | src/stores/scanPersistNamespace.ts:8-15 | two users share a key if and only if they are the same or both are among the signed-out user and the user id v1 |
| Adoption.AdoptionEndsExactly | src/stores/scanPersistNamespace.ts:220-241 | how every adoption ends: at once for the signed-out key or a filled slot, else after at most three copies that were overtaken, in a copy whose source stood still or was the fourth, no source, an unreadable one, or no place to copy to |
| Adoption.Adopter.WriteAdoptedBlob | src/stores/scanPersistNamespace.ts:170-190 | the copy lands in IndexedDB, else in the fallback, else the error propagates |
| Adoption.Adopter.MigrateLegacyBlobOnceAsync | src/stores/scanPersistNamespace.ts:220-241 | the retry loop computes the adoption and removes the source exactly when it ends in an adoption |
| Adoption.AdoptionNeverDestroysTheOnlyCopy | src/stores/scanPersistNamespace.ts:225-241 | whatever other tabs do and wherever copies land: the source is removed only with a copy in the slot that reads back, row for row, as the source last read does, and the re-read source unchanged, gone or the bound spent; a copy that lands nowhere leaves the source; at most four copies |
| Adoption.SecondAdoptionIsANoOp | src/stores/scanPersistNamespace.ts:221-223 | after an adoption a second one changes nothing |
| Adoption.LastCopyIsReadExactly | src/stores/scanPersistNamespace.ts:170-190 | the next session reads the last copy if and only if no earlier copy of the adoption outranks it in the other store |
| Ledger.IncrementInventoryCount | src/inventory/ledger.ts:66-95 | the loop finds the row of the product and session or appends one, applies the event once, and reports whether it was applied |
| Ledger.ReplayLedgerCounts | src/inventory/replay.ts:8-27 | the loop over a map computes the replayed rows in insertion order |
| LedgerTheorems.LiveBalances | src/inventory/ledger.ts:36-95 | after any event list with repeats, rows stay unique and a row's quantity is the sum of deltas over its distinct event ids |
| LedgerTheorems.ReplayBalances | src/inventory/replay.ts:8-27 | the replay has the same balances |
| LedgerRows.LiveRowExactly | src/inventory/ledger.ts:31-95 | the live row of every product and session tells exactly the events it counted, each id once and in order: their total, their codes and keys without repeats, the instants of the first and of the last that carries one |
| LedgerRows.ReplayedRowExactly | src/inventory/replay.ts:8-27 | so does the replayed row |
| LedgerRows.NoOtherRows | src/inventory/replay.ts:14-24 | every replayed row is of the session and of a product that some event names; every live row is of such a product |
| LedgerTheorems.LiveEqualsReplay | src/inventory/replay.ts:4-8 | live counts and replay agree in quantity and id set for every product and session |
| LedgerTheorems.OrderDoesNotMatter | src/inventory/ledger.ts:31-60 | permuting the events changes no balance when equal ids carry equal deltas |
| LedgerTheorems.ConflictingDeltasDependOnOrder | src/inventory/ledger.ts:40-44 | without that proviso order does matter |
| Sums.SumUnion | src/stores/scanStore.ts:644-646 | the sums of two delta maps add up over their union if and only if they share no id |
| OrphanMerge.TransferOrphanCount | src/stores/scanStore.ts:627-655 | the filters and the merge loop give the rows that TransferredRow describes one by one |
| OrphanMerge.TransferExactly | src/stores/scanStore.ts:627-655 | for all ids, a missing target and a transfer onto itself included: what every product's row in every session becomes; a target row takes the orphan's quantity, the union of the three histories without repeats and the new instant, and keeps the rest |
| OrphanMerge.TransferredRow | src/stores/scanStore.ts:633-653 | the row of every product and session after a transfer: orphan rows are gone, target rows absorb them, all others are untouched, rows stay unique |
| OrphanMerge.TransferCommutesWithReplay | src/stores/scanStore.ts:627-655 | with positive deltas the transferred counts equal a replay with the orphan's events repointed; quantities agree if and only if the two share no event id |
| OrphanMerge.MergedIdsAreNotCountedAgain | src/stores/scanStore.ts:617-622 | re-applying any merged event id is a no-op |
| OrphanMerge.TransferConservesEachSession | src/stores/scanStore.ts:621-626 | each session's total is conserved |
| CloudMerge.MergeReloadedProductsAndAliases | src/sync-database/queue/reloadMergePolicy.ts:3-37 | the loops compute the merges that ProductAfterMerge and AliasAfterMerge describe row by row |
| CloudMerge.MergeReloadedReviews | src/sync-database/queue/reloadMergePolicy.ts:39-68 | the loop computes the merge that ReviewAfterMerge describes row by row |
| CloudMerge.MergeCounts | src/stores/scanStore.ts:1394-1422 | the loop over remote rows computes the merge that CountAfterRefresh and CountAfterLoad describe row by row |
| CloudMerge.SeedRows | src/stores/scanStore.ts:1062-1083 | a load keeps exactly the rows of the restored session and those with unsynced work |
| CloudMerge.NewestFirst | src/stores/scanStore.ts:1011-1014 | sorting by date keeps exactly the same rows |
| CloudRows.ProductAfterMerge | src/sync-database/queue/reloadMergePolicy.ts:3-21 | the product of every id after a merge: the remote one, unless sync work of the business waits for it or it was archived here and the remote one is not; else the local one |
| CloudRows.AliasAfterMerge | src/sync-database/queue/reloadMergePolicy.ts:23-37 | the alias of every id after a merge: the remote one unless sync work waits for it, else the local one |
| CloudRows.ReviewAfterMerge | src/sync-database/queue/reloadMergePolicy.ts:39-68 | the review of every id after a merge: the business's own remote one, unless sync work waits for it or the local decision is not older; else the local one |
| CloudRows.CountAfterRefresh | src/stores/scanStore.ts:1377-1424 | the count row of every product and session after a refresh: the local one while an increment for it waits or its product was deleted here, else the remote one, else the local one |
| CloudRows.CountAfterLoad | src/stores/scanStore.ts:1062-1096 | the count row of every product and session after a load that restored a session: in that session the local one while an increment for it waits, else the remote one, on a device without a row too; of other sessions only what still has sync work |
| CloudRows.SessionAfterRefresh | src/stores/scanStore.ts:1371-1375 | the session of every id after a refresh: the remote one, else the current one, else the one known before |
| CloudRows.FeedAfterLoad | src/stores/scanStore.ts:1097-1112 | the scan of every id in the feed after a load, newest first |
| CloudRows.NewestFirstDescends | src/stores/scanStore.ts:1011-1014 | sorting by date puts every row in descending order |
| CloudRows.NewestFirstIsStable | src/stores/scanStore.ts:1011-1014 | rows of one date keep their order, so none is lost or doubled |
| CloudRows.RestoredExactly | src/stores/scanStore.ts:1011-1014 | a session is restored if and only if there is one: an active one if any, none of the active ones started later; else one of those that started last |
| OrderedMap.FromValues | src/stores/scanStore.ts:1394-1394 | reading rows with different keys into a map and out again changes nothing |
| OrderedMap.GetKeyed | src/stores/scanStore.ts:1396-1398 | a lookup finds the one row that has the key |
| SyncTheorems.MergedAt | src/stores/scanStore.ts:1394-1422 | a row not named by the snapshot, or whose remote row is left out, stays; any other becomes the remote row |
| SyncTheorems.PendingRowsSurvive | src/stores/scanStore.ts:1062-1096 | neither merge drops or changes a row an unsynced increment is for, and rows stay unique |
| SyncTheorems.NothingIsCountedTwice | src/stores/scanStore.ts:1377-1424 | in every run, with stale snapshots and other devices, a row never exceeds the backend's quantity plus the increments still waiting |
| SyncTheorems.BoundedStep | src/sync-database/mock/mockDb.ts:77-152 | each scan, apply, dequeue, read and merge keeps that bound when a key is applied once |
| SyncTheorems.NoScanIsLost | src/stores/scanStore.ts:1049-1096 | when no increment leaves the queue behind a snapshot still to be merged, a row of a restored session always shows at least everything this device scanned |
| SyncTheorems.MergeKeepsScansExactly | src/stores/scanStore.ts:1394-1422 | in every run in which no other device counts the row, a refresh that takes the snapshot's row keeps all its scans if and only if the backend had applied them when the snapshot was read |
| SyncTheorems.StaleSnapshotHidesAScan | src/stores/scanStore.ts:1346-1356 | the run in which a scan drained between read and merge is hidden |
| SyncTheorems.SettledRefresh | src/stores/scanStore.ts:1377-1424 | with an empty queue a refresh makes every row equal to the backend's, except rows of products deleted here |
| SyncTheorems.LoadTakesTheSnapshot | src/stores/scanStore.ts:1084-1095 | in every state, a row of the restored session for which no increment waits ends with exactly the quantity of the snapshot that names it, whatever the device showed before |
| SyncTheorems.LoadSettlesTheSession | src/stores/scanStore.ts:1062-1096 | from every reachable state with an empty queue, a load of whatever the backend then answers makes every row of the restored session equal to the backend's, also on a device that had none |
| SyncTheorems.DrainEmpties | src/stores/scanStore.ts:1456-1476 | a full drain empties the queue and adds to the backend exactly what was waiting |
| SyncTheorems.DrainThenRefreshSettles | src/stores/scanStore.ts:1456-1476 | from every reachable state, a full drain, which is always possible, and a refresh of whatever the backend then answers leave local and backend equal for every product not deleted here, with nothing lost or counted twice |
| SyncRetry.MockDb.Apply | src/sync-database/mock/mockDb.ts:77-117 | a failed operation changes nothing, a known key changes nothing, any other is applied and its key recorded |
| SyncRetry.MockDb.ApplyIncrement | src/sync-database/mock/mockDb.ts:123-152 | an increment is added unless its row has seen the event or the key |
| SyncRetry.MockDb.SyncPending | src/stores/scanStore.ts:1456-1476 | the drain loop applies what succeeds and keeps what fails, in order |
| SyncRetry.ApplyingAgainIsANoOp | src/sync-database/mock/mockDb.ts:82-85 | applying an operation twice is applying it once |
| SyncRetry.DrainBalances | src/stores/scanStore.ts:1460-1476 | one drain with any failures keeps, for every row, the backend's quantity plus what is still to be added |
| SyncRetry.RetriesNeverDoubleCount | src/sync-database/mock/mockDb.ts:3-7 | any number of drains with any failures, once the queue is empty, leave exactly the quantities of one drain without failures |
| SyncRetry.FailedStayInOrder | src/stores/scanStore.ts:1460-1476 | after a drain the queue holds exactly the operations whose apply failed, in their order |
| SyncRetry.BackendExactly | src/sync-database/mock/mockDb.ts:77-152 | after any operations sent to an empty backend, repeated, reordered or colliding, each row is the sum of the increments that neither repeat an operation key nor count the event or key of one counted before, and exactly those events and keys are remembered |
| TenantTheorems.TenantIsolation | src/stores/scanStore.ts:831-990 | in every interleaving of switches, sign-outs, refreshes, late loads and local work that writes rows of the current business, every product, alias, session, feed row, count and review belongs to the current business |
| TenantTheorems.ReviewsAreOwn | src/sync-database/queue/reloadMergePolicy.ts:50-54 | merged reviews are the business's own even if the loader sends others |
| TenantTheorems.ContextMergeOwned | src/stores/scanStore.ts:1011-1116 | the merge of a context load keeps every row with the current business |
| TenantTheorems.RefreshMergeOwned | src/stores/scanStore.ts:1357-1441 | the merge of a refresh keeps every row with the current business |
| TenantTheorems.RescopeOwned | src/stores/scan/adoption.ts:28-41 | re-scoping gives every placeholder row to the business |
| TenantTheorems.OnlyTheLatestLoadIsMerged | src/stores/scanStore.ts:998-1007 | a load is still current later if and only if no other load and no switch came in between and its business and user are the present ones |
| TenantTheorems.AdoptionKeepsTheBooks | src/stores/scanStore.ts:872-944 | re-scoping keeps every count row's key, quantity and applied ids and every feed row |
| TenantTheorems.AdoptionKeepsTheQueue | src/stores/scan/adoption.ts:53-74 | no queued item stays under the placeholder, its own key and the key in its payload stay equal, row and delta are kept |
| TenantTheorems.RescopedKeysCollideExactly | src/stores/scan/adoption.ts:12-15 | two different keys become equal if and only if one is a placeholder key and the other is the same key of the business |
| TenantContext.ContextIsSet | src/stores/scanStore.ts:831-864 | after every context step the store is in the new context, a load is issued if and only if there is a cloud to load from, and every load issued before is overtaken |
| TenantContext.SameTenantKeepsEverything | src/stores/scanStore.ts:842-871 | setting the business and user that are set already keeps every row of every surface and every queued item |
| TenantContext.RefreshesLoseNothing | src/stores/scanStore.ts:831-1007 | in every run of page refreshes, refresh requests, and loads that fail, come too late or answer for another context, no row and no queued item is lost or changed |
| TenantContext.SwitchLeavesNoRow | src/stores/scanStore.ts:955-990 | a real switch that is not the first sign-in of a placeholder session leaves no row of any surface and keeps the queue |
| TenantContext.FirstSignInMovesEverything | src/stores/scanStore.ts:866-944 | the first sign-in of a placeholder session moves every row and every queued item to the business in place and appends the rebuilt sync work |
| TenantContext.SignOutLeavesNothing | src/stores/scanStore.ts:1164-1214 | after a sign-out there is no row and no queued item, in the placeholder context |
| TenantContext.RefreshIsIssuedExactly | src/stores/scanStore.ts:1329-1336 | a refresh issues a load, overtaking all before it, if and only if the context is a ready cloud context of a signed-in user |
| TenantContext.FailedLoadEndsTheWait | src/stores/scanStore.ts:1117-1127 | a failed load changes no row and ends the wait if and only if it is the context's load |
| TenantContext.LoadKeepsContext | src/stores/scanStore.ts:1000-1116 | a load changes no context and takes nothing off the queue |
| TenantContext.ContextLoadMerges | src/stores/scanStore.ts:1000-1116 | the finished load of a context change, row by row on every surface, for the load that is current |
| TenantContext.RefreshLoadMerges | src/stores/scanStore.ts:1357-1441 | the finished load of a refresh, row by row on every surface, for the load that is current |
| ScanStore.Store.constructor | src/stores/scanStore.ts:763-790 | a new store holds the seed rows of the placeholder tenant |
| ScanStore.Store.SetBusinessContext | src/stores/scanStore.ts:831-1000 | the action takes exactly the context step |
| ScanStore.Store.SwitchTenant | src/stores/scanStore.ts:844-990 | the three cases of a context change: same tenant, re-scope, wipe |
| ScanStore.Store.ResetForSignOut | src/stores/scanStore.ts:1164-1214 | the action takes exactly the sign-out step |
| ScanStore.Store.RefreshFromCloud | src/stores/scanStore.ts:1329-1336 | a refresh is issued only with a ready context, a user and a business |
| ScanStore.Store.ContextLoaded | src/stores/scanStore.ts:1000-1116 | the finished load of a switch takes exactly its step |
| ScanStore.Store.RefreshLoaded | src/stores/scanStore.ts:1338-1441 | the finished load of a refresh takes exactly its step |
| ScanStore.Store.LoadFailed | src/stores/scanStore.ts:1117-1127 | a failed load changes no row |
| DecodeCacheTheorems.SingleFlight | src/decoding/decodeCache.ts:93-126 | in every run a key is registered exactly while its one unforced compute runs, if and only if no leading compute threw before returning its promise |
| DecodeCacheTheorems.ThrowPoisonsTheKey | src/decoding/decodeCache.ts:115-125 | after such a throw every later call of the key that misses the cache is told the old error, however the run goes on |
| DecodeCacheTheorems.EveryWaiterGetsTheOutcomeItJoined | src/decoding/decodeCache.ts:108-113 | a caller that joined a compute is never stranded and is told exactly what that compute settled with |
| DecodeCacheTheorems.OnlySuccessesAreStored | src/decoding/decodeCache.ts:117-119 | at most 5000 entries, none for a blank code, each accepted by the isSuccess of a call for its key or stored explicitly |
| DecodeCacheTheorems.FirstInFirstOut | src/decoding/decodeCache.ts:32-40 | after any writes the store lists exactly the last 5000 of the keys it held followed by the keys inserted since |
| DecodeCacheTheorems.PutKeeps | src/decoding/decodeCache.ts:35-39 | storing keeps the size bound and one entry for each key |
| DecodeCacheMemory.SuccessIsRemembered | src/decoding/decodeCache.ts:93-126 | in every run: once a compute resolved to a value its caller accepts, every later unforced call of the key is answered with that value from the cache and starts no compute, while the key is not dropped, cleared or overwritten and fewer than 5000 new keys have come in |
| DecodeCacheMemory.StoredValueIsRemembered | src/decoding/decodeCache.ts:19-40 | the same for a value stored explicitly, up to and including the instant it expires at |
| DecodeCacheMemory.SuccessIsStored | src/decoding/decodeCache.ts:115-119 | an accepted value is in the store at once without expiry, last in the order, or in its old place if the key was there |
| DecodeCacheMemory.MissStartsACompute | src/decoding/decodeCache.ts:99-124 | a call that finds nothing good and nothing to join starts its own compute and registers it; a forced one always does and registers nothing |
| DecodeCacheMemory.ExpiredIsDropped | src/decoding/decodeCache.ts:24-27 | a lookup that finds its entry expired drops it and nothing else |
| DecodeCacheMemory.DroppedIsForgotten | src/decoding/decodeCache.ts:42-50 | dropping forgets exactly the key, clearing everything |
| DecodeCacheMemory.SameKeyExactly | src/decoding/decodeCache.ts:15-17 | two codes share an entry if and only if the same text stands between their outer blanks |
| DecodeCacheStore.DecodeCacheModule.GetDecodeCache | src/decoding/decodeCache.ts:19-29 | returns the live value and drops an expired entry |
| DecodeCacheStore.DecodeCacheModule.SetDecodeCache | src/decoding/decodeCache.ts:32-40 | the map takes exactly the step, evicting the oldest key when full |
| DecodeCacheStore.DecodeCacheModule.InvalidateDecodeCache | src/decoding/decodeCache.ts:47-50 | removes one key |
| DecodeCacheStore.DecodeCacheModule.WithDecodeCache | src/decoding/decodeCache.ts:93-124 | the call up to its first await takes exactly its step: hit, join, or a compute of its own |
| DecodeCacheStore.DecodeCacheModule.AfterCompute | src/decoding/decodeCache.ts:116-122 | what follows the compute stores a success, clears the registration and settles the shared promise |
| DecodeCacheStore.DecodeCacheModule.AfterShared | src/decoding/decodeCache.ts:111-112 | what follows the shared promise answers its maker and its joiners |
| CanonicalInjective.QuotedSplit | src/inventory/idempotency.ts:27-27 | quoted strings can be read back from what follows them (section 7 of RFC 8259) |
| CanonicalInjective.AtomInjective | src/inventory/idempotency.ts:16-27 | different atoms print differently |
| CanonicalText.EscapeReadsBack | src/inventory/idempotency.ts:27-32 | the inside of every quoted string is a JSON string that reads back as the string (section 7 of RFC 8259) |
| CanonicalText.EscapedExactly | src/inventory/idempotency.ts:27-32 | exactly quotes, backslashes and control characters are escaped, in two characters where JSON has such an escape |
| CanonicalText.LessIsUnitOrder | src/inventory/idempotency.ts:30-31 | keys stand in the order of their UTF-16 code units |
| Fingerprint.CanonSplit | src/inventory/idempotency.ts:16-34 | the canonical text is uniquely decodable: two values followed by a delimiter print alike only when both values and the rests print alike |
| Fingerprint.SortSorts | src/inventory/idempotency.ts:30-31 | sorting the keys gives an ascending order of the same fields |
| Fingerprint.FingerprintIsLossless | src/inventory/idempotency.ts:36-44 | two values have the same fingerprint if and only if they are equal up to record key order |
| ReviewDecision.SameKeySamePayload | src/review/reviewDecisionVersion.ts:8-22 | reviews that share business, session and id get the same key if and only if their payloads agree apart from the two transport fields |
| ReviewDecision.RetryKeepsTheKey | src/review/reviewDecisionVersion.ts:12-21 | versioning a versioned review again gives the same key, whatever its transport fields say |
| ReviewDecision.PartsWithSeparatorsCollide | src/inventory/idempotency.ts:7-14 | a separator moved from one part to the next gives the same key |
| ReviewDecision.KeyNamesItsParts | src/inventory/idempotency.ts:7-14 | when business, session and operation hold no colon, whatever the third part holds, two keys are equal if and only if all four parts are |
| ReviewDecision.KeyIsAmbiguousExactly | src/inventory/idempotency.ts:7-14 | a key can be read as other parts if and only if its text holds more than three colons |
| ReviewDecision.SameKeySameReview | src/review/reviewDecisionVersion.ts:8-22 | among all reviews whose ids hold no colon, equal decision keys mean the same business, session and review and equal payloads apart from the two transport fields |
| CsvParser.ParseRecords | src/import/csvImport.ts:16-48 | the index-skipping character loop agrees with the scanner whose round trip is proved, on every text, unterminated quotes and lone carriage returns included |
| CsvParser.RoundTrip | src/import/csvImport.ts:16-48 | any records written with quoted or plainly bare fields and LF or CRLF ends read back the same, with or without a byte order mark (section 2 of RFC 4180) |
| CsvQuotes.RecordsAreWritten | src/import/csvImport.ts:16-48 | the records of every text, well formed or not: what each character writes is decided by the number of quotes before it and its two neighbours alone |
| CsvParser.LastLineEndIsOptionalExactly | src/import/csvImport.ts:47-48 | the last line end may be missing if and only if the last record is not one empty field |
| ImportPlan.BuildProductImport | src/import/csvImport.ts:117-321 | the nested loops over rows, codes and aliases build the plan of which NoCodeGetsTwoOwners and RefreshesTakeTheLastCell hold, error rows included |
| ImportTheorems.NoCodeGetsTwoOwners | src/import/csvImport.ts:205-312 | in every plan new alias codes are pairwise distinct and new to the catalog, each new product has at least one alias and lists exactly its alias codes, every new alias belongs to a new product |
| ImportTheorems.RefreshesTakeTheLastCell | src/import/csvImport.ts:260-318 | refreshedProducts holds exactly the existing products that are the only owner the codes of some row point to, each once; each descriptive field is the last non-empty cell of those rows or the original, and nothing else of any product changes |
| ColumnMapping.InferColumnMapping | src/import/columnIntelligence.ts:318-343 | the proposal loop and the greedy loop build the assignment of which AssignmentIsStable and HighStaysHigh hold |
| ColumnMapping.OrderedKeeps | src/import/columnIntelligence.ts:320-324 | sorting keeps every proposal and ranks them from high to low |
| ColumnMapping.AssignmentIsStable | src/import/columnIntelligence.ts:325-335 | no column serves two fields, every assigned field was proposed for its column, and every rejected proposal lost its field or its column to one ranked at least as high |
| ColumnMapping.HighStaysHigh | src/import/columnIntelligence.ts:318-335 | a field with any HIGH proposal ends up HIGH |
| ColumnMapping.InferredMappingIsValidExactly | src/import/columnIntelligence.ts:359-377 | the manual check accepts an inferred mapping if and only if it has identity and quantity, so confidence "high" is always accepted |
| ColumnSignals.ProposedExactly | src/import/columnIntelligence.ts:283-316 | a column proposes its exact header field, or else the field on which header guess and best content signal agree, with tier HIGH; where nothing is certain, exactly the guess and the best content signal of at least 0.7, with tier MEDIUM |
| ColumnSignals.HighExactly | src/import/columnIntelligence.ts:337-343 | overall confidence is high if and only if some header matched exactly, identity and quantity are mapped, and every mapped column is certain of its field |
| ColumnSignals.AcceptedExactly | src/import/columnIntelligence.ts:359-377 | the manual check accepts a mapping if and only if no column serves two fields, all columns are in the file, and an identity field and the quantity are mapped; each refusal names the first thing that is wrong |
| ImportPreview.MapUniversalRows | src/import/universalImportPreview.ts:43-109 | the loop sorts every row into importable, held or rejected, each with its own line, as EveryRowIsMappedOnce counts them |
| ImportPreview.EveryRowIsMappedOnce | src/import/universalImportPreview.ts:47-107 | each sheet row goes to exactly one list under its own line |
| ImportPreview.EveryRowIsPreviewed | src/import/universalImportPreview.ts:124-160 | the i-th preview row has line headerRowIndex + i + 2 and shows the i-th sheet row, held or rejected as it was mapped or with the status its own match gives; the four status counts sum to the number of sheet rows |
| PreviewRows.FateExactly | src/import/universalImportPreview.ts:34-107 | what becomes of each sheet row, by its cells: importable if the quantity is a whole number up to 100000, an identity cell is filled and the unit is blank or each; held for its unit otherwise; rejected with the first reason that applies; its cells are carried over unchanged |
| PreviewRows.PreviewSaysExactly | src/import/universalImportPreview.ts:111-160 | the i-th preview row says of the i-th sheet row what its cells deserve; an importable one is exact if its own match is by exact part number, or is a catalog hit for what is no tire, fuzzy if it is another match, and goes to review otherwise |
| PreviewRows.PreviewNeedsAllAnswers | src/import/universalImportPreview.ts:129-131 | a preview comes about if and only if there is one answer for each importable row |
| CheckDigit.Mod10Valid | src/decoding/barcodeAnatomy.ts:34-45 | the loop accepts exactly the strings of at least eight numeric characters whose weighted sum, check digit included, is a multiple of ten |
| CheckDigit.OneCheckDigit | src/decoding/barcodeAnatomy.ts:43-44 | each body has exactly one valid check digit |
| CheckDigit.SingleChangeIsRejected | src/decoding/barcodeAnatomy.ts:37-44 | every single-digit change is rejected |
| CheckDigit.SwapIsMissedExactly | src/decoding/barcodeAnatomy.ts:41-41 | swapping adjacent digits is missed if and only if they differ by 0 or 5 |
| CheckDigit.OtherCharacters | src/decoding/barcodeAnatomy.ts:34-44 | a blank counts as a zero, any other character that is no digit makes the code invalid, and so do fewer than eight characters |
| CheckDigit.PaddingKeepsValidity | src/decoding/barcodeAnatomy.ts:34-45 | prepending zeros changes no verdict |
| BarcodeVariants.NumericVariants | src/decoding/evidenceVerifier.ts:28-37 | the loop that pads both forms builds the set that VariantsExactly characterizes |
| BarcodeVariants.ExampleBarcodeVariants | src/decoding/decode.ts:172-183 | the second loop, over digits only and without a length filter, builds the set that BuildersAgreeExactly compares with the first |
| BarcodeVariants.VariantsExactly | src/decoding/evidenceVerifier.ts:28-37 | a string is a variant if and only if it is long enough, equal up to leading zeros, and the code itself, its stripped form or of standard length |
| BarcodeVariants.StandardVariantsExactly | src/decoding/evidenceVerifier.ts:26-37 | for 12 to 14 digits the relation is equality after stripping zeros, hence symmetric |
| BarcodeVariants.WayBackExactly | src/decoding/evidenceVerifier.ts:36-36 | for other lengths, exactly when the relation holds in the other direction too |
| BarcodeVariants.BuildersAgreeExactly | src/decoding/decode.ts:170-183 | the two builders agree on every digit code up to the length filter, except on the empty code |
| BarcodeVariants.OthersAreIgnored | src/decoding/decode.ts:172-174 | characters that are no digits can be left out of an example's code without changing its variants |
| BarcodeVariants.VariantsShareTheCheck | src/decoding/barcodeAnatomy.ts:34-45 | all variants of a code have the same check-digit verdict |
| EvidenceTrust.VerifyEvidence | src/decoding/evidenceVerifier.ts:90-148 | the tier loop with its early returns gives the evidence of which VerifiedExactlyWhenBacked holds |
| EvidenceTrust.VerifiedExactlyWhenBacked | src/decoding/evidenceVerifier.ts:90-148 | evidence is verified if and only if some clean prose or trusted URL holds a variant of the code as a token of its own |
| EvidenceTrust.StrongExactly | src/decoding/evidenceVerifier.ts:159-171 | the best of several results is strong if and only if one is verified prose or the first that found anything is a verified URL |
| EvidenceMatch.NumericMatchExactly | src/decoding/evidenceVerifier.ts:16-22 | a text holds a numeric code if and only if it writes out some variant of it, blanks and hyphens aside, with no further digit on either side |
| EvidenceMatch.OtherMatchExactly | src/decoding/evidenceVerifier.ts:23-23 | any other code is held if and only if its upper-case form is in the upper-case text with no letter or digit next to it |
| EvidenceMatch.StrongestChannelIsReported | src/decoding/evidenceVerifier.ts:102-157 | the verifier reports the strongest channel that holds the code, with exactly the texts in it that do, in the order that also ranks several results |
| DecodeTrust.NormalizedNeverAgreesOnSize | src/decoding/provider.ts:50-75 | no normalized answer carries a size agreement; confidence is in range; below 0.85 human review is forced |
| DecodeTrust.NoSelfClaimIsCounted | src/stores/scanGates.ts:86-109 | whatever providers claim in any number of normalized answers, a verified decision or an allowed count has a fetched page, a grounding chunk, a snippet or a trusted URL in which the app's own search finds a variant of the code, and an allowed count has passed the name, tire, context and confidence checks |
| DecodeTrust.CountedExactly | src/stores/scanGates.ts:86-109 | a decision is counted if and only if the name is usable, the tire identity holds, the context does not conflict, the confidence is at least 0.8, and the app verified the exact code or two sources agreed on the size; the first check that fails names the refusal |
| DecodeTrust.AllowedExactly | src/stores/scanGates.ts:86-109 | the same for any decision at all, wherever it comes from, and for none |
| DecodeRoutes.StatusExactly | src/decoding/decode.ts:223-450 | the status of every decision: conflicting if and only if the first two answers that name a product conflict; verified if and only if it is backed by source, by tire or by size agreement and the brand prefix does not veto it; else suggested if and only if some answer names a product |
| DecodeRoutes.RouteExactly | src/decoding/decode.ts:260-374 | which route a verified decision reports, in what precedence, and that the app read the exact code on every route but the size agreement |
| DecodeRoutes.ConfidenceExactly | src/decoding/decode.ts:375-450 | which confidence levels every decision reaches, the 0.95 floor of a trusted fetched page and the 0.2 floor of a suggestion included |
| DecodeRoutes.StrongEvidenceKeepsVerified | src/decoding/decode.ts:230-237 | what is verified stays verified when the best evidence becomes strong |
| DecodeRoutes.PrefixConflictMattersExactly | src/decoding/decode.ts:232-237 | a conflict with the brand prefix is decisive if and only if there is no strong evidence |
| DecodeRoutes.NormalizedExactly | src/decoding/provider.ts:50-75 | normalization keeps names and flags, clamps the confidence, drops the size agreement and forces review if and only if the answer asks for it or is below 0.85 |
| DecodeTrust.UnnormalizedClaimIsCounted | src/decoding/decode.ts:345-355 | without normalization the size-agreement claim alone would be counted |

## Left out

- PersistNewest.NewestWriteSurvives: assumes the discipline `Disciplined`: operations of the key take effect in the order of issue and its callbacks run in that order; the key is read, or removed, in a session before it is first written there; it is read only when no write of it is in flight or waiting and no removal is on its way; its reads succeed; a failed write's fallback lands; its deletes succeed; after demotion a write starts only when none is in flight; at a removal no write or read is in flight and no reaction to a settled migration is due; a write parked at a removal starts before the latch trips and commits; a session ends only when the newest write has landed and removals have taken effect. For reads, first writes, fallbacks, demotion and removals `PersistReads`, `PersistLimits`, `PersistReturn`, `PersistCommitted` and `PersistRewrite` say what happens otherwise.
- PersistRewrite.RewriteSurvivesExactly: assumes that no read is in flight and no reaction is due at the removal, that no transaction of the key has failed and that the latch has not tripped.
- PersistLimits.FallbackThatDoesNotLand: its condition names outcomes, because neither a commit nor the quota is something a caller can check before the write.
- StampedCopy.JudgeReturnsTheNewer: a stamp cell counts only as a plain decimal numeral; the other texts `Number` accepts (hexadecimal, exponents, fractions, blanks) are never written by this code.
- SyncTheorems.NoScanIsLost: the lower bound is stated for sessions that every load of the run restores, because a load drops the synced rows of other sessions from view by design.
- SyncTheorems.NothingIsCountedTwice: increments have positive deltas; the negative ones of delete transfers are not part of the run.
- SyncRetry.RetriesNeverDoubleCount: the queue holds no two operations with the same key, and no two increments of one row with the same event; the backend keeps only counts and keys, its other upserts by id are left out.
- TenantTheorems.TenantIsolation: the loader's contract (it answers with rows of the business it was asked for) is assumed, except for reviews, which the merge filters itself; the actions that create and edit rows are one step that may do anything that leaves every row with the current business.
- ImportTheorems.NoCodeGetsTwoOwners: the id factory never repeats an id, and approved aliases name a product.
- Persistence: the configuration without a fallback store, primary stores without multi-key operations, other tabs, parsing and serializing the state (values are already strings), fallback removals that throw, and stamps beyond 2^53.
- Persistence: a name that is another name's stamp key; the wrapper's timer and page-hide listeners; code that runs between the callbacks of a migration and the reactions attached to it, which the source separates by microtasks.
- Adoption: reading the source is one observation for each read, so any interleaving of other tabs is covered; a write to the target slot by another tab during the adoption is not.
- Adoption: the synchronous variant and the banner's test for a meaningful blob.
- Ledger: sync errors and location fields; a row id is a function of the position.
- Sync: the keys of count rows are pairs, where the source joins session and product with a bar; instants are numbers, where the source compares date strings.
- Sync: the watchdog, lanes, quarantine and timeouts of the drain; only which items were applied and dequeued matters here.
- Tenants: settings, history, snapshots, logs and other surfaces that carry no business id; the sync work rebuilt on adoption is an input.
- Tenants: rehydrating another user's blob, and the sign-out's removal of persisted keys.
- Decode cache: an isSuccess that throws.
- Fingerprint: lone surrogates, fractions and integers beyond 2^53 - 1, sparse arrays, functions and symbols.
- Review keys: status rules of the review itself; only its fields and their keys matter.
- CSV: mapping records to header-named rows, and the second parser built on an external library.
- Import plan: notes, timestamps and fixed fields of new products; scan cleaning and barcode grading are inputs.
- Columns: header scoring, fuzzy matching and value-shape tests are inputs; reasons are not built.
- Preview: the headline, raw cells and display names; unit names are compared without locale rules.
- Decode trust: grounding chunks and snippets come with the provider's answer and are searched as they are; whether a provider made them up is not something the app can see.
- Decode trust: word lists, host lists, tire and prefix tables, the cross check and reasons are inputs; confidences are real numbers.
- Catalog, sessions and review slices, React components, Firebase, IndexedDB, fetch and OpenAI calls.
