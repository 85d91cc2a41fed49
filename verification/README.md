# Verified models of Berry's durable work

This Dafny project models the parts of the Berry worker, memory service and
API where work survives crashes, and proves what those parts promise. Every
SQL transaction or statement is one atomic step on abstract rows; a crash is a
worker whose steps stop; queue deliveries may be lost, repeated and reordered.

The four protocols:

- **Session compaction** (`CompactionPrefix`, `CompactionProtocol`,
  `CompactionLease`, `CompactionSafety`, `CompactionRepository`). Any number
  of compactors share one lease row. Entries are pushed on the session path
  and rewound off it; the two reads of a load are separate steps, so the path
  may move between them. The segments of every algorithm version tile the path
  in every interleaving.
- **Stored files** (`FileRows`, `FileOutcomes`, `FileSafety`, `FileTheorems`,
  `FileGrace`, `FileBlobProcessor`, `OrphanFiles`, `Finalization`,
  `FinalizationSafety`, `FinalizationStore`). Blobs are verified, deduplicated, scheduled and
  physically deleted; the physical deletion happens between a claim and a
  receipt. No live file loses its bytes.
- **Runtime outbox** (`OutboxRows`, `OutboxEffects`, `OutboxSafety`,
  `OutboxTheorems`, `OutboxDispatcher`, `TenantShares`). Rows carry a lease owner, a fencing
  epoch, an attempt count and a delivery receipt. Each row keeps the history
  of what took effect on it, and the theorems are about that history.
- **Maintenance** (`MaintenanceRuns`, `MaintenanceRunner`, `CleanupRuns`,
  `CleanupRunner`, `BudgetLedger`). Keyset pages commit with their cursor and
  enqueue the next generation; the cleanup phases form a chain with a
  termination measure; budget reservations are given back once.

Each statement is modelled as a function on rows. Beside it stands what it
decides and leaves, read off the rows' own fields, so that the theorems about
whole runs do not rest on the function alone.

Around them: the key-sorted JSON normal form (`Json`, `CanonicalJson`), the
bounded tool text (`BoundedText`, `Decimal`), resumed connector imports
(`ConnectorImports`), reference-counted pools (`VectorPool`), the preview
cache and the image payload limit (`PreviewCache`, `ImagePayload`), paged
version deletion (`VersionDeletion`) and recovered package paths
(`RecoveredPaths`). `Options`, `Numbers`, `Sequences` and `Sets` are shared
helpers.

## Environment assumptions

- SHA-256 is injective, and distinct blobs have distinct locations (the guard
  the deletion claim checks for). An upload takes a location no other blob ever
  had. Its bytes are there before the rows, or the rows are reserved first and
  the bytes arrive later, while nothing is stored at the location and the blob
  is not scheduled; bytes of another size than declared may be dropped again.
- References are added to live files only, and an upload finishes on a live
  file whose bytes have the declared size. Then a scheduled blob never has a
  live file, so the deletion's cancellation branch is not reached; what it
  would do is stated separately, with the exact condition under which it is
  sound.
- `localeCompare` is a strict total order on the keys of an object.
- A checkpoint that is stored parses again and carries the covered range it
  was given.
- Each `compactSession` call makes up its own lease owner name.

## Where the code and its intentions part

- A maintenance upsert reopens a row without clearing its dead-letter mark:
  such a row is never claimed, dead-lettered or received again until a step
  clears the mark (`OutboxTheorems.DeadLetterIsWedged`,
  `OrphanFiles.DeadLetterSurvivesScheduling`).
- A receipt of an earlier delivery closes a reopened row exactly when nobody
  claimed it since (`OutboxTheorems.StaleReceiptIff`), and cancelling a
  deletion is not a fence (`OutboxTheorems.CancelKeepsFence`).
- Events that need no receipt have no bound on their claims under repeated
  crashes (`OutboxTheorems.CrashLoop`), and all those claims publish one job id
  (`OutboxTheorems.PublishedTwiceIff`).
- Retention can remove the dead-lettered verification row of a blob that is
  still being verified (`FileTheorems.PurgedWhileVerifying`).
- The ceiling in the tenant shares starves a tenant exactly when the due rows
  before it, counted up to the share, fill the batch
  (`TenantShares.StarvedIff`).
- Deduplication settles artifact operations after the files were moved to the
  winner, so only operations with a matching storage receipt are settled
  (`FinalizationSafety.DuplicateSettlesIff`). A late failure settles
  operations of a blob that stayed verified
  (`FinalizationSafety.LateFailureFlips`).
- A failure recorded on a completed maintenance run makes the next delivery
  scan its last phase again (`MaintenanceRuns.LateFailureRescansIff`);
  cancellation is not absorbing.
- A tool result list stored under the key the cut writes its notice to is lost
  (`BoundedText.ListSurvivesIff`).
- The check against repeating the latest segment never stops a compaction
  (`CompactionRepository.GuardIsIdle`).

## Model

| member | source | states |
|---|---|---|
| CompactionPrefix.SelectCompactionPrefix | apps/worker/src/compaction.ts:1049-1084 | covered and retained concatenate to the entries; the cut is the one the budget determines; a non-empty covered part leaves the kept part starting at a user or assistant entry |
| CompactionPrefix.FindRecentStart | apps/worker/src/compaction.ts:1054-1061 | the backward scan stops at the shortest suffix that reaches the token target, or at the beginning |
| CompactionPrefix.FindKeptFrom | apps/worker/src/compaction.ts:1062-1079 | the forward search finds the first turn from there, the fallback the last turn before it |
| CompactionPrefix.CutUnique | apps/worker/src/compaction.ts:1049-1084 | one budget determines one cut |
| CompactionPrefix.SelectionIsFixpoint | apps/worker/src/compaction.ts:1049-1084 | selecting again from what was kept, with the same budget, covers nothing |
| CompactionPrefix.IndexAfter | apps/worker/src/compaction.ts:1040-1047 | the pending entries start right behind the covered end, or at the beginning when it is not on the path |
| CompactionSafety.EveryRunTiles | apps/worker/src/compaction.ts:219-408 | over every interleaving of claims, reads, heartbeats, expiries, takeovers, persists, releases, pushes and rewinds, the visible segments of every algorithm version tile a prefix of the path and the rolling checkpoint covers exactly their union |
| CompactionSafety.ExactlyOneSegment | apps/worker/src/compaction.ts:566-617 | a covered path position lies in exactly one segment, any other position in none |
| CompactionSafety.NoPersistBetween | apps/worker/src/compaction.ts:638-693 | no persist at all, by whomever, takes effect between a compactor's load and its own successful persist |
| CompactionSafety.PersistBlocks | apps/worker/src/compaction.ts:638-648 | whoever persists, no compactor that had claimed before can persist afterwards, itself included |
| CompactionSafety.PersistHappens | apps/worker/src/compaction.ts:219-408 | a run of two turns in which a load is followed by its own effective persist |
| CompactionSafety.LostLeaseStaysLost | apps/worker/src/compaction.ts:478-518 | an owner that does not hold the lease row never holds it again |
| CompactionSafety.StepPreserves | apps/worker/src/compaction.ts:478-704 | every single step keeps the tiling and what each compactor knows about it |
| CompactionRepository.SessionTables.Claim | apps/worker/src/compaction.ts:478-499 | takes exactly a free, expired or own lease, until the asked seconds are over, and is one protocol step |
| CompactionRepository.SessionTables.Heartbeat | apps/worker/src/compaction.ts:501-518 | exactly an unexpired own lease is extended, to the asked seconds from now; one protocol step |
| CompactionRepository.SessionTables.VisibleRows | apps/worker/src/compaction.ts:566-594 | the loop returns the checkpoints of one kind and version whose source leaf is on the active path, oldest first |
| CompactionRepository.SessionTables.Persist | apps/worker/src/compaction.ts:621-693 | with an unexpired own lease both checkpoints are inserted and the error is cleared, without it nothing changes; one protocol step |
| CompactionRepository.SessionTables.Release | apps/worker/src/compaction.ts:695-704 | the own lease ends now and carries the given error, another owner's row stays as it is; one protocol step |
| CompactionRepository.SessionTables.CompactSession | apps/worker/src/compaction.ts:219-408 | an uninterrupted call is a run of the protocol, keeps the tiling, leaves a session on which the same budget covers nothing more, and unless another call was running leaves the lease free for every owner, with the failure it had |
| CompactionLease.ClaimIff | apps/worker/src/compaction.ts:478-499 | a call gets the lease exactly when nobody else's is running, and then for the seconds it asks for |
| CompactionLease.HeartbeatIff | apps/worker/src/compaction.ts:501-518 | a heartbeat extends exactly an unexpired own lease, and changes nothing otherwise |
| CompactionLease.ReleaseFrees | apps/worker/src/compaction.ts:695-704 | after a release by the owner on the row every other owner can claim at that same moment, and the row carries the error; another owner's row is unchanged |
| CompactionLease.LeaseExcludes | apps/worker/src/compaction.ts:478-518 | while a lease runs nobody else claims, extends, persists or releases it |
| CompactionLease.PersistIff | apps/worker/src/compaction.ts:638-693 | a loaded compactor persists exactly with an unexpired own lease, which it then keeps until its expiry |
| CompactionRepository.GuardIsIdle | apps/worker/src/compaction.ts:254-260 | for every compactor of every reachable state that has loaded, whatever the path did between its two reads and since, what it covers is never what the latest segment already covers |
| CompactionRepository.CompactedIsFixpoint | apps/worker/src/compaction.ts:247-261 | after a persist the pending entries are the kept ones, and covering them again covers nothing |
| FileTheorems.NoLiveFileLosesBytes | apps/worker/src/file-blobs.ts:129-278 | in every run with crashes anywhere, a live file whose upload finished has its object complete, and a file that is still live holds the bytes it had completely stored at every earlier moment, whatever was deduplicated |
| FileSafety.NothingToRestore | apps/api/src/files/file-platform.service.ts:2073-2094 | adding a reference to a live file restores no blob and closes no deletion |
| FileTheorems.VerifiedBlobsMatch | apps/worker/src/file-blobs.ts:280-397 | verified blobs match their bytes and are unique by digest and size; a deleted blob has no object |
| FileGrace.GracePeriod | apps/worker/src/file-blobs.ts:229-243 | a blob in use at some moment of a run is not marked deleted before seven days later, and what it had completely stored is not erased before either, whatever interleaves |
| FileGrace.ClaimDeletionGraced | apps/worker/src/file-blobs.ts:229-243 | a deletion is claimed only once its date has come, and is never cancelled |
| FileSafety.StepKeeps | apps/worker/src/file-blobs.ts:60-449 | every step of verification, deletion, collection and the outbox keeps the invariant behind both |
| FileSafety.NeverCancelled | apps/worker/src/file-blobs.ts:216-228 | as long as references are added to live files only, a deletion claim is never cancelled |
| FileTheorems.CancellationSoundIff | apps/worker/src/file-blobs.ts:216-228 | outside the environment, where a scheduled blob has a live file: restoring it keeps verified blobs truthful and unique exactly when no digest was recorded, or it still describes the bytes and no verified twin exists |
| FileTheorems.LoserNeverRestorable | apps/worker/src/file-blobs.ts:353-395 | outside the environment: the loser of a deduplication can never be restored soundly while its winner is still verified |
| FileTheorems.CancellationTrap | apps/worker/src/file-blobs.ts:216-228 | outside the environment: a scheduled blob with a live file on it that the cancellation marks verified against its bytes |
| FileTheorems.VerifyingIsWatched | apps/worker/src/file-blobs.ts:60-92 | after any crash a verifying blob has its verification row open or dead-lettered, in every run in which retention did not remove this blob's row while it was being verified |
| FileTheorems.PurgedRowWasDead | apps/worker/src/maintenance.ts:536-546 | a row that retention removes from a verifying blob was dead-lettered |
| FileTheorems.PurgedWhileVerifying | apps/worker/src/maintenance.ts:536-546 | a run in which that happens and leaves a verifying blob without a row |
| FileTheorems.VerifyingNeverClosed | apps/worker/src/file-blobs.ts:669-682 | in every run a verifying blob has its row open or dead-lettered exactly when it has a row: it is never closed as delivered |
| FileTheorems.WatchdogClosesWithOutcome | apps/worker/src/file-blobs.ts:669-682 | the row is closed only in a transaction that leaves the blob verified, scheduled or deleted |
| FileBlobProcessor.FileBlobTables.HashObject | apps/worker/src/file-blobs.ts:103-109 | the streaming loop yields the digest and the length of the joined chunks |
| FileBlobProcessor.FileBlobTables.FindWinner | apps/worker/src/file-blobs.ts:310-319 | finds a verified, undeleted twin of the digest and size exactly when there is one |
| FileBlobProcessor.FileBlobTables.ClaimVerification | apps/worker/src/file-blobs.ts:60-92 | the claim statements are the claim transaction of the model |
| FileBlobProcessor.FileBlobTables.FinalizeVerification | apps/worker/src/file-blobs.ts:280-397 | the finalizing statements are the transaction of the model for the winner found; they write nothing when the demanded digest changed or differs, and otherwise verify the blob or move its files and schedule it |
| FileBlobProcessor.FileBlobTables.RecordVerificationFailure | apps/worker/src/file-blobs.ts:399-449 | only a verifying blob fails; an integrity error quarantines every live file of it that was scanning, processing or available, keeping its earlier status, and no other file; any other error changes no file |
| FileBlobProcessor.FileBlobTables.Verify | apps/worker/src/file-blobs.ts:60-127 | a due verification ends with the blob verified, or its files moved to a verified twin and itself scheduled, exactly when the bytes have the recorded size and demanded digest; its row is closed by a current delivery. Wrong bytes fail the blob and leave no live file of it in use; missing ones change no file |
| FileBlobProcessor.FileBlobTables.ClaimDeletion | apps/worker/src/file-blobs.ts:147-246 | the branches of the claim, with a rollback whenever its receipt cannot be recorded |
| FileBlobProcessor.FileBlobTables.CompleteDeletion | apps/worker/src/file-blobs.ts:256-278 | marks the blob deleted together with its receipt, or changes nothing |
| FileBlobProcessor.FileBlobTables.Delete | apps/worker/src/file-blobs.ts:129-145 | bytes are erased exactly when the delivery's row is there, nothing uses the blob, and it is scheduled, due and not claimed elsewhere; the deletion is recorded exactly when the receipt is accepted too; every other outcome, and all that stays unchanged, is determined |
| FileOutcomes.VerificationClaimIff | apps/worker/src/file-blobs.ts:60-92 | a verification starts exactly for a blob never verified, failed, or verifying for fifteen minutes, and its row is open then; a settled blob closes the row of a current delivery |
| FileOutcomes.WatchdogIff | apps/worker/src/file-blobs.ts:669-682 | the verification row is closed exactly for the delivery that is current, or for a caller that names none, and never when it is dead-lettered |
| FileOutcomes.FinalizeIff | apps/worker/src/file-blobs.ts:280-397 | when finalizing is refused, and what it leaves of the blob, its files, its deletion date and row otherwise |
| FileOutcomes.FailureQuarantines | apps/worker/src/file-blobs.ts:399-449 | which files an integrity failure takes out of use, and that nothing else changes |
| FileOutcomes.QuarantineEnds | apps/worker/src/file-blobs.ts:328-347 | a file quarantined by a failed verification has its status back after the next one that succeeds |
| FileOutcomes.DeletionClaimIff | apps/worker/src/file-blobs.ts:147-246 | a deletion is granted, cancelled or found done exactly under conditions on the rows, with what each leaves |
| FileOutcomes.ReceiptIff | apps/worker/src/file-blobs.ts:685-715 | a deletion receipt is accepted exactly from the row's own current delivery or on a finished row, never on a dead letter, and finishes the row |
| FileOutcomes.ReleaseIff | apps/worker/src/file-blobs.ts:248-254 | only the delivery that claimed a deletion gives it up |
| FileOutcomes.DeletionCompletesIff | apps/worker/src/file-blobs.ts:256-278 | a deletion is recorded exactly by the holder of its claim, or was before, with an accepted receipt |
| FileOutcomes.CollectIff | apps/worker/src/maintenance.ts:684-750 | collecting tombstones exactly a file nothing refers to, and schedules its blob, on its own date or in seven days, exactly when no other live file uses it |
| FileOutcomes.ReferenceRestores | apps/api/src/files/file-platform.service.ts:2073-2094 | adding a reference to a file of a scheduled blob restores the blob and finishes its deletion |
| FileOutcomes.UploadFinishes | apps/api/src/files/file-platform.service.ts:484-502 | a finished upload opens its file, asks for a verification, and lets a failed one be tried again |
| OrphanFiles.RetireExpiredUploads | apps/worker/src/maintenance.ts:763-813 | retires the uploads that ran out first, up to the batch size, in that order |
| OrphanFiles.RetiredExactly | apps/worker/src/maintenance.ts:784-812 | a file loses exactly its retired uploads, and a live one has failed and keeps exactly its other uploads; every other file stays as it is |
| OrphanFiles.RetireAllKeeps | apps/worker/src/maintenance.ts:791-811 | retiring uploads changes no blob, link or tombstone |
| OrphanFiles.SelectBatch | apps/worker/src/maintenance.ts:596-645 | the batch is the first candidates in id order, all of them when it is short |
| OrphanFiles.CleanupOrphanFiles | apps/worker/src/maintenance.ts:591-761 | collects exactly the batch; `changed` counts the files newly tombstoned; exhausted means a short batch |
| OrphanFiles.BatchProgress | apps/worker/src/maintenance.ts:591-761 | a non-empty batch strictly lowers live files plus unscheduled dead blobs; a short one leaves no live file unreferenced and no orphaned blob unscheduled |
| OrphanFiles.CollectUntilExhausted | apps/worker/src/maintenance.ts:591-761 | without other writers the phase ends with no live file unreferenced, every file something refers to as it was, and, when tombstoned files keep no reference, every dead blob pending deletion with an open row |
| OrphanFiles.CollectionSpares | apps/worker/src/maintenance.ts:591-761 | a batch leaves every file that something other than an expired upload refers to exactly as it is |
| OrphanFiles.ReachableIsBare | apps/worker/src/maintenance.ts:684-717 | in every state the file protocol can reach, tombstoned files keep no reference |
| OrphanFiles.DeadBlobScheduledIff | apps/worker/src/maintenance.ts:718-750 | when the phase is left, a dead blob is scheduled with an open row exactly when it was before or one of its tombstoned files keeps no reference |
| OrphanFiles.DeadLetterSurvivesScheduling | apps/worker/src/maintenance.ts:742-748 | scheduling reopens the row but keeps its dead-letter mark, and its receipt can be recorded only without the mark |
| FinalizationSafety.SettleIsRecount | apps/worker/src/file-blobs.ts:501-560 | the counters of every affected finalization are a recount within the item count; not running, it is complete exactly when every item is an operation verified, failed exactly when every item is an operation failed, and ended exactly when every item is decided; its error is the new one, else the old one |
| FinalizationSafety.SettlesExactly | apps/worker/src/file-blobs.ts:477-500 | exactly the operations of the target's files or at its location get the outcome |
| FinalizationSafety.SettleSpares | apps/worker/src/file-blobs.ts:509-521 | finalizations without a matching operation keep their row and journal |
| FinalizationSafety.SettleAnnounces | apps/worker/src/file-blobs.ts:561-666 | a completed or failed finalization is announced under its operation key at the next sequence number exactly when it was not before, and nothing else is |
| FinalizationSafety.AnnouncedOnce | apps/worker/src/file-blobs.ts:592-613 | over every run each key has at most one complete end entry and one error entry, with strictly increasing sequence numbers |
| FinalizationSafety.EveryRunKeeps | apps/worker/src/sandbox-continuity.ts:3611-3826 | staging, beginning, requeueing, finishing, failing, skipping and settling in any order keep completed plus failed within the items, and a complete finalization without failures |
| FinalizationSafety.LeaseExcludes | apps/worker/src/sandbox-continuity.ts:3621-3641 | while a finalization's lease runs, nobody but its owner begins, requeues, skips, finishes or fails it |
| FinalizationSafety.BeginIff | apps/worker/src/sandbox-continuity.ts:3621-3641 | a worker gets a finalization exactly when it is not over and no other worker's lease runs, for 300 seconds |
| FinalizationSafety.ExpiredIsRequeued | apps/worker/src/outbox.ts:458-464 | a finalization whose worker crashed is requeued exactly once its lease is over, and then anybody gets it |
| FinalizationSafety.FinishIsRecount | apps/worker/src/sandbox-continuity.ts:3642-3700 | finishing by the lease holder ends the run with a recount; nobody else can finish it |
| FinalizationSafety.FailIff | apps/worker/src/sandbox-continuity.ts:3730-3750 | only the lease holder ends a run as failed, with its reason |
| FinalizationSafety.OperationCounts | apps/worker/src/sandbox-continuity.ts:3553-3622 | stored bytes are undecided, a link counts by its verdict, a failed operation as failed, and no other operation changes |
| FinalizationSafety.DuplicateSettlesIff | apps/worker/src/file-blobs.ts:353-395 | a duplicate's operation is settled exactly when its storage receipt names the duplicate's location |
| FinalizationSafety.VerifiedSettlesIff | apps/worker/src/file-blobs.ts:328-350 | verifying a unique blob settles exactly the operations of its files and of its location |
| FinalizationSafety.LateFailureFlips | apps/worker/src/file-blobs.ts:408-434 | a late failure leaves a verified blob verified, fails its operations and takes back a complete finalization |
| FinalizationStore.FinalizationTables.Count | apps/worker/src/file-blobs.ts:522-535 | the counting loop agrees with the sets it counts |
| FinalizationStore.FinalizationTables.SettleArtifactVerification | apps/worker/src/file-blobs.ts:470-667 | the three statements, row by row, are the settle step |
| OutboxSafety.StepKeeps | apps/worker/src/outbox.ts:165-215 | every step of every dispatcher, worker and upsert keeps the fencing invariant of every row and token |
| OutboxTheorems.OneOutcomePerEpoch | apps/worker/src/outbox.ts:528-563 | in every run each claim epoch has at most one effective complete, defer or fail |
| OutboxTheorems.OutcomesFollowTheirClaim | apps/worker/src/outbox.ts:598-628 | no outcome takes effect after a later claim, and after a receipt, supersession, dead letter or outcome only a dispatcher that claimed again since has an effect |
| OutboxTheorems.ReceiptBeatsDispatcher | apps/worker/src/outbox.ts:729-746 | what a receipt or a supersession leaves behind, the dispatcher holding the token cannot change |
| OutboxTheorems.ClosedStays | apps/worker/src/outbox.ts:296-304 | a completed row changes only by being reopened |
| OutboxTheorems.DeliveryIsBounded | apps/worker/src/outbox.ts:194-202 | attempts, epoch and number of claims agree in every run, reopenings included; outcomes never exceed claims, and claims of a receipt event never exceed 100 |
| OutboxTheorems.AttemptsWithinCap | apps/worker/src/outbox.ts:174-180 | attempts stay within the largest cap any claim of the row used |
| OutboxTheorems.DeferredWaits | apps/worker/src/outbox.ts:547-563 | a delivered row that is not reopened is not claimed again before its receipt is overdue, at least 30 seconds later, whatever else happens |
| OutboxTheorems.FailedWaits | apps/worker/src/outbox.ts:598-628 | a failed row that is not reopened is not claimed again before its delay is over, and never once it was dead-lettered |
| OutboxTheorems.BackoffDoubles | apps/worker/src/outbox.ts:603-603 | the delay doubles with every attempt from one second up to 256, so the limit of 300 is never reached |
| OutboxEffects.ClaimIff | apps/worker/src/outbox.ts:166-193 | a row is claimed exactly when it is open, due, not leased, and has an attempt left or needs no receipt |
| OutboxEffects.ClaimLeases | apps/worker/src/outbox.ts:194-215 | a claim leases that row only, for 30 seconds, at its next epoch and attempt, which its token names |
| OutboxEffects.CapIsNearest | apps/worker/src/outbox.ts:174-180 | the cap is the configured number, or the row's own, moved to the nearest of 1 to 100 |
| OutboxEffects.OrderIsLexicographic | apps/worker/src/outbox.ts:181-190 | the claim order is lexicographic in priority, due time, first availability and age |
| OutboxEffects.StaleTokenIsFenced | apps/worker/src/outbox.ts:528-628 | an outcome of any token but the row's latest, or of a row not leased to it any more, changes nothing at all |
| OutboxEffects.OutcomeFrees | apps/worker/src/outbox.ts:528-628 | a current token's outcome gives the lease up and touches no other row |
| OutboxEffects.CompleteFinishes | apps/worker/src/outbox.ts:528-545 | a completed delivery is finished, and not as a dead letter |
| OutboxEffects.DeferredReturns | apps/worker/src/outbox.ts:547-563 | a deferred row stays open and can be claimed again exactly from the moment its receipt is overdue, with attempts left |
| OutboxEffects.FailedReturns | apps/worker/src/outbox.ts:598-628 | a failure that is not terminal, with attempts left, keeps the row open, to be claimed again exactly once its delay is over; any other failure makes it a dead letter |
| OutboxEffects.ReceiptIff | apps/worker/src/outbox.ts:729-746 | a receipt finishes exactly an open row at its own epoch |
| OutboxEffects.SupersedeIff | apps/worker/src/outbox.ts:296-304 | a final snapshot finishes exactly the unfinished interval snapshots of its run |
| OutboxEffects.DeadLetterIff | apps/worker/src/outbox.ts:498-526 | a dead letter is made exactly of an open, due, unleased row that waits for a receipt and has no attempt left |
| OutboxEffects.RevivedReturns | apps/worker/src/outbox.ts:489-492 | a revived row can be claimed from its new date on, once unleased, with attempts left |
| OutboxTheorems.ExactlyOneEnabled | apps/worker/src/outbox.ts:498-526 | an unfinished, due, unleased receipt event is enabled for exactly one of claim and dead letter exactly when it is not dead-lettered |
| OutboxTheorems.DeadLetterIsWedged | apps/worker/src/maintenance.ts:575-580 | a reopened dead letter is never claimed or settled again until a step clears the mark |
| OutboxTheorems.CrashesEnd | apps/worker/src/outbox.ts:498-526 | from every open receipt event, time and a dispatcher that crashes after every claim lead to a dead letter |
| OutboxTheorems.CrashLoop | apps/worker/src/outbox.ts:174-180 | an event without receipts can be claimed any number of times |
| OutboxTheorems.StaleReceiptIff | apps/worker/src/outbox.ts:489-492 | a receipt from before a reopening closes the row exactly when it was not claimed since |
| OutboxTheorems.JobIdsEqualIff | apps/worker/src/outbox.ts:709-714 | the job ids of two rows' attempts agree exactly for the same row and, where its event has a receipt, the same attempt |
| OutboxTheorems.PublishedTwiceIff | apps/worker/src/outbox.ts:237-244 | two claims of one run publish the same job id exactly when they are the same claim, or claims of the same row whose event has no receipt |
| OutboxTheorems.RepublishedAfterCrash | apps/worker/src/outbox.ts:237-244 | a crash after the claim and an expired lease are enough for two claims with one job id, when the event has no receipt |
| OutboxDispatcher.RuntimeOutboxDispatcher.SelectDue | apps/worker/src/outbox.ts:166-193 | picks the first claimable rows in claim order, all of them when fewer than the limit |
| OutboxDispatcher.RuntimeOutboxDispatcher.ClaimDue | apps/worker/src/outbox.ts:165-215 | leases exactly the picked rows at their next epoch, and is a run of claim steps |
| OutboxDispatcher.RuntimeOutboxDispatcher.DeadLetterExhaustedReceipts | apps/worker/src/outbox.ts:498-526 | afterwards no row is exhausted; a run of dead-letter steps |
| OutboxDispatcher.RuntimeOutboxDispatcher.Settle | apps/worker/src/outbox.ts:219-274 | a claimed row is prepared, superseding interval snapshots, before its payload is parsed and published; still leased, it is then finished, waits for its receipt, waits out its delay, or is a dead letter, as the delivery and its attempts decide; not leased any more, it stays as it is |
| OutboxDispatcher.RuntimeOutboxDispatcher.DispatchDue | apps/worker/src/outbox.ts:82-280 | one cycle is a run of this dispatcher's own steps: it claims the first due rows there are once exhausted receipts are buried, reports to each claim the outcome of its delivery, frees every row, counts the published ones, and does nothing while another cycle runs |
| TenantShares.SplitBatch | apps/worker/src/outbox.ts:159-164 | each tenant gets its due rows up to the fair share and what is left; the total stays within the batch |
| TenantShares.FairShare | apps/worker/src/outbox.ts:161-163 | the least share of at least one row with which the tenants together take the batch |
| TenantShares.StarvedIff | apps/worker/src/outbox.ts:159-164 | a tenant with due rows gets none exactly when the due rows of the tenants before it, each counted up to the fair share, fill the batch |
| TenantShares.TakenIsDemand | apps/worker/src/outbox.ts:159-164 | the tenants before get those rows, until the batch is used up |
| TenantShares.CeilingStarvesIff | apps/worker/src/outbox.ts:161-164 | behind tenants that all have a full share due, a tenant is starved exactly when those shares fill the batch |
| BudgetLedger.BalanceIsReserved | apps/worker/src/maintenance.ts:485-532 | over every interleaving each scope's balance is what is reserved in it, and each request adds its amount, while reserved, to the organization, its department and its user, and nothing to any other scope or afterwards |
| BudgetLedger.ReleasedOnce | apps/worker/src/outbox.ts:363-417 | a reservation has its entry in exactly the organization, its department and its user, and is given back there by exactly one of the two paths |
| BudgetLedger.EventCloses | apps/worker/src/outbox.ts:363-380 | an admission adds its reservation; either path closes one that is still reserved and touches no other |
| BudgetLedger.RecordedBalancesAreTrue | apps/worker/src/outbox.ts:387-415 | every balance recorded with a recovery entry is the balance of its scope once the entry is in |
| BudgetLedger.BudgetTables.RecoverExpiredAdmissions | apps/worker/src/outbox.ts:363-417 | the loops over requests and scopes are the recovery steps in order; exactly the listed reservations still reserved are reconciled, and the books keep balancing |
| MaintenanceRuns.BackfillIsOneScan | apps/worker/src/maintenance.ts:53-89 | under repeated and reordered deliveries the committed batches scan a prefix of one full scan, each row once in id order: workspace files, then file sources, then task outcomes, from the start phase on, or the blobs alone; a completed run scanned all of it, in one batch more per phase than it has full pages |
| MaintenanceRuns.BackfillIsNeverLost | apps/worker/src/maintenance.ts:844-861 | a run that is not completed has an enqueued generation whose batch has not committed |
| MaintenanceRuns.BackfillCompletes | apps/worker/src/maintenance.ts:53-89 | from every state that has not ended, deliveries alone lead to completion |
| MaintenanceRuns.PageThenRest | apps/worker/src/maintenance.ts:168-181 | a full page is the next slice of the rows, and its last id leaves exactly the rows behind it |
| MaintenanceRuns.LateFailureRescansIff | apps/worker/src/maintenance.ts:863-873 | a failure recorded on a completed run makes the next delivery scan the first page of the last phase again, which is empty exactly when that phase has no rows |
| MaintenanceRunner.MaintenanceTables.Backfill | apps/worker/src/maintenance.ts:53-89 | claim, page, cursor and next generation commit as one delivery step |
| MaintenanceRunner.MaintenanceTables.SelectPage | apps/worker/src/maintenance.ts:175-181 | the first rows past the cursor, up to the batch size |
| CleanupRunner.CleanupTables.Cleanup | apps/worker/src/maintenance.ts:91-118 | claim, batch, next phase and next generation commit as one delivery step |
| CleanupRunner.CleanupTables.RemoveExpired | apps/worker/src/maintenance.ts:395-554 | a plain phase removes as many of its expired rows as the batch takes, and nothing else |
| CleanupRunner.CleanupTables.CollectOrphans | apps/worker/src/maintenance.ts:533-534 | the orphan phase is one orphan collection |
| CleanupRunner.CleanupTables.CleanupUntilDone | apps/worker/src/maintenance.ts:890-900 | delivering each next generation completes the run with every phase clean |
| CleanupRuns.CompletedIsClean | apps/worker/src/maintenance.ts:91-118 | with no other writers, a completed run has left nothing behind in any phase, under failures, cancellations and repeated or reordered deliveries |
| CleanupRuns.BatchesAreBounded | apps/worker/src/maintenance.ts:99-104 | unless a failure is recorded on a completed run, its batches are at most the rows to remove plus one per phase |
| CleanupRuns.CleanupIsNeverLost | apps/worker/src/maintenance.ts:844-861 | a run that is not completed has an enqueued generation whose batch has not committed |
| CanonicalJson.CanonicalIdempotent | apps/worker/src/mcp-tools.ts:888-895 | canonicalising twice is canonicalising once |
| CanonicalJson.CanonicalIsTheSortedForm | apps/worker/src/mcp-tools.ts:888-895 | the canonical form is the one value equal up to key order whose keys ascend at every depth |
| CanonicalJson.CanonicalTextDecidesEquality | apps/worker/src/mcp-tools.ts:888-895 | two values have the same canonical text exactly when they are equal up to key order at every depth |
| CanonicalJson.RebuiltTextDecidesEquality | apps/worker/src/bullmq.ts:180-188 | the same for the form that rebuilds objects, where index keys move to the front |
| CanonicalJson.RebuiltIsTheSortedForm | apps/worker/src/bullmq.ts:180-188 | the rebuilt form is the one value equal up to key order whose keys ascend in property order |
| CanonicalJson.PropertyOrderIs | apps/worker/src/bullmq.ts:180-188 | property order puts index keys first, by number, and the others as they were sorted |
| CanonicalJson.IsArrayIndexIff | apps/worker/src/bullmq.ts:180-188 | an index key is the decimal text of a number below 2^32 - 1 |
| CanonicalJson.DirectTextDecidesEquality | apps/cli/src/runner.ts:423-428 | printing sorted entries directly gives the canonical text, so it decides the same equality |
| Json.PrintInjective | apps/worker/src/bullmq.ts:175-178 | well-formed values with the same JSON text are the same value |
| Json.PrintReads | apps/worker/src/bullmq.ts:175-178 | a JSON reader gets exactly the printed value back |
| Json.EscapeRead | apps/worker/src/bullmq.ts:175-178 | exactly quotes, backslashes and control characters are escaped, the named ones in two characters, and a reader gets each back |
| ConnectorImports.ResumesExactly | apps/worker/src/mcp-tools.ts:869-886 | an import is resumed exactly from the latest earlier completed call of the same tool with arguments equal up to key order, when that call left a file unstaged |
| BoundedText.LargestFit | apps/worker/src/mcp-tools.ts:1017-1023 | the binary search returns the largest number of items that fits, and fits exactly when any number does |
| BoundedText.RenderMonotone | apps/worker/src/mcp-tools.ts:1005-1016 | the rendered length grows with the number of kept items, decimal counts included |
| BoundedText.BoundedMcpText | apps/worker/src/mcp-tools.ts:991-1030 | short text is returned as is; longer text is the largest rendering that fits or the clipped text, within the limit whenever the marker fits |
| BoundedText.CutKeeps | apps/worker/src/mcp-tools.ts:1005-1016 | every other top-level entry survives a cut unchanged |
| BoundedText.ListSurvivesIff | apps/worker/src/mcp-tools.ts:1005-1016 | the shortened list survives exactly when its key is not one the cut writes itself |
| BoundedText.CutDiscloses | apps/worker/src/mcp-tools.ts:1005-1016 | the notice holds the list's key, how many of how many items are shown, the original length, and the sentence with those numbers |
| BoundedText.CutNamesCursor | apps/worker/src/mcp-tools.ts:1008-1008 | the next page's cursor is added when no top-level entry holds it already |
| BoundedText.CutsTheLongestList | apps/worker/src/mcp-tools.ts:1000-1004 | the list that is cut is the longest, the first of the longest, unless its key is empty |
| BoundedText.CutsNothingElse | apps/worker/src/mcp-tools.ts:1000-1004 | a parsed array is cut under `items`, and without a list nothing is cut |
| BoundedText.CursorOfResult | apps/worker/src/mcp-tools.ts:1032-1040 | the cursor is the first text that is not blank among five keys, in their order |
| BoundedText.MarkerDiscloses | apps/worker/src/mcp-tools.ts:1028-1028 | the marker says how much of how long a text is shown |
| BoundedText.MarkerNamesCursor | apps/worker/src/mcp-tools.ts:1028-1028 | the marker ends with the cursor when there is one |
| Decimal.GroupedRead | apps/worker/src/mcp-tools.ts:1028-1028 | a grouped number is its decimal text with a comma before every three digits that others precede |
| Decimal.DigitsRead | apps/worker/src/mcp-tools.ts:1014-1014 | the text of a number stands for the number, without leading zeros |
| VectorPool.PoolRegistry.Construct | apps/mem0/src/pgvector-pool.ts:56-107 | refused once closed; otherwise a new live client on the one open pool of its configuration, shared when there was one |
| VectorPool.PoolRegistry.ReleaseEntry | apps/mem0/src/pgvector-pool.ts:87-96 | the last reference unregisters the entry and ends its pool, once |
| VectorPool.PoolRegistry.End | apps/mem0/src/pgvector-pool.ts:125-137 | drops one reference, the pool ends with the last one, and ending again does nothing |
| VectorPool.PoolRegistry.Close | apps/mem0/src/pgvector-pool.ts:142-154 | ends every open pool exactly once |
| VectorPool.PoolRegistry.LiveClientHoldsOpenPool | apps/mem0/src/pgvector-pool.ts:98-137 | before close no live client holds an ended pool |
| VectorPool.PoolRegistry.OneOpenPoolPerKey | apps/mem0/src/pgvector-pool.ts:71-84 | at most one open pool per configuration, and no pool is ended twice |
| VectorPool.PoolRegistry.ReferencesAreLiveClients | apps/mem0/src/pgvector-pool.ts:36-40 | an entry's count is the number of its clients not ended |
| PreviewCache.HitsAreRecomputations | apps/worker/src/model-image.ts:44-50 | in every interleaving of concurrent calls a hit is what an uncached run returns, and both budgets hold with an exact byte count |
| PreviewCache.EvictsLeastRecent | apps/worker/src/model-image.ts:83-87 | a cached key was used more recently than every key that is not cached |
| PreviewCache.EvictedKeepsNewest | apps/worker/src/model-image.ts:83-87 | eviction drops the oldest entries, and not one more than the new entry needs |
| PreviewCache.PreviewStore.Lookup | apps/worker/src/model-image.ts:45-50 | a hit returns the entry and moves it to the end |
| PreviewCache.PreviewStore.Insert | apps/worker/src/model-image.ts:81-90 | the closure's loop is the store step |
| PreviewCache.PreviewStore.PrepareModelImage | apps/worker/src/model-image.ts:36-50 | the cache never shows in the result |
| ImagePayload.LimitModelImagePayload | apps/worker/src/model-image.ts:214-237 | images are replaced oldest first up to the first position at which the request fits, and clearing less would not fit; all of them when nothing fits |
| ImagePayload.ClearedExactly | apps/worker/src/model-image.ts:223-234 | clearing up to a position replaces exactly the images before it, and touches nothing else |
| VersionDeletion.CollectPages | apps/worker/src/file-deletion.ts:148-173 | any advancing pagination yields exactly the listed versions and markers of the key; the walk fails exactly when the page it reached has no usable continuation |
| VersionDeletion.Deduplicate | apps/worker/src/file-deletion.ts:187-197 | keeps one object of every identity |
| VersionDeletion.SameObjectIff | apps/worker/src/file-deletion.ts:187-197 | two listed objects are one exactly when keys and version ids agree, no version id and an empty one being the same |
| VersionDeletion.ListEveryVersion | apps/worker/src/file-deletion.ts:143-185 | every version of the key once, and the plain object only when the listing shows none and a head request finds one; it fails exactly on such a page, or when nothing is listed and the head request fails |
| VersionDeletion.BatchesPartition | apps/worker/src/file-deletion.ts:108-112 | the batches partition the objects, a thousand in each but the last, none empty |
| VersionDeletion.ObjectStore.DeleteInBatches | apps/worker/src/file-deletion.ts:108-116 | sends the batches in order, stops at the first rejected one, and touches nothing else |
| VersionDeletion.ObjectStore.DeleteEveryObjectVersion | apps/worker/src/file-deletion.ts:99-117 | after success no version of the keys is left, nor the plain object of a key without versions; no other key is touched either way, not even one that shares a prefix |
| VersionDeletion.ObjectStore.DeleteCapturedObjectVersion | apps/worker/src/file-deletion.ts:120-141 | with a version id exactly that version goes, present or not |
| RecoveredPaths.CandidatesDiffer | apps/api/src/skill-package-backfill.ts:66-75 | distinct attempts are distinct paths |
| RecoveredPaths.CleanedOneMore | apps/api/src/skill-package-backfill.ts:71-71 | each character of a file id counts on its own: letters lower-cased, digits and dashes kept, the rest dropped |
| RecoveredPaths.UsedPaths.UniqueRecoveredPackagePath | apps/api/src/skill-package-backfill.ts:60-82 | returns the first free candidate, found within as many attempts as there are used paths, and adds exactly it |
| RecoveredPaths.UsedPaths.RecoverAll | apps/api/src/backfill-skill-packages.ts:119-161 | all paths of a recovery differ from each other and from the ones in use |

## Left out

- SQL text, isolation below the transaction, tenant row security, BullMQ and Redis: a transaction is one step, a queue is a source of deliveries in any number and order.
- The retry of a finalization after a unique violation: transactions are serial here, so the query sees every winner.
- Keyset queries that wait on row locks, `SKIP LOCKED`, and the order of mutations inside a batch.
- Reactivating an abandoned branch of a session, where the leaf moves to an entry that is off the current path.
- Model calls, prompts, checkpoint prose and its validation, usage accounting, and `serializeEntries`: only the covered range of a checkpoint is modelled.
- The compaction deadline and the timer behind the heartbeat: heartbeats are steps that may or may not happen.
- `file.delete-object` deliveries for legacy files and derivatives, knowledge-source tombstones and organization logos.
- `JSON.parse` beyond text without white space, `undefined`, lone surrogates and the value of a number's text.
- Fairness between tenants, real-time bounds, and eventual delivery after a dead letter: the code does not establish them.
- Budget settlement at the end of a turn: only admission, its expiry and the orphan cleanup post entries.
- The SQL that selects the rows of the eight plain cleanup phases: each phase has a set of expired rows, and nothing else adds to it.
- `describeRequestPrefix`, `compareDurablePromptManifests`, `compareSemver` and `sanitizeMcpJournalValue`: straightforward functions that would only add easy members.
- Image decoding, resizing and mattes: one deterministic function from content to preview.
- Hashing and S3 transport; deletions answered with errors are modelled as deleting a part of their batch.
- OutboxDispatcher.RuntimeOutboxDispatcher.DispatchDue: works on one tenant; how a cycle splits its batch between tenants is modelled on counts in `TenantShares`.
- OrphanFiles.RetireExpiredUploads: uploads that expire at the same moment come in any order, where the query breaks the tie by id.
- A completed upload racing with its own expiry: finishing is one step on a live file, and the bytes of a multipart upload do not arrive once its blob is scheduled.
- BudgetLedger.BalanceIsReserved: which reservations are expired or orphaned is left open, so either path may come at any time.
