# Backplane protocols, modelled and proved

A Dafny project that models the stateful cores of Backplane and proves what they promise:

- **Blobs** (`BlobProtocol`, `BlobSafety`, `BlobRuns`, `BlobHistory`, `BlobOwnership`, `BlobCalls`, `BlobResults`,
  `BlobRemovals`, `BlobCleanup`): uploads, deletions, sweeps and expiry over a SQL
  table and a byte store, as a step machine of any number of clients. The transaction that holds the Workspace cursor
  may abort at any moment while its client goes on, commits may be carried out without their acknowledgement being
  heard, store operations may fail half done, and clients may crash between any two steps.
- **Storage binding** (`StorageBinding`, `StorageAdoption`, `AdoptionSafety`, `AdoptionEffects`): the two-transaction command that binds a
  store to its database, the inventory it proves, and the check at startup. SHA-256 is an injective constructor.
- **Audit stream** (`AuditLog`, `AuditStream`, `StreamCursor`, `Decimal`): snapshots of an append-only log, the
  re-entrant back-pressured stream, and the ids clients resume at.
- **Approvals** (`ApprovalPolicy`, `ApprovalProtocol`, `ApprovalDecisions`, `ApprovalEffects`, `ApprovalSafety`,
  `ApprovedRows`, `ApprovalWorkspace`, `Proposal`, `ProposalAccepted`, `SqlMeaning`, `Determinism`, `Json`, `JsonStrings`, `Canonical`,
  `ActionText`): gates, requests, decisions, Migrations and gated row changes; the
  WHERE clauses that select one row; what the expressions of a proposal can depend on, as PostgreSQL evaluates them; the
  canonical text that is hashed. The specification functions of `ApprovalProtocol` read and write a
  whole Workspace; the class `ApprovalWorkspace.Workspace` performs them table by table.
- **Admission** (`Admission`): the class of the two-class gate, with its waiters.
- **Checkpoints** (`Wal`, `WalRetention`): WAL segment names as text, boundaries, the gap check and what is removed.
- **Schema tools, env file, reconciliation** (`EmptySchema`, `SchemaValidity`, `SchemaLimits`,
  `ToolClosure`, `EnvFile`, `EnvLines`, `Reconcile`).

`Wrappers`, `Content`, `Lex`, `Uuid`, `Sets` and `Splitting` are shared. Time, random ids and the fate of every fallible
operation are inputs, so a theorem over all inputs is one over all schedules.

Where the code does less than it seems to promise, the code is modelled as it is, a lemma exhibits an input, and another
states for all inputs when the promise holds:

- a recorded upload rejection: `BlobRuns.PutRejectionCanBeFalse`, `RejectionIsFalseIffDeleted`;
- a recorded deletion rejection: `BlobRuns.DeleteRejectionCanBeFalse`, `BlobHistory.DeleteRejectionIsFalseIff`;
- a recorded purge rejection: `BlobRuns.PurgeRejectionCanBeFalse`, `BlobHistory.PurgeRejectionIsFalseIff`;
- proposals whose effect is not settled when they are approved: `Determinism.ClockIsAccepted`, `ZoneNameIsAccepted`,
  `IntervalIsAccepted`, `AcceptedEffectIsSettledIff`;
- equalities on the whole row: `Proposal.StarIsAccepted`, `MeaningExactlyWithoutStar` (an input of the policy alone:
  PostgreSQL's typing would probably stop it later);
- canonical texts: `Canonical.NonFiniteCollides`, `LeavesEqualIff`, `ActionHashRefusesIff`;
- the search for an empty object: the lemmas of `SchemaLimits`, `SchemaValidity.EmptyIsValidityIff` and `TrustedIffChecked`.

Check everything with `dafny verify dfyconfig.toml`.

## Model
| member | source | states |
|---|---|---|
| BlobSafety.StepKeeps | apps/server/runs/with-run-context.ts:17-57 | every step of every client and of the server, under the one cursor, keeps the invariant of rows, objects and program points |
| BlobSafety.StepGrows | apps/server/blobs/put-blob.ts:18-46 | no step brings back an id whose row is gone for good, or a transaction that was lost |
| BlobRuns.Durable | apps/server/blobs/put-blob.ts:18-46 | in every reachable state each committed row has a final object of exactly its size and hash, and every retained object holds its original bytes |
| BlobRuns.RowsAreCommittedNotDeleted | apps/server/blobs/delete-blob.ts:13-41 | the rows are those committed and not deleted, and a deleted id never gets a row again (who may delete is the next rows) |
| BlobOwnership.RowsLeaveByRight | apps/server/blobs/delete-blob.ts:16-20 | a row leaves only by a committed transaction in which somebody read that very row and had the right to delete it: a User, the Principal that owns it, or a purge after it had expired |
| BlobOwnership.DeletionIsDecidedByOwner | apps/server/blobs/delete-blob.ts:17-20 | with its transaction open a deletion schedules the row for a User and for its owner, and is refused exactly when there is no row or another Principal asks |
| BlobOwnership.RowsComeFromUploads | apps/server/blobs/put-blob.ts:17-30 | a row appears only by the commit of an upload bound for that id, with its key, size, hash, owner and expiry, and never changes |
| BlobOwnership.BytesLeaveOnlyUngated | apps/server/blobs/sweep-blobs.ts:11-13 | but for a staged copy promoted by its own upload, an object disappears only in a sweep that began while recovery was not gated |
| BlobResults.UploadSucceeds | apps/server/blobs/put-blob.ts:19-34 | undisturbed, an upload commits exactly its row, stores exactly its bytes, leaves no staged copy and reports success after a cleanup |
| BlobResults.UnheardUploadSucceeds | apps/server/blobs/put-blob.ts:35-43 | with the commit carried out but its answer lost, the recheck finds the row and reports success |
| BlobResults.AbortedUploadIsRejected | apps/server/blobs/put-blob.ts:35-45 | aborted after any of its steps, an upload leaves no row and no object and is recorded as rejected; recovery being gated keeps what was written |
| BlobResults.RecheckTells | apps/server/blobs/put-blob.ts:36-45 | after any failure the recheck reports success if the row is there, and otherwise removes what nothing needs and records a rejection |
| BlobResults.EveryFailureIsRechecked | apps/server/blobs/put-blob.ts:35-36 | wherever an upload fails, in the store or in its transaction, the recheck comes next, and nothing of another id was touched |
| BlobResults.FailedStagingLeaves | apps/server/blobs/filesystem-store.ts:74-79 | a staging request that fails leaves anything in its place |
| BlobResults.FailedPromotionLeaves | apps/server/blobs/s3-store.ts:73-74 | a promotion that fails has done nothing, or on S3 written the final object and perhaps removed the staged one, or on a file system done the whole rename |
| BlobResults.UnboundUploadIsRechecked | apps/server/blobs/put-blob.ts:35-36 | so is an upload that gets no transaction |
| BlobResults.LostRecheckClaimsNothing | apps/server/blobs/put-blob.ts:40-42 | a recheck that does not come about, or loses its transaction, reports unavailable and changes nothing |
| BlobCalls.CleanupRemovesTheUnneeded | apps/server/blobs/sweep-blobs.ts:7-37 | a cleanup removes exactly the objects it was asked about that no row and no retention needs, and none while recovery is gated |
| BlobCalls.CleanupMayFail | apps/server/blobs/sweep-blobs.ts:29-37 | a cleanup that gets no transaction leaves everything as it is, and the call goes on |
| BlobCalls.SweepStarts | apps/server/blobs/sweep-blobs.ts:29-37 | a sweep of its own starts like the cleanup after a call |
| BlobCalls.SweepPassesOver | apps/server/blobs/sweep-blobs.ts:15-25 | at the deadline or without evidence a sweep leaves the object and goes on; after a removal that failed it goes on as well |
| BlobCalls.CrashLosesThePlace | apps/server/runs/with-run-context.ts:17-57 | a crash of a client loses only where it was; database and store stay |
| BlobCalls.ClockOnlyAdvances | apps/server/retention/purge-payloads.ts:22-25 | rows expire only by time passing, which never goes back |
| BlobRemovals.DeletionByRight | apps/server/blobs/delete-blob.ts:13-41 | undisturbed, a User or the owner deletes the row, and the client goes on to remove its objects |
| BlobRemovals.DeletionRemovesBytes | apps/server/blobs/delete-blob.ts:40-41 | afterwards neither object of the blob is left, but for retained ones and while recovery is gated |
| BlobRemovals.DeletionRefused | apps/server/blobs/delete-blob.ts:17-27 | for anybody else, and without a row, it is refused and changes nothing |
| BlobRemovals.UnreadDeletionIsRefused | apps/server/blobs/delete-blob.ts:28-39 | a deletion that loses its transaction before its row was read is refused without a recheck |
| BlobRemovals.UnheardDeletionSucceeds | apps/server/blobs/delete-blob.ts:28-41 | with its commit carried out but unheard, a deletion goes on as if it had been heard |
| BlobRemovals.AbortedDeletionIsRejected | apps/server/blobs/delete-blob.ts:28-38 | aborted, before or after its commit was asked for, it keeps the row and is recorded as rejected |
| BlobRemovals.LostDeleteRecheckRejects | apps/server/blobs/delete-blob.ts:29-38 | a recheck that does not come about records a rejection without knowing |
| BlobRemovals.PurgeDeletesExpired | apps/server/retention/purge-payloads.ts:22-41 | a purge of expired rows deletes them all and cleans up after them; aborted, it changes nothing and records a rejection |
| BlobRuns.OutcomesAreHonest | apps/server/blobs/put-blob.ts:35-46 | ok means committed, a rejected upload never commits later, ok for a deletion means no row is left or ever comes back, and a confirmed rejection of a deletion means its transaction never commits |
| BlobRuns.RemovedBytesAreNeverNeeded | apps/server/blobs/sweep-blobs.ts:7-28 | no final object that any recheck or sweep removes belongs to a row now or later |
| BlobSafety.StepRemovesDoomed | apps/server/blobs/filesystem-store.ts:90-93 | a final object disappears only when its row is gone and no live upload can still insert it |
| BlobSafety.UploadMoveSound | apps/server/blobs/s3-store.ts:73-74 | staging and promoting keep the invariant, also when a promotion stops between its PUT and its DELETE or its transaction has already been aborted |
| BlobRuns.RejectionIsFalseIffDeleted | apps/server/blobs/put-blob.ts:35-45 | a recorded upload rejection names an id that did commit exactly when that id was deleted in the meantime |
| BlobRuns.PutRejectionCanBeFalse | apps/server/blobs/put-blob.ts:36-44 | such a run exists: commit unheard, row deleted by another client, recheck finds nothing |
| BlobRuns.DeleteRejectionCanBeFalse | apps/server/blobs/delete-blob.ts:29-38 | a run in which a deletion committed and is recorded as rejected, because the recheck was unavailable |
| BlobHistory.DeleteRejectionIsFalseIff | apps/server/blobs/delete-blob.ts:29-38 | in every run, if a recorded deletion rejection names an attempt that did commit, then the client had asked for that commit and given up waiting, the server carried it out, and the recheck was not bound, not answered, or saw no row and did not close, and never saw the row; and conversely |
| BlobRuns.PurgeRejectionCanBeFalse | apps/server/retention/purge-payloads.ts:38-41 | a run in which a purge deleted its rows and is recorded as rejected |
| BlobHistory.PurgeRejectionIsFalseIff | apps/server/retention/purge-payloads.ts:38-41 | a recorded purge rejection names an attempt that committed exactly when its commit was asked for, given up on and carried out |
| BlobHistory.TakenMeans | apps/server/blobs/delete-blob.ts:13-41 | the steps these conditions speak of are those of the run, by label, client, program point and row |
| BlobCleanup.Storage.SweepBlobs | apps/server/blobs/sweep-blobs.ts:7-28 | a sweep removes only listed objects that no row and no retention needs, all of them unless it reports itself pending, and none while recovery is gated |
| BlobCleanup.Storage.PurgeExpired | apps/server/retention/purge-payloads.ts:22-31 | the rows deleted are the first to have expired, at most as many as remain in the batch, and more is reported exactly when an expired row is left |
| StorageBinding.MarkerIdentifies | apps/server/blobs/storage-binding.ts:17-17 | equal marker bytes mean the same database, store, generation and backend |
| StorageBinding.ObjectKeyInjective | apps/server/blobs/storage-inventory.ts:6-6 | different stored objects have different keys |
| StorageBinding.CheckListing | apps/server/blobs/storage-inventory.ts:12-24 | the listing loop accepts exactly listings without repetition that cover every expected object, and nothing else unless unreferenced objects are allowed |
| StorageBinding.StorageInventory | apps/server/blobs/storage-inventory.ts:7-36 | the inventory succeeds exactly when listing and contents agree with the database, and returns the digest |
| StorageBinding.ObjectsAreClassified | apps/server/blobs/storage-inventory.ts:30-30 | the inventory lists exactly the stored objects, each as referenced, retained or unreferenced by who claims it |
| StorageBinding.DigestLists | apps/server/blobs/storage-inventory.ts:31-35 | the digest lists exactly the stored objects with their sizes and hashes, sorted by key |
| StorageBinding.DigestIdentifiesContent | apps/server/blobs/storage-inventory.ts:33-34 | equal digests mean the same objects with the same contents, in whatever order they were listed |
| StorageAdoption.Installation.AdoptStorage | apps/server/blobs/storage-adoption.ts:9-103 | the command does what its specification says from every state, for every fault - commits unheard or rolled back, marker unpublished or published unheard - and whatever order each of its three inventories lists the objects in; beside running servers it is refused and changes nothing, unless it initializes a binding that is ready |
| StorageAdoption.Installation.CompleteAdoption | apps/server/blobs/storage-adoption.ts:81-99 | the second transaction alone: re-proves, publishes, proves once more, marks ready |
| AdoptionEffects.RefusedBeforehand | apps/server/blobs/storage-adoption.ts:15-79 | the conditions under which an attempt is refused before it changes anything, written out |
| AdoptionEffects.ToldBeforehand | apps/server/blobs/storage-adoption.ts:15-79 | and those under which it only reports, with what it reports |
| AdoptionEffects.RefusalNamesCause | apps/server/blobs/storage-adoption.ts:34-65 | every further refusal of the first transaction names its cause, the first of several winning |
| AdoptionEffects.CheckpointNameIff | apps/server/blobs/storage-adoption.ts:10-10 | which names of Checkpoints are accepted, character by character |
| AdoptionEffects.GoesOn | apps/server/blobs/storage-adoption.ts:52-99 | otherwise it records its intent, and from there each fault decides where it ends and with which state |
| AdoptionEffects.ServersAreSafe | apps/server/blobs/storage-adoption.ts:27-33 | any sequence of attempts made while servers run leaves binding, retained rows, marker and objects as they were |
| AdoptionEffects.ChangesNeedSolitude | apps/server/blobs/storage-adoption.ts:27-33 | an attempt that changes any of them was alone |
| AdoptionSafety.AdoptKeeps | apps/server/blobs/storage-adoption.ts:34-99 | no attempt changes an identity once inserted, a published marker, or the stored objects |
| AdoptionSafety.EveryHistoryIsBound | apps/server/blobs/storage-adoption.ts:34-99 | after any history of attempts from an unbound installation, a marker equals the bytes of the one binding and ready implies it is published |
| AdoptionSafety.IdentityIsForever | apps/server/blobs/storage-adoption.ts:57-64 | whatever attempts follow, the three identity fields once inserted and a marker once published stay |
| AdoptionSafety.RerunRecovers | apps/server/blobs/storage-adoption.ts:43-98 | if the command would succeed undisturbed, then after any number of attempts stopped anywhere, each with its own fresh ids and its own order at each of its listings, running it again with any ids and orders ends bound under the first committed identity, and startup accepts |
| AdoptionSafety.RelistingIsHarmless | apps/server/blobs/storage-inventory.ts:33-34 | a store that lists its objects in another order stops a command neither before nor after its intent is committed |
| AdoptionSafety.VerifyStorageBinding | apps/server/blobs/storage-binding.ts:24-37 | startup accepts exactly a ready binding of this backend whose marker matches and whose inventory is exact |
| AdoptionSafety.AcceptedStoreIsExact | apps/server/blobs/storage-inventory.ts:12-24 | acceptance means the stored keys are exactly the references plus the retained, each with its recorded size and hash |
| AuditLog.SnapshotIsNext | apps/server/events/stream-audit.ts:64-97 | a successful snapshot holds the next events after the cursor without a gap, within the byte bound, and is empty only when nothing is newer |
| AuditLog.SnapshotFailsIff | apps/server/events/stream-audit.ts:64-97 | a snapshot fails exactly when access is denied, the log is gated, Workspace or generation differ, the cursor lies outside the kept log, or the next event is too large, with the error of the first of these |
| AuditLog.BetweenMeans | apps/server/events/stream-audit.ts:73-78 | an interval of the log is exactly the events after one position and up to another, ascending |
| AuditStream.SnapshotContinues | apps/server/events/stream-audit.ts:120-120 | a snapshot of the grown log, taken where the stream stands, continues what was sent |
| AuditStream.Stream.Run | apps/server/events/stream-audit.ts:103-210 | for every schedule of pulls, reads, data ticks, access rechecks, failures, aborts and cancellations, with fetches and rechecks overlapping in any order: the Audit frames enqueued are exactly the events in (initial cursor, current cursor], what was read is a prefix of them, and nothing enqueued is taken back |
| AuditStream.Stream.SentIsInterval | apps/server/events/stream-audit.ts:129-187 | in every state that keeps the invariant the Audit frames enqueued are exactly the events in (initial cursor, current cursor] |
| AuditStream.Stream.ReceivedIsInterval | apps/server/events/stream-audit.ts:141-159 | what the consumer has read is a prefix of that, and such an interval too |
| AuditStream.Stream.MemoryBounded | apps/server/events/stream-audit.ts:172-172 | neither the queue nor the pending frames ever exceed STREAM_BYTES |
| AuditStream.Stream.Deliver | apps/server/events/stream-audit.ts:178-185 | an adopted batch leaves whole, and a heartbeat is sent only when one is due |
| AuditStream.Stream.AllLeft | apps/server/events/stream-audit.ts:178-179 | pending frames that fit beside the queue leave whole, so the stream does not wedge |
| AuditStream.Stream.Flush | apps/server/events/stream-audit.ts:142-159 | a flush inside a flush does nothing; any other stops only at the end or at a frame that does not fit |
| AuditStream.Stream.SendNext | apps/server/events/stream-audit.ts:152-155 | the cursor is on the frame before it is enqueued, so the pull in between neither repeats nor skips it; exactly that frame is added |
| AuditStream.Stream.Read | apps/server/events/stream-audit.ts:207-209 | the consumer gets the oldest chunk, each Audit frame in the order of the log; after close nothing is added |
| AuditStream.Stream.DataTick | apps/server/events/stream-audit.ts:167-173 | a tick ends a stream without progress; otherwise it fetches exactly when the whole buffer is free, at the current cursor; on a closed or busy stream it changes nothing |
| AuditStream.Stream.DataTickResume | apps/server/events/stream-audit.ts:174-187 | a fetched batch leaves whole; a fetch that does not get through or fails for one of these reasons closes the stream, which sends nothing more |
| AuditStream.Stream.AccessTickResume | apps/server/events/stream-audit.ts:188-195 | the stream closes exactly when the recheck does not get through, is denied or gated, has another Workspace or generation, lies outside the log that is kept, or the next event is too large; an accepted one changes nothing, and a fetch under way stays under way |
| AuditStream.Stream.Finish | apps/server/events/stream-audit.ts:121-139 | the stream is closed, once; the error frame is queued if it fits, as the last frame whenever the pending ones are stalled, and otherwise followed only by Audit frames that its own pull let through; a closed stream stays as it is |
| Decimal.ValueOfPrint | apps/server/events/stream-audit.ts:65-65 | reading a printed position gives it back |
| Decimal.PrintOfValue | apps/server/events/stream-audit-input.ts:32-33 | and a position that the pattern accepts is printed the same |
| StreamCursor.ParseOfPrinted | apps/server/events/stream-audit-input.ts:26-36 | the id of a frame parses to its Workspace, generation and position, for every position up to 2^63 - 1 and no further |
| StreamCursor.AcceptedIsPrinted | apps/server/events/stream-audit-input.ts:26-34 | nothing else is accepted as a last event id |
| StreamCursor.QueryAcceptedIff | apps/server/events/stream-audit-input.ts:22-36 | exactly which queries are accepted without one, and as which cursor |
| Uuid.UuidIff | apps/server/events/stream-audit-input.ts:5-5 | the ids that are accepted, as five groups of hexadecimal digits |
| StreamCursor.ResumeIsSeamless | apps/server/events/stream-audit.ts:199-199 | however often a client reconnects with the last id it holds, all it has read is what one uninterrupted stream would have delivered |
| StreamCursor.StreamIsServed | apps/server/events/stream-audit.ts:103-120 | every state of the stream class is such a session |
| ApprovalSafety.GatedMigrationConsumesOne | apps/server/schema/apply-migration.ts:81-94 | in every run an applied Migration is the next revision and was shown to its Principal; with the gate enabled it consumes exactly one Approval, which an authorized decision approved earlier: unexpired, by the same Principal, for the same SQL, preview, starting revision and epoch; with the gate disabled none |
| ApprovalSafety.NoApprovalIsUsedTwice | apps/server/approvals/consume-in.ts:67-80 | two consuming steps never consume the same Approval |
| ApprovalSafety.ConsumptionIsUnique | apps/server/approvals/consume-in.ts:76-79 | a consumed Approval never changes again and has exactly one consumption event in the log |
| ApprovalSafety.MigrationApprovalIsSpentOnIt | apps/server/approvals/approval-migration-policy.ts:18-32 | only a Migration of the approved SQL consumes its Approval |
| ApprovalSafety.NoneSurvivesToggle | apps/server/approvals/set-gate.ts:15-18 | an Approval not consumed when its gate changes is never consumed |
| ApprovalSafety.EpochNeverReturns | apps/server/approvals/set-gate.ts:15-18 | a gate never has an epoch again that it has left |
| ApprovalSafety.RevisionsAreGapless | apps/server/schema/apply-migration.ts:86-92 | revisions are 1..n and the ledger is only appended to |
| ApprovalSafety.VerdictIsFinal | apps/server/approvals/decide.ts:29-65 | a decision is made once, and never by the requester unless self-approval was allowed |
| ApprovalSafety.GatedRowsChangeByApproval | apps/server/approvals/consume-in.ts:25-58 | while a table's gate is enabled a row changes only alone, consuming an Approval for exactly its current version |
| ApprovalSafety.GatedRowsWereApproved | apps/server/approvals/decide.ts:29-65 | and in a run an authorized decision approved that Approval earlier, while it was undecided, unexpired and current |
| ApprovalDecisions.ApprovedByDecision | apps/server/approvals/decide.ts:58-63 | in every run an Approval counts as approved only by an earlier authorized decision to approve it, made while it was undecided, unexpired and at its current version |
| ApprovalDecisions.DecisionIsRecorded | apps/server/approvals/decide.ts:58-63 | a committed decision records exactly the verdict that was given, its decider and the rule in force, with its event, and changes nothing else |
| ApprovalDecisions.DecisionGoesThroughIff | apps/server/approvals/decide.ts:12-55 | the exact condition for a decision to go through - authorized, known, undecided, unexpired, at its current version, not one's own, released - and for each refusal |
| ApprovalEffects.GateChanges | apps/server/approvals/set-gate.ts:8-25 | who may set which gate, and the exact new gates, epochs and event |
| ApprovalEffects.PreviewIsRecorded | apps/server/schema/preview-migration.ts:51-53 | a preview is logged for whoever asked, for the revision at that moment and the very statements |
| ApprovalEffects.MigrationRequests | apps/server/approvals/request.ts:14-59 | when a Migration Approval can be requested, why not, and exactly what is inserted |
| ApprovalEffects.RowRequests | apps/server/approvals/request.ts:14-59 | the same for a row: exactly the row the statement provably selects, at the version it has |
| ApprovalEffects.MessageRequests | apps/server/approvals/request.ts:14-59 | the same for a held Delivery |
| ApprovalEffects.MigrationGoesThroughIff | apps/server/schema/apply-migration.ts:40-85 | the exact condition for a Migration to be applied and for each refusal, its Approval included |
| ApprovalEffects.MigrationIsApplied | apps/server/schema/apply-migration.ts:81-96 | its ledger entry, the rows of the planned tables and no others, the consumption and the events |
| ApprovalEffects.StatementGoesThroughIff | apps/server/approvals/consume-in.ts:25-65 | the exact condition for a statement under row gates to run and for each refusal |
| ApprovalEffects.StatementIsExecuted | apps/server/approvals/consume-in.ts:25-65 | a free statement changes rows of its table only; a paid one changes exactly its row and consumes exactly its Approval |
| ApprovedRows.ApprovedRowWasUntouched | apps/server/approvals/request.ts:23-36 | between the request and the consumption of a row Approval the row never changed and no Migration was applied |
| ApprovedRows.LastConsumedIsMax | db/migrations/000017_row_gates.sql:83-84 | the consumed position in a row's version is the largest of its Approvals |
| ApprovalWorkspace.Workspace.SetGate | apps/server/approvals/set-gate.ts:8-25 | inserts or changes the gate, drawing an epoch exactly when `enabled` changes |
| ApprovalWorkspace.Workspace.RequestApproval | apps/server/approvals/request.ts:14-59 | inserts exactly the specified Approval or fails for the specified reason and changes nothing |
| ApprovalWorkspace.Workspace.Decide | apps/server/approvals/decide.ts:12-66 | a decision in its table: the specified state or the first failing check; the verdict recorded is the decision given |
| ApprovalWorkspace.Workspace.ConsumeMigrationApproval | apps/server/approvals/consume-in.ts:67-80 | consumes exactly when the policy allows it, and otherwise changes nothing |
| ApprovalWorkspace.Workspace.ApplyMigration | apps/server/schema/apply-migration.ts:40-96 | the whole transaction, its checks in their order; a failure after the consumption undoes it |
| ApprovalWorkspace.Workspace.ExecuteSql | apps/server/approvals/consume-in.ts:25-65 | a statement under row gates, with the row count checked before the consumption |
| Proposal.KeyCollector.Equality | apps/server/approvals/proposal-policy.ts:54-69 | the recursive walk fills the map with exactly the specified key, or fails exactly when there is none |
| Proposal.KeyIsComplete | apps/server/approvals/proposal-policy.ts:70-70 | an accepted key binds every primary-key column, none to NULL |
| ProposalAccepted.AcceptedIff | apps/server/approvals/proposal-policy.ts:16-70 | exactly which mutations are accepted, with which key: of this table alone, all nodes permitted, no key column set, temporal columns set to settled values, and a conjunction of equalities that bind each key column once |
| ProposalAccepted.CollectIff | apps/server/approvals/proposal-policy.ts:54-69 | the key is collected exactly from nested ANDs of equalities, column on either side, that bind different key columns to given values other than NULL |
| ProposalAccepted.DeterministicIff | apps/server/approvals/proposal-policy.ts:29-39 | an expression is accepted exactly when every node in it is |
| ProposalAccepted.TemporalTextIff | apps/server/approvals/proposal-policy.ts:47-47 | the texts a temporal column may be set to, piece by piece: a date, or a date and a time with optional seconds, fraction and zone |
| Proposal.WhereMeansKey | apps/server/approvals/proposal-policy.ts:53-70 | under SQL's three-valued AND and `=` a row satisfies the clause exactly when its primary key is the accepted key |
| Proposal.MeaningExactlyWithoutStar | apps/server/approvals/proposal-policy.ts:23-28 | that holds for all rows exactly when no equality compares the whole row, which takes a key column named "*" |
| Proposal.StarIsAccepted | apps/server/approvals/proposal-policy.ts:23-28 | the policy, taken alone, accepts such a proposal |
| Proposal.MutationTouchesOneRow | apps/server/approvals/proposal-policy.ts:51-52 | on a table with a primary key every accepted mutation touches at most one row and leaves its key as it was; unless the clause compares the whole row it is the row with the accepted key |
| Determinism.SettledIff | apps/server/sql/execute-sql-in.ts:67-69 | an expression has the same value in all sessions exactly when no node looks beyond its operands, and in all sessions under the executor's TimeZone, DateStyle and bytea_output exactly when no node looks further than at those |
| Determinism.AcceptedNodeOutsideIff | apps/server/approvals/proposal-policy.ts:29-38 | a node that passes the statement allowlist and the policy takes its value from outside - clock, other relations, defaults, volatile functions, settings nobody pins - exactly when it prints an interval, or a text is read as an interval, or a text with an open word (now and its kind, a zone name or abbreviation) is read as a date or an instant |
| Determinism.AcceptedEffectIsSettledIff | apps/server/approvals/proposal-policy.ts:20-52 | what an accepted mutation stores, selects and returns is settled by row, parameters and the pinned settings exactly when nothing in it does either; it names the one table and joins none |
| Determinism.TemporalStoreIsSettled | apps/server/approvals/proposal-policy.ts:40-50 | what is assigned to a date or timestamptz column always is |
| Determinism.TemporalTextHasNoOpenWord | apps/server/approvals/proposal-policy.ts:47-47 | the only words of an accepted temporal text are T and Z: it neither reads the clock nor looks up a zone; one without a zone is read in the session TimeZone |
| Determinism.InstantAsText | apps/server/approvals/proposal-policy.ts:33-33 | an instant printed as text is accepted, depends on the session, and is settled once the executor has pinned the settings |
| Determinism.OpenTextIsAccepted | apps/server/approvals/proposal-policy.ts:29-38 | a comparison of an instant with any text passes the policy, and with an open word its effect is not settled |
| Determinism.ClockIsAccepted | apps/server/approvals/proposal-policy.ts:29-38 | so comparing an instant with the text now is accepted and reads the clock |
| Determinism.ZoneNameIsAccepted | apps/server/approvals/proposal-policy.ts:29-38 | and so is comparing it with a text that ends in EST, which timezone_abbreviations resolves |
| Determinism.IntervalIsAccepted | apps/server/approvals/proposal-policy.ts:33-33 | printing the interval between two instants is accepted and depends on IntervalStyle, which is not pinned |
| Proposal.TemporalAssignments | apps/server/approvals/proposal-policy.ts:40-50 | a temporal column is only ever set to another one, to NULL or to a text of digits, separators, T and Z |
| Json.ParseOfPrint | apps/server/approvals/gate-policy.ts:10-17 | a JSON parser reads every printed tree back and leaves what follows it |
| Canonical.CanonicalPrintsNorm | apps/server/approvals/gate-policy.ts:10-17 | canonical fails exactly on undefined values, and otherwise prints the normal form |
| Canonical.ParseUndoesCanonical | apps/server/approvals/gate-policy.ts:10-17 | parsing the canonical text gives the normal form of the tree |
| Canonical.CanonicalEqualIff | apps/server/approvals/gate-policy.ts:10-17 | canonical texts are equal exactly when the normal forms are |
| Canonical.ObjectsEqualIff | apps/server/approvals/gate-policy.ts:12-13 | objects have one normal form exactly when they have the same members in any order |
| Canonical.LeavesEqualIff | apps/server/approvals/gate-policy.ts:14-16 | the only scalars that coincide are null with non-finite numbers and zero with negative zero |
| Canonical.NonFiniteCollides | apps/server/approvals/gate-policy.ts:14-16 | a non-finite number and null have the same canonical text |
| Canonical.ActionHashEqualIff | apps/server/approvals/gate-policy.ts:18-21 | equal action hashes mean the same statement, parameters, row expectation and target, and conversely |
| Canonical.ActionHashRefusesIff | apps/server/approvals/gate-policy.ts:18-21 | there is no hash exactly when a parameter holds undefined or expectRows is left out |
| ActionText.HashedText | apps/server/approvals/gate-policy.ts:18-21 | the very text that is hashed: version 1 and the four parts under their names, in the order of their keys |
| ActionText.BeforeIff | apps/server/approvals/gate-policy.ts:12-12 | keys are ordered code unit by code unit |
| JsonStrings.QuotedInPieces | apps/server/approvals/gate-policy.ts:13-14 | a string is printed piece by piece, except within a surrogate pair |
| JsonStrings.UnitPrints | apps/server/approvals/gate-policy.ts:13-14 | how every single unit is printed: as itself, with a short escape, or by its number |
| JsonStrings.QuotedIsClean | apps/server/approvals/gate-policy.ts:13-14 | a string literal is always well-formed UTF-16 without control characters |
| Admission.PrincipalAdmission.Bounds | apps/server/platform/principal-admission.ts:13-40 | 0 <= nonCallbacks <= active <= limit and nonCallbacks <= limit - 1; a callback waits only when all slots are taken, one of them by a callback, and any other only when all slots are taken or limit - 1 of its class hold one |
| Admission.PrincipalAdmission.AdmittedInOrder | apps/server/platform/principal-admission.ts:32-45 | nobody gets in while an earlier request of the same class waits |
| Admission.PrincipalAdmission.GrantedOnce | apps/server/platform/principal-admission.ts:28-34 | a granted request holds its slot or has given it back, never both, and nobody else ever does |
| Admission.PrincipalAdmission.Acquire | apps/server/platform/principal-admission.ts:18-49 | a new request is admitted exactly if a slot is free and it is a callback or fewer than limit - 1 others hold one, counted on the slots held; the exact new state; asking again gives the first answer |
| Admission.PrincipalAdmission.Release | apps/server/platform/principal-admission.ts:28-33 | one slot is freed once and everyone it makes room for is admitted in order; a second release does nothing |
| Admission.PrincipalAdmission.EnterAll | apps/server/platform/principal-admission.ts:32-32 | the pass over the waiters admits exactly those the specification admits, and leaves nobody waiting who would fit |
| Admission.PrincipalAdmission.Abort | apps/server/platform/principal-admission.ts:29-41 | a waiter is refused, a holder gives its slot back, and an invocation keeps it |
| Admission.PrincipalAdmission.Timeout | apps/server/platform/principal-admission.ts:42-42 | exactly a request that still waits is refused |
| Admission.WakeLeavesNoneFitting | apps/server/platform/principal-admission.ts:32-40 | after a pass no waiter of either class would fit |
| Admission.WakeIsFifo | apps/server/platform/principal-admission.ts:32-40 | within a class a pass admits a waiter only together with all before it |
| Admission.WakeIsGreedy | apps/server/platform/principal-admission.ts:32-40 | a pass admits a waiter exactly when a slot is left for its class after those before it |
| Wal.NameOrder | scripts/checkpoint.py:314-318 | names of one timeline are ordered as text exactly as their segment numbers |
| Wal.NumberInName | scripts/checkpoint.py:526-528 | decoding a name gives back its number |
| Wal.StartNumberParts | scripts/checkpoint.py:313-317 | for every segment size dividing 2^32 the log number is the high half of the position and the rest its segment |
| Wal.WalBoundary | scripts/checkpoint.py:310-321 | the boundary of each timeline is the least name any range starts at, and only an empty manifest fails |
| Wal.CheckGaps | scripts/checkpoint.py:526-532 | the loop passes exactly when every segment file from first to last is present |
| Wal.GapCheckCovers | scripts/checkpoint.py:529-532 | so for names PostgreSQL gave no segment in between is missing |
| WalRetention.KeptAreNewest | scripts/checkpoint.py:332-339 | the kept Checkpoints are the newest, as many as asked for, and with the surplus they are all |
| WalRetention.Backups.PruneCheckpoints | scripts/checkpoint.py:324-341 | on success exactly the kept remain and every boundary protects them; no error removes a kept one, and one found before the removals removes none |
| WalRetention.Backups.PruneArchive | scripts/checkpoint.py:560-568 | exactly the segment files before the boundary of their timeline are removed |
| WalRetention.Backups.Retain | scripts/checkpoint.py:558-568 | after a backup every archived segment from the first one any kept Checkpoint needs is still there |
| WalRetention.NeededSegmentsSurvive | scripts/checkpoint.py:560-566 | no needed segment sorts before its boundary |
| SchemaValidity.EmptyIsValidityIff | tooling/codegen/commands.ts:33-48 | on documents without reference cycles the search is right about every schema exactly when every reference is harmless |
| SchemaValidity.TrustedIffChecked | tooling/codegen/commands.ts:33-48 | that condition can be checked with the search itself: wherever it accepts a reference it also accepts the target alone and the siblings pass |
| SchemaValidity.EmptyIsValidity | tooling/codegen/commands.ts:33-48 | in particular where references stand alone and lead to no reference and not to false |
| EmptySchema.PassesIffSatisfied | tooling/codegen/commands.ts:39-47 | the checks in their order are what the keywords mean for an empty object |
| EmptySchema.PassesLooksAtChildren | tooling/codegen/commands.ts:39-47 | the checks look at no other values than the subschemas of the schema |
| EmptySchema.EnteredAgainRefuses | tooling/codegen/commands.ts:33-38 | on any document, cycles or not, a schema that is entered again counts as one that accepts no empty object |
| SchemaLimits.SiblingsAreIgnored | tooling/codegen/commands.ts:33-36 | a document whose $ref has siblings is answered wrongly |
| SchemaLimits.ReferencesAreFollowedOnce | tooling/codegen/commands.ts:33-36 | so is one whose $ref leads to a bare $ref |
| SchemaLimits.ReferencedFalseIsLost | tooling/codegen/commands.ts:33-36 | and one whose $ref leads to false |
| ToolClosure.Collector.Collect | tooling/codegen/commands.ts:134-148 | the walk ends on cyclic components, copies every component referred to directly or not, and fails only on a reference to something else |
| ToolClosure.PortableRefs | tooling/codegen/commands.ts:103-113 | the references of a rewritten value are the rewritten references of the value |
| ToolClosure.WalkPortable | tooling/codegen/commands.ts:103-113 | whatever a path led to is still there after rewriting, rewritten |
| ToolClosure.PortableIffSupported | tooling/codegen/commands.ts:103-113 | rewriting fails exactly on a $ref member, at any depth, that is no reference to a component |
| ToolClosure.InputSchema | tooling/codegen/commands.ts:134-158 | if all references of the source resolve, every $ref of a generated input schema is a rewritten one of the source and resolves inside that schema to the image of what that one resolves to; the generation succeeds on supported parameters and components, and only on supported parameters |
| ToolClosure.ResolveIff | tooling/codegen/commands.ts:18-23 | a reference resolves exactly when it is "#/" and keys between slashes, and then to what the decoded keys lead to |
| ToolClosure.ResolveRewritten | tooling/codegen/commands.ts:18-23 | the rewritten path through $defs leads to what the path through components.schemas leads to, rewritten |
| EnvFile.ParsesIffAccepted | scripts/bootstrap.py:148-180 | a text is accepted exactly when no line is refused and no managed key is assigned twice |
| EnvLines.ClassifyIff | scripts/bootstrap.py:151-166 | what a line is, by its characters: silent, the refused child setting, a managed assignment, one that nothing reads any more, or unrelated |
| EnvLines.KeyIff | scripts/bootstrap.py:154-155 | the key of a line is the name after "export" if there is one, and otherwise the name it starts with |
| EnvLines.ReadingIff | scripts/bootstrap.py:167-180 | which texts are read as which values, and the exact cause of each refusal |
| EnvLines.RenderKeepsText | scripts/bootstrap.py:198-200 | without saves the text is rendered as it was, with a line feed at its end |
| EnvFile.EnvFile.Load | scripts/bootstrap.py:148-180 | the loop stops at the first refusal, and otherwise holds what the lines say |
| EnvFile.EnvFile.Save | scripts/bootstrap.py:182-192 | the key's line is replaced in place, or appended instead of a trailing empty line, and nothing else changes |
| EnvFile.EnvFile.Default | scripts/bootstrap.py:194-196 | saves, as Save does, exactly a nonempty value for a key that has none, and otherwise changes nothing at all |
| EnvFile.PermittedIffReadBack | scripts/bootstrap.py:169-184 | exactly the permitted values survive being saved and read again |
| EnvFile.EnvFile.RenderedReads | scripts/bootstrap.py:198-200 | after any number of saves the rendered text is accepted and reads as the same settings |
| EnvFile.EnvFile.UnownedSurvive | scripts/bootstrap.py:182-192 | every line that no saved key owns is unchanged and in place, but for one trailing empty line |
| Reconcile.Reconciler.Pass | apps/server/compute/reconcile-invocations.ts:39-47 | where a pass leaves the cursor, aborted or not, whichever attempts work |
| Reconcile.WorkingCounts | apps/server/compute/reconcile-invocations.ts:39-47 | the completed count is the number of attempts that worked |
| Reconcile.EarliestFirst | apps/server/compute/reconcile-invocations.ts:29-37 | of the runs beyond the cursor a pass attempts those that expired first, ties by id |
| Reconcile.NothingIsSkipped | apps/server/compute/reconcile-invocations.ts:40-46 | whatever was ahead of the cursor is attempted or still ahead of it, also after an abort |
| Reconcile.AbortedIsNoFurther | apps/server/compute/reconcile-invocations.ts:40-46 | an aborted pass brings no run further from its attempt |
| Reconcile.EveryRunIsAttempted | apps/server/compute/reconcile-invocations.ts:28-46 | wherever the cursor stood and however many attempts fail, every pending run is attempted within 2 * (n / 16 + 1) complete passes |

## Left out
- Several Workspaces: each protocol is modelled for one; the cursor of another Workspace never blocks it.
- BlobSafety.StepKeeps: the deadline of a sweep is a step that may happen at any object, because time is an input; request limits, quotas, content types and metadata are not part of the state.
- putBlob, deleteBlob, cleanupBlobs, the two stores and withRunContext are steps of a machine over values, not methods over fields, because other clients run between any two of their awaits; only the loops of the sweep and of the purge are methods as well. What a store lists page by page (its scan cursors) is any listing, stale or partial.
- Late effects of store requests that timed out: a failed store step takes effect at once, in part or not at all.
- StorageAdoption.Installation.AdoptStorage: which of the inventory's two errors is reported is not specified, because the specification function only says that the inventory was refused; the storage lease is held throughout.
- AuditStream.Stream.Run: a data query of the stream's own generation sees a log that extends what earlier ones saw; resumptions that nobody waits for do not happen.
- AuditStream.Stream.Finish: the sizes of ready and error frames are inputs; an error frame that does not fit is dropped. Query slots and their deadlines (StreamQueries) are not modelled.
- AuditLog.SnapshotIsNext: the access query is a yes or no, and the text of a frame is an uninterpreted byte string.
- StreamCursor.ParseOfPrinted: header trimming and URL decoding happen before the model starts.
- ApprovalSafety.GatedRowsChangeByApproval: one statement per transaction; the ordered locking of several Approvals in one transaction (lockRowApprovals) is not modelled. That a Migration rewrites only rows of the tables its plan names, and a statement only rows of the table it writes, is taken from the SQL classification, which is not part of this model.
- ApprovalSafety.GatedMigrationConsumesOne: purging of old preview events is not modelled; a missing preview can only refuse more.
- ApprovalProtocol leaves the hold and release of Deliveries to inputs; the queue functions are not part of this model.
- Proposal.WhereMeansKey: PostgreSQL's typing is not modelled, so `=` is equality on the values as parsed; a schema-qualified or user-defined operator is refused by the policy and has no meaning here.
- Determinism.SettledIff: PostgreSQL is modelled by what a node may look at, for the ten column types a Migration may use and intervals. Where types alone decide, the reach is the widest: a CASE is as wide as all its branches, and a text read as an interval counts as depending on IntervalStyle whatever it says. Window clauses, aggregates and the node kinds outside the statement allowlist count as looking outside; collations, the format of numbers and the zone data are fixed, and UTC under its own names (Z among them) is UTC in every set of zone abbreviations.
- Determinism.AcceptedEffectIsSettledIff: the allowlist of statements is modelled as far as it looks at the expressions of an UPDATE or DELETE; trigger functions and defaults of other columns are not.
- BlobHistory.DeleteRejectionIsFalseIff: authorization failures and a caller that is not the owner end before a commit is asked for and are recorded as refusals.
- Canonical.CanonicalEqualIff: sparse arrays, BigInt values and toJSON methods cannot come from a JSON request and are not modelled; a finite number is given by the text it prints as.
- Admission.PrincipalAdmission.Acquire: the minute window of the rejection counter is not modelled, only that each refusal is counted; HTTP routing before the gate is left out.
- WalRetention.Backups.PruneCheckpoints: reading manifests from disk is an input; a removal that fails halfway through one directory counts as not removed.
- The rest of backup and restore (services, tar archives, credentials) is left out: foreign processes.
- SchemaValidity.EmptyIsValidity: keywords that the search does not read, and subschemas reached through $dynamicRef or $id, are left out.
- ToolClosure.InputSchema: where components.schemas has a string, which is no schema, under the name "$ref", the references inside the result are not described. Percent-decoding and the escapes ~1 and ~0 are one given function that leaves plain words alone; keys that JavaScript objects inherit (such as `__proto__`) are not modelled.
- EnvFile.EnvFile.Save: the sets of managed and unsupported names are a parameter; writing the file and its permissions are left out.
- Reconcile.EveryRunIsAttempted: a pass that does not get the advisory lock changes nothing and is not counted.
- HTTP routes, contracts, list pagination, stream counters, quota accounting, database migration, authentication and enrollment: easier than the above.
