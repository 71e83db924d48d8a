# GoPMgr: protocol and arithmetic proofs

GoPMgr keeps each project in one SQLite (SQLCipher) file and does everything else in the desktop process. This
project models the parts of it whose correctness spans several functions, a loop or a whole run, and proves what
its comments and tests promise of them. Where a promise turned out false of the code, the code is kept as it is:
a lemma gives a concrete case and another says exactly when the promise holds.

Conventions. Code that changes state is a class or a method with the source's own steps, proved against a
specification function or a direct postcondition; the lemmas beside it say what that specification does without naming
it. A step that can fail in the source (a file operation, a statement, a commit, a check) is an input or is decided
non-deterministically, so a theorem about every trace entry is about every crash point. Where it is decided, a counter of
failures (`Disk.Folder.failures`) or a `reliable` flag says what happens when nothing fails, or only one thing does.
64-bit arithmetic is written out where it matters. `dafny verify dfyconfig.toml` checks the whole project.

- **WBS store** (`WbsStore`, `WbsHistory`, `WbsRuns`, `WbsGuarantees`, `WbsContent`, `WbsReuse`, `WbsObjects`): the
  optimistic, idempotent chart writer with its receipts, against the reference "list of writes applied to each chart". A run mixes
  opens, saves by any session, ordinary chart writes, failures and commits whose outcome nobody learns.
- **Audit chain** (`AuditChain`, `AuditContent`): appending, verifying, what the last hash fixes, what each row holds.
- **File protocols** (`Disk`, `Migration`, `Repair`): encryption of a plaintext project, and check-and-repair.
- **Administrator access** (`AdminAccess`, `AdminAccessSteps`, `AdminAccessRuns`, `AdminAccessOrigins`): every
  interleaving of calls in flight with sign-in, sign-out and shutdown; who holds each key buffer and each copy folder, and
  which answer of the store every access goes back to.
- **Deletion log** (`DeletionLog`): request, removal, outcome, with a stop after any step.
- **Cost ledger** (`CostLedger`, `CostEffects`, `CostReports`, `CostClasses`, `CostDatabase`): currency lock, versioned baselines, and
  the computations that must agree.
- **Exact arithmetic and text** (`Quantity`, `QuantityGroups`, `Rollup`, `Budget`, `WorkSegments`, `CellText`,
  `Delimited`, `ColumnIntegers`, `ColumnNames`, `RecordLimiter`, `Calendar`, `Timestamps`, `TimestampTables`).
- **Shared** (`Wrappers`, `Sequences`, `ByteOrder`, `Decimal`, `Text`, `Money`).

## Findings

- A WBS write that was applied can later be refused as a reused request identity, which is neither the original receipt
  nor a revision conflict: its receipt was pruned and a later write of the chart took the identity
  (`WbsReuse.AppliedWriteCanBeRefusedAsReuse`; `WbsGuarantees.ResubmissionIsSafe` says exactly when).
- A migration deletes the source's write-ahead log even when another process kept SQLite from emptying it. The records
  survive every run, and reach the backup of every finished one, exactly when no such process has the project open, its
  log holds nothing newer, or the copy is found damaged and no run gets that far (`Migration.RecordsSurviveEveryRunIff`, `Migration.BackupHasTheRecordsIff`).
- The same log left beside a repaired project is read over it. The rebuilt records are certain to be shown exactly when
  the log held no pages before the repair, or those very records (`Repair.RebuiltRecordsAreShownIff`, with a project
  that shows the damaged ones in `Repair.LeftLogHidesTheRepair`).
- A removal of an administrator's copy that fails is only logged. A copy on disk has no holder exactly when some step let
  it go and failed to remove it (`AdminAccessRuns.CopyIsLeftIffItsRemovalFailed`), and such a copy can outlive the
  session (`AdminAccessRuns.ViewedCopyCanOutliveSignOut`).
- A listing of a user's projects takes a copy of the open access's key and never zeroes it
  (internal/desktop/app_admin_access.go:97-98; its only other taker does). A key that is not zeroed has no holder exactly
  when some listing took it (`AdminAccessRuns.KeyIsZeroedHeldOrListed`), and such a key outlives the session
  (`AdminAccessRuns.ListedKeyOutlivesSignOut`).
- The check of an administrator's role reads the user, asks the store and stops access in three separate sections, so a
  check refused in one session can end the access opened in a later one (`AdminAccessRuns.LateCheckStopsLaterAccess`).
- The deletion log describes a project as it was when it was read; no lock keeps it from being written before it is
  removed. What is removed is what was described exactly when nobody writes it in between
  (`DeletionLog.RemovedAsDescribedIff`, with a project that is not in `DeletionLog.LateEventIsNotDescribed`).
- An integer JavaScript cannot hold keeps its text only in columns that are not floating-point: beside a decimal,
  9007199254740993 is shown as 9007199254740992 (`ColumnIntegers.MixedColumnLosesADigit`, exact conditions in
  `ColumnIntegers.LargeIntegerKeepsItsTextIff` and `ColumnIntegers.IntegerKeepsItsDigitsIff`).
- A plan can be approved while the cost summary fails, exactly when the commitments or the actuals do not fit 64 bits
  (`CostReports.ApprovalSnapshotsTheSummary`, reached by `CostReports.ApprovedPlanCanHaveNoSummary`).
- Two ledger rows whose item contains a NUL can share a group key, and the two quantity lists can then disagree
  (`QuantityGroups.NulMakesThemDisagree`). They agree for every order of the rows exactly when the joined keys follow the
  (item, unit) pairs or some total is out of range (`QuantityGroups.AlwaysAgreeIff`); without a NUL in an item they do.
- Normalising a timestamp whose UTC year does not have four digits turns a readable value into an unreadable one
  (`Timestamps.NormalFormCanStopParsing`, exact condition in `Timestamps.RetrofitKeepsInstants`); the numeric key orders a
  stored value correctly against every ordinary one exactly when it fits 64 bits, as it does in the years 1678 to 2261
  (`Timestamps.TextsAreOrderedIffTheirKeyFits`); the start of 2300 sorts before that of 2000
  (`Timestamps.FarDateIsMisordered`).

## Model

| member | source | states |
|---|---|---|
| WbsStore.NextRevisionIsSuccessor | internal/wbs/revision.go:20-39 | on canonical decimals the next revision is the successor, and only the largest 64-bit revision is exhausted |
| Decimal.LengthThenBytesIsNumeric | internal/db/wbs_store.go:346-349 | the prune query's order, length then bytes, is the numeric order of revisions |
| Decimal.ParseRoundTrip | internal/wbs/revision.go:20-26 | a canonical decimal is the text of its own value |
| WbsHistory.PruneKeepsNewest | internal/db/wbs_store.go:346-349 | pruning keeps exactly the receipts of the chart's newest 256 writes, and every other chart's |
| WbsRuns.WrittenRepresents | internal/db/wbs_store.go:291-349 | an applied save extends the chart's history by that one write and keeps record, data, receipts and audit in step with it |
| WbsRuns.OpenRepresents | internal/db/wbs_store.go:77-186 | opening creates or keeps the tables without changing any history |
| WbsRuns.OrdinaryRepresents | internal/db/charts.go:49-139 | ordinary chart saves and deletes cannot touch a WBS chart |
| WbsRuns.RunRepresents | internal/db/wbs_store.go:213-354 | after any run each WBS chart's record and data revision are the number of writes applied to it and its receipts are the last 256 of them |
| WbsGuarantees.AtMostOneWritePerRevision | internal/db/wbs_store.go:259-297 | in any run at most one write is applied for a chart and expected revision |
| WbsGuarantees.SuccessMeansAppliedExactlyOnce | internal/db/wbs_store.go:259-271 | a save that returns a receipt stands for exactly one application in the run, at or before it, whatever commits were indeterminate |
| WbsGuarantees.ResubmissionIsSafe | internal/db/wbs_store.go:259-297 | resubmitting an applied write never changes the tables; the answer is the original receipt, a conflict or a refused reuse, each exactly when stated |
| WbsGuarantees.CurrentRevisionIsAccepted | internal/db/wbs_store.go:284-349 | a write against the current revision under an unused identity is applied |
| WbsGuarantees.RecentReceiptHeld | internal/db/wbs_store.go:346-349 | the receipt of each of a chart's last 256 writes is held |
| WbsGuarantees.ReceiptWrittenBy | internal/db/wbs_store.go:338-345 | every held receipt was written by one applied save of the run, with its fingerprint, revision and audit event |
| WbsGuarantees.ReopenSucceeds | internal/db/wbs_store.go:157-181 | after any run the project's own binding opens, and only it |
| WbsGuarantees.ReadReturnsLastWrite | internal/db/wbs_store.go:190-211 | a read returns the last applied content at the chart's revision |
| WbsContent.ReadReturnsLastSubmission | internal/db/wbs_store.go:190-227 | after any run a read returns the title, the links and a tree like the one the last applied save submitted: same ids, titles, order and children at every depth, an empty dictionary being none |
| WbsContent.NormalizedIsAlike | internal/db/wbs_store.go:424-431 | normalising keeps every node, its id, title, children and their order, and turns only an empty dictionary into none |
| WbsContent.AlikeIsNormalized | internal/db/wbs_store.go:424-431 | a normal tree so related to a submitted one is its normal form, and no other is |
| WbsContent.NormalizingIsIdempotent | internal/db/wbs_store.go:424-431 | normalising twice is normalising once |
| WbsContent.SaveIsAppliedIff | internal/db/wbs_store.go:213-297 | in every reachable state a save is applied exactly when it is well addressed to this copy, carries no links, its identity has no receipt, it expects the number of writes applied to the chart, and nothing fails |
| WbsContent.StaleUpdatesConflict | internal/db/wbs_store.go:286-293 | in every reachable state an update that expects another number of writes is a revision conflict and changes nothing |
| WbsContent.RefusalsNameTheirCause | internal/db/wbs_store.go:260-283 | links, creating a chart that exists and updating one that does not are refused, each with its own error |
| WbsContent.BadRequestsAreRefused | internal/db/wbs_store.go:213-229 | a bad address, a missing payload and a wrong revision are refused, each with its own error |
| WbsContent.ReadIsAnsweredIff | internal/db/wbs_store.go:190-211 | in every reachable state a read is answered exactly for a chart with writes, by an open store of this copy |
| WbsContent.AppliedIsAudited | internal/db/wbs_store.go:319-341 | every applied save has its audit row, under its own actor and session, in every later state |
| WbsContent.OpeningSucceedsIff | internal/db/wbs_store.go:77-186 | in every reachable state opening succeeds exactly for the project's binding when nothing fails, and only makes the tables that were missing |
| WbsContent.FilesWithoutTablesStayClosed | internal/db/wbs_store.go:103-119 | a file with WBS charts but no tables, or only some of them, is not opened |
| WbsContent.UnreadableFilesStayClosed | internal/db/wbs_store.go:157-181 | a file is not opened while a WBS chart in it has no readable record, or a record no chart |
| WbsContent.IdentifierIff | internal/db/wbs_store.go:433-435 | an identifier is accepted exactly when it is not blank and not too long |
| WbsContent.OrdinarySaveStores | internal/db/charts.go:49-139 | an ordinary save stores its kind, title and body, keeps the project of a chart that was there, adds one audit row, touches nothing else, and succeeds exactly when stated |
| WbsContent.OrdinaryDeleteRemoves | internal/db/charts.go:193-231 | an ordinary delete takes that one chart, adds one audit row, and succeeds exactly when stated |
| WbsReuse.AppliedWriteCanBeRefusedAsReuse | internal/db/wbs_store.go:259-271 | a concrete run of 258 writes in which an applied write is later refused as a reused identity |
| WbsObjects.OpenStore | internal/db/wbs_store.go:77-186 | the opening procedure leaves the tables and the session the specification gives |
| WbsObjects.Store.Save | internal/db/wbs_store.go:213-354 | the saving procedure leaves the tables and returns the answer the specification gives, which keeps the submitted scope node by node |
| WbsObjects.Store.Read | internal/db/wbs_store.go:190-211 | the reading procedure answers as the specification does and changes nothing |
| WbsObjects.Store.Close | internal/db/wbs_store.go:188 | closing sets the flag on which Save and Read refuse every later call |
| WbsObjects.Database.Commit | internal/db/wbs_store.go:359-369 | a commit acknowledged, lost or unknown to its caller |
| WbsObjects.Database.SaveChart | internal/db/charts.go:49-139 | the ordinary save with its two guards |
| WbsObjects.Database.DeleteChart | internal/db/charts.go:193-231 | the ordinary delete with its guard |
| AuditChain.AuditLog.AppendEvent | internal/db/audit.go:106-188 | an append adds the one event the specification gives, or nothing; the event carries its request: type, entity, user, session, time and signature as given, before and after re-encoded each in its own place, "unsigned" for an empty status |
| AuditChain.Verify | internal/db/audit.go:207-256 | an intact chain is counted whole; otherwise the report names the earliest bad row and which of its three checks failed first, counts it and gives the hash before it |
| AuditChain.ReadChain | internal/db/audit.go:194-203 | a file without the table has an empty valid chain |
| AuditChain.RunsVerify | internal/db/audit.go:106-188 | appends to any projects in any order leave every project's chain intact |
| AuditChain.FreshAppendAccepted | internal/db/audit.go:106-188 | a well-formed append under an unused id is always accepted and extends its chain by one |
| AuditChain.TerminalHashFixesChain | internal/db/audit.go:321-354 | two accepted chains with one terminal hash have the same length and the same hashed fields, or show a digest collision |
| AuditChain.TamperingIsDetected | internal/db/audit.go:207-256 | any change to an accepted chain's hashed content fails verification, changes the terminal hash or shows a collision |
| AuditChain.ReportIsUnique | internal/db/audit.go:205-304 | what verification promises leaves one possible report |
| AuditChain.AppendedRowCarriesItsRequest | internal/db/audit.go:106-188 | an accepted append stores the request's own fields, each in its place |
| AuditChain.SequencesCountUp | internal/db/audit.go:148-151 | sequence numbers start at one and count up as 64-bit integers do |
| AuditContent.RowsCarryTheirRequests | internal/db/audit.go:106-188 | over every run the k-th row of a project's chain carries the k-th accepted request of that project, under sequence number k |
| AuditContent.AppendIsAcceptedIff | internal/db/audit.go:106-146 | over every run an append is accepted exactly when its names are given, its JSON is valid and its id is new |
| AuditContent.ChainIsTheProjectInOrder | internal/db/audit.go:207-220 | verification walks all of the project's rows, each as often as it is stored, in sequence order |
| Disk.Folder.RemoveFileSet | internal/db/encryption.go:333-347 | a file and its sidecars go one by one; what remains is unchanged, and success leaves none of them |
| Migration.Migrate | internal/db/encryption.go:91-207 | each refusal is given exactly when it is due, in the source's order, and changes nothing; when nothing fails a plain source without a backup is migrated; a run goes by the listed moves; every crash point holds a readable project, with the same records whenever its log is safe; success means the copy passed its checks and leaves the upgraded encrypted file and a plaintext backup; every error leaves the plaintext, and after a single failure nothing new |
| Migration.Publish | internal/db/encryption.go:193-206 | the backup is published before the one rename that replaces the project; a failure leaves the plaintext |
| Migration.CleanUp | internal/db/encryption.go:126-137 | the deferred cleanup removes exactly the files this run made |
| Migration.ExportEncryptedCopy | internal/db/encryption.go:253-294 | a finished export holds the source's records under the key |
| Migration.CreateBackupCopy | internal/db/encryption.go:209-235 | the backup copy is a new file equal to the project's main file |
| Migration.VerifyCopy | internal/db/encryption.go:159-173 | a verified copy passed its checks and holds its records in the main file; a damaged one is refused |
| Migration.RunIsSafe | internal/db/encryption.go:126-206 | every state of every run is readable and touches only the migration's own files |
| Migration.RecordsSurviveEveryRunIff | internal/db/encryption.go:180-206 | the records survive at every crash point of every run exactly when no other process has the project open, its log holds nothing newer, or the copy is found damaged |
| Migration.BackupHasTheRecordsIff | internal/db/encryption.go:190-206 | every finished run's backup holds the records exactly when no other process has the project open or its log holds nothing newer, or no run finishes because the copy is damaged |
| Migration.PublicationIsSafe | internal/db/encryption.go:199-206 | the publishing rename leaves a readable project with the same records |
| Repair.SelfHeal | internal/db/repair.go:46-85 | an earlier run's copy is removed first, and a copy is reported only when this run finished it; a healthy project is untouched |
| Repair.Exchange | internal/db/repair.go:124-145 | through every failure of the two renames and the rollback, original and copy are each at one of their two places; a single failure leaves the folder as it was |
| Repair.Swap | internal/db/repair.go:101-198 | a successful swap fixes the whole folder: the sound copy live, the original aside, and the log the closed connection left carried over into the new usable one |
| Repair.App.Recover | internal/desktop/app_documents.go:711-739 | a failed swap ends with a usable connection to an existing file, or with the project closed, which takes a failure here |
| Repair.App.RepairAndSwap | internal/desktop/app_documents.go:634-699 | when nothing fails a damaged project with a sound copy is swapped, an encrypted one without its key is locked, an intact one is healthy; one failure never closes the project; at every crash point the damaged original survives and only it or this run's checked copy is the project; the outcome fixes which connection is open, and a repaired project shows the rebuilt records exactly when the log left behind held no pages or those records |
| Repair.RebuiltRecordsAreShownIff | internal/db/repair.go:116-150 | whatever closing does with the log, the repaired project shows the rebuilt records: exactly when the log held no pages before, or those records |
| Repair.LeftLogHidesTheRepair | internal/db/repair.go:116-150 | a project whose repair shows the damaged records when its log is left, and the rebuilt ones when it is folded |
| AdminAccessSteps.StepKeeps | internal/desktop/app_admin_access.go:58-263 | every step of every call, a listing's included, keeps the ownership of keys and folders and the bond of access to its session |
| AdminAccessSteps.RunKeeps | internal/desktop/session_state.go:11-29 | the invariant holds after every interleaving, with a sign-out and another sign-in between any two sections of a check |
| AdminAccessRuns.AccessIsAlwaysCurrent | internal/desktop/app_admin_access.go:193-205 | open access belongs to the present session of an administrator, was recorded (and so allowed by the store), and its copy came from its own folder |
| AdminAccessOrigins.RecordedIffAllowed | internal/desktop/app_admin_access.go:63-72 | over every run access is recorded for a caller and a target exactly when the store allowed it to that caller |
| AdminAccessOrigins.AccessComesFromTheStore | internal/desktop/app_admin_access.go:58-93 | over every run open access goes back to an answer of the store, in the present session, that allowed this caller this target |
| AdminAccessOrigins.SessionComesFromItsSignIn | internal/desktop/session_state.go:87-92 | over every run whoever is signed in gave the right password and began this very session with it |
| AdminAccessOrigins.RefusalsEndTheCall | internal/desktop/app_admin_access.go:65-91 | a refusal or a failure ends the call, zeroes the key it holds, and opens, records and ends no access |
| AdminAccessOrigins.UnfitCallerLosesAccess | internal/desktop/app_admin_access.go:177-189 | a caller the store no longer finds fit loses all access |
| AdminAccessOrigins.OnlyAdministratorsBegin | internal/desktop/app_admin_access.go:58-63 | only a signed-in administrator begins to open or to use access |
| AdminAccessRuns.KeyIsZeroedHeldOrListed | internal/desktop/app_admin_access.go:191-205 | over every run a key that is not zeroed has no holder exactly when some listing took it, and no key has two holders |
| AdminAccessRuns.ListedKeyOutlivesSignOut | internal/desktop/app_admin_access.go:97-98 | a run of a sign-in, an opening, a listing and a sign-out after which a copy of the target's key is neither zeroed nor held |
| AdminAccessRuns.LateCheckStopsLaterAccess | internal/desktop/app_admin_access.go:177-189 | a run in which a check refused in one session ends the access opened in a later one |
| AdminAccess.App.CopyAccessKey | internal/desktop/app_admin_access.go:197-204 | the folder and a fresh copy of the key exactly when access is open in the present session |
| AdminAccess.App.TakeListedFolder | internal/desktop/app_admin_access.go:97-101 | a listing takes a fresh copy of the key and drops it |
| AdminAccessRuns.FolderIsHeldUnlessItsRemovalFailed | internal/desktop/app_admin_access.go:253-263 | over every run a copy folder on disk has no holder exactly when an attempt to remove it failed, and never two |
| AdminAccessRuns.CopyIsLeftIffItsRemovalFailed | internal/desktop/app_admin_access.go:253-263 | over every run a copy folder on disk has no holder exactly when some step let it go and failed to remove it |
| AdminAccessRuns.SignOutLeavesNothing | internal/desktop/session_state.go:97-114 | signing out with nothing in flight leaves a key unzeroed exactly when a listing took it, and only folders whose removal failed |
| AdminAccessRuns.CleanRunsLeaveNoCopies | internal/desktop/app_admin_access.go:125-164 | when no removal fails every copy folder is held |
| AdminAccessRuns.ViewedCopyCanOutliveSignOut | internal/desktop/app_admin_access.go:253-263 | a run of a sign-in, an opening, a viewing and a sign-out after which the copy is still on disk and nobody holds it |
| AdminAccessRuns.LateCallsPublishNothing | internal/desktop/app_admin_access.go:83-91 | a call that began in an earlier session publishes nothing and its key is zeroed |
| AdminAccess.App.CloseAdminViewLocked | internal/desktop/app_admin_access.go:253-263 | the procedure makes the specified change to the whole state |
| AdminAccess.App.StopAdminAccessLocked | internal/desktop/app_admin_access.go:242-249 | the procedure makes the specified change to the whole state |
| AdminAccess.App.ClearSessionLocked | internal/desktop/session_state.go:97-114 | the procedure makes the specified change to the whole state |
| AdminAccess.App.SetSessionLocked | internal/desktop/session_state.go:87-92 | the procedure makes the specified change to the whole state |
| AdminAccess.App.PublishOpenedAccess | internal/desktop/app_admin_access.go:83-92 | access is published exactly when the session has not changed, else its key is zeroed |
| AdminAccess.App.PublishViewedCopy | internal/desktop/app_admin_access.go:151-163 | the copy is published exactly when access to the same folder in the same session is still open, else it is removed |
| DeletionLog.Machine.DeleteProject | internal/desktop/app_projects.go:450-496 | nothing is removed before a committed request that covers it; the request says which project was found; refusals come exactly for a missing or unreadable file and remove nothing; success leaves none of the project's files; when nothing fails the files go and the log gains the request and its "deleted" row, in this order; whatever else is new or changed somebody else wrote meanwhile |
| DeletionLog.Machine.Announce | internal/desktop/app_projects.go:450-483 | a committed request shows the id, name and audit chain of the file that was found, and goes on describing it as long as nobody writes it |
| DeletionLog.RemovedAsDescribedIff | internal/desktop/app_projects.go:467-484 | what is removed is what the request describes, whoever writes in between, exactly when the project file is not among the files written |
| DeletionLog.LateEventIsNotDescribed | internal/desktop/app_projects.go:467-484 | a project that gains an audit event after it was described is removed under a request that shows one event fewer |
| DeletionLog.Machine.RemoveFolder | internal/desktop/app_projects.go:561-569 | only the announced project's files go, in any order, going on after a failure |
| DeletionLog.Machine.RemoveFlat | internal/desktop/app_projects.go:570-576 | the file and its sidecars go in order, stopping at the first failure |
| DeletionLog.Machine.Insert | internal/deletionlog/log.go:144-186 | a row is added only if its guards accept it, and success means it was added |
| DeletionLog.Machine.Conclude | internal/desktop/app_projects.go:485-496 | the removal's own outcome is the one row added, or none is; it is added when nothing fails |
| DeletionLog.Machine.Run | internal/desktop/app_projects.go:450-496 | over any run with crashes and with files written before, between and during deletions, every step removes only announced files, described as they are unless somebody wrote them since, the log only grows, and a recorded deletion is complete |
| DeletionLog.AcceptedRowsKeepTheLogWellFormed | internal/deletionlog/log.go:173-186 | the guards accept a row exactly when the log stays well formed |
| DeletionLog.OneRequestOneOutcome | internal/deletionlog/log.go:112-140 | an identifier has one request, first, and at most one outcome |
| DeletionLog.Machine.List | internal/deletionlog/log.go:189-219 | the procedure returns the left join, newest request first |
| DeletionLog.ListHasOneEntryPerRequest | internal/deletionlog/log.go:189-219 | List has exactly one entry for each request, newest first, with that request's outcome if one was recorded |
| DeletionLog.RequestsAreAllNewestFirst | internal/deletionlog/log.go:189-219 | the entries' requests are all requests, in decreasing order |
| CostLedger.UpsertKeeps | internal/db/project.go:125-243 | a project update keeps every snapshot in the project's currency |
| CostLedger.EntryKeeps | internal/db/cost_control.go:180-234 | a saved entry has a type of its own project and a known kind |
| CostLedger.ReserveKeeps | internal/db/cost_control.go:423-461 | a saved reserve leaves one row for each project and kind |
| CostLedger.RecordKeeps | internal/db/cost_control.go:466-556 | an approval adds the next version with totals that fit |
| CostLedger.RunKeeps | internal/db/cost_control.go:466-556 | the ledger invariant holds after any run of updates, seeds, entries, reserves and approvals |
| CostLedger.ReserveBalances | internal/db/cost_control.go:499-519 | in a reachable ledger the last reserve row, the added rows and the balance are one number |
| CostEffects.UpsertStores | internal/db/project.go:125-243 | an accepted update sets that project's currency and budget and nothing else; a new project, or the present currency, is always accepted |
| CostEffects.EntryIsStoredIff | internal/db/cost_control.go:180-234 | an entry is accepted exactly when it is complete, dated, of a known kind, not zero, of an active type of its own project, and new; it is then the last row |
| CostEffects.ReserveIsStoredIff | internal/db/cost_control.go:423-461 | a reserve is accepted exactly when it is described, of a known kind and not negative; it then holds its balance, and no other changes |
| CostEffects.SnapshotIsSigned | internal/db/cost_control.go:532-556 | a snapshot names its approver and keeps its note, each trimmed and in its place, under the next version |
| CostEffects.ApprovalIsRefusedIff | internal/db/cost_control.go:466-530 | an approval succeeds exactly when it is signed with a note, its project exists and its totals fit and are positive |
| CostEffects.CurrencyIsNamedByItsLetters | internal/db/cost_control.go:612 | a code names a currency exactly when, trimmed, it spells its letters in either case; a blank one names US dollars |
| CostReports.ReportEqualsSummary | internal/desktop/app_financial_report.go:208-287 | the report refuses no row, its totals are the summary's, and it fails exactly when the summary or its quantity list does |
| CostReports.ApprovalSnapshotsTheSummary | internal/db/cost_control.go:466-556 | an approval snapshots what the summary shows; the summary fails where the approval succeeds exactly when commitments or actuals do not fit |
| CostReports.PositiveSummaryCanBeApproved | internal/db/cost_control.go:466-530 | a project with a summary can be approved exactly when it is signed with a note and its baseline is positive |
| CostReports.ApprovedPlanCanHaveNoSummary | internal/desktop/app_cost_control.go:376-442 | a run after which the plan can be approved and the summary fails |
| CostReports.StoredSnapshotsAlwaysShow | internal/desktop/app_cost_control.go:467-480 | after any run every stored snapshot shows its totals, in the present currency |
| CostReports.SnapshotsEqualTheirSummary | internal/db/cost_control.go:466-556 | over every run each stored snapshot was approved by one event on top of the snapshots before it, and equals what the summary showed at that moment |
| CostReports.VersionsAreOneToN | internal/db/cost_control.go:532-535 | a project's versions are exactly 1 to n, increasing |
| CostReports.CurrencyChangesIffUnlocked | internal/db/project.go:163-177 | the currency changes exactly when no entry, reserve balance, baseline or budget depends on it |
| CostReports.ComputeCostSummary | internal/desktop/app_cost_control.go:376-442 | the procedure computes the exact sums or fails when one does not fit |
| CostReports.FinancialTotals | internal/desktop/app_financial_report.go:208-287 | the procedure, with its checked additions and its quantity list, computes the specified report |
| CostClasses.Classify | internal/desktop/app_cost_control.go:482-562 | it fails exactly on an entry some lens cannot place or a bucket out of range, else every bucket holds its entries |
| CostClasses.EachLensConservesTheLedger | internal/desktop/app_cost_control.go:482-562 | the rows of each lens add up to the whole ledger |
| CostClasses.ReachableEntriesArePlaceable | internal/db/cost_control.go:198-211 | in a reachable ledger no entry of a project is unplaceable |
| CostDatabase.Database.UpsertProject | internal/db/project.go:125-243 | the transaction applies the specified change whole when its commit succeeds, and otherwise none of it |
| CostDatabase.Database.SaveCostEntry | internal/db/cost_control.go:180-234 | the transaction applies the specified change whole when its commit succeeds, and otherwise none of it |
| CostDatabase.Database.SaveCostReserve | internal/db/cost_control.go:423-461 | when the commit succeeds the upsert replaces the row of its key or appends one; otherwise nothing changes |
| CostDatabase.Database.ApproveCostBaseline | internal/db/cost_control.go:466-556 | when the commit succeeds the procedure stores and returns the specified snapshot; otherwise nothing changes |
| Quantity.ParseQuantityDecimal | internal/desktop/app_cost_control.go:55-96 | the procedure with its padding loop computes the specified parse |
| Quantity.GrammarIsAccepted | internal/desktop/app_cost_control.go:55-96 | text in the grammar is accepted exactly when its thousandths fit int64, with that value |
| Quantity.AcceptedIsGrammar | internal/desktop/app_cost_control.go:55-96 | everything accepted but the empty text is in the grammar |
| Quantity.GuardIsExact | internal/desktop/app_cost_control.go:88-91 | the unsigned overflow guard rejects exactly what would wrap |
| Quantity.ShownIsReadBack | internal/desktop/app_cost_control.go:102-107 | reading back a shown quantity gives the quantity, for every positive one |
| Quantity.ReadIsShownCanonically | internal/desktop/app_cost_control.go:102-107 | showing what was read gives the canonical text |
| QuantityGroups.JoinedKeysCompareAsPairs | internal/db/cost_control.go:344 | joined keys order and identify (item, unit) pairs when no item holds a NUL |
| QuantityGroups.AggregatorsAgree | internal/desktop/app_financial_report.go:294-327 | without a NUL in an item the two aggregators fail together or return the same groups, totals, counts and order |
| QuantityGroups.AlwaysAgreeIff | internal/desktop/app_financial_report.go:294-327 | the two give one answer for every order of the rows exactly when the joined keys follow the (item, unit) pairs or some total is out of range |
| QuantityGroups.NulMakesThemDisagree | internal/db/cost_control.go:344 | a NUL in an item lets two pairs share a key, and then they do not always agree |
| QuantityGroups.AggregateCostEntryQuantities | internal/db/cost_control.go:319-367 | the procedure lists the buckets in first-seen order or fails on an overflow |
| QuantityGroups.AggregateEntryQuantities | internal/desktop/app_financial_report.go:294-327 | the procedure lists the buckets in key order or fails on an overflow |
| QuantityGroups.GroupsConserve | internal/db/cost_control.go:319-367 | the groups' totals add up to the rows' quantities, and their counts to the number of rows |
| QuantityGroups.BucketNamesItsRows | internal/db/cost_control.go:336-350 | a group shows the item and the unit of a row that has its key |
| QuantityGroups.KeptRows | internal/desktop/app_financial_report.go:294-327 | the entries that enter the groups are those with an item, a unit and a positive quantity, as often as they occur |
| Rollup.AddIsExact | internal/analytics/rollup.go:25-29 | one word-pair addition is exact |
| Rollup.ConversionIsExact | internal/analytics/rollup.go:31-34 | the pair converts exactly when its value is an int64 |
| Rollup.AccumulatorNeverWraps | internal/analytics/rollup.go:19-34 | after as many additions as a slice can hold the pair is the exact sum |
| Rollup.PortfolioRollup | internal/analytics/rollup.go:49-81 | it fails exactly when some total does not fit, naming the first, else returns each exact total under its own name, and how many projects have earned value |
| Rollup.TotalsIgnoreOrder | internal/analytics/rollup.go:12-15 | totals do not depend on the order of projects |
| Rollup.TotalsByName | internal/analytics/rollup.go:49-81 | budgeted and committed cost add up over every project; actual cost, earned and planned value over those with earned value |
| Budget.Lower | internal/budget/budget.go:185-193 | the byte-buffer fold turns each ASCII capital into its small letter, at its place, and nothing else |
| Budget.SameNameIff | internal/budget/budget.go:185-193 | two names are one exactly when they differ at most in the case of ASCII letters |
| Budget.CostIsTheRoundedProduct | internal/money/money.go:203-213 | a cost is the product of rate and points to the nearest unit, halves up, or the largest amount |
| Budget.ChargedIsTheLast | internal/budget/budget.go:64-80 | a name is charged to the last stakeholder of that name with a positive rate, if there is one |
| Budget.ItemCosts | internal/budget/budget.go:73-90 | only an assigned item with positive points, whose assignee has a rate, costs anything: the rate times the points, in the assignee's category |
| Budget.ContractsAreCounted | internal/budget/budget.go:53-62 | each positive contract counts once, towards the contracts and its own category |
| Budget.LabourIsCounted | internal/budget/budget.go:73-100 | each item's cost counts once, towards the labour and the category of whoever is charged |
| Budget.AddCategory | internal/budget/budget.go:164-171 | one category grows by the amount, and so does the sum over categories |
| Budget.IndexRates | internal/budget/budget.go:64-72 | rate and category of a name come from the same, last, stakeholder |
| Budget.SubtotalsStayWithinCommitted | internal/budget/budget.go:119-137 | no category subtotal can overflow once the committed cost fits |
| Budget.Compute | internal/budget/budget.go:47-141 | each failure exactly when its total does not fit, never on a category; the categories sum to committed less the labour of people without one |
| WorkSegments.RelativeWorkSegments | internal/desktop/app_charts.go:478-501 | separated, non-empty runs from zero whose expansion is the shifted days |
| WorkSegments.RunsAreMaximal | internal/desktop/app_charts.go:478-501 | the day after a run is not worked |
| WorkSegments.LengthsAddUpToTheDays | internal/desktop/app_charts.go:478-501 | the lengths sum to the number of days |
| WorkSegments.Validate | internal/desktop/app_documents.go:1136-1153 | it accepts exactly finite, ordered, non-overlapping segments and names the first problem otherwise |
| WorkSegments.ProblemsAreNamed | internal/desktop/app_documents.go:1136-1153 | each problem is named exactly when those looked for before it are absent |
| WorkSegments.CompressedDaysAreSound | internal/desktop/app_documents.go:1132-1153 | compressed days always pass the check |
| CellText.ReadInt | internal/analytics/import.go:170-182 | the loop computes the specified integer reading |
| CellText.ReadFloat | internal/analytics/import.go:200-235 | the loop computes the specified scan and reads only what it accepts |
| CellText.FloatTextIff | internal/analytics/import.go:198-235 | the scan accepts exactly an optional minus, digits with at most one point and at least one digit, and an exponent |
| CellText.IntegerTextIsFloatText | internal/analytics/import.go:196-235 | integer text passes the floating-point scan |
| CellText.LargeIntegersKeepTheirText | internal/analytics/import.go:239-244 | an integer too large for JavaScript is kept as the very text read |
| CellText.IntegersAreReadIff | internal/analytics/import.go:168-182 | what is read as an integer is exactly the text of one that fits 64 bits, or minus zero |
| CellText.TruthIsSpelled | internal/analytics/delimited.go:172 | a truth value is spelled with its letters in either case, or with the long s |
| Delimited.MergeIsTheLeastUpperBound | internal/analytics/delimited.go:188-198 | merging is the join of the type order |
| Delimited.CellTypes | internal/analytics/delimited.go:167-186 | what each kind of cell looks like, each exactly |
| Delimited.TypeOfIsLeast | internal/analytics/delimited.go:200-208 | a column's type is the least type every cell fits |
| Delimited.RowOrderDoesNotMatter | internal/analytics/delimited.go:200-208 | the same cells in any order give the same type |
| Delimited.ColumnTypes | internal/analytics/delimited.go:200-208 | the loops compute every column's join |
| Delimited.HasHeader | internal/analytics/delimited.go:213-233 | exactly when the first row names the columns |
| Delimited.FirstRowThatIsDataFits | internal/analytics/delimited.go:213-233 | a first row that is data changes no column's type |
| Delimited.FirstRowIsDataIff | internal/analytics/delimited.go:213-233 | the first row is data exactly when there are others, they type some column, and it changes no column's type |
| Delimited.FittingCellsAreKept | internal/analytics/delimited.go:235-250 | a cell that fits its column is converted from a parse that succeeded |
| ColumnIntegers.LargeIntegerKeepsItsTextIff | internal/analytics/import.go:237-244 | an integer JavaScript cannot hold keeps the very text it was read from exactly when its column is not floating-point |
| ColumnIntegers.IntegerKeepsItsDigitsIff | internal/analytics/delimited.go:235-250 | an integer keeps its digits exactly when its column is not floating-point or a 64-bit floating-point number holds it |
| ColumnIntegers.MixedColumnLosesADigit | internal/analytics/delimited.go:188-198 | 9007199254740993 in a column with 0.5 is shown as 9007199254740992 |
| ColumnIntegers.SpacingLeaves53Digits | internal/analytics/import.go:230-235 | the spacing is the power of two that leaves an integer 53 binary digits |
| ColumnIntegers.NearestIsNearest | internal/analytics/import.go:230-235 | the number an integer is read as is within half the spacing there, and is the integer exactly when it is a multiple of it |
| Delimited.TypedColumnsKeepEveryCell | internal/analytics/delimited.go:200-250 | no cell of the rows a column was typed from has its parse discarded |
| ColumnNames.PickName | internal/analytics/import.go:158-161 | the suffix loop ends with the first free candidate |
| ColumnNames.UniqueNames | internal/analytics/import.go:151-166 | as many names, all different, each the first free candidate for its base |
| ColumnNames.NewNamesAreUnchanged | internal/analytics/import.go:148-166 | a name that is new where it stands is unchanged, and an empty one becomes its position's |
| ColumnNames.Dataset.AddPartitions | internal/analytics/import.go:113-133 | one column for each new key, its value in every row, rows as wide as the columns |
| ColumnNames.PartitionNamesAreNew | internal/analytics/import.go:111-133 | partition columns have new, distinct, non-empty names |
| ColumnNames.CutIsAtTheFirst | internal/analytics/import.go:122-125 | a directory's key is what stands before its first equals sign, the value what stands after it |
| ColumnNames.PartitionValueIsRead | internal/analytics/import.go:135-146 | a partition's value is nothing, an integer, a number or its own text, each exactly |
| ColumnNames.UsableDirectoriesBecomeColumns | internal/analytics/import.go:111-133 | every usable key=value directory has a column |
| ColumnNames.PartitionsBecomeColumns | internal/analytics/import.go:113-133 | taking directories one at a time adds all their columns and cells in path order |
| ColumnNames.BuildTable | internal/analytics/delimited.go:73-98 | distinct names, those of the header where it has one; every record below it, up to the limit, converted to its columns' types; truncation reported exactly |
| RecordLimiter.Limiter.Read | internal/analytics/import.go:265-281 | at most one byte past the cap is handed out, and the error is raised exactly past it; until then a call that asks for bytes that are there gets some, and all of them within the cap |
| RecordLimiter.RunNeverPassesTheLimit | internal/analytics/import.go:255-281 | over any run no record gets more than one byte past the cap |
| RecordLimiter.SmallRecordsAreReadWhole | internal/analytics/import.go:255-281 | nothing is held back from a run whose records all stay within the cap |
| RecordLimiter.RefusalIsSticky | internal/analytics/import.go:265-281 | once too large, a record gets nothing more |
| Timestamps.TextOrderIsTimeOrder | internal/db/timestamps.go:13-36 | fixed-width UTC timestamps sort as strings exactly as their instants |
| Timestamps.FormattedIsReadBack | internal/db/timestamps.go:31-46 | formatting then parsing gives the instant |
| Timestamps.NanosAreTheFraction | internal/db/timestamps.go:40-46 | a fraction's digits count tenths, hundredths and so on; those past the ninth are dropped |
| Timestamps.WideYears | internal/db/timestamps.go:31-36 | a year of more than four digits, or before year zero, is still written as its number |
| Timestamps.WithZone | internal/db/timestamps.go:40-46 | a date and clock followed by a zone mean the instant the offset earlier, as section 5.6 of RFC 3339 has it |
| Timestamps.SomeZone | internal/db/timestamps.go:40-46 | a sign, two digits of hours and two of minutes are read as that offset |
| Timestamps.NoSuchZone | internal/db/timestamps.go:40-46 | hours past 24 and minutes past 60 make no zone |
| Timestamps.PrefilterSkipsOnlyNormalValues | internal/db/timestamps.go:102-111 | a value the LIKE pattern skips is already normal or does not parse |
| Timestamps.RetrofitIsIdempotent | internal/db/timestamps.go:183-225 | normalising twice is normalising once |
| Timestamps.RetrofitKeepsInstants | internal/db/timestamps.go:183-225 | normalising keeps the instant exactly when its UTC year has four digits |
| Timestamps.NormalFormCanStopParsing | internal/db/timestamps.go:183-225 | a value that parses and whose normal form does not |
| Timestamps.KeysOrderInstantsIffTheyFit | internal/db/timestamps.go:40-46 | the key orders an instant correctly against every representable one exactly when it is one |
| Timestamps.TextsAreOrderedIffTheirKeyFits | internal/db/timestamps.go:40-46 | a stored value is ordered correctly by key against every ordinary one exactly when its own key fits 64 bits |
| Timestamps.FarDateIsMisordered | internal/db/timestamps.go:40-46 | the first second of 2300 has a key below that of the first second of 2000, although both texts parse and sort correctly |
| Timestamps.EpochHasKeyZero | internal/db/timestamps.go:308-348 | the text of the epoch has the key that marks a key still to be derived |
| Timestamps.KeysFitFor | internal/db/timestamps.go:40-46 | the years 1678 to 2261 have representable keys |
| Timestamps.OrdersAgree | internal/db/charts.go:163-188 | after normalising, text order, numeric order and legacy order agree |
| TimestampTables.Table.RetrofitColumn | internal/db/timestamps.go:183-225 | success normalises every row; a failure leaves each row old or normalised; it succeeds when no statement fails |
| TimestampTables.Table.BackfillColumn | internal/db/timestamps.go:308-348 | success keys every unkeyed parseable row; a failure leaves each row old or keyed; it succeeds when no statement fails |
| TimestampTables.Table.Migrate | internal/db/timestamps.go:258-275 | a full run leaves every row normalised and keyed |
| TimestampTables.MigrationIsIdempotent | internal/db/timestamps.go:247-257 | running again changes nothing |
| TimestampTables.MigratedRowsCarryTheirLegacyKey | internal/db/timestamps.go:38-46 | a migrated row's key is the one a read-only open derives from its text |
| TimestampTables.Table.ListCharts | internal/db/charts.go:152-190 | the list holds the project's rows of the kind, or of every kind, in decreasing key order, numeric or derived |
| TimestampTables.LegacyListIsInNumericOrder | internal/db/charts.go:163-188 | where rows carry their derived key, either order is the other |
| TimestampTables.OrderFixesTheKeys | internal/db/charts.go:163-188 | two lists of the same rows in that order show the same keys, place by place |
| TimestampTables.ListsShowTheSameKeys | internal/db/charts.go:163-188 | the list of an unmigrated file opened for reading, the numeric list after the migration and the derived list after it show the same keys, place by place |
| TimestampTables.Index.Repoint | internal/db/timestamps.go:415-461 | it succeeds exactly when the index is on the numeric column, or is absent or of the old shape and the transaction commits; success leaves it there, failure changes nothing |

## Left out

- Cryptography: SHA-256 is any function (collisions are named where they matter), keys are identities, ciphertext is a tag on content; Argon2, HPKE, X.509 and CMS are not modelled.
- SQL and SQLCipher: tables are maps and sequences, transactions atomic steps, integrity checks a given answer; statement failures are early or late, not one for each statement.
- JSON: scope documents and stored payloads are the values they encode; UTF-8 validity is not modelled.
- WbsObjects.Database.SaveChart: the identifier generated for an empty one, the default payloads and the title, template and timestamp columns are left out.
- WbsStore: node normalisation, which the source does in place, is a function on values, so aliasing of nodes is not captured.
- AuditChain.FreshAppendAccepted: stated for tables shorter than the largest 64-bit sequence number; the wrap-around itself is modelled.
- Migration.Migrate: an empty project file, which SQLite takes for an empty database, is a database without records; another process is present only as a log that cannot be emptied; a copy damaged by its export is found by the integrity checks; leftover temporary files of an earlier crash stay when a run is refused early, as they do in the source.
- Repair: the damage itself is not modelled, only what the engine can still read, and whether its copy is sound; the cached open-project check is left out as single-branch.
- AdminAccess: the account store's own rules (who is super administrator, that an administrator may not open their own data) are answers of the environment; the entries a listing returns and what is read from a viewed copy are left out, and the age test on leftover folders is reduced to the set of folders removed; copies of the session key that work on the administrator's own projects takes, some of which are never zeroed either (internal/desktop/app_projects.go:126), are not modelled.
- AdminAccessSteps.RunKeeps: the session epoch is unbounded, so its wrap-around after all 64-bit values is not modelled.
- DeletionLog.Machine.DeleteProject: files may be written at any point of a deletion, but no new file appears in the project from the start of its removal to its recorded outcome.
- DeletionLog: display names are the folder or file name without the timestamp rule; replacement of invalid UTF-8 in recorded paths is left out.
- CostLedger: budgets arrive in minor units, without the floating-point fallback; other project columns, timestamps and audit events of these writes are left out, as is the version number's overflow.
- CostReports.FinancialTotals: the formatting of amounts and the listed rows themselves are left out; the item columns of the entries are a separate list.
- CostDatabase.Database.SaveCostEntry: the date check is an input, and the procurement fields are left out.
- Rollup.PortfolioRollup: performance indices and the floating-point fallback for unset minor units are left out.
- Budget.Compute: floating-point copies of the totals are left out; points are reals or one of the special values.
- WorkSegments: day offsets are integers, exact in floating point up to 2^53.
- CellText: the value of accepted text comes from an oracle; only that it succeeds on 64-bit integers is used, and only where stated.
- Delimited: the CSV reader, delimiter sniffing and cancellation are left out; rows have equal width, as that reader guarantees.
- Timestamps: of what Go's parser accepts beyond RFC 3339, a one-digit hour and a comma before the fraction are left out; offsets up to 24 hours and 60 minutes are kept.
- TimestampTables: the library sorts are one insertion sort; ties keep row order.
- The user interface, document rendering, Parquet and JSON import, the scheduling kernel, templates, and plain create-read-update-delete code would add only easy members.
