# Verified model of Market Sentinel's durable core

Market Sentinel watches prediction-market wallets, copies their trades, keeps a paper ledger and scans
leaderboards. Most of what makes that hard is what must survive a crash, a rival process or an operator
at the wrong moment. This project models that part and proves what holds of every run.

| area | modules |
|---|---|
| copy-activity outbox, wallet cursors, staging | `Retention`, `Outbox`, `Staging` |
| the copy protocol: any number of processes, one file, crashes, operators | `CopyLog`, `CopyProtocol`, `CopySafety`, `CopyOnce`, `CopyOutcomes` |
| the configuration store underneath, as a compare-and-swap file | `ConfigStore`, `SaveConfig`, `LockRegistry`, `StoreContent`, `CasStore`, `StoreRefinement` |
| one polled batch between poller and UI thread | `PollBatch` |
| the copy conflict guard | `ConflictGuard` |
| request deadline and cancellation, DNS slots | `RequestControl`, `DnsSlots` |
| the JSONL scan checkpoint, down to its characters | `JsonTree`, `JsonText`, `JsonRoundTrip`, `JsonPrefix`, `LineLog`, `Checkpoint`, `CheckpointRecord`, `CheckpointIdentity`, `Walks`, `BoardWalk`, `CheckpointRuns`, `CheckpointReturns`, `BoardScan` |
| the average-cost paper ledger and its preview | `Options`, `PaperLedger`, `PaperAccounting`, `PaperTheorems`, `PaperPreview`, `PaperPositions` |
| bounded journals and stored results | `Journals`, `MutationResult`, `ResultBytes` |

Code that changes state in place is a class or a method with a loop, proved against a function or a
predicate on values; the theorems over whole runs are about those functions, or about transition systems
whose steps are the source's critical sections. `dafny verify dfyconfig.toml` checks everything.

## Findings

- **Two dispatches need not be separated by a clearance.** Every dispatch is paid for: an entry is never
  dispatched more often than once plus the number of operator clearances (`CopySafety.AtMostOncePerClearance`,
  all runs). But if an operator clears an `ambiguous` entry while a process that committed the boundary has
  not yet called the venue, that process and a second one can both dispatch after the clearance
  (`SeparationCanFail`, a concrete run). A clearance is safe exactly when no process holds a permission for
  the entry at that moment (`ClearanceSafeIffUnheld`, both directions).
- **A finished activity can be handled once more in memory.** A completed or rejected outcome in the file is
  final: no commit of any process touches it again except to prune it (`CopyOutcomes.OutcomeIsFinal`). But a
  process that loaded the file before can still resume the entry from its older snapshot (`OutdatedCanResume`, a
  concrete run); it then replaces the file no more until it is restarted (`OutdatedNeverWrites`).
- **A restarted scan can spoil its own checkpoint.** An uninterrupted scan compares a page's continuation with
  every cursor it has seen; a resumed one knows only its current cursor, while the loader compares with every
  cursor in the file. If the source ever leads back to an older cursor, one restart makes the scan commit a
  page after which the file no longer loads. Every reachable file loads if and only if no page of the walk
  leads back (`CheckpointReturns.LoadableIffNeverReturns`; `CircularSourceSpoils` is a concrete source). A page that continues with its own cursor is
  harmless.
- **The conflict guard keeps its window for some orders of times only.** Two mechanisms break it: a later
  activity on another token purges a mark early, and a refresh by the same wallet with an older time makes
  its mark look stale (`OutOfOrderSlips`, a concrete schedule of each). For any times and any positive window,
  every run that obeys the guard keeps the window if and only if the times do not slip: no `i <= i' < j <= k`
  with `ts[j] - ts[i'] > window` and `|ts[k] - ts[i]| <= window`, where `ts[i']` is not zero
  (`WindowKeptIffNoSlip`). Times that never go back do not slip; with window 0 the order does not matter at all
  (`OneWalletWithoutWindow`).
- **The conflict guard can refuse for a copy far away in time.** A mark from the future of an activity never
  looks stale: after a copy at 10000, another wallet's at 100 is refused under a window of 300
  (`FutureMarkRefuses`). For any times and any positive window, every refusal in every run has a cause within the
  window, on either side, if and only if there are no `i < j` with `ts[i] - ts[j] > window`, nor with `ts[i]` zero
  and `ts[j] > window` (`RefusesWellIffNoFarMark`).
- **A receipt can exceed a small limit** (`ReceiptCanExceed`: ten bytes under a limit of one become 192). For
  every limit the arguments tell whether the stored result fits: a value that cannot be encoded needs 99 bytes;
  any other fits as it is, or, where shape is kept, in its smallest shape, or if the limit leaves 190 bytes and the digits of its
  size (`StoredWithinLimit`). Under the default limit that is also exactly when bounding twice is bounding once
  (`BoundingTwice`).
- Page fingerprints and wallet memberships, which a resumed scan forgets, never decide anything: whatever they
  would stop, the observed wallets stop as well (`BoardScan.NextPage`).

- **A remembered activity can be handed out twice, by one branch.** The poller hands out a key it has already
  seen exactly when another market's outbox entry has it and this market's has not (`Staging.NeverRedelivered`;
  `CollisionRedelivers` is a concrete case).

## Model

| member | source | states |
|---|---|---|
| `Retention.EvictTakesOldest` | core/models.py:711-720 | keeping all but the first n of the sorted settled records removes exactly n, all settled, order kept, and no surviving settled record is older than a removed one |
| `Outbox.PruneKeepsUnresolved` | app.py:401-417 | pruning keeps order and every pending, retryable and ambiguous entry, and its exact length: down to 500 as far as completed and rejected entries allow |
| `Outbox.PruneDropsFirst` | app.py:405-417 | a completed or rejected entry stays exactly if at least as many such entries stand before it as the list is over 500 |
| `Outbox.EvictionTakesOldest` | app.py:451-464 | staging evicts exactly the needed number, none of them pending, retryable or ambiguous, and no completed or rejected survivor was updated, then created, then numbered before an evicted one |
| `Outbox.StageSound` | app.py:450-476 | a stage succeeds exactly when enough conclusive entries can go; then at most 500 entries, unique on id and on (market, watch, key), all unresolved kept, the new one last |
| `Staging.RememberIsLocal` | core/wallet_activity.py:270-300 | remembering advances one market's cursor and leaves every other market's as it was, whichever was unpacked |
| `Staging.NeverRedelivered` | app.py:612-644 | over every history of a cursor, although old keys are dropped, a remembered activity is handed out again if and only if its key collides with another market's entry; without a collision never |
| `Staging.AdvanceExactly` | core/wallet_activity.py:279-300 | newest time, last transaction, exactly which keys and times are kept |
| `Staging.UnseenIsDelivered` | app.py:638-644 | over every history, an activity never remembered and no older than any that was is handed out |
| `Staging.RememberFails` | core/wallet_activity.py:289-292 | remembering fails exactly if the cursor would know more than 10000 keys |
| `Staging.CollisionRedelivers` | app.py:623-637 | a concrete cursor and outbox for which a remembered activity is handed out again |
| `Staging.AppConfig.FindEntry` | app.py:383-398 | finds an entry exactly when one matches watch and key, and market unless any market is asked for |
| `Staging.AppConfig.RetainWithinLimit` | app.py:405-417 | the one-pass loop drops the first conclusive entries in list order and nothing else |
| `Staging.AppConfig.PruneOutbox` | app.py:401-417 | the outbox becomes its pruned form |
| `Staging.AppConfig.EvictForOne` | app.py:451-464 | room is made exactly when possible, otherwise nothing changes |
| `Staging.AppConfig.ApplyCheckpoint` | app.py:420-480 | every outcome but a new stage leaves outbox and cursors exactly as they were; a new stage is the sound stage plus the remembered cursor; which outcome occurs when, a full outbox before a full key ledger |
| `Staging.AppConfig.Restore` | app.py:483-491 | restores the outbox and the watch of the checkpoint exactly |
| `Staging.AppConfig.ReconcileAmbiguous` | core/models.py:730-769 | exactly when each error is raised, and what each of the three resolutions makes of the entry; everything else stays |
| `CopyLog.DispatchesBounded` | app.py:5282-5317 | a legal log has no more dispatches of an entry than one plus its clearances |
| `CopyProtocol.StepKeepsInv` | app.py:5246-5367 | every step of every process, with any save outcome, keeps the protocol invariant: durable replayable entries have no open intent, permits match durable boundaries, attempts are never reused; what each commit writes is stated by the rows of CopyOutcomes |
| `CopySafety.AtMostOncePerClearance` | app.py:5249-5367 | over every run: dispatches of an entry are at most one plus the operator's clearances |
| `CopySafety.DispatchAfterDurableIntent` | app.py:5282-5317 | over every run: each venue call follows the durable move of exactly that attempt to ambiguous, and no attempt is dispatched twice |
| `CopySafety.DispatchesSeparated` | core/models.py:730-769 | if clearances happen only while nobody holds a permission, two dispatches of an entry always have a clearance between them |
| `CopySafety.HeldClearanceBreaks` | core/models.py:752-768 | after a clearance under a held permission two dispatches without a clearance between them are reachable |
| `CopySafety.ClearanceSafeIffUnheld` | core/models.py:730-769 | a clearance keeps dispatches separated if and only if no process holds a permission for the entry |
| `CopySafety.SeparationCanFail` | app.py:5282-5328 | a concrete run in which the plain separation claim fails |
| `CopySafety.IdleMatchesDurable` | app.py:919-969 | whenever a process is idle and unpaused its outbox and cursors are those of its last loaded or committed snapshot |
| `CopySafety.FailStop` | app.py:919-969 | over every run: once a save of a process failed, before or after the replacement, that process replaces the file no more until it is restarted |
| `CopySafety.FailedSaveLeavesSnapshot` | app.py:5246-5317 | over every run: after a failed save the outbox and cursors are exactly those last loaded or committed, unless an outcome was being recorded or the handler still runs; after an unconfirmed replacement the file holds them |
| `CopyOnce.StepKeepsRemembered` | app.py:420-480 | every step keeps the durable cursors aware of every activity staged so far |
| `CopyOnce.StagedAgainOnlyOnCollision` | app.py:434-445 | over every run handing out activities as the poller does, an activity is staged a second time only while another market of its watch has an entry under its key and its own has none |
| `CopyOnce.ActivityStagedOnce` | app.py:612-644 | over every such run without a collision every activity gets at most one entry |
| `CopyOutcomes.OutcomeRecorded` | app.py:494-504 | over every run: after a committed outcome the file holds the entry with exactly the reported state and note and this attempt's number, or it was completed or rejected and pruned; all others stay up to pruning |
| `CopyOutcomes.BoundaryRecorded` | app.py:5282-5317 | over every run: committing the boundary leaves exactly that entry ambiguous under a new attempt number |
| `CopyOutcomes.ResolutionRecorded` | core/models.py:730-769 | over every run: each resolution leaves exactly that state, with a replay authorized only by a clearance, and nothing else changed |
| `CopyOutcomes.EditRecorded` | app.py:948-969 | over every run: other edits commit exactly what was given and leave the outbox alone |
| `CopyOutcomes.StageRecorded` | app.py:450-476 | over every run: a committed stage adds the activity last, pending and untried, keeps all unresolved ones, stays within 500 |
| `CopyOutcomes.StageAdvances` | app.py:465-465 | over every run: it advances the cursor of the activity's market and no other |
| `CopyOutcomes.OutcomeIsFinal` | app.py:434-435 | over every run: a completed or rejected outcome stays until pruned, and whoever resumes the entry afterwards has an older snapshot |
| `CopyOutcomes.OutdatedNeverWrites` | core/storage.py:130-135 | such a process replaces the file no more until it is restarted |
| `CopyOutcomes.OutdatedCanResume` | app.py:5246-5280 | a concrete run in which a completed entry is resumed from an older snapshot |
| `CopyOutcomes.CalledAtMostOncePerClearance` | app.py:5249-5367 | over every run, counted in steps: the venue is called for an entry at most once more than the operator cleared it |
| `CopyOutcomes.StepsAreOpen` | app.py:5246-5367 | a current, unpaused process can always take the next step of the protocol |
| `CopyOutcomes.StagingIsOpen` | app.py:420-480 | it can stage every activity for which there is room and no entry |
| `ConfigStore.NoLostUpdate` | core/storage.py:90-158 | in every interleaving the commits form one chain, each replacing exactly what its writer last loaded or committed; a config that never loaded a file can only create one |
| `ConfigStore.OutcomesClassified` | core/storage.py:127-158 | in every interleaving a call returned or raised the commit error exactly if the log of replacements holds it, then once and with its object at the revision written; after any other error it replaced nothing and its object kept the revision it had on entry |
| `ConfigStore.FileIsComplete` | core/storage.py:132-147 | the file always holds its first content or one whole serialization |
| `StoreContent.LoadIsUnedited` | core/storage.py:90-100 | a loaded object holds the very content whose revision it carries |
| `StoreContent.LoadWithoutFile` | core/storage.py:91-95 | without a file a load gives the defaults under the revision of a missing file |
| `StoreContent.UneditedSavesChangeNothing` | core/storage.py:90-158 | in every interleaving an object that nobody edits since its load or commit changes nothing by saving |
| `StoreContent.NoLockLeftBehind` | core/storage.py:161-245 | over every run a lock is held only by a call under way, so that with none left every object can save again |
| `StoreContent.UndisturbedSaveSucceeds` | core/storage.py:111-148 | a save with a current revision and nobody in its way returns and leaves exactly the object's text |
| `StoreContent.OutdatedSaveFails` | core/storage.py:130-135 | a save with another revision fails and changes neither file nor object |
| `StoreRefinement.StoreStepIsMove` | core/storage.py:111-158 | every step of the store, with its locks and temporary files, is a move of a compare-and-swap file, and the replacement is the swap |
| `StoreRefinement.StoreRefinesCas` | core/storage.py:89-158 | over every run the store takes only such moves |
| `StoreRefinement.ProtocolStepIsMove` | app.py:939-969 | every step of the copy protocol touches the file by such a move |
| `SaveConfig.ConfigFile.ReplaceFile` | core/atomic_files.py:11-23 | replaced exactly when one of ten attempts succeeds after sharing violations only; otherwise nothing changes |
| `SaveConfig.Save` | core/storage.py:111-158 | file and revision change exactly when lock, revision check, write and replacement succeed, and which error follows |
| `LockRegistry.LockTable.Register` | core/storage.py:165-173 | the first user of a path creates its lock, later ones share it and are counted |
| `LockRegistry.LockTable.Unregister` | core/storage.py:178-183 | the entry disappears with its last user only |
| `LockRegistry.MutualExclusion` | core/storage.py:161-183 | over every run: counts are the threads between entering and leaving, one lock per path, at most one thread inside |
| `LockRegistry.LeavingNeverFails` | core/storage.py:177-183 | a leaving thread always finds its entry |
| `LockRegistry.UndisturbedVisit` | core/storage.py:161-183 | a thread that finds the path free comes in, leaves, and nothing of it remains |
| `PollBatch.SettledIsPrefix` | app.py:551-558 | at every point of every run, whatever failed, stopped or crashed, the settled activities are the oldest ones without a gap |
| `PollBatch.BatchCanFinish` | app.py:646-660 | undisturbed, a batch of any size is settled in full |
| `ConflictGuard.Guard.Reason` | app.py:4784-4814 | purges exactly the stale marks and reports the other wallet's mark, if any |
| `ConflictGuard.Guard.Commit` | app.py:4816-4826 | records the accepted copy under its key |
| `ConflictGuard.Guard.Handle` | app.py:5012-5066 | judging an activity and recording it if accepted is one event of a run |
| `ConflictGuard.ChangeOfWallet` | app.py:4794-4814 | if two wallets are accepted for one token, then in between, or at the second, a mark of the first was found stale |
| `ConflictGuard.OneWalletWithoutWindow` | app.py:4793-4814 | with window 0 only one wallet is ever accepted per token, in any order of times |
| `ConflictGuard.WindowKeptIffNoSlip` | app.py:4784-4826 | for any times, in every run obeying the guard accepted copies of one token from different wallets are more than the window apart, in either direction, if and only if the times do not slip |
| `ConflictGuard.SlipBreaks` | app.py:4794-4802 | any slip is exploited by a concrete run that obeys the guard |
| `ConflictGuard.TimeOrderKeepsWindow` | app.py:4784-4826 | times that never go back keep the window in every run |
| `ConflictGuard.RefusedForCause` | app.py:4803-4813 | whatever the guard refuses had an accepted copy from the named other wallet whose mark is not stale: the refused copy is at most the window later, or any time earlier; it is called opposite exactly if that copy has a side and it differs |
| `ConflictGuard.RefusesWellIffNoFarMark` | app.py:4795-4813 | for any times, every refusal in every run obeying the guard has a cause within the window if and only if no mark lies more than the window in the future, or carries time zero, when it is met |
| `ConflictGuard.FarMarkBreaks` | app.py:4795-4813 | any far mark is met by a concrete run with a refusal that has no cause within the window |
| `ConflictGuard.FutureMarkRefuses` | app.py:4795-4813 | a concrete schedule with an undeserved refusal |
| `ConflictGuard.OutOfOrderSlips` | app.py:4795-4802 | two concrete schedules that slip, one for each mechanism |
| `RequestControl.Request.AbortWith` | core/request_control.py:64-93 | the first abort sets the reason, shuts down and closes every tracked handle once; later ones change nothing |
| `RequestControl.Request.AttachGuard` | core/request_control.py:136-156 | a duplicate is tracked, or closed on the spot when the control has finished |
| `RequestControl.Request.UnwatchGuard` | core/request_control.py:158-164 | a tracked handle is forgotten and closed once; an untracked one is left alone |
| `RequestControl.Request.CloseControl` | core/request_control.py:172-181 | a clean close closes every tracked handle without shutting it down |
| `RequestControl.Request.Check` | core/request_control.py:95-113 | the verdict is the first reason, or that of a cancellation or deadline seen now |
| `RequestControl.HandlesClosedOnce` | core/request_control.py:64-182 | over every run each duplicated handle has one owner or was closed exactly once; a finished control tracks none |
| `RequestControl.AbortExactly` | core/request_control.py:64-93 | the first abort records its reason, shuts down and closes every tracked handle with its original once, and touches nothing else |
| `RequestControl.ReasonWasGiven` | core/request_control.py:64-69 | over every run a reason was given by the first abort, before any close |
| `RequestControl.OnlyAbortShuts` | core/request_control.py:158-181 | unwatching, closing and attaching shut nothing down |
| `RequestControl.VerdictStable` | core/request_control.py:64-113 | the first reason is never overwritten, and none appears after a clean close |
| `RequestControl.NoShutdownAfterDisarm` | core/request_control.py:136-164 | a disarmed handle is never shut down again |
| `RequestControl.NoShutdownAfterEnd` | core/request_control.py:64-93 | after the verdict or the close nothing is shut down |
| `DnsSlots.SlotsConserved` | core/request_control.py:215-249 | over every run the slots in use are the acquired callers plus the unreleased workers, at most 16; each slot is released exactly once; completion implies a result |
| `DnsSlots.UndisturbedLookup` | core/request_control.py:215-249 | while fewer than 16 slots are in use a lookup takes one, gets its result and gives it back |
| `JsonRoundTrip.ValueRound` | core/json_validation.py:26-30 | decoding an encoded value gives it back, whatever follows it |
| `JsonPrefix.ValueStable` | core/json_validation.py:26-30 | a container once decoded is decoded the same from any longer text, and a refusal stays one |
| `JsonPrefix.TextRound` | market_sentinel_cli.py:1039 | an encoded record decodes to itself with or without its newline |
| `JsonPrefix.CutObjectIsMalformed` | market_sentinel_cli.py:966-975 | no proper prefix of an encoded object is a JSON text, and the decoder calls it malformed, never merely refused |
| `JsonPrefix.EncodePrintable` | market_sentinel_cli.py:1039 | a record is one line of printable ASCII |
| `LineLog.CutFileRecovers` | market_sentinel_cli.py:959-1025 | a file cut anywhere behind its header loads as its first m records, and the repaired file is exactly the one written for those m |
| `LineLog.TailInside` | market_sentinel_cli.py:971-974 | truncation points lie inside the file |
| `Checkpoint.LoadCheckpoint` | market_sentinel_cli.py:937-1004 | the loader reports exactly the specified load: rows, page count, continuation, completion, truncation point, or the first reason to reject; what that load requires of the text is stated by the rows of CheckpointIdentity |
| `Checkpoint.LoadRecords` | market_sentinel_cli.py:959-1004 | the record loop over its running variables computes the specified load |
| `Checkpoint.ReadRecord` | market_sentinel_cli.py:964-996 | one line judged by the running variables is judged as by the pages themselves |
| `Checkpoint.AcceptedFileIsChain` | market_sentinel_cli.py:980-1002 | every accepted file holds pages 0..n-1 in cursor order with pairwise distinct source cursors and an absent continuation only on the last |
| `CheckpointRecord.AdmitWritten` | market_sentinel_cli.py:1027-1039 | reading a written record judges the page itself |
| `CheckpointRecord.RecordFaithful` | market_sentinel_cli.py:1027-1040 | an admissible page's record is read back terminated or not, and every cut of it is a torn tail |
| `CheckpointRecord.HeaderAccepted` | market_sentinel_cli.py:1193-1195 | the published header is one line that identifies the scan |
| `CheckpointIdentity.LoadedMeansSameScan` | market_sentinel_cli.py:948-958 | a load succeeds only if the first line is a version 2 scan identity whose signature holds exactly the caller's fields |
| `CheckpointIdentity.OtherSettingsRejected` | market_sentinel_cli.py:955-956 | a checkpoint written for other settings is refused as soon as one setting differs, whatever follows |
| `CheckpointIdentity.SameObjectMeans` | market_sentinel_cli.py:955-955 | settings are equal exactly if every key has the same value in both, or in neither |
| `CheckpointIdentity.AdmittedMeans` | market_sentinel_cli.py:976-996 | a record is admitted as a page exactly if its fields say that page and the page comes next |
| `CheckpointIdentity.CorruptRecordFails` | market_sentinel_cli.py:966-975 | a terminated line that does not decode fails the load |
| `CheckpointIdentity.RepeatedKeyRefused` | core/json_validation.py:10-16 | an object that repeats a key is refused |
| `CheckpointIdentity.NotFiniteRefused` | core/json_validation.py:19-23 | numbers that are not finite are refused |
| `CheckpointIdentity.TrailingTextMalformed` | core/json_validation.py:26-30 | text after an object is malformed |
| `CheckpointIdentity.MissingCommaMalformed` | core/json_validation.py:26-30 | elements without a comma or bracket between or behind them are malformed |
| `CheckpointIdentity.MissingFieldCommaMalformed` | core/json_validation.py:26-30 | so are fields without a comma or brace |
| `CheckpointIdentity.MissingColonMalformed` | core/json_validation.py:26-30 | so is a key without a colon |
| `CheckpointIdentity.RawControlMalformed` | core/json_validation.py:26-30 | a raw control character in a string is malformed |
| `BoardWalk.WalkIsChain` | polymarket/leaderboard_scan.py:50-124 | the uninterrupted walk is always a valid cursor chain |
| `BoardWalk.DecideForgets` | polymarket/leaderboard_scan.py:47-91 | while no page leads back, what a process remembers beyond its current cursor makes no difference |
| `BoardWalk.ProposedExactly` | polymarket/leaderboard_scan.py:51-104 | exactly when a page is taken, and that it is the source's whole answer |
| `BoardWalk.PagesAreAnswers` | polymarket/leaderboard_scan.py:84-107 | every page of the walk holds all rows of the answer to its cursor |
| `BoardWalk.DecidedExactly` | polymarket/leaderboard_scan.py:90-91 | a process stops before such a page only if it has visited the continuation |
| `Walks.WalkPrefix` | polymarket/leaderboard_scan.py:50-124 | shorter walks are prefixes of longer ones |
| `CheckpointRuns.StepKeepsInv` | market_sentinel_cli.py:1173-1206 | resume, commit and crash keep the file a cut of the records of a prefix of the walk |
| `CheckpointRuns.ResumeRefinesWalk` | market_sentinel_cli.py:1173-1206 | after any crashes and resumes the file loads as a prefix of the uninterrupted walk, a running scan holds exactly what the file holds, and all of the walk when nothing more can be taken |
| `CheckpointReturns.ReturnSpoils` | polymarket/leaderboard_scan.py:47-91 | if a page of the walk leads back, a run with one restart ends in a file the loader rejects |
| `CheckpointReturns.CircularSourceSpoils` | polymarket/leaderboard_scan.py:47-91 | a source that goes from its first page to a, to b and back to a spoils its checkpoint with one restart |
| `CheckpointReturns.LoadableIffNeverReturns` | market_sentinel_cli.py:993-994 | every reachable file loads if and only if no page of the walk leads back to an older cursor |
| `BoardScan.CheckpointWriter.constructor` | market_sentinel_cli.py:1008-1025 | opening truncates the torn tail and ends an unterminated last line |
| `BoardScan.CheckpointWriter.Record` | market_sentinel_cli.py:1027-1043 | appends one record as one line, or raises with the file untouched |
| `BoardScan.NextPage` | polymarket/leaderboard_scan.py:51-104 | the scan's checks, with this process's fingerprints and memberships, decide exactly as the walk does |
| `BoardScan.ScanBoard` | polymarket/leaderboard_scan.py:15-124 | every page the loop commits is a commit step of the crash model; when it stops by itself nothing more can be taken |
| `BoardScan.ResumeScan` | market_sentinel_cli.py:1173-1206 | a rejected file stays untouched; otherwise the new file is reached by a resume and commits and holds the rows returned |
| `PaperLedger.UnknownsAbsorb` | core/paper_accounting.py:69-139 | unknown quantity, profit or currency stays unknown, reasons never vanish, and a row without reasons knows everything it needs |
| `PaperLedger.FillConserves` | core/paper_accounting.py:101-139 | one fill moves realized plus unrealized by size times (mark - price), up to the dust it snapped, and keeps the average in [0, 1] |
| `PaperAccounting.ChronologicalIsStableSort` | core/paper_accounting.py:62-66 | the processing order is a permutation, ascending in time, equal times in insertion order |
| `PaperAccounting.Account` | core/paper_accounting.py:55-139 | the in-place loop computes the fold of the ordered records |
| `PaperTheorems.RowsAreLocal` | core/paper_accounting.py:62-141 | with unique accepted ids a contract's row is the fold over its own records in chronological order |
| `PaperTheorems.AllRowsSound` | core/paper_accounting.py:69-139 | every row of every ledger is sound about what it knows |
| `PaperTheorems.HistoryAbsorbs` | core/paper_accounting.py:69-139 | over a whole history unknowns stay unknown and reasons only grow |
| `PaperTheorems.PortfolioRealized` | core/paper_accounting.py:141-155 | the portfolio total exists exactly when no row has a reason and at most one currency is named, and then adds every row's known profit once |
| `PaperTheorems.SumAnyOrder` | core/paper_accounting.py:141-151 | the total does not depend on the order in which the rows are listed |
| `PaperTheorems.ProfitConserved` | core/paper_accounting.py:101-139 | for a fully priced single-currency contract, realized plus unrealized at any mark is the sum of signed size times (mark - price) of what the records say was filled, the filled size at the average price or else the whole size at the limit, up to the snapped dust |
| `PaperTheorems.ProfitIgnoresOrder` | core/paper_accounting.py:101-139 | two orders of the same fills agree at every mark up to their dust, exactly when none was snapped |
| `PaperPreview.PreviewIsOneStep` | core/paper_accounting.py:236-246 | re-running the ledger with the preview prepended is one step on that contract's row and leaves the others alone |
| `PaperPreview.EffectAgrees` | core/paper_accounting.py:248-259 | each label states exactly the sign and size change; it is withheld exactly when a quantity is unknown |
| `PaperPositions.NetConserved` | core/paper_accounting.py:101-132 | a contract's net quantity is the sum of what its records say was bought less sold, up to dust |
| `PaperPositions.DustExact` | core/paper_accounting.py:131-132 | exactly which sums count as zero |
| `PaperPositions.KnownAfterFill` | core/paper_accounting.py:117-139 | exactly when realized profit, average and basis are known after a fill |
| `PaperPositions.ReasonsExact` | core/paper_accounting.py:71-108 | exactly which reasons a record adds |
| `PaperPositions.FillsExactly` | core/paper_accounting.py:82-100 | exactly which records reach the arithmetic |
| `PaperPositions.RepeatedIdentityUnknown` | core/paper_accounting.py:77-80 | wherever an accepted identity repeats, the later record's contract is unknown from then on |
| `PaperPositions.NoCurrencyNoMoney` | core/paper_accounting.py:86-88 | without a currency a row has neither basis nor realized profit |
| `PaperPositions.MarksExact` | core/paper_accounting.py:101-105 | trade count, currency, unit and assumed fills of a row |
| `PaperPositions.AssumedHistory` | core/paper_accounting.py:101-105 | a fill is assumed exactly if some record reported nothing filled |
| `PaperPositions.CurrentExactly` | core/paper_accounting.py:238-254 | the current quantity of a preview |
| `PaperPositions.LabelGiven` | core/paper_accounting.py:256-259 | a supported, sized order on a known position gets a label |
| `PaperPositions.PreviewProfit` | core/paper_accounting.py:239-246 | a preview moves total profit by its signed size times (mark - limit), up to dust |
| `Journals.NotifySound` | core/models.py:703-720 | an accepted batch keeps every unacknowledged notification and the whole batch; nothing is evicted within 1000, else exactly down to 1000 and only the earliest created acknowledged ones |
| `Journals.AlertsNeverForgotten` | core/models.py:703-728 | over every sequence of operations the history stays within 1000 and an unacknowledged notification stays, unchanged |
| `Journals.MakeRoomSound` | core/models.py:774-790 | room is refused exactly when 256 records or more are all pending, retryable, ambiguous or unacknowledged wallet polls; otherwise only the least recently updated other one goes |
| `Journals.MutationsBounded` | core/models.py:771-791 | over every run from a journal the loader accepts, the journal stays within 256 |
| `Journals.MutationsNeverForgotten` | core/models.py:771-791 | over every run a record that is gone was removable before: no pending, retryable, ambiguous or unacknowledged wallet-poll record is evicted |
| `Journals.AppendKeepsUnsettled` | core/models.py:771-791 | over every run an append keeps every such record, and is refused exactly when 256 of them fill the journal |
| `Journals.JournalHolder.UniqueRecords` | core/models.py:91-97 | accepts exactly the lists with distinct identities |
| `Journals.JournalHolder.AppendAlertEvents` | core/models.py:703-720 | the whole batch or nothing, and exactly when each reason to reject it applies |
| `Journals.JournalHolder.AcknowledgeAlertEvent` | core/models.py:722-728 | stamps the first acknowledgement of the first match and never moves it |
| `Journals.JournalHolder.AppendMutation` | core/models.py:771-791 | appends after making room, or leaves the journal as it was; new identities keep the journal valid |
| `MutationResult.TrimShrinks` | core/models.py:372-395 | trimming never enlarges the encoding |
| `MutationResult.TrimAbsorbs` | core/models.py:372-395 | trimming with tighter limits absorbs trimming with looser ones |
| `MutationResult.TrimExactly` | core/models.py:372-395 | a text becomes its prefix of the limit's length, a list its first elements trimmed, an object keeps its keys |
| `MutationResult.LadderExactly` | core/models.py:436-444 | the seven rungs |
| `MutationResult.LadderDescends` | core/models.py:436-444 | each rung of the ladder encodes no larger than the one before |
| `MutationResult.TrimKeepsSerializable` | core/models.py:450-459 | trimming keeps a value encodable, so no rung is skipped |
| `MutationResult.BoundedMutationResult` | core/models.py:398-470 | the stored result is the value if it fits, else the least trimmed fitting rung, else a receipt |
| `MutationResult.StoredForms` | core/models.py:411-428 | what is stored for values that are no objects, and what receipts say |
| `MutationResult.ReceiptOnlyAtTheEnd` | core/models.py:431-470 | a shaped result becomes a receipt exactly when the last rung is still too large; otherwise it keeps its keys |
| `MutationResult.StoredWithinLimit` | core/models.py:411-470 | for every limit the stored result is within it if and only if the arguments say so |
| `MutationResult.ReceiptCanExceed` | core/models.py:462-470 | a ten-byte result under a limit of one byte is stored as 192 bytes |
| `MutationResult.DefaultLimitHolds` | core/models.py:398-470 | under the default limit a result fits exactly when it cannot be encoded, is smaller than ten to the power 261954 bytes, or its smallest shape fits where shape is kept |
| `MutationResult.StoringIsFixed` | core/models.py:497-501 | a stored result that fits is stored again as itself |
| `MutationResult.BoundingTwice` | core/models.py:497-501 | under the default limit bounding twice is bounding once exactly when the arguments say that the result fits |
| `ResultBytes.SizeIsLength` | core/models.py:413-429 | the size of a value is the number of bytes of its UTF-8 encoding |
| `ResultBytes.Utf8Round` | core/models.py:419-419 | the bytes of a character stand for that character |

## Left out

- The copy handler is a nondeterministic step: it calls the venue at most once and only after the boundary was committed, and never reports `retryable` after a call. The shipped handler rejects live dispatch altogether (app.py:5087-5096), so the model allows more than it does.
- Staging in the protocol model omits the already-seen guard, which only adds runs to what is proved per entry. `CopyOnce` restores it, on the memory of the staging process at the moment of staging, and takes as given that a key has one time, that edited watches keep their cursors and that removed ones do not return under their old identity.
- SHA-256 is an injective function that never yields the marker of a missing file.
- `AppConfig` loading, validation and serialization: a snapshot is an opaque text in the store model and a value in the protocol model.
- `Staging.AppConfig.ReconcileAmbiguous`: takes the resolution in its normal spelling; trimming, lower case and hyphens are left out.
- Identities are numbers ordered as the source orders its strings; clocks, identities and faults are parameters.
- Operating-system locks, fsync, Windows handle detachment and directory syncing are atomic steps that may fail.
- The poller's retry timing and its branch for legacy transaction keys, which only withholds activities: in the batch model a batch is the list it produced, named by position.
- Ledger arithmetic is over exact reals; rounding, NaN, infinity and the overflow branches are not modelled.
- JSON strings hold Unicode scalar values: lone surrogates are not modelled. Numbers other than integers stay text, so a version written as 2.0, which the source would accept as 2, is rejected by the model, and a literal too large for a float is not refused. Nesting depth is unbounded.
- A checkpoint's text is decoded character by character: bytes that are not UTF-8, which the writer never emits, are not modelled. Row validation and the wallet of a row are parameters.
- In the scan, errors raised and silent stops are both a halt without a commit; retries, cancellation and the page budget are the number of pages a run is allowed.
- Signature equality compares field values structurally, enough for the scalar settings it holds.
- `Journals.JournalHolder.AppendAlertEvents`: the text and price checks of a notification are left out; they reject before anything changes.
- `Journals.MutationsBounded`: a run starts from what the loader accepts, at most 256 records with distinct identities (core/models.py:682-685, 919-926); appended identities are taken as new, as generated ones are; the source does not check.
- Tk widgets, HTTP handlers, market adapters, themes, command-line plumbing, the disk-backed scan state and Git checks: user interface and wrappers.
