# PI-Desktop host: a verified model of its durable state

PI-Desktop keeps its state in a Rust host, `crates/host-core`. This project models the parts
of that host where a wrong step would lose or corrupt something a user relies on, and proves
what they promise for all inputs and all runs:

- **Review engine** (`LineDiff`, `Hunks`, `ReviewStore`, `ReviewRuns`): the line diff and the
  hunks that are shown for a change made by a tool, and the snapshots that undo it.
- **Tool admission** (`ToolBudget`, `ToolBudgetRuns`, `ToolBudgetNames`, `ToolBudgetSnapshot`, `ToolBudgetShared`):
  semaphores taken and dropped by any number of calls at once; every take, every drop and every
  load of a snapshot is a step of its own.
- **Plans and Goals** (`Plans`, `PlanRuns`, `PlanEffects`, `PlanHost`): approvals and executions over
  tables, transactions, expiry and restart.
- **Plugin packages** (`BitDivision`, `Crc32`, `Crc32Division`, `ZipWriter`, `ZipLayout`, `ZipReader`,
  `ZipNames`, `ZipRoundTrip`, `ZipForeign`, `ZipChecksums`): the archive writer and reader, byte by byte,
  on archives of the writer and on any other bytes, and the checksum, bit by bit.
- **Plugin versions** (`Versions`, `SemVer`, `LooseVersions`): an order on all strings, and the latest version.
- **Search excerpts** (`Lowercase`, `SearchExcerpt`, `SearchSigma`, `SearchSentence`, `SearchBreaks`,
  `SearchLosses`): from a hit in a text in lower case back to the sentence that is shown, with the
  sigma that folds by its place in the word.
- **Scheduler** (`Schedule`, `ScheduleRuns`, `ScheduleAdmissions`): due, missed and admitted occurrences.
- **Context vault** (`ContextVault`, `VaultRuns`, `VaultMarks`): supersedes chains between stored claims,
  and their marks.
- **Plugin sessions** (`PluginSessions`, `PluginRuns`, `PluginMarks`): session rows, origin rows and transcript
  files across imports and deletions that may fail half-way.
- `Text`, `Ordering`, `Iteration` and `Wrappers` hold string operations, three-way comparisons,
  folds and optional values.

`dafny verify dfyconfig.toml` checks everything.

## How the model is built

A class whose fields the host updates in place is a class here (`ReviewStore.Store`,
`ToolBudgetShared.Budget`, `PlanHost.Host`, `Schedule.Scheduler`, `ContextVault.Vault`,
`PluginSessions.Importer`); each of its methods is proved equal to a function of the old state,
and the properties of whole runs are proved about those functions. Loops of the source are
loops of methods here, each proved against an independent specification. Tables are maps, or
sequences of rows where a uniqueness constraint matters; a transaction applies all of its
effects or none. Everything that can fail takes its outcome from an input, and so do clocks,
fresh identifiers and the names of new files. Hashes are functions that are assumed injective
where a property needs it. The folding of single characters and the firing rule of a schedule are function
parameters. Operations on the database happen one after the other, as under the host's lock;
the tool budget alone is concurrent.

## What the proofs found

Properties that one might expect but that the code does not have are stated with the exact
condition under which they hold.

- A rollback that changed a file but could not finish stays active and can take effect again:
  its metadata could not be written, or the write of the old content tore. Exactly then:
  `ReviewRuns.EffectRepeatsIffUnfinished`, with `ReviewRuns.RecordLossRemovesTwice` and
  `ReviewRuns.TornRestoreWritesTwice`.
- The class counts of a snapshot can add up to more than its active count, for two reasons. A
  permit drops its total slot before its class slot, and calls move on between the loads of a
  snapshot. The difference is accounted for exactly: `ToolBudgetSnapshot.SnapshotAddsUp`, with
  `ToolBudgetSnapshot.ClassesCanExceedActive` and
  `ToolBudgetSnapshot.InterleavedCallExceedsActive`.
- An occurrence can be recorded as missed twice, or out of order. Over any run that happens exactly
  when a walk past an occurrence begins at or before one that was already recorded:
  `ScheduleRuns.MissedOnceIffOnwards`. The causes are a schedule without a later firing
  (`ScheduleRuns.SecondRoundRecordsNothing`, `ScheduleRuns.StuckIsRecordedTwice`), a past next time
  that a client writes (`ScheduleRuns.RawTimeIsRecordedTwice`), and a clock that was set back
  (`ScheduleRuns.ClockStepIsRecordedTwice`); without them it never does: `ScheduleRuns.EachMissedOnce`.
- An automatic run is entered under the occurrence that was next before its own call of `due`. If
  that one is older than the grace period, the entry carries the time of an occurrence that was
  just recorded as missed: `ScheduleRuns.RunIsEnteredUnderItsTime`,
  `ScheduleRuns.RunIsEnteredUnderMissedTime`.
- The check on supersedes relationships follows only the first one of each claim, so the whole
  relation can get a cycle. Its first one comes exactly with an accepted edit of a claim that one
  of the new targets leads to over any relationships: `VaultRuns.RoundIffClosing`,
  `VaultRuns.RoundFreeIffNoneClosing`, with the run `VaultRuns.SecondEdgeIsNotFollowed`. While no
  claim supersedes two others there is none: `VaultRuns.NoRoundTrips`.
- A single import whose transcript write breaks off leaves its temporary file, and no later event
  ever removes it: `PluginRuns.LeftoversAreExact`, `PluginRuns.LeftoversStay`. A failed batch
  cleans up: `PluginRuns.FailedBatchLeavesNothing`.
- What is shown for a search hit can have lost the match. A capital sigma folds by its place in its
  word, and both cuts, to the sentence and to the budget, can change that place. The match stays
  exactly when each of its capital sigmas ends a word before the cut if and only if it does behind it:
  `SearchSigma.MatchStays`, with two texts at the host's own budget in
  `SearchLosses.CutBeforeSigmaLosesMatch` and `SearchLosses.CutAfterSigmaLosesMatch`. A query
  without a sigma is never lost: `SearchSentence.SigmaFreeIsShown`.
- The reader of packages never looks at the checksums that the writer stores, so it extracts
  replaced data: `ZipChecksums.ExtractionIgnoresChecksums`, `ZipChecksums.ReplacedBurst`. Only the
  central directory reader of this model compares them:
  `ZipChecksums.DirectoryNoticesTampering`.

## Model

| member | source | states |
|---|---|---|
| LineDiff.DiffOps | crates/host-core/src/review.rs:291-325 | the script is the greedy walk over the finished table; it is refused exactly when the table would exceed the cell limit |
| LineDiff.FillTable | crates/host-core/src/review.rs:291-309 | after the nested loops every cell is the length of a longest common subsequence of the two suffixes, in 32 bits without overflow |
| LineDiff.WalkTable | crates/host-core/src/review.rs:310-325 | the walk over a correct table gives the greedy script |
| LineDiff.LineCounts | crates/host-core/src/review.rs:327-338 | the counts are those of the script, and they account for the difference in length of the two sides |
| LineDiff.DiffIsMinimal | crates/host-core/src/review.rs:291-338 | the script turns before into after, keeps a longest common subsequence, and no other script adds or deletes fewer lines |
| LineDiff.NoLongerCommonSubsequence | crates/host-core/src/review.rs:291-309 | no common subsequence of two suffixes is longer than the table says |
| LineDiff.DeletionsComeFirst | crates/host-core/src/review.rs:310-325 | in every changed block all deletions stand before all insertions |
| Hunks.MakeHunks | crates/host-core/src/review.rs:348-402 | the hunks print the merged ranges: separated, and covering exactly the ops within three places of a change |
| Hunks.ChangedIndices | crates/host-core/src/review.rs:349-356 | exactly the changed ops, in order |
| Hunks.MergeWindows | crates/host-core/src/review.rs:357-372 | merging the windows in place gives ranges that never touch and cover what is near a change |
| Hunks.PrintHunks | crates/host-core/src/review.rs:373-402 | every header holds the line numbers and lengths of its range on both sides |
| Hunks.MergedIsUnique | crates/host-core/src/review.rs:348-402 | there is only one such list of ranges, and each begins and ends with at most three unchanged ops |
| Hunks.HunksRebuildBothFiles | crates/host-core/src/review.rs:348-402 | a patch program that sees only the old file and the hunks, and checks their headers, rebuilds the new file; backwards it rebuilds the old one |
| ReviewStore.Store.PrepareChange | crates/host-core/src/review.rs:215-271 | what is captured before a Write or Edit with a usable session, with hash, copy and size limit; nothing otherwise |
| ReviewStore.Store.FinalizeChange | crates/host-core/src/review.rs:438-494 | the recorded snapshot and the reported status; no record when hashing or writing fails |
| ReviewStore.Store.RollbackChange | crates/host-core/src/review.rs:496-574 | files, snapshots and outcome of every branch of a rollback |
| ReviewRuns.StepKeepsInv | crates/host-core/src/review.rs:215-271 | every capture, edit, record, rollback and removal keeps the metadata true to what the place really held |
| ReviewRuns.RunKeepsInv | crates/host-core/src/review.rs:438-494 | so does every run |
| ReviewRuns.ReachableHasInv | crates/host-core/src/review.rs:215-494 | in every store that a run reaches from one without snapshots, the metadata is true to what the places really held |
| ReviewRuns.GuardIsSound | crates/host-core/src/review.rs:533-550 | the hash guard passes exactly when the place is as the tool left it |
| ReviewRuns.RollbackIsSafe | crates/host-core/src/review.rs:508-574 | a rollback changes only its own place, only if it is as the tool left it, and to exactly the old bytes or absence; refusals change nothing |
| ReviewRuns.AnswerFollowsFacts | crates/host-core/src/review.rs:508-574 | in every reachable store the answer of a rollback, told from what its place held before and after the tool and holds now; so it succeeds exactly when the place is as the tool left it and the disk does its part |
| ReviewRuns.MintedIsPlain | crates/host-core/src/review.rs:133-138 | the ids that the host makes, hexadecimal digits in groups with hyphens, can name a snapshot |
| ReviewRuns.OtherKeysFail | crates/host-core/src/review.rs:133-151 | a key that is empty or has any other character fails, with files and snapshots unchanged |
| ReviewRuns.UserEditsSurvive | crates/host-core/src/review.rs:533-550 | a later edit by the user is never overwritten; a rollback that could be done answers with a conflict |
| ReviewRuns.RolledBackAtMostOnce | crates/host-core/src/review.rs:508-574 | over any run each snapshot is rolled back successfully at most once |
| ReviewRuns.EffectRepeatsIffUnfinished | crates/host-core/src/review.rs:495-574 | an effect can be repeated exactly when the metadata could not be written or the restoring write tore |
| ReviewRuns.RecordLossRemovesTwice | crates/host-core/src/review.rs:552-574 | a run, for any plain session and minted id, in which one snapshot removes a file twice |
| ReviewRuns.TornRestoreWritesTwice | crates/host-core/src/review.rs:495-506 | such a run in which one snapshot overwrites a file twice |
| ReviewRuns.UndoChainRestores | crates/host-core/src/review.rs:508-574 | undoing any chain of reversible Write and Edit calls under plain keys, last first, gives back the original files, each rollback reporting success |
| ToolBudget.EffectAllowed | crates/host-core/src/tool_budget.rs:104-148 | in a reachable state no step takes a permit that is not there or undoes a count that was not made |
| ToolBudgetRuns.StepKeepsInv | crates/host-core/src/tool_budget.rs:104-250 | every step keeps: available plus held is the maximum of each semaphore, the counter is waiters plus rejections not undone, and everybody holds a prefix of the order |
| ToolBudgetRuns.ReachableHasInv | crates/host-core/src/tool_budget.rs:104-250 | this holds in every reachable state, failed fast paths and timeouts included |
| ToolBudgetRuns.Caps | crates/host-core/src/tool_budget.rs:8-14 | holders never exceed a semaphore's size, at most 64 calls wait, and the counter splits into waiters and rejections |
| ToolBudgetNames.OneMutationPerSessionHoldsGlobals | crates/host-core/src/tool_budget.rs:24-35 | over any run, of the calls of the tools Write and Edit in one session at most one holds a global permit, waiting or running |
| ToolBudgetNames.CapsByName | crates/host-core/src/tool_budget.rs:8-35 | over any run at most sixteen calls are admitted, four of a session, eight of the reading tools, two of Write and Edit and one of those in a session, four of Bash and ProcessStart, four of all other tools; a running call has every permit of its tool; at most 64 wait, and only a call that found 64 is turned away |
| ToolBudgetNames.RunsAtOnceIffRoom | crates/host-core/src/tool_budget.rs:104-124 | a call that nobody interrupts runs at once exactly when there is room for its tool, and otherwise holds nothing; no other call is touched |
| ToolBudgetNames.WaitsIffQueueHasRoom | crates/host-core/src/tool_budget.rs:126-130 | a call that missed waits exactly when fewer than 64 calls are counted |
| ToolBudgetNames.EndsAsItWent | crates/host-core/src/tool_budget.rs:126-148 | over any run a call that ends as done was running, and one that ends without its permits waited out its time or found the queue full |
| ToolBudgetSnapshot.SnapshotAddsUp | crates/host-core/src/tool_budget.rs:150-161 | with any steps of calls between its loads: the class counts differ from the active count by the permits half dropped and half taken when it began and by the class permits taken and dropped before their class was loaded; so exactly when they exceed it |
| ToolBudgetSnapshot.FrozenSnapshotAddsUp | crates/host-core/src/tool_budget.rs:150-161 | the same for a snapshot that nothing interrupts |
| ToolBudgetSnapshot.LoadsStayInRange | crates/host-core/src/tool_budget.rs:150-161 | no count of a snapshot is negative or above its maximum |
| ToolBudgetSnapshot.LoadsCountHolders | crates/host-core/src/tool_budget.rs:150-161 | each load is the number of calls that hold such a permit, or are counted, at that moment |
| ToolBudgetSnapshot.ClassesCanExceedActive | crates/host-core/src/tool_budget.rs:60-65 | a run in which class counts exceed the active count, by the order of the permit's fields |
| ToolBudgetSnapshot.InterleavedCallExceedsActive | crates/host-core/src/tool_budget.rs:150-161 | a run in which they do without any permit half dropped, by a call between two loads |
| ToolBudgetRuns.NoDeadlock | crates/host-core/src/tool_budget.rs:188-250 | while a call is unfinished, some call can take its next step |
| ToolBudgetRuns.StepMeasure | crates/host-core/src/tool_budget.rs:104-250 | every step but an arrival lowers a measure |
| ToolBudgetRuns.Drains | crates/host-core/src/tool_budget.rs:104-250 | without arrivals every run is bounded and stops only when every call has finished |
| ToolBudgetShared.Budget.SessionSemaphore | crates/host-core/src/tool_budget.rs:172-178 | the session's semaphore is made once |
| ToolBudgetShared.Budget.SessionMutationSemaphore | crates/host-core/src/tool_budget.rs:180-186 | so is the one for its mutations |
| ToolBudgetShared.Budget.TryTake | crates/host-core/src/tool_budget.rs:188-210 | a permit is taken exactly when there is one |
| ToolBudgetShared.Budget.Give | crates/host-core/src/tool_budget.rs:60-65 | one permit is put back |
| ToolBudgetShared.Budget.Act | crates/host-core/src/tool_budget.rs:104-148 | one atomic action on the shared fields is the effect of the machine's step |
| ToolBudgetShared.Budget.LoadCounter | crates/host-core/src/tool_budget.rs:150-161 | one load of a snapshot |
| ToolBudgetShared.Budget.Move | crates/host-core/src/tool_budget.rs:188-250 | one atomic action of a call is one step of the machine |
| Plans.FirstFree | crates/host-core/src/plans.rs:375-421 | the first suffix whose name is free, and none within the limit otherwise |
| PlanHost.Host.ExpirePendingApprovals | crates/host-core/src/plans.rs:160-198 | exactly the overdue approvals expire, with one audit record each |
| PlanHost.Host.EnterPlan | crates/host-core/src/plans.rs:586-642 | entering changes the session's mode under the stated conditions only |
| PlanHost.Host.PublishArtifact | crates/host-core/src/plans.rs:375-421 | the artifact is a new file that holds the plan; no other file changes |
| PlanHost.Host.SubmitPlan | crates/host-core/src/plans.rs:644-752 | every branch of a submission |
| PlanHost.Host.ResolvePlan | crates/host-core/src/plans.rs:808-949 | every branch of a decision |
| PlanHost.Host.CommitDecision | crates/host-core/src/plans.rs:866-944 | the transaction of a decision: mode, permission, row and audit together |
| PlanHost.Host.AbortSession | crates/host-core/src/plans.rs:951-995 | the pending approvals of a session are interrupted |
| PlanHost.Host.ClaimExecution | crates/host-core/src/plans.rs:1021-1055 | a queued execution starts, any other is refused |
| PlanHost.Host.FinishExecution | crates/host-core/src/plans.rs:1057-1124 | an execution ends; repeating its end changes nothing |
| PlanHost.Host.ConfigureSession | crates/host-core/src/plans.rs:511-583 | the gate and the write of a session's configuration |
| PlanHost.Host.BootMaintenance | crates/host-core/src/db.rs:594-697 | a restart interrupts what was pending or active |
| PlanRuns.EveryStep | crates/host-core/src/plans.rs:511-1124 | every operation keeps the invariant and moves each proposal along at most one edge by its expiry and one by its own transaction |
| PlanRuns.ReachableHasInv | crates/host-core/src/plans.rs:547-642 | in every reachable database a session has at most one pending approval and one active execution, its mode agrees with them, and never both |
| PlanRuns.ProposalsMoveForward | crates/host-core/src/plans.rs:900-994 | a proposal keeps its identity, never goes back or leaves an end state, its version stays at most four, and it has one audit record per version |
| PlanRuns.ExecutedAtMostOnce | crates/host-core/src/plans.rs:1021-1124 | over any run each execution is claimed at most once and finished at most once |
| PlanRuns.DecidedIffFits | crates/host-core/src/plans.rs:808-949 | the exact condition under which a pending proposal of a reachable database is decided; an active execution or another mode never stands against it, and a refusal leaves only what the expiry left |
| PlanRuns.DecisionsAreSound | crates/host-core/src/plans.rs:808-949 | decisions fall before the deadline; an approval needs an artifact that still holds the submitted plan, puts the session into Agent mode with the permission it brings and queues a new execution; a rejection leaves all sessions alone; beyond expired approvals no other row changes |
| PlanRuns.DecisionsRepeat | crates/host-core/src/plans.rs:840-866 | repeating a decision after any run names the same execution and makes no transition |
| PlanEffects.DecisionsAreAnswered | crates/host-core/src/plans.rs:808-944 | in every reachable database a decision is answered by the first thing that stands against it: its words, the deadline, an earlier decision, the version, the workspace, the artifact, the deadline again, or storage |
| PlanEffects.SessionsKeepWhatWasBrought | crates/host-core/src/plans.rs:511-944 | over any run the permission of a session is the one brought by its last approval or configuration that named one, or by its creation; its mode is the one of its last entry, approval, configuration or creation |
| PlanEffects.ConfiguredIffAtRest | crates/host-core/src/plans.rs:511-583 | a configuration that would change a session is refused exactly while an approval is awaited, an execution is queued or running, or a turn runs; otherwise the session becomes what was asked for |
| PlanEffects.EntersIff | crates/host-core/src/plans.rs:586-642 | the exact condition for entering plan or goal mode |
| PlanEffects.SubmitsIffFits | crates/host-core/src/plans.rs:644-707 | the exact condition under which a submission is accepted |
| PlanEffects.SubmissionWritten | crates/host-core/src/plans.rs:704-752 | an accepted submission adds one pending row, due half an hour later, whose artifact is the one new file |
| PlanEffects.ClaimsIffQueued | crates/host-core/src/plans.rs:1021-1055 | an execution is claimed exactly when it is queued, and then runs |
| PlanEffects.EndsAsNamed | crates/host-core/src/plans.rs:1057-1124 | "completed" completes and "interrupted" interrupts an execution that is under way; an ended one accepts only its own end again |
| PlanEffects.AbortsAwaited | crates/host-core/src/plans.rs:951-995 | an abort interrupts exactly the awaited approvals of its session |
| PlanEffects.RestartInterrupts | crates/host-core/src/db.rs:594-697 | a restart interrupts every pending approval and every execution under way, leaves no turn running and touches nothing else |
| PlanEffects.TurnBeginsIffIdle | crates/host-core/src/sessions.rs:2639-2679 | a turn begins exactly when its session is there and has none running |
| PlanRuns.RebootStep | crates/host-core/src/db.rs:617-697 | after a restart every proposal has reached an end state |
| Crc32.Crc32 | crates/host-core/src/plugins.rs:3105-3115 | the loop computes the polynomial division of the checksum |
| Crc32.DivideByte | crates/host-core/src/plugins.rs:3109-3112 | eight masked shifts are eight bits of the division |
| Crc32.MaskSelects | crates/host-core/src/plugins.rs:3110-3111 | the arithmetic mask picks the polynomial exactly when the low bit is set |
| Crc32.BitStepUndone | crates/host-core/src/plugins.rs:3109-3112 | a bit step can be undone |
| Crc32.BitUnstepUndone | crates/host-core/src/plugins.rs:3109-3112 | and every state is reached by one: it is a bijection |
| Crc32.ChecksumAffine | crates/host-core/src/plugins.rs:3105-3115 | the difference of two checksums depends only on the difference of the inputs |
| Crc32.ReachesZero | crates/host-core/src/plugins.rs:3105-3115 | over at most four bytes the register reaches zero exactly from their little-endian word |
| Crc32.BurstsAreDetected | crates/host-core/src/plugins.rs:3105-3115 | inputs of one length that differ only inside four consecutive bytes have equal checksums only if they are equal |
| Crc32Division.ChecksumIsRemainder | crates/host-core/src/plugins.rs:3105-3115 | the checksum is the complemented remainder of a long division of the message bits, begun with ones, by the polynomial with the powers 32, 26, 23, 22, 16, 12, 11, 10, 8, 7, 5, 4, 2, 1 and 0 |
| ZipWriter.MakeZip | crates/host-core/src/plugins.rs:2197-2256 | the loop and its running offset give local parts, central headers and end record in order |
| ZipWriter.PutEntry | crates/host-core/src/plugins.rs:2202-2244 | one turn appends a file's local part and a central header with its offset |
| ZipLayout.LocalReads | crates/host-core/src/plugins.rs:2205-2219 | every field of a local header stands where section 4.3.7 of the APPNOTE puts it |
| ZipLayout.CentralReads | crates/host-core/src/plugins.rs:2221-2240 | so does every field of a central header, section 4.3.12 |
| ZipLayout.EndReads | crates/host-core/src/plugins.rs:2245-2255 | and of the end record, section 4.3.16 |
| ZipLayout.DirectoryIsComplete | crates/host-core/src/plugins.rs:2197-2256 | a reader that follows the central directory finds exactly the files, each local header where its offset points, with the stored checksum of its data |
| ZipReader.SafeJoinStays | crates/host-core/src/plugins.rs:2371-2389 | an accepted name leads only to plain components below the destination |
| ZipReader.SpelledPathJoins | crates/host-core/src/plugins.rs:2371-2389 | every path of plain components is reached by the name that spells it |
| ZipForeign.EveryNameJoins | crates/host-core/src/plugins.rs:2371-2389 | what every name means: absolute with a colon or a leading separator, a traversal with a part `..`, and its naming parts otherwise |
| ZipNames.Utf8IffEncoded | crates/host-core/src/plugins.rs:2279-2280 | a name passes as text exactly when it is the UTF-8 encoding of Unicode scalar values |
| ZipReader.ReadEntry | crates/host-core/src/plugins.rs:2266-2293 | the checks of a local header in their order |
| ZipReader.Extract | crates/host-core/src/plugins.rs:2258-2312 | the loop is the walk over local headers, and what was written before an error stays |
| ZipForeign.StopsAtSomeHeader | crates/host-core/src/plugins.rs:2258-2312 | for any bytes, an extraction comes to a header after which it goes no further, ends as the bytes of that header say, and leaves exactly what the entries before it made |
| ZipForeign.CompressedIsRefused | crates/host-core/src/plugins.rs:2285-2287 | where the walk comes to an entry whose two bytes at offset 8 are not both zero, it fails and leaves exactly what the entries before it made |
| ZipForeign.FilesComeFromStoredEntries | crates/host-core/src/plugins.rs:2258-2312 | for any bytes, every file after an extraction was there before or is the data of a walked entry of method 0 whose name leads to it |
| ZipForeign.DirectoriesAreMade | crates/host-core/src/plugins.rs:2299-2301 | an entry whose name ends in a slash makes the directories on its path and no file, or fails because a file is in the way |
| ZipForeign.FilesArePlaced | crates/host-core/src/plugins.rs:2302-2308 | any other entry makes the directories above its path and its file, or fails because of a file in the way or a directory at its path |
| ZipRoundTrip.ArchiveIsItsFiles | crates/host-core/src/plugins.rs:2197-2312 | for any names, extracting an archive does what placing its files one by one does, failures and leftovers included |
| ZipRoundTrip.PlaceOne | crates/host-core/src/plugins.rs:2299-2308 | a file comes to stand beside earlier ones exactly when its name spells a file and its path is apart from theirs |
| ZipRoundTrip.RoundTrip | crates/host-core/src/plugins.rs:2197-2312 | all files of a list come back exactly when it is within the limits and its names are well formed and apart, and then nothing else is there |
| ZipChecksums.ExtractionIgnoresChecksums | crates/host-core/src/plugins.rs:2258-2312 | archives that differ only in the checksums of the walked local headers are extracted alike |
| ZipChecksums.TamperedIsExtracted | crates/host-core/src/plugins.rs:2258-2312 | an archive with replaced data bytes is extracted as the replaced files would be, failures and leftovers included |
| ZipChecksums.TamperedComesBack | crates/host-core/src/plugins.rs:2258-2312 | the replaced data comes back without a failure whenever the files themselves would |
| ZipChecksums.DirectoryNoticesTampering | crates/host-core/src/plugins.rs:2221-2240 | a reader of the central directory refuses replaced data exactly when its checksum differs |
| ZipChecksums.ReplacedBurst | crates/host-core/src/plugins.rs:2197-2312 | data replaced within four consecutive bytes is always refused by that reader and always extracted by the package reader |
| ZipChecksums.PackageWithOtherByte | crates/host-core/src/plugins.rs:2258-2312 | such a package of one byte |
| Versions.CompareIsTotalPreorder | crates/host-core/src/plugins.rs:1701-1779 | the comparison is reversal-symmetric and transitive on all strings |
| Versions.LatestIsGreatest | crates/host-core/src/plugins.rs:1694-1699 | the latest version is the last of the greatest that are not yanked; there is none exactly when all are |
| Versions.LatestIgnoresOrder | crates/host-core/src/plugins.rs:1685-1699 | any order of the catalog gives the same latest version, up to equal ones |
| SemVer.RenderParses | crates/host-core/src/plugins.rs:1719-1741 | the text of a semantic version is parsed back into its numbers and identifiers |
| SemVer.AgreesWithSemVer | crates/host-core/src/plugins.rs:1744-1779 | on well-formed versions the comparison is the precedence of section 11 of Semantic Versioning 2.0.0 |
| LooseVersions.Blanks | crates/host-core/src/plugins.rs:1720-1720 | spaces, tabs and line ends are trimmed, printable ASCII signs are not |
| LooseVersions.LooseParses | crates/host-core/src/plugins.rs:1719-1741 | blanks around a version, a leading `v` and build metadata are dropped; one to three numbers are parsed, more are no version |
| LooseVersions.LooseTextsAgree | crates/host-core/src/plugins.rs:1701-1779 | such texts compare by the precedence of the versions they stand for, missing numbers being zero, and come after everything that is no version |
| LooseVersions.OthersCompareAsText | crates/host-core/src/plugins.rs:1701-1710 | texts that are no versions compare by the first sign that differs |
| SearchExcerpt.FindRange | crates/host-core/src/session_search.rs:133-154 | a hit of the text in lower case, final sigmas included, and the loop over single characters give the characters that hold both ends of the first hit |
| SearchExcerpt.WalkToHit | crates/host-core/src/session_search.rs:139-153 | so does its walk for any hit |
| SearchExcerpt.RangeIffContained | crates/host-core/src/session_search.rs:133-138 | there is a range exactly when the text in lower case contains the query in lower case |
| SearchExcerpt.RangeIsSmallest | crates/host-core/src/session_search.rs:133-154 | the range is the smallest one whose folding covers the first hit |
| SearchSigma.MatchStays | crates/host-core/src/session_search.rs:133-219 | where the characters of a match stand in another text, the match stands there exactly when each of its capital sigmas ends a word in both texts or in neither |
| SearchSigma.SigmaFreeAgrees | crates/host-core/src/session_search.rs:133-219 | the match of a query without a sigma stands wherever its characters do |
| SearchSentence.ExcerptKeepsMatch | crates/host-core/src/session_search.rs:205-219 | an excerpt holds the characters of the match and is no longer than its bound; the match is still one exactly when its sigmas agree |
| SearchBreaks.WindowMeans | crates/host-core/src/session_search.rs:205-209 | an excerpt begins a third of its budget before the match, or at the beginning of the text, and has the whole budget unless the text ends or the match is longer |
| SearchBreaks.ExcerptMeans | crates/host-core/src/session_search.rs:210-218 | an excerpt is its window, with an ellipsis on each side where the text goes on |
| SearchSentence.FindSentence | crates/host-core/src/session_search.rs:163-195 | the loop finds the last break before the match and the first one behind it |
| SearchSentence.SentenceIsUnique | crates/host-core/src/session_search.rs:163-195 | only one sentence fits that description |
| SearchBreaks.SentenceMeans | crates/host-core/src/session_search.rs:163-195 | the sentence lies between beginnings that are told by their signs alone: behind a line end, or behind an end sign with all that trails it, a full stop counting only before a blank, a closing sign or the end |
| SearchBreaks.InnerStopsEndNothing | crates/host-core/src/session_search.rs:175-180 | a full stop inside a word or a number ends nothing |
| SearchSentence.RangeInside | crates/host-core/src/session_search.rs:158-202 | a part of the text that holds the match has the same first match while no sigma up to its end differs |
| SearchSentence.SentenceKeepsMatch | crates/host-core/src/session_search.rs:196-202 | the trimmed sentence holds the characters of the match; the match is one there exactly when its sigmas agree, and then in what is shown when those of the second cut agree |
| SearchSentence.SigmaFreeIsShown | crates/host-core/src/session_search.rs:158-219 | a query without a sigma is in whatever is shown of a sentence around its match |
| SearchSentence.SentenceExcerpt | crates/host-core/src/session_search.rs:158-202 | what is shown comes from the sentence around the match, within the bound, and contains a query without a sigma, or one whose sigmas agree at both cuts |
| SearchLosses.CutBeforeSigmaLosesMatch | crates/host-core/src/session_search.rs:158-202 | a text whose sentence begins behind the rest of the sigma's word and no longer contains the query |
| SearchLosses.CutAfterSigmaLosesMatch | crates/host-core/src/session_search.rs:158-202 | a text whose sentence ends before the rest of the sigma's word and no longer contains the query |
| Schedule.Scheduler.RecordMissed | crates/host-core/src/scheduled.rs:507-527 | one more missed row, then all but the newest fifty are only counted |
| Schedule.Scheduler.DueOne | crates/host-core/src/scheduled.rs:532-553 | the loop for one scheduled item ends and equals the walk over its occurrences |
| Schedule.Scheduler.Due | crates/host-core/src/scheduled.rs:530-555 | every item goes through its walk once; the admitted ones are listed in order |
| Schedule.Scheduler.Run | crates/host-core/src/rpc/mod.rs:2609-2698 | every branch of a requested run, with the effect of its call of `due` on all items |
| ScheduleRuns.DueWalksInOrder | crates/host-core/src/scheduled.rs:530-555 | for any schedule, occurrences are passed in order and recorded once; the round stops at the first one that is to come, running, or fresh without a running row, and admits it exactly when it is due and no row is running, or it gets stuck |
| ScheduleRuns.SecondRoundRecordsNothing | crates/host-core/src/scheduled.rs:549-551 | a second round records nothing exactly when the first did not get stuck |
| ScheduleRuns.StuckIsRecordedTwice | crates/host-core/src/scheduled.rs:549-551 | an occurrence without a successor is recorded again |
| ScheduleRuns.MissedRowsAddUp | crates/host-core/src/scheduled.rs:507-527 | over any run rows plus counter are all recorded occurrences; the rows are at most fifty and the newest |
| ScheduleRuns.MissedOnceIffOnwards | crates/host-core/src/scheduled.rs:490-555 | over any run, recorded occurrences strictly increase exactly when every walk past an occurrence begins behind all recorded before |
| ScheduleRuns.EachMissedOnce | crates/host-core/src/scheduled.rs:490-555 | so they do with a clock that does not run backwards, schedules that always fire again, and edits that do not bring their own next time |
| ScheduleAdmissions.RunsMoveOn | crates/host-core/src/rpc/mod.rs:2609-2698 | an automatic run that starts, or finds its project or model unavailable, moves the item on to the first firing after the time of the run; any other run leaves the next time where its round put it |
| ScheduleAdmissions.SettledOnceIffOnwards | crates/host-core/src/rpc/mod.rs:2622-2698 | over any run, the occurrences recorded as missed or used up by a run strictly increase exactly when every event that settles any begins behind all settled before |
| ScheduleAdmissions.EachSettledOnce | crates/host-core/src/rpc/mod.rs:2622-2698 | so they do with an orderly clock, rule and edits, and nothing settled is ever let through again |
| ScheduleRuns.RawTimeIsRecordedTwice | crates/host-core/src/scheduled.rs:164-175 | a run in which a client writes a past next time |
| ScheduleRuns.ClockStepIsRecordedTwice | crates/host-core/src/scheduled.rs:153-160 | a run in which the next time is computed from a clock that was set back |
| ScheduleRuns.RunIsEnteredUnderItsTime | crates/host-core/src/rpc/mod.rs:2684-2694 | an automatic run is entered under the admitted occurrence exactly when the next time stored before the call is within the grace period |
| ScheduleRuns.RunIsEnteredUnderMissedTime | crates/host-core/src/rpc/mod.rs:2684-2694 | such a run that is entered under an occurrence just recorded as missed |
| ContextVault.Vault.WalkChain | crates/host-core/src/context_vault.rs:125-134 | the inner walk ends on any graph, cyclic ones included |
| ContextVault.Vault.ValidateRelationships | crates/host-core/src/context_vault.rs:120-137 | the first failing check of the first failing relationship |
| ContextVault.Vault.Create | crates/host-core/src/context_vault.rs:166-179 | a checked claim is inserted and its targets are marked; a duplicate changes nothing |
| ContextVault.Vault.Update | crates/host-core/src/context_vault.rs:184-195 | a checked edit replaces the relationships of a claim of the project |
| ContextVault.Vault.Review | crates/host-core/src/context_vault.rs:197-205 | a review changes the state of a claim of the project and nothing else |
| ContextVault.Vault.Delete | crates/host-core/src/context_vault.rs:182-182 | only a claim of the project is removed |
| ContextVault.Vault.ImportApply | crates/host-core/src/context_vault.rs:254-261 | entries are created one by one without relationships, and the new ones are counted; a refused entry ends the import with an error |
| VaultRuns.CheckMeansAllowed | crates/host-core/src/context_vault.rs:120-137 | the check passes exactly when every target is another claim of the project whose chain neither returns to the owner nor breaks off |
| VaultRuns.ErrorsMean | crates/host-core/src/context_vault.rs:120-137 | which error a relationship that is not allowed gives |
| VaultRuns.LinksStaySound | crates/host-core/src/context_vault.rs:166-195 | over any run the first-supersedes graph is acyclic and relationships stay inside one project |
| VaultRuns.RoundIffClosing | crates/host-core/src/context_vault.rs:120-195 | a step gives the whole supersedes relation its first cycle exactly when it is an accepted edit of a claim that one of its new targets leads to |
| VaultRuns.RoundFreeIffNoneClosing | crates/host-core/src/context_vault.rs:166-195 | over any run there is never a cycle exactly when no such edit was accepted |
| VaultRuns.NoRoundTrips | crates/host-core/src/context_vault.rs:120-137 | while no claim supersedes two others, the whole relation is acyclic |
| VaultRuns.SecondEdgeIsNotFollowed | crates/host-core/src/context_vault.rs:130-132 | a run from the empty vault whose last edit is accepted and closes a cycle over a second supersedes relationship |
| VaultMarks.CreateAnswers | crates/host-core/src/context_vault.rs:166-180 | a new claim is refused exactly for an invalid text or a relationship that is not allowed; one that is accepted marks exactly the claims it supersedes |
| VaultMarks.UpdateAnswers | crates/host-core/src/context_vault.rs:184-195 | an edit is answered by the first thing that stands against it, and otherwise replaces relationships and, if it brings one, the mark |
| VaultMarks.MarkedByLast | crates/host-core/src/context_vault.rs:166-205 | over any run a claim is marked as superseded exactly when the last event that gave it a mark did so: a new claim that supersedes it, an edit or a review of its own |
| VaultMarks.ProjectsStayApart | crates/host-core/src/context_vault.rs:120-205 | over any run an event of one project changes, adds and removes no claim of another |
| PluginSessions.Importer.WriteTranscript | crates/host-core/src/transcripts.rs:723-775 | a transcript is replaced as a whole or not at all |
| PluginSessions.Importer.RemoveSessionFiles | crates/host-core/src/transcripts.rs:875-895 | the temporary file and the transcript go, each unless its own removal fails silently |
| PluginSessions.Importer.InsertRows | crates/host-core/src/plugin_sessions.rs:448-493 | session and origin row are inserted unless a constraint refuses them |
| PluginSessions.Importer.WriteAndIndexOne | crates/host-core/src/plugin_sessions.rs:434-500 | write, then index, then clean up after a failed index |
| PluginSessions.Importer.Import | crates/host-core/src/plugin_sessions.rs:502-535 | a known key returns its session, an unknown one is imported |
| PluginSessions.Importer.ImportSkipping | crates/host-core/src/plugin_sessions.rs:588-626 | a batch in skip mode is its single imports in order |
| PluginSessions.Importer.CheckBatch | crates/host-core/src/plugin_sessions.rs:628-660 | the checks of a batch in fail mode |
| PluginSessions.Importer.WriteBatch | crates/host-core/src/plugin_sessions.rs:682-699 | all transcripts are written, or those that were are removed again, each unless its removal fails |
| PluginSessions.Importer.IndexBatch | crates/host-core/src/plugin_sessions.rs:700-741 | all rows are inserted, or none |
| PluginSessions.Importer.ImportAll | crates/host-core/src/plugin_sessions.rs:628-756 | every branch of a batch in fail mode |
| PluginSessions.Importer.Delete | crates/host-core/src/plugin_sessions.rs:1110-1154 | trash and purge of a session of the plugin |
| PluginRuns.BatchIsAllOrNothing | crates/host-core/src/plugin_sessions.rs:628-756 | a batch in fail mode succeeds exactly when its checks pass, all writes work and the transaction commits; then every session is there with rows and transcript, otherwise no row changes and the only new files are those it wrote and could not remove |
| PluginRuns.FailedBatchLeavesNothing | crates/host-core/src/plugin_sessions.rs:683-741 | a failed batch whose removals work leaves rows, transcripts and temporary files as they were |
| PluginRuns.RowsAndFilesStayInStep | crates/host-core/src/plugin_sessions.rs:434-756 | over any run session and origin rows are paired one to one, keys are unique, and every session has the transcript its index was made from |
| PluginRuns.LeftoversAreExact | crates/host-core/src/plugin_sessions.rs:434-756 | over any run the transcripts without a session are exactly those whose removal failed, and the temporary files exactly those of writes that broke off and were not cleaned up |
| PluginRuns.LeftoversStay | crates/host-core/src/plugin_sessions.rs:441-500 | no later event removes a leftover |
| PluginRuns.ReimportReturnsSession | crates/host-core/src/plugin_sessions.rs:502-535 | importing a key again after any run returns its session and changes nothing, until that session is purged |
| PluginMarks.ImportAnswers | crates/host-core/src/plugin_sessions.rs:434-535 | a refused item fails, a known key returns its session, and a new one is imported exactly when its transcript is written and its rows are indexed |
| PluginMarks.InTrashIffTrashed | crates/host-core/src/plugin_sessions.rs:1110-1154 | over any run a session is in the trash exactly when the plugin that it came from moved it there |
| PluginMarks.PurgedIsGone | crates/host-core/src/plugin_sessions.rs:1128-1141 | purging removes the session, its origin and, unless that fails, its files; only its own plugin can do that |
| PluginMarks.PluginsStayApart | crates/host-core/src/plugin_sessions.rs:434-1154 | over any run an event of one plugin leaves the sessions of every other plugin as they are |

## Left out

- Review previews: the text of hunk headers, the limits on binary and large files and the cap on shown hunks are formatting around the modelled hunks.
- Review paths: resolving a path inside the workspace is an input; creating directories, permissions and links are not modelled.
- ToolBudgetRuns.Drains: does not model the order in which tokio serves waiters, nor a call that is dropped from outside while it waits, because the host only ends a wait by its own timeout.
- Plan artifacts: the slug and the time stamp in an artifact's name are an input, and so is the check on links in its directory; removing the artifact of a failed submission is taken to succeed.
- Plan rows from before approvals had deadlines, deleted sessions, and the age limit of the audit log are not modelled.
- ZipWriter.MakeZip: takes sums that exceed 32 bits to wrap, as in a release build; a debug build would stop instead. All round-trip results need no such sum.
- ZipReader.Extract: models a Unix destination that exists and is only written by the extraction; letter case, reserved names, NUL bytes and failures of the disk are not modelled.
- SearchExcerpt.FindRange: counts characters of the text in lower case where the source counts bytes, which orders offsets the same way. The folding of single characters, and which of them are cased or case-ignorable, are parameters.
- Schedule: calendars and time zones are behind the firing rule; an edit keeps the next time, computes it anew from the clock, or takes it from the client; failures between two statements of `due` are not modelled.
- ContextVault: the limits on claim texts and the detection of duplicates and overlaps are an input; canonical project names are plain strings; of a claim's states only whether it is superseded is modelled.
- PluginSessions: payload limits, message checks, and the renaming of tool call identifiers are behind one accepted or refused item; the revisions and in-flight files of a purged session are not modelled.
- Repairing stored project paths in the database and normalising them: the rules are not idempotent on paths that end in a space, and a model would add a single table loop.
- Provider settings, notifications, scratch files, MCP checks, the permission table, the marketplace's network access, backups, migrations, full-text search and every user interface: input and output, or policy tables with little to prove.
