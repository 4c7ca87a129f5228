# Verification of LotaGate Desktop

A Dafny model of the parts of the desktop application whose correctness is hardest to see from one
function: the checkpoint journal and its undo, the activity log and the merging of streamed text, the
VM scheduler with its environment pool, and the cron search; and of four smaller algorithms, the line
diff of a file write, the framing of line-based channels, chunked uploads, and paging. `dafny verify
dfyconfig.toml` checks everything.

## What is modelled

**Workspace checkpoints** (`Checkpoint*.dfy`). A workspace is a flat map from path to entry. A mutating
host request is bracketed by two scans, whose exact diff is stored as mutations and content-addressed
objects and journalled, the last record of an identifier winning. `CheckpointDiff` proves the diff exact
and invertible. `CheckpointUndo` says what undo does with any failing read or write and any missing object,
whether the failure is thrown or swallowed, when it succeeds, and what success and failure mean.
`CheckpointStore` holds journal, compaction and garbage collection. `CheckpointRuns` puts them together: a state
machine whose steps are the critical sections of the per-workspace queue, for any number of interleaved sessions.
`CheckpointRetention` says what a collection may not drop, and `CheckpointFates` what becomes of each turn over a run.
`CheckpointService` is the service itself, each method proved to take the step of that machine.

**Streamed text** (`Periodicity.dfy`, `StreamText.dfy`). Strings are sequences of UTF-16 code units; the
white-space and punctuation classes are parameters. Collapsing is specified without the prefix table, as
the primitive fragment a text repeats, and the in-place table is proved to find it.

**Activity log** (`ActivityLog*.dfy`, `TornWrites.dfy`, `ActivityPaging.dfy`). Each operation is given
twice, as what it does to a plain list and as the records it appends. `ActivityLog` has the records, their
replay and both forms of the operations; `ActivityLogMeanings` says what they do in terms of tasks, turns, segments
and texts; `ActivityLogTurns` has the completion of a turn, the one operation
whose records can stand for something else than was done, with the exact condition for that. `ActivityLogRuns`
compares the replayed records with the list over all runs, `ActivityLogOrder` says which runs of calls meet
the condition, and `ActivityLogInputs` and `ActivityLogTexts` show runs that do not. `ActivityLogStore` is the
store with its counters, cache, compaction, repair and failures. `TornWrites` works on bytes, for any record
format in which no proper prefix of a record, and no two records on one line, can be read as a record;
`ActivityLogTears` puts it under the log, for runs of operations and crashes, and `ActivityLogCodec.FormatExists`
gives such a format for all the log's records.

**VM sandbox** (`Vm*.dfy`). Every stretch of code between two awaits is one atomic step; callers that were
woken but have not resumed are part of the state. The scheduler and the pool are proved separately, and
`VmProvider` composes them: the pool's rule that an operation's key is not in progress twice is what the
scheduler's serialisation provides. `VmCancellation` and `VmGuests` say who is started, who is rejected, and what becomes
of the environments over a run. The classes `Scheduler` and `Manager` carry the fields of the source.

**Schedules** (`Calendar.dfy`, `CronSearch.dfy`). The proleptic Gregorian calendar of section 21.4.1 of
ECMA-262, in zones with a fixed offset of whole seconds.

## Where the code differs from what one might expect

- `unlink` errors are swallowed when undo removes a file, so an undo can be reported as undone with the
  file still there. `CheckpointUndo.UndoneIsReverted` gives the exact condition.
- Read errors are swallowed when undo looks at a path, so a file it cannot read counts as absent: no conflict
  is seen, and the file is overwritten by an undo that succeeds and removed by one that fails
  (`CheckpointUndo.SwallowedReadLosesFile`). A failed undo leaves the workspace as it was exactly when no
  tracked path that exists was read as absent (`CheckpointUndo.FailureKeepsFiles`), and under the same condition
  a successful one overwrites nothing but what the record left (`CheckpointUndo.UndoneWasAsLeft`).
- Day-of-week ranges ending in 7: `0-7` is Sunday only and `1-7` is refused.
  `CronSearch.SundayEndsNoRange` gives the exact condition.
- The normalisation on reading can shorten a text that was already reported
  (`ActivityLogTexts.ReadBackShorter`). The log itself still holds the longer text; the first snapshot that
  takes in a collapsible text is where the two begin to differ (`ActivityLogRuns.RunKeepsTexts`). Where nothing
  else is lost, a reader sees the reported texts throughout exactly when none of them is ever collapsible
  (`ActivityLogRuns.RunReadsList`).
- Completing a segment writes any identifier, but a record with an empty one is refused when it is read. The
  completion is lost at the next read, and if an activity is appended before that, every later read fails
  (`ActivityLogInputs.UnnamedSegmentSpoilsLog`); `ActivityLogRuns.RunIsSound` says that nothing else spoils a log.
- Completing a turn marks the first activity of each segment in the log but each unfinished activity in
  memory; they differ when a segment identifier is shared. Replacing a response in its own segment and then in
  another one is enough for that, because the second replacement puts the first one back in progress
  (`ActivityLogInputs.SharedSegmentIsLost`).
  `ActivityLogTurns.TurnRecordedIff` gives the exact condition, `ActivityLogOrder.OrderlyRunsAreKept` one on the
  calls alone.
- A completion whose metadata hold an array is written again each time it is repeated, because arrays are compared
  by reference; `task-event-projector.ts:98` completes segments so, with `artifactIds`
  (`ActivityLogRuns.RepeatedCompletion` has the exact condition).
- A file cut right before the newline of an accepted record is not repaired, and the next append joins two records
  on one line (`TornWrites.AppendAfterTear`).
- A change report can be flagged as truncated although it is whole: exactly when its script has 512 lines, or when a
  file of 512 lines or more is written with the lines it had (`LineDiff.FlagIsRightIff`,
  `LineDiff.UnchangedIsFlagged`). A truncated report is always flagged.
- Whether the agent process is failed can depend on how its output is cut (`LineFraming.FailureDependsOnCutting`):
  exactly for a stream that ends, behind lines that nothing failed on, in an unfinished line over the limit
  (`LineFraming.FailureIsOfTheStream`). The lines it hands on never do.

## Model

| member | source | states |
|---|---|---|
| CheckpointDiff.BuildMutations | src/main/checkpoints/checkpoint-service.ts:145-168 | the mutations of two scans are an exact diff (each differing path in exactly one of them, as `path` or `fromPath`; no other path in any), no deletion and creation of one entry are left unpaired, sequence numbers run on from the start, and exactly the sides' objects are stored |
| CheckpointDiff.PairRenames | src/main/checkpoints/checkpoint-service.ts:152-159 | each removed path takes the first unpaired added path with its kind and content; the pairing is injective and leaves no pair behind |
| CheckpointDiff.DescribePath | src/main/checkpoints/checkpoint-service.ts:160-166 | one path's turn in the second loop: a modification, deletion or creation for a difference no rename covers, nothing otherwise |
| CheckpointDiff.DescribeRest | src/main/checkpoints/checkpoint-service.ts:160-166 | the second loop describes every remaining difference of either scan once |
| CheckpointDiff.ExactDiffIsInvertible | src/main/checkpoints/checkpoint-service.ts:145-187 | applying an exact diff forward maps the earlier workspace to the later one, and undoing it in reverse maps the later one back |
| CheckpointDiff.OnlyToucher | src/main/checkpoints/checkpoint-service.ts:145-168 | in an exact diff the mutation that touches a path is the only one, and its sides are what the scans read there |
| CheckpointDiff.RevertAllAt | src/main/checkpoints/checkpoint-service.ts:100-187 | whatever the mutations, undoing them in reverse leaves at a path the before-side of the first mutation touching it, and other paths alone |
| CheckpointDiff.ApplyAllAt | src/main/checkpoints/checkpoint-service.ts:145-168 | applying them leaves at a path the after-side of the last mutation touching it |
| CheckpointUndo.UndoneIsReverted | src/main/checkpoints/checkpoint-service.ts:84-196 | when undo reports undone, with any failures and any stored objects, the workspace is the reverted one if and only if no path's last removal was one whose error is swallowed |
| CheckpointUndo.UndoneRestoresTurn | src/main/checkpoints/checkpoint-service.ts:49-121 | for a turn of any number of host requests, a reported undo leaves each tracked path with its value from before the first mutation touching it and every other path unchanged, under exactly that condition |
| CheckpointUndo.SwallowedRemovalIsReportedUndone | src/main/checkpoints/checkpoint-service.ts:188-190 | a concrete input for the condition: a swallowed removal error is reported as undone with the created file still there |
| CheckpointUndo.FailureKeepsFiles | src/main/checkpoints/checkpoint-service.ts:84-118 | when undo fails, with any failures of reads and writes, the workspace is as it was if and only if no tracked path that exists was read as absent |
| CheckpointUndo.UndoneOverwritesUnread | src/main/checkpoints/checkpoint-service.ts:87-196 | before a success a tracked path held what the record left there if and only if it was not a file that exists and whose read error was swallowed |
| CheckpointUndo.UndoneWasAsLeft | src/main/checkpoints/checkpoint-service.ts:87-196 | a success overwrote nothing but what the record left if and only if every tracked path that exists was read |
| CheckpointUndo.SwallowedReadLosesFile | src/main/checkpoints/checkpoint-service.ts:173-197 | a concrete input for the condition: a deleted file, recreated and unreadable, is no conflict and is lost whether the restore succeeds or fails, where reading it would have changed nothing |
| CheckpointUndo.UndoneIff | src/main/checkpoints/checkpoint-service.ts:84-208 | without failures, undo of a ready record reports undone if and only if the mutations chain up: each path's after-side is what its next mutation started from, and the last one's is what the workspace holds |
| CheckpointUndo.UntamperedTurnIsUndone | src/main/checkpoints/checkpoint-service.ts:49-121 | a turn whose tracked paths did not change between requests or since the last one is undone |
| CheckpointUndo.UntamperedReverts | src/main/checkpoints/checkpoint-service.ts:49-121 | undoing such a turn brings each tracked path back to the turn's first scan |
| CheckpointUndo.ConflictsIff | src/main/checkpoints/checkpoint-service.ts:87-95 | no conflict is reported exactly when every path matches what the last mutation touching it left there |
| CheckpointUndo.ConflictReported | src/main/checkpoints/checkpoint-service.ts:85-95 | an undo reports a conflict if and only if some tracked path, as it was read, does not hold what the last mutation of it left, and lists exactly those paths |
| CheckpointTypes.MatchesMeansSame | src/main/checkpoints/checkpoint-service.ts:198-199 | comparing digests is comparing entries: a path matches what was journalled for it, and two entries count as the same, if and only if they are, and restoring a journalled entry writes it |
| CheckpointUndo.RestoreDownIff | src/main/checkpoints/checkpoint-service.ts:100-208 | every verification and restore step succeeds exactly when each mutation finds what it left at its paths |
| CheckpointUndo.RevertTurnAt | src/main/checkpoints/checkpoint-service.ts:49-71 | a path is tracked exactly when some request changed it, and reverting the turn gives it the value from before the first such request |
| CheckpointStore.LatestIsLastLine | src/main/checkpoints/checkpoint-store.ts:26-38 | reading the journal keeps one record per identifier, the one on its last line, and ignores torn lines |
| CheckpointStore.LatestOrder | src/main/checkpoints/checkpoint-store.ts:26-38 | a record stands where the first line of its identifier put it, whatever lines came since |
| CheckpointStore.SortMembers | src/main/checkpoints/checkpoint-store.ts:37 | the sort by creation instant rearranges the records and orders them |
| CheckpointStore.SortStable | src/main/checkpoints/checkpoint-store.ts:37 | records of one instant keep their order |
| CheckpointStore.CompactKeepsRecords | src/main/checkpoints/checkpoint-store.ts:40-47 | rewriting the journal with its own records leaves what is read from it unchanged |
| CheckpointStore.RewrittenRecords | src/main/checkpoints/checkpoint-store.ts:72-78 | a rewritten journal reads back as what was written |
| CheckpointStore.GcRetention | src/main/checkpoints/checkpoint-store.ts:49-70 | garbage collection keeps every active and recovery record and nothing it did not read, the newest finished turn in age, at most 100 finished turns, and with two or more of them the distinct objects referenced stay within the byte limit |
| CheckpointStore.SetBytesOfList | src/main/checkpoints/checkpoint-store.ts:61-62 | a candidate's byte count may count an object twice, so it is an upper bound on the distinct bytes |
| CheckpointStore.CandidatesNewest | src/main/checkpoints/checkpoint-store.ts:52-55 | the candidates are in-age finished turns and the first of them is the newest |
| CheckpointStore.ConsiderKeeps | src/main/checkpoints/checkpoint-store.ts:60-67 | each turn of the loop keeps the retention's referenced set exact, its bytes bounded and its first candidate in |
| CheckpointStore.ConsiderCandidate | src/main/checkpoints/checkpoint-store.ts:60-67 | the loop body computes one step of the retention; the four rows below say what it may and may not drop |
| CheckpointRetention.DroppedForAReason | src/main/checkpoints/checkpoint-store.ts:49-68 | retention is maximal: a finished turn of at most thirty days is dropped only if there are a hundred others not older, or if its missing objects, added to the bytes counted for newer kept turns, exceed 512 MiB |
| CheckpointRetention.FittingTurnsAreKept | src/main/checkpoints/checkpoint-store.ts:49-68 | when at most a hundred finished turns are in age and what they list fits the limit along with the unfinished records, every one of them is kept |
| CheckpointRetention.KeptForAReason | src/main/checkpoints/checkpoint-store.ts:50-55 | what is kept was read and is active, a recovery in progress, or a finished turn of at most thirty days; the unfinished records all are |
| CheckpointRetention.ObjectBytes | src/main/checkpoints/checkpoint-store.ts:56-62 | an object counts with the bytes stored for it |
| CheckpointStore.Store.Append | src/main/checkpoints/checkpoint-store.ts:21-24 | appending adds one line |
| CheckpointStore.Store.ReadRecords | src/main/checkpoints/checkpoint-store.ts:26-38 | the map filled line by line and sorted is the last record per identifier, in order of creation |
| CheckpointStore.Store.Compact | src/main/checkpoints/checkpoint-store.ts:40-47 | the journal becomes its records' lines and reads the same |
| CheckpointStore.Store.WriteRecords | src/main/checkpoints/checkpoint-store.ts:72-78 | the journal becomes the given records' lines, sorted, and reads back as those records when no two share an identifier |
| CheckpointStore.Store.Gc | src/main/checkpoints/checkpoint-store.ts:49-70 | the loop keeps exactly the specified retention, and the objects are those referenced, or whose deletion failed |
| CheckpointObjectStore.ObjectStore.Put | src/main/checkpoints/checkpoint-object-store.ts:8-18 | an object is stored once under its own hash; storing it again changes nothing, and names stay the digests of their contents |
| CheckpointObjectStore.ObjectStore.Read | src/main/checkpoints/checkpoint-object-store.ts:20-23 | what is read under a name digests to that name, so whatever was put comes back byte for byte; a missing object is an error and nothing else is |
| CheckpointObjectStore.ObjectStore.RemoveUnreferenced | src/main/checkpoints/checkpoint-object-store.ts:25-29 | referenced objects stay; the others go, except those whose deletion failed |
| CheckpointObjectStore.ObjectStore.Sizes | src/main/checkpoints/checkpoint-object-store.ts:31-41 | the size of every stored object |
| CheckpointRuns.RunKeepsInv | src/main/checkpoints/checkpoint-service.ts:22-133 | every run of turn starts and ends, host requests, undos and outside edits from interleaved sessions keeps the invariant: readable records are complete, turns in memory are journalled as active, each turn's record is the record of its own requests |
| CheckpointRuns.RecordsStayComplete | src/main/checkpoints/checkpoint-service.ts:36-170 | in every such run each record that can be read has all its before and after objects in the store with their own bytes, also across garbage collections made while other turns are active |
| CheckpointRuns.CollectKeepsInv | src/main/checkpoints/checkpoint-store.ts:49-70 | garbage collection keeps what it retains complete |
| CheckpointRuns.UndoKeepsInv | src/main/checkpoints/checkpoint-service.ts:78-121 | an undo, however it ends, keeps the invariant |
| CheckpointRuns.HostKeepsInv | src/main/checkpoints/checkpoint-service.ts:49-71 | a bracketed host request keeps the invariant |
| CheckpointRuns.EndKeepsInv | src/main/checkpoints/checkpoint-service.ts:36-45 | ending a turn, with its compaction and collection, keeps the invariant |
| CheckpointRuns.UndoInAnyRun | src/main/checkpoints/checkpoint-service.ts:78-121 | in every reachable state and with any failures, thrown or swallowed: a refusal or a conflict leaves the workspace as it was, a failure does if and only if every tracked path that exists was read, and a success restores the turn if and only if no last removal was swallowed, and overwrote nothing but what the record left if and only if every tracked path that exists was read |
| CheckpointRuns.UndoSucceedsInAnyRun | src/main/checkpoints/checkpoint-service.ts:78-121 | in every reachable state a failure-free undo of a ready turn reports undone exactly when its mutations chain up, and always when the turn is untampered |
| CheckpointFates.StateIsFate | src/main/checkpoints/checkpoint-service.ts:36-121 | in every reachable state a turn that can be read has the names and time it was started with, and the state that its events call for: active until it is ended, then ready until an undo of it is carried out, then undone, in conflict or failed as that undo was |
| CheckpointFates.NewestEndedIsReady | src/main/checkpoints/checkpoint-service.ts:36-48 | a turn with mutations that has just ended is in the journal and ready, when it is not older than thirty days and no other turn is as new |
| CheckpointFates.EndedTurnIsUndone | src/main/checkpoints/checkpoint-service.ts:36-121 | in every reachable state a turn that has just ended and is kept is undone by a failure-free request, when its tracked paths are as it left them |
| CheckpointFates.UndoneOnce | src/main/checkpoints/checkpoint-service.ts:78-121 | an undo is carried out once: after it, whatever else happens, a request that finds the same record is told undone, conflict or failed, as the first undo ended |
| CheckpointFates.RecoveriesSettle | src/main/checkpoints/checkpoint-service.ts:96-134 | in every reachable state each recovery record is that of a turn whose undo was carried out, and has its outcome |
| CheckpointFates.RecoveryRecovers | src/main/checkpoints/checkpoint-service.ts:123-134 | the recovery record has the names of the turn and, applied to any workspace, brings the tracked paths back to what was read before the undo |
| CheckpointFates.FailureLeavesRecovery | src/main/checkpoints/checkpoint-service.ts:96-118 | after an undo that failed its recovery record is in the journal |
| CheckpointFates.ThrownReadRefuses | src/main/checkpoints/checkpoint-service.ts:78-86 | an undo of a ready turn is refused if and only if the first read of some tracked path throws, and changes nothing then |
| CheckpointFates.EndAndUndoCollect | src/main/checkpoints/checkpoint-service.ts:37-109 | ending a turn and undoing one leave no finished record but turns of at most thirty days, at most a hundred of them, and no object that no record holds, unless it could not be deleted |
| CheckpointRuns.FindTurnIsFirst | src/main/checkpoints/checkpoint-service.ts:81 | of several records of one task and turn the first is undone |
| CheckpointService.Service.ObserveStarted | src/main/checkpoints/checkpoint-service.ts:29-35 | `turn.started` replaces the session's turn in memory by a new active one |
| CheckpointService.Service.ObserveEnded | src/main/checkpoints/checkpoint-service.ts:36-45 | a turn's end journals it as ready if it has mutations, compacts, forgets it and collects |
| CheckpointService.Service.WithHostRequest | src/main/checkpoints/checkpoint-service.ts:49-71 | a bracketed request appends the exact diff of its scans to the session's turn and journals it; without an active turn or a difference nothing is recorded |
| CheckpointService.Service.ReadCurrent | src/main/checkpoints/checkpoint-service.ts:87 | the current entry of every tracked path as the first reads show it, absent where a read error is swallowed; a read that throws ends the undo |
| CheckpointService.Service.FindConflicts | src/main/checkpoints/checkpoint-service.ts:88-90 | the paths whose entry, as it was read, differs from what the record left |
| CheckpointService.Service.Expectations | src/main/checkpoints/checkpoint-service.ts:88-89 | the expectation map holds the after-side of the last mutation per path |
| CheckpointService.Service.CreateRecovery | src/main/checkpoints/checkpoint-service.ts:123-133 | the recovery record holds the current entry of every tracked path, with its objects stored, before anything is restored |
| CheckpointService.Service.StoreCurrent | src/main/checkpoints/checkpoint-service.ts:124-129 | the recovery mutations in the order of the tracked paths, each present entry with its object stored |
| CheckpointService.Service.WriteWorkspaceEntry | src/main/checkpoints/checkpoint-service.ts:188-196 | one restore write with its failure cases |
| CheckpointService.Service.RestoreMutation | src/main/checkpoints/checkpoint-service.ts:180-187 | the one or two writes of a restored mutation |
| CheckpointService.Service.VerifyCurrentBeforeRestore | src/main/checkpoints/checkpoint-service.ts:205-208 | the check before each restore, with reads that throw or count as absent |
| CheckpointService.Service.RestoreMutations | src/main/checkpoints/checkpoint-service.ts:100-104 | the restore loop from the last mutation to the first, stopping at the first failure |
| CheckpointService.Service.RestoreRecovery | src/main/checkpoints/checkpoint-service.ts:113-197 | rewriting the tracked paths gives the workspace from before the undo, less the files that were read as absent, whatever the failed restore left |
| CheckpointService.Service.TryRestore | src/main/checkpoints/checkpoint-service.ts:98-113 | all or nothing: the restored workspace, or the original one less the files that were read as absent |
| CheckpointService.Service.UndoReady | src/main/checkpoints/checkpoint-service.ts:84-119 | undo of a ready record: outcome, workspace, journal and objects; a conflict or failure leaves the files as they were |
| CheckpointService.Service.UndoTurn | src/main/checkpoints/checkpoint-service.ts:78-121 | undo of a turn, with the answers for a missing record and for one that is not ready |
| CheckpointService.Service.Restore | src/main/checkpoints/checkpoint-service.ts:97-118 | from the recovery record to the outcome: files, journal and objects are those of the undo step, and the outcome is a success or a failure |
| CheckpointService.RestoreDownFrame | src/main/checkpoints/checkpoint-service.ts:100-104 | a restore, however it ends, touches tracked paths only |
| Periodicity.CommonPeriod | src/shared/assistant-stream-text.ts:18-31 | two periods p and q with p + q at most the length give the period gcd(p, q) |
| Periodicity.LongestBorderIsLeastPeriod | src/shared/assistant-stream-text.ts:27-28 | the length minus the longest border is the least period |
| Periodicity.RepetitionUsesLeastPeriod | src/shared/assistant-stream-text.ts:28-30 | a word written as a repetition repeats a multiple of its least period, which then divides its length |
| Periodicity.PrimitiveRootUnique | src/shared/assistant-stream-text.ts:28-30 | a word is a primitive word repeated in one way only |
| StreamText.CollapseRepeatedSequence | src/shared/assistant-stream-text.ts:18-31 | the prefix-table loop returns u when the text is u repeated two or more times with u primitive and ending on a replay boundary, and the text otherwise |
| StreamText.LongestAtStep | src/shared/assistant-stream-text.ts:21-26 | when the fallback stops, the entry written is the longest border |
| StreamText.FallBack | src/shared/assistant-stream-text.ts:23 | each fallback to a shorter border skips no border that could be extended |
| StreamText.CollapseIs | src/shared/assistant-stream-text.ts:18-31 | the collapsed fragment is the only one the text repeats |
| StreamText.CollapseIdempotent | src/shared/assistant-stream-text.ts:18-31 | collapsing twice is collapsing once |
| StreamText.NormalizeIdempotent | src/shared/assistant-stream-text.ts:14-16 | normalising twice is normalising once |
| StreamText.NormalizeIsCollapse | src/shared/assistant-stream-text.ts:14-16 | normalising is collapsing |
| StreamText.MergeAssistantText | src/shared/assistant-stream-text.ts:5-12 | the merge computes its specification |
| StreamText.MergeExtends | src/shared/assistant-stream-text.ts:5-12 | shown text is never taken back; what is added is nothing or the collapsed fresh part; a cumulative fragment is never exceeded |
| StreamText.MergeLosesNothing | src/shared/assistant-stream-text.ts:5-12 | nothing delivered is lost: the collapsed fresh part is at the end of the merged text, and the text stays as it was if and only if nothing is fresh or that part, ending on a boundary, was at its end already |
| StreamText.RepetitionCollapses | src/shared/assistant-stream-text.ts:18-31 | a fragment that ends on a boundary collapses, however often it is repeated, to what it collapses to itself |
| StreamText.BoundaryIsMark | src/shared/assistant-stream-text.ts:33-36 | a text ends on a boundary if and only if it has a mark with nothing but white space behind it |
| StreamText.RedeliveryIsIgnored | src/shared/assistant-stream-text.ts:5-12 | a fragment delivered twice changes the text once, if and only if it is empty, starts with the text shown before it, or collapses to a fragment ending on a boundary |
| VmScheduler.RunKeepsInv | src/main/sandbox/vm-scheduler.ts:12-81 | every interleaving of calls, cancellations and completions keeps the scheduler's invariant |
| VmScheduler.StepKeepsInv | src/main/sandbox/vm-scheduler.ts:12-81 | each await-to-await segment keeps it |
| VmScheduler.MutualExclusion | src/main/sandbox/vm-scheduler.ts:12-33 | at most one call of a key is past its predecessor |
| VmScheduler.SlotsBounded | src/main/sandbox/vm-scheduler.ts:35-44 | slots held equal the counter and never exceed the limit; a non-empty waiter list implies running plus woken callers is at least the limit |
| VmScheduler.StartsInCallOrder | src/main/sandbox/vm-scheduler.ts:12-81 | callbacks of a key start in call order, each once; a cancelled call never lets a successor overtake its predecessor |
| VmScheduler.StartedBehindSettled | src/main/sandbox/vm-scheduler.ts:12-33 | when a callback starts, every earlier call of its key has settled |
| VmScheduler.QuiescentMeansSettled | src/main/sandbox/vm-scheduler.ts:12-61 | when no callback runs and no step is left to take, every call has settled: nobody is stuck waiting |
| VmScheduler.NormalizedLimit | src/main/sandbox/vm-scheduler.ts:36 | the limit used is the truncated one, and at least one |
| VmCancellation.OnlyCancelledFail | src/main/sandbox/vm-scheduler.ts:12-85 | over all runs only cancelled calls are rejected, and a call that has settled otherwise had its callback started |
| VmCancellation.EveryCallIsStarted | src/main/sandbox/vm-scheduler.ts:12-61 | when no callback runs and no step of the scheduler is left, every call that was never cancelled has had its callback started |
| VmCancellation.CancelledInTimeNeverStarts | src/main/sandbox/vm-scheduler.ts:19-85 | a call whose signal is aborted when it is made, while it waits for its predecessor or in the list of waiters never has its callback started |
| VmCancellation.NoOvertaking | src/main/sandbox/vm-scheduler.ts:41-61 | of two waiters the later one leaves the list first only when it is cancelled |
| VmCancellation.QueuesEmptied | src/main/sandbox/vm-scheduler.ts:27-32 | when every call has settled and the handlers have run, no queue is left |
| VmScheduler.Scheduler.Submit | src/main/sandbox/vm-scheduler.ts:12-19 | `run` up to its first await |
| VmScheduler.Scheduler.PassPrevious | src/main/sandbox/vm-scheduler.ts:64-81 | a resolved predecessor lets its call go on |
| VmScheduler.Scheduler.TryAcquire | src/main/sandbox/vm-scheduler.ts:35-61 | the acquire loop from one await to the next: a slot, a place in the waiter list, or the rejection of a cancelled call |
| VmScheduler.Scheduler.StartCallback | src/main/sandbox/vm-scheduler.ts:22 | a call that holds a slot starts its callback |
| VmScheduler.Scheduler.Reject | src/main/sandbox/vm-scheduler.ts:26-27 | a cancelled call settles without a slot and lets its successor go on |
| VmScheduler.Scheduler.Finish | src/main/sandbox/vm-scheduler.ts:22-44 | a settled callback gives its slot back and wakes the first waiter |
| VmScheduler.Scheduler.Abort | src/main/sandbox/vm-scheduler.ts:53-81 | a cancellation while queued removes the call from the waiter list and rejects it |
| VmScheduler.Scheduler.TidyQueue | src/main/sandbox/vm-scheduler.ts:28-31 | the queue entry is removed only when it is still the call's own chain |
| VmEnvironmentManager.StepKeepsInv | src/main/sandbox/vm-environment-manager.ts:23-148 | every segment keeps the pool's invariant, provided a new operation's key is not in progress already |
| VmEnvironmentManager.FullPoolIsBusy | src/main/sandbox/vm-environment-manager.ts:66-78 | a full pool without an idle environment has something in progress that ends in a wake |
| VmEnvironmentManager.IdleIsUnused | src/main/sandbox/vm-environment-manager.ts:69-75 | the environment chosen for eviction is not in use |
| VmEnvironmentManager.SoleUser | src/main/sandbox/vm-environment-manager.ts:58-65 | an environment in use is used by one operation, so its count is one |
| VmEnvironmentManager.StillAcquiring | src/main/sandbox/vm-environment-manager.ts:66-95 | an operation still acquiring has no environment registered under its key |
| VmEnvironmentManager.Manager.FindIdle | src/main/sandbox/vm-environment-manager.ts:69 | filtering and sorting by last use finds the least recently used idle environment |
| VmEnvironmentManager.Manager.Execute | src/main/sandbox/vm-environment-manager.ts:23-65 | `execute` with `acquire` up to its first await: reuse, reservation, eviction, waiting or rejection |
| VmEnvironmentManager.Manager.ReserveCapacity | src/main/sandbox/vm-environment-manager.ts:66-82 | one turn of the capacity loop |
| VmEnvironmentManager.Manager.SettleStart | src/main/sandbox/vm-environment-manager.ts:83-96 | a settled start gives its reservation back, wakes the waiters and registers the environment if it started |
| VmEnvironmentManager.Manager.ReleaseEntry | src/main/sandbox/vm-environment-manager.ts:98-108 | releasing counts down, arms the idle timer at zero and wakes the waiters; an unregistered environment is left alone |
| VmEnvironmentManager.Manager.ReleaseCapacityWaiters | src/main/sandbox/vm-environment-manager.ts:146-148 | the loop wakes every waiter and empties the list |
| VmEnvironmentManager.Manager.FinishExecute | src/main/sandbox/vm-environment-manager.ts:25-122 | after the guest has answered or failed: release, or discard of the registered environment |
| VmEnvironmentManager.Manager.ExpireEntry | src/main/sandbox/vm-environment-manager.ts:110-115 | an idle timer removes the environment only if it is unused and still the registered one |
| VmEnvironmentManager.Manager.Abort | src/main/sandbox/vm-environment-manager.ts:129-144 | a cancellation takes a waiting operation off the list |
| VmEnvironmentManager.Manager.ResumeAfterCapacity | src/main/sandbox/vm-environment-manager.ts:77 | a woken waiter takes another turn of the capacity loop |
| VmEnvironmentManager.Manager.StartAfterEviction | src/main/sandbox/vm-environment-manager.ts:74-82 | when the evicted environment has closed, the reserved start begins |
| VmEnvironmentManager.Manager.FinishDiscard | src/main/sandbox/vm-environment-manager.ts:117-122 | when the discarded environment has closed, the waiters are woken and the operation goes on to its release |
| VmEnvironmentManager.Manager.FinishClosing | src/main/sandbox/vm-environment-manager.ts:39-51 | the end of an expiry or of a closing wakes the waiters |
| VmProvider.RunKeepsInv | src/main/sandbox/vm-sandbox-execution-provider.ts:43-58 | every interleaving of executions through the provider, cancellations, expiries and closings keeps both invariants and their link |
| VmProvider.PoolWithinLimit | src/main/sandbox/vm-environment-manager.ts:56-96 | registered environments plus reserved starts never exceed the limit, and `starting` counts exactly the unsettled reservations |
| VmProvider.LaunchedKeyIsFree | src/main/sandbox/vm-sandbox-execution-provider.ts:50 | the scheduler's serialisation: no operation in progress has the key of a starting callback |
| VmProvider.StartNeverOverwrites | src/main/sandbox/vm-environment-manager.ts:79-95 | a start never overwrites a registered environment of its key |
| VmProvider.RemovalSparesUsed | src/main/sandbox/vm-environment-manager.ts:69-115 | capacity eviction and idle expiry never remove an environment an operation is on |
| VmProvider.CapacityWakeComing | src/main/sandbox/vm-environment-manager.ts:66-148 | a capacity waiter implies an active environment, a start or a closing in progress, or a woken operation that has yet to resume |
| VmProvider.EnvironmentsUsedAlone | src/main/sandbox/vm-sandbox-execution-provider.ts:50 | no two operations use one environment at a time |
| VmProvider.QuiescentMeansSettled | src/main/sandbox/vm-sandbox-execution-provider.ts:43-58 | in every reachable state with no start, guest or closing in progress and no step of the program left to take, every execution has settled and nobody waits for a slot or for capacity |
| VmGuests.FailedGuestIsNeverReused | src/main/sandbox/vm-environment-manager.ts:23-122 | once the guest of an environment has failed, the environment is registered under no key in any later state and no operation ever uses it again |
| VmGuests.AnsweredStays | src/main/sandbox/vm-environment-manager.ts:23-108 | the environment of a guest that answered stays registered, idle, with its timer running |
| VmGuests.WarmReuse | src/main/sandbox/vm-environment-manager.ts:56-65 | an execution whose key has an environment uses that one, and starts and evicts none |
| VmGuests.StartedIsRegistered | src/main/sandbox/vm-environment-manager.ts:80-95 | a start that succeeded registers the environment for its key, in use by the operation alone, gives the reservation back and wakes all waiters |
| VmGuests.CancelledTakesNothing | src/main/sandbox/vm-environment-manager.ts:57-146 | an execution cancelled before it is launched or while it waits for capacity ends at once and takes nothing |
| VmGuests.EndedStays | src/main/sandbox/vm-environment-manager.ts:23-33 | an operation that has ended takes nothing again before it leaves |
| VmGuests.EveryExecutionIsServed | src/main/sandbox/vm-environment-manager.ts:23-146 | in a quiescent state of scheduler and pool together, every execution that was never cancelled was let in and had its guest run or its environment fail to start |
| VmGuests.EndedForAReason | src/main/sandbox/vm-environment-manager.ts:23-146 | in every reachable state an execution that has ended, in either queue, was cancelled or had its guest run or its environment fail to start |
| VmGuests.EvictsLeastRecent | src/main/sandbox/vm-environment-manager.ts:66-75 | an environment is evicted only from a full pool, and it is the least recently used idle one, the first registered of several |
| VmGuests.StepTimed | src/main/sandbox/vm-environment-manager.ts:56-108 | an environment's time of use is that of the last event by which an operation took it or gave it back |
| VmGuests.ClosedIsUnregistered | src/main/sandbox/vm-environment-manager.ts:35-54 | closing from outside takes exactly the environment of that key out of the pool |
| Calendar.DateUnique | src/main/automation/schedule.ts:44-106 | a day number has one valid date, so `Date.UTC` and the UTC getters are inverse |
| Calendar.LeapDayAhead | src/main/automation/schedule.ts:57 | the next 29 February of a later year is at most nine years ahead, also across a century without one |
| CronSearch.ParseCronField | src/main/automation/schedule.ts:86-103 | exactly the fields with valid parts are accepted, and they list exactly the numbers some part selects |
| CronSearch.ParsePart | src/main/automation/schedule.ts:89-99 | one part: accepted when its step and bounds are valid, and adding every step-th number of its range |
| CronSearch.SundayEndsNoRange | src/main/automation/schedule.ts:96-97 | a day-of-week range with step is read as meant if and only if 7 does not end it, or it is only Sunday, or it is 0-7 with a step of seven or more |
| CronSearch.ParseCron | src/main/automation/schedule.ts:75-84 | an expression is accepted exactly when it has five valid fields, and a lone `*` is the whole field |
| CronSearch.NamedDays | src/main/automation/schedule.ts:59-63 | the days an expression names: those of a listed month that a restricted day of the month or a restricted day of the week selects, either being enough; all of the month when both are `*` |
| CronSearch.NamedMoments | src/main/automation/schedule.ts:59-70 | the moments it names: the selected minutes of the selected hours of those days |
| CronSearch.ZonedPartsOfUtc | src/main/automation/schedule.ts:112-125 | reading back a clock time gives it unchanged |
| CronSearch.ZonedDateToUtc | src/main/automation/schedule.ts:117-125 | the two corrections give the exact moment in a fixed-offset zone |
| CronSearch.AddCalendarDays | src/main/automation/schedule.ts:106 | adding days moves the day number by as many |
| CronSearch.SearchDay | src/main/automation/schedule.ts:64-70 | the nested loops find the first listed time of a matching day that is still ahead, or there is none |
| CronSearch.NextCron | src/main/automation/schedule.ts:52-73 | the earliest matching minute strictly after `from`; null exactly when the day of week is `*` and no listed month ever has a listed day, and exactly when no minute ever matches |
| CronSearch.NeverMatches | src/main/automation/schedule.ts:59-63 | that condition holds exactly when no moment matches |
| CronSearch.MatchingDayAhead | src/main/automation/schedule.ts:57-63 | otherwise some matching day lies between one day and 28*366 days ahead of any day |
| CronSearch.HorizonSuffices | src/main/automation/schedule.ts:57 | an expression with nothing due within the horizon has nothing due at all |
| CronSearch.NextWeekly | src/main/automation/schedule.ts:39-50 | a weekly schedule runs when its cron expression `minute hour * * days` does; it fails exactly when no day is listed |
| CronSearch.NextDaily | src/main/automation/schedule.ts:31-37 | a daily schedule runs when the expression with every day does |
| ActivityLogRuns.RunIsSound | src/main/persistence/activity-log-store.ts:99-339 | in every run the file is at each point at most one leading snapshot and then records with consecutive numbers that replay without an error, if and only if no completion of an unnamed segment found an activity still to complete |
| ActivityLogRuns.StepIsSoundIff | src/main/persistence/activity-log-store.ts:99-339 | the same of one operation on a log that replays |
| ActivityLogRuns.NamedRunIsSound | src/main/persistence/activity-log-store.ts:99-339 | a run whose completions all name their segment never spoils its log |
| ActivityLogRuns.UnnamedCompletionIsLost | src/main/persistence/activity-log-store.ts:32-309 | after such a completion the next read drops its record; if an activity is added first, every read fails whatever is done later |
| ActivityLogInputs.UnnamedSegmentSpoilsLog | src/main/persistence/activity-log-store.ts:117-167 | a concrete run for that: one delta under the empty segment identifier and the completion of that segment |
| ActivityLogRuns.RunAgrees | src/main/persistence/activity-log-store.ts:99-424 | the log replays at every point to the activities of the plain list, in identifiers, order, metadata and times, if and only if every completion of a segment names it or has nothing to complete, and every completion of a turn meets the exact condition of its own |
| ActivityLogRuns.RunReads | src/main/persistence/activity-log-store.ts:99-424 | a reader then sees exactly those activities |
| ActivityLogTurns.TurnRecordedIff | src/main/persistence/activity-log-store.ts:169-424 | the exact condition for the completion of a turn, whatever its metadata and whatever segments it renames: the records replay to what was done to the list if and only if it holds |
| ActivityLogTurns.LoggedIff | src/main/persistence/activity-log-store.ts:169-424 | the same of the lists alone: which activity each record is replayed on |
| ActivityLogTurns.UniqueIsRecorded | src/main/persistence/activity-log-store.ts:417-424 | segment identifiers unique per task before and after the completion suffice |
| ActivityLogTurns.TurnAlwaysReplays | src/main/persistence/activity-log-store.ts:169-424 | whatever segments are shared or renamed, a completed turn's records find an activity each |
| ActivityLogInputs.SharedSegmentIsLost | src/main/persistence/activity-log-store.ts:195-424 | a concrete run: a response streamed, replaced in its segment and again in another one, and the completion of the turn; the first replacement is final in the list and read back in progress |
| ActivityLogOrder.OrderlyRunsAreKept | src/main/persistence/activity-log-store.ts:99-424 | a condition on the calls: only deltas and replacements name segments, completions name theirs, and after a replacement nothing streams to or completes its segment and its turn is replaced in no other; then every operation is recorded as it was done |
| ActivityLogRuns.RunKeepsTexts | src/main/persistence/activity-log-store.ts:123-334 | the log replays to the list at every point of a run, accumulated texts included, if and only if each operation meets the condition above and no snapshot takes in a text that can be collapsed |
| ActivityLogRuns.RunReadsList | src/main/persistence/activity-log-store.ts:123-334 | a reader sees the list at every point of a run, texts included, if and only if each operation meets that condition and no text of the list can be collapsed at any point |
| ActivityLogTexts.ReadBackShorter | src/main/persistence/activity-log-store.ts:334 | a concrete run for that condition: "x", ".x", "." accumulate to "x.x." and are read back as "x." |
| ActivityLogRuns.StepReplays | src/main/persistence/activity-log-store.ts:99-333 | the log after an operation that meets its condition replays to the operation applied to the list it starts from |
| ActivityLog.StreamReplays | src/main/persistence/activity-log-store.ts:117-415 | the records of a batch of deltas, made from the normalised list, replay to the batch on the raw list |
| ActivityLogRuns.CompactionKeepsRead | src/main/persistence/activity-log-store.ts:377-393 | compacting changes nothing a reader sees, texts included |
| ActivityLogRuns.CompactionsAreInvisible | src/main/persistence/activity-log-store.ts:377-393 | compactions at any points of a run show the same activities as none, and the same texts when no snapshot takes in a text that can be collapsed |
| ActivityLog.ReplacedMeans | src/main/persistence/activity-log-store.ts:195-221 | after a replacement its identifier occurs once, at the end, as the final response; every other response of the turn is in progress, and nothing else is lost |
| ActivityLogMeanings.ReplaceMeans | src/main/persistence/activity-log-store.ts:195-221 | the replacement is the collapsed text as the final response of its turn and segment, with the time of the first activity it replaces; every other activity stays, in order, those of the turn back in progress |
| ActivityLogMeanings.CreatedAtIs | src/main/persistence/activity-log-store.ts:202-209 | that time is the creation time of the first activity with the identifier, or now |
| ActivityLogMeanings.CompleteMeans | src/main/persistence/activity-log-store.ts:147-167 | completing a segment lays metadata and phase over the first activity of the segment, and touches no other |
| ActivityLogMeanings.CompleteTurnMeans | src/main/persistence/activity-log-store.ts:169-193 | completing a turn does so to every activity of the turn that is in progress and in a named segment, and to no other |
| ActivityLogMeanings.AddMeans | src/main/persistence/activity-log-store.ts:99-110 | an activity is added at the end, an assistant's with its text collapsed |
| ActivityLogMeanings.FoundIsTarget | src/main/persistence/activity-log-store.ts:396-404 | a delta continues the last assistant activity of its task in its segment, or of its turn when it has none, if there is one |
| ActivityLogMeanings.BatchLeaves | src/main/persistence/activity-log-store.ts:117-145 | a batch for one activity merges its fragments in order, leaves under each key the value of the last delta that has one, starts the activity at the end if there was none, and touches no other |
| ActivityLog.FindAssistant | src/main/persistence/activity-log-store.ts:396-404 | the last activity a delta continues |
| ActivityLog.NormalizedIsFixed | src/main/persistence/activity-log-store.ts:334 | a normalised list is a fixed point of the normalisation on reading |
| ActivityLogStore.FindAssistantIndex | src/main/persistence/activity-log-store.ts:396-404 | the backward loop finds that activity |
| ActivityLogStore.ApplyAssistantDelta | src/main/persistence/activity-log-store.ts:406-415 | a delta merges into its activity, or is an error without one |
| ActivityLogStore.ApplySegmentCompleted | src/main/persistence/activity-log-store.ts:417-424 | a completion marks the first activity of its segment, or is an error without one |
| ActivityLogStore.Store.ReplayMetadata | src/main/persistence/activity-log-store.ts:268-293 | a load drops a refused last record, accepts exactly logs of accepted records with increasing numbers, and recovers sequence number and counters; otherwise nothing changes |
| ActivityLogStore.Store.ReplayFile | src/main/persistence/activity-log-store.ts:295-346 | a replay drops a refused last record and returns what the file reads as, with sequence number and counters; or the first error, changing nothing |
| ActivityLogStore.Store.ReadAll | src/main/persistence/activity-log-store.ts:244-252 | the cached list is never stale: it is what the file reads as; a read fails exactly when the repaired file does not replay |
| ActivityLogStore.Store.EnsureLoaded | src/main/persistence/activity-log-store.ts:229-242 | the first operation loads the counters of the file, once, or fails and leaves the file alone |
| ActivityLogStore.Store.WriteSnapshot | src/main/persistence/activity-log-store.ts:383-393 | the file becomes one snapshot with the current sequence number, the cache the list in it, the counters zero |
| ActivityLogStore.Store.CompactIfNeeded | src/main/persistence/activity-log-store.ts:377-393 | compaction exactly when the counters of the file demand it, failing exactly when the file cannot be read then |
| ActivityLogStore.Store.PreparedIsShort | src/main/persistence/activity-log-store.ts:377-381 | before a call appends, the file is behind its last snapshot by less than both limits, or by nothing |
| ActivityLogStore.Store.AppendRecords | src/main/persistence/activity-log-store.ts:348-375 | appended records keep counters and sequence number those of the file |
| ActivityLogStore.Store.CallsAgree | src/main/persistence/activity-log-store.ts:99-393 | whatever the limits of compaction and wherever the program is started anew, the file replays at every point of a run of calls to the activities of the plain list if and only if the run keeps its operations, and then every call succeeds |
| ActivityLogStore.Store.CallsRead | src/main/persistence/activity-log-store.ts:99-393 | in a run of calls a reader sees the list at every point, texts included, if and only if the run keeps its operations and no text of the list can be collapsed at any point; under the first condition alone the list but for the texts |
| ActivityLogStore.Store.Append | src/main/persistence/activity-log-store.ts:99-110 | appending an activity: what the file becomes, and when the call fails |
| ActivityLogStore.Store.AppendAssistantDeltas | src/main/persistence/activity-log-store.ts:117-145 | a batch of deltas: the records written and the activities reported; an empty batch does nothing, an unreadable file fails the call |
| ActivityLogStore.Store.CompleteAssistantSegment | src/main/persistence/activity-log-store.ts:147-167 | completing a segment: nothing is written for a missing or already complete one; one given an array, as task-event-projector.ts:98 does, is never found complete |
| ActivityLogRuns.RepeatedCompletion | src/main/persistence/activity-log-store.ts:147-167 | repeating a completion that leaves its segment as it is changes nothing a reader sees, and writes nothing if and only if its metadata hold no array and no other phase |
| ActivityLogStore.Store.CompleteAssistantSegmentsForTurn | src/main/persistence/activity-log-store.ts:169-193 | completing a turn's unfinished segments in one batch |
| ActivityLogStore.Store.ReplaceAssistantResponse | src/main/persistence/activity-log-store.ts:195-221 | replacing a response writes a snapshot with the replacement last |
| TornWrites.TornLoad | src/main/persistence/activity-log-store.ts:268-346 | cutting the file at any byte and loading it yields exactly the records whose whole text survived, but for a last one that is refused, and leaves their lines in the file; only a cut before the newline of an accepted record leaves the newline missing |
| TornWrites.AppendAfterTear | src/main/persistence/activity-log-store.ts:268-365 | records appended afterwards replay with the survivors if and only if the cut did not fall right before such a newline; otherwise a load is refused, or has lost the last survivor along with the one record appended |
| TornWrites.LoadsOneWay | src/main/persistence/activity-log-store.ts:268-293 | a text loads in one way at most |
| TornWrites.LogFile.Load | src/main/persistence/activity-log-store.ts:268-346 | a last entry that does not parse is dropped and the file rewritten; a load is refused exactly when no load is possible |
| TornWrites.EntriesLine | src/main/persistence/activity-log-store.ts:268-280 | the entries of a text are its lines that are not blank, each ended by a newline with or without a return before it |
| ActivityLogTears.RunStaysWhole | src/main/persistence/activity-log-store.ts:99-365 | at every point of a run of any operations and of crashes at any bytes, the file holds whole lines of a log that loads, if and only if no crash cut it right before the newline of an accepted record and no activity was added right behind a refused one |
| ActivityLogTears.WholeIsLoaded | src/main/persistence/activity-log-store.ts:268-293 | a load of such a file finds its records, but for a last completion that is refused |
| ActivityLogTears.TearKeepsIff | src/main/persistence/activity-log-store.ts:268-346 | one crash: what is left is a prefix of the log and replays, and the lines are whole if and only if the cut was not before the newline of an accepted record |
| ActivityLogTears.AppendIsRefused | src/main/persistence/activity-log-store.ts:268-365 | after the other kind of cut, whatever is appended next, a load is refused or has lost it along with the last survivor |
| ActivityLogTears.UnnamedCompletionInFile | src/main/persistence/activity-log-store.ts:32-365 | the line of an unnamed segment's completion: a load drops it and leaves the file as it was; once an activity is added behind it, no load is possible |
| ActivityPaging.ReadPage | src/main/persistence/activity-log-store.ts:82-97 | the last activities of the task before the cursor, in order, at most the clamped limit of them; an unknown cursor starts from the newest |
| ActivityPaging.NextPage | src/main/persistence/activity-log-store.ts:94-96 | a page's cursor leaves exactly what the page did not show |
| ActivityPaging.PagesCoverTheTask | src/main/persistence/activity-log-store.ts:82-97 | with unique identifiers, following the cursors ends, and the pages joined oldest first are the task's activities, each once, for every limit |
| ActivityPaging.PageSize | src/main/persistence/activity-log-store.ts:82-97 | a page holds what was asked for, forty if nothing was, never less than one nor more than a hundred, or all there is; there is more if and only if more is left |
| ActivityPaging.OfTaskIs | src/main/persistence/activity-log-store.ts:88-92 | those are the activities of the list with the task's number, in order |
| LineDiff.CreateBoundedFileChange | src/main/agents/desktop-host-execution-broker.ts:219-232 | the report is the script cut at the limit, the counts are what the matched ends leave, and it is flagged as truncated exactly when the script has at least 512 lines |
| LineDiff.Report | src/main/agents/desktop-host-execution-broker.ts:226-230 | the four loops fill in exactly that prefix of the script |
| LineDiff.ReportRebuildsBoth | src/main/agents/desktop-host-execution-broker.ts:226-231 | a report that is not truncated holds the old lines as its non-additions and the new lines as its non-deletions, each with its number |
| LineDiff.CountsMeanChange | src/main/agents/desktop-host-execution-broker.ts:222-231 | matched prefix and suffix do not overlap, additions minus deletions is what the file grew, and both are zero if and only if nothing changed |
| LineDiff.WholeIffFits | src/main/agents/desktop-host-execution-broker.ts:227-231 | the whole script is reported if and only if it has at most 512 lines or nothing changed |
| LineDiff.ReportIsBounded | src/main/agents/desktop-host-execution-broker.ts:227-231 | a script of at most 512 lines is reported whole, a longer one up to 512 lines, or up to the end of the matched prefix where that is longer |
| LineDiff.FlagIsRightIff | src/main/agents/desktop-host-execution-broker.ts:222-231 | the flag tells truncated reports from whole ones if and only if the script does not have exactly 512 lines and is not that of an unchanged file of 512 or more |
| LineDiff.UnchangedIsFlagged | src/main/agents/desktop-host-execution-broker.ts:126-136 | the inputs for that: an unchanged file of 512 lines or more is reported line by line to its end, and flagged |
| LineFraming.AgentOutput.ConsumeOutput | src/main/agents/cli-agent-process.ts:202-224 | the lines handed on are those of the stream however it is cut; the process has failed if and only if a complete line made it, or some chunk without a line end left an unfinished line over the limit |
| LineFraming.FailureIsOfTheStream | src/main/agents/cli-agent-process.ts:202-224 | the process fails on every cutting of a stream or on none, if and only if the stream makes it fail by a complete line, or its unfinished line is within the limit, or it has no line end at all |
| LineFraming.FailureDependsOnCutting | src/main/agents/cli-agent-process.ts:202-224 | an input for the other case: an empty line and an over-limit piece, in one chunk or in two |
| LineFraming.AgentOutput.ConsumeLine | src/main/agents/cli-agent-process.ts:226-231 | nothing is handed on after the failure, nor a blank line; a line the reader fails on is the last |
| LineFraming.GuestChannel.Consume | src/main/sandbox/vm-guest-bridge.ts:96-116 | the lines handed on are those of the stream, and the channel is closed exactly when the stream is stuck, however it is cut |
| LineFraming.StuckStays | src/main/sandbox/vm-guest-bridge.ts:96-116 | after the first over-limit line or the reader's failure nothing more is ever delivered |
| LineFraming.DeliveredGrows | src/main/sandbox/vm-guest-bridge.ts:96-116 | what is delivered is never taken back |
| LineFraming.HandedOn | src/main/agents/cli-agent-process.ts:212-231 | the reader is handed every line that is not blank, in order, up to the first that is over the limit or fatal to it, the fatal one included |
| LineFraming.LinesRebuild | src/main/agents/cli-agent-process.ts:210-219 | the lines with their ends and the tail are the stream, and no line end is inside a line |
| RemoteUpload.AcceptKeepsValid | src/main/remote-control/remote-control-service.ts:316-329 | accepting a chunk keeps the received bytes equal to the sum of the stored chunks and within the declared size |
| RemoteUpload.CompletionCheck | src/main/remote-control/remote-control-service.ts:335 | the check passes exactly when every index is present and the bytes add up to the size |
| RemoteUpload.PieceIsAccepted | src/main/remote-control/remote-control-service.ts:316-329 | a piece of the file is never refused, in whatever order and however often it comes |
| RemoteUpload.AcceptKeepsStored | src/main/remote-control/remote-control-service.ts:316-332 | a chunk that was stored is never changed, a new one is stored whole, and the upload lives for five more minutes |
| RemoteUpload.LivesFiveMinutes | src/main/remote-control/remote-control-service.ts:307-347 | an upload that was started or accepted a chunk is there for exactly five minutes, unchanged |
| RemoteUpload.RefusedIff | src/main/remote-control/remote-control-service.ts:316-329 | a chunk is refused if and only if its index is beyond the last, it is too long, it would exceed the declared size, or it differs from what is stored |
| RemoteUpload.UploadAssemblesFile | src/main/remote-control/remote-control-service.ts:316-346 | from any order and duplication of a file's pieces the upload completes exactly when each has come, and the assembled bytes are the file |
| RemoteUpload.Session.StartAttachment | src/main/remote-control/remote-control-service.ts:299-305 | a start is refused for its three reasons in order, or reserves a place; never more than two uploads and reservations |
| RemoteUpload.Session.StartFound | src/main/remote-control/remote-control-service.ts:306-313 | the reserved place becomes an empty upload or is given back |
| RemoteUpload.Session.ReceiveAttachmentChunk | src/main/remote-control/remote-control-service.ts:316-329 | a chunk is stored, confirmed as a duplicate, or refused without any change |
| RemoteUpload.Session.CompleteAttachment | src/main/remote-control/remote-control-service.ts:331-346 | completion hands on the assembled bytes, the same ones again if asked twice, or is refused as incomplete or expired |
| RemoteUpload.Session.CleanupExpiredUploads | src/main/remote-control/remote-control-service.ts:348 | the loop removes exactly the expired uploads |
| RemoteUpload.Session.Remove | src/main/remote-control/remote-control-service.ts:341 | a stored or abandoned upload gives its place back |

## Left out

- Electron, IPC, preload, renderer, browser, computer use and speech: user interface and foreign calls.
- Real file systems: directories, permissions, symbolic-link targets as paths, rename retries; a path that is a file in one scan and a directory in another.
- Hashing and encodings: the hash is injective, and base64, JSON and encryption are not modelled; metadata values are primitives or arrays, and no array stands under `turnId` or `segmentId`, so objects and values that JSON drops do not occur. An array of the log is never the caller's own object.
- Request brackets whose scans read different directories: `executionCwd` equals `cwd`.
- Host requests whose scan or diff throws, and journal appends that fail: no record of them is kept, so undo cannot know of them.
- Torn journal lines: a torn line is one of its own. In the source an interrupted append leaves no newline, so the next record joins the torn text and is ignored with it.
- A crash between the deletion of objects and the rewriting of the journal in `gc`: garbage collection is one step.
- Failures while putting the workspace back after a failed undo, or while storing objects and journalling during an undo: those writes succeed.
- Time stamps are instants; `localeCompare` orders the ISO strings the service writes in the same way.
- `metadata.json`, the list of checkpoints for display, and `workspaceRoot`: written or derived, never read back by what is modelled.
- The promise queue of the checkpoint service and the write chain of the log: operations run one at a time.
- Limits that change between calls: the scheduler's and the pool's limits are constants.
- `closeAll` leaving no environment: an acquire that waits for an eviction starts one afterwards.
- Guest start and execution itself, idle-timeout lengths and error classification: their outcomes are events.
- Daylight saving time and `Intl`: within a fall-back hour the code's order is not chronological.
- `Date.UTC` for the years 0 to 99 and the range limits of `Date`.
- Splitting the text of a cron expression into fields, parts and numbers: parsing starts from the pieces and from what `Number` makes of each.
- `once`, `interval` and `manual` schedules: one expression each.
- Import of the legacy activity file, and schema validation of records, apart from the segment of a completion: they are valid.
- The array returned by `read` is the store's cache itself; sequences are values, so a caller changing it is not modelled.
- Appends to the activity log that fail midway while the process goes on: a failed write is modelled as a cut file that is loaded again.
- Replacement identifiers are told apart from all others: task and segment identifiers containing the separator could collide.
- Characters of `trim` and of the Unicode categories: parameters of the text, torn-write and framing models.
- Lines are handed on as raw bytes: stripping a carriage return and decoding UTF-8 are left to the reader of the line.
- Splitting file contents into lines: the diff starts from the two lists of lines, with none for an empty file.
- The cleanup timer of uploads: expired uploads are removed at the next command, as each command does first.
- Storing an uploaded artifact: its end is the removal of the upload.
- `git-parser.ts`, `PersistentCache`, `AutomationService` run statuses, `CliAgentProcess.shutdown`, budgets, display names, policies and allowlists.
