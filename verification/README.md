# Verified model of the port scanner's resume guarantee

The scanner promises that a resumed scan may repeat a row but never skips one. This project states
that promise in Dafny and proves it, together with what it rests on: the plan of targets and its
rebuild, the snapshot format and file, the input checks, and the exact constructions of the
performance harness. `dafny verify dfyconfig.toml` checks everything.

## How it is laid out

- **The running scan.** `Trackers` and `OutputCommitter` are the objects that the run mutates, proved
  against the pure book of `ResultLedger`. `ScanPipeline` is the run as a state machine: dispatcher,
  any number of workers, the waiting goroutine, the result loop and a hostile environment. Between any
  two steps every other process may step. `ScanConservation` and `ScanShutdown` are its invariants,
  `ScanOutcome` says what every finished run has done, `ScanLiveness` that it finishes.
  `ScanCancelWitness` builds the runs that show why a condition is needed. `ProbeGate` models the
  read-write lock around a probe's start at the grain of single reads and writes.
- **The snapshot.** `SnapshotFile` keeps every state that the directory ever had, so that a kill at any
  moment is covered. `ResumeManager` rewinds and saves. `ResumeChain` chains runs that may be killed at
  any step. `JsonText`, `JsonScan`, `JsonVisit`, `SnapshotSchema`, `SnapshotFields`, `SnapshotAcceptance`,
  `SnapshotEncoder`, `SnapshotRoundTrip` and `SnapshotSections` are the hand-written printer and scanner.
- **The plan.** `Networks` and `Ownership` underlie both modes. `BasicTargets`, `BasicResolution`,
  `BasicGroups`, `BasicFallback` and `BasicAgreement` resolve basic rows on the general and on the fast
  path. `RichTargets` and `RichGroups` resolve policy rows. `ResumeRebuild`, `ResumeExactness`,
  `ResumeAccepted`, `ResumeEquivalence` and `RichResume` rebuild the plan from fewer rows, and
  `ResumeWitness` shows the inputs on which that changes it. `CandidateEstimate` counts without enumerating.
- **Input and harness.** `DuplicateTable` and `RowValidation`; `LengthDelimited`, `RunHeap`,
  `NormalizedMerge` and `NormalizedDigest`; `CompactBlocks`; `Decimal`, `DecimalSequence`
  and `MixedSnapshot`.
- **Shared.** `Wrappers`, `Integers`, `Sorting`, `TextOrder`.

## Results worth knowing

- A nil result does not mean that all work is done: an outside cancellation after the dispatcher
  returned gives queued tasks back and leaves both errors nil (`ScanCancelWitness.NilWithoutRows`).
  Without an outside cancellation it does (`ScanOutcome.NilMeansDone`).
- The saved total does not catch every change of ownership on resume. With row ports and overlapping
  CIDRs a chunk can get another target with the same count, and the rebuild accepts it
  (`ResumeWitness.DivergentResume`), so the comment at `pkg/scanapp/chunk_lifecycle.go:98-101` promises
  more than the code does.
- Dropping rows can also switch the path: if only rows without ports are left of a mixed file, the
  rebuild takes the fast path, which may divide shared addresses differently
  (`ResumeWitness.PathMaySwitch`). `ResumeExactness.KeptGroupsStayExactly` says exactly when the kept CIDRs
  keep their groups, whichever paths are taken; they always do when no ip:port is listed under two CIDRs.
- An accepted rebuild is safe for fallback ports and rich rows, and with row ports whenever no ip:port
  that a kept row lists is listed first by a dropped row, even if the path switched
  (`ResumeEquivalence.SameTasksAfterResume`, `RichResume.SameKeysAfterResume`).
- The fast and the general basic path resolve the same tasks but can give a shared address to different
  CIDRs; `BasicAgreement.GroupsCoincide` says exactly when they agree.
- The capacity guard of `compactTaskBlocks` adds 64 in 64-bit arithmetic, so the 64 largest counts pass
  it and yield a block with a negative prefix (`CompactBlocks.CompactTaskBlocks`).
- A sort run that lost the bytes of its last value, but not its length, is read as complete.
  `LengthDelimited.CutReads` says exactly which cuts go unnoticed.
- `decimalSequenceBytes` is exact exactly up to 1029360799201087511, far above what its callers pass, and
  its loop ends exactly up to 17909126868192198656 (`DecimalSequence`).

## Model

| member | source | states |
|---|---|---|
| Trackers.ChunkStateTracker.AdvanceNextIndex | pkg/scanapp/chunk_state_tracker.go:19-24 | the cursor moves to the given index, the status is restated, count and mark stay |
| Trackers.ChunkStateTracker.IncrementScannedBy | pkg/scanapp/chunk_state_tracker.go:30-35 | the count grows by the credited results, the status is restated, cursor and mark stay |
| Trackers.ChunkStateTracker.MarkUnwritten | pkg/scanapp/chunk_state_tracker.go:37-43 | the kept mark is the least index ever marked since the last rewind, in any order of marks |
| Trackers.ChunkStateTracker.RewindUnwritten | pkg/scanapp/chunk_state_tracker.go:45-60 | with no mark nothing changes; otherwise cursor and count both become the least marked index and the marks are gone |
| Trackers.ChunkStateTracker.UpdateStatus | pkg/scanapp/chunk_state_tracker.go:92-98 | the three-way status rule |
| OutputCommitter.BatchOutputs.Write | pkg/scanapp/output_files.go:246-254 | the full file is written first and an error there leaves the open-port file alone; an open row reaches both writers, any other row one |
| OutputCommitter.BatchOutputs.Flush | pkg/scanapp/output_files.go:256-269 | both writers are flushed even if the first flush fails, and the pair succeeds only as a unit |
| OutputCommitter.Committer.AddPending | pkg/scanapp/output_committer.go:98-113 | the entry of a chunk keeps the least index and the number of its pending results |
| OutputCommitter.Committer.Accept | pkg/scanapp/output_committer.go:53-68 | one step of the book: a failed committer marks; otherwise the row is staged and a full batch is committed or, on an error, wholly lost |
| OutputCommitter.Committer.Commit | pkg/scanapp/output_committer.go:115-160 | only after both flushes succeed is each chunk credited with exactly its part of the batch; a failed flush loses the whole batch |
| OutputCommitter.Committer.Fail | pkg/scanapp/output_committer.go:162-173 | every pending result becomes lost and the trackers are marked so that a rewind lands at or before each of them |
| OutputCommitter.Committer.Finish | pkg/scanapp/output_committer.go:70-82 | the last partial batch is committed or lost; nothing stays pending |
| OutputCommitter.Committer.MarkAbandoned | pkg/scanapp/scan_result_loop.go:117-122 | a task that was given back joins the lost tasks and marks its tracker |
| OutputCommitter.MarkingPending | pkg/scanapp/output_committer.go:98-113 | marking only the earliest pending index of each chunk is as good as marking all of its pending results |
| OutputCommitter.ExtendedDescribes | pkg/scanapp/output_committer.go:98-107 | one more result of a chunk keeps the entry equal to the least index and the count of its part of the batch |
| ResultLedger.AcceptKeepsBacked | pkg/scanapp/output_committer.go:53-68 | in every outcome of the file operations each credited row is in both files itself, each pending row at least in the writers, and no row leaves a file |
| ResultLedger.FinishKeepsBacked | pkg/scanapp/output_committer.go:70-82 | the same for the last batch |
| ResultLedger.AcceptAccounts | pkg/scanapp/output_committer.go:53-68 | accepting one result adds that task, and no other, exactly once to pending, committed and lost together |
| ResultLedger.FinishAccounts | pkg/scanapp/output_committer.go:70-82 | finishing moves tasks between the three books without losing or doubling any |
| ScanPipeline.FeedApply | pkg/scanapp/task_dispatcher.go:38-110 | the dispatcher step by step: send a task, then advance the cursor as a separate step, and stop on cancellation between any two |
| ScanPipeline.WorkApply | pkg/scanapp/executor.go:138-207 | a worker step by step: take, ask for permission, probe or panic, deliver, give back, drain after a cancellation or a panic |
| ScanPipeline.WaitApply | pkg/scanapp/executor.go:209-217 | the waiting goroutine: stop the executor, then close the three channels one after the other |
| ScanPipeline.LoopApply | pkg/scanapp/scan_result_loop.go:83-159 | the result loop: one case of the select at a time, the exit condition, the last look at the pressure channel, the last batch |
| ScanConservation.StepConserves | pkg/scanapp/executor.go:138-217 | every step of every process keeps each dispatched task in exactly one place: task queue, a hand, result queue, give-back queue, pending, committed or lost |
| ScanConservation.HandBalance | pkg/scanapp/executor.go:158-205 | a worker's hand changes by exactly what it takes from one queue or puts into another, panics included |
| ScanOutcome.ExactlyOnePlace | pkg/scanapp/executor.go:138-217 | in every reachable state of every interleaving a dispatched task is in exactly one place and any other task is nowhere |
| ScanOutcome.CommittedOrLost | pkg/scanapp/scan_result_loop.go:83-124 | once the loop has ended, each dispatched task is committed or lost, never both, never neither, and no queue holds anything |
| ScanOutcome.RunKeepsInv | pkg/scanapp/scan_runtime.go:273-312 | the invariants of conservation and orderly shutdown hold after any number of steps of any processes |
| ScanOutcome.MarkIsEnough | pkg/scanapp/chunk_state_tracker.go:37-60 | rewinding to the one mark a tracker keeps is rewinding to the least of all lost tasks of its chunk |
| ScanOutcome.NoRowSkipped | pkg/scanapp/resume_manager.go:30-52 | whatever failed, was cancelled or panicked, each index from the starting cursor up to the saved cursor has its row in both files |
| ScanOutcome.SavedBelowCursor | pkg/scanapp/chunk_state_tracker.go:45-60 | a rewind never moves a cursor forward, and never behind where the run started |
| ScanOutcome.CursorAccounting | pkg/scanapp/resume_manager.go:31-40 | if count equals cursor at the start, it does after every run, inside the range of the chunk |
| ScanOutcome.CompleteMeansCommitted | pkg/scanapp/resume_manager.go:37-40 | a chunk that counts as complete has had every one of its tasks committed |
| ScanOutcome.NoFatalErrorLost | pkg/scanapp/scan_result_loop.go:74-150 | a worker panic, and a pressure error reported before the loop left, always end in a non-nil run error |
| ScanOutcome.BufferedPressureHeard | pkg/scanapp/scan_result_loop.go:125-150 | a pressure error still in the channel when the loop leaves is heard by the last look |
| ScanOutcome.NilMeansDone | pkg/scanapp/scan_runtime.go:294-356 | both errors nil and no cancellation from outside: every task of every chunk is in both files |
| ScanCancelWitness.NilWithoutRows | pkg/scanapp/scan_runtime.go:342-356 | in every configuration with a task, and for any number of workers: a reachable run, cancelled from outside after dispatch returned nil, with both errors nil and a task that has no committed row, so the condition of NilMeansDone is needed |
| ScanOutcome.NoProbeAfterStop | pkg/scanapp/executor.go:163-180 | once the executor is stopping, no step of any process starts a probe, and stopping is for good |
| ScanShutdown.StepKeepsOrder | pkg/scanapp/executor.go:209-217 | channels close only after their senders are gone, and no reader leaves before it has drained them |
| ScanShutdown.StepKeepsVoiced | pkg/scanapp/executor.go:105-116 | a panic is always on its way to the run error, through the once, the channel or the loop |
| ScanShutdown.StepKeepsReported | pkg/scanapp/task_dispatcher.go:38-110 | a dispatcher that reports no error has sent every task of every chunk |
| ScanShutdown.StepKeepsJustified | pkg/scanapp/scan_result_loop.go:84-123 | a run is cut short only by an outside cancellation, a panic or an error |
| ScanLiveness.RunIsBounded | pkg/scanapp/scan_result_loop.go:79-124 | no execution is longer than a bound given by its first state |
| ScanLiveness.NoDeadlock | pkg/scanapp/scan_result_loop.go:74-83 | until the result loop has ended, some process other than the environment can always step |
| ProbeGate.RunKeepsInv | pkg/scanapp/executor.go:24-56 | under any interleaving of the read-write lock, the readings taken at the stop are final before the lock is released |
| ProbeGate.NoStartAfterStop | pkg/scanapp/executor.go:36-67 | whoever reads the telemetry finds that no probe started after the stop |
| ProbeGate.CountFrozen | pkg/scanapp/executor.go:24-45 | after the stop the started count never changes again |
| ProbeGate.InFlightIsExact | pkg/scanapp/executor.go:36-52 | the in-flight counter always equals the number of probes between start and finish |
| SnapshotFile.LimitWriter.Write | pkg/state/state.go:343-357 | what is counted is exactly what was written; beyond the limit exactly one byte is written, and reported |
| SnapshotFile.WriteSnapshotViaTempRename | pkg/state/state.go:273-325 | at every moment of the save, whatever fails, the path holds the previous file or the complete new one; success means the new one |
| SnapshotFile.ValidateSnapshotLimits | pkg/state/state.go:491-512 | accepted exactly when the three counts are within their limits and the port total fits 64 bits |
| SnapshotFile.SaveSnapshot | pkg/state/state.go:203-221 | a failed save leaves what was at the path, and says truthfully whether a previous snapshot is there, or that it does not know |
| ResumeManager.RewindAll | pkg/scanapp/resume_manager.go:31-36 | every marked tracker is rewound once, and the count of those is returned |
| ResumeManager.HasIncomplete | pkg/scanapp/chunk_lifecycle.go:28-36 | true exactly when some chunk has fewer credited results than tasks |
| ResumeManager.CollectChunkStates | pkg/scanapp/chunk_lifecycle.go:38-44 | the chunks of all trackers, in order |
| ResumeManager.PersistResumeSnapshot | pkg/scanapp/resume_manager.go:30-52 | all trackers rewind first; the save is skipped exactly when nothing is incomplete, no run error and no cancellation; otherwise the rewound states are saved |
| ResumeManager.TrackersSettle | pkg/scanapp/resume_manager.go:30-52 | the tracker and committer objects, rewound, are the settled chunks that the run theorems speak about |
| ResumeChain.EpisodeKeepsTruth | pkg/scanapp/resume_manager.go:30-52 | one run that is killed at any step, skips the save or fails it leaves a snapshot that claims only rows in the files it names |
| ResumeChain.ChainIsTruthful | pkg/scanapp/resume_manager.go:18-21 | the same for any chain of runs |
| ResumeChain.FinishedChainHasAllRows | pkg/scanapp/resume_manager.go:18-21 | when a chain reaches the end of every chunk, every index has its row: none was ever skipped |
| ResumeChain.SkippedSaveHasAllRows | pkg/scanapp/resume_manager.go:37-40 | a run that skips the save, at the end of any chain, leaves all rows in the files |
| Networks.NetworkContainsIff | pkg/input/validate.go:208-228 | the masked comparison is containment of every address |
| Networks.ExpandRange | pkg/task/selector_expand.go:102-114 | the 32-bit enumeration yields every address of the range once, in order, and stops at 255.255.255.255 |
| Networks.ExpandSelectors | pkg/task/selector_expand.go:77-140 | the union of the selectors, increasing, without repetitions |
| Networks.FilterBoundaryBroadcast | pkg/task/broadcast.go:29-52 | removes exactly the last address of a boundary of prefix 30 or shorter, keeps the order, and changes nothing for longer prefixes |
| Networks.WithoutBroadcastMembers | pkg/task/broadcast.go:42-51 | an address survives the filter exactly when it is not the broadcast address of the boundary |
| Ownership.OwnerIsFirst | pkg/scanapp/basic_target_resolution.go:176-201 | the owner of an ip:port is the group of the first claim on it |
| Ownership.PortsOfOwner | pkg/scanapp/basic_target_resolution.go:182-199 | the port list of an address under a CIDR holds exactly the ports that this CIDR owns there |
| BasicTargets.TargetIPs | pkg/scanapp/basic_target_resolution.go:91-122 | the addresses of a row after the broadcast filter, or the missing-selector error |
| BasicResolution.CollectClaims | pkg/scanapp/basic_target_resolution.go:142-202 | fails with the first bad row in input order; otherwise the two maps say exactly who owns what |
| BasicResolution.OwnerIsFirstRow | pkg/scanapp/basic_target_resolution.go:146-201 | over all rows, a task belongs to the CIDR of the first row that yields it |
| BasicGroups.GatherPlaces | pkg/scanapp/basic_target_resolution.go:204-216 | groups addresses by CIDR and port list, whatever order the maps are walked in |
| BasicGroups.FinishGroups | pkg/scanapp/basic_target_resolution.go:217-223 | every group is sorted and its task count is addresses times ports |
| BasicGroups.ResolveGeneral | pkg/scanapp/basic_target_resolution.go:142-225 | the general path as a whole: the first error, or the one resolution that fits the claims |
| BasicGroups.ResolutionUnique | pkg/scanapp/basic_target_resolution.go:204-225 | only one map of groups fits the claims: map iteration order is invisible |
| BasicGroups.IndexToRuntimeTarget | pkg/scanapp/scan_helpers.go:12-43 | the flat index names the pair it decomposes into, a dedicated port wins, and each error has its own condition |
| BasicGroups.Partition | pkg/scanapp/basic_target_resolution.go:142-225 | every task that some row yields is at exactly one flat index of exactly one group, that of the first row; nothing else is anywhere |
| BasicGroups.OneTaskPerIndex | pkg/scanapp/scan_helpers.go:37-42 | and at one flat index there is one task only |
| BasicFallback.KeepUnseen | pkg/scanapp/basic_target_resolution.go:242-249 | in place: strictly increasing, exactly the addresses no earlier group took, each once |
| BasicFallback.CollectByCidr | pkg/scanapp/basic_target_resolution.go:262-314 | each CIDR collects exactly the reachable addresses its rows list, or the first bad row is reported |
| BasicFallback.ResolveFallback | pkg/scanapp/basic_target_resolution.go:227-260 | every address goes to the least CIDR in text order that lists it |
| BasicAgreement.ResolveBasicTargets | pkg/scanapp/basic_target_resolution.go:124-225 | which path is taken, and that it fails exactly on the first bad row |
| BasicAgreement.FastPartition | pkg/scanapp/basic_target_resolution.go:227-260 | the fast path places every yielded task exactly once, under the least CIDR |
| BasicAgreement.SameTasks | pkg/scanapp/basic_target_resolution.go:124-260 | both paths resolve the same tasks |
| BasicAgreement.GroupsCoincide | pkg/scanapp/basic_target_resolution.go:124-260 | the two paths build the same groups if and only if every address is listed first by its least CIDR |
| BasicAgreement.NoSharedAddressAgrees | pkg/scanapp/basic_target_resolution.go:227-260 | which is so when no address is listed under two CIDRs |
| BasicAgreement.OwnersDisagree | pkg/scanapp/basic_target_resolution.go:236-249 | one host of any two CIDRs, the greater one first: the two paths build different groups |
| ResumeRebuild.FilterRecordsByChunkKey | pkg/scanapp/chunk_lifecycle.go:346-372 | keeps exactly the rows of the given keys, in order |
| ResumeRebuild.SelectRuntimeRecords | pkg/scanapp/chunk_lifecycle.go:117-145 | rows are dropped only when some chunks are completed, some are not, and every incomplete one has a saved total |
| ResumeRebuild.FallbackFromChunks | pkg/scanapp/chunk_lifecycle.go:294-314 | the ports of all chunks, each once; the common list itself when all chunks agree |
| ResumeRebuild.RebuildChunk | pkg/scanapp/chunk_lifecycle.go:173-251 | a chunk is rebuilt exactly when its group exists and its total is missing or equal |
| ResumeRebuild.BuildBasicRuntime | pkg/scanapp/chunk_lifecycle.go:109-259 | success means every incomplete chunk fits its group in the resolution of the selected rows; a refusal names a chunk that fits none |
| ResumeRebuild.FallbackResume | pkg/scanapp/chunk_lifecycle.go:81-104 | without row ports, dropped rows can only add addresses to a kept CIDR, and an equal total forces the same sequence |
| ResumeEquivalence.RowPortResume | pkg/scanapp/chunk_lifecycle.go:95-101 | when no ip:port is listed under two CIDRs, every kept group is unchanged, on either path |
| ResumeEquivalence.SameTasksAfterResume | pkg/scanapp/chunk_lifecycle.go:109-259 | if the plan was on the fast path, or no ip:port that a kept row lists is listed first by a dropped row: an accepted rebuild gives every incomplete chunk the addresses and ports, in the order, that its saved cursor counts |
| ResumeEquivalence.ResumeSavedPlan | pkg/scanapp/chunk_lifecycle.go:109-259 | the rebuild itself, given the ports of the plan or, behind a fast plan, none: what it accepts runs the saved tasks |
| ResumeEquivalence.SavedPlanPorts | pkg/scanapp/chunk_lifecycle.go:294-314 | without a port file the saved chunks give back the port list of a fast plan, in its order |
| ResumeAccepted.AcceptedTotalsSameGroups | pkg/scanapp/chunk_lifecycle.go:226-236 | a rebuild that switched to the fast path: if every kept CIDR has its old total, every kept CIDR has its old group |
| ResumeExactness.KeptGroupsStayExactly | pkg/scanapp/chunk_lifecycle.go:95-101 | whichever paths the plan and the rebuild take: the kept CIDRs keep their groups if and only if the owner of everything they list is kept as well and, where the rebuild switches to the fast path, the first CIDR of every address is also its least |
| ResumeExactness.MixedKeepsIff | pkg/scanapp/basic_target_resolution.go:134-140 | the case of the switch: only rows without ports are left of a file with both kinds |
| ResumeExactness.FastKeepsIff | pkg/scanapp/basic_target_resolution.go:227-260 | the case of two fast paths: exactly when the least CIDR of every address still listed is kept |
| ResumeWitness.RowPortsMayDiverge | pkg/scanapp/chunk_lifecycle.go:98-101 | with overlapping CIDRs a chunk can get another target with the same total, for any two CIDRs that share two hosts |
| ResumeWitness.DivergentResume | pkg/scanapp/chunk_lifecycle.go:109-259 | and the rebuild accepts it: planned, saved and resumed, the cursor of one host counts the other |
| ResumeWitness.PathMaySwitch | pkg/scanapp/basic_target_resolution.go:134-140 | dropping the only row with a port moves a host to another CIDR although no dropped row owned anything that is left |
| RichTargets.RowTargets | pkg/scanapp/group_builder.go:234-242 | the targets of one accepting row after segment expansion, broadcast, deny and reachability filters |
| RichTargets.DeniedExecutionKeys | pkg/scanapp/group_builder.go:291-306 | the keys of all valid deny rows, wherever they stand |
| RichTargets.OwnerIsFirstGrant | pkg/scanapp/group_builder.go:247-272 | a key belongs to the segment of the first accepting row that yields it |
| RichGroups.TakeTargets | pkg/scanapp/group_builder.go:247-272 | a known key only merges, and its port always agrees; a new key is appended once |
| RichGroups.BuildRichGroups | pkg/scanapp/group_builder.go:210-284 | fails exactly when no row is valid; otherwise each group is the strictly sorted list of the keys its segment owns |
| RichGroups.RichPartition | pkg/scanapp/group_builder.go:210-324 | each authorized reachable key is in exactly one group at one index, and no denied key is in any group, whatever the row order |
| RichGroups.RichResolutionUnique | pkg/scanapp/group_builder.go:545-560 | the sequences depend only on who owns which key |
| RichResume.FilterRichRecords | pkg/scanapp/chunk_lifecycle.go:346-372 | keeps every deny row and exactly the valid rows of the given segments |
| RichResume.DeniedStay | pkg/scanapp/chunk_lifecycle.go:357-362 | dropping rows never changes the denied keys |
| RichResume.RichGroupResume | pkg/scanapp/chunk_lifecycle.go:81-104 | dropped rows can only add keys to a kept segment, and an equal count forces the same sequence |
| RichResume.BuildRichRuntime | pkg/scanapp/chunk_lifecycle.go:109-259 | success means every incomplete chunk fits its segment in the build from the selected rows |
| RichResume.SameKeysAfterResume | pkg/scanapp/chunk_lifecycle.go:109-259 | an accepted rebuild gives every incomplete chunk the keys of its segment in the saved order |
| CandidateEstimate.NewLimits | pkg/task/expansion_limits.go:45-60 | accepted exactly when neither limit is negative and the byte limit fits 64 bits |
| CandidateEstimate.CountBetween | pkg/task/expansion_limits.go:320-323 | two binary searches count exactly the denied addresses between two bounds |
| CandidateEstimate.NewDeniedIndex | pkg/task/expansion_limits.go:271-306 | per port, the denied addresses in increasing order, and no others |
| CandidateEstimate.CountRow | pkg/task/expansion_limits.go:115-140 | the number of addresses a row may add, by subtraction that never goes below zero |
| CandidateEstimate.AddCandidateCount | pkg/task/expansion_limits.go:183-196 | exact in 64 bits, and refused exactly when the new total does not fit the machine or a limit |
| CandidateEstimate.EstimateAuthorized | pkg/task/expansion_limits.go:98-147 | succeeds exactly when every counted row names addresses and the true total fits; then the count is the true total |
| CandidateEstimate.EstimateBoundsGroups | pkg/scanapp/group_builder.go:210-284 | the groups that the builder makes hold together no more tasks than the estimate |
| DuplicateTable.Table.constructor | pkg/input/validate.go:119-134 | room for all announced rows, and the doubling never reaches its guard |
| DuplicateTable.Table.Probe | pkg/input/validate.go:142-155 | for any hash function the probe ends at the slot of the key or at a gap |
| DuplicateTable.Table.Add | pkg/input/validate.go:136-156 | a duplicate is reported exactly when the key was added before, with the row it came from; otherwise the table is the map with one more key |
| DuplicateTable.AbsentAtGap | pkg/input/validate.go:144-150 | a gap in the probe sequence proves that the key is absent |
| RowValidation.FindDuplicate | pkg/input/validate.go:66-86 | nothing is reported exactly when all keys are distinct; a report names the first pair |
| RowValidation.ValidateIPRows | pkg/input/validate.go:50-98 | accepts exactly parsed rows with distinct keys and contained selectors, and otherwise names the first offence |
| JsonScan.StringEndsAtQuote | pkg/state/snapshot_schema.go:208-227 | a valid string of RFC 8259 section 7 is scanned to its closing quote, through every escape |
| JsonScan.NestedOverValue | pkg/state/snapshot_schema.go:187-205 | any well-formed value inside brackets is passed without changing the depth |
| JsonScan.ValueEndsExactly | pkg/state/snapshot_schema.go:168-206 | any well-formed value followed by a delimiter or by nothing is scanned exactly to its end |
| JsonVisit.ObjectVisitsExactly | pkg/state/snapshot_schema.go:94-137 | visiting an object reports exactly its members: names decoded, values cut out whole, in order |
| JsonVisit.ArrayVisitsExactly | pkg/state/snapshot_schema.go:139-166 | visiting an array reports exactly its elements, in order |
| SnapshotSchema.SkipJSONSpace | pkg/state/snapshot_schema.go:229-239 | the position of the first character that is not space |
| SnapshotSchema.ScanJSONString | pkg/state/snapshot_schema.go:208-227 | the loop with its escape flag finds the end that the string function gives |
| SnapshotSchema.ScanJSONValue | pkg/state/snapshot_schema.go:168-206 | the loops over positions and depth find the end that the value function gives |
| SnapshotSchema.VisitJSONObject | pkg/state/snapshot_schema.go:94-137 | the position loop reports the visits of the object function, on any text |
| SnapshotSchema.VisitJSONArray | pkg/state/snapshot_schema.go:139-166 | the position loop reports the visits of the array function, on any text |
| SnapshotFields.ValidateSnapshotObject | pkg/state/snapshot_schema.go:55-66 | accepts null, any text that is not an object, and exactly those objects whose visited names are all known |
| SnapshotFields.ValidateSnapshotSchema | pkg/state/snapshot_schema.go:26-53 | accepts exactly the texts whose visited fields are all known, and reports what they add up to |
| SnapshotAcceptance.AcceptedIffKnown | pkg/state/snapshot_schema.go:26-66 | for every well-formed object text whose names decode, in any layout: accepted if and only if every top-level name is known and every section and chunk has known names only |
| SnapshotAcceptance.ValueOkIff | pkg/state/snapshot_schema.go:55-66 | one section: an object passes if and only if all its names are known, any other value always |
| SnapshotAcceptance.ValidateTree | pkg/state/snapshot_schema.go:26-53 | the check itself refuses exactly the trees with an unknown name |
| SnapshotEncoder.Encoder.WriteStrings | pkg/state/snapshot_encode.go:158-184 | a list of strings as the text of its tree, a missing list as null |
| SnapshotEncoder.Encoder.WriteChunk | pkg/state/snapshot_encode.go:80-106 | one chunk as the text of an object with its seven fields |
| SnapshotEncoder.Encoder.WriteChunks | pkg/state/snapshot_encode.go:57-78 | the chunk list as the text of an array with one element a chunk |
| SnapshotEncoder.Encoder.EncodeSnapshot | pkg/state/snapshot_encode.go:16-55 | the whole snapshot as the text of one object whose sections are exactly the present ones |
| SnapshotRoundTrip.EncodedSnapshotIsAccepted | pkg/state/snapshot_schema.go:26-53 | for every snapshot and any valid escaping, the written text is well formed, visiting it reports exactly the written top-level fields, all pass, and the shape is the true one |
| SnapshotSections.WrittenFieldsAreVisited | pkg/state/snapshot_schema.go:94-166 | inside as well: the chunk list reports one text for each chunk, and visiting each chunk and each present section reports exactly its written fields, in order |
| SnapshotRoundTrip.EncodeAndValidate | pkg/state/state.go:431-434 | printing and then checking the bytes never refuses, and counts the chunks |
| LengthDelimited.ReadWritten | internal/perfharness/normalized_csv.go:135-143 | reading gives back what was written, however the stream goes on |
| LengthDelimited.ReadAllWritten | internal/perfharness/normalized_csv.go:214-228 | a file of written values is read back whole |
| LengthDelimited.CutReads | internal/perfharness/normalized_csv.go:214-228 | a file of written values cut anywhere gives back exactly the values still whole, and reads without an error if and only if the cut is at the end of a value or just behind a length |
| LengthDelimited.CutPosition | internal/perfharness/normalized_csv.go:135-143 | what the two measures of a cut mean: it lies that many bytes behind that many whole values, short of the next one |
| LengthDelimited.CutAfterLength | internal/perfharness/normalized_csv.go:214-228 | for any values and any non-empty lost value, the bare length left of it goes unnoticed |
| RunHeap.Down | internal/perfharness/normalized_csv.go:151-162 | restores heap order below one place, moving runs only within the heap |
| RunHeap.Pop | internal/perfharness/normalized_csv.go:156-162 | takes out a least run and leaves a heap of exactly the others |
| RunHeap.Push | internal/perfharness/normalized_csv.go:156 | a heap with exactly one more run |
| NormalizedMerge.MergeStep | internal/perfharness/normalized_csv.go:190-202 | taking the least value loses and doubles nothing, whatever the files hold, and keeps the output sorted and below everything left if they were sorted |
| NormalizedMerge.MergeRuns | internal/perfharness/normalized_csv.go:164-212 | ends on any files and fails exactly when one of them cannot be read to its end; otherwise feeds every value of every file once, in order if the files are sorted |
| NormalizedDigest.WriteRuns | internal/perfharness/normalized_csv.go:83-131 | for every chunk size of at least 1, sorted run files of at most that many values that together hold every normalized row |
| NormalizedDigest.DigestInput | internal/perfharness/normalized_csv.go:44-133 | fails exactly on a bad chunk size or a missing header; otherwise the digest is fed the sorted rows |
| NormalizedDigest.NormalizedPermuted | internal/perfharness/normalized_csv.go:83-131 | permuted rows normalize to permuted values |
| NormalizedDigest.DigestInputUnique | internal/perfharness/normalized_csv.go:44-132 | with one header, permuted rows feed the digest the same bytes |
| NormalizedDigest.DigestBoth | internal/perfharness/normalized_csv.go:44-133 | two digests of permuted rows with any two chunk sizes of at least 1 are equal |
| CompactBlocks.UsableSize | pkg/task/broadcast.go:29-52 | a block loses exactly its broadcast address, and only with four addresses or more |
| CompactBlocks.CompactTaskBlocks | internal/perfharness/orchestration_workflow.go:281-313 | refuses exactly 0 and the counts above capacity minus 64 up to where the guard wraps; an accepted count gives aligned, disjoint blocks and outside singles with exactly that many usable addresses if and only if it fits |
| Decimal.SumWidthsBetween | internal/perfharness/harness.go:486-496 | between two powers of ten the decimal widths add up by multiplication |
| DecimalSequence.DecimalSequenceBytes | internal/perfharness/harness.go:486-496 | for every count for which the loop ends: the true sum of the decimal widths of 0 up to the count if and only if the count is at most 1029360799201087511; modulo 2^64 while the boundary fits |
| DecimalSequence.NoTotalIsRight | internal/perfharness/harness.go:486-496 | the true sum fits 64 bits exactly up to that count, so above it no result can be right |
| DecimalSequence.EndsExactly | internal/perfharness/harness.go:486-496 | the loop ends exactly for the counts up to 17909126868192198656, the greatest power of ten modulo 2^64 |
| MixedSnapshot.CheckedMultiply | internal/perfharness/harness.go:505-510 | succeeds exactly when the product fits 64 bits, and is exact |
| MixedSnapshot.MixedSnapshotSize | internal/perfharness/harness.go:455-484 | exact for every count that passes the guard, refused for all others; no checked sum ever fails |
| MixedSnapshot.SizeMonotone | internal/perfharness/harness.go:438-447 | more chunks make a longer fixture, which the binary search relies on |
| MixedSnapshot.MixedSnapshotCounts | internal/perfharness/harness.go:427-453 | the least number of chunks that reaches the target, refused exactly when none in range does |
| MixedSnapshot.WriteMixedSnapshot | internal/perfharness/harness.go:369-425 | writes as many bytes as the searched size says, at least the target, and no smaller count would do |

## Left out

- Sockets, ping, HTTP, OAuth, signals, terminals: a probe is any result or a panic, cancellation a flag that can be raised at any step, pressure a message that may arrive.
- Time: delays, tickers, rate limits, buckets, the pause gate, flush durations, dashboards and telemetry counters; no theorem here depends on them.
- Panics outside the probe: an observer that panics after a task was sent leaves the cursor one behind, which the model excludes.
- `resultSummary` counts, batch numbers, events and observers of the committer.
- CSV text, flags, configuration and file naming: rows start parsed, addresses are numbers below 2^32, CIDRs aligned power-of-two ranges with their canonical text. A blank CIDR text is taken to have been replaced by the boundary's text already. A group key is the pair of CIDR and ports instead of its joined text.
- Metadata of targets and its merging; only addresses and ports are compared after a resume. Files that mix basic and rich rows, which the loader does not produce.
- Cancellation inside target planning, validation and expansion: those loops are modelled uncancelled.
- ResumeRebuild.BuildBasicRuntime: works on chunk values and returns the updated chunk instead of writing it back, and leaves out the status text and the parsing of port texts.
- ScanPipeline.LoopApply: the committer is its book, not the object; `ResumeManager.TrackersSettle` and the contracts of `OutputCommitter` connect the two.
- ResumeChain.EpisodeKeepsTruth: does not count rows that a later flush may still add to the files before a kill; more rows never make a claim of the snapshot false.
- DuplicateTable.Table.Probe: the hash is any function to the natural numbers, and `& mask` on the power-of-two capacity is the remainder. The 32-bit row number in a slot is exact because a file is all basic or all rich, or has fewer than 2^32 rows.
- RowValidation.ValidateIPRows: requires such a file.
- DecimalSequence.DecimalSequenceBytes: counts for which the loop never ends, which are those above 17909126868192198656 (`DecimalSequence.EndsExactly`); for counts above 10^19 it says only that the result is not the true sum.
- MixedSnapshot.WriteMixedSnapshot: write errors and cancellation between writes.
- NormalizedDigest.DigestInput: errors of reading the table and of creating and writing run files.
- Networks.ExpandSelectors: selectors are parsed networks, and the two expansion limits, which its caller here leaves at zero, are modelled in `CandidateEstimate`.
- Networks.FilterBoundaryBroadcast: is called with a boundary; a row without one keeps all its addresses (`BasicTargets.TargetIPs`).
- SnapshotSchema.ScanJSONValue: does not say which position goes with a failure; no caller looks at it.
- RunHeap.Down: the heap operations are those of the standard library, written out over a sequence; the source supplies only order, swap, push and pop.
- NormalizedMerge.MergeRuns: I/O errors of opening, closing and removing run files, SHA-256 itself, and the bound on memory.
- SnapshotFile.WriteSnapshotViaTempRename: a rename replaces its target in one step, as on POSIX; buffering inside the writer is any sequence of writes.
- SnapshotFile.SaveSnapshot: looking the file up is only known or unknown; the three messages of a failed save are result values.
- SnapshotFields.ValidateSnapshotObject: trimming removes ASCII space only; the library also trims two other code points.
- SnapshotSchema.VisitJSONObject: collects the visits that the source passes to a callback one by one; the callback's error ends its caller's loop instead of the scan.
- SnapshotEncoder.Encoder.EncodeSnapshot: the chunk list is not nil, which the source writes as null and refuses on load; write errors are left out. The escaping of strings is a parameter of which only RFC 8259 validity is assumed.
- `encoding/json` decoding, the legacy array format, `GenerateBuckets` with its fan-out to temporary files, reports, mocks, labs and the rest of the harness: they would add only easy members.
