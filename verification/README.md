# Verified models of the funzzy watcher

funzzy is a file watcher that runs a configured workflow whenever files change.
This project models the parts of it that carry state and promises, and proves
what they promise for every input, every run and every reachable state:

- the **executor**, which drives a plan of stages through bounded slots with
  barriers, fail-fast, approved recovery, background services and cancellation
  at any point;
- **retained output**: bounded capture, a byte-budgeted store, and paged
  retrieval with opaque cursors;
- **config revisions**: the canonical encoding that decides whether a reload
  changed anything;
- the **bounded observers** of the event stream: duration history and recorder,
  the await window and the feedback-loop detector, each compared with a plain
  function of the whole log.

## How it is organised

| files | content |
|---|---|
| `Plan`, `RunLog`, `RunState` | plans; the log of a run and the lifecycle automaton of a task; the state of a run and the invariant |
| `RunLine`, `RunSteps`, `RunSettling`, `RunRecovery`, `TaskSteps`, `RunWork` | one lemma per atomic step: it keeps the invariant, and how much work it leaves |
| `RunReport`, `RunTrace`, `RunTheorems` | what a finished run reports; which commands a log shows; what holds of every run |
| `Executor` | the classes `Run` and `Executor` with the operations themselves |
| `Utf8`, `Unicode`, `Capture`, `Retention`, `Evidence` | lossy decoding, what UTF-8 is, bounded capture, the store, failure evidence |
| `PageSize`, `Json`, `Cursor`, `PagePlan`, `Paging`, `Reading` | serialized size, the JSON text itself, cursors, page plan, the walk over it, and the client |
| `OwnCursors`, `IllFormedOutput` | when the server's own cursors are accepted and exact, for any output, and inputs for which they are not |
| `Decimal`, `Canonical`, `ConfigSort`, `ConfigRevision`, `Revisions` | number notation, the length-prefixed encoder and its decoder, surfaces, hashes and the tracker |
| `Estimates`, `DurationHistory`, `DurationRecorder` | the estimator, the bounded history, the recorder |
| `Awaiting`, `LoopDetector` | the await window, the feedback-loop heuristic |
| `Sorting` | stable sorting, used by four of the above |

**The executor.** Everything outside it is an oracle `Env`: each spawn attempt may
be refused or give a child that answers finitely many polls before it exits, each
working directory may be missing, each approval may take any number of polls, and
the cancellation token may be set before any observation of it. All operations
keep one invariant, `RunState.Inv`, which says where every planned task is and
with what history (`Places`), how slots, stages and the log are ordered (`Order`,
`Sequenced`), and how results, outcomes and snapshots agree (`Reports`). The
source moves a task by ownership from container to container; the model makes that
identity visible as a ticket number that no decision looks at. Tasks held in local
variables during a call are the ghost field `hand`.

**Paging.** Text is its own UTF-8 encoding. Sizes are the exact byte counts of the
JSON document, which `Json` writes out in full. A page is specified by `Paging.PageIs` without
reference to how it is found.

**Hashing.** SHA-256 in hexadecimal is a function parameter assumed to be free of
collisions where a property needs that; everything else is stated on the bytes.

## Where code and documentation differ

The model follows the code. Each difference has a lemma with the exact condition.

- `AwaitMode::After` is documented as the *next* terminal generation; the code
  answers with the one *recorded last*. They agree exactly when at most one
  generation above has been recorded (`Awaiting.AfterIsLastRecorded`); generations
  need not end in order (`Awaiting.AfterTwoEndings`).
- Two revisions with the same hash are documented as semantically identical, but
  commands are sorted before they are encoded, so reordering the commands of a
  rule is a no-op. An encoding fixes the order exactly for rules without two
  different commands (`Revisions.CommandOrderDecided`).
- Cursors count bytes of lossily decoded text. For output that is not UTF-8 the
  server's own cursor can be refused (`IllFormedOutput.StrayCursorRefused`), exactly
  when the first character boundary beyond the bytes left still fits
  (`OwnCursors.OwnCursorAccepted`); no budget does that exactly when every last
  decoded character starts within the bytes left (`OwnCursors.OwnCursorsAccepted`).
- A cursor that is accepted can still skip bytes (`IllFormedOutput.TextSkipped`); it
  skips none exactly when every ill-formed run before it is three bytes long
  (`OwnCursors.CursorSkips`). For UTF-8 output reading is exact (`Reading.ReadAll`).
- Reading page by page ends exactly when the budget admits every single character;
  otherwise the client gets an empty page with a cursor to the same place
  (`Reading.ReadAll`).
- `from_snapshot` is documented to enforce the retention bound; a signature listed
  twice can exceed it, by its successes or its failures
  (`DurationHistory.RestoredBeyondBound`, `DurationHistory.RestoredBound`).
- `additional_failed_tasks` counts every other retained task, failed or not, and no
  failed task that retained nothing (`Evidence.AdditionalCount`).
- The reset of an expired loop entry is never reached, because pruning has already
  removed it (`LoopDetector.Detector.CountTrigger`).
- Fail-fast leaves background services running, and `reconcile_services` records an
  outcome but no snapshot; conservation is stated with both.

## Model

| member | source | states |
|---|---|---|
| RunTheorems.TaskConservation | src/executor.rs:690-792 | between any two calls every planned or appended task is in exactly one of stages, queue, slots, pending recoveries, services, snapshots or retired services, exactly once |
| RunTheorems.ScheduleIndependence | src/executor.rs:690-977 | two finished runs of one service-free, recovery-free plan without fail-fast and with the same per-command results report the same outcome list, whatever their limits and whatever the order of child exits |
| RunTheorems.OutcomesTold | src/executor.rs:803-1314 | in every run, with any fates, fail-fast or recoveries, the outcome of a finite task that was neither cancelled nor skipped is told by the log: what verification found, or the failures of the original commands spawned and of a failed recovery, or the missing directory |
| RunTheorems.StageBarrier | src/executor.rs:695-790 | when a finite task spawns a command every finite task of an earlier stage already has its terminal record in the log, and everything it ever spawns is already behind |
| RunTheorems.DeclarationOrder | src/executor.rs:794-801 | when no stage had more than one slot, any two original commands are spawned in declaration order, by task and by command within a task |
| RunTheorems.OriginalCommandsRun | src/executor.rs:803-977 | of its original commands a finite task spawns the first, second and so on; once it has ended without being cancelled these are none if its directory is missing, otherwise all of them, or a first part when fail-fast ended it |
| RunTheorems.RecoveryCommandsRun | src/executor.rs:1161-1260 | recovery commands, and the original ones again for verification, are spawned in order and at most once, all of them when the list is announced as passed |
| RunTheorems.SequentialTrace | src/plan.rs:387-401 | with one slot and without fail-fast a finished run has spawned exactly the original commands of every finite task that has its directory, in declaration order |
| RunTheorems.SequentialCommands | src/plan.rs:387-401 | for finite tasks without recoveries whose directories exist, the command lines spawned with one slot are those of the tasks in order |
| RunTheorems.FinishedTrace | src/plan.rs:387-401 | a finished run has spawned of each finite task exactly its commands, and with one slot exactly the flattened plan |
| RunTheorems.RecoverySafety | src/executor.rs:1052-1275 | a recovery or verification command is spawned only under policy Prompt, after original failure, request and an Approved decision in this order, where Approved is what the adapter answered, and before any cancellation was seen |
| RunTheorems.RequestsAnswered | src/executor.rs:1063-1278 | a job whose recovery was requested and that was not cancelled got the adapter's answer: it was recovered exactly when that was Approved, and otherwise failed without a recovery spawn, unless another recovery failed before its turn |
| RunTheorems.RecoveryOnce | src/executor.rs:1156-1275 | no recovery phase of a job happens twice, so recovery and verification each run at most once |
| RunTheorems.ServiceBudget | src/executor.rs:1386-1527 | successful spawns, restarts left and a pending respawn of a background service add up to one plus the restart bound, and it always has a child or a queued command |
| RunTheorems.ConcurrencyBound | src/executor.rs:706-722 | at every point of a run, within calls and between them, the finite tasks with a child number at most the limit in force when the stage was started, at most the tasks of the group, and at most one in a serial stage |
| RunTheorems.BoundOverCalls | src/executor.rs:630-637 | over any sequence of calls, with the limit changed, plans appended and services reconciled in between, the limit that bounds the current stage is the one in force in the call that started it |
| RunTheorems.LoneRecoveryChild | src/executor.rs:1156-1252 | within a call the child of a recovery or verification is the only finite one, and nothing is queued or in a slot |
| RunLog.RecoverySpawnWasApproved | src/executor.rs:1150-1175 | in every log the lifecycle automaton accepts, a recovery spawn follows failure, request and approval |
| RunLog.PhasesHappenOnce | src/executor.rs:1150-1275 | in every accepted log each lifecycle event happens at most once per task |
| RunLog.SpawnsInOrder | src/executor.rs:833-838 | in every accepted log the commands of one task and phase are spawned at most once each, in list order |
| RunTrace.IndicesExact | src/executor.rs:833-838 | in every accepted log a phase spawns commands 0, 1, 2 and so on without a gap, none before it begins |
| RunTrace.OriginalsSpawned | src/executor.rs:833-838 | what a task has spawned of its original commands is fixed by the event with which it left them |
| RunTrace.PassedListSpawned | src/executor.rs:1195-1200 | a recovery or verification announced as passed has spawned its whole list |
| RunSteps.StartStageInv | src/executor.rs:696-725 | starting a stage keeps the invariant and fixes its slots: one for a serial stage; for a group no more than the limit, no more than its tasks, and as many as one of these |
| RunSteps.FillSlotInv | src/executor.rs:794-801 | filling a slot keeps the invariant, in particular the slot bound and the order of the line |
| RunSteps.ProgressInv | src/executor.rs:730-745 | a task that keeps running in its slot keeps the invariant |
| RunSteps.BackgroundInv | src/executor.rs:737-742 | moving a spawned service to the background keeps the invariant and its restart budget |
| RunSteps.LeaveInv | src/executor.rs:747-751 | taking a finished task out of its slot keeps the invariant: its list is used up, or it failed fast, or its directory is missing |
| RunSteps.FatedFailures | src/executor.rs:803-977 | with fixed results the failures of a task are those of its commands, in order |
| RunSteps.EarlierDone | src/executor.rs:696-725 | all finite tasks of stages before the current one have a terminal record |
| RunSettling.DeferInv | src/executor.rs:1035-1047 | deferring a failed task for recovery keeps the invariant |
| RunSettling.RecordInv | src/executor.rs:1280-1314 | recording a task moves it from hand to snapshots and keeps results, outcomes and snapshots in agreement |
| RunSettling.RecordTold | src/executor.rs:1280-1314 | a new outcome tells what the log says, and all earlier ones still do |
| RunSettling.ReturnInv | src/executor.rs:1058-1061 | putting pending recoveries back after a cancellation keeps the invariant |
| RunSettling.PollInv | src/executor.rs:1386-1527 | polling, restarting or respawning a service in place keeps the invariant |
| RunSettling.RetireInv | src/executor.rs:1794-1815 | retiring a service keeps the invariant with an outcome but no snapshot |
| RunSettling.AppendInv | src/executor.rs:1778-1782 | appending a plan keeps the invariant, conservation and both orders of the log |
| RunSettling.StartInv | src/executor.rs:657-688 | a fresh run satisfies the invariant |
| RunSettling.LogFacts | src/executor.rs:690-792 | in every reachable state the log respects stages, barrier, cancellation and, with one slot, declaration order, and no task has left its lifecycle |
| RunRecovery.RecoverInv | src/executor.rs:1181-1194 | advancing a recovery or verification list keeps the invariant: its child is the only finite one |
| RunWork.StayWork | src/executor.rs:833-976 | a running task has strictly less work left after each call |
| RunWork.ServiceWork | src/executor.rs:1386-1527 | so has every service that is polled, restarted or dropped |
| RunReport.SortRecordsSpec | src/executor.rs:1591-1591 | the report is a sorted permutation of the outcomes that keeps the order of outcomes at equal positions |
| RunReport.OutcomesCoverPlan | src/executor.rs:1280-1314 | when everything is settled each planned task has exactly one outcome |
| RunReport.PlainOutcomes | src/executor.rs:803-977 | a plain run records exactly the outcomes that its per-command results determine, failures in command order |
| RunReport.ResultsAgree | src/executor.rs:1194-1275 | for service-free plans results hold an error exactly when some outcome is a failure |
| RunReport.ReportTells | src/executor.rs:1589-1629 | every reported outcome tells what the log says, and without fail-fast and cancellation every task has run |
| RunReport.FinishedReport | src/executor.rs:1589-1629 | the report of a finished run: agreement with results, coverage of the plan, independence of the schedule |
| Executor.Run.constructor | src/executor.rs:657-688 | the empty run over numbered stages |
| Executor.Executor.CancellationRequested | src/executor.rs:537-539 | reads the token once; true exactly when it is set |
| Executor.Executor.SpawnNext | src/executor.rs:833-893 | logs exactly one spawn attempt of the next command, with the fate the environment gives it; a started child runs under the name of that command, a failed start is a failure that goes on unless fail-fast |
| Executor.Executor.PollChild | src/executor.rs:895-975 | one poll of the child decides by its answer: still running, success, failure, failed wait, and for a service stop, restart with the same command queued first, or exhaustion |
| Executor.Executor.ValidateContext | src/executor.rs:810-831 | the check fails exactly when the working directory is missing and has not been looked at before, and then the task fails without running anything |
| Executor.Executor.AdvanceTask | src/executor.rs:803-977 | terminates; advances one task until its child runs or it is done; a finite task finishes only with its list used up, its failures are exactly those of the commands it spawned, and new undeferred failures are reported |
| Executor.Executor.RecordTaskSnapshot | src/executor.rs:982-1005 | one snapshot and one terminal event |
| Executor.Executor.RecordTaskOutcome | src/executor.rs:1280-1314 | outcome, snapshot and event follow from the failure list; the invariant is kept |
| Executor.Executor.DeferOrRecord | src/executor.rs:1035-1047 | a failed task with recovery commands joins the pending ones with an original_failed event, any other gets the outcome, snapshot and event its failures determine; nothing else changes |
| Executor.Executor.FillAvailableSlots | src/executor.rs:794-801 | the first queued tasks move to the slots in order, until nothing is queued or all slots of the stage are taken |
| Executor.Executor.ShutdownTask | src/executor.rs:1749-1760 | the child is gone, the commands are cleared, escalation is reported |
| Executor.Executor.StopAfterFailure | src/executor.rs:1316-1380 | fail-fast records every slot as cancelled and then every waiting task as skipped, in order; services stay |
| Executor.Executor.CancelStarted | src/executor.rs:1637-1703 | cancelling records slots, services and pending recoveries as cancelled, in this order, and tells whether any child had to be killed |
| Executor.Executor.Cancel | src/executor.rs:1637-1747 | from any state between two calls all slots, services, pending recoveries, queued tasks and remaining stages get exactly one cancelled snapshot, in this order, so every planned task ends with exactly one (retired services aside), no outcome is added, no child is left, and escalation is reported |
| Executor.Executor.SkipWaiting | src/executor.rs:1704-1725 | the queue and then every remaining stage are recorded in order |
| Executor.Executor.RecordService | src/executor.rs:1462-1522 | a service that leaves the pool is recorded exactly once |
| Executor.Executor.PollService | src/executor.rs:1389-1525 | one poll of one service: respawned or dropped, still running, stopped, restarted or exhausted, each with exactly its records; every other service stays as it is |
| Executor.Executor.ServiceExited | src/executor.rs:1458-1523 | an exited service is recorded as passed, queued again with one restart less, or recorded as failed when the budget is used up |
| Executor.Executor.RespawnService | src/executor.rs:1389-1454 | a queued respawn gives the service a child again under its queued command exactly when the spawn succeeds, and otherwise drops it with a failure |
| Executor.Executor.AdvanceServices | src/executor.rs:1386-1527 | every service is polled exactly once, in order, and those left are what their polls made of them |
| Executor.Executor.TakePending | src/executor.rs:1053-1054 | the pending recoveries are taken up ordered by position |
| RunSettling.SortOrders | src/executor.rs:1053-1053 | sorting by position orders |
| RunSettling.SortKeepsTasks | src/executor.rs:1053-1053 | and keeps every task exactly once |
| Executor.Executor.RequestApproval | src/executor.rs:1063-1091 | one approval_requested event for each pending job, in order |
| Executor.Executor.AwaitDecision | src/executor.rs:1093-1126 | the reply of the adapter under policy Prompt, Declined under Skip, or an interruption exactly when the token is set |
| Executor.Executor.DeclineAll | src/executor.rs:1127-1159 | without approval every pending job is recorded as failed with its original failures and reported with the first of them, in order, with the decision in the log |
| Executor.Executor.FailRemaining | src/executor.rs:1211-1218 | after a failed recovery the remaining jobs are recorded the same way |
| Executor.Executor.WorkThrough | src/executor.rs:1181-1193 | terminates; advances one command list alone until it is used up or a command fails, with exactly the failures of the commands spawned, or until cancellation cuts it short |
| Executor.Executor.Recover | src/executor.rs:1161-1201 | the recovery commands are worked through once after approval, and the announced result is that of the commands spawned |
| Executor.Executor.Verify | src/executor.rs:1221-1257 | the original commands are worked through once more after a passed recovery, with the same promise |
| Executor.Executor.RecordUnrecovered | src/executor.rs:1202-1210 | a failed recovery leaves the original failures in front of its own and reports the last |
| Executor.Executor.RecordRecovered | src/executor.rs:1264-1274 | a verified job is recorded with what verification found: passed with an Ok result, or failed with the last failure |
| Executor.Executor.RecoverFirst | src/executor.rs:1161-1274 | one job is interrupted and pending again, or treated: approval, recovery and, if that passed, verification are in the log, and its outcome is its original failures with those of the recovery, or what verification found; the pass goes on exactly when the recovery passed |
| Executor.Executor.RecoverAll | src/executor.rs:1161-1277 | the jobs are treated in order as long as every recovery passes; those behind a failed one get no decision and keep their original failures; or the token interrupts, with the treated ones recorded and the others pending |
| RunRecovery.PassFails | src/executor.rs:1202-1220 | treated jobs with passed recoveries, then one with a failed recovery that gives up the rest, make up one pass |
| Executor.Executor.Follow | src/executor.rs:1123-1278 | an approval leads to the recovery pass, every other answer to refusals, and an interruption leaves all jobs pending |
| Executor.Executor.ResolveRecoveries | src/executor.rs:1052-1278 | asks for all pending jobs, in position order, and does what the adapter answers: the recovery pass for Approved, and for anything else the decision and the original failures for every job; or it is interrupted, exactly when the token is set, with the jobs not yet treated pending again |
| RunReport.ResolvedOwners | src/executor.rs:1052-1278 | however the pass went, each job got exactly one outcome, in position order |
| Executor.Executor.AdvanceSlot | src/executor.rs:728-760 | one slot stays with a running child, moves to the background as a running service, or its task has failed with recovery commands and is pending, or has its outcome; the failures of a finite task are exactly those of the commands it spawned, or the missing directory |
| Executor.Executor.EndFast | src/executor.rs:751-758 | after a fail-fast failure nothing is waiting or in a slot, and the run is finished exactly when no cancellation was seen and every recovery is resolved |
| Executor.Executor.AdvanceActive | src/executor.rs:724-762 | every slot is advanced exactly once, in order, those with a running finite child stay; fail-fast ends with only services left |
| Executor.Executor.StartStage | src/executor.rs:696-722 | pops the next stage and fixes its slots under the run's own limit, if it has one, and else the configured limit |
| Executor.Executor.Turn | src/executor.rs:724-790 | one turn of the scheduler loop lowers the remaining work or ends the call |
| Executor.Executor.Advance | src/executor.rs:690-792 | terminates; Finished only when nothing finite is left (and, without fail-fast, no service), a Running step lowers the remaining work unless the token is set, and the slot bound changes only with a stage started under the limit now in force |
| Executor.Executor.Start | src/executor.rs:657-688 | a fresh run of a plan is ready |
| Executor.Executor.AppendPlan | src/executor.rs:1778-1782 | the tasks of the plan are added behind all others, nothing else changes |
| Executor.Executor.ReconcileServices | src/executor.rs:1794-1815 | exactly the named services are retired, the others stay in order and are listed |
| Executor.Executor.SetConcurrencyLimit | src/executor.rs:633-637 | replaces the limit and touches no run, so a stage already started keeps its bound; Advance and BoundOverCalls say which stages it bounds |
| Executor.Executor.Finish | src/executor.rs:1589-1629 | outcomes sorted by position, in agreement with results, plan and schedule-independent expectation; each tells what the log says |
| Executor.Executor.RunToCompletion | src/executor.rs:1817-1825 | terminates; errors agree with failed outcomes, each task has one outcome, a plain plan gives the expected report, every finite task has spawned exactly its commands, and at limit 1 the commands spawned are the flattened plan; every outcome is told by the log, and without fail-fast no task is cancelled or skipped |
| Plan.FlatCommands | src/plan.rs:390-401 | flattening stage by stage gives the commands of the tasks in declaration order |
| Plan.JoinAppend | src/rules.rs:439-444 | the words of a command are displayed with one blank between any two |
| Utf8.Lossy | src/output.rs:487-487 | lossy decoding always gives well-formed text, empty only for no bytes; LossyIdentity, LossyCut and DecodedBoundary say which |
| Utf8.LossyIdentity | src/output.rs:487-487 | well-formed bytes decode to themselves |
| Unicode.EncodingIsHead | src/output.rs:487-487 | the head of a text is the encoding of its first scalar value, defined by arithmetic |
| Unicode.HeadIsEncoding | src/output.rs:487-487 | every well-formed head encodes a scalar value |
| Unicode.WellFormedExact | src/output.rs:487-487 | bytes are well formed exactly when they encode a sequence of scalar values |
| Unicode.LossyOfText | src/output.rs:487-487 | the encoding of any sequence of scalar values survives lossy decoding |
| Unicode.MaximalSubpart | src/output.rs:769-769 | one replacement character stands for the longest beginning of an encoding, or a single byte if there is none |
| Unicode.BoundariesOfText | src/output.rs:516-520 | character boundaries are the places between the encodings |
| Utf8.CutAtBoundary | src/output.rs:516-517 | the boundaries of the rest of a text are the remaining boundaries |
| Utf8.LossyCut | src/output.rs:487-487 | well-formed text cut anywhere is decoded as at most three replacement characters and the rest unchanged |
| Utf8.DecodedBoundary | src/output.rs:487-517 | a boundary of decoded text lies as far behind its source as the text has grown, and what is left decodes to the remaining characters |
| Capture.SuffixAppend | src/cmd.rs:38-46 | truncating as chunks arrive or once at the end is the same |
| Capture.CaptureBuffer.Append | src/cmd.rs:38-46 | after any appends the buffer holds exactly the last bytes of all input, its full length, and whether anything was lost |
| Capture.CaptureBuffer.Data | src/cmd.rs:48-63 | what the accessors expose is that summary of all input |
| Capture.TailIsSuffix | src/output.rs:770-777 | a tail is a suffix of the text whose lines are exactly the last N, or all |
| Capture.RenderedSuffix | src/output.rs:756-785 | a stream is shown exactly when the filter admits it: the decoded capture in full or its last lines, with its line, retained and observed counts; for UTF-8 output that is the end of all output, after at most three replacement characters where the bound cut a character |
| Capture.LinesMonotone | src/output.rs:746-754 | a prefix never has more lines |
| Retention.InsertedAccounted | src/output.rs:132-158 | recording keeps each entry the sum of its uniquely named tasks |
| Retention.InsertedLookup | src/output.rs:132-158 | recording changes what is retained for its own task and nothing else |
| Retention.EvictedLookup | src/output.rs:160-168 | eviction forgets whole generations and changes no other |
| Retention.OutputRegistry.Record | src/output.rs:116-169 | accounting is exact, no subtraction underflows, both bounds hold, the shortest prefix of oldest generations is evicted, and lookups return the last record of each task still retained |
| Retention.OutputRegistry.Evict | src/output.rs:162-168 | drops exactly the shortest prefix that restores both bounds |
| Evidence.FindPrimary | src/output.rs:593-607 | the first retained failed task, or the first retained task |
| Evidence.TakeLines | src/output.rs:628-638 | copies lines up to the limit and reports a cut exactly when lines are left over |
| Evidence.Collect | src/output.rs:577-659 | the excerpt is the first lines of the primary task's two streams, at most the limit; sizes, truncation, reference and count follow |
| Evidence.AdditionalCount | src/output.rs:616-622 | the count equals the number of distinct failed tasks beyond the primary exactly when as many other retained tasks passed as failed ones retained nothing |
| Evidence.CountsPassed | src/output.rs:616-622 | a retained task that passed is counted |
| Evidence.MissesUnretained | src/output.rs:616-622 | a failed task without retained output is missed |
| PageSize.SentSize | src/output.rs:558-568 | a page measured within budget exceeds it by at most the cursor's length beyond the placeholder |
| PageSize.ShownSet | src/output.rs:713-741 | setting one stream shows it and leaves every other stream as it was |
| PageSize.StreamSlice | src/output.rs:511-515 | showing a slice of a stream never makes the page longer |
| PageSize.AloneIsSmaller | src/output.rs:511-515 | showing part of a stream alone is no longer than a page that shows all of it among others |
| Json.SizeIsLength | src/output.rs:498-505 | the size compared with the budget is the exact length of the JSON text, whose members and escapes are written out |
| Cursor.CursorRoundTrip | src/output.rs:391-414 | every cursor written parses back to the same four numbers |
| Cursor.NumberExact | src/output.rs:396-414 | a part of a cursor is a number exactly when it is digits, with or without a plus sign, that fit 64 bits |
| PagePlan.ResolveNeverGuesses | src/output.rs:331-368 | an exact identity wins; another is resolved exactly when it is the only retained completion of the name |
| PagePlan.ResolveRefusals | src/output.rs:352-365 | a refusal lists all completions, or all identities when there is none |
| PagePlan.ResolveExact | src/output.rs:331-368 | a request is resolved exactly when it names no task or means one, and then to exactly the tasks it means: all, the one named, or the only completion |
| PagePlan.BuildPlan | src/output.rs:373-385 | the loops build the plan of sorted identities and wanted streams |
| PagePlan.PositionsAscend | src/output.rs:370-385 | the plan lists each stream once, by identity, standard output first |
| PagePlan.PositionsMembers | src/output.rs:376-385 | the plan holds exactly the wanted streams of the resolved tasks |
| PagePlan.StartOf | src/output.rs:389-460 | an accepted cursor leads to a position of the plan and an offset within its retained bytes |
| PagePlan.StartExact | src/output.rs:389-460 | reading begins exactly where the cursor says, if it names this generation, a position, the number of its stream and an offset within what is retained |
| PagePlan.RefusalExact | src/output.rs:391-457 | a refusal names what the cursor does not meet |
| PagePlan.CursorAccepted | src/output.rs:415-458 | a cursor to any retained position passes validation and leads back to it |
| PagePlan.CursorRefused | src/output.rs:450-457 | a cursor beyond the retained bytes is refused |
| Paging.ShorterFits | src/output.rs:511-515 | the serialized size grows with the prefix |
| Paging.SearchPrefix | src/output.rs:516-541 | the binary search never reads past the boundaries and returns the longest char-boundary prefix that fits, or none |
| Paging.Walk | src/output.rs:462-568 | a page holds the text from its start to where it stops, in order and nothing else, stops only where one more character does not fit, and then carries a cursor to that place |
| Paging.Cut | src/output.rs:541-555 | the last, partial stream of a page and the cursor behind it |
| Reading.BookReadable | src/output.rs:370-385 | any retained generation can be paged through |
| Reading.RetrievePage | src/output.rs:306-569 | unknown generation, unresolved task and invalid cursor each give their error; otherwise the page described by the walk over exactly the streams asked for |
| Reading.PlanExact | src/output.rs:331-385 | a stream is in the plan exactly when the request means its retained task, or names none, and the stream filter admits it |
| Reading.OwnStream | src/output.rs:473-486 | a position reads its own task's own stream |
| Reading.PageShowsOwn | src/output.rs:462-503 | what a page shows of a stream is a piece of the decoded text of that task's own stream from where the page starts, with its own counts |
| Reading.PageWithinBudget | src/output.rs:489-568 | a page with content has real size at most the budget plus the cursor's excess over the placeholder |
| Reading.PageContinues | src/output.rs:462-556 | each page continues every stream exactly where the pages before it left off |
| Reading.PageAdvances | src/output.rs:462-568 | each page either ends the book, moves ahead, or proves that the budget does not admit the next character |
| Reading.ReadAll | src/output.rs:299-569 | for UTF-8 streams following cursors terminates and collects exactly the streams asked for; it reaches the end exactly when the budget admits every character, and has then each retained stream once and whole, otherwise a prefix of each |
| IllFormedOutput.StrayCursorRefused | src/output.rs:541-556 | two stray bytes and a budget for one replacement character: the cursor of the first page is refused |
| OwnCursors.OwnCursorAccepted | src/output.rs:541-556 | a page that ends early is refused its own cursor exactly when the first boundary of the decoded text beyond the bytes left fits the budget |
| OwnCursors.OwnCursorsAccepted | src/output.rs:450-556 | no budget makes the server refuse a cursor of its own exactly when at every position the last decoded character starts within the bytes left |
| OwnCursors.CursorSkips | src/output.rs:548-553 | a cursor skips as many bytes as the text before it has grown: none exactly when every ill-formed run shown is three bytes long, and then the next page goes on with the next character |
| IllFormedOutput.TextSkipped | src/output.rs:548-553 | one stray byte and "abc": the cursor behind the replacement character is accepted and reading goes on at "c" |
| Canonical.CanonicalEncoder.PutU64 | src/config_revision.rs:321-323 | appends eight little-endian bytes |
| Canonical.CanonicalEncoder.PutString | src/config_revision.rs:333-336 | appends length and bytes |
| Canonical.CanonicalEncoder.PutOptionalString | src/config_revision.rs:338-346 | appends a presence byte and, if present, the string |
| Canonical.CanonicalEncoder.PutList | src/config_revision.rs:155-160 | appends the count and every string |
| Canonical.ReadsRecord | src/config_revision.rs:309-347 | a reader recovers every field of a record and exactly the bytes behind it |
| ConfigSort.SortSpec | src/config_revision.rs:155-171 | sorting permutes and orders |
| ConfigSort.SortEqual | src/config_revision.rs:155-171 | two lists sort alike exactly when they hold the same strings equally often |
| ConfigSort.LeqLexicographic | src/config_revision.rs:155-171 | the order is the lexicographic one |
| ConfigRevision.BackendTagRead | src/config_revision.rs:197-203 | the backend, with any poll interval, can be read back from its tag |
| ConfigRevision.ConfigRoundTrip | src/config_revision.rs:113-194 | a decoder recovers the whole semantic surface from the canonical bytes |
| ConfigRevision.ServiceRoundTrip | src/config_revision.rs:211-235 | and the service surface from the bytes of a service signature |
| ConfigRevision.BytesDecideSurface | src/config_revision.rs:108-144 | canonical bytes coincide exactly when the surfaces do |
| ConfigRevision.BytesDecideService | src/config_revision.rs:205-235 | service bytes coincide exactly when the service surfaces do |
| Revisions.EncodeRule | src/config_revision.rs:147-194 | appends exactly the canonical bytes of the rule |
| Revisions.SemanticHash | src/config_revision.rs:113-144 | the digest of the canonical bytes of the config |
| Revisions.ServiceSignature | src/config_revision.rs:211-235 | the digest of the service bytes of the rule |
| Revisions.EqualServices | src/config_revision.rs:99-105 | rules with equal surfaces declare equal services |
| Revisions.ServicesExact | src/config_revision.rs:99-105 | exactly the service rules are listed, by name and signature |
| Revisions.HashDecidesSurface | src/config_revision.rs:28-36 | equal hashes mean equal surfaces and then equal service lists |
| Revisions.SignatureDecidesService | src/config_revision.rs:205-211 | a service is kept exactly when its surface is unchanged |
| Revisions.CommandOrderDecided | src/config_revision.rs:169-174 | an encoding fixes the command order exactly for rules without two different commands |
| Revisions.RevisionTracker.constructor | src/config_revision.rs:264-266 | no revision yet |
| Revisions.RevisionTracker.Seed | src/config_revision.rs:268-273 | numbering continues from a revision given elsewhere |
| Revisions.RevisionTracker.Observe | src/config_revision.rs:275-292 | a no-op exactly when the surface is that of the last config, and then no service differs; the number is the first plus the count of surface changes over all configs observed |
| Estimates.EstimateExact | src/duration_history.rs:202-254 | the typical duration is the mean of the two middle ranks, the upper one the least sample that at least nine tenths of the samples do not exceed |
| Estimates.EstimateOrdered | src/duration_history.rs:228-254 | least sample ≤ typical ≤ upper ≤ greatest sample |
| Estimates.EstimateMultiset | src/duration_history.rs:207-217 | only the multiset of retained samples matters |
| Estimates.RecommendExact | src/duration_history.rs:256-264 | saturation never shows, the recommendation is within bounds, at least the smaller of upper and cap, and grows with the floor |
| DurationHistory.RecordedIsProfile | src/duration_history.rs:104-129 | a bounded update equals the profile of the longer log |
| DurationHistory.History.Add | src/duration_history.rs:104-129 | every profile stays what the whole log determines: the last twenty samples of each kind and exact counts |
| DurationHistory.History.EstimateFor | src/duration_history.rs:202-225 | the estimate of the last twenty successes of the signature |
| DurationHistory.FromSnapshot | src/duration_history.rs:175-197 | refused exactly when one listed profile is oversized, otherwise the merged profiles |
| DurationHistory.SnapshotRoundTrip | src/duration_history.rs:155-197 | restoring the snapshot of any history, in any order, gives it back |
| DurationHistory.RestoredBound | src/duration_history.rs:171-197 | the retention bound survives restoring exactly when both the successes and the failures listed for a signature are within it together |
| DurationHistory.RestoredCounts | src/duration_history.rs:185-195 | the counts of a signature listed more than once are those of its last listing |
| DurationHistory.RestoredBeyondBound | src/duration_history.rs:175-197 | two profiles of one signature, each within bounds, restore to one beyond them, by successes or by failures alone |
| DurationRecorder.MakeRoom | src/duration_recorder.rs:75-84 | drops the smallest key exactly when the bound is reached |
| DurationRecorder.Recorder.Start | src/duration_recorder.rs:69-105 | a signed start is in flight, and its estimate is frozen from the history before it |
| DurationRecorder.Recorder.Conclude | src/duration_recorder.rs:106-149 | an ending adds exactly one record exactly when the run is in flight and is a no-op otherwise; the tallies stay those of the event log |
| DurationRecorder.Recorder.Observe | src/duration_recorder.rs:67-153 | every classification is that of the run's first ending; earlier ones and frozen estimates never change |
| DurationRecorder.Recorder.Classified | src/duration_recorder.rs:106-149 | the successes of a signature are the elapsed times of its first endings that neither failed nor were superseded, its failures those that failed, and every other first ending is counted under its reason; after what was restored, and without dropped runs |
| DurationRecorder.Recorder.NoteTimeout | src/duration_recorder.rs:155-167 | an in-flight run is counted as timed out, any other is left alone |
| DurationRecorder.Recorder.Accounts | src/duration_recorder.rs:67-153 | in flight, dropped and classified add up to the signed starts, and the history grew by the classified ones |
| Awaiting.WindowAnswers | src/awaiting.rs:208-223 | the window loses an answer exactly when all records that satisfy the mode were evicted, and never gives another |
| Awaiting.AfterUnaffected | src/awaiting.rs:286-300 | with increasing generations eviction never changes an After answer |
| Awaiting.ExactHidesOlder | src/awaiting.rs:286-300 | and hides from Exact only generations older than all retained |
| Awaiting.AfterIsLastRecorded | src/awaiting.rs:58-65 | After answers with the generation recorded last above the given one, which is the next exactly when at most one has been recorded; in any order of generations |
| Awaiting.AfterTwoEndings | src/awaiting.rs:286-300 | after two endings the second is the answer, whichever generation it is |
| Awaiting.Coordinator.Observe | src/awaiting.rs:134-182 | the window is the last 256 terminals of the event log, the latest generation the highest ever named; an ended generation is then answered with passed, failed, cancelled or superseded as its event says |
| Awaiting.Coordinator.Record | src/awaiting.rs:208-223 | trimming keeps exactly the newest records |
| Awaiting.Coordinator.NoteBatch | src/awaiting.rs:196-201 | an open batch is pending work |
| Awaiting.Coordinator.NoteBatchComplete | src/awaiting.rs:203-206 | a routed batch no longer is |
| Awaiting.Coordinator.CurrentIsLatest | src/awaiting.rs:350-371 | Current is reported exactly for an ended generation with no work pending and none newer ever named, Stale exactly when work is pending or a newer one was named |
| LoopDetector.CountStep | src/diagnostics.rs:274-290 | counting a trigger extends its chain |
| LoopDetector.CapEntries | src/diagnostics.rs:330-340 | the bound evicts the least recently seen entries and no more than needed |
| LoopDetector.Detector.Prune | src/diagnostics.rs:320-328 | exactly the entries and runs last seen within the window remain |
| LoopDetector.Detector.CountTrigger | src/diagnostics.rs:274-309 | the count is the chain length, the warning comes exactly at the threshold, and the expiry reset is unreachable |
| LoopDetector.Detector.Observe | src/diagnostics.rs:246-318 | with monotone time and no eviction for space (at most 512 live keys never cause one) repeats is the true chain length and a chain warns exactly once; in any case repeats is never too high |

## Left out

- Process spawning, signals, grace periods and forwarding threads (src/cmd.rs, src/process_owner.rs): only their answers matter, as the oracle.
- Clocks, wall-clock durations, sleeps, Tick events, diagnostics records, terminal hooks, live-output labels and output capture inside the executor: they take no part in scheduling.
- Rendered message text: failures are tagged values, and refusals of a cursor carry a reason instead of a sentence.
- The approval thread: the adapter is polled finitely often and then answers; as in both adapters of the source it answers Cancelled only once the token is set.
- A per-run concurrency override and the configured limit are positive; a plan in which a service declares recovery commands is rejected before it reaches the executor (src/rules.rs:366), so `ValidPlan` excludes it.
- A service without commands in the background and a pending recovery without recovery commands are unreachable in the source and have no branch here.
- RunTheorems.ScheduleIndependence: task positions are distinct, as they are within one plan; appended plans may repeat positions, and then ties keep record order.
- Executor.Executor.RunToCompletion: no token is shared with anyone in this entry point, so the environment never sets it; runs that are cancelled are covered by Advance and Cancel.
- Reading.RetrievePage: the number of positions fits a `usize`; the requested name is given already trimmed of white space.
- `OutputRegistry::retrieve`: it resolves tasks exactly like paged retrieval and renders each stream as modelled; it would add only easy members.
- Revisions.RevisionTracker.Observe: revision numbers are unbounded.
- Capture.CaptureBuffer.Append: the observed count is unbounded.
- DurationRecorder.Recorder.Start: run identities grow, as the worker assigns them.
- The iteration order of a `BTreeMap` in snapshots: the round trip is stated for every order.
- The waiting loop of `await_generation` and condition variables: evaluation is atomic under one lock, so only `evaluate` matters.
- LoopDetector.Detector.Observe: `Instant` is monotone; ties for the oldest entry are broken arbitrarily.
- Files, sockets, JSON-RPC, command line, YAML loading, gitignore matching, logging and the terminal prompt.
- Rule selection, template expansion and execution signatures of src/plan.rs: plans arrive as stages.
