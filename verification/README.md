# DeployX: verified models

DeployX is a self-hosted CI/CD tool: a control plane (`apps/web`), a runner that executes pipelines and deploys
containers (`apps/runner`), and shared packages. This project models its hardest parts in Dafny and proves what
they promise. `dafny verify dfyconfig.toml` checks everything.

## What is modelled

- **Pipeline graph** (`Dag`, `DagGroups`). Both shapes of Kahn's algorithm, loop by loop, against walks and cycles:
  the queue with its repeated scans in `validateDAG`, and the level-by-level resolution in `resolveDAG`.
- **Executor** (`StatusTables`, `TaskMachine`, `Executor`, `ExecutorSafety`, `ExecutorHistory`). A run is a sequence
  of events: tasks of a group interleave, verdicts, approvals and deployments are arbitrary, and the user may cancel
  at any moment. The control plane replays the reports against its transition tables. Steps are identified by their
  position, which is what distinct step names give; reports are delivered and nothing throws.
- **Cron** (`Text`, `CronFields`, `CronForms`, `Calendar`, `CronNext`). The parser on strings, with ECMAScript's
  `trim`, `split` and `parseInt`; the UTC calendar of section 21.4.1 of ECMA-262; the minute-by-minute search.
- **Compare-and-swap protocols** (`CompareAndSwap`, `Dispatch`, `DispatchHistory`, `Alerts`, `AlertHistory`). Any
  number of overlapping invocations, each with its own clock and a stale snapshot, one atomic step per database call.
  A call that reports failure may have taken effect all the same. The invocations are the only writers of the columns
  they claim, and an alert rule's cooldown is fixed.
- **Deployment strategies** (`Docker`, `SafeSteps`, `PreviousImage`, `Rolling`, `CanaryWeights`, `Canary`,
  `SelfHealing`, `BlueGreen`). A host is a map of containers and a proxy with a written and a loaded config; every
  command appends the state it leaves to a trace, so "at every intermediate step" is a statement about the trace.
  Health verdicts are an arbitrary function. Docker and nginx commands succeed when their preconditions hold, and the
  deployers are proved to meet these: a name is free before `docker run`, and every upstream runs before a reload.
  Containers do not stop by themselves, and the operations of one project come one at a time.
- **Health monitor** (`Remediation`, `HealthMonitoring`). The sliding window and the restart/rollback ladder as a fold
  over checks, and the monitor class whose ticks refine that fold.
- **Document mirror** (`Documents`). The bucket, the cached checksums, and every way a single file can fail. SHA-256
  is an arbitrary function of the content. Manifest paths are distinct and a sync is not interrupted.
- **Text** (`ShellWords`, `LineStream`, `Masking`, `MaskedText`). Shell quoting against the token rules of sections
  2.2.1, 2.2.2 and 2.3 of the POSIX.1-2017 Shell Command Language, chunked output against its lines, and secret
  masking.

## Where the code does less than its documentation suggests

- A repeated entry in `depends_on` makes `validateDAG` report a cycle: it is counted twice and released once
  (`packages/pipeline-engine/src/dag.ts:128`, `packages/pipeline-engine/src/dag.ts:139`). `ValidateDag` therefore
  names the tasks from which a cycle *or* a repeated entry is reachable.
- Cron fields are combined with AND, `N/1` stands for `N` alone, and a date that exists only in leap years can have no
  run within the 366 days searched. `SearchNeverFails` gives the exact condition.
- A rolling update with `max_unavailable` equal to `instances` skips the draining reload and keeps loaded upstreams
  that have been stopped; with fewer it never does. `Update` states both.
- A failed rolling update does not start again the members of the failed batch that had been removed but not replaced
  (`MissingAfterFailure`), and redeploying the running image can leave it running after a rollback
  (`ImageAfterFailure`).
- An in-place rollback drops the rollback target even when the restored container turns out unhealthy
  (`AttemptInPlaceRollback`); the blue-green one does not.
- Text before a secret that begins with its own end can be taken for its beginning, so that stars and text come out
  differently from what was written (`OverlapMisleads`); for every other secret the text survives
  (`SurvivesUnlessOverlapping`).
- `flush` is documented to wait for a flush under way; it returns at once, so `shutdown` may leave messages behind
  (`Shutdown`).
- When the object store keeps a document but its acknowledgement is lost, the cached checksum is stale; putting the
  former document back then uploads nothing. `SyncProjectDocuments` gives the exact condition, and
  `LostAcknowledgement` an instance.

## Model

| member | source | states |
|---|---|---|
| Dag.ReferenceErrors | packages/pipeline-engine/src/dag.ts:106-118 | reports exactly the references to unknown tasks and the self-references |
| Dag.ReferenceErrorsReject | packages/pipeline-engine/src/dag.ts:106-123 | a graph with any such error is not accepted (a self-reference is a cycle) |
| Dag.ReleaseDependents | packages/pipeline-engine/src/dag.ts:138-146 | after a task is processed, every in-degree is again its number of entries minus its distinct processed dependencies, and the queue holds exactly the newly free tasks |
| Dag.DrainQueue | packages/pipeline-engine/src/dag.ts:121-147 | the queue processes every task exactly when the graph is duplicate-free and acyclic, and leaves a positive in-degree exactly on the tasks from which a cycle or a repeated dependency is reachable |
| Dag.ProcessedIsSafe | packages/pipeline-engine/src/dag.ts:133-147 | from a processed task neither a cycle nor a repeated dependency can be reached |
| Dag.StuckIsBlocked | packages/pipeline-engine/src/dag.ts:149-156 | from a task left over a cycle or a repeated dependency can always be reached (pigeonhole on walks) |
| Dag.KahnDecides | packages/pipeline-engine/src/dag.ts:121-157 | Kahn's algorithm processes everything exactly when the graph is duplicate-free and acyclic, and leaves exactly the blocked tasks |
| Dag.ValidateDag | packages/pipeline-engine/src/dag.ts:100-159 | no errors exactly when all dependencies exist, all lists are duplicate-free and the graph is acyclic; otherwise exactly the reference errors, or exactly one cycle report naming the tasks from which a cycle or a repeated dependency is reachable (for duplicate-free inputs: exactly those from which a cycle is) |
| DagGroups.SortNamesSorts | packages/pipeline-engine/src/dag.ts:64 | the sort of a group is ordered and keeps its members |
| DagGroups.FirstDifferenceDecides | packages/pipeline-engine/src/dag.ts:64 | the default order of names: the first differing code unit decides, and a prefix comes first |
| DagGroups.BuildDependents | packages/pipeline-engine/src/dag.ts:42-53 | the adjacency lists hold, once each, exactly the tasks that list a given one |
| DagGroups.Announce | packages/pipeline-engine/src/dag.ts:72-77 | telling the dependents of a task keeps the in-degrees exact; a task enters the next group only when its last dependency is done |
| DagGroups.NextGroup | packages/pipeline-engine/src/dag.ts:69-78 | the next group is exactly what becomes free by completing this one, and each member depends on this group |
| DagGroups.CollectGroups | packages/pipeline-engine/src/dag.ts:55-81 | for an accepted graph the loop ends with every task in exactly one group, below all its dependencies |
| DagGroups.GroupIsLongestChain | packages/pipeline-engine/src/dag.ts:59-81 | a task's group index is the length of its longest dependency chain |
| DagGroups.ResolveDag | packages/pipeline-engine/src/dag.ts:24-94 | fails exactly when validation does; otherwise the order is a permutation of the tasks, group indices are longest chains, and the safety-net throw is unreachable |
| StatusTables.OpenTask | packages/shared/src/constants.ts:47-65 | a task status is terminal exactly when no transition leaves it, and exactly when it cannot be cancelled |
| StatusTables.OpenStep | packages/shared/src/constants.ts:69-85 | the same for step statuses |
| TaskMachine.LocalMoveIsLegal | apps/runner/src/executor/task-executor.ts:54-302 | every report of every path through a task (skips, approval, steps, deployment, cancellation) is an allowed transition of the row it addresses |
| TaskMachine.NeverStuck | apps/runner/src/executor/task-executor.ts:54-200 | a task under way always has a next move |
| ExecutorSafety.InvariantHolds | apps/runner/src/executor/pipeline-executor.ts:208-304 | the scheduler invariant holds in every state of every interleaving |
| ExecutorSafety.EveryReportIsAccepted | apps/runner/src/executor/pipeline-executor.ts:208-304 | replaying the reports of any run, the control plane refuses none |
| ExecutorSafety.RunningOnlyAfterDependencies | apps/runner/src/executor/pipeline-executor.ts:220-243 | in every run a task is reported running only after all its transitive dependencies were reported successful |
| ExecutorSafety.FinishedRunsAreTerminal | apps/runner/src/executor/pipeline-executor.ts:245-304 | however a run ends, every task and step row is terminal |
| ExecutorSafety.UncancelledRuns | apps/runner/src/executor/pipeline-executor.ts:84-106 | in an uncancelled run a task is skipped exactly when some transitive dependency did not succeed, and success is reported exactly when every task succeeded |
| ExecutorSafety.VerdictUnlessCancelled | apps/runner/src/executor/pipeline-executor.ts:91-105 | a finished run reports a verdict exactly when it was not cancelled |
| ExecutorSafety.RunsNeverGetStuck | apps/runner/src/executor/pipeline-executor.ts:208-249 | until a run is finished something other than a cancellation can happen |
| ExecutorHistory.ApprovalComesFirst | apps/runner/src/executor/task-executor.ts:60-113 | in every run a task that needs approval, and each of its steps, is reported running only after its `awaiting_approval` report and an approval event for it |
| ExecutorHistory.RejectedNeverRuns | apps/runner/src/executor/task-executor.ts:60-62 | after a rejection neither the task nor any of its steps is ever reported running, and when the run is over the task has failed |
| ExecutorHistory.FailureIsDecided | apps/runner/src/executor/task-executor.ts:145-193 | a finished task failed exactly when its approval was rejected or a verdict on one of its steps or its deployment was a failure; a cancelled verdict leaves it cancelled |
| ExecutorHistory.SuccessIsEarned | apps/runner/src/executor/task-executor.ts:77-79 | success is reported only after every step was reported successful, and for a task that deploys only on the success of the deployment |
| ExecutorHistory.StepsWaitTheirTurn | apps/runner/src/executor/task-executor.ts:145-160 | a step is reported running only in a running task, after the success of all steps before it, and not after a cancellation |
| ExecutorHistory.StepVerdictsAreReported | apps/runner/src/executor/task-executor.ts:257-267 | a step is reported successful or failed only by that verdict on it |
| ExecutorHistory.FinishedSteps | apps/runner/src/executor/task-executor.ts:126-193 | how the steps of each task of a finished run have ended: all successful, all skipped, successful up to the failed one and skipped after it, or successful up to a point and cancelled from there |
| ExecutorHistory.NoGroupAfterAbort | apps/runner/src/executor/pipeline-executor.ts:208-213 | no task of a group not entered when the run was cancelled is ever reported waiting or running, and each ends cancelled |
| ExecutorHistory.NoDeploymentAfterAbort | apps/runner/src/executor/task-executor.ts:182-189 | after a cancellation no deployment starts |
| ExecutorHistory.CancelAnytime | apps/runner/src/executor/pipeline-executor.ts:208-213 | a run can be cancelled once, at any moment until it is finished |
| ShellWords.QuoteRoundTrip | apps/runner/src/executor/step-executor.ts:218-220 | the POSIX token rules read a quoted value back as that one value |
| ShellWords.HostUserIsOrdinary | apps/runner/src/executor/step-executor.ts:211-216 | the uid:gid argument has no character special to the shell, so it needs no quoting |
| ShellWords.HostUserReadsBack | apps/runner/src/executor/step-executor.ts:211-216 | split at its colon the argument is the uid, then the gid |
| ShellWords.DockerCommandIsReadAsIntended | apps/runner/src/executor/step-executor.ts:196-206 | for every image, cwd, command and container name without NUL the shell passes exactly the intended argument vector |
| LineStream.PushLines | apps/runner/src/executor/step-executor.ts:246-255 | pushes the non-empty lines of a chunk, in order |
| LineStream.LinesConcat | apps/runner/src/executor/step-executor.ts:240-244 | appending a chunk only continues the last, open line |
| LineStream.StreamLines | apps/runner/src/executor/step-executor.ts:228-267 | the messages are the non-empty lines of the concatenated chunks, however the text is cut |
| LineStream.WrittenLinesAreRead | apps/runner/src/executor/step-executor.ts:228-267 | lines written one per row are the messages read back |
| Text.JoinSplit | apps/runner/src/executor/step-executor.ts:241 | splitting loses nothing and leaves no separator in a piece |
| Text.SplitJoin | apps/runner/src/executor/step-executor.ts:241 | pieces without the separator come back from the joined text |
| Masking.MaskRemoves | apps/runner/src/logging/log-streamer.ts:10-16 | masking one star-free secret leaves no occurrence of it |
| Masking.MaskKeepsClean | apps/runner/src/logging/log-streamer.ts:10-16 | masking another secret cannot bring a star-free value back |
| Masking.MaskedMessageIsClean | apps/runner/src/logging/log-streamer.ts:10-16 | after masking, no star-free secret occurs, whatever the others and however occurrences overlap |
| Masking.UnaffectedMessage | apps/runner/src/logging/log-streamer.ts:10-16 | a message without secrets passes unchanged |
| Masking.WholeSecretIsMasked | apps/runner/src/logging/log-streamer.ts:65-66 | longest first: a secret is masked whole even when it contains others |
| Masking.SortByLengthSorts | apps/runner/src/logging/log-streamer.ts:66 | the sort orders by decreasing length and keeps the values |
| MaskedText.PiecesAreFound | apps/runner/src/logging/log-streamer.ts:13 | pieces put together around a secret, none of which leads to an earlier occurrence, are exactly what splitting finds |
| MaskedText.MessageIsPieces | apps/runner/src/logging/log-streamer.ts:13 | every message is such pieces around the secret: splitting loses nothing, and no piece contains it |
| MaskedText.TextAroundSurvives | apps/runner/src/logging/log-streamer.ts:10-16 | so masking replaces the secret by `***` and touches nothing else |
| MaskedText.SurvivesUnlessOverlapping | apps/runner/src/logging/log-streamer.ts:10-16 | secret-free text around a secret always survives exactly when the secret does not begin with its own end |
| MaskedText.OverlapMisleads | apps/runner/src/logging/log-streamer.ts:13 | with a secret that does, there is secret-free text that is taken for its beginning |
| MaskedText.MessageIsTextAndStars | apps/runner/src/logging/log-streamer.ts:10-16 | a message of text and registered secrets becomes the same text around stars, if each secret, once those before it are masked, is met only where it was put |
| Masking.MaskSecrets | apps/runner/src/logging/log-streamer.ts:10-16 | the loop with its `includes` guard computes the masking of all secrets in turn |
| Masking.LogStreamer.AddMaskedValues | apps/runner/src/logging/log-streamer.ts:60-67 | registers exactly the values of at least four characters, forgets none, and keeps every message buffered since a registration free of the value |
| Masking.LogStreamer.Push | apps/runner/src/logging/log-streamer.ts:72-83 | the buffered message is the masked one; the whole log stays free of every star-free value registered before; a full batch is handed over |
| Masking.LogStreamer.BeginFlush | apps/runner/src/logging/log-streamer.ts:89-94 | takes the whole buffer in order, or nothing while a flush is under way: no message is lost or duplicated between buffer and batches |
| Masking.LogStreamer.Shutdown | apps/runner/src/logging/log-streamer.ts:110-116 | everything logged has been handed over exactly when no flush was under way or nothing was buffered |
| CronFields.PartWithinBounds | packages/shared/src/validators/schedule.ts:33-67 | a parsed part denotes something, and only values within the bounds |
| CronFields.AddSteps | packages/shared/src/validators/schedule.ts:69-71 | the loop adds exactly start, start + step, ... up to the end |
| CronFields.ParseCronField | packages/shared/src/validators/schedule.ts:29-75 | succeeds exactly when every part is well-formed; the result is strictly increasing, non-empty, within bounds and exactly the union of what the parts denote; otherwise the error of the first malformed part |
| CronFields.ParseCronExpression | packages/shared/src/validators/schedule.ts:83-98 | succeeds exactly for five well-formed fields, with the five denoted sets; otherwise the error is the field count or that of the first malformed part of the first malformed field |
| CronForms.ParseIntReads | packages/shared/src/validators/schedule.ts:43 | `parseInt` skips leading space, takes a sign and the digits, and ignores what follows |
| CronForms.GarbageIsRefused | packages/shared/src/validators/schedule.ts:33-67 | a part with neither a digit nor a star is refused |
| CronForms.SpacingIsFree | packages/shared/src/validators/schedule.ts:84 | however the words are spaced, before, between and after, they are the fields |
| CronForms.FormIsRead | packages/shared/src/validators/schedule.ts:27-67 | each documented form (`*`, `N`, `N-M`, and by a step), written out, is accepted and denotes exactly its values; `N/1` only `N` |
| CronForms.FieldIsRead | packages/shared/src/validators/schedule.ts:27-75 | a comma-separated list of forms denotes their union |
| CronForms.DocumentedExpression | packages/shared/src/validators/schedule.ts:77-98 | five lists of forms, with any spacing between and around them, are a valid expression with the documented meaning |
| Calendar.YearLength | packages/shared/src/validators/schedule.ts:126-134 | consecutive years start as many days apart as the leap-year rule says |
| Calendar.Epoch | packages/shared/src/validators/schedule.ts:126-134 | day 0 is Thursday, 1 January 1970 |
| Calendar.NextWeekDay | packages/shared/src/validators/schedule.ts:132 | the weekday advances by one modulo 7 each day |
| Calendar.MonthLengths | packages/shared/src/validators/schedule.ts:126-134 | thirty days for April, June, September and November, 28 or 29 for February, 31 otherwise |
| Calendar.NextDate | packages/shared/src/validators/schedule.ts:126-134 | the day after a date is the next of its month, or the first of the next month, or New Year |
| Calendar.DateReadsBack | packages/shared/src/validators/schedule.ts:126-134 | every valid date names one day, and its year, month and date are read back from it |
| Calendar.DatesAround | packages/shared/src/validators/schedule.ts:126-134 | around any day, a date of common years recurs at most 366 days apart |
| CronNext.SelectsMatching | packages/shared/src/validators/schedule.ts:182-188 | the five `includes` tests hold exactly when the clock lies in the denoted sets (all five, by AND) |
| CronNext.ClockReads | packages/shared/src/validators/schedule.ts:126-134 | the wall clock at a date, hour and minute shows exactly these, and the weekday of the date |
| CronNext.GetNextCronRun | packages/shared/src/validators/schedule.ts:165-197 | in UTC: malformed exactly for an invalid text; otherwise the least matching whole minute strictly after `after`, or failure only when the whole 366-day window has none |
| CronNext.FirstMonday | packages/shared/src/validators/schedule.ts:132 | `0 0 * * 1` runs first after the epoch at midnight of Monday, 5 January 1970 |
| CronNext.WindowCatchesDate | packages/shared/src/validators/schedule.ts:179-193 | every window of 366 days of minutes contains a given date and time of common years |
| CronNext.SearchNeverFails | packages/shared/src/validators/schedule.ts:165-197 | with the weekday unrestricted, the search succeeds from every instant if and only if some selected month and day exist in a common year |
| CronNext.LeapDayAloneFails | packages/shared/src/validators/schedule.ts:196 | `0 0 29 2 *` is valid and from some instant has no run |
| CompareAndSwap.LinkedSnoc | apps/web/src/lib/cron/dispatch-schedules.ts:75-84 | a conditional update that took effect extends the chain: each claim replaced what the previous one wrote |
| CompareAndSwap.ClaimsRise | apps/web/src/lib/cron/dispatch-schedules.ts:75-84 | if every replacement raises the value by a gap, all values written on one key do |
| CompareAndSwap.ReplacedForGood | apps/web/src/lib/cron/dispatch-schedules.ts:19-29 | a value once replaced is never found again and never replaced twice |
| Dispatch.StepKeepsInv | apps/web/src/lib/cron/dispatch-schedules.ts:31-129 | every atomic step of any number of overlapping invocations keeps the protocol invariant |
| Dispatch.InvariantHolds | apps/web/src/lib/cron/dispatch-schedules.ts:31-129 | so it holds along every trace |
| Dispatch.OneRunPerSlot | apps/web/src/lib/cron/dispatch-schedules.ts:19-29 | no two pipeline runs of a schedule have the same slot |
| Dispatch.NextRunAtRises | apps/web/src/lib/cron/dispatch-schedules.ts:66-84 | `next_run_at` strictly increases with each successful claim |
| Dispatch.ClaimedExactlyOnce | apps/web/src/lib/cron/dispatch-schedules.ts:75-91 | once some invocation's swap on a due slot has come through, won or lost, exactly one claim of the slot exists |
| Dispatch.NoMatchingMinuteIsLost | apps/web/src/lib/cron/dispatch-schedules.ts:66-84 | no slot is claimed before its time, and between a claimant's clock and the slot claimed next the expression matches no minute |
| DispatchHistory.ClaimedWhenDue | apps/web/src/lib/cron/dispatch-schedules.ts:35-41 | a slot is claimed only by an invocation that selected the schedule while it was active, with that very slot, not before its time |
| DispatchHistory.RunWhenDue | apps/web/src/lib/cron/dispatch-schedules.ts:35-41 | a run is created only by an invocation that selected the schedule while it was active and due at the run's slot |
| DispatchHistory.EveryDueScheduleIsTaken | apps/web/src/lib/cron/dispatch-schedules.ts:35-60 | an invocation takes up exactly the active schedules that are due; each job stays about the slot it was selected with; a dispatched one has its run, and a failed one a failed call behind it |
| DispatchHistory.TriedOnce | apps/web/src/lib/cron/dispatch-schedules.ts:66-129 | a swap is tried once, and so is the creation of a run |
| DispatchHistory.GivesUpOnlyWithoutRun | apps/web/src/lib/cron/dispatch-schedules.ts:67-72 | a schedule is given up before its claim only if its expression is malformed or matches no minute of the next 366 days |
| DispatchHistory.RowsFollowClaims | apps/web/src/lib/cron/dispatch-schedules.ts:75-84 | schedules are never reconfigured, and `next_run_at` and `last_run_at` are those of the last claim, or untouched |
| Alerts.StampIsUnique | apps/web/src/lib/cron/evaluate-alerts.ts:197-213 | with a positive cooldown one stamp of a rule has one writer |
| Alerts.StepKeepsInv | apps/web/src/lib/cron/evaluate-alerts.ts:162-229 | every atomic step of any number of overlapping evaluators keeps the invariant |
| Alerts.InvariantHolds | apps/web/src/lib/cron/evaluate-alerts.ts:162-229 | so it holds along every trace |
| Alerts.StampsAreApart | apps/web/src/lib/cron/evaluate-alerts.ts:63-70 | two fire stamps of one rule are at least the cooldown apart, whatever the clocks |
| Alerts.OneNotificationPerStamp | apps/web/src/lib/cron/evaluate-alerts.ts:212-228 | with a positive cooldown a stamp is announced at most once |
| Alerts.LostMeansFired | apps/web/src/lib/cron/evaluate-alerts.ts:202-213 | an evaluator loses the swap only because another claim replaced what it saw |
| AlertHistory.StampedOnlyWhenHeld | apps/web/src/lib/cron/evaluate-alerts.ts:166-189 | a rule is stamped only by an evaluator that selected it while active, with the value it then replaced, out of cooldown, and after it found the condition to hold |
| AlertHistory.ActiveRulesAreJudged | apps/web/src/lib/cron/evaluate-alerts.ts:166-189 | exactly the active rules are evaluated; an evaluator stays quiet about one only if the cooldown ran, the condition did not hold or the update failed; an announced stamp has its notification |
| AlertHistory.JudgedOnce | apps/web/src/lib/cron/evaluate-alerts.ts:177-229 | a rule is judged once, its stamp tried once, and an announced stamp stays announced |
| Docker.Host.Run | apps/runner/src/deployers/container-manager.ts:79-131 | adds a running container under a free name |
| Docker.Host.RemoveIfExists | apps/runner/src/deployers/container-manager.ts:304-310 | stops, then removes; both states are passed through |
| Docker.Host.Reload | apps/runner/src/deployers/nginx-config.ts:157-185 | loads the written config; callable only with upstreams that exist and run, so `nginx -t` never refuses |
| PreviousImage.LabelReadsBack | apps/runner/src/deployers/previous-image.ts:26-41 | the label written is the label read |
| PreviousImage.LabelIsLastDifferent | apps/runner/src/deployers/previous-image.ts:13-41 | over any history of deploys the label names the latest different image: redeploys do not erase the rollback target |
| PreviousImage.LastDifferentDiffers | apps/runner/src/deployers/previous-image.ts:13-22 | so no container targets its own image |
| Rolling.UpdateNginx | apps/runner/src/deployers/docker-local-rolling-deployer.ts:485-499 | points nginx at exactly the running instances outside the batch, all of 0..max(10, n)-1 considered, or leaves it alone when there are none |
| Rolling.ExcludeBatch | apps/runner/src/deployers/docker-local-rolling-deployer.ts:243 | taking a batch out leaves the n - |batch| others loaded and running, none of the batch |
| Rolling.Drain | apps/runner/src/deployers/docker-local-rolling-deployer.ts:245-251 | stops and removes the batch, one by one, while the others keep serving |
| Rolling.StartAndVerify | apps/runner/src/deployers/docker-local-rolling-deployer.ts:271-330 | the verdict decides: a healthy instance extends the updated prefix; an unhealthy one rolls back exactly the ordinals up to it and nginx gets whatever runs |
| Rolling.RollbackInstances | apps/runner/src/deployers/docker-local-rolling-deployer.ts:438-477 | recreates the given ordinals from the previous image with the outgoing label, or nothing when none is known; missing batch members stay missing |
| Rolling.ReplaceBatch | apps/runner/src/deployers/docker-local-rolling-deployer.ts:234-269 | one batch: all its checks passed, all its ordinals replaced and everyone loaded again; or its first failing check, and the exact failure state |
| Rolling.ReplaceAll | apps/runner/src/deployers/docker-local-rolling-deployer.ts:108-140 | the batches one after the other: all n checks pass and everything is replaced, or the first failing check names the ordinal and everything up to it is rolled back |
| Rolling.Update | apps/runner/src/deployers/docker-local-rolling-deployer.ts:108-140 | until a health check fails every state serves at least n - maxUnavailable running upstreams when maxUnavailable < n, and otherwise already the first state does not; it succeeds only if all n checks pass, and else names the first that fails; success replaces all, failure leaves the exact rolled-back fleet |
| Rolling.NewInstanceRemembers | apps/runner/src/deployers/docker-local-rolling-deployer.ts:108-140 | a new instance is labelled with the image it replaced, or on a redeploy with what the outgoing one remembered |
| Rolling.RestoredInstanceForgets | apps/runner/src/deployers/docker-local-rolling-deployer.ts:438-477 | a rolled-back instance has the outgoing image and label again |
| Rolling.MissingAfterFailure | apps/runner/src/deployers/docker-local-rolling-deployer.ts:316-329 | after a failure exactly the rest of the failed batch is missing, at most maxUnavailable - 1 ordinals |
| Rolling.ImageAfterFailure | apps/runner/src/deployers/docker-local-rolling-deployer.ts:438-477 | no instance runs the new image exactly when it was not running before, or no later batch remained and another image was restored |
| Rolling.FirstDeploy | apps/runner/src/deployers/docker-local-rolling-deployer.ts:344-420 | all checks pass and all instances run, are loaded and have no rollback target, or none up to the first failing one is left |
| Rolling.Deploy | apps/runner/src/deployers/docker-local-rolling-deployer.ts:68-159 | succeeds exactly when all n checks pass; a success leaves the fleet from which the next update can start; new instances remember the image they replaced, rolled-back ones what the outgoing instance remembered |
| CanaryWeights.GcdDivides | apps/runner/src/deployers/nginx-config.ts:111-113 | the gcd divides both numbers |
| CanaryWeights.GcdIsGreatest | apps/runner/src/deployers/nginx-config.ts:111-113 | every common divisor divides it |
| CanaryWeights.WeightsAreExact | apps/runner/src/deployers/nginx-config.ts:115-129 | strictly between 0 and 100 the weights are positive, coprime and in the exact ratio (100 - p) : p |
| Canary.StageSplitsExactly | apps/runner/src/deployers/docker-local-canary-deployer.ts:166-187 | a stage below 100 loads stable and canary in exactly that ratio; at 100 only the canary |
| SafeSteps.Route | apps/runner/src/deployers/nginx-config.ts:133-185 | switching traffic to running containers keeps every state safe |
| SafeSteps.RemoveContainer | apps/runner/src/deployers/container-manager.ts:304-310 | removing a container nginx does not point at keeps every state safe |
| Canary.FirstDeploy | apps/runner/src/deployers/docker-local-canary-deployer.ts:405-477 | the verdict decides: a new stable container gets all traffic, or everything is as before |
| Canary.ObserveStage | apps/runner/src/deployers/docker-local-canary-deployer.ts:160-210 | a stage is loaded and then checked: the trace shows its split written, loaded, and checked in this order |
| Canary.Promote | apps/runner/src/deployers/docker-local-canary-deployer.ts:160-237 | without failure every check passed and the trace holds the stages loaded and checked one after the other, in order; otherwise the index is that of the first failing check, exactly the stages up to it were loaded and checked in order, 100% stable is restored and only the canary removed |
| Canary.PromoteCanaryToStable | apps/runner/src/deployers/docker-local-canary-deployer.ts:338-389 | the verdict decides: the new stable gets all traffic, or the canary keeps it and there is no stable container |
| Canary.Update | apps/runner/src/deployers/docker-local-canary-deployer.ts:86-263 | which of the outcomes it is, by the sequence of verdicts alone; the stages gone through, in order; and the exact containers and loaded config after each |
| Canary.Deploy | apps/runner/src/deployers/docker-local-canary-deployer.ts:53-277 | keeps the between-deploys invariant; a configured proxy stays configured |
| Canary.DeployAll | apps/runner/src/deployers/docker-local-canary-deployer.ts:53-277 | over any sequence of deploys and any verdicts: once nginx is configured every state has an upstream and only running ones, and only planned splits are loaded |
| SelfHealing.AttemptRollback | apps/runner/src/deployers/remediation-engine.ts:194-309 | without a target nothing happens; with one the verdict decides: it switches to the other slot with the labelled image, or leaves containers and proxy exactly as they were |
| SelfHealing.AttemptInPlaceRollback | apps/runner/src/deployers/remediation-engine.ts:317-405 | recreates the container with the labelled image and its labels but the target, and reports success exactly when the check passes; the target is gone even when it does not |
| SelfHealing.RollbackForgets | apps/runner/src/deployers/remediation-engine.ts:216-232 | a rollback container has no rollback target of its own |
| BlueGreen.Deploy | apps/runner/src/deployers/docker-local-deployer.ts:32-224 | succeeds exactly when the health check passes: then the other colour runs the new image behind nginx and the old one is gone; otherwise nothing has changed; every state stays safe |
| BlueGreen.TryContainer | apps/runner/src/deployers/docker-local-deployer.ts:100-149 | a container that passes its check stays, one that fails is stopped and removed again, and no state on the way is unsafe |
| BlueGreen.CutOver | apps/runner/src/deployers/docker-local-deployer.ts:157-200 | all traffic goes to the new colour, then the old container goes |
| BlueGreen.Heal | apps/runner/src/deployers/remediation-engine.ts:106-125 | nothing to heal without a running colour; a rollback succeeds exactly when there is a labelled image and the check passes, and leaves no target |
| BlueGreen.Stop | apps/runner/src/deployers/docker-local-deployer.ts:245-265 | both colours and the proxy are gone |
| BlueGreen.RunOperations | apps/runner/src/deployers/docker-local-deployer.ts:305-321 | over any sequence of deploys, rollbacks and stops at most one colour runs between operations, a configured proxy points at it, and between two successful rollbacks there is a successful deploy |
| BlueGreen.RunOperation | apps/runner/src/deployers/docker-local-deployer.ts:32-265 | a deploy succeeds exactly on a healthy check and then its image runs, a rollback exactly on a known target and a healthy check and then the target runs, a stop leaves nothing; an operation that does not succeed changes nothing |
| Remediation.HealthByCounts | apps/runner/src/deployers/sliding-window.ts:36-56 | healthy from four passes in five, unhealthy below one in two, healthy before any check |
| Remediation.PassCountCounts | apps/runner/src/deployers/sliding-window.ts:54-55 | the number of passes is the number of entries that passed |
| Remediation.HealthByChecks | apps/runner/src/deployers/health-monitor.ts:265-283 | the verdict after any check, counted on the checks themselves: of the last min(n, 10), those that found the container running and its probe passed |
| Remediation.OnlyUnhealthyIsTreated | apps/runner/src/deployers/remediation-engine.ts:77-90 | nothing is done about a healthy or degraded deployment; a healthy verdict resets the restart count, a degraded one keeps it |
| Remediation.PassingIsLeftAlone | apps/runner/src/deployers/remediation-engine.ts:77-90 | a deployment that passes four in five of its last ten checks is healthy and left alone |
| Remediation.AlwaysPassing | apps/runner/src/deployers/remediation-engine.ts:77-90 | one that always passes is never restarted and never rolled back |
| Remediation.WindowIsLastChecks | apps/runner/src/deployers/sliding-window.ts:23-34 | the window is the last min(n, 10) of all n checks |
| Remediation.LadderIsClimbed | apps/runner/src/deployers/remediation-engine.ts:71-190 | the stored counter and clock are those of the episode's restarts: at most three, spaced by their backoffs, nothing healthy since the first |
| Remediation.RestartsWait | apps/runner/src/deployers/remediation-engine.ts:59-67 | restart k + 1 of an episode comes at least 5000 * 2^(k - 1) ms after restart k |
| Remediation.RollbackNeedsThreeRestarts | apps/runner/src/deployers/remediation-engine.ts:96-125 | a rollback is attempted only after three spaced restarts with no healthy verdict since the first |
| Remediation.FailingIsRolledBack | apps/runner/src/deployers/remediation-engine.ts:71-126 | a deployment that never passes is restarted at its first three checks and rolled back at every later one, if checks come 20 s after each restart |
| HealthMonitoring.HealthMonitor.Reconcile | apps/runner/src/deployers/health-monitor.ts:180-226 | known deployments keep window and ladder, new ones start fresh, missing ones are dropped, the last container found is watched |
| HealthMonitoring.HealthMonitor.CheckAll | apps/runner/src/deployers/health-monitor.ts:230-242 | each deployment is checked once |
| HealthMonitoring.HealthMonitor.Tick | apps/runner/src/deployers/health-monitor.ts:101-121 | overlapping ticks and failed discoveries change nothing; otherwise the kept state is the fold over one more check of each deployment found |
| HealthMonitoring.HealthMonitor.StateObeysTheLadder | apps/runner/src/deployers/health-monitor.ts:59-66 | so at any time every kept state obeys the ladder and the window |
| Documents.SafePathStaysBelow | packages/shared/src/validators/document.ts:28-33 | a safe path is its segments joined by slashes, none empty, `.` or `..` |
| Documents.SafePathsAre | packages/shared/src/validators/document.ts:28-33 | the safe paths are exactly those of at most 200 characters made of one to five names of letters, digits, dots, underscores and hyphens that start with a letter or digit |
| Documents.PlanMeaning | apps/runner/src/documents/document-sync.ts:31-44 | the plan uploads exactly the safe documents that are missing or changed and removes exactly the keys not listed |
| Documents.Mirror.Upload | apps/runner/src/documents/document-sync.ts:183-195 | only bytes of the recorded size and checksum are stored, and only an acknowledged store is recorded |
| Documents.Mirror.Remove | apps/runner/src/documents/document-sync.ts:197-205 | a key is forgotten exactly when its removal is acknowledged |
| Documents.Mirror.AgreementAfter | apps/runner/src/documents/document-sync.ts:183-205 | bucket and checksums agree after the files exactly when no store with a lost acknowledgement replaced an entry with another checksum |
| Documents.Mirror.SkippedIsStored | apps/runner/src/documents/document-sync.ts:41 | a document that needs no upload is stored with its recorded checksum |
| Documents.Mirror.SyncProjectDocuments | apps/runner/src/documents/document-sync.ts:156-228 | unless there is nothing to do, the plan is the plan for exactly the keys in the bucket; uploads and removals are counted exactly, the rest of the plan as failed; agreement survives exactly under that condition; a failure-free sync leaves exactly the safe manifest, an empty one an empty bucket |
| Documents.Mirror.SyncAll | apps/runner/src/documents/document-sync.ts:156-228 | agreement holds after any sequence of syncs with arbitrary failures but lost acknowledgements of stores |
| Documents.NextPlanIsEmpty | apps/runner/src/documents/document-sync.ts:31-44 | once the bucket is the manifest the next plan is empty |
| Documents.LostAcknowledgement | apps/runner/src/documents/document-sync.ts:183-195 | a lost acknowledgement followed by a revert leaves the withdrawn content in place with nothing planned |

## Left out

- CronNext.GetNextCronRun: models UTC only; other time zones rest on the host's Intl library. Instants are unbounded integers, without the range limit of ECMAScript dates.
- Executor and the two compare-and-swap protocols are state machines on values rather than classes, because their point is the interleaving of concurrent calls; aliasing plays no part there.
- Lost reports, exceptions thrown inside a task, repeated step names, and the control plane's own row updates when a user cancels.
- The verdict of a run that fails before its first group (clone, secrets), artifact upload, environment interpolation, timeouts and process signals.
- Masking across line boundaries and characters split across chunks: messages and chunks are sequences of characters.
- Log batches are identified with their messages; levels, timestamps and ids are not kept. `sendLogs` may fail, which loses the batch, as in the code.
- Alert metrics and their comparison with the threshold: a rule's condition holds or not, arbitrarily, at each evaluation.
- Rolling.Update: starts from instances 0..n-1 on one image, all loaded; a fleet left by a failed update, or one of another size, is not a starting point.
- Container labels other than role, strategy, colour or canary role, deployment and previous image; environment, ports, volumes and resource limits; the text of the generated nginx configuration, and its location blocks.
- Commands of Docker and nginx that fail although their preconditions hold, and containers that crash.
- Stopping canary and rolling deployments, and rollbacks requested by a user, which are deploys of an older image.
- The monitor's abort signal, which ends its work, and tunnels it reaps; skipped containers without the required labels.
- Pass rates are exact quotients; the thresholds 0.8 and 0.5 are compared as reals.
- A crash during a document sync, and a state file that cannot be written; the nginx snippet a sync installs.
- Normalisation of uploaded document paths, schema validation, branch filters, port allocation and the control plane's routes.
