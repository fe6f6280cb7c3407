# SourcePrep: a verified model of its protocols and tools

This project models the parts of SourcePrep whose behaviour over whole runs is hard to see from reading one
function, and proves what they promise. One Dafny module stands for one component; each component that changes
state step by step has methods (or a class with methods) proved against a specification function, and the
properties are lemmas about that function, for every input and every run.

- **Watch loop** (`WatchLoop`, `WatchDriver`, `WatchProofs`, `WatchSchedule`, `WatchTriggers`, `WatchPolls`, `WatchEndings`, `WatchFiles`, `WatchReports`, `WatchVerdicts`,
  `WatchIdle`, `WatchTermination`, with `StageTables`, `StageVerdicts`, `UiInvariants`, `Dashboard`, `FailureGate`).
  A clocked polling loop against an arbitrary script of answers: clock values, failed or successful polls with any
  status, accepted, rejected or broken posts, failing screenshots. `WatchDriver.WatchUntilIdle` is the loop itself, over a run context that logs
  in place; `WatchLoop.Run` is its specification.
- **Session runner** (`SessionRunner`, `SessionProofs`, `SessionRecords`, `Quiesce`). A resumable job matrix with its manifest on a
  disk that survives crashes at every point of a write, and the cancel-and-wait protocol around it.
- **Calibration** (`CalibrationSample`, `Worksheet`, `WorksheetProofs`, `WorksheetReading`, `CalibrationScore`,
  with `Text` and `Orders`). A round-robin sampler, a printer and a parser of one text format, and a binned
  calibration error.
- **Mirror walk** (`MirrorWalk`, `MirrorPaths`). A pruned directory walk against the plain filter it speeds up, and the gate in
  front of the copy.
- **Direct server** (`DirectServer`, `StdioLoop`). Build tasks under any interleaving, and the JSON-RPC line loop.
- **Task store** (`A2ATasks`), **seed promotion and migration** (`SeedPromotion`), **project resolution**
  (`ProjectResolution`), **segment evidence** (`SegmentEvidence`).

Clocks, confidences and calibration errors are exact reals. Signatures, ids and paths are texts.

Some promises turn out to hold only under a condition. The model keeps the code as it is, gives the input on which
the promise fails, and proves exactly when it holds:

- A paused group is eligible for verdicts while its own row state canonises to pending, so a faithfully drawn paused
  row is reported as a desync (`StageVerdicts.PausedRowIsReported`, `StageVerdicts.AgreementAt`).
- I3 compares stage positions even when the reported current stage belongs to another group
  (`UiInvariants.I3FiresWithoutVerdict`, `UiInvariants.I3BackedByVerdict`).
- The page drops a group's current stage while the group is paused or being cancelled, phases in which I3 is still
  checked, so that stages that are complete from an earlier run fail it (`Dashboard.PausedPageFailsI3`,
  `Dashboard.PageUnderI3`); and a stage lights its row from its own data, so that a stale flag doubles the running row
  (`Dashboard.DoubledPage`, `Dashboard.PageUnderI1`).
- I1 counts rows, so one stage drawn twice as running fails it although every verdict agrees
  (`UiInvariants.DoubledRowIsNoDisagreement`, `UiInvariants.I1ForcesDisagreement`).
- Desync signatures are never cleared, so a desync that disappears and comes back unchanged is logged once; the
  documentation speaks of one report per transition (`WatchReports.FlappingDesync` on a script of three polls;
  `WatchReports.ReturningDesync` says when a returning desync is logged).
- A scheduled action that never fired must not vanish, says the code's comment; but where no pause went through, the
  scheduled resume is not noted (`WatchEndings.UnfiredActionsAreNoted` says exactly what is).
- The error counter is not the number of error lines in the events file: a screenshot that fails leaves an error line
  that nothing counts (`WatchVerdicts.UncountedError`, `WatchVerdicts.ErrorLinesExceedCounter`).
- A carriage return in a concept's text ends a line when the worksheet is read back, so that a text can tick a box
  (`WorksheetReading.CarriageReturnTicksABox`, `WorksheetReading.TickingConceptExists`);
  `WorksheetReading.ContentRoundTripIff` says which contents come through.
- The watch loop's busy test raises on a status whose group entry is a truthy non-object
  (`Quiesce.BusyTestsAgree`), and a phase outside the known ten separates the busy groups from the cancelled ones
  (`Quiesce.TargetsAreBusyGroups`).
- The mirror's keep test compares a directory's path as written, while the allow test first replaces backslashes
  (`MirrorWalk.KeepTestIsCompleteIff`, `MirrorWalk.BackslashTreeLosesAFile`, `MirrorWalk.PrunedWalkIsPlainFilterIff`).
- The line loop takes a null id for a notification, does not check that an object is a valid request, answers a tool
  call with a list of parameters by an internal error, and ends at any other JSON value and at a line that the reader or
  the decoder refuses (`StdioLoop.NullIdGetsNoReply`, `StdioLoop.ArrayEndsTheLoop`, `StdioLoop.AllAnsweredIff`).
- Several builds can be accepted before the first one takes the lock; they then run one after another
  (`DirectServer.TwoBuildsAccepted`).
- A dry run of the promotion counts a seed as often as it is listed (`SeedPromotion.DryRunCounts`).
- The task store lives in the handler, and the route makes a new handler for every request, so that over the route no
  task is ever found again (`A2ATasks.EndpointForgets`).
- A failure whose text is empty shows no message (`A2ATasks.MessageMeansFailure`, `A2ATasks.SilentFailure`).
- A nearest project without an id hides the ones above it, and a project registered at the root is never a candidate
  (`ProjectResolution.NamesTheNearestIff`, `ProjectResolution.RootIsNeverChosen`).

One suspicious test turns out to be harmless: the settle test takes an idle start of zero for unset. Such a start exists
(`WatchIdle.SpanFromZero`), but polls are two seconds apart and none comes before clock zero, so no run that has seen a
running group has one (`WatchIdle.ZeroStartNeverMatters`), and every run settles exactly when its idle span is long
enough (`WatchIdle.SettlesExactlyWhen`).

## Model

| member | source | states |
|---|---|---|
| FailureGate.InvariantGate.ShouldEmit | tools/playwright_smoke.py:790-820 | the gate's memory and its answer after a failing observation are those of the specification step |
| FailureGate.InvariantGate.ClearPending | tools/playwright_smoke.py:823-835 | a passing observation forgets the pending failure and nothing else |
| FailureGate.PendingIsMaximalRun | tools/playwright_smoke.py:774-820 | for any interleaved history the stored count of an invariant is the length of the maximal run of identical failures its own history ends in, and nothing is stored after a pass |
| FailureGate.LastEmittedIsLatest | tools/playwright_smoke.py:790-820 | the remembered signature of an invariant is that of its latest emitted event |
| FailureGate.EmissionRule | tools/playwright_smoke.py:774-820 | an event is emitted exactly at the observation where a run reaches the persistence length with a signature other than the latest emitted one |
| FailureGate.ConsecutiveEmissionsDiffer | tools/playwright_smoke.py:790-820 | two successive events of one invariant never carry the same signature |
| FailureGate.EventsNeverRepeat | tools/playwright_smoke.py:790-820 | the same for the whole list of events of a history, tied to the gate's memory |
| StageTables.GroupListsMatchTable | tools/phase145_uat/constants.py:21-39 | a stage is in a group's in-order list exactly when the lookup table says so, and no list repeats a stage |
| StageTables.OrderMatchesTable | tools/phase145_uat/constants.py:21-39 | every entry of the published order carries the group of the lookup table |
| StageVerdicts.VerdictShape | tools/playwright_smoke.py:477-537 | along a group's order the verdicts are complete, then one running, then pending when a running or paused group reports a stage of its own, and unknown otherwise |
| StageVerdicts.AgreementAt | tools/playwright_smoke.py:1417-1439 | exactly which drawn rows agree with the verdict of their stage, before, at and after the current one |
| StageVerdicts.ReportedAtRest | tools/playwright_smoke.py:1435-1437 | a row without a verdict is reported if and only if it draws a stage at work while the whole pipeline is at rest |
| StageVerdicts.EitherFieldNames | tools/playwright_smoke.py:477-537 | a current stage named in the second field alone gives the same verdicts as in the first |
| StageVerdicts.PausedRowIsReported | tools/playwright_smoke.py:1417-1439 | the current row of a paused group, drawn as paused, is reported as a desync |
| UiInvariants.OneRunningRowPerGroup | tools/phase145_uat/invariants.py:214-245 | reports exactly the groups with more than one row drawn as running |
| UiInvariants.DownstreamNotComplete | tools/phase145_uat/invariants.py:281-348 | reports, in order, the rows that I3 faults |
| UiInvariants.CurrentStageDecoration | tools/phase145_uat/invariants.py:351-409 | reports exactly the groups whose rows do not carry one current-stage mark |
| UiInvariants.I3ReportIsExact | tools/phase145_uat/invariants.py:281-348 | a stage of a listed group is reported if and only if it fails I3 |
| UiInvariants.I3IsPendingButComplete | tools/phase145_uat/invariants.py:281-348 | where a group has verdicts, I3 fires on exactly the rows with a pending verdict and a complete drawn state |
| UiInvariants.I3BackedByVerdict | tools/phase145_uat/invariants.py:281-348 | an I3 failure has a pending verdict exactly when the group is running or paused at a stage of its own, and no verdict otherwise |
| UiInvariants.I3FiresWithoutVerdict | tools/phase145_uat/invariants.py:281-348 | a status on which I3 faults a stage that has no verdict |
| UiInvariants.I1ForcesDisagreement | tools/phase145_uat/invariants.py:214-245 | an I1 failure comes with a running row whose verdict is not running, if and only if not all running rows of the group draw the current stage of a group with verdicts |
| UiInvariants.DoubledRowIsNoDisagreement | tools/phase145_uat/invariants.py:214-245 | two running rows of the current stage fail I1 while no row contradicts its verdict |
| Dashboard.PageUnderI1 | packages/ui/src/components/trace/GraphEnrichmentPipeline.tsx:800-889 | I1 faults a group of the drawn page if and only if it is active and open and two of its rows run, from their own data or from a place in the rebuild's queue |
| Dashboard.PageUnderI3 | packages/ui/src/components/trace/freezeGreen.ts:145-234 | I3 faults a stage of the page if and only if its group is active and open, the stage comes after the current one and is green from its own data or frozen by the rebuild, it is not the paused row, and the page knows no current stage before it |
| Dashboard.CompleteRow | packages/ui/src/components/trace/freezeGreen.ts:145-234 | outside a completed phase a row is drawn complete if and only if its own data or the rebuild's freeze make it green, it is not the paused row, and the page knows no current stage before it: the one a running, queued, pausing or recovering group reports, or the finalize group's fallback |
| Dashboard.CompletedGroup | packages/ui/src/components/trace/freezeGreen.ts:145-234 | every row of a completed group is drawn complete, whatever its data say |
| Dashboard.AnchoredPassesI3 | packages/ui/src/components/trace/freezeGreen.ts:145-234 | a group in a phase in which the page takes over the reported current stage never fails I3, also under a rebuild |
| Dashboard.UnanchoredUnderI3 | src/prep/dashboard/src/hooks/useEnrichment.ts:63-112 | a paused or cancelling group, for which the page drops the current stage, fails I3 at every later green stage but the paused row |
| Dashboard.PausedPageFailsI3 | src/prep/dashboard/src/hooks/useEnrichment.ts:63-112 | a group paused at clustering with deepening complete from an earlier run fails I3 |
| Dashboard.PageUnderI13 | packages/ui/src/components/trace/GraphEnrichmentPipeline.tsx:826-889 | I13 faults a group of the page if and only if it is active and open and not exactly one of its rows is lit: running, paused, or failed under a rebuild |
| Dashboard.OnePausedRow | packages/ui/src/components/trace/GraphEnrichmentPipeline.tsx:2081-2087 | at most one row of a group is drawn as paused |
| Dashboard.PausedRowIs | packages/ui/src/components/trace/GraphEnrichmentPipeline.tsx:2081-2087 | a row is drawn as paused if and only if its group is paused or pausing or failed by a pause of the user, no row of the group runs or is rebuilt, and the row is not done and is the one the group names or, where it names none, the first that is not done |
| Dashboard.PagePasses | packages/ui/src/components/trace/GraphEnrichmentPipeline.tsx:800-889 | a page on which exactly one row of each active group is lit, and whose active groups are in phases with a current stage of theirs on the page, passes I1, I3 and I13 |
| Dashboard.DetectorOnPage | tools/playwright_smoke.py:1417-1439 | the desync detector reports exactly the earlier rows that still run on the page or show an error, the current row unless it runs there with about the same progress, and the rows that run while the pipeline is at rest |
| Dashboard.StaleRow | packages/ui/src/components/trace/GraphEnrichmentPipeline.tsx:427-441 | in a running group every row before the current one that its own data lights is reported, and with the current one lit as well I1 fails |
| Dashboard.DoubledPage | packages/ui/src/components/trace/GraphEnrichmentPipeline.tsx:427-441 | a page that lights enrichment from a stale flag while clustering runs |
| WatchDriver.WatchUntilIdle | tools/playwright_smoke.py:1046-1543 | the loop over any script of answers returns the verdict and leaves the events and counters of the specification run, and its events file holds, around those events, an error line for exactly the screenshots taken there that the script loses; what that run does and when is said over its log by the lemmas below, first of all WatchTriggers.ActionsFireWhenDue, WatchPolls.PollsEveryTwoSeconds, WatchIdle.SettlesExactlyWhen and WatchIdle.GivesUpExactlyWhen |
| WatchDriver.RunContext.FirePause | tools/playwright_smoke.py:1272-1327 | the pause and resume dispatch, with its un-latching on a rejected pause, is the pause phase of the run, and posts at most once: a pause if and only if its time has come, none has fired and a group is known to run, a resume if and only if its time has come and a poll has seen a fired pause that is not resumed |
| WatchDriver.VerdictIsFinal | tools/playwright_smoke.py:1163-1543 | once the loop has returned, further answers change nothing |
| WatchProofs.RunFollowsProtocol | tools/playwright_smoke.py:880-928 | in every run the scheduler's flags say exactly where the log stands in the pause/resume protocol |
| WatchProofs.PauseAimsAtRunning | tools/playwright_smoke.py:1366-1378 | every pause aims at the group the latest successful poll before it saw running |
| WatchProofs.PauseResumeProtocol | tools/playwright_smoke.py:1272-1327 | in every run at most one pause is left un-rejected and none follows it, at most one resume is posted, it follows that pause with a successful poll in between and aims at the same group, and every pause aims at the group the latest successful poll before it saw running |
| WatchSchedule.SideEffectsAtMostOnce | tools/playwright_smoke.py:1179-1348 | in every run the reload and the update each fire at most once, the recovery flag is up exactly between a successful reload and the panel's return, and no invariant result is taken in that span |
| WatchTriggers.ActionsFireWhenDue | tools/playwright_smoke.py:850-928 | in every run, while the watch is open and within its budget, a tick reloads or updates if and only if that action's own time has come and the log has none yet; it posts a pause if and only if its time has come, no pause is live and the latest poll saw a running group, and at that group; it posts a resume if and only if its time has come, a poll has followed a live pause and no resume was posted, and at the paused group; it notes a recovery if and only if the panel is there and a successful reload of this or an earlier tick waits for it; and a post is logged as rejected exactly for status codes 400 and 409, as a transport failure exactly for a transport error without a code |
| WatchPolls.PollsEveryTwoSeconds | tools/playwright_smoke.py:1350-1366 | in every run, while the watch is open and within its budget, a tick asks for the status if and only if its clock is at least two seconds past that of the last tick that did, whether or not that poll succeeded; the first poll only waits for a clock that is not negative |
| WatchEndings.UnfiredActionsAreNoted | tools/playwright_smoke.py:980-1007 | in every run that ends otherwise than for an unexpected lack of activity, a scheduled pause with no live one in the log, and a scheduled resume of a live pause that was not resumed, are noted as never fired, and only then |
| WatchFiles.FileTellsScreenshots | tools/playwright_smoke.py:1179-1348 | in every run the events file holds an error line for exactly the screenshots that are lost while an event they are taken with is logged, the ones after an action only if it succeeded, and each stands directly before or after such an event |
| WatchReports.ReportsFollowObservations | tools/playwright_smoke.py:1438-1505 | in every run the invariant failures are exactly those the persistence rule gives for the observations made, the desyncs are exactly the disagreements that differ from the one last logged for their stage, and neither repeat their latest signature |
| WatchReports.ReportedIsSeen | tools/playwright_smoke.py:1438-1444 | the desync last logged for a stage is the one last seen, over any history of comparisons |
| WatchReports.ReturningDesync | tools/playwright_smoke.py:1438-1444 | a desync that comes back is logged if and only if another one of its stage was logged since it was last seen, whatever agreed in between |
| WatchReports.FlappingDesync | tools/playwright_smoke.py:1438-1444 | three polls on which one row disagrees, agrees and disagrees again log one desync, under any configuration with nothing scheduled |
| WatchReports.PollIsRecorded | tools/playwright_smoke.py:1396-1505 | a poll adds the comparison of every drawn row and its invariant results to what the reports follow, nothing within the grace period and no results during recovery |
| WatchReports.RecoveryFreezesGate | tools/playwright_smoke.py:1470-1505 | a poll during post-reload recovery leaves the gate and its history untouched |
| WatchVerdicts.CountersAreExact | tools/playwright_smoke.py:1438-1505 | in every run the counters equal the logged errors of the loop, desyncs and invariant failures, and the pass flag is up exactly while there is none of the latter two |
| WatchVerdicts.ErrorLinesExceedCounter | tools/playwright_smoke.py:581-590 | in the events file the loop leaves, the error lines are those the counter counts and the failed screenshots |
| WatchVerdicts.UncountedError | tools/playwright_smoke.py:581-590 | a timeout whose screenshot fails leaves a file of two error lines and a counter of one |
| WatchTermination.LoopTerminates | tools/playwright_smoke.py:1163-1177 | with a clock that gains a quarter second an iteration, the loop has returned after four iterations per second of budget and one more |
| WatchTermination.CapBoundsTheWatch | tools/playwright_smoke.py:161-179 | under a process-wide cap every watch has returned by the cap, and only a raisable budget is raised to it |
| WatchTermination.PassesExactlyWhenClean | tools/playwright_smoke.py:1507-1543 | a returned watch passed if and only if it settled or met an expected lack of activity and no desync and no invariant failure was ever logged |
| WatchIdle.SettledMeansIdle | tools/playwright_smoke.py:1390-1394 | in every run a settled return means that a poll saw a running group and that from the last such poll on, over at least the settle time, every successful poll saw none |
| WatchIdle.SettlesExactlyWhen | tools/playwright_smoke.py:1507-1513 | in every run a successful poll ends the watch as settled if and only if the idle span of the log follows a running poll and is at least the settle time long |
| WatchIdle.GivesUpExactlyWhen | tools/playwright_smoke.py:1515-1543 | in every run a successful poll ends the watch for lack of activity if and only if no poll of the log, this one included, saw a running group and more than twice the grace period has passed, and as unexpected if and only if activity was expected |
| WatchIdle.ZeroStartNeverMatters | tools/playwright_smoke.py:1390-1394 | in no run that has seen a running group does the idle span start at clock value zero |
| WatchIdle.SpanFromZero | tools/playwright_smoke.py:1390-1394 | a first poll at clock value zero that sees no running group starts one there |
| SessionRunner.ClipNotes | tools/phase145_uat/run_session.py:523-537 | notes within the limit are unchanged, longer ones keep their start and end in an ellipsis at exactly the limit |
| SessionRunner.HasResult | tools/phase145_uat/run_session.py:477-486 | finds a recorded pair if and only if there is one |
| SessionRunner.RunMain | tools/phase145_uat/run_session.py:1150-1329 | a session on a given disk leaves the disk, the memory, the executed pairs and the end of the specification run, crash points included; SessionRecords.SessionFollowsAnswers says what these are |
| SessionProofs.SessionIsSafe | tools/phase145_uat/run_session.py:1205-1319 | wherever one session dies the manifest file stays whole and sound, no pair is executed twice or against a kept record, and kept records stay first in the file |
| SessionProofs.ManifestAlwaysSound | tools/phase145_uat/run_session.py:1056-1062 | over any sequence of sessions that crash anywhere, also between the temporary write and the rename, the manifest is absent or whole, with each pair at most once and inside the matrix |
| SessionProofs.RecordedNeverReexecuted | tools/phase145_uat/run_session.py:477-499 | over any sequence of resumed sessions a recorded result is never executed again and never lost; in retry mode this holds for every recorded pass |
| SessionProofs.RecordedOnceInACampaign | tools/phase145_uat/run_session.py:477-499 | within one campaign, a result that is on the disk after some session is executed in no later one and is still there at the end |
| SessionProofs.CompletedMeansExactlyOnce | tools/phase145_uat/run_session.py:1205-1329 | a session that ends without a crash or an orphan abort holds every pair of the matrix exactly once |
| SessionRecords.SessionFollowsAnswers | tools/phase145_uat/run_session.py:1205-1329 | a session launches, in matrix order, the first occurrence of each pair without a record, as long as no earlier one ends it; it records each launched or skipped pair once, in that order, with the status and notes its own probes, run directory and return code call for; it completes if and only if no pair ends it, and aborts if and only if one meets an orphaned barrier |
| SessionRecords.NewRecordsFitAnswers | tools/phase145_uat/run_session.py:1219-1314 | every new record is a pass if and only if the child passed with return code zero, a fail if and only if it failed or passed with another code, an error if and only if it left no run directory or an error, and skipped otherwise |
| Quiesce.PollShowsBusy | tools/phase145_uat/run_session.py:240-265 | a poll counts as busy if and only if some group is not terminal |
| Quiesce.OrphanedBarrier | tools/phase145_uat/run_session.py:282-324 | an orphaned barrier is an active barrier on an answered status in which every group is terminal |
| Quiesce.BusyTestsAgree | tools/playwright_smoke.py:618-639 | the separately written busy tests agree on every status on which the watch loop's answers, and it answers unless a truthy non-object stands before the first busy group |
| Quiesce.BusyTestIsTheWatchLoops | tools/playwright_smoke.py:618-639 | where the raw busy test answers, it is the one the model of the watch loop runs on |
| Quiesce.PhasesPartition | tools/phase145_uat/run_session.py:211-281 | terminal and cancellable phases split the ten pipeline phases |
| Quiesce.TargetsAreBusyGroups | tools/phase145_uat/run_session.py:327-400 | the cancelled groups are exactly the busy ones if and only if every reported phase is one of the ten |
| Quiesce.WaitForIdle | tools/phase145_uat/run_session.py:219-269 | succeeds if and only if some poll before the deadline saw every group terminal, gives up if and only if the deadline comes first, and does one of the two once the turns outlast the budget |
| Quiesce.CancelAndQuiesce | tools/phase145_uat/run_session.py:357-416 | cancels what the snapshot shows as cancellable, succeeds if and only if a poll within the budget saw every group terminal, and ends once the turns outlast the budget |
| Quiesce.DeadlineIsReached | tools/phase145_uat/run_session.py:219-269 | with a clock that gains the poll interval each turn, the last of more turns than the budget has intervals is at or past the deadline |
| CalibrationScore.ComputeEce | tools/score_calibration_worksheet.py:155-177 | the loops compute the size-weighted sum of bucket gaps, and nothing if and only if no concept has a truth label; over the labels the result obeys the laws of EceFitsLabels |
| CalibrationScore.EceFitsLabels | tools/score_calibration_worksheet.py:155-177 | for confidences in [0, 1] the error is at least the distance between the mean confidence and (trues + partials / 2) / labelled, is zero if and only if the two agree in every n-th part of the scale that holds a label, and is |c - 1|, |c - 1/2| or c for a single labelled concept |
| CalibrationScore.ExactlyOneBucket | tools/score_calibration_worksheet.py:165-173 | every confidence in [0, 1] falls in exactly one bucket, given the widened last edge |
| CalibrationScore.RefinementNeverLowersEce | tools/score_calibration_worksheet.py:155-177 | splitting every bucket into k never lowers the error |
| CalibrationScore.EceAboveMeanDifference | tools/score_calibration_worksheet.py:155-177 | the error is at least the distance between mean confidence and mean truth |
| CalibrationScore.EceAtMostOne | tools/score_calibration_worksheet.py:155-177 | the error lies between zero and one |
| CalibrationScore.EceZeroIffCalibrated | tools/score_calibration_worksheet.py:155-177 | the error is zero if and only if in every non-empty bucket the two averages agree |
| CalibrationSample.BandsAgree | tools/build_calibration_worksheet.py:163-217 | the five bucket filters and the chain of tests behind the sort and the summary classify every confidence alike |
| CalibrationSample.OfBandCounts | tools/build_calibration_worksheet.py:163-178 | the bucket of a band holds every concept of the pool with such a confidence, as often as the pool does, and no other |
| CalibrationSample.GroupByCategory | tools/build_calibration_worksheet.py:186-189 | the per-category lists hold exactly the bucket's concepts, and each list those of its own category, each as often |
| CalibrationSample.RoundRobin | tools/build_calibration_worksheet.py:190-201 | the pick loop terminates, takes exactly min(target, size) concepts out of the lists, and after any number of visits each category has given min(visits, its size) concepts of its own |
| CalibrationSample.VisitsDifferByAtMostOne | tools/build_calibration_worksheet.py:196-201 | at every moment the visits of two categories differ by at most one |
| CalibrationSample.PickBand | tools/build_calibration_worksheet.py:179-201 | one band contributes min(target, size) of its own concepts whatever the shuffles do, and of any two of its categories the first is picked whole or gives at least what the other gives less one |
| CalibrationSample.StratifiedSample | tools/build_calibration_worksheet.py:162-219 | the sample has 10, 15, 15, 8 and 2 concepts of the bands from the top, or all of a smaller band, balanced across its categories, at most 50 in all; no concept stands before one of a higher band, and within a band categories ascend, and ids within a category |
| Worksheet.RenderSections | tools/build_calibration_worksheet.py:222-292 | the printing loop writes the sections in order, numbered from one |
| Worksheet.ParseWorksheet | tools/score_calibration_worksheet.py:90-132 | the parser's section loop over the text computes the line-by-line specification |
| WorksheetProofs.FieldRoundTrip | tools/score_calibration_worksheet.py:43-44 | a printed field line reads back its value |
| WorksheetProofs.BoxRoundTrip | tools/score_calibration_worksheet.py:42-42 | a printed checkbox line reads back its tick and its label |
| WorksheetReading.BodyIsReported | tools/score_calibration_worksheet.py:70-132 | a section body as it is read back, with any boxes ticked and any lines without boxes after it, is reported with its concept's fields and with the content's own ticks before the sheet's |
| WorksheetReading.WorksheetRoundTrip | tools/build_calibration_worksheet.py:222-294 | parsing the text of a worksheet as it is read back gives every readable concept in order with number, id, category, printed title and two-decimal confidence, and exactly the ticked boxes |
| WorksheetReading.ContentRoundTripIff | tools/score_calibration_worksheet.py:90-132 | however a section is filled it reads back as printed and ticked, if and only if no line of its content starts a section, ticks a box or carries notes |
| WorksheetReading.SingleLinesAreQuiet | tools/build_calibration_worksheet.py:222-258 | every well-formed concept with a content of one line is readable |
| WorksheetReading.CarriageReturnTicksABox | tools/score_calibration_worksheet.py:90-132 | the blank section of a concept whose content holds a carriage return and a ticked box is read as ticked |
| WorksheetReading.TickingConceptExists | tools/score_calibration_worksheet.py:90-132 | there is a concept that is like that but for its content |
| Text.LinesOfJoin | tools/score_calibration_worksheet.py:91-91 | joined lines are read back line by line, with every kind of line break in them and a carriage return at an end as part of the break |
| WorksheetProofs.TickedAndBlank | tools/score_calibration_worksheet.py:70-87 | one ticked tier and truth box come back as exactly those labels without warnings, and no ticked box as no label |
| Text.TwoDecimalsRoundTrip | tools/build_calibration_worksheet.py:240-240 | reading a printed two-decimal confidence gives the nearest hundredth |
| Text.HundredthsClose | tools/build_calibration_worksheet.py:240-240 | the printed confidence is within half a hundredth of the stored one |
| MirrorWalk.KeepTestIsCompleteIff | tools/build_public_mirror.py:397-402 | every directory with an allowed path below it passes the keep test, exactly unless only its backslash-free form is an ancestor of an allow entry |
| MirrorWalk.PrunedWalkIsPlainFilterIff | tools/build_public_mirror.py:405-467 | the pruned walk classifies exactly the files the plain filter classifies outside the hard-pruned directories, if and only if no allowed file lies below a directory that the keep test misreads |
| MirrorPaths.WalkMeetsExactly | tools/build_public_mirror.py:418-443 | the walk meets a path if and only if it is that of a file of the tree, no directory on the way has a pruned name, neither such a directory nor the one it is entered from is on the list of pruned paths, and, for the pruned walk, each passes the keep test |
| MirrorWalk.MisreadIff | tools/build_public_mirror.py:397-402 | a directory is misread if and only if its path holds a backslash and, with slashes instead, lies above an allow entry without being allowed |
| MirrorWalk.PlainNamesAreHarmless | tools/build_public_mirror.py:405-467 | a tree whose directory names hold no backslash has no file like that |
| MirrorWalk.BackslashTreeLosesAFile | tools/build_public_mirror.py:424-436 | a tree on which the filter allows one file and the walk never reaches it |
| MirrorWalk.BackslashIsMisread | tools/build_public_mirror.py:397-402 | any allow entry of three levels whose first two are not allowed themselves gives such a directory, whatever else the table holds |
| MirrorWalk.Collect | tools/build_public_mirror.py:405-467 | of the paths the walk meets, the excluded ones are exactly the allowed ones with a denied pattern, the flagged ones exactly the other allowed ones with content hits that are neither the script itself nor exempt, and the included ones exactly the remaining allowed ones, each as often as it was met, sorted, and each report with what the matchers say of its path |
| MirrorWalk.CollectIsPlainFilter | tools/build_public_mirror.py:405-467 | on every other tree the same holds of all files outside the hard-pruned directories |
| MirrorWalk.ListsPartition | tools/build_public_mirror.py:405-467 | the lists are sorted, share no path and together hold every allowed file as often as it was met |
| MirrorWalk.Emit | tools/build_public_mirror.py:515-539 | nothing is written while a file is flagged or an unforced target exists, with exit codes 1 and 2; otherwise the target holds exactly the included files with their contents |
| DirectServer.Server.ToolBuild | src/prep/mcp_direct.py:167-176 | a build is refused exactly while the building flag is up, else one task is created, with the reply that says so |
| DirectServer.Server.RunBuild | src/prep/mcp_direct.py:178-180 | the first segment of a build task takes the free lock or queues |
| DirectServer.Server.ResumeAfterLoad | src/prep/mcp_direct.py:181-206 | after the index load the task builds, or returns and releases the lock |
| DirectServer.Server.Wake | src/prep/mcp_direct.py:178-181 | once the lock is free its first waiter takes it and starts its body |
| DirectServer.Server.ResumeAfterBuild | src/prep/mcp_direct.py:192-206 | the end of a build, good or bad, lowers the flag and frees the lock |
| DirectServer.EventKeeps | src/prep/mcp_direct.py:167-206 | every uninterrupted segment of every task keeps the builds serialised |
| DirectServer.BuildsAreSerialised | src/prep/mcp_direct.py:90-206 | at every scheduling point of every interleaving the flag is up exactly while one task holds the lock, at most one body is active, tasks enter in order of arrival, and started replies equal finished plus active plus waiting plus not yet run tasks |
| DirectServer.SegmentsUseWork | src/prep/mcp_direct.py:178-206 | every segment of a build task strictly lowers the work that is left |
| DirectServer.SomeTaskCanRun | src/prep/mcp_direct.py:178-206 | while a build task is unfinished some build task can run |
| DirectServer.QuietMeansFinished | src/prep/mcp_direct.py:167-206 | when no build task can run, every started build has finished |
| DirectServer.RefusedWhileBuilding | src/prep/mcp_direct.py:167-176 | over every run each call of the build tool gets one reply, and is refused if and only if some task is then in its body |
| DirectServer.FlagsTellLoads | src/prep/mcp_direct.py:90-118 | over every run the server counts as initialised if and only if some load has ended without an exception, and has an index if and only if such a load has made one |
| DirectServer.BuildsExactlyWithAnIndex | src/prep/mcp_direct.py:178-206 | over every run a task that enters its body waits for a load if and only if none has ended well, it then builds if and only if its own load did not raise and some load has made an index, and it leaves the build only at the build's end |
| DirectServer.IndexFromElsewhere | src/prep/mcp_direct.py:178-206 | a build after an index load by another tool builds at once |
| DirectServer.TwoBuildsAccepted | src/prep/mcp_direct.py:167-180 | two builds can both be accepted before the first takes the lock |
| StdioLoop.HandleRequest | src/prep/mcp_direct.py:493-530 | no reply without an id or for a null one, otherwise one that echoes the id with exactly one of result and error |
| StdioLoop.RunStdio | src/prep/mcp_direct.py:623-659 | up to the first fatal line, what the specification writes for each line, in order, and nothing else |
| StdioLoop.AskingAtIsComplete | src/prep/mcp_direct.py:634-656 | the positions of the lines that ask for a reply are listed in order and completely |
| StdioLoop.AllAnsweredIff | src/prep/mcp_direct.py:493-659 | the whole input is answered as sections 4, 5.1 and 6 of JSON-RPC 2.0 ask if and only if every object is a valid request without a null id that is no tool call with a list of parameters, and from the first fatal line on, that one included, nothing asks for a reply |
| StdioLoop.OrdinaryLinesAreAnswered | src/prep/mcp_direct.py:634-656 | blank lines, unparsable lines and such objects are all answered, or not, as the protocol asks |
| StdioLoop.NullIdGetsNoReply | src/prep/mcp_direct.py:496-499 | a ping with a null id asks for a reply and gets none |
| StdioLoop.ArrayEndsTheLoop | src/prep/mcp_direct.py:493-497 | any batch ends the loop and the request after it is never answered |
| StdioLoop.BatchFirst | src/prep/mcp_direct.py:493-497 | an input that starts with a batch is answered as section 6 of JSON-RPC 2.0 asks if and only if the batch is a non-empty one of notifications and nothing after it asks for a reply |
| A2ATasks.Handler.Handle | src/prep/a2a/handler.py:143-174 | over the task objects every request leaves the store and gives the answer of the specification |
| A2ATasks.HistoriesInLanguage | src/prep/a2a/handler.py:176-213 | over every request sequence each stored history is submitted, working, completed or failed, then any number of canceled, with an error exactly when it failed |
| A2ATasks.MessageMeansFailure | src/prep/a2a/handler.py:77-101 | a message is shown exactly when the history has a failure, unless the failure's text is empty |
| A2ATasks.SilentFailure | src/prep/a2a/handler.py:77-101 | a failure that shows no message |
| A2ATasks.GetReturnsLatest | src/prep/a2a/handler.py:198-213 | on one handler a get returns what the latest send or cancel of that id returned, and an error if there was none |
| A2ATasks.AnswersShowTheTask | src/prep/a2a/handler.py:77-213 | over every request sequence a task is shown in the state its history ends with, a sent one with its id, its artifacts and completed or failed with the text of its exception, a cancelled one as canceled, and a request is refused exactly if it is unsupported, malformed or about an id no send has used |
| A2ATasks.Serve | src/prep/api/routers/opportunities.py:368-372 | the route answers every request on an empty store |
| A2ATasks.EndpointForgets | src/prep/api/routers/opportunities.py:368-372 | a task that was sent over the route can be neither got nor cancelled there, although its handler would show it as sent |
| SeedPromotion.Database.FindCandidates | scripts/phase103_promote_seeds.py:37-62 | finds wanted seeds only (of the project and category, confident enough, with anchors neither empty nor an empty list), the most confident first and equally confident ones by title; a wanted row is left out only when the limit is reached, and then every found row is more confident, or as confident with a title no later |
| SeedPromotion.Database.Promote | scripts/phase103_promote_seeds.py:65-101 | rewrites the rows and counts them as the specification does, and leaves them alone on a dry run |
| SeedPromotion.Database.Migrate | scripts/phase103_temporal_schema.py:52-83 | adds the missing columns and applies both backfills to every row, and nothing on a dry run |
| SeedPromotion.PromoteAllAt | scripts/phase103_promote_seeds.py:65-101 | with unique ids exactly the listed seeds are rewritten, each by itself |
| SeedPromotion.PromotesExactlyTheListed | scripts/phase103_promote_seeds.py:65-101 | each listed seed becomes active, valid and updated at the given time and otherwise unchanged, keeps an assertion with a visible character and gets its title with a remark in place of any other; every other row stays |
| SeedPromotion.DryRunCounts | scripts/phase103_promote_seeds.py:65-101 | a dry run never counts fewer seeds than the promotion, and as many if and only if no seed is listed twice |
| SeedPromotion.PromoteTwice | scripts/phase103_promote_seeds.py:65-101 | promoting the same ids again changes nothing and counts nothing |
| SeedPromotion.RoundTakesTheTop | scripts/phase103_promote_seeds.py:37-101 | one run activates exactly the top of the ranking, which holds exactly the wanted seeds by falling confidence and then by title, leaves the rest of it as the new ranking, and counts min(limit, size) |
| SeedPromotion.RoundsDrainInOrder | scripts/phase103_promote_seeds.py:37-101 | after k runs with limit n exactly the first k n rows of the original ranking, by falling confidence and then by title, are active, each since the run its rank belongs to, and no other row has changed |
| SeedPromotion.RoundsTakeTheBest | scripts/phase103_promote_seeds.py:37-101 | after any number of runs every row that has changed was a wanted seed and is active, and is more confident than every wanted row that is still a seed, or as confident with a title no later |
| SeedPromotion.JobsInherit | scripts/phase103_temporal_schema.py:69-83 | over any mix of promotions and migrations a review date once set is never overwritten, and a new one is the date the active row is valid from |
| SeedPromotion.EndingInMigration | scripts/phase103_temporal_schema.py:69-83 | a mix that ends in a migration leaves every active row with a validity date reviewed, and a second migration changes nothing |
| ProjectResolution.AncestorByNames | src/prep/cli.py:176-176 | the text test on paths holds exactly when the names of the one begin the names of the other, so a shared name prefix is no ancestor |
| ProjectResolution.FindBest | src/prep/cli.py:169-179 | the loop picks the first among the candidates with the longest path, and none only if there is no candidate |
| ProjectResolution.BestIsNearest | src/prep/cli.py:169-179 | no project at or above the working directory is deeper than the pick, and all as deep have its path |
| ProjectResolution.ResolveProject | src/prep/cli.py:164-200 | the id of the pick, else of the only project, else none; an id that is named is a listed project's and not empty |
| ProjectResolution.NamesTheNearestIff | src/prep/cli.py:181-189 | where a project with an id lies at or above the working directory, one is named if and only if the first of the nearest ones has an id that is not empty, and then that one |
| ProjectResolution.RootIsNeverChosen | src/prep/cli.py:172-175 | a project registered at the root is never a candidate |
| SegmentEvidence.FileToSegment | tmp/p124_baseline/h1_h2_evidence.py:67-74 | the reverse index maps each file to the first segment that lists it, and no other file |
| SegmentEvidence.Classify | tmp/p124_baseline/h1_h2_evidence.py:171-199 | the loop's counters and edges are those of the classes of the documents |
| SegmentEvidence.KindIsUnique | tmp/p124_baseline/h1_h2_evidence.py:179-199 | each document is in exactly one class, given by which kinds of mentions exist |
| SegmentEvidence.RemainderIsUnresolved | tmp/p124_baseline/h1_h2_evidence.py:186-199 | the documents no counter counts are exactly the segmented ones with code mentions of which none lies in a segment |
| SegmentEvidence.EvidenceIsConserved | tmp/p124_baseline/h1_h2_evidence.py:171-199 | the counters and the remainder add up to the documents, and the edge total is the number of mentions of other segments over the fully orphaned documents |

## Left out

- Browser, network and subprocess calls: only their outcomes appear, as arbitrary inputs; of a screenshot only whether it could be taken; log wording is not modelled.
- The non-blocking anomaly checks of the watch loop and its stage start and end notes with their screenshots: they change neither the verdict nor the counters that are modelled.
- I2, I14 and I15 of the UI invariants: each is settled by one comprehension over the rows.
- Manifest serialisation: a file is whole, with a manifest as its content, or torn; the JSON text itself, the session id, the scorecard and the per-event summaries are not modelled.
- The dashboard's own flags and data: what a stage computes from them is an arbitrary state; the page is drawn from the status the invariants see, without the lag between the two, and its empty and loading screens stand as pages whose groups are collapsed.
- Resuming a session with other operations or iterations than the manifest's.
- Floating-point rounding and NaN: reals throughout; the two-decimal print rounds exact halves to even.
- SessionRunner.RunMain: an interrupted write can only lose the temporary file; a disk that tears the rename itself is not modelled.
- Worksheet.ParseWorksheet: the regular expressions are line scanners, so blanks that a pattern would let run over a line break (a label whose value starts on the next line) are not followed (a box whose label stands on the next line of a content).
- WorksheetReading.WorksheetRoundTrip: the fixed header, the summary and the footer stand as any lines without a section header, the footer also without checkboxes; the notes line stays blank.
- The scorer's counters, per-category tables and review flags.
- MirrorWalk.Collect: the deny globs, the content patterns and the size and extension exemptions are functions of the path; the manifest output is not modelled.
- DirectServer.BuildsAreSerialised: cancellation of tasks is not modelled, and the index and its loader are reduced to whether an index exists.
- StdioLoop.RunStdio: the texts of results and messages, failures while writing a reply, and the errors a tool reports inside its result.
- A2ATasks.Handler.Handle: timestamps, the request id echo and the skills themselves; a skill is the artifacts it adds and the exception it ends with.
- SeedPromotion.Database.FindCandidates: rows with equal sort keys come in table order, which the database does not promise; the drain theorem asks for distinct keys.
- The command line around project resolution (explicit ids, the daemon request) and the dotted-key configuration commands.
- The first half of the segment evidence script (documents per module) and the extraction of paths from text.
