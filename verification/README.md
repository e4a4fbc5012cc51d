# Seoul weather platform: proofs about its control logic

This project models, in Dafny, the parts of the Seoul weather platform that decide something that
must not go wrong, and proves what they promise. Four groups are covered.

- **Deployment.** `Overlay`, `OverlayStore`, `Ledger`, `Adapters`, `Orchestrator` and
  `DeployHistory` model one run of the main-branch deployer and whole histories of runs. Every call
  to Airflow, Compose, Git, the clock and the file system may fail, and a mutating call that fails
  may or may not have taken effect. The theorems hold for every pattern of such faults.
- **Shared budgets and locks.** `AttemptBudget`, `RepairRetry` and `TriggerGuard` model protocols
  among any number of processes as interleaved atomic steps: compare-and-swap on an object store
  with conditional requests (sections 13.1.1, 13.1.2 and 15.5.13 of RFC 9110), and one advisory
  lock. `IssueWindow` and `Manifest` model what the collector works on and when a cycle is complete.
- **Forecast quality.** `Selection`, `Metrics` and `Evaluation` model which forecast and which
  observation count, what the scores are, and how cohorts account for every row.
- **Policy and the public report.** `GuardClauses`, `ShellScanner` and `ScriptFolding` model the
  workflow policy's condition compiler, substitution scanner and line folding; `DailyReport` builds
  the public report against an arbitrary object server and proves it fits the contract its reader
  checks.

`Basics`, `Order` and `Tables` hold the shared vocabulary: optional results, string and tuple order,
grouping, sorting and counting.

Where the program changes state step by step the model is a class or a method with a loop, proved
against a function or a relation that says what it computes; the theorems are about those.

Reading notes:

- An orchestrator method that always raises in the program returns the category it raises. `events`
  is the log of what a run did to and saw of the outside world; `Guarded` says every install and
  restore request in it was reached in its required order.
- `Effect` says, for each way a run can end, what it may have done to pause flags, overlay and
  ledger. `DeployHistory` uses nothing else about a run.
- `Reserve`, `CheckDeferred`, `Defer` and `CriticalSection` take every step through the shared state
  of their protocol, with arbitrary interference before each step, so the theorems about all
  interleavings hold of them.
- Sets are visited in any order where the program sorts first; the results are shown not to depend
  on the order.

## Model

| member | source | states |
|---|---|---|
| `Overlay.RenderArtifact` | deployment/overlay.py:51-83 | rendering succeeds exactly when every service name is allowed, and the bytes and digest are those of the one document of that kind, whatever order the services are walked in |
| `Overlay.RenderRelease` | deployment/overlay.py:86-97 | only a 40-hex commit at exactly runtime_root/releases/<sha> renders, and the result is the rendered release of that commit |
| `Overlay.PairKind` | deployment/overlay.py:173-181 | a classified pair of sources is the pair of the returned kind; a release pair is never the baseline pair |
| `Overlay.PairKindOfPair` | deployment/overlay.py:173-181 | the classifier recovers the kind of every pair the renderer uses, provided a release pair is not the baseline pair |
| `Overlay.SharedPair` | deployment/overlay.py:195-229 | the running expected pair ends at a pair exactly when every service is allowed and mounts that one pair |
| `Overlay.BodiesMatch` | deployment/overlay.py:232-257 | the second pass accepts exactly when every body has the keys, permissions and environment of the kind |
| `Overlay.BodyShape` | deployment/overlay.py:210-257 | a body that passes both passes is, member for member, the rendered body of its kind |
| `Overlay.ArtifactRootIsClean` | deployment/overlay.py:242-257 | the environment the renderer writes for any commit never trips the credential filter the validator applies to it |
| `Overlay.PassesExactlyRenderings` | deployment/overlay.py:184-258 | for a text the strict parser lets through, both validator passes succeed for a kind exactly when the target is admissible for it and the document says what that kind's rendering says |
| `Overlay.ValidateOverlayContent` | deployment/overlay.py:147-258 | accepted means: the digest fits, the text holds no & or *, and the content says exactly what the rendering of the returned kind says; conversely every such text of an admissible target is accepted with its own kind |
| `Overlay.RenderThenValidate` | deployment/overlay.py:51-107 | a rendered artifact validates exactly when its target is admissible and the configured directories of its kind hold no & or *, and then validation returns that artifact |
| `Overlay.RenderedIsAcceptable` | deployment/overlay.py:147-258 | what is rendered for a kind is acceptable for exactly that kind, and exactly when the target is admissible and the directories hold no & or * |
| `Overlay.RenderingMarks` | deployment/overlay.py:153-154 | a rendered text holds an & or a * exactly when the configured directories of its kind do: names, mount points, environment and commit never bring one in |
| `Overlay.MarkedPathIsRefused` | deployment/overlay.py:153-154 | an admissible target with an & in a directory name renders, and its rendering is acceptable for no kind |
| `Overlay.ReleasesDiffer` | deployment/overlay.py:51-83 | two releases render alike exactly when they are of one commit, and a release never says what a baseline says |
| `Overlay.RenderingIgnoresAllowlists` | deployment/target.py:414-448 | two targets that differ only in their DAG allowlists render alike |
| `Overlay.SameDocumentSameKind` | deployment/overlay.py:51-83 | one document is never the rendering of two kinds |
| `OverlayStore.AtomicOverlayStore.Stage` | deployment/overlay.py:294-308 | a staged path is new, holds the artifact, and only acceptable contents get one; a failure leaves no staged entry |
| `OverlayStore.AtomicOverlayStore.Install` | deployment/overlay.py:310-319 | the stable file is afterwards the old one or the artifact, the artifact on success, and untouched for an unknown staged path |
| `OverlayStore.AtomicOverlayStore.VerifyInstalled` | deployment/overlay.py:321-333 | a pass means the stable file is this artifact and acceptable for its kind |
| `OverlayStore.AtomicOverlayStore.Restore` | deployment/overlay.py:335-338 | a restore leaves the stable file old or restored, restored on success |
| `OverlayStore.AtomicOverlayStore.Discard` | deployment/overlay.py:340-343 | only a remembered path is forgotten, and only when the unlink did not raise |
| `Ledger.WriteThenRead` | deployment/ledger.py:95-215 | every valid record of either schema version, sealed with its checksum, reads back unchanged |
| `Ledger.StoredFormIsUnique` | deployment/ledger.py:172-215 | two different valid records never have the same stored form |
| `Ledger.TamperingIsNoticed` | deployment/ledger.py:53-67 | a stored file that keeps its checksum but differs from what was sealed, in any members, is not read at all |
| `Ledger.ReadExactlyAsWritten` | deployment/ledger.py:53-215 | a file is read as a record exactly when the record is valid, the checksum is right, and the members are those the record is written with, except that an optional member written as null may hold any value that is no string |
| `Ledger.RecordsAfterWrite` | deployment/ledger.py:260-266 | writing a valid record changes the ledger by exactly that record |
| `Ledger.DeploymentLedger.AcquireLock` | deployment/ledger.py:244-255 | the lock file is created only when absent, and a failed attempt leaves it as it was |
| `Ledger.DeploymentLedger.Write` | deployment/ledger.py:260-266 | begin and complete: an invalid record is refused, a fault changes nothing, success replaces one record |
| `Ledger.DeploymentLedger.ReadRecords` | deployment/ledger.py:275-284 | a pass over the directory yields a part of the stored records, each as stored |
| `Ledger.DeploymentLedger.AlreadySuccessful` | deployment/ledger.py:290-294 | answers exactly whether the pass saw an eligible success of that id; a yes is true of the ledger |
| `Ledger.DeploymentLedger.PreviousSuccess` | deployment/ledger.py:286-288 | the returned record is the eligible success with the largest completion time among those seen, and of those with that time the one with the largest hashed id; none means none was seen |
| `Ledger.DeploymentLedger.BaselineFor` | deployment/ledger.py:296-313 | the returned baseline is the newest of the target by capture time among those the pass could read; none means none of the target was read |
| `Orchestrator.MainDeploymentOrchestrator.PauseStateMatches` | deployment/main_orchestrator.py:431-446 | true exactly when the logged readback equals the expected flags, which are then the flags of the world |
| `Orchestrator.MainDeploymentOrchestrator.PauseAll` | deployment/main_orchestrator.py:389-396 | success ends in an all-paused readback, and only flags of the listed DAGs move |
| `Orchestrator.MainDeploymentOrchestrator.RestoreSnapshot` | deployment/main_orchestrator.py:421-429 | success ends in a readback equal to the snapshot, and the flags are the snapshot |
| `Orchestrator.MainDeploymentOrchestrator.Drain` | deployment/main_orchestrator.py:398-419 | returns only after a zero-writer poll; at most ceil(timeout/interval) polls; no poll after the first at or past the deadline; every earlier poll showed a writer |
| `Orchestrator.MainDeploymentOrchestrator.ValidatePrevious` | deployment/main_orchestrator.py:286-330 | an accepted previous record yields its own overlay, acceptable as the release of another commit of the same repository |
| `Orchestrator.MainDeploymentOrchestrator.ValidateBaseline` | deployment/main_orchestrator.py:332-358 | an accepted baseline yields its own overlay, acceptable as a baseline |
| `Orchestrator.MainDeploymentOrchestrator.ChooseRollback` | deployment/main_orchestrator.py:270-284 | the candidate is the latest success seen, or the newest baseline seen when no success was seen |
| `Orchestrator.MainDeploymentOrchestrator.FailBeforeInstall` | deployment/main_orchestrator.py:448-491 | either the flags are back at a read-back snapshot and the record says failed, or the run closed |
| `Orchestrator.MainDeploymentOrchestrator.FailClosed` | deployment/main_orchestrator.py:547-591 | rollback-failed is raised exactly when the last readback showed all DAGs paused, and then they are |
| `Orchestrator.MainDeploymentOrchestrator.Rollback` | deployment/main_orchestrator.py:493-545 | either the rollback overlay was put back, verified, served and found healthy, in that order, and is recorded with the flags given back, or the run closed; restore is reached only after an all-paused readback and then a zero-writer poll |
| `Orchestrator.MainDeploymentOrchestrator.Prepare` | deployment/main_orchestrator.py:162-190 | a candidate is handed to install only after a zero-writer poll, then an all-paused readback, then the exact checkout, then its validation, in that order |
| `Orchestrator.MainDeploymentOrchestrator.InstallAndRecord` | deployment/main_orchestrator.py:192-225 | success means installed, verified, served, healthy, flags given back, and recorded as success |
| `Orchestrator.MainDeploymentOrchestrator.Perform` | deployment/main_orchestrator.py:159-268 | how a run past admission ends fixes what it did to flags, overlay and record, and what it logged: a success was served, a rolled-back run restored and served after an install was asked for |
| `Orchestrator.MainDeploymentOrchestrator.Deploy` | deployment/main_orchestrator.py:98-268 | every run returns success or raises a listed category, gives the lock back, keeps every install and restore request in its required order, is admitted only unrecorded, with a rollback point and all its DAGs known, and changes the plant as its ending says |
| `DeployHistory.RunKeepsCurrent` | deployment/main_orchestrator.py:117-268 | one run leaves the current overlay installed exactly when: a success is stamped last (or the later one is of its commit); a rollback saw a latest success of the right commit, or the right baseline when there is none; a run that installs nothing does not overwrite the latest success by its own record |
| `DeployHistory.InstalledFollowsLedger` | deployment/main_orchestrator.py:117-284 | after any history of runs under any faults, when the last installing run was verified under its condition and no later run overwrote the latest success, the installed overlay is that of the latest success, or the newest baseline when there is none |
| `DeployHistory.StepIsSound` | deployment/main_orchestrator.py:117-268 | every run keeps success records in their own files, each with the overlay of its own commit, and leaves the baselines alone |
| `DeployHistory.FullSightKeepsCurrent` | deployment/ledger.py:275-313 | a run whose passes read every ledger file meets its condition, a success provided it is stamped last |
| `DeployHistory.RollbackNeedsLatestRead` | deployment/ledger.py:275-288 | with one repository a rollback meets its condition on successes exactly when the pass read the latest success not of its own id, if there is one |
| `DeployHistory.OverwritingTheLatest` | deployment/ledger.py:260-288 | with one repository a run that installs nothing meets its condition exactly when its id does not hold the latest success |
| `DeployHistory.CurrentIsUnique` | deployment/ledger.py:286-288 | with distinct completion times the current overlay is one overlay |
| `DeployHistory.SuccessLostExactlyWhenUnread` | deployment/ledger.py:275-294 | for given ledger, sight and id, some run can change a success record exactly when the record is its own, the idempotence pass did not read it, and there is something to go back to and DAGs to pause |
| `DeployHistory.RunKeepsSuccess` | deployment/main_orchestrator.py:124-160 | one run leaves every success record unchanged and adds one exactly when it returns a new success |
| `DeployHistory.SuccessMeansReturned` | deployment/main_orchestrator.py:207-225 | over any history a success record exists exactly when it existed at the start or a run returned that success |
| `DeployHistory.SuccessIsPermanent` | deployment/main_orchestrator.py:124-160 | no later run changes a success record or succeeds again under its id |
| `DeployHistory.FlagsComeBack` | deployment/main_orchestrator.py:421-491 | over any history in which no run closed, every pause flag ends where it began |
| `DeployHistory.UnreadableFileLosesSuccess` | deployment/ledger.py:53-60 | for every target with an acceptable baseline: from a ledger with one success, its overlay installed, a run that cannot read it overwrites it, and what stays installed is no longer current |
| `DeployHistory.UnreadableFileMisleadsRollback` | deployment/ledger.py:53-60 | for every such target: a rollback that cannot read the latest success installs the baseline, which is not current |
| `AttemptBudget.RunKeepsInv` | tools/weather_collect_hosted.py:142-199 | the protocol invariant holds after every interleaving of any number of collectors with lost, late and repeated writes |
| `AttemptBudget.BudgetHolds` | tools/weather_collect_hosted.py:142-199 | in every reachable state the stored daily count is at most 2400 and covers every granted reservation, a run is granted at most 1280, and every grant was made inside its day with 40 s left |
| `AttemptBudget.CountNeverFalls` | tools/weather_collect_hosted.py:142-199 | the stored count of a day never decreases |
| `AttemptBudget.AttemptBudget.Reserve` | tools/weather_collect_hosted.py:153-199 | the retry loop is one thread of that protocol; it returns normally exactly with one more grant, and otherwise raises a listed code and grants nothing |
| `AttemptBudget.AttemptBudget.TryOnce` | tools/weather_collect_hosted.py:159-198 | one pass grants, refuses with a listed code, or asks for another pass |
| `RepairRetry.CooldownHolds` | tools/weather_collect_hosted.py:565-612 | under every interleaving stored failures are three hours apart per step, each passes the reader's check, and none lies in the future |
| `RepairRetry.HistoryGrows` | tools/weather_collect_hosted.py:599-612 | documents are only ever appended to the history |
| `RepairRetry.StoredOnce` | tools/weather_collect_hosted.py:599-612 | no document is stored twice |
| `RepairRetry.OneWinner` | tools/weather_collect_hosted.py:599-612 | of two writes based on the same document only one takes effect |
| `RepairRetry.RepairRetry.CheckDeferred` | tools/weather_collect_hosted.py:573-597 | due means no failure was stored or its cooldown had passed; deferred means it had not |
| `RepairRetry.RepairRetry.Defer` | tools/weather_collect_hosted.py:599-612 | a normal return means a failure with this reason, stamped no earlier than the call, is in the history |
| `TriggerGuard.ConflictShape` | scripts/safe_trigger_dag.py:66-75 | every known DAG conflicts with itself, and exactly a weather-only with a traffic-only DAG does not conflict |
| `TriggerGuard.ConflictIsSymmetric` | scripts/safe_trigger_dag.py:66-75 | conflict is symmetric, unknown DAGs included |
| `TriggerGuard.NoConflictingRuns` | scripts/safe_trigger_dag.py:78-160 | over every interleaving of any number of guards in which no session is lost between a clear query and its trigger, whatever else is lost, no two conflicting DAG runs are active, and at most one guard is about to trigger |
| `TriggerGuard.LostSessionBreaksExclusion` | scripts/safe_trigger_dag.py:92-160 | from every reachable state in which a guard about to trigger has lost its session and there is any other guard, some continuation makes two conflicting runs active |
| `TriggerGuard.SessionCanBeLost` | scripts/safe_trigger_dag.py:92-160 | such a state is reachable for every known DAG |
| `TriggerGuard.Guard.CriticalSection` | scripts/safe_trigger_dag.py:78-160 | the status says triggered exactly when the command returned zero; a check, a busy answer or a failed query asks nothing of Airflow; the lock is never kept |
| `TriggerGuard.Guard.Conclude` | scripts/safe_trigger_dag.py:141-160 | a triggered outcome stays a triggered status through failing unlock and cleanup, and no other outcome becomes one |
| `TriggerGuard.Guard.GuardMain` | scripts/safe_trigger_dag.py:301-375 | exit 0 without a check means triggered; 3, 4 and 64 mean nothing was asked; 5 means triggered with a failed cleanup |
| `IssueWindow.FindEligibleIssues` | tools/weather_collect_hosted.py:97-106 | returns, ascending, exactly the issue times in (now - 24 h, now - 40 min], and always seven or eight of them |
| `IssueWindow.WindowHoldsSevenOrEight` | tools/weather_collect_hosted.py:97-106 | any list of exactly those issues has seven or eight, so the empty-window refusal cannot occur |
| `IssueWindow.ClassifyIssue` | tools/weather_collect_hosted.py:646-679 | an issue is reused exactly when one load date holds a whole cycle and every other holds nothing, and a gap exactly when all hold nothing |
| `IssueWindow.SelectIssue` | tools/weather_collect_hosted.py:631-688 | the survey lists exactly the reused, blocked and cooling issues looked at, and its pending issue is the first workable one; a repair stops there and accounts for every issue it looked at |
| `IssueWindow.NewestGapFirst` | tools/weather_collect_hosted.py:644-688 | an ordinary run works on the newest gap, and on none only when there is none |
| `IssueWindow.OldestGapFirst` | tools/weather_collect_hosted.py:640-688 | a repair works on the oldest gap that is not cooling down and never on the newest issue |
| `Manifest.ValidatePage` | tools/weather_collect_hosted.py:231-243 | a page is accepted exactly when total, number, size, range and row count obey the page rule |
| `Manifest.PagesSumToTotal` | tools/weather_collect_hosted.py:231-243 | the row counts the page rule asks of pages 1..ceil(total/1000) sum to the total, for every total |
| `Manifest.CompleteSize` | tools/weather_collect_hosted.py:440-442 | a complete cycle has one or two pages per grid, so the 80..160 bound follows |
| `Manifest.CheckGroup` | tools/weather_collect_hosted.py:481-486 | a grid's pages pass exactly when they have one total and are exactly 1..ceil(total/1000); the sum check refuses nothing more |
| `Manifest.CheckGroups` | tools/weather_collect_hosted.py:480-486 | all groups pass and cover the grids exactly when the entries are a complete cycle |
| `Manifest.ValidateManifest` | tools/weather_collect_hosted.py:432-487 | a manifest is accepted exactly when its fields fit, all objects verify, and every grid has each of its pages exactly once with one total |
| `GuardClauses.SidesDoNotMatter` | tools/workflow_policy.py:896-898 | a comparison of two fields is the same atom written either way round |
| `GuardClauses.MergePairs` | tools/workflow_policy.py:945-957 | the product loop succeeds exactly when no pair overlaps, no clause repeats and at most 16 result, in any order of the pairs |
| `GuardClauses.Compile` | tools/workflow_policy.py:927-967 | the bounded compiler returns exactly the specified clause set, early refusals included |
| `GuardClauses.CompiledHolds` | tools/workflow_policy.py:927-967 | whenever there is an answer, the expression is true in a run exactly when some clause is wholly true |
| `GuardClauses.CompiledBounds` | tools/workflow_policy.py:927-967 | an answer has between 1 and 16 clauses |
| `GuardClauses.TrustedGuard` | tools/workflow_policy.py:1016-1033 | accepted exactly under the stated inclusion or equality; then the condition implies the required disjunction, and for the deploy workflow is equivalent to it |
| `GuardClauses.DeployMainGuardIsExact` | tools/workflow_policy.py:1363-1372 | exact means the condition is equivalent to the two required clauses |
| `GuardClauses.TrustedPushRuns` | tools/workflow_policy.py:977-984 | a trusted CI job only runs for a push to dev or main in protected mode |
| `GuardClauses.TrustedDeployRuns` | tools/workflow_policy.py:986-1011 | a trusted deploy job only runs after a successful main-branch CI push run of the same commit |
| `ShellScanner.BacktickSubstitution` | tools/workflow_policy.py:695-704 | finds the closing backtick of the specification, with the body strictly inside the text before the returned index |
| `ShellScanner.ParenthesizedSubstitution` | tools/workflow_policy.py:707-750 | finds the closing parenthesis of the specification; the recursion is on a strictly later position |
| `ShellScanner.ShellSubstitutions` | tools/workflow_policy.py:753-790 | returns exactly the outermost bodies and whether one is unclosed; every body is shorter than the text |
| `ShellScanner.Normalized` | tools/workflow_policy.py:794-794 | folding line continuations never lengthens a script |
| `ShellScanner.DecideMutation` | tools/workflow_policy.py:793-800 | the recursive verdict terminates on every string and equals its specification |
| `ShellScanner.NestedMutationIsNoticed` | tools/workflow_policy.py:793-800 | a mutating substitution at any depth makes the whole script mutating |
| `ShellScanner.MutationHasACause` | tools/workflow_policy.py:793-800 | and only that: some nested script is unclosed or has a mutating command |
| `ShellScanner.SubCloses` | tools/workflow_policy.py:707-750 | a substitution written from well-formed pieces is closed by its own parenthesis, whatever quotes, escapes and groups it holds |
| `ShellScanner.WrittenScriptIsRead` | tools/workflow_policy.py:753-790 | scanning a text written from its structure finds exactly the substitutions of the structure, and nothing unclosed |
| `ScriptFolding.NormalizedTwice` | tools/workflow_policy.py:794-794 | folding leaves nothing to fold, so a folded script is judged like the script |
| `ScriptFolding.FoldingKeepsStructure` | tools/workflow_policy.py:794-794 | the folded text of a script is the text of its folded structure exactly when no backtick that opens or closes a substitution stands before a line end, at any depth; otherwise characters of the structure are lost |
| `ScriptFolding.FoldedWellFormed` | tools/workflow_policy.py:794-794 | folding a well-formed structure, continuations inside quotes and substitutions included, leaves it well formed |
| `ScriptFolding.FoldedBodies` | tools/workflow_policy.py:794-795 | the substitutions of the folded structure are the folded substitutions of the structure |
| `ScriptFolding.WrittenVerdict` | tools/workflow_policy.py:793-800 | a script with any continuations and no backtick at a line end mutates exactly when a substitution of its structure does or its own folded commands do |
| `ScriptFolding.WrittenSubstitutionMutates` | tools/workflow_policy.py:793-800 | in such a script no quoting, nesting or continuation hides a mutating substitution |
| `ScriptFolding.JudgedAsWritten` | tools/workflow_policy.py:793-800 | a script is judged as its structure says, for every verdict on commands, exactly when no backtick of a substitution stands at a line end, apart from scripts said to mutate because something is left open both in them and in a substitution of theirs |
| `ScriptFolding.MissedExactlyWhen` | tools/workflow_policy.py:793-800 | some commands make a body mutate and the script not exactly when nothing nested in the script is left open and either something nested in the body is or the body has commands the script's verdict never looks at |
| `ScriptFolding.TickAtLineEndHidesCommand` | tools/workflow_policy.py:793-800 | of two backtick substitutions on lines of their own the second is never looked at: only the folded text and the first substitution with a space after it are |
| `ScriptFolding.DeploymentIsHidden` | tools/workflow_policy.py:793-800 | one such script, whose second substitution is a deployment command |
| `Metrics.MeanWithinSize` | weather_quality/metrics.py:53-65 | the magnitude of a mean is at most the mean magnitude, and equal exactly for one-sided values |
| `Metrics.MeanWithinSquares` | weather_quality/metrics.py:53-65 | the square of a mean is at most the mean of squares, and equal exactly for constant values |
| `Metrics.ContinuousOrder` | weather_quality/metrics.py:53-65 | absolute bias <= MAE <= RMSE for every non-empty sample, with the exact condition for each equality |
| `Metrics.BinIndex` | weather_quality/metrics.py:79-81 | every probability falls in one of ten bins, between that bin's bounds |
| `Metrics.BinsPartition` | weather_quality/metrics.py:79-81 | any total over the rows is the total over the ten bins |
| `Metrics.BinHolds` | weather_quality/metrics.py:79-81 | a bin holds exactly the rows whose index it is |
| `Metrics.GapIsResidual` | weather_quality/metrics.py:88-96 | a bin's weighted gap is the magnitude of its summed residuals over the sample size |
| `Metrics.ProbabilityOrder` | weather_quality/metrics.py:68-124 | calibration in the large <= ECE <= mean absolute error <= 1, and their squares <= Brier <= mean absolute error |
| `Metrics.ProbabilityMetrics` | weather_quality/metrics.py:68-124 | refuses exactly empty or invalid samples, with the first invalid row's reason, and otherwise returns the specified bins and scores |
| `Metrics.FillBuckets` | weather_quality/metrics.py:79-81 | the buckets hold, in order, exactly the rows of their bins |
| `Metrics.CategoricalMetrics` | weather_quality/metrics.py:131-177 | accepted exactly when there are rows, the label is not blank, and all values are of its kind and not blank |
| `Metrics.ScoresOrder` | weather_quality/metrics.py:149-177 | the confusion counts sum to n; accuracy and prevalence lie in [0, 1]; F1 exists exactly with a true positive and lies between precision and recall |
| `Metrics.HarmonicMeanOrder` | weather_quality/metrics.py:159-163 | a harmonic mean of positive values lies between them |
| `Metrics.ThresholdAgrees` | weather_quality/metrics.py:26-50 | the confusion counts of thresholded probabilities are the counts of the per-row outcomes |
| `Metrics.BrierBoundsErrors` | weather_quality/metrics.py:68-177 | the share of misclassified rows is at most four times the Brier score |
| `Selection.SelectForecastVintages` | weather_quality/selection.py:72-141 | refuses exactly duplicate identities, then mixed series; otherwise the result is the sorted table of winners and gaps, three entries per series |
| `Selection.OrderDoesNotMatter` | weather_quality/selection.py:72-141 | permuting the forecasts changes neither result nor refusal |
| `Selection.BlindToLaterIssues` | weather_quality/selection.py:72-121 | rows with fresh identities and the kind and unit of the series they join, issued after a label's cutoff, are accepted and change nothing that label selects or misses |
| `Selection.OneLabelEach` | weather_quality/selection.py:15-16 | no forecast serves two labels |
| `Selection.OneEntryPerLabel` | weather_quality/selection.py:101-121 | every series has for each label exactly one entry: one forecast, or one gap |
| `Selection.WinnerIsUnique` | weather_quality/selection.py:120-120 | within a series revision and source never have to break a tie |
| `Selection.ResolveObservationTruth` | weather_quality/selection.py:144-192 | refuses exactly duplicates, then conflicting latest rows; otherwise selects exactly the accepted leaders, with exact exclusion counts and degraded flag |
| `Selection.TruthOrderDoesNotMatter` | weather_quality/selection.py:144-192 | permuting the observations changes neither result nor refusal |
| `Selection.BlindToTheFuture` | weather_quality/selection.py:154-162 | rows dated or collected after the evaluation change no selection, count of rejected or stale, flag or refusal |
| `Selection.EveryRowIsAccounted` | weather_quality/selection.py:144-192 | every row is hidden or seen, and every place seen is selected, rejected or stale |
| `Tables.RejectDuplicateIdentities` | weather_quality/selection.py:58-69 | a duplicate is reported exactly when two rows share an identity |
| `Evaluation.FateOf` | weather_quality/evaluation.py:130-146 | matched exactly when there is a truth at the spot, in the same unit, of the kind the forecast is scored against |
| `Evaluation.EvidenceOnEightyGrids` | weather_quality/evidence.py:15-21 | on 80 grids evidence is insufficient exactly below 64 samples, so the 30-sample minimum never decides |
| `Evaluation.MetricsNeverRefuse` | weather_quality/evaluation.py:167-198 | a cohort of valid matched rows is refused exactly for the categorical variable or labels; no metric refuses it |
| `Evaluation.CohortConserves` | weather_quality/evaluation.py:123-146 | samples and exclusions add up to the selected forecasts of the cohort |
| `Evaluation.CohortFits` | weather_quality/evaluation.py:113-118 | a cohort has no grid twice, so it is no larger than the universe |
| `Evaluation.CoverageAtMostOne` | weather_quality/evaluation.py:151-157 | sample plus exclusions is the cohort, and the sample is at most the universe |
| `Evaluation.CohortsPartition` | weather_quality/evaluation.py:113-121 | every selected forecast is in exactly one cohort |
| `Evaluation.GapsAreCounted` | weather_quality/evaluation.py:246-257 | the gap counts by label add up to the gaps |
| `Evaluation.AssessCohort` | weather_quality/evaluation.py:122-198 | the matching loop returns exactly the specified cohort or its refusal |
| `Evaluation.FindAmbiguity` | weather_quality/evaluation.py:100-108 | refused exactly when two accepted truths of different sources share a spot |
| `Evaluation.ReportConserves` | weather_quality/evaluation.py:78-259 | samples, exclusions and gaps of a report add up to three entries per series of the input, and no cohort samples more than the universe |
| `Evaluation.Evaluate` | weather_quality/evaluation.py:78-259 | the report or refusal is the one its selection, resolution and sorted cohorts determine, and a report accounts for three entries per series |
| `Evaluation.EvaluationIgnoresOrder` | weather_quality/evaluation.py:78-259 | reordering forecasts and observations changes nothing in the report or the refusal |
| `Evaluation.EvaluationIsBlindToTheFuture` | weather_quality/evaluation.py:78-259 | observations dated or collected later change no cohort, gap count or refusal |
| `DailyReport.ListAll` | tools/weather_daily_quality_cloud.py:50-81 | whatever the server answers, listing ends within 12 requests and 5000 objects, and an accepted listing is exactly the keys served, all under the two load dates |
| `DailyReport.ValidateManifest` | tools/weather_daily_quality_cloud.py:108-138 | an accepted manifest is evidence for all its distinct keys, listed and in contract, of one issue |
| `DailyReport.ReadManifest` | tools/weather_daily_quality_cloud.py:84-93 | one download of a bounded size; the outcome is what the reply says |
| `DailyReport.Collect` | tools/weather_daily_quality_cloud.py:141-179 | at most 64 downloads and 4 MiB plus one byte; the evidence is exactly what the accepted manifests sent, and nothing was skipped unless a reply cut it short |
| `DailyReport.ProductSize` | tools/weather_daily_quality_cloud.py:200-200 | the contract has eight slots per grid |
| `DailyReport.ObservedWithinContract` | tools/weather_daily_quality_cloud.py:200-207 | observed slots are contract slots, so missing is never negative and zero only with full coverage |
| `DailyReport.CheckFreshness` | tools/weather_daily_quality_cloud.py:213-222 | fails exactly when some grid's evidence is all older than six hours, passes exactly when every grid has fresh evidence and nothing else went wrong |
| `DailyReport.CheckMissing` | tools/weather_daily_quality_cloud.py:200-207 | passes exactly when the accepted rows fill every contract slot; the missing count is the size of the difference |
| `DailyReport.CountVerified` | tools/weather_daily_quality_cloud.py:226-234 | verified and unverified raw objects add up to the listed raw objects |
| `DailyReport.Assemble` | tools/weather_daily_quality_publish.py:114-162 | whatever the evidence, the report satisfies the reader's contract exactly when the contract has 80 grids, and its counts and verdicts are those of the evidence |
| `DailyReport.BuildReport` | tools/weather_daily_quality_cloud.py:186-234 | for every server the report is built within the budgets and satisfies the reader's contract exactly when the contract has 80 grids; each check means what it says |

## Left out

- Text formats: JSON, YAML, base64 and regular expressions are structured values; SHA-256 is an injective constructor and an entity tag an injective function of its document.
- A process killed in the middle of a deployment: the lock file then stays and later runs are refused; a run in the model always reaches one of its endings.
- Operators changing pause flags, and Airflow changing them on its own, while a deployment runs.
- Where the ledger cannot be read the code does not meet its promises: `DeployHistory.RunKeepsCurrent` and `DeployHistory.SuccessLostExactlyWhenUnread` say exactly when, and `DeployHistory.UnreadableFileLosesSuccess` and `DeployHistory.UnreadableFileMisleadsRollback` give the runs.
- DeployHistory.RunKeepsCurrent: starts from a ledger whose successes hold the overlays of their own commits and whose baselines hold baseline documents, one for each capture time, as runs and the baseline capture leave it.
- DeployHistory.InstalledFollowsLedger: says nothing after a run that closed without a verified overlay, because the program itself makes no claim then.
- Two successes with one completion second: the theorems on what is installed ask for distinct completion times.
- Where a backtick of a substitution stands before a line end the program takes it for a continuation and may look past a command; `ScriptFolding.JudgedAsWritten` and `ScriptFolding.MissedExactlyWhen` say exactly when, and `ScriptFolding.TickAtLineEndHidesCommand` gives a family.
- Scripts that end in a lone backslash have no structure in the model; the scanner's own contracts cover them.
- Selection.OrderDoesNotMatter: compares refusals by category; the message also names the first duplicate or mixed series in input order, which a permutation can change.
- Selection.TruthOrderDoesNotMatter: compares refusals by category, as above.
- AttemptBudget.BudgetHolds: all collectors read one clock; the limits do not depend on it.
- Bytes a download sent before its read failed: the byte budget counts what a read returned, as the program does.
- OverlayStore.AtomicOverlayStore.Stage: does not model another process editing a staged file between stage and install; the program compares the bytes again and so does the model.
- Windows paths: a source with backslashes goes through the drive and UNC rules of the model's path predicate, which keeps only the absolute-path and dot-segment parts of those rules.
- Case folding in the credential filter is ASCII, as is blankness of text and the character class of run identifiers.
- AttemptBudget.AttemptBudget.Reserve: the document's shape checks are not modelled, because only the collectors write it; the count it holds is.
- RepairRetry.RepairRetry.CheckDeferred: two readings of the clock in one call are one reading.
- TriggerGuard.NoConflictingRuns: assumes DAG runs are created only through the guard, and that creating one is a single step of the trigger command.
- A guard killed while its trigger command is still running, which the advisory lock does not cover.
- A storage failure while issues are surveyed ends the collector's run with that failure; `IssueWindow.SelectIssue` is about surveys without one.
- The size limit on the manifest document itself, and re-reading a manifest after a conflicting write.
- Run deadlines of the collector appear as calls that may refuse at any time.
- The provider's response parser, the landing job that fills a cycle, and checkpoints: their source is not part of this model; a page is the fields the page rules read.
- Manifest.ValidateManifest: the parallel workers that read objects are sequential, because they only read and their results are taken in manifest order.
- The segment splitter and the verdict on one command (`_segment_mutates`) are a parameter of the script verdict.
- Expressions other than comparisons, negated names, `and` and `or` have no meaning in the model; the compiler refuses them.
- Floating-point rounding, the twelve-digit rounding and the square root: scores are exact, and a root mean square is any non-negative root.
- Metrics.ContinuousOrder: says nothing about rounded values, because the rounding is left out.
- Report identifiers, texts, units and metadata of the evaluation, and the unsupported-kind refusal no validated forecast can reach.
- Time zones other than the fixed +9 h offset, and dates outside the calendar's range.
- The daily report's source revision, its Markdown form and its publication.
- Exact-shape validators, policy lints, the serving contract, provenance scanners, recovery planning, notification and proxy code: long lists of one-branch checks or plumbing.
