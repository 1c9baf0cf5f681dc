# SimpleSecCheck: a verified model of its core

This project models the parts of SimpleSecCheck that keep state or run a non-trivial algorithm,
and proves what they promise.  `dafny verify dfyconfig.toml` checks all of it.

| area | files | what is proved |
|---|---|---|
| Checkpoint and resume | Checkpoint, CheckpointProtocol, CheckpointRework, ResumeDecision, ScanTrace, SteadyScan | A transition system over disk, memory and environment. A restored scanner is always justified by a real execution of an earlier run; exactly the acceptable records are restored; in a steady environment recorded work is never repeated and a second scan executes no resumable scanner. |
| A whole scan | RunPlan, RunCompletion, RunProgress, ScanOutcome, ArtifactCollection, Orchestrator | `run_scan` as an object with its loops, proved to perform exactly the protocol events its inputs prescribe and the operations of the plan and of the running tools on the registry; what each tool did decides its step, its record and the history; every planned step ends settled, the total stays, progress is what the steps say. |
| Step registry | StepLog, StepRegistry, StepFields | Objects, append-only log, reload and late database upserts. Step identity survives any crashes; the database mirror converges; what each operation does to the fields, and that the last one decides. |
| Findings | Findings, TextMeaning, PolicyMatching, PolicyEngine, PolicyMeaning, Clustering, Dedupe, Consolidation, InlineSuppressions, SuppressionMeaning, PolicyPipeline | Loops refine simple specifications; when a rule applies, which findings share a record and which comment silences a finding, in terms of their fields; deduplication is idempotent, suppression monotone; no finding is lost end to end. |
| Rate limiting | RateLimiter | Interleaved requests against a sliding window: the bound for every number of overlapping requests, and that it is reached. |
| Scheduling, packing, scoring | RoundRobin, PromptSplit, PromptMeaning, Scores, ScoreMeaning | Bounded overtaking and the exact condition of fairness; next-fit within twice the optimum; the selection for a prompt; scores as sums over the findings and their order. |

The imperative parts are classes and loops. Each of them is proved against a value-level function
(`StepLog.AfterStart`, `CheckpointProtocol.Next`, `RoundRobin.Picked`, ...), and the theorems are
about those functions over all inputs and all runs. The files ending in Meaning, Consolidation,
ScanOutcome, StepFields and RunProgress say what these functions compute without using their
helpers: in the words, weights, keys and characters of the program. `Collections` holds the stable sort, grouping
and flattening that several components share.

Where the code and its documents disagree, the model follows the code:

- The checkpoint document in docs/ (resume decision, condition 3) lets a step be skipped only when
  all earlier steps are completed or skipped. The code tests each scanner alone:
  `ResumeDecision.OrderKeptIff` says when the rule holds all the same,
  `SteadyScan.LostArtifactBreaksOrder` and `SteadyScan.NextScanInOrderIff` when the next scan
  breaks it.
- An empty rule object `{}` matches every finding, but is falsy where the match is used: it accepts
  nothing and hides every later rule, while the dry run counts it (`PolicyEngine.EmptyRuleShadows`,
  `PolicyEngine.DryRunAgrees`).
- The configured rate limit is kept by every interleaving exactly if requests do not overlap, or limit or window is zero
  (`RateLimiter.LimitKeptIff`). With C of them in flight the bound is requests + C - 1, and it is
  reached (`RateLimiter.BoundIsTight`).
- Round robin is fair among owners that get stamped. Guests, and sessions whose id is null, never
  are, and go first (`RoundRobin.UnstampedGoFirst`), any number of times
  (`RoundRobin.OvertakingIsBoundedIff`). An empty object `{}` is falsy where the choice
  is compared; `RoundRobin.FairIff` says when that makes the pick unfair. No producer in the
  repository pushes one: backend/infrastructure/services/queue_service.py:112-167 always fills the
  message.
- Three applications of the path normalisation are enough exactly for paths with at most three
  "/target/" behind the mount prefix (`PolicyMatching.TripleApplicationIsFixpoint`); they are not
  for the family of `PolicyMatching.FourMarkersAreTooMany`. This is for paths in which no removal
  brings a blank to the front; no number is enough for all of the others
  (`PolicyMatching.UntidyPathsTakeLonger`), though each of them has one.
- Artifact Collection completes its substeps under the wrong step name, so they stay running for
  ever (`ArtifactCollection.CollectingSubstepsStayRunning`).
- The score floor of 10 and the band "Critical" are never reached (`Scores.ScoreRange`).
- An unnamed step would lose its number at a restart (`StepLog.UnnamedStepLosesItsNumber`), so the
  identity theorems are about steps with non-empty names; all callers use such names.

## Model

The rows name the results and the methods of the loops they are about; what only serves one of
them has no row. The first rows of a module are its main results.

| member | source | states |
|---|---|---|
| CheckpointProtocol.RestoredScannersAreJustified | scanner/core/orchestrator.py:835-958 | over any runs, crashes, lost checkpoints and changes of HEAD, configuration, versions and artifacts, each restored scanner is explained by a successful execution in a strictly earlier run with the same tools_key, HEAD, global configuration, scanner configuration and (where enforced) tool version, whose primary artifact had the very bytes present at the restore |
| CheckpointProtocol.RunKeepsSound | scanner/core/orchestrator.py:835-958 | soundness is an invariant of every event sequence from every sound state |
| CheckpointProtocol.OpeningKeepsExplained | scanner/core/orchestrator.py:848-870 | after the hash and HEAD comparisons every surviving record belongs to the present HEAD and is still explained |
| CheckpointRework.BoundedRework | scanner/core/orchestrator.py:873-958 | in a steady environment resumable scanners are executed at most (number of scanners) + (number of crashes) times over any sequence of runs, plus one while a run is open |
| CheckpointRework.NoRerunAfterRecord | scanner/core/orchestrator.py:873-958 | over any steady history from an empty directory, once the record of a scanner is on disk the scanner is not executed again, whatever crashes and restarts follow |
| SteadyScan.ScanIsSteadyRun | scanner/core/orchestrator.py:760-999 | a whole scan in a steady environment, as run_scan performs it, is a steady run of the protocol, so the two theorems above are about it |
| SteadyScan.ScanRecordsAll | scanner/core/orchestrator.py:835-992 | one complete scan in a steady environment leaves a record on disk of every resumable scanner, restored or executed |
| SteadyScan.NextScanExecutesNothing | scanner/core/orchestrator.py:873-958 | the next scan then restores every resumable scanner and executes none of them, whatever its tools would have done |
| ResumeDecision.SyncLoopRestores | scanner/core/orchestrator.py:873-913 | the sync loop restores exactly the scanners whose records are acceptable when it begins, in every state: what it saves on the way changes no later decision |
| ResumeDecision.OrderKeptIff | scanner/core/orchestrator.py:873-913 | restores follow the pipeline order if and only if no acceptable record stands behind a scanner that takes part and is refused; the documented order rule is not enforced |
| SteadyScan.NextScanInOrderIff | scanner/core/orchestrator.py:873-958 | in a steady environment the scan after a complete one restores in pipeline order if and only if no scanner without a checkpoint block that takes part stands before a resumable one |
| SteadyScan.LostArtifactBreaksOrder | scanner/core/orchestrator.py:873-958 | with checkpoint blocks everywhere: the artifact of one scanner is removed between two scans, and the next scan restores every later resumable one but not that one |
| SteadyScan.TwoScanners | scanner/core/orchestrator.py:873-958 | an input that meets the conditions of these statements: two resumable scanners, scanned for the first time |
| Checkpoint.RecordThenSkip | scanner/core/scan_checkpoint.py:220-289 | a fresh record lets the scanner be skipped if and only if the configuration, the global configuration, the version (where there is a version command) and the artifact bytes are those recorded |
| Checkpoint.StepKeyIsInjective | scanner/core/scan_checkpoint.py:19-20 | step keys separate tools keys |
| ScanOutcome.RestoredIff | scanner/core/orchestrator.py:848-912 | a scanner is restored if and only if it is enabled, has a tools_key and a checkpoint block, checkpoints are on, HEAD is known, and the file on disk belongs to this configuration and HEAD and holds a completed record with the same two hashes, the same version where versions are reported, and the hash of a valid artifact as it is |
| ScanOutcome.ScanHistoryIff | scanner/core/orchestrator.py:933-958 | a whole scan adds executions of a tools_key to the history if and only if a scanner with that key ran, its tool returned True and left no status file that says skipped |
| ScanOutcome.ScanRecordIs | scanner/core/orchestrator.py:946-958 | what the file holds of each scanner when the scan is over: a new record with this configuration, version and artifact if the tool succeeded and the artifact is valid, the old one otherwise |
| ScanOutcome.FailureLeavesNoTrace | scanner/core/orchestrator.py:476-492 | a scan in which the tool returned False, raised, was not found or said skipped adds no execution of it to the history and leaves the record on disk as the opening left it |
| ScanOutcome.ScanCloses | scanner/core/orchestrator.py:985-992 | the file says completed, and resumed if this or an earlier run restored anything, and carries the configuration, the tools_keys in order and the HEAD of the run |
| Orchestrator.ScanOrchestrator.RunScan | scanner/core/orchestrator.py:760-999 | a whole run performs exactly the protocol events that the configuration, the reported versions and the attempts prescribe (open, one skip decision per scanner, start, files written, result, save, finish), restores exactly the scanners with acceptable records, and performs exactly the operations of the plan and of the tools on the registry; it keeps checkpoint soundness and leaves every planned step completed, failed or skipped |
| Orchestrator.ScanOrchestrator.OpenCheckpoint | scanner/core/orchestrator.py:835-871 | load, invalidate, stamp and save make the protocol step Begin |
| Orchestrator.ScanOrchestrator.DecideSkip | scanner/core/orchestrator.py:877-912 | the skip decision and its save make the protocol step SyncStep |
| Orchestrator.ScanOrchestrator.SyncScanners | scanner/core/orchestrator.py:877-913 | the sync loop is one skip decision per scanner with the given versions, in order, and the sync segment of the plan |
| Orchestrator.ScanOrchestrator.RunTool | scanner/core/orchestrator.py:401-450 | the step is started, the substep calls of the tool reach the shared registry under that step, and the files become those of the write events of the tool, none if no tool is run |
| Orchestrator.ScanOrchestrator.ReportSubsteps | scanner/core/base_scanner.py:406-453 | the calls of a tool on the shared registry are operations on its own step, in order |
| Orchestrator.ScanOrchestrator.RecordResult | scanner/core/orchestrator.py:946-958 | the events are exactly the finished execution with its result and version and, after a success of a scanner with a checkpoint block in a run with checkpoints, the save of the checkpoint |
| Orchestrator.ScanOrchestrator.ExecScanner | scanner/core/orchestrator.py:357-502 | one turn of the execution loop, its protocol events and its registry operations: skipped if disabled or restored, otherwise started, run with its substeps and files, and settled by what the class lookup, status.json, the result or the exception decide |
| Orchestrator.ScanOrchestrator.ExecScanners | scanner/core/orchestrator.py:933-958 | the execution loop performs exactly the events of the given attempts and the execution segment of the plan |
| ScanOutcome.SuccessIsReportedIff | scanner/core/orchestrator.py:401-492 | a turn in which the scanner is executed reports a success if and only if there is a tools_key and the tool returned True without a status file that says skipped, and a failure otherwise |
| ScanOutcome.FinalScannerStatus | scanner/core/orchestrator.py:357-502 | when a run is over the step of a scanner is COMPLETED if it was restored or its tool succeeded, SKIPPED if it is disabled or its tool said skipped, FAILED in all other cases, whatever the registry held before |
| ScanOutcome.FinalScannerStep | scanner/core/orchestrator.py:357-502 | the step of an executed scanner ends with the times of this run and the text of its ending |
| ScanOutcome.FinalUnexecutedStep | scanner/core/orchestrator.py:893-907 | the step of a restored scanner ends with the times of this run and says that it was restored, that of a disabled one says that it is disabled |
| ScanOutcome.FinalSubstep | scanner/core/base_scanner.py:406-453 | when a run is over, each substep that the tool started is RUNNING, COMPLETED or FAILED as the last call that started or ended it says |
| ScanTrace.TurnDoes | scanner/core/orchestrator.py:933-958 | what the events of one turn make of the state: starts, files, history, record and saved checkpoint |
| ScanTrace.WritesStayInDirectory | scanner/core/orchestrator.py:385-450 | the files a tool writes leave every other directory as it is |
| Orchestrator.ScanOrchestrator.CloseCheckpoint | scanner/core/orchestrator.py:985-992 | the final re-read, mark and save make the protocol step Finish |
| Orchestrator.ScanOrchestrator.CollectArtifacts | scanner/core/orchestrator.py:566-673 | the Artifact Collection step with its substeps, up to the kind in which an exception ends the collection |
| ArtifactCollection.CollectingSubstepsStayRunning | scanner/core/orchestrator.py:566-673 | when a run returns, Artifact Collection is completed and every substep it began is still running, whether the collection went through or raised, for every plan and registry |
| RunCompletion.EveryPlannedStepIsSettled | scanner/core/orchestrator.py:675-999 | for all substep calls and all endings of all scanners every planned step ends COMPLETED, FAILED or SKIPPED, the steps of no scanner COMPLETED, whatever the registry held before |
| RunCompletion.TotalIsConstant | scanner/core/orchestrator.py:675-999 | after pre-registration the step total is the same at every moment of the run, also while tools report substeps |
| RunCompletion.TotalStaysIff | scanner/core/step_registry.py:198-461 | an operation leaves the total as it is if and only if it names a known step or is one that never creates a step; in particular a substep started under an unknown name raises it |
| RunCompletion.ProgressThroughoutRun | scanner/core/step_registry.py:391-410 | at every moment of a run over any well numbered registry the rounded progress lies in 0..100 |
| RunProgress.ProgressIs | scanner/core/step_registry.py:391-410 | the progress is the mean over all steps, a completed or failed one counting 100 and a running one 50, rounded to the nearest whole number and halves to the even one |
| RunProgress.FinalProgress | scanner/core/orchestrator.py:675-999 | when a scan of a fresh directory is over the total is the number of planned steps and the progress the share of those not skipped: 100 if and only if at most one step in two hundred was skipped |
| RunProgress.PlanIsRegistered | scanner/core/orchestrator.py:675-758 | on a fresh directory the planned steps are registered as pending under the numbers of the plan, scanners with their timeout and the other steps without one |
| RunCompletion.RunEntersByStarting | scanner/core/step_registry.py:198-461 | during a run a step enters RUNNING by its own start alone: no substep call starts one |
| RunCompletion.StartsAscend | scanner/core/orchestrator.py:675-999 | on a fresh results directory steps enter RUNNING in strictly increasing number order, calls of start_step inside other operations included |
| StepLog.IdentityOverRuns | scanner/core/step_registry.py:198-309 | over any operations, late upserts, crashes and restarts the numbers in use are 1..counter, name to number is a bijection that never changes, and a database row never changes its step |
| StepLog.RestartRestoresIdentity | scanner/core/step_registry.py:548-651 | a crash and a reload give back every name, number, the counter and the substeps |
| StepLog.UnnamedStepLosesItsNumber | scanner/core/step_registry.py:595-650 | a step with the empty name breaks identity from every state of a running process: its number is handed out again and its row is renamed |
| StepLog.MirrorConverges | scanner/core/step_registry.py:695-732 | once all scheduled upserts have run, the row of every step written has the status and message in memory and the latest non-null times any upsert read |
| StepFields.EndSubDoes | scanner/core/step_registry.py:463-519 | completing sets the first substep of the name COMPLETED, failing sets it FAILED, at the time of the call and with its message if there is one; every other substep, step and field stays |
| StepFields.LastCallDecides | scanner/core/step_registry.py:416-519 | over all calls of a tool the status of a substep is fixed by the last call that starts or ends it |
| StepFields.NewSubDoes | scanner/core/step_registry.py:416-461 | starting an unknown substep appends it as RUNNING with the time, kind and message of the call, or a standard message |
| StepFields.RestartSubDoes | scanner/core/step_registry.py:430-455 | starting a known substep sets it RUNNING again with the time and kind of the call, and the message if there is one |
| StepFields.UpdateSubDoes | scanner/core/step_registry.py:521-546 | an update changes the message of the first substep of the name, if it brings one, and nothing else |
| StepFields.StartDoes | scanner/core/step_registry.py:198-229 | starting a known step sets it RUNNING at the time of the call and changes nothing else |
| StepFields.FinishDoes | scanner/core/step_registry.py:231-277 | a known step ends COMPLETED, or FAILED if that is what is reported, at the time of the call, with the message if there is one |
| StepFields.SkipDoes | scanner/core/step_registry.py:279-309 | a known step ends SKIPPED at the time of the call, with the reason if there is one |
| StepFields.SetPendingDoes | scanner/core/step_registry.py:311-323 | every step but a skipped one goes back to PENDING without times and substeps |
| StepFields.RestoreDoes | scanner/core/step_registry.py:325-339 | a known step is COMPLETED at the time of the call without substeps, and says that it was restored |
| StepFields.UnknownStepDoes | scanner/core/step_registry.py:198-309 | on an unknown name exactly registering, starting, finishing, skipping and starting a substep create the step, under the next number and with the state that belongs to them |
| StepFields.RegisterAgain | scanner/core/orchestrator.py:708-722 | registering a known step leaves it as it is |
| StepFields.LastOpDecides | scanner/core/step_registry.py:198-339 | over any operations the state of a step is that after the last operation on it |
| StepFields.LoadIs | scanner/core/step_registry.py:595-650 | a reloaded step is what its first readable line says, with the substeps of its last one |
| StepRegistry.StepRegistry.constructor | scanner/core/step_registry.py:126-180 | a fresh process over a log is the reload of that log |
| StepRegistry.StepRegistry.LoadLogLine | scanner/core/step_registry.py:595-650 | the first line of a name sets number, status and message, the last one the substeps |
| StepRegistry.StepRegistry.WriteToLog | scanner/core/step_registry.py:653-701 | a log line is appended before the upsert is scheduled |
| StepRegistry.StepRegistry.StartStep | scanner/core/step_registry.py:198-229 | the step, created if unknown, is RUNNING; its number is returned |
| StepRegistry.StepRegistry.ApplyCheckpointRestoredStep | scanner/core/step_registry.py:325-339 | COMPLETED from the checkpoint |
| StepRegistry.StepRegistry.StartSubstep | scanner/core/step_registry.py:416-461 | a substep under its step, which is started if unknown |
| StepRegistry.StepRegistry.EndSubstep | scanner/core/step_registry.py:463-519 | completing or failing a substep; nothing happens for an unknown step; what it does to the fields is said by the rows of StepFields |
| StepRegistry.StepRegistry.RunUpsert | scanner/core/step_registry.py:703-732 | an upsert reads the shared step when it runs, not when it was scheduled |
| PolicyPipeline.EndToEndConservation | scanner/output/generate-html-report.py:770-802 | without a cap: accepted inline + accepted by policy + the sum of consolidated counts of what remains is the number of findings |
| PolicyPipeline.DryRunAgreesWithPipeline | scanner/core/finding_policy_validate.py:159-176 | on samples with normalised paths the dry run counts what the whole override pipeline accepts, plus the samples an empty rule shadows |
| PolicyPipeline.KeptPathsAreTripleNormalized | scanner/core/policy_engine.py:253-262 | each finding that remains before consolidation comes from a reported one whose path fields are normalised three times |
| PolicyPipeline.ApplyPolicy | scanner/core/policy_engine.py:234-268 | overrides, normalisation, acceptance, normalisation, consolidation in this order |
| PolicyMeaning.MatchesIffApplies | scanner/core/policy_engine.py:16-89 | a rule matches a finding if and only if each pattern it has holds: the rule id equals it or, in regex mode, contains a match, the reported or the normalised path contains a match of it or of its anchored form, and the message contains a match |
| PolicyMeaning.PolicyIs | scanner/core/policy_engine.py:234-268 | with non-empty rules a finding, overridden and with normalised paths, is recorded if and only if some rule applies to it, with the reason of the first that does, and kept otherwise, both in the reported order |
| PolicyMeaning.OverridesAre | scanner/core/policy_engine.py:244-252 | a finding gets the severity of the last override that applies to it as reported and names one, and stays as it is without such an override |
| PolicyMeaning.RecordFields | scanner/core/policy_engine.py:271-302 | a record names the tool and the reason, and the id, normalised path, line and message of the finding under the configured keys |
| PolicyMeaning.PathFieldsAre | scanner/core/policy_matching.py:18-31 | normalising a finding changes its four path fields, each to the normalised text, and nothing else |
| PolicyMeaning.ConsolidatedByDefault | scanner/core/policy_engine.py:187-231 | without settings of its own a tool is deduplicated by rule, path, message and severity with a window of two lines |
| PolicyMeaning.ConsolidatedIsCapped | scanner/core/policy_engine.py:168-231 | a positive cap keeps the first records of each rule, as many as it says; any other value keeps all |
| PolicyEngine.LastOverrideWins | scanner/core/policy_engine.py:244-252 | the override loop gives the severity of the last matching override with a severity, matching the finding as reported |
| PolicyEngine.FieldsAreSeverityBlind | scanner/core/policy_engine.py:56-89 | rules over fields other than severity do not read the severity, so overrides cannot influence one another through them |
| PolicyEngine.ApplyPolicyGeneric | scanner/core/policy_engine.py:92-118 | the acceptance loop computes the remaining findings and the accepted records |
| PolicyEngine.AcceptedIffSomeRuleMatches | scanner/core/policy_engine.py:101-116 | with non-empty rules a finding is accepted if and only if some rule matches, for the reason of the first that does |
| PolicyEngine.EmptyRuleShadows | scanner/core/policy_engine.py:108-116 | an empty rule object in front makes every later rule ineffective |
| PolicyEngine.AppendingKeepsRecords | scanner/core/policy_engine.py:101-118 | appending rules keeps every accepted record, its reason and the order |
| PolicyEngine.AppendingKeepsNothingNew | scanner/core/policy_engine.py:101-118 | appending rules leaves nothing new remaining |
| PolicyEngine.AcceptancePartitions | scanner/core/policy_engine.py:101-118 | every finding is remaining or recorded, never both |
| PolicyEngine.DryRunAgrees | scanner/core/finding_policy_validate.py:159-176 | the dry run counts the accepted records plus the shadowed samples, for all rules |
| PolicyEngine.NonEmptyRulesDoNotShadow | scanner/core/finding_policy_validate.py:159-176 | non-empty rules shadow no sample, so then dry run and engine agree |
| PolicyEngine.DryRunCount | scanner/core/finding_policy_validate.py:159-176 | the dry-run loop counts samples that some rule matches |
| PolicyMatching.NormalizePolicyPath | scanner/core/policy_matching.py:7-18 | the prefix loop and the marker search |
| TextMeaning.NormalizedIs | scanner/core/policy_matching.py:7-18 | the result is what is left of the path, written with slashes and without outer blanks, after one mount point, everything up to the first "/target/" and the slashes that then lead |
| PolicyMatching.NormalizedShape | scanner/core/policy_matching.py:7-18 | for every path the result is a suffix of the slashed and stripped input |
| PolicyMatching.NormalizedSuffix | scanner/core/policy_matching.py:7-18 | for whitespace-free paths it is a suffix of the slashed input itself |
| PolicyMatching.NextApplication | scanner/core/policy_matching.py:7-18 | another application is the identity if and only if no marker and no outer whitespace is left; otherwise the path gets shorter, by at least the eight characters of the marker if no whitespace is involved |
| PolicyMatching.NormalizationConverges | scanner/core/policy_matching.py:7-18 | iterating reaches a fixpoint without "/target/" |
| PolicyMatching.ApplicationsNeeded | scanner/core/policy_matching.py:7-18 | k applications reach the fixpoint of a tidy path if and only if at most k markers stand behind its mount prefix, counted by one scan over positions that skips the slashes after a marker |
| PolicyMatching.TripleApplicationIsFixpoint | scanner/core/policy_engine.py:116-262 | the three applications of the pipeline reach the fixpoint of a tidy path if and only if at most three markers stand behind its mount prefix |
| PolicyMatching.ThreePositionsAreEnough | scanner/core/policy_engine.py:116-262 | they do whenever "/target/" occurs at no more than three positions behind the mount prefix |
| PolicyMatching.FourMarkersAreTooMany | scanner/core/policy_engine.py:116-262 | a family of paths with four markers of which three applications leave one |
| PolicyMatching.SpacelessIsTidy | scanner/core/policy_matching.py:7-18 | every whitespace-free path is tidy |
| PolicyMatching.UntidyPathsTakeLonger | scanner/core/policy_matching.py:7-18 | no count of markers suffices for untidy paths: for every k a path without any marker that k applications do not bring to a fixpoint |
| PolicyMatching.BlankShrinksByOne | scanner/core/policy_matching.py:7-18 | a family of paths with a blank whose second application takes away that blank alone |
| Clustering.ClusterByWindow | scanner/core/policy_engine.py:145-156 | the clustering loop |
| Clustering.ClusteringIsExact | scanner/core/policy_engine.py:145-156 | two members of a sorted list are in one cluster if and only if a chain of members with gaps of at most the window joins them |
| Clustering.ClustersAreSeparated | scanner/core/policy_engine.py:145-156 | members of different clusters are more than the window apart |
| Dedupe.DedupeFindingsByLineWindow | scanner/core/policy_engine.py:121-165 | the whole deduplication |
| Consolidation.ConsolidationIsExact | scanner/core/policy_engine.py:121-165 | the reported findings are divided among the records: those of one record agree on all group fields and form a chain of lines with gaps of at most the window, those of different records disagree on some group field or are farther apart, and each record is its first finding with the number and the line span of all of them |
| Consolidation.RecordsAgree | scanner/core/policy_engine.py:121-165 | every reported finding has a record that agrees with it on all group fields |
| Consolidation.SameGroupIff | scanner/core/policy_engine.py:130-135 | two reported findings lie in one group if and only if they agree on the text of every group field |
| TextMeaning.NumberRead | scanner/core/policy_engine.py:157-164 | the lines of a span are written in decimal: read back they are the same numbers |
| Dedupe.GroupClusteringIsExact | scanner/core/policy_engine.py:136-156 | two findings of a group share a cluster if and only if a chain of group members joins them |
| Dedupe.GroupClustersAreSeparated | scanner/core/policy_engine.py:136-165 | clusters partition the sorted group, the anchor has the least line and the next cluster is more than the window away |
| Dedupe.LinesKeepReportedOrder | scanner/core/policy_engine.py:136-144 | findings of one line keep the order in which the tool reported them |
| Dedupe.AnchorIsFirstReported | scanner/core/policy_engine.py:145-164 | the record of a cluster is made from the finding reported first among those of its least line |
| Dedupe.DedupeIsIdempotent | scanner/core/policy_engine.py:121-165 | a second pass returns the same records, counts and spans in the same order |
| Dedupe.DedupeConserves | scanner/core/policy_engine.py:121-165 | the consolidated counts add up to the input |
| Dedupe.CapFindingsPerRule | scanner/core/policy_engine.py:168-184 | the cap loop; a cap of zero or less changes nothing |
| Dedupe.CapKeepsFirst | scanner/core/policy_engine.py:168-184 | each rule keeps exactly its first min(count, k) findings in order |
| InlineSuppressions.IsFindingInlineSuppressed | scanner/core/inline_suppressions.py:394-458 | the two passes over the index |
| InlineSuppressions.SuppressedIffReason | scanner/core/inline_suppressions.py:394-458 | a finding is suppressed if and only if an entry gives a reason: one of its own path at a line in [line - lookback, line], or, for the basename pass, one of the same file name |
| InlineSuppressions.SuppressionIsMonotone | scanner/core/inline_suppressions.py:394-458 | a larger lookback or more entries never un-suppress a finding |
| InlineSuppressions.FilterIsMonotone | scanner/core/inline_suppressions.py:515-546 | nor does the filter over a list leave anything new |
| InlineSuppressions.ApplyInlineSuppressions | scanner/core/inline_suppressions.py:515-546 | the filter over the findings of a tool with the decision of this index, root, tool and configuration; everything remains without an index or when disabled |
| InlineSuppressions.InlinePartitions | scanner/core/inline_suppressions.py:515-546 | the filter is an order-preserving partition |
| SuppressionMeaning.SuppressionIs | scanner/core/inline_suppressions.py:394-546 | the report keeps, in order, exactly the findings without a comment that silences them: one on their path at most lookback lines above or, for a path with a directory, in a file of that name at most lookback lines away, which reaches the line and has a mark that counts |
| SuppressionMeaning.MarksByTool | scanner/core/inline_suppressions.py:290-391 | which marks on the line of a finding each tool reads: all of a kind, or one that lists a non-empty id equal to the rule id up to case or occurring in it; Bandit nosec, Semgrep nosemgrep, both and all other tools the rest of the two as configured, ESLint and Gitleaks only their own; everyone ssc:accept |
| SuppressionMeaning.MatchIs | scanner/core/inline_suppressions.py:334-391 | a comment matches if and only if one of its marks counts for the tool and the rule, and is credited to the own mark of the tool before others, nosec before nosemgrep, ssc:accept last |
| SuppressionMeaning.HitIs | scanner/core/inline_suppressions.py:394-458 | a suppressed finding is reported with the reason and tag of the nearest comment on its path that silences it, or without one of a comment in another file of that name |
| SuppressionMeaning.UnrelatedCommentsKeep | scanner/core/inline_suppressions.py:290-458 | a finding near which all comments list only ids that have nothing to do with its rule stays in the report |
| SuppressionMeaning.LineContinuesIff | scanner/core/inline_suppressions.py:237-242 | a comment applies to the following lines if and only if the last character before the first comment mark, blanks aside, leaves a statement open |
| SuppressionMeaning.FieldsAre | scanner/core/inline_suppressions.py:259-287 | path, line and rule id of a finding are those of the first of their keys that holds something |
| SuppressionMeaning.RelativePathIs | scanner/core/inline_suppressions.py:245-256 | the path looked up is the one below the root, below a mount point, or without leading slashes |
| RateLimiter.RateBound | backend/api/middleware/auth_middleware.py:165-224 | with at most C requests of an identity in flight, every window holds at most requests + C - 1 counted ones, over the whole history |
| RateLimiter.BoundIsTight | backend/api/middleware/auth_middleware.py:165-224 | for every positive limit and window and every C some legal run counts requests + C - 1 in one window |
| RateLimiter.LimitKeptIff | backend/api/middleware/auth_middleware.py:165-224 | every interleaving with at most C in flight keeps the configured number if and only if C is at most one, or the limit or the window is zero |
| RateLimiter.SerialRateBound | backend/api/middleware/auth_middleware.py:165-224 | one request at a time, every window holds at most the configured number |
| RateLimiter.CheckDecidesByWindow | backend/api/middleware/auth_middleware.py:201-215 | pruning is invisible: a check admits a request if and only if fewer than the limit were counted in the window before it, over the whole history |
| RateLimiter.CheckIs | backend/api/middleware/auth_middleware.py:196-215 | a check admits a request if and only if fewer stamps than its limit are younger than its window among those of its user, or else its session, or else all anonymous requests; guests and authenticated users have limits of their own, and no other list changes |
| RateLimiter.CountIs | backend/api/middleware/auth_middleware.py:217-224 | an answered request is counted once, at the time of its answer, under the same key |
| RateLimiter.RateLimitMiddleware.IsRateLimited | backend/api/middleware/auth_middleware.py:201-215 | prunes the list of this identity only and compares its length with the limit |
| RateLimiter.RateLimitMiddleware.IncrementRequestCount | backend/api/middleware/auth_middleware.py:217-224 | appends one timestamp to the list of this identity only |
| RoundRobin.BoundedOvertaking | backend/worker/main.py:66-141 | between two services of a stamped owner every other owner with a job queued throughout is served |
| RoundRobin.WaitIsBounded | backend/worker/main.py:66-141 | while an owner waits among stamped owners at most one job of each is served |
| RoundRobin.UnstampedOvertakeWithoutBound | backend/worker/main.py:66-141 | from every idle state with a job queued, within the lifetime of the stamps, any list of jobs that leave no stamp can be served, one after the other, while that job waits |
| RoundRobin.OvertakingIsBoundedIff | backend/worker/main.py:66-141 | how often a job of an owner without a stamp can overtake a waiting owner has a bound if and only if it leaves a stamp, and then the bound is one |
| RoundRobin.UnstampedGoFirst | backend/worker/main.py:118-133 | a queued job of an owner without a stamp, as every guest is, goes before all owners with a live stamp |
| RoundRobin.PickRemovesOneItem | backend/worker/main.py:134-141 | a pick returns a queued message and removes the first item with its id, which with distinct ids is that message |
| RoundRobin.PickIsLeastRecent | backend/worker/main.py:118-133 | without empty objects the owner served has the oldest last run of all queued owners |
| RoundRobin.PickIsOldest | backend/worker/main.py:118-133 | if the owner served has a stamp younger than a day, so has every waiting owner, and none an older one |
| RoundRobin.OwnerIs | backend/worker/main.py:122-125 | a job belongs to its user, or else to its session, a null session being one of its own; without both it is a guest and leaves no stamp |
| RoundRobin.StampedIs | backend/worker/main.py:74-84 | after a turn the user, or else the session, of the job has the time of the turn, and nobody else a new one |
| RoundRobin.JobIdIs | backend/worker/main.py:134-139 | a message is removed by its scan_id, or by its id if that is missing or empty |
| RoundRobin.FairIff | backend/worker/main.py:118-133 | the least recent owner is served if and only if no empty object is queued, or it is the leftmost message, or a job without a live stamp lies before it |
| RoundRobin.EmptyObjectPick | backend/worker/main.py:118-133 | what is picked when an empty object is queued: the first message if all before it are stamped, otherwise one without a stamp |
| RoundRobin.NewestOfItsOwner | backend/worker/main.py:118-133 | of the jobs of the owner served the newest is served: no message further left is his |
| RoundRobin.TurnIsPickAndStamp | backend/worker/main.py:66-88 | one turn of the loop is a pick followed by a stamp if there was a job |
| RoundRobin.ScannerWorker.GetNextJob | backend/worker/main.py:106-141 | the round_robin branch: decode, select, remove |
| RoundRobin.ScannerWorker.Select | backend/worker/main.py:118-131 | the selection loop finds the first message of least recency |
| RoundRobin.ScannerWorker.ProcessJob | backend/worker/main.py:70-84 | pick, then the stamp for the user or else the session |
| PromptSplit.SplitIntoChunks | scanner/output/ai_prompt_modal.ts:1046-1078 | grouping, the order of Object.entries and the next-fit loop; an exception exactly for a tool named like a property every object inherits |
| PromptSplit.ChunksCarryAllFindings | scanner/output/ai_prompt_modal.ts:1046-1078 | the chunks are the findings grouped by tool in the order of the entries, neighbours total more than the limit, and half the number of chunks times (limit + 1) is at most the number of findings |
| PromptSplit.EntriesAreTheNames | scanner/output/ai_prompt_modal.ts:1062-1062 | Object.entries reorders the tools, array indices first, and neither loses nor repeats one |
| PromptSplit.EachToolInOneChunk | scanner/output/ai_prompt_modal.ts:1058-1078 | no tool is spread over two chunks, and a chunk over the limit is all findings of one tool |
| PromptMeaning.ChunksAreNextFit | scanner/output/ai_prompt_modal.ts:1058-1078 | chunk by chunk consecutive groups: together within the limit unless it is one group, and the next group would not have fitted in |
| PromptMeaning.ToolsStayTogether | scanner/output/ai_prompt_modal.ts:1046-1078 | findings in different chunks are of different tools, those without a tool counting as "Unknown", and a chunk over the limit is of one tool |
| PromptMeaning.EntriesAreOrdered | scanner/output/ai_prompt_modal.ts:1062-1062 | names that are decimals of array indices come first, ascending, and the others keep the order in which they were found |
| PromptSplit.LessThanTwiceOptimal | scanner/output/ai_prompt_modal.ts:1058-1078 | fewer than twice the chunks of any split that respects the limit |
| PromptSplit.SelectFindingsForPrompt | scanner/output/ai_prompt_modal.ts:115-152 | filter, sort and slice |
| PromptSplit.SelectionIsTheBest | scanner/output/ai_prompt_modal.ts:115-152 | the selection is the sorted best of the matching findings: what matched and was left out comes after it, and it is full before anything is left out |
| PromptMeaning.SelectionIs | scanner/output/ai_prompt_modal.ts:67-152 | the selection are findings of the tool asked for that are severe enough, by the three orders of severity names, tool and path, as many as asked for and at least one; no wanted finding left out comes before one selected |
| PromptMeaning.RankIs | scanner/output/ai_prompt_modal.ts:67-81 | the rank of a severity text: anything with CRIT, then the names of high, medium, low and info up to case and blanks, the empty text as info, and unknown names last |
| PromptMeaning.PassesIff | scanner/output/ai_prompt_modal.ts:83-88 | a severity passes a threshold if its rank is at most that of the threshold; ALL and an empty one let all pass, and a name that is no threshold means high |
| PromptMeaning.OrderIs | scanner/output/ai_prompt_modal.ts:99-128 | the three sort orders as comparisons: the chosen key first, ties by severity, then by what is left |
| PromptSplit.TiesKeepInputOrder | scanner/output/ai_prompt_modal.ts:85-152 | of findings that tie the first ones are selected, in input order |
| PromptSplit.MostSevereAreSelected | scanner/output/ai_prompt_modal.ts:107-136 | in the default order nothing left out is more severe than something selected |
| Scores.DomainScoresAreAtLeastOverall | scanner/output/generate-html-report.py:618-642 | for every report and registry each domain score is at least the overall score |
| Scores.MoreFindingsNeverHelp | scanner/output/generate-html-report.py:597-642 | one more finding of any kind at any place of any tool of a report raises neither the overall score nor the score of any domain |
| Scores.ScoreRange | scanner/output/html_utils.py:962-1016 | scores lie in 40..100; 40 exactly when the penalty is capped and 100 exactly when nothing above INFO was found |
| Scores.PerfectIff | scanner/output/html_utils.py:981-1016 | the score is 100 if and only if no finding of any tool is a bare text or of a severity above info |
| ScoreMeaning.OverallScoreIs | scanner/output/html_utils.py:954-1016 | the overall score is 100 less the cost of all findings, at most 60: 10 for a severity text with CRIT in it, 6 for HIGH or ERROR, 3 for MED, WARN or MODERATE or a bare text, 1 for LOW, nothing for the rest |
| ScoreMeaning.DomainScoreIs | scanner/output/generate-html-report.py:597-642 | the score of a domain is 100 less the cost of the findings of those tools that an enabled scanner of the scan type reports, at most 60; there is one if and only if such a tool is in the report |
| ScoreMeaning.CountsAre | scanner/output/generate-html-report.py:597-615 | each number of the counts is that of the findings of its level |
| Scores.ExecutiveScore | scanner/output/html_utils.py:981-1016 | the score and band shown, with the severity texts as the program classifies them |
| Scores.ScoreLabel | scanner/output/html_utils.py:954-959 | the first band reached; "Critical" exactly below 40, so never for a computed score |
| Scores.EachFindingCountsOnce | scanner/output/generate-html-report.py:597-615 | every counted finding is counted in exactly one severity |
| Scores.ExecutiveCounts | scanner/output/html_utils.py:994-1010 | the counting loops of the summary |
| Scores.ComputeDomainScores | scanner/output/generate-html-report.py:618-642 | one score for each scan type with a tool in the scan |

## Left out

What stays uninterpreted or is a parameter:

- SHA-256 is an injective constructor; regular expression search, `int()` of a text, JSON and SARIF
  validity and `localeCompare` are function-valued parameters, the last one a total preorder.
- Clocks: the times of one run share one value `now`, the rate limiter and the worker take the time
  of every step. Step messages that depend on the environment are parameters.
- git, Docker and tool runs appear by what they do only: HEAD, reported version, substeps reported,
  files written, status.json, result or exception. HEAD and version are taken as already stripped,
  a message in status.json as a text.
- A tool reports its substeps under the step of its scanner: every plugin that reports any takes
  `step_name` (scanner/core/base_scanner.py:69). A plugin without that parameter would report under
  its display name and could create a step; `RunCompletion.TotalStaysIff` says when an operation
  does.
- Log appends, upserts and checkpoint saves are atomic and succeed; the swallowed failures of the
  log and the database are not modelled. A `run_scan` that ends by an exception is a crash.
- Redis is a list and a map with expiry. One worker runs; a pick reads and removes at one moment.
- Upper and lower case are ASCII; `trim` in the prompt splitter strips Python's whitespace.
- Findings are flat maps: the nested `start` object some tools use is part of the getters, and
  values on which the source would raise are not modelled.
- The names every JavaScript object inherits are a parameter of the prompt splitter.

What is not modelled:

- Restoring `os.environ` after a scanner; `list_scanners`, target resolution, asset handling.
- Status and message after a reload of the step log: the code does not keep them.
- How many applications an untidy path needs, in terms of its text.
- Parsing of suppression comments into the index, and walking the target for them.
- The schema checks of `validate_policy_data`; only its dry run is modelled.
- `_execute_scan` is one step that returns. As written `_publish_scan_completion` reads an unbound
  name (backend/worker/main.py:246), so the stamp after it is the intended one.
- The fifo and priority queue strategies, and the middleware stack around the rate limiter, which
  `create_app` does not install.
- Prompt texts, HTML, routes, authentication, the setup wizard and migrations.
- Small helpers: retry, duration samples, manifest merges, caches.

Conditions in the statements:

- RoundRobin.BoundedOvertaking: the run stays within the lifetime of the stamps (86400 seconds) and
  no empty object is queued, because an expired stamp counts as none and an empty object disables
  the choice; time is strictly increasing between stamps.
- RunCompletion.ProgressThroughoutRun: stated for the exact quotient; the source rounds a floating
  point quotient.
- PolicyMatching.TripleApplicationIsFixpoint: for tidy paths, which include all paths without
  whitespace and all others in which no blank follows a removed marker.
- Bounded rework needs unique names and tools keys, and a known HEAD: an unknown HEAD drops all
  records. Conservation is stated without a cap, which drops findings on purpose, and idempotence
  for grouping and line fields other than `consolidated_count`, `line_span` and `_line`, which the
  first pass rewrites.
