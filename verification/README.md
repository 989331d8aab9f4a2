# Verified model of the EnvSolve experiment harness

The harness lets an agent build a software environment step by step and measures what each step did. Its
bookkeeping decides what is reported: which obligations are open, when the agent is shown an observation, which
cases enter a study, whether two arms differ, which repository changes are excused. This project models that
bookkeeping in Dafny and proves what its reports mean, for every input and every run.

`dafny verify dfyconfig.toml` checks all modules together.

## What is modelled

**Compatibility ledger and its schedule.** `DeltaHistory` defines the Pareto frontier of a history of
observations as its first minimal anchors. `CompatibilityLedger` is the ledger object; every `Observe` extends
the history by one entry and keeps its incremental frontier equal to that definition. `DeltaLaws` adds the laws
of whole histories. `ProjectionTransfer` is the chunked transfer of a projection, `LedgerService` the check with
all its ways to end. `ObservationSchedule` is the observer as a state machine and `ScheduledObserver` the object.
`ScheduleAudit` is the offline checker, each error code with a declarative meaning; `EpisodeTrace` is the trace
the runner writes; `ScheduleAcceptance` proves which traces the checker accepts. `ConstraintHypothesis` judges a
single operation against the same obligations.

**Replay obligations.** `ReplayLedger.dfy` holds the history of updates (`ReplayHistory`) and the ledger object.

**Statistics and selection.** `McNemar`, `Agreement` and `AnnotationCompare` are the exact paired test and
Cohen's kappa, `RoundRobin`, `RoundRobinLaws` and `CoreBatch` the stratified batch, `PairedSchedule`,
`PairGrouping` and `PairedAdjudication` the paired study from its schedule to its table, and `ProgressRuns` the
run lengths of repeated findings.

**Programs and states.** `ProgramEdits` and `IncrementalProgram` are the editable program, `ProgressRecords` and
`ProgressState` the versioned progress state, `PersistentAudit` the audit of state reuse.

**Repository boundary.** `Adjudication`, `EmptyDirectories` and `AdjudicationPipeline` are the four adjudicators
in a row, `PathExpressions` the constant folding of path expressions.

`Json`, `Obligations`, `Paths`, `Sorting`, `Text` and `Wrappers` are shared ground: decoded JSON with Python's
`get` and `==`, obligation keys, pure POSIX paths, `sorted`, `strip` and script normalisation, options and results.

## Where the code and its own words differ

- An episode can report itself schedule-compliant and still be rejected by the checker of traces. The checker
  counts every shell result in the trace, while a call whose argument text is not a JSON object never reaches the
  observer (openrouter_agent.py:2154-2160); one such shell call before a replay is enough
  (`ScheduleAcceptance.UndecodedShellIsRejected`). A decoded shell call that is refused for a wrong field
  (2186-2187) is still counted by the observer (2261-2262) and does no harm (`RefusedShellIsAccepted`). A replay call
  without a program on a dirty state, and a later call that reuses the identifier of an observed one, are rejected
  as well. `CheckerAcceptsExactlyCleanLogs` is the exact condition for episodes whose calls all return.
- The observation before a replay is logged before the replay is submitted (openrouter_agent.py:2482-2493). When the
  replay raises, for instance on a program with a lone surrogate, the saved metadata are compliant and the
  observation has no result, so the trace is rejected (`ObservedCallThatRaisesIsRejected`,
  `ReplayAfterShellIsObserved`). `InterruptedEpisodes` is the exact condition for a last call that raises.
- Folding `left + right` as a path expression drops slashes where the texts meet, so it is concatenation exactly
  when there are none (`PathExpressions.AddConcatenatesUnlessSlashesMeet`). A variable folds to what its definition
  folds to unless the definition leads back to the variable (`VariablesAreTransparent`); then it may not
  (`CyclesAreNotTransparent`). In every case it folds to its definition with the variable itself forgotten
  (`VariableFoldsWithoutItself`).

## Modelling decisions

- An obligation is identified by canonical JSON of four fields. Canonical JSON is injective, so the key is the
  four values.
- Floats are rationals or reals without rounding. Python integers are unbounded, as in Dafny.
- SHA-256, base64 and compression, the slug of a case, `str` of a non-string, `str.isidentifier`, the key order of
  a dictionary, `unified_diff`, `git` and the work tree are parameters about which nothing is assumed.
- Exceptions are error values. A Python dictionary that is built in a loop is a map, with its key order as a
  list beside it where the order is used.
- Loops of the source are loops here; a method is proved against a function or a predicate of its own.

## Model

| member | source | states |
|---|---|---|
| Obligations.ReadObligations | envsolve_harness/compatibility_ledger.py:104-116 | the set read is exactly what the unsatisfied findings demand, and reading fails exactly when some finding is malformed |
| CompatibilityLedger.CompatibilityDeltaLedger.constructor | envsolve_harness/compatibility_ledger.py:77-84 | the empty history has an empty frontier and empty tallies |
| CompatibilityLedger.CompatibilityDeltaLedger.Observe | envsolve_harness/compatibility_ledger.py:86-194 | every report appends one history entry; it is complete evidence exactly for usable reports; unusable ones leave frontier, previous set and counters alone; only an unhashable status raises |
| CompatibilityLedger.CompatibilityDeltaLedger.ObserveUnknown | envsolve_harness/compatibility_ledger.py:196-213 | an unknown observation advances the index and nothing else |
| CompatibilityLedger.CompatibilityDeltaLedger.Admit | envsolve_harness/compatibility_ledger.py:126-194 | the report describes the step: transition label, delta, frontier, domination and best anchor are those of the extended history |
| CompatibilityLedger.CompatibilityDeltaLedger.AdvanceFrontier | envsolve_harness/compatibility_ledger.py:144-155 | the updated frontier is that of the extended history, and a set is dominated exactly when some observed set lies at or below it |
| CompatibilityLedger.CompatibilityDeltaLedger.CountStep | envsolve_harness/compatibility_ledger.py:126-142 | the tallies stay those of the complete sets |
| CompatibilityLedger.CompatibilityDeltaLedger.ReadMetadata | envsolve_harness/compatibility_ledger.py:215-234 | the metadata are the counts of the history and its best anchor |
| CompatibilityLedger.ClassifyStep | envsolve_harness/compatibility_ledger.py:132-141 | the label is the one that the relation of the two sets carries |
| CompatibilityLedger.BestAnchor | envsolve_harness/compatibility_ledger.py:157-160 | an anchor of least size and, among those, least index |
| CompatibilityLedger.DominatedMeansObserved | envsolve_harness/compatibility_ledger.py:144 | the retained frontier decides domination as the whole history would |
| DeltaHistory.AnchorBelow | envsolve_harness/compatibility_ledger.py:144-155 | every complete observation has a first minimal anchor at or below it |
| DeltaHistory.DominatedKeepsFrontier | envsolve_harness/compatibility_ledger.py:144-146 | a dominated observation leaves the first minimal anchors as they are |
| DeltaHistory.UndominatedExtendsFrontier | envsolve_harness/compatibility_ledger.py:146-155 | dropping what lies strictly above and appending gives the first minimal anchors of the longer history |
| DeltaLaws.FrontierIsAntichain | envsolve_harness/compatibility_ledger.py:144-155 | no retained set contains another |
| DeltaLaws.FrontierIsUnique | envsolve_harness/compatibility_ledger.py:144-155 | the history determines the frontier, order included |
| DeltaLaws.BestIsGlobal | envsolve_harness/compatibility_ledger.py:157-160 | the best anchor is the earliest observation of least size over the whole history, not only among retained ones |
| DeltaLaws.PassIsForever | envsolve_harness/compatibility_ledger.py:144-155 | after a pass the frontier is the one anchor of the first pass, whatever follows |
| DeltaLaws.NonImprovementKeepsFrontier | envsolve_harness/compatibility_ledger.py:132-155 | a stagnant or regressed step never changes the frontier |
| DeltaLaws.TransitionsAddUp | envsolve_harness/compatibility_ledger.py:132-142 | the label counts sum to the complete count, with one initial step |
| DeltaLaws.DeltasReplay | envsolve_harness/compatibility_ledger.py:129-131 | applying the reported deltas to the first complete set gives the current one |
| ProjectionTransfer.ReadProjection | envsolve_harness/compatibility_ledger.py:542-582 | slices are requested in order; an intact file is delivered after all slices and only then; what is delivered has the receipt's size and digest |
| ProjectionTransfer.CarriedIsUnique | envsolve_harness/compatibility_ledger.py:571-577 | the replies carry at most one file of a given size, newline or not |
| ProjectionTransfer.SlicesTile | envsolve_harness/compatibility_ledger.py:556-557 | every position of the file lies in exactly one requested slice |
| ProjectionTransfer.HonestShellCarries | envsolve_harness/compatibility_ledger.py:571-576 | a shell that prints each slice, with or without one newline, transfers the file |
| LedgerService.CompatibilityLedgerService.constructor | envsolve_harness/compatibility_ledger.py:505-520 | a new service has audited nothing |
| LedgerService.CompatibilityLedgerService.Check | envsolve_harness/compatibility_ledger.py:584-651 | every call that returns adds exactly one observation; one that raises adds none in the transfer and an empty one inside the ledger; unknown results add no evidence; an invalid state never counts as evidence |
| LedgerService.CompatibilityLedgerService.CheckProjection | envsolve_harness/compatibility_ledger.py:616-646 | the same from a decoded projection on; a reading needs a goal exit code of 0 |
| ScheduledObserver.NewObserver | envsolve_harness/compatibility_ledger.py:757-771 | construction fails exactly for a cadence that is not positive |
| ScheduledObserver.ScheduledCompatibilityObserver.constructor | envsolve_harness/compatibility_ledger.py:764-771 | the object starts in the start state of the schedule |
| ScheduledObserver.ScheduledCompatibilityObserver.Observe | envsolve_harness/compatibility_ledger.py:773-789 | one record is appended; a raising check changes nothing of the observer, and the ledger has counted exactly when it raised itself |
| ScheduledObserver.ScheduledCompatibilityObserver.ObserveInitial | envsolve_harness/compatibility_ledger.py:791-794 | refused exactly when an initial observation exists; a raising check leaves no record, so it can be asked again |
| ScheduledObserver.ScheduledCompatibilityObserver.AfterShellOperation | envsolve_harness/compatibility_ledger.py:796-801 | the object makes the shell step of the state machine; a check raises only at a multiple of the cadence, and then the shell count and the dirty flag have already advanced without a record |
| ScheduledObserver.ScheduledCompatibilityObserver.BeforeReplayRequest | envsolve_harness/compatibility_ledger.py:803-808 | the object makes the replay step of the state machine; a check raises only on a dirty state, and then the request and the required count have already advanced without a record |
| ScheduledObserver.ScheduledCompatibilityObserver.ReadMetadata | envsolve_harness/compatibility_ledger.py:810-836 | the reported compliance is that of the state, and complete observations never exceed observations |
| ObservationSchedule.RunIsScheduled | envsolve_harness/compatibility_ledger.py:773-808 | in every reachable state records are ordered, periodic ones sit at the multiples of the cadence, the dirty flag means shell work since the last record, and the ledger counts records plus outside checks |
| ObservationSchedule.ComplianceOfRuns | envsolve_harness/compatibility_ledger.py:810-821 | a run is compliant exactly when nobody else used the ledger |
| ObservationSchedule.AfterShellKeeps | envsolve_harness/compatibility_ledger.py:796-801 | a shell step keeps the invariant |
| ObservationSchedule.BeforeReplayKeeps | envsolve_harness/compatibility_ledger.py:803-808 | a replay step keeps the invariant |
| ScheduleAudit.ScheduledMechanism | experiments/analyze_scheduled_observation_qualification.py:32-217 | the check raises exactly on an unhashable parent; otherwise the reported codes are exactly those whose meaning holds of the trace; the verdict is that it does not raise and none holds |
| ScheduleAudit.AuditInitial | experiments/analyze_scheduled_observation_qualification.py:63-79 | the codes about the initial observation |
| ScheduleAudit.AuditDelivery | experiments/analyze_scheduled_observation_qualification.py:96-118 | the codes about delivery with the one result of the parent call |
| ScheduleAudit.AuditOrder | experiments/analyze_scheduled_observation_qualification.py:120-133 | the codes about shell counts and dirty state, and exactly when a parent cannot be hashed |
| ScheduleAudit.AuditReplays | experiments/analyze_scheduled_observation_qualification.py:135-168 | the codes about replays and the observation each needs |
| ScheduleAudit.AuditTotals | experiments/analyze_scheduled_observation_qualification.py:81-89 | the codes about the periodic schedule, the optional tool and the metadata (181-196) |
| ScheduleAcceptance.CheckerAcceptsExactlyCleanLogs | experiments/analyze_scheduled_observation_qualification.py:61-196 | when all calls return, the checker accepts the episode if and only if its log has cadence 16, no use of the ledger behind the observer, fresh identifiers for observed calls, as many periodic marks by counted as by logged shell calls, and covered replays |
| ScheduleAcceptance.InterruptedEpisodes | envsolve_harness/runners/openrouter_agent.py:3029-3058 | when the last call raises, the checker accepts the episode if and only if the log before it is clean and the call has neither logged an observation nor moved the ledger or a due count |
| ScheduleAcceptance.ObservedCallThatRaisesIsRejected | envsolve_harness/runners/openrouter_agent.py:2482-2493 | a call that raises after its observation was logged leaves compliant metadata and a rejected trace |
| ScheduleAcceptance.ReplayAfterShellIsObserved | envsolve_harness/runners/openrouter_agent.py:2482-2493 | a replay after one counted shell call can end that way |
| ScheduleAcceptance.ProducedTracesDoNotRaise | experiments/analyze_scheduled_observation_qualification.py:96-133 | the checker itself raises on no trace that the runner writes |
| ScheduleAcceptance.EpisodesWithoutInitialAreRejected | experiments/analyze_scheduled_observation_qualification.py:63-79 | a trace without an observation is never accepted |
| ScheduleAcceptance.DirtyByTheLog | envsolve_harness/compatibility_ledger.py:796-808 | the dirty flag is set exactly when the log shows a counted shell call that met no mark of the cadence and since then no counted shell call and no replay |
| ScheduleAcceptance.ObservingGrows | envsolve_harness/compatibility_ledger.py:773-808 | the observer records exactly at the counted shell calls that reach a multiple of the cadence and at the replays of a dirty log |
| ScheduleAcceptance.WellFormedEpisodesAreAccepted | envsolve_harness/runners/openrouter_agent.py:2150-2290 | every episode of calls that return, with decoded shell calls, replays with a program, distinct identifiers and no use of the ledger, is accepted and compliant |
| ScheduleAcceptance.UndecodedShellIsRejected | envsolve_harness/runners/openrouter_agent.py:2154-2160 | one shell call without a JSON object as arguments, before a replay, is compliant by metadata and rejected by the checker |
| ScheduleAcceptance.RefusedShellIsAccepted | envsolve_harness/runners/openrouter_agent.py:2186-2262 | a decoded shell call with wrong fields before a replay is accepted |
| ScheduleAcceptance.FaultlessTraces | envsolve_harness/runners/openrouter_agent.py:1704-1723 | all events of a produced trace satisfy the per-event rules exactly when every action was clean |
| ScheduleAcceptance.LedgerIsPrivate | envsolve_harness/compatibility_ledger.py:815-821 | ledger and observer agree on the count exactly when nobody else checked |
| ScheduleAcceptance.PeriodicAgreement | experiments/analyze_scheduled_observation_qualification.py:81-89 | the periodic schedule matches exactly when counted and logged shell calls reach the same number of marks |
| ConstraintHypothesis.ObligationMap | envsolve_harness/constraint_hypothesis.py:20-32 | the keys are those of the listed records, each kept under its own key, and None means an unusable list |
| ConstraintHypothesis.Evaluate | envsolve_harness/constraint_hypothesis.py:35-87 | the classification is the judgement of the two measured sets; inconclusive exactly when a measurement is missing; raises exactly on an unhashable subject |
| ConstraintHypothesis.MeasuredKeys | envsolve_harness/constraint_hypothesis.py:20-32 | a result measures exactly the keys of its usable list, and nothing without one |
| ConstraintHypothesis.BindTargets | envsolve_harness/constraint_hypothesis.py:68-76 | the targets are the active obligations that a declared subject names; none is missing exactly when every declared subject has one |
| ConstraintHypothesis.JudgementIsUnique | envsolve_harness/constraint_hypothesis.py:62-87 | two measured sets carry one judgement |
| ConstraintHypothesis.LedgerReportIsReadBack | envsolve_harness/compatibility_ledger.py:171-175 | the obligations that the ledger reports are read back as the set they came from |
| ConstraintHypothesis.SupportedIsImprovement | envsolve_harness/constraint_hypothesis.py:80-83 | a supported hypothesis with targets is a strict decrease that the ledger calls improved; without targets it is improved or stagnant |
| ConstraintHypothesis.RefutedKeepsTargets | envsolve_harness/constraint_hypothesis.py:84-87 | a refuted hypothesis leaves all bound targets active; the ledger still says improved exactly when something else was resolved and nothing introduced |
| ConstraintHypothesis.RefutedMayStillImprove | envsolve_harness/constraint_hypothesis.py:84-87 | a refuted hypothesis with such an improvement exists |
| ReplayLedger.ReadObserved | envsolve_harness/replay_obligation_ledger.py:265-270 | of two items with one key the later stays, and a non-object fails |
| ReplayLedger.DeduplicationIsInvisible | envsolve_harness/replay_obligation_ledger.py:195-202 | the deduplicated snapshot is observed as the raw list would be, in any key order |
| ReplayLedger.KeyedIsUnique | envsolve_harness/replay_obligation_ledger.py:265-270 | a list of items determines what is observed |
| ReplayLedger.ReplayObligationLedger.constructor | envsolve_harness/replay_obligation_ledger.py:208-213 | a new ledger agrees with the empty history |
| ReplayLedger.ReplayObligationLedger.Update | envsolve_harness/replay_obligation_ledger.py:245-309 | an accepted update is logged with its observed keys and explained by its delta; a rejected one leaves records and counters alone; introduced minus resolved is always the number of active records |
| ReplayLedger.ReplayObligationLedger.UpdateFrom | envsolve_harness/replay_obligation_ledger.py:265-309 | from the obligation list on: fails exactly on a non-object, and then changes nothing but the update count |
| ReplayLedger.ReplayObligationLedger.Apply | envsolve_harness/replay_obligation_ledger.py:272-309 | records agree with the history again and both counters grow by the delta |
| ReplayLedger.AdvanceKeeps | envsolve_harness/replay_obligation_ledger.py:281-306 | first_seen is the start of the unbroken interval, last_seen the latest sighting, the obligation that sighting's |
| ReplayLedger.AdvanceBalances | envsolve_harness/replay_obligation_ledger.py:308-309 | the number of records changes by introduced minus resolved |
| ReplayLedger.ComparisonExplains | envsolve_harness/replay_obligation_ledger.py:272-279 | the four delta sets split previous and current keys without overlap |
| ReplayHistory.ActiveAfterComplete | envsolve_harness/replay_obligation_ledger.py:281-291 | the active keys are exactly those observed since the last complete update, itself included |
| ReplayHistory.ActiveWithoutComplete | envsolve_harness/replay_obligation_ledger.py:292-306 | under partial evidence nothing is ever retired |
| ReplayHistory.IntervalIsUnique | envsolve_harness/replay_obligation_ledger.py:281-306 | an active key has one current interval |
| McNemar.PValueRange | envsolve_harness/minimal_b_analysis.py:216-224 | symmetric, in (0, 1], and 1 exactly when the counts differ by at most one |
| McNemar.ClampOnlyOnTies | envsolve_harness/minimal_b_analysis.py:224 | the clamp changes the value exactly on a nonempty tie |
| McNemar.WiderSplitIsRarer | envsolve_harness/minimal_b_analysis.py:216-224 | for a fixed sum a wider split never has a larger value |
| McNemar.PValueIsTwoSidedProbability | envsolve_harness/minimal_b_analysis.py:216-224 | the value is the fair-coin probability of a split at least as wide, counted over both tails |
| McNemar.ChooseByFactorials | envsolve_harness/minimal_b_analysis.py:223 | the recursively computed coefficient is the factorial quotient |
| McNemar.Tabulate | envsolve_harness/verifier_handoff_screen.py:221-246 | each cell counts its pairs, margins are sums of cells, pairs are eligible plus censored |
| McNemar.CountPairs | envsolve_harness/verifier_handoff_screen.py:217-275 | rates are None exactly when all pairs are censored, their difference is treatment-only minus control-only per eligible pair, and the p-value is the one of the other module |
| McNemar.InlinePValue | envsolve_harness/verifier_handoff_screen.py:248-258 | the second copy of the p-value computes the same function |
| Agreement.KappaRange | experiments/compare_causal_annotations.py:79-87 | kappa lies in [-1, 1] and is 1 exactly under full agreement |
| Agreement.KappaIsSymmetric | experiments/compare_causal_annotations.py:79-87 | swapping the annotators changes nothing |
| Agreement.RateBounds | experiments/compare_causal_annotations.py:82-86 | twice the expected rate is at most one plus the observed rate |
| Agreement.RowSums | experiments/compare_causal_annotations.py:88-96 | matrix rows sum to the first counts |
| Agreement.ColumnSums | experiments/compare_causal_annotations.py:88-96 | matrix columns sum to the second counts |
| Agreement.TraceIsExact | experiments/compare_causal_annotations.py:88-96 | the trace is the exact count |
| AnnotationCompare.IndexRows | experiments/compare_causal_annotations.py:39-52 | indexing succeeds exactly for distinct well-formed rows |
| AnnotationCompare.CompareDocuments | experiments/compare_causal_annotations.py:33-114 | refused exactly when a document has no record array; raises exactly on an unhashable identity; otherwise succeeds exactly when both documents list the same distinct rows and the first labels all of them |
| AnnotationCompare.FindUnhashable | experiments/compare_causal_annotations.py:22-23 | found exactly when a record has a list or an object among its four identity fields |
| AnnotationCompare.Compare | experiments/compare_causal_annotations.py:51-114 | the same from the rows on |
| AnnotationCompare.PairRows | experiments/compare_causal_annotations.py:56-66 | every row is compared or counted as missing its second label |
| AnnotationCompare.MatrixMargins | experiments/compare_causal_annotations.py:97-114 | the reported matrix has the reported margins and trace |
| RoundRobin.Select | envsolve_harness/dev_bad_case_analysis.py:222-236 | the loop ends and returns the first batch-size elements of the column-major traversal |
| RoundRobin.TraversalPrefix | envsolve_harness/dev_bad_case_analysis.py:224-236 | wherever the loop stands, it holds a prefix of the traversal |
| RoundRobinLaws.TraversedLength | envsolve_harness/dev_bad_case_analysis.py:222-231 | the selection is as long as its offsets say |
| RoundRobinLaws.ColumnMajorLength | envsolve_harness/dev_bad_case_analysis.py:224-236 | the whole traversal is as long as all strata together |
| RoundRobinLaws.StratumPrefixIsTaken | envsolve_harness/dev_bad_case_analysis.py:226-231 | from each stratum a prefix is taken, as long as its offset |
| RoundRobinLaws.NothingIsTakenTwice | envsolve_harness/dev_bad_case_analysis.py:224-236 | no id is selected twice |
| RoundRobinLaws.ColumnMajorIsComplete | envsolve_harness/dev_bad_case_analysis.py:224-236 | the whole traversal holds every ranked id once |
| RoundRobinLaws.OffsetsAreFair | envsolve_harness/dev_bad_case_analysis.py:223-234 | offsets fall along the frequency order and differ by at most one between open strata |
| CoreBatch.FindDuplicate | envsolve_harness/dev_bad_case_analysis.py:106-111 | a duplicate is reported exactly when case ids repeat |
| CoreBatch.GroupStrata | envsolve_harness/dev_bad_case_analysis.py:198-209 | each stratum lists its eligible cases in order |
| CoreBatch.OrderStrata | envsolve_harness/dev_bad_case_analysis.py:211 | strata by falling size, ties by name |
| CoreBatch.RankStratum | envsolve_harness/dev_bad_case_analysis.py:213-220 | the same cases by salted digest, ties by id |
| CoreBatch.TraversalIsEligible | envsolve_harness/dev_bad_case_analysis.py:198-243 | the traversal holds exactly the eligible ids |
| CoreBatch.RankAll | envsolve_harness/dev_bad_case_analysis.py:212-220 | every stratum gets its own ranking, without repeats and not empty |
| CoreBatch.SelectCoreBatch | envsolve_harness/dev_bad_case_analysis.py:195-264 | min(batch size, eligible) ids are selected fairly, and with the validation ids they partition the eligible ids |
| CoreBatch.StrataAreDetermined | envsolve_harness/dev_bad_case_analysis.py:198-220 | the records, in any order, determine the strata, their order and their rankings |
| CoreBatch.LargerBatchExtends | envsolve_harness/dev_bad_case_analysis.py:195-264 | of two selections from the same records in any order the larger begins with the smaller; with one size they are the same batch |
| PairedSchedule.Build | envsolve_harness/verifier_handoff_screen.py:528-582 | the episodes are those of the cases two by two, and building fails exactly without bad cases |
| PairedSchedule.IdentifiersAreInjective | envsolve_harness/verifier_handoff_screen.py:543-568 | run and pair identifiers of different positions differ, whatever the slugs |
| PairedSchedule.PositionsAndRunIds | envsolve_harness/verifier_handoff_screen.py:553-568 | positions count from 1 and run ids are distinct |
| PairedSchedule.PairsShare | envsolve_harness/verifier_handoff_screen.py:541-568 | episodes of a pair share case, seed and pair id and have different arms |
| PairedSchedule.BothArmsOncePerPair | envsolve_harness/verifier_handoff_screen.py:545-568 | each pair runs both arms, and there is no other pair |
| PairedSchedule.OpeningsAlternate | envsolve_harness/verifier_handoff_screen.py:545-553 | the arms open equally many pairs, give or take one |
| PairGrouping.Group | envsolve_harness/verifier_handoff_screen.py:467-496 | grouping succeeds exactly when every record has one partner of the other arm with its case, and then lists complete pairs by index |
| PairGrouping.CompletePairs | envsolve_harness/verifier_handoff_screen.py:491-496 | the second loop accepts exactly the well-paired records |
| PairGrouping.OneMoreRecord | envsolve_harness/verifier_handoff_screen.py:468-489 | a record with an open role extends the grouping |
| PairedAdjudication.IndexEpisodes | envsolve_harness/verifier_handoff_screen.py:389 | the index holds the last episode with each run id |
| PairedAdjudication.Join | envsolve_harness/verifier_handoff_screen.py:389-399 | each record takes its identity from the episode of its run id, and an unknown run fails |
| PairedAdjudication.Compare | envsolve_harness/verifier_handoff_screen.py:359-520 | succeeds exactly for distinct nonempty labels and well-paired records, with tables of those pairs |
| PairedAdjudication.JoinedRecordsMatch | envsolve_harness/verifier_handoff_screen.py:389-399 | joining by run id relabels the episodes one to one |
| PairedAdjudication.RepositoryLabelsDiffer | envsolve_harness/verifier_handoff_screen.py:365-369 | the default labels are accepted |
| PairedAdjudication.ScheduledRunsArePaired | envsolve_harness/verifier_handoff_screen.py:467-496 | the runs of a built schedule always pass the grouping, in any order |
| PairedAdjudication.ScheduleGivesOnePairPerCase | envsolve_harness/verifier_handoff_screen.py:467-510 | n bad cases give the n pairs 1 to n, each with its case |
| PairedAdjudication.RunStudy | envsolve_harness/verifier_handoff_screen.py:359-510 | from the bad cases to the tables: given a summary that covers the schedule, a study of n cases never fails, pair i compares the two runs of case i under both arms, and the tables and exact p-values are those of the outcomes |
| PairedAdjudication.PairComparesCase | envsolve_harness/verifier_handoff_screen.py:389-510 | the members of pair i have the outcomes that the summary reports for the two scheduled runs of case i |
| ProgressRuns.CollectObservations | experiments/analyze_execution_feedback_screen.py:313-331 | the list holds, in order, one observation for each verification with a list of string identifiers, and for no other |
| ProgressRuns.ObservationsAreDetermined | experiments/analyze_execution_feedback_screen.py:313-331 | the verifications determine the list |
| ProgressRuns.CollectStalls | experiments/analyze_execution_feedback_screen.py:332-343 | one record per repeated nonempty finding set, in order |
| ProgressRuns.LongestRun | experiments/analyze_execution_feedback_screen.py:344-355 | the length of a longest block of equal nonempty sets, 0 if there is none |
| ProgressRuns.BlocksAndRepeatsAddUp | experiments/analyze_execution_feedback_screen.py:332-367 | stalls plus maximal blocks are the nonempty observations |
| ProgressRuns.LongestIsBounded | experiments/analyze_execution_feedback_screen.py:344-367 | the longest run is at most one more than the stalls |
| IncrementalProgram.IncrementalProgram.constructor | envsolve_harness/incremental_program.py:16-20 | a new program has no steps |
| IncrementalProgram.IncrementalProgram.AppendSuccessful | envsolve_harness/incremental_program.py:26-44 | a step is appended exactly for a nonempty command that succeeded |
| IncrementalProgram.IncrementalProgram.ReviseBatch | envsolve_harness/incremental_program.py:57-118 | all or nothing; the program is the edited one, shorter by the deletions, numbered from 1 with nonempty commands |
| IncrementalProgram.IncrementalProgram.Revise | envsolve_harness/incremental_program.py:46-55 | a batch of one edit |
| IncrementalProgram.IncrementalProgram.Normalise | envsolve_harness/incremental_program.py:61-89 | validation passes exactly for typed, ranged and distinct edits and collects their canonical replacements |
| IncrementalProgram.IncrementalProgram.Rebuild | envsolve_harness/incremental_program.py:91-110 | the rebuilt list is the edited one, renumbered |
| IncrementalProgram.IncrementalProgram.ReadProgram | envsolve_harness/incremental_program.py:22-24 | the program text is empty exactly without steps |
| ProgramEdits.EditedSize | envsolve_harness/incremental_program.py:92-106 | the program shrinks by exactly the deletions |
| ProgramEdits.SurvivorsKeepOrder | envsolve_harness/incremental_program.py:92-109 | surviving steps keep their order, untouched ones their content |
| ProgramEdits.BatchIsDescendingSingles | envsolve_harness/incremental_program.py:57-118 | a batch equals its single edits from the highest position down |
| ProgramEdits.EditOrderIsIrrelevant | envsolve_harness/incremental_program.py:61-80 | the order of the edits in a batch does not matter |
| Text.StripTrims | envsolve_harness/progress_state.py:15-19 | stripping trims, keeps trimmed text, and adds nothing |
| Text.CanonicalScriptIsIdempotent | envsolve_harness/codex/minimal_b_mcp.py:241-242 | a canonical script is its own canonical form |
| ProgressRecords.ConditionNormalises | envsolve_harness/progress_state.py:22-40 | constructed conditions are valid, and valid ones are constructed unchanged |
| ProgressRecords.EvidenceNormalises | envsolve_harness/progress_state.py:66-106 | the same for evidence, with what a pass requires |
| ProgressRecords.DeploymentNormalises | envsolve_harness/progress_state.py:132-142 | a deployment needs a nonempty canonical program |
| ProgressRecords.NonEmptyNormalises | envsolve_harness/progress_state.py:15-19 | text is refused exactly when it is blank |
| ProgressRecords.ConditionRoundTrip | envsolve_harness/progress_state.py:42-53 | a valid condition is read back from its dictionary |
| ProgressRecords.EvidenceRoundTrip | envsolve_harness/progress_state.py:108-129 | valid evidence is read back from its dictionary |
| ProgressRecords.DeploymentRoundTrip | envsolve_harness/progress_state.py:144-157 | a valid deployment is read back from its dictionary |
| ProgressRecords.RepairRoundTrip | envsolve_harness/progress_state.py:160-182 | a valid repair is read back from its dictionary |
| ProgressState.StartIsConsistent | envsolve_harness/progress_state.py:221-246 | exactly when start succeeds, and its state is version 1 of a consistent run |
| ProgressState.RecordStep | envsolve_harness/progress_state.py:286-322 | from a consistent state record succeeds exactly for a nonempty program, a non-passing trigger and worded risks, so the matching-evidence check never fails; what it appends |
| ProgressState.RunsLogEveryAcceptedCall | envsolve_harness/progress_state.py:286-322 | over every run the version counts deployments, there is one per accepted call and one repair per trigger, and the current program is that of the last pass |
| ProgressState.HistoryOnlyGrows | envsolve_harness/progress_state.py:313-322 | no deployment and no repair is ever rewritten |
| ProgressState.SavedStateIsReadBack | envsolve_harness/progress_state.py:248-284 | loading the dictionary of a valid state gives the state |
| ProgressState.LoadedStateIsValid | envsolve_harness/progress_state.py:248-269 | whatever loads is valid and survives saving |
| ProgressState.StateNormalises | envsolve_harness/progress_state.py:193-219 | constructing a valid state changes nothing |
| PersistentAudit.AuditSnapshot | envsolve_harness/persistent_state_analysis.py:97-294 | a snapshot is valid exactly when feedback was internal and its sorted records are safe for the method |
| PersistentAudit.SortingKeepsRecords | envsolve_harness/persistent_state_analysis.py:75-112 | sorting by event sequence loses no record |
| PersistentAudit.AuditEpisode | envsolve_harness/persistent_state_analysis.py:120-289 | no error exactly when feedback was internal and the episode is safe for its method |
| PersistentAudit.AuditControl | envsolve_harness/persistent_state_analysis.py:136-145 | a control has no transition and only fresh verifications |
| PersistentAudit.AuditClean | envsolve_harness/persistent_state_analysis.py:173-195 | every clean replay is fresh, without lineage, and replays its source's program; the index lists them by source |
| PersistentAudit.AuditConstruction | envsolve_harness/persistent_state_analysis.py:197-234 | every construction has a consistent lineage, licensed reuse, and one clean replay for a pass |
| PersistentAudit.AuditLineages | envsolve_harness/persistent_state_analysis.py:236-251 | no damaged or unknown lineage was reused later by another candidate |
| PersistentAudit.AuditCertificate | envsolve_harness/persistent_state_analysis.py:253-287 | a certified candidate has one passing clean replay in the recorded environment |
| PersistentAudit.AuditChannels | envsolve_harness/persistent_state_analysis.py:120-134 | all feedback is internal and no official evidence entered |
| PersistentAudit.ReuseIsLicensed | envsolve_harness/persistent_state_analysis.py:209-251 | a reused lineage was declared reusable before, and never damaged or unknown before by another candidate |
| PersistentAudit.CertificateIsClean | envsolve_harness/persistent_state_analysis.py:262-287 | the certified candidate is one fresh replay of its source's own program |
| Adjudication.AdjudicateManaged | envsolve_harness/boundary_v3.py:603-644 | accepted paths are those of the managed violations, sorted; the rest keeps its order |
| Adjudication.AdjudicateNative | envsolve_harness/boundary_v4.py:426-453 | the same for native builds with a tracked provider and initializer |
| Adjudication.AdjudicateCopies | envsolve_harness/boundary_v5.py:416-456 | the same for exact copies of tracked sources, the directory findings appended |
| Adjudication.AdjudicateOpen | envsolve_harness/boundary_v6.py:120-157 | the same for nonempty regular artifacts that go to review |
| Adjudication.FirstCopyFinds | envsolve_harness/boundary_v5.py:293-307 | a copy is found exactly when some source matches, and the first match is named |
| AdjudicationPipeline.Adjudicate | envsolve_harness/boundary_v5.py:416-456 | through all four stages every record list names exactly the base violations with its verdict, and what remains is the refused ones in their order and then the directory findings |
| AdjudicationPipeline.VerdictsPartition | envsolve_harness/boundary_v6.py:126-157 | each base violation has exactly one of five verdicts |
| AdjudicationPipeline.ReportCounts | envsolve_harness/boundary_v6.py:89-118 | the reports and the rest add up to the base violations and the findings |
| AdjudicationPipeline.OnlyCandidatesAreExcused | envsolve_harness/boundary_v4.py:434-448 | only an untracked import artifact with a path is ever excused |
| AdjudicationPipeline.ValidWhenAllExcused | envsolve_harness/boundary_v6.py:85-87 | valid exactly when every violation was excused and nothing was found |
| EmptyDirectories.FindEmptyDirectories | envsolve_harness/boundary_v5.py:310-372 | the sorted findings of the walk, none of them a candidate for excuse |
| EmptyDirectories.Walk | envsolve_harness/boundary_v5.py:325-371 | the stack-driven walk finds what the recursive definition finds |
| EmptyDirectories.FoundExactlyWhenReachable | envsolve_harness/boundary_v5.py:325-371 | a directory is found exactly when it is hollow, importable, and reached by a chain of unpruned names |
| EmptyDirectories.ImportableBelowAnySource | envsolve_harness/boundary_v5.py:350-361 | testing the nearest source directory is testing any source directory above |
| PathExpressions.SeenMattersOnlyInReach | envsolve_harness/boundary_v3.py:381-388 | the guard against repeated names looks only at names that the expression can reach, cycles among them included |
| PathExpressions.SeenMeansUnassigned | envsolve_harness/boundary_v3.py:381-388 | a name that has been seen counts as not assigned, and for nothing else |
| PathExpressions.VariableFoldsWithoutItself | envsolve_harness/boundary_v3.py:381-388 | under any assignments a variable folds to its definition with the variable itself forgotten |
| PathExpressions.VariablesAreTransparent | envsolve_harness/boundary_v3.py:381-388 | a variable folds to its definition unless the definition leads back to it |
| PathExpressions.AcyclicMeansTransparent | envsolve_harness/boundary_v3.py:381-388 | with acyclic assignments no definition does |
| PathExpressions.CyclesAreNotTransparent | envsolve_harness/boundary_v3.py:381-388 | a variable that leads back to itself may fold to something else |
| PathExpressions.DivideConcatenatesParts | envsolve_harness/boundary_v3.py:389-395 | a division has the components of both sides in order |
| PathExpressions.DivideKeepsFileName | envsolve_harness/boundary_v3.py:389-395 | the right operand decides the file name, whatever directory stands before it |
| PathExpressions.JoinConcatenatesParts | envsolve_harness/boundary_v3.py:396-411 | a path call has the components of its known arguments in order |
| PathExpressions.AddConcatenatesUnlessSlashesMeet | envsolve_harness/boundary_v3.py:389-395 | folded addition is concatenation exactly when no slash meets |

## Left out

- The counts of dispositions in the audit's metrics.
- The trace holds the events that the checker reads; other events of the runner between an observation and its tool result are remarks that change nothing.
- The numbers that the checker reports beside its verdict (trigger counts, complete rate, constraint violations) are not modelled.
- Building the raw obligation list of a replay snapshot from counterexamples (`_structured_obligations`) and the truncation of the visible records to 128.
- The other field checks of `validate_classifications`; only the uniqueness of case ids is modelled.
- The resource summaries of the paired study and the making of the run summary, which is an arbitrary list of sources.
- The runner and the method of a scheduled episode: fixed labels of its arm.
- `compact_context` of the progress state and the snapshot files.
- ProgressRecords.EvidenceNormalises: a duration that is not a finite number is not modelled, because floats are reals.
- Agreement.KappaRange: rounding of floats is not modelled, so the bounds are those of the exact rational value.
- McNemar.PValueRange: rounding and underflow of floats are not modelled; in floats the value may reach 0.
- Scanning scripts for writes (`_protected_configuration_write`), regular expressions, `shlex` and `ast`: library behaviour. Only the folding of path expressions is modelled, with f-strings as given values.
- PathExpressions.VariablesAreTransparent: that the definition does not lead back to the variable is sufficient and not necessary, since a repeated name does no harm where its value is not used.
- ScheduleAudit.ScheduledMechanism: shell counts, request indices and cadences that are no integers read as absent, so a float such as 16.0 does not equal 16 there; identifiers and observation numbers are compared as Python compares them.
- The other modes of the shell branch (operation frontier and annotated programs, openrouter_agent.py:2166-2258), which belong to other arms.
- CoreBatch.SelectCoreBatch: the refusals of `validate_classifications` other than a repeated case id, and of a malformed selection policy other than a batch size below 1, are not modelled.
- PairedAdjudication.Compare: official retries and protocol-invalid reasons change the outcomes of a run before the comparison; the outcomes here are those after that step.
- PairedAdjudication.RunStudy: a run that is incomplete or without artifacts makes the adjudication fail; the summary here has a finished run for every episode.
- PersistentAudit.AuditSnapshot: the result file is a parameter, and a missing snapshot is not modelled.
- `_tracked_native_providers` and `_tracked_python_sources`, which read git: the provider map and the source list are parameters.
- Report dictionaries, schema names, prompt text, digests of sets, and persistence to files.
