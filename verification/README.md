# Verified model of Nitely's protocols and algorithms

Nitely runs governed work locally. This project models the parts of it that are protocols or algorithms over
unbounded state, and proves what they are for:

- **Work claims and wakes** (`Text`, `Claims`, `ClaimSafety`, `ClaimAnswers`, `Wakes`, `CoordinationStore`). The store
  is a class over four tables; each public method is proved equal to a declarative transition. Any number of guarded
  mutations then interleave transaction by transaction and crash anywhere, the effect of a key starts at most once, and
  every answer is characterised by what happened before.
- **Artifact registry** (`Artifacts`, `RegistryWrites`, `RegistryProtocol`). A public file bound to an immutable private
  sidecar: merging, redaction, restoring, round trips, and the interleaving of writers, readers and crashes.
- **Pruning** (`Retention`). Files, then the public index, then the private one; every crash point keeps what is left
  discoverable.
- **Reviewer statistics** (`SignTest`, `Wilson`, `ReviewerScores`, `ReviewerComparison`).
- **Graph walks** (`SecretWalk`, `RawMetadata`): a worklist and a budgeted copier over values with circles.
- **Selection and canonical form** (`Routing`, `CanonicalJson`, `Packing`).
- **Cohort reports** (`AttemptUsage`, `ReviewerTotals`, `CohortReport`, `SampleKey`, `CohortComparison`): usage of one
  run, reviewer totals, the summary of a cohort, the stable key of a sample, and the comparison of two cohorts.
- **CI repair** (`CiRepair`, `CiRepairRuns`, `CiRepairCycle`, `CiRepairStore`): drivers over one stored record, built
  on the claim protocol.

Tables and files are maps, a transaction or an atomic file replacement is one step, and crashes are steps of their own.
Code that updates state in place is a class or a method with loops, proved against a function; the protocol properties
are lemmas about every run of a state machine made of those functions.

Where a wished-for property is false of the code, the code is kept and the exact condition is proved:

- a proceed is not ownership: `ClaimSafety.ProceedOwnsIff`, with `ClaimSafety.ProceedIsNotOwnership` as the instance;
- the lead of a wake can fall off its own list of deliveries: `Wakes.LeadKeptIff` over runs and `Wakes.LeadDroppedIff`
  for one call, with `Wakes.LeadCanBeForgotten`;
- dominance does not always compose: `Routing.DominanceComposesIff`, with `Routing.DominanceIsNotTransitive`;
- dominance can be circular: `Routing.CircleExistsIff`, with `Routing.CycleWithoutOutcomes`;
- swapping scorecards does not always mirror a status: `ReviewerComparison.PairedMirror`, `ReviewerComparison.MetricMirror`
  and `ReviewerComparison.OverallMirror`;
- a resumed repair reaches its second observation only when the head did not move: `CiRepairRuns.SecondObservationIff`;
- drivers that overlap can take back what is stored: `CiRepair.OnlyBehindTakesBack`, `CiRepair.PlainSaveTakesBackIff` and
  `CiRepair.VerdictOverwrittenIff` for each step, with `CiRepairRuns.OverlapOverwritesVerdict`;
- raw metadata is not always copied in full: `RawMetadata.BoundRawMetadata` says exactly when.

## Model

| member | source | states |
|---|---|---|
| Text.CursorTextInjective | src/coordination/claims.ts:172-181 | two cursors are the same text only for the same revision and head |
| Text.CursorHead | src/coordination/claims.ts:781-784 | the head read back from a cursor is the head it was written with |
| Text.NormalizeHead | src/coordination/claims.ts:775-779 | the result is always an acceptable head, and an acceptable head is returned unchanged |
| CoordinationStores.CoordinationStore.Snapshot | src/coordination/claims.ts:172-181 | throws on the first malformed domain, otherwise returns the cursor of every domain at the observed head |
| CoordinationStores.CoordinationStore.CollectStale | src/coordination/claims.ts:207-217 | the delta lines of exactly the domains whose presented cursor is not the current one, in the order given |
| CoordinationStores.CoordinationStore.FindConflict | src/coordination/claims.ts:240-248 | the run that holds the first domain claimed under another key, or none when no domain is |
| CoordinationStores.CoordinationStore.InsertClaim | src/coordination/claims.ts:145-146 | inserting a row never violates the unique index over active rows: every caller proves the domain free |
| CoordinationStores.CoordinationStore.UpsertClaims | src/coordination/claims.ts:249-261 | row by row, new rows are inserted, own claimed rows refreshed and all other rows left alone |
| CoordinationStores.CoordinationStore.Propose | src/coordination/claims.ts:183-264 | the loops over domains compute the declarative proposal: replay, unknown, proceed, hold once then limit, conflict, or claim; a throw changes nothing |
| CoordinationStores.CoordinationStore.MarkEffectStarted | src/coordination/claims.ts:266-285 | succeeds exactly when every row is the caller's and claimed, and then turns all of them unknown; otherwise names the failing domain and rolls back |
| CoordinationStores.CoordinationStore.CompleteDomains | src/coordination/claims.ts:300-321 | all rows completed and all worlds advanced by one, or a throw at the first row that is not the caller's and unknown, with nothing changed |
| CoordinationStores.CoordinationStore.Complete | src/coordination/claims.ts:287-323 | succeeds exactly when the stored record fits 500 characters and every row is the caller's and unknown |
| CoordinationStores.CoordinationStore.Abort | src/coordination/claims.ts:325-334 | removes exactly the caller's claimed rows of the key on the domains |
| CoordinationStores.CoordinationStore.RecordWake | src/coordination/claims.ts:336-392 | the row update computes the declarative wake transition and role |
| CoordinationStores.CoordinationStore.ClaimWake | src/coordination/claims.ts:394-430 | the row update computes the declarative lease transition and answer |
| CoordinationStores.CoordinationStore.FinishWake | src/coordination/claims.ts:432-477 | the row update computes the declarative finish transition and answer |
| CoordinationStores.CoordinationStore.ReleaseWake | src/coordination/claims.ts:479-498 | only the lease of the given owner is given up; any other row stays |
| ClaimSafety.NextKeeps | src/coordination/claims.ts:183-334 | every transaction, effect or crash of any caller keeps the tables, the rows of started effects and the holds consistent, and undoes nothing |
| ClaimSafety.EffectStartsAtMostOnce | src/coordination/claims.ts:616-670 | in every interleaving with crashes between any two steps, one key's effect starts at most once on a domain, and effects in flight share no domain |
| ClaimSafety.ReachableTables | src/coordination/claims.ts:207-262 | in every reachable store a domain has at most one active row, whose cursor is the current one, and its revision is the number of its completed rows |
| ClaimSafety.NoLostUpdate | src/coordination/claims.ts:287-323 | a caller whose effect returned can complete unless its record is too long, and each domain then advances by one from the version it claimed; other domains stay |
| ClaimSafety.CrashFreezesDomain | src/coordination/claims.ts:288-305 | after a crash with a started effect, no effect ever starts on its domains again, under any key |
| ClaimSafety.HoldGivenOnce | src/coordination/claims.ts:218-238 | a hold is given out at most once for an action domain, run and cursor, and is remembered for good |
| ClaimAnswers.ToldWhatHappened | src/coordination/claims.ts:193-202 | over every run a proposal is told to replay exactly when its key finished on the action domain, with the head and the GitHub url it finished with, and that an effect started exactly when one was marked there and none finished; neither changes anything |
| ClaimAnswers.FinishedKeyReplays | src/coordination/claims.ts:194-200 | once a key finished, every later proposal for it on that action domain replays what it finished with and changes nothing |
| ClaimAnswers.CrashedKeyStaysUnknown | src/coordination/claims.ts:200-202 | after a crash with a started effect every later proposal for its key is told that an effect of unknown outcome started, and changes nothing |
| ClaimAnswers.ToldWhatToDo | src/coordination/claims.ts:203-262 | when nothing started: proceed exactly when the run holds the action row or presents only current versions of domains no other key blocks; conflict with the first owner that blocks; otherwise hold, and the limit exactly when that hold was given before, with a next cursor that is current and the first eight outdated domains |
| ClaimAnswers.OthersUntouched | src/coordination/claims.ts:207-334 | no transaction touches a row of another key, domain or run; an abort gives up exactly the claimed rows of its own; versions move only by completing |
| ClaimAnswers.SnapshotTimelyIff | src/coordination/claims.ts:172-217 | a snapshot is current when it is taken exactly for domains whose recorded head is the observed one |
| ClaimAnswers.ActionDomainIs | src/coordination/claims.ts:193-193 | the first action domain decides, or the first of all when there is none |
| ClaimAnswers.RecordLengthIs | src/coordination/claims.ts:295-299 | the bounded length is that of the record's JSON text |
| ClaimSafety.SnapshotCursorStaysStale | src/coordination/claims.ts:207-217 | a cursor that a snapshot gave out, once stale, is stale in every continuation |
| ClaimSafety.ProceedOwnsIff | src/coordination/claims.ts:249-281 | after a proceed the caller may start its effect exactly when every row of the key was absent or its own claimed row and no domain is repeated |
| ClaimSafety.ProceedIsNotOwnership | src/coordination/claims.ts:249-262 | two runs can both be told to proceed with one key; only the first can mark its effect started |
| Wakes.CursorIsMaximum | src/coordination/claims.ts:336-392 | in any order of arrival the stored cursor is the greatest of the recorded cursors that were not duplicates |
| Wakes.LeasesNeverOverlap | src/coordination/claims.ts:394-498 | while claiming clocks do not run back, a lease starts only after every earlier lease of another owner was given up or ran out; attempts count the leases; rerun implies leased |
| Wakes.DoneOnlyForNewest | src/coordination/claims.ts:432-477 | the lease holder finishes as done exactly when it names the lead and nothing newer came in; that lead was handed out under this lease and has the greatest cursor; otherwise the wake is pending again |
| Wakes.StateMeans | src/coordination/claims.ts:336-498 | over every run: leased while the last lease was not given up, done when a finish settled the work and nothing newer was accepted or claimed since, else pending; the lead is the first delivery with the newest cursor; rerun exactly when something newer came in under the lease |
| Wakes.RolesTell | src/coordination/claims.ts:354-390 | over every run: a known delivery is told lead exactly when it leads unsettled work, a new one lead, coalesced or stale by how its cursor compares with all accepted ones |
| Wakes.ClaimsTell | src/coordination/claims.ts:394-430 | over every run: only the lead may claim, it is blocked exactly while another owner's open lease runs, and gets the lease it asked for |
| Wakes.FinishesTell | src/coordination/claims.ts:432-477 | over every run: a finish is done exactly when it names the lead and no other owner's lease and no newer work stands in the way; the holder is released in any other case |
| Wakes.ReleaseGivesBack | src/coordination/claims.ts:479-498 | after the holder's release the wake is as before but for the lease: any owner may claim the lead and recording it again answers lead; anyone else's release changes nothing |
| Wakes.UnsettledGivesBack | src/coordination/claims.ts:441-466 | a finish that does not settle the work leaves what a release leaves |
| Wakes.RoleDecidesClaim | src/coordination/claims.ts:336-430 | a recorder told lead may claim unless another owner holds the wake; one told stale, coalesced or duplicate is turned away, except for a lead that is no longer listed |
| Wakes.TurnedAwayIff | src/coordination/claims.ts:336-430 | after any events, a recorder told stale or coalesced is turned away exactly unless it is the lead and 32 others were accepted since |
| Wakes.LeadKeptIff | src/coordination/claims.ts:344-368 | after any events the list is the last 32 accepted deliveries, each once, so the lead is on it exactly when it is among them |
| Wakes.LeadDroppedIff | src/coordination/claims.ts:344-368 | recording drops the lead exactly when the list is full, the lead is its oldest entry and the delivery is new without a newer cursor |
| Wakes.LeadCanBeForgotten | src/coordination/claims.ts:344-368 | an instance: 32 late deliveries push the current lead off the list |
| Artifacts.MergeArtifacts | src/artifacts/registry.ts:178-192 | one artifact per key in order of first occurrence, later sources overriding earlier ones field by field |
| Artifacts.ReconcileArtifactSources | src/artifacts/registry.ts:200-224 | the registry and then the events are merged, and fields without a value never override |
| Artifacts.CombinedField | src/artifacts/registry.ts:178-224 | a field of a merged artifact is that of the last source of its key that lists it |
| Artifacts.MergeOfDistinct | src/artifacts/registry.ts:178-192 | merging artifacts with distinct keys changes nothing |
| Artifacts.KeyOrderDistinct | src/artifacts/registry.ts:178-192 | a merged list has no key twice |
| RegistryWrites.NoRawPathForgotten | src/artifacts/registry.ts:598-661 | a write keeps every raw path as a current private path or a historical one |
| RegistryWrites.SuppliedIsRestored | src/artifacts/registry.ts:608-654 | every raw path that comes in with a public one is what a read restores for that artifact, unless it is the stored public path read back |
| RegistryWrites.RoundTripRestores | src/artifacts/registry.ts:633-652 | a public path read back keeps the raw path exactly when it is the raw path itself or the content is still the stored one |
| RegistryWrites.WrittenIsRedacted | src/artifacts/registry.ts:608-626 | each incoming artifact is stored with its identity and every text redacted and nothing else changed; a path that returns under its key is shown as before, redacted again |
| RegistryWrites.OnlySuppliedIsKept | src/artifacts/registry.ts:655-661 | nothing is kept but earlier raw paths and incoming ones, and a current one is not historical |
| RegistryWrites.RestoresOnlySame | src/artifacts/registry.ts:413-447 | a private path is put back exactly on an artifact with the key, path, digest, size and origin of the stored one |
| RegistryWrites.WrittenIsAccepted | src/artifacts/registry.ts:400-411 | whatever a write stores has unique identities and entries bound to their artifacts, so later reads accept it |
| RegistryWrites.WrittenIsSettled | src/artifacts/registry.ts:598-661 | with an idempotent redactor the stored artifacts are unchanged by redacting them again |
| RegistryWrites.WriteBack | src/artifacts/registry.ts:413-661 | writing back the public view, the restored view or any mixture leaves the public and restored artifacts as they were and keeps every private path |
| RegistryWrites.HistoryKeepsRawPaths | src/artifacts/registry.ts:598-661 | over any sequence of serial writes with any redactors raw paths only accumulate and reads keep accepting |
| RegistryWrites.HistoryKeepsSupplied | src/artifacts/registry.ts:598-661 | over any sequence of serial writes every raw path that was ever supplied is kept |
| RegistryWrites.RoundTripAfterHistory | src/artifacts/registry.ts:413-661 | after any history, reading what was written and writing it back loses nothing |
| RegistryProtocol.NextKeeps | src/artifacts/registry.ts:513-716 | every file access of any reader or writer, and every crash, keeps the public file bound and every process's view consistent |
| RegistryProtocol.PublicFileAlwaysBound | src/artifacts/registry.ts:666-716 | however writers, readers and crashes interleave, the sidecar named by the public file is on disk, bound to exactly that content, and acceptable |
| RegistryProtocol.ReadersSeePairs | src/artifacts/registry.ts:513-559 | a read returns a matching pair, a file without sidecar or nothing; it never reports a mismatch and fails only if two commits happened during it |
| RegistryProtocol.QuietReadFindsCurrent | src/artifacts/registry.ts:513-559 | an undisturbed read of any reachable disk returns the current pair |
| RegistryProtocol.ReadsAnyDisks | src/artifacts/registry.ts:513-559 | a read of any disks at all: the first public file whose sidecar fits, a mismatch when a file that does not fit is still there, nothing when it is gone, and giving up on the second change |
| RegistryProtocol.CommitKeepsWhatItRead | src/artifacts/registry.ts:598-716 | over every run a commit publishes the write of its input over the pair its writer read, one generation later; it keeps that pair's raw paths, and all current ones when nothing was committed in between |
| RegistryProtocol.QuietWriterPublishes | src/artifacts/registry.ts:598-716 | from any reachable state an undisturbed writer publishes the write over the current registry and removes the replaced sidecar, and leaves the disk alone exactly when the write throws or the generation is exhausted |
| RegistryProtocol.CommitsCount | src/artifacts/registry.ts:683-700 | only a writer's step from its sidecar to the public file changes that file |
| Retention.RunDirectory.CollectArtifactFiles | src/evidence/retention.ts:545-675 | throws exactly when an index that is not temporary cannot be read, and otherwise lists every named or recovery artifact file and every residue, all public index files and all private ones, each once |
| Retention.RunDirectory.RemoveRunFiles | src/evidence/retention.ts:903-924 | renames and unlinks the listed files in order and, cut off after any number of steps, leaves exactly the files of that prefix undone |
| Retention.RunDirectory.DeleteRunEvents | src/evidence/retention.ts:495-543 | the event history is kept exactly when it names a path while the registry cannot be read, or is the last index of an artifact that is left |
| Retention.RemainingCut | src/evidence/retention.ts:903-924 | an interruption leaves all files but a prefix of the order, with at most one file caught under its quarantine name |
| Retention.CrashKeepsDiscoverable | src/evidence/retention.ts:545-675 | at every crash point each surviving artifact file that was ever named is still named, and a surviving artifacts.json has its sidecar |
| Retention.PrunesExactly | src/evidence/retention.ts:545-675 | a complete prune leaves exactly the files that are neither an index, nor a named or recovery artifact or its remains, nor a temporary artifact copy; an interrupted one removes nothing else; afterwards the events are not needed |
| Retention.NamedIff | src/evidence/retention.ts:570-616 | a path is named by the public index, by a private one that can be read, or by the events |
| Retention.CategoryIs | src/evidence/retention.ts:130-147 | inputs and worktree belong to the run, logs and prompts are told by name, the evidence by its place, and everything else is an artifact |
| Retention.DroppingEventsKeepsDiscoverable | src/evidence/retention.ts:495-543 | deleting the events when the retry index is not needed leaves every surviving file named |
| Retention.NeedsRetryIff | src/evidence/retention.ts:495-543 | the events are kept exactly when the registry cannot be read or they name an artifact that is left and that no registry file in place names |
| Retention.HistoryKeepsDiscoverable | src/evidence/retention.ts:982-1043 | both facts hold after any sequence of interrupted prunes and event deletions |
| Retention.LaterRetryDrains | src/evidence/retention.ts:813-845 | after any such sequence a new plan can be made, it lists everything sensitive that is left, and running it to the end removes it and every index |
| SignTest.SignTestPValue | src/eval/reviewer-scorecard.ts:400-411 | the loop divides exactly at every step and returns the doubled binomial tail over two to the n, at most one |
| SignTest.ChooseStep | src/eval/reviewer-scorecard.ts:407-409 | the coefficient update is the recurrence between neighbouring binomial coefficients |
| SignTest.PValueIsExact | src/eval/reviewer-scorecard.ts:400-411 | the value is the share of all sign patterns at least as lopsided as the observed one, by enumeration |
| SignTest.PValueLaws | src/eval/reviewer-scorecard.ts:400-411 | the value lies between two over two to the n and one, is symmetric, is one on a tie and grows with the rarer sign |
| SignTest.SixPairsNeeded | src/eval/reviewer-scorecard.ts:36-41 | at the 5% level fewer than six discordant pairs never give a direction, and six can |
| Wilson.IntervalIsScoreSet | src/eval/reviewer-scorecard.ts:139-162 | for every count and every z the interval holds exactly the proportions that the score test does not reject |
| Wilson.UnclampedIsScoreSet | src/eval/reviewer-scorecard.ts:151-157 | before clamping, the proportions between centre minus and centre plus margin are exactly those the score test does not reject |
| Wilson.NotRejectedInUnit | src/eval/reviewer-scorecard.ts:158-161 | no proportion outside [0, 1] survives the score test, so clamping changes nothing |
| Wilson.IntervalContainsProportion | src/eval/reviewer-scorecard.ts:139-162 | the interval lies within [0, 1] and contains the observed proportion |
| ReviewerScores.MatchFindings | src/eval/reviewer.ts:220-262 | the loop over findings with its growing set of claimed defects computes the declarative matching |
| ReviewerScores.MatchOneLaws | src/eval/reviewer.ts:205-262 | a finding claims a real defect nobody claimed before, and is unmatched exactly when every defect it names or hints at was claimed |
| ReviewerScores.HowMatched | src/eval/reviewer.ts:226-262 | an id that names an unclaimed defect decides; else one unclaimed defect that the finding points at is a match by file, category or both, two are ambiguous, none is unmatched |
| ReviewerScores.MatchAllLaws | src/eval/reviewer.ts:220-262 | matching is injective into the defects and greedy: what an unmatched finding could have taken was claimed before its turn |
| ReviewerScores.ScoreAddsUp | src/eval/reviewer.ts:262-301 | detected plus false positives is the number of findings, detected plus missed the number of defects |
| ReviewerScores.ScorecardAgreesWithScore | src/eval/reviewer-scorecard.ts:275-318 | the recall counted by the scorecard lacks exactly the defects the score lists as missed, and its critical counts are those of the score |
| ReviewerScores.CountScorecard | src/eval/reviewer-scorecard.ts:275-366 | the ten counters of the loop are the sums of what each case contributes to the six proportions |
| ReviewerScores.ProportionsInRange | src/eval/reviewer-scorecard.ts:139-172 | on scores built from reviewer output no proportion has more successes than trials, so the range check never trips |
| ReviewerScores.RecallsMean | src/eval/reviewer-scorecard.ts:275-318 | each recall counts the defects of its severities and those that some finding was matched with |
| ReviewerScores.VerdictsMean | src/eval/reviewer-scorecard.ts:299-318 | a defective case counts as passed when passed or without output, a known-good one as failed unless passed |
| ReviewerScores.PassingWords | src/eval/reviewer.ts:281-282 | exactly three words pass, in any case, and nothing with separators does |
| ReviewerComparison.MatchCases | src/eval/reviewer-scorecard.ts:462-489 | cases are matched, mismatched or unmatched exactly by shared id and equal ground truth |
| ReviewerComparison.Paired | src/eval/reviewer-scorecard.ts:492-516 | worse and better count the two kinds of discordant pairs, and the status follows from them, the matched cases and the sign test |
| ReviewerComparison.CaseUnits | src/eval/reviewer-scorecard.ts:521-533 | the pairs of one case are its defects, its critical defects and, when known good, the case itself |
| ReviewerComparison.CompareScorecards | src/eval/reviewer-scorecard.ts:450-575 | whatever order cases are visited in, the report has the declarative matched sets, metric statuses and overall status |
| ReviewerComparison.StatusMeans | src/eval/reviewer-scorecard.ts:492-516 | a metric is a regression exactly when cases and discordant units suffice, the sign test is significant and the candidate lost more than it gained; improvement, no change and insufficient evidence likewise |
| ReviewerComparison.OverallMeans | src/eval/reviewer-scorecard.ts:549-558 | on agreeing ground truth any regression decides; an improvement needs some improved metric and none worse or unsure |
| ReviewerComparison.NoGainNoImprovement | src/eval/reviewer-scorecard.ts:492-558 | at the defaults a candidate that succeeds nowhere the baseline failed is never an improvement |
| ReviewerComparison.TotalIsDrops | src/eval/reviewer-scorecard.ts:499-547 | the discordant pairs are the units lost from one side to the other, each counted once |
| ReviewerComparison.ComparableIff | src/eval/reviewer-scorecard.ts:471-483 | two listed outcomes are comparable exactly when scored against the same gold |
| ReviewerComparison.OutcomeLists | src/eval/reviewer-scorecard.ts:333-344 | an outcome lists all defects, the found ones and the critical ones |
| ReviewerComparison.LastOutcomeCounts | src/eval/reviewer-scorecard.ts:460-461 | the last outcome of a case is the one compared |
| ReviewerComparison.TruthBindsSeverity | src/eval/reviewer-scorecard.ts:115-127 | outcomes listed for the same ground truth agree on which defects are critical, whoever scored them |
| ReviewerComparison.PairedMirror | src/eval/reviewer-scorecard.ts:499-514 | exchanging worse and better mirrors the status exactly unless a tie is reported, which needs a significance above one |
| ReviewerComparison.MetricMirror | src/eval/reviewer-scorecard.ts:492-535 | for outcomes listed by scorecards, swapping baseline and candidate mirrors a metric's status under exactly that condition |
| ReviewerComparison.OverallMirror | src/eval/reviewer-scorecard.ts:549-558 | the overall status is mirrored exactly when ground truths disagree or at most one of regression, improvement and missing evidence occurs |
| ReviewerComparison.DirectionNeedsEvidence | src/eval/reviewer-scorecard.ts:36-41 | at the defaults a direction needs 20 matched cases, agreeing ground truth and six discordant pairs; an improvement leaves no metric worse or unsure |
| SecretWalk.FollowEntries | src/context/redaction.ts:216-230 | one object yields its strings at sensitive entries and all its objects with their sensitivity |
| SecretWalk.CollectSensitiveStrings | src/context/redaction.ts:191-233 | ends on every finite graph, lists each object at most once per sensitivity, and returns exactly the strings at the end of a walk through a sensitive key |
| SecretWalk.WalkCovered | src/context/redaction.ts:206-214 | when nothing is pending, every object that a walk reaches was expanded at that sensitivity or a stronger one |
| Routing.TestDominance | src/eval/routing.ts:279-302 | true exactly when no comparable metric is worse and one is better |
| Routing.DominatesIff | src/eval/routing.ts:279-302 | dominance is being no worse on every measure both have without the other being so too, for any two candidates |
| Routing.DominanceIsPareto | src/eval/routing.ts:259-302 | the same in terms of the evidence of two measured candidates |
| Routing.EligibleDominance | src/eval/routing.ts:380-411 | eligible candidates are measured, so that is what dominance between them always is |
| Routing.NoDominanceCycle | src/eval/routing.ts:279-302 | among candidates with known outcomes no chain of dominance returns to its start, whatever else is unknown |
| Routing.NoCycleInOneKind | src/eval/routing.ts:279-302 | nor does a chain of candidates whose costs are all of one kind |
| Routing.CircleExistsIff | src/eval/routing.ts:279-302 | candidates showing given measures can dominate each other in a circle exactly when neighbours share an optional measure, one has unknown outcomes and the costs are not all of one kind |
| Routing.DominanceComposesIff | src/eval/routing.ts:279-302 | with known outcomes two dominances compose exactly unless the two ends have costs of one kind in the wrong order |
| Routing.DominanceIsNotTransitive | src/eval/routing.ts:292-294 | an instance of dominance that does not compose |
| Routing.CycleWithoutOutcomes | src/eval/routing.ts:289-291 | an instance of a circle: four candidates, one without known outcomes |
| Routing.EligibleAreComparable | src/eval/routing.ts:346-377 | any two eligible candidates share baseline, contract and cases, and with complete cases required every lineage entry has its own run |
| Routing.FrontierIsPareto | src/eval/routing.ts:392-411 | the frontier holds exactly the eligible candidates that no eligible one is better than, in terms of the evidence |
| Routing.EligibleIff | src/eval/routing.ts:346-391 | a candidate is eligible exactly when none of the sixteen exclusion reasons applies, spelled out |
| Routing.BudgetHoldsIff | src/eval/routing.ts:309-338 | the budget holds exactly when candidates, runs and each limited total, known in full, stay within it |
| Routing.TestBudget | src/eval/routing.ts:316-338 | the budget is exhausted exactly when a count or a known or unknown total exceeds its limit |
| Routing.Recommend | src/eval/routing.ts:404-417 | the frontier is the eligible positions nobody eligible dominates, in order; every dominator is recorded; the status follows from the frontier and the budget |
| Routing.FrontierAbove | src/eval/routing.ts:404-411 | below every eligible candidate off the frontier hangs a finite chain of dominance from one on it |
| Routing.StatusCountsFrontier | src/eval/routing.ts:413-417 | the frontier is empty exactly when nothing is eligible, so recommended, insufficient and infeasible mean one, several and no members; a lone member stands above all others |
| CanonicalJson.PrintUnique | src/eval/manifest.ts:229-245 | a printed value followed by a delimiter can be read back in one way only |
| CanonicalJson.UnquoteKey | src/eval/manifest.ts:233-233 | a quoted string ends at its closing quote and determines its characters |
| CanonicalJson.SamePrints | src/eval/manifest.ts:237-243 | values equal up to object key order print the same text |
| CanonicalJson.CanonicalExact | src/eval/manifest.ts:229-251 | two values have the same canonical document exactly when they are equal up to the order of object keys |
| CiRepair.StepKeepsGuard | src/ci-repair/runtime.ts:204-260 | every step keeps the repair count and each driver's place in the claim protocol |
| CiRepair.StepKeepsRecords | src/ci-repair/runtime.ts:151-347 | every step of every driver keeps the stored record and the drivers' copies sound |
| CiRepair.RepairStartsAtMostOnce | src/ci-repair/runtime.ts:204-260 | however drivers of one key and other callers interleave, crash and resume, the repair effect starts at most once |
| CiRepair.StoredRecordIsSound | src/ci-repair/runtime.ts:293-347 | in every reachable store count, list and budget agree, and repaired means both checks passed and the last remote observation passed on the recorded head |
| CiRepair.RefusedAs | src/ci-repair.ts:191-217 | which outcome refuses a repair, for every observation, head, count and diagnosis |
| CiRepair.SecondObservationNeedsSameHead | src/ci-repair/runtime.ts:171-176 | over every run a second remote observation is stored only if the repair left the head as it was |
| CiRepairRuns.SecondObservationIff | src/ci-repair/runtime.ts:171-176 | some run stores a second observation for a given updated head exactly when it is the head the check failed on |
| CiRepair.RecordsNeverChange | src/ci-repair/runtime.ts:261-312 | recorded verdicts, update and observations never change over any sequence of submissions, crashes and resumes in which no driver starts beside another; submissions that are turned away may come at any time |
| CiRepair.OnlyBehindTakesBack | src/ci-repair/runtime.ts:261-312 | in any interleaving only a driver whose copy lacks something stored can take it back |
| CiRepair.PlainSaveTakesBackIff | src/ci-repair/store.ts:85-90 | saving a copy unchanged takes something back exactly when the copy lacks something stored |
| CiRepair.VerdictOverwrittenIff | src/ci-repair/runtime.ts:275-290 | a stored verdict is overwritten exactly when the driver's own copy has none and its new one differs |
| CiRepairCycle.CycleDecides | src/ci-repair.ts:219-281 | from its update on, whatever other drivers did, a driver asks only for what is not recorded and only while everything passes, records each answer, and ends with the outcome those answers decide |
| CiRepairCycle.AdmissionDecides | src/ci-repair.ts:219-240 | a lost update or a refusal ends the repair at once; a recorded update goes on to the checks and everything else to the guarded mutation |
| CiRepairRuns.OverlapOverwritesVerdict | src/ci-repair/runtime.ts:158-165 | whatever head the repair led to, a driver that resumes during the effect of another can have its stored passed verdict turned to failed |
| CiRepairRuns.UndisturbedRepairs | src/ci-repair.ts:219-281 | an undisturbed driver whose checks pass ends in repaired, having repaired once |
| CiRepairRuns.CrashedRepairResumes | src/ci-repair/runtime.ts:158-176 | a driver that resumes after a crash behind the update applies no repair again, and with passing checks ends repaired exactly when the update left the head as it was, else stale |
| CiRepairRuns.RepairRecordFits | src/coordination/claims.ts:287-299 | the record a repair completes with is never too long for the store |
| CiRepairStores.CiRepairStore.Claim | src/ci-repair/store.ts:76-83 | inserts the initial record exactly when the key has none, and returns what is stored |
| CiRepairStores.SubmitCiRepair | src/ci-repair/runtime.ts:134-347 | a submission is turned away exactly when the record is neither resumable nor new, or settles the record without taking anything back; for every outcome the exact condition in terms of the record and the answers, and exactly which answers are recorded |
| CiRepairStores.RepairCycle | src/ci-repair.ts:219-281 | the cycle ends in repaired exactly when all four results, recorded or fresh, passed on one head |
| CiRepairStores.Verify | src/ci-repair/runtime.ts:275-290 | local checks and review pass exactly when the recorded or fresh verdicts do, and recorded ones are not asked again |
| Packing.PackCandidates | src/hybrid-retrieval.ts:135-173 | the pack, dropped, invalid and sanitized lists are the declarative ones, the context is the rendering of the pack and stays within the budget |
| Packing.EveryInputAccountedFor | src/hybrid-retrieval.ts:137-171 | every input is exactly one of packed, dropped, invalid, sanitized and duplicate; the pack is in sort order with distinct payloads |
| Packing.NothingDroppedFits | src/hybrid-retrieval.ts:166-168 | no dropped candidate could be appended to the final pack |
| Packing.RankedLaws | src/hybrid-retrieval.ts:159-159 | ranking permutes the candidates into the order of score, path, start line and text |
| Packing.BetterFirst | src/hybrid-retrieval.ts:159-159 | better scores come first, equal ones by path, line and text |
| Packing.SortedOut | src/hybrid-retrieval.ts:139-158 | a candidate is rejected exactly when malformed and left out exactly when well formed and showing something secret |
| Packing.NothingRiskyPacked | src/hybrid-retrieval.ts:150-170 | whatever is packed came in, is well formed and shows nothing secret |
| Packing.DuplicatesRepeat | src/hybrid-retrieval.ts:161-165 | a duplicate repeats an earlier candidate that is written down alike |
| Packing.LocatorsHide | src/hybrid-retrieval.ts:140-141 | a rejected path is shown unless it looks like a secret |
| Packing.EstimateInserted | src/knowledge-repositories/tokenize.ts:56-68 | inserting text never lowers the token estimate |
| Packing.EstimateIs | src/knowledge-repositories/tokenize.ts:56-68 | plain text counts one token per four characters begun, ideographs one each, a mixture at most its parts together |
| RawMetadata.Copier.BoundedString | src/eval/usage.ts:108-115 | a text is copied and paid for, or marked as truncated with the character budget emptied |
| RawMetadata.Copier.Visit | src/eval/usage.ts:117-167 | when the unlimited copy fits the budgets left, it is the result at exactly its cost; otherwise the copy spends at least what it emits, stays within depth and width and agrees with the input wherever it is not marked; open objects are restored |
| RawMetadata.BoundRawMetadata | src/eval/usage.ts:99-170 | on any value, cyclic or not, the copy is free of truncation exactly when the copy without limits keeps them all, and is then that copy; else it holds at most 512 values, 11 nested collections, 128 entries and a truncation each and 32768 input characters, agreeing with the input wherever unmarked |
| RawMetadata.UntruncatedIsWhole | src/eval/usage.ts:117-167 | anything that agrees with the input and holds no truncation is the copy without limits |
| AttemptUsage.CollectAttempts | src/eval/report.ts:335-355 | the runtime attempts and the last usage report of each |
| AttemptUsage.AttemptTells | src/eval/report.ts:196-200 | attempts have a stage and a number, and are told apart by them |
| AttemptUsage.CountedWhen | src/eval/report.ts:335-448 | the attempts counted are those some event shows at work, and a total is there exactly when one contributes and it stays within the largest number |
| AttemptUsage.LastReportCounts | src/eval/report.ts:350-355 | the last usage report of an attempt is the one that counts |
| AttemptUsage.OnlyReportsCount | src/eval/report.ts:350-355 | an attempt without a usage report has none |
| AttemptUsage.PartsMean | src/eval/report.ts:357-421 | tokens count when nothing is malformed and all that is given agrees, costs when they are amounts of their kind from a traced source of that kind |
| AttemptUsage.KnownWhen | src/eval/report.ts:374-424 | an attempt is known when it adds to a total, gives one side of its tokens, or has a traced unknown cost |
| AttemptUsage.AddUp | src/eval/report.ts:356-438 | the totals over the reports are independent of their order and stop being usable past the largest number |
| AttemptUsage.DeriveUsage | src/eval/report.ts:324-487 | known plus unknown attempts are the distinct runtime attempts, and a cost is reported exactly when every runtime attempt has one of that kind |
| AttemptUsage.CostLeavesNothingUnknown | src/eval/report.ts:422-487 | an attempt that contributes to a total is known, so a sample that reports a cost has no unknown attempts, and it never reports both kinds of cost |
| CohortReport.SelectCohortSamples | src/eval/report.ts:564-578 | the loop computes the declarative selection |
| CohortReport.SelectIsBest | src/eval/report.ts:564-578 | each case with a sample of the cohort gets one of its samples that no other exceeds |
| CohortReport.AggregateIgnoresOrder | src/eval/report.ts:580-641 | under any key that tells samples apart, permuting or repeating samples leaves the whole summary, reviewers included, as it is |
| CohortReport.SummaryCounts | src/eval/report.ts:580-641 | rates count the selected cases and those with the property, and each case has exactly one outcome |
| CohortReport.BoundedSumExact | src/eval/report.ts:167-181 | a sum of amounts is exact unless it passes the largest number |
| CohortReport.AverageMeans | src/eval/report.ts:543-562 | an average is comparable exactly when there are values, none is missing and the sum stays finite, and is then their mean |
| CohortReport.ValuesMean | src/eval/report.ts:658-690 | for each metric the value compared is the share of samples or the mean of amounts that are all known |
| CohortReport.ReviewValuesMean | src/eval/report.ts:610-690 | the five reviewer values are those over the scores of all samples that have one |
| CohortReport.UsageSums | src/eval/report.ts:584-636 | attempts are summed up to the largest safe integer and tokens over the samples that know them |
| CohortReport.VerdictMonotone | src/eval/report.ts:692-741 | improving the candidate in the measures with thresholds can clear regressions and never cause one |
| CohortReport.SameSamplesNeverRegress | src/eval/report.ts:885-910 | in all twelve metrics a cohort compared with the same samples, in any order and number, never regresses |
| SampleKey.StableKeyTells | src/eval/report.ts:758-775 | two samples have the same stable key only if they are the same sample |
| SampleKey.StableAggregate | src/eval/report.ts:564-641 | so under the stable key permuting or repeating samples changes no summary |
| ReviewerTotals.CountCategories | src/eval/reviewer.ts:324-329 | the nested loops count each category as often as it was found |
| ReviewerTotals.ReviewIsSound | src/eval/reviewer.ts:262-301 | the score of any reviewer output has no more detections than defects nor false positives than findings, and its two verdict flags fit the case |
| ReviewerTotals.ReviewsAddUp | src/eval/reviewer.ts:303-358 | cases and false positives divide into known-good and defective ones, and each finding has one category |
| ReviewerTotals.RecallLaws | src/eval/reviewer.ts:345-346 | both recalls lie in [0, 1] and are one exactly when every case had all its (critical) defects detected |
| ReviewerTotals.FalsePositiveLaws | src/eval/reviewer.ts:347-347 | the false-positive rate lies in [0, 1] and is zero exactly when no case had a false positive |
| ReviewerTotals.VerdictLaws | src/eval/reviewer.ts:354-355 | both verdict rates lie in [0, 1] and are zero exactly when no case was passed or failed wrongly |
| CohortComparison.DuplicateCaseIds | src/eval/report.ts:777-794 | the loop finds exactly the cases with more than one sample of the cohort |
| CohortComparison.CoverageSufficesIff | src/eval/report.ts:901-937 | coverage suffices exactly when both manifests pose the same cases in the same way and each has exactly one sample on either side |
| CohortComparison.CoveredIgnoresKey | src/eval/report.ts:840-967 | a report whose coverage suffices is the same under any stable key, as no case had a choice of samples |
| CohortComparison.RelabelledNeverRegress | src/eval/report.ts:840-967 | replaying the baseline's very samples under the candidate's cohort id is never reported as a regression, and with sufficient coverage the two summaries are equal |
| CohortComparison.ReportMeans | src/eval/report.ts:692-956 | regression exactly when every case is covered and some metric is beyond its threshold, passed exactly when covered, with thresholds, all known and within |

## Left out

- SQLite, the file system, git, sessions and processes: tables and files are maps with atomic steps; timestamps are integers and wall clocks are parameters.
- sha256 is taken to be injective, so a digest is modelled by what it digests; random ids and file suffixes are fresh.
- Strings are ordered by code points instead of UTF-16 units, lower-casing is ASCII only, and `localeCompare` is that same total order.
- The regular expressions behind `redactText`, `isSensitiveKey`, `sensitiveRetrievalText` and `classifyCiFailure`, and the zod schemas: parameters or inputs of the model.
- Floating point: sign test, Wilson interval, rates and costs are exact integers and reals; the square root is any number whose square is the radicand; overflow is modelled only where the code checks for it in usage sums and averages.
- Coordination notes (`coordination.jsonl`), `changeMutationDomains` and the evidence text built from them.
- Stored claim records are values; of their JSON text only the length is modelled.
- Artifact keys are pairs instead of strings joined by a NUL; redaction is a function on strings that leaves `sha256` alone, and redacted field names are not modelled.
- The registry's hard-link exception path, inspection of unsafe files, and symbolic links.
- Pruning of the runs, logs and evidence categories, expiry dates, and the order of files within one phase.
- `redactUnknownValue` itself, which has no cycle guard; only the collection of secrets is modelled.
- Numbers in JSON are given by their shortest decimal text, so non-finite numbers and negative zero do not occur, and lone surrogates do not exist in the model's strings.
- The diagnosis text, event log, evidence file and human decisions of a CI repair.
- The flow-digest, stage-selection, cohort-id and coverage-list checks of routing are one flag each, and a task contract is its canonical text; rationale texts and timestamps are not modelled.
- Candidate validation and payload text of packing are parameters; embeddings and benchmarks are not modelled.
- Fields of a bounded copy are a sequence of assignments, so two keys that collide after truncation are counted twice.
- Finding texts, matches and provenance of a reviewer score are not in the modelled sample, and so not in its stable key; amounts are reals and their printing is a parameter that tells them apart.
- The text of a cohort comparison, and how samples are read from event logs.
- Latency quantiles, corpus assessment and token usage of a reviewer scorecard, which add only easy members.
- CiRepairStores.SubmitCiRepair: the guarded mutation's answer is an input here; its interleaving is modelled by the CiRepair state machine.
- CiRepair.RecordsNeverChange: no driver starts beside another, because overlapping drivers can overwrite a verdict, as CiRepairRuns.OverlapOverwritesVerdict shows; CiRepair.OnlyBehindTakesBack is the part that holds in every interleaving.
- Wakes.LeasesNeverOverlap: the first clause is for claiming clocks that do not run backwards, as a lease is only as good as its clock.
- ReviewerComparison.MetricMirror: a ground-truth hash stands for what it hashes, and an outcome with one is taken to have been listed by a scorecard.
- Retention.RunDirectory.DeleteRunEvents: only the test for the last index is modelled; that the history has expired, is still the planned one and belongs to a terminal run is tested as well.
- `src/cli.ts` and `src/cli/*`, connectors, the demo, flow catalogues, the factory queue and skill improvement: input, output and one-branch facts.
