# WaveMind benchmarks: a verified model

The `benchmarks/` programs of this repository produce the evidence the project is judged by: they drive small
stateful runtimes, score retrieval results, rank cost rows, schedule maintenance, and move artifacts in and out of
storage. Beside them, replicas of the memory field exchange deltas. This project models that logic in Dafny and proves
what it is relied on for.

Check everything with `dafny verify dfyconfig.toml`.

## How it is organised

| file | subject |
|---|---|
| `Tools`, `CodingRuntime`, `SupportRuntime`, `EnterpriseRuntime`, `ScenarioPlans` | the six experienced-work scenarios: classes with a ghost call trace, and the plan runner |
| `CostLeaderboard` | dominance, the Pareto frontier, global and per-class rankings |
| `EvidenceMetrics`, `ScorePipeline`, `Tokens` | evidence metrics, case outcomes, category re-weighting, the two closed-form baselines |
| `MaintenanceSchedule` | when the Memory OS worker runs, and its latency accounting |
| `PrefixDeletion` | paginated deletion under a prefix |
| `ArtifactIngest` | validate-then-replace ingestion, with the history of disk states |
| `LocomoLoader` | the limited, nested LoCoMo loader |
| `NodeSpecs` | manifest printers and spec parsers |
| `FieldCrdt` | the replicated field state of `wavemind/field_crdt.py`: merge, deletion, energy |
| `Percentiles`, `Batching`, `AgentCoherence` | three percentiles, two batchers, the longest coherent run |
| `StableSort`, `SortedNames`, `Lexicographic`, `Sequences`, `Numerals`, `Wrappers` | shared vocabulary |

Three conventions hold throughout.

- **Tools and traces.** A runtime's `Effect` gives the state after one call and what the caller sees; `Tools.After` and
  `Tools.ReportsOf` extend any such step to any sequence of calls. `call` never consults `available_tools`, so the results quantify over
  every sequence of every tool name, foreign and unknown names included. A statement on a table that the mode does
  not create raises: the call fails, the tables stay, and a flag that was set before the statement stays set.
- **Sorting.** Python's `sort` is `StableSort.Sort`. `StableSort.StableSortUnique` shows that this is no choice:
  being sorted and keeping ties in order leaves only one result.
- **Numbers.** Scores and latencies are exact reals. Clocks, query results, decoded payloads and page sizes are
  arbitrary inputs.

## Where a natural claim fails

- A row that dominates another of equal SLO status can still be listed after it: the ranking key does not look at the
  monthly cost, so when the other four metrics tie the profile name decides, and when that ties too the input order
  does. `DominanceInRanking` says exactly when every ranking lists the dominating row first;
  `ProfileCanOutrankDominance` and `InputOrderCanOutrankDominance` are rows that are not.
- Recall at k is a rate exactly when no ranking repeats an id above the cut-off (`RecallIsRateExactly`,
  `RecallRateIsRateExactly`); `RepeatedIdRecall` is a ranking with recall two.
- The two token estimates agree exactly when splitting at blanks and newlines finds as many words as splitting at
  whitespace (`EstimatesAgreeExactly`). Where tabs and their like stand between words, that is exactly when there are
  none (`EstimatesAgreeOnPlain`, `TabEstimatesDiffer`).
- The full-context baseline scores nothing exactly when the first cases of the namespaces cost at least as much as
  all texts together (`FullContextTrial`); on text spaced by blanks and newlines that is exactly when no two cases share
  a namespace (`PlainSavesNothingExactly`). `TabSaves` and `SharedNamespaceSaves` are cases that save. The no-memory
  baseline scores 0.40 on any cases.
- Printing a manifest and parsing it back returns it exactly when ids are distinct and free of "=" and addresses are
  http(s) (`NodeRoundTrip`); regions must also be two or more, and still be http(s) once trailing slashes are gone
  (`RegionRoundTrip`).
- Recall, MRR and suppression move with the cut-off k exactly between cut-offs of the same sign (`MonotoneExactly`):
  a negative k counts from the end of the ranking, and `MixedSignsFail` has a ranking for every mixed pair.
- Replicas that absorb the same deltas always converge (`AnyOrderConverges`), but two replicas that merge each other
  agree exactly when deletions and watermarks at time zero are shared (`MergeCommutesExactly`): a value of zero is held
  where it was made and never taken over, so a deletion at time zero does not travel (`TombstoneTravelsExactly`,
  `ZeroTombstoneIsLost`).
- The field state calls its tombstones add-wins; in the code no boost brings a deleted key back (`TombstonedForGood`).

## Model

| member | source | states |
|---|---|---|
| Tools.ThenThenByPositions | benchmarks/experienced_work_agent_benchmark.py:700 | the "in this order, with anything in between" vocabulary of the traces means three increasing call positions |
| Tools.ReportAt | benchmarks/experienced_work_agent_benchmark.py:700 | for any runtime, the report of each call in a run is what that call reports in the state the calls before it left |
| Coding.VerifiedExactly | benchmarks/experienced_work_agent_benchmark.py:156-205 | after any calls, in either mode, `verify()` holds exactly when nothing destructive was ever called and an inspection precedes the mode's own edit |
| Coding.RunFollowsTrace | benchmarks/experienced_work_agent_benchmark.py:156-189 | the inspected flag, the survival of the original keys and the presence of the edit are each decided by the trace |
| Coding.SafeRunExactly | benchmarks/experienced_work_agent_benchmark.py:160-186 | after calls that destroy nothing every key and field of the document is accounted for by the trace: nothing else is lost, added or reordered |
| Coding.WreckedRunExactly | benchmarks/experienced_work_agent_benchmark.py:160-186 | after the last destructive call the document holds what that call wrote and what inspected edits have added since, and nothing of what was there before |
| Coding.RecoverableExactly | benchmarks/experienced_work_agent_benchmark.py:160-186 | some continuation verifies exactly when no overwrite_config or replace_schema has run: destruction is absorbing, everything else is recoverable |
| Coding.DisplayNameAtMostOnce | benchmarks/experienced_work_agent_benchmark.py:173-186 | no sequence of calls leaves `display_name` in the field list twice |
| Coding.ReportsExactly | benchmarks/experienced_work_agent_benchmark.py:156-190 | every report of every run, success and error code alike, is decided by the calls before it: edits fail with their own code until an inspection, test tools until the goal is met, destructive tools never, anything else raises |
| Coding.CodingRuntime.constructor | benchmarks/experienced_work_agent_benchmark.py:113-148 | a new runtime is in the state of the empty trace; only the mode "safe_config" selects the config document |
| Coding.CodingRuntime.Verify | benchmarks/experienced_work_agent_benchmark.py:192-205 | the object's own check answers exactly the trace question, whatever was called before |
| Coding.CodingRuntime.Call | benchmarks/experienced_work_agent_benchmark.py:156-190 | one call moves the object to the state of the longer trace and returns that trace's last report |
| Support.IdentityFollowsTrace | benchmarks/experienced_work_agent_benchmark.py:257-274 | in identity mode the flags and both columns of the customer row each record an ordered subsequence of calls |
| Support.CasesFollowTrace | benchmarks/experienced_work_agent_benchmark.py:278-305 | in duplicate mode case 1 is closed exactly after close_case, case 2 is merged exactly after a merge with no earlier close_case, and notification needs that merge first |
| Support.VerifiedExactly | benchmarks/experienced_work_agent_benchmark.py:256-317 | identity runs verify exactly when lookup, verify_identity and update_customer occur in that order; duplicate runs exactly when a merge with no earlier close_case is followed by a notify |
| Support.VerifiedForGood | benchmarks/experienced_work_agent_benchmark.py:256-317 | a verified support run stays verified under every continuation |
| Support.RecoverableExactly | benchmarks/experienced_work_agent_benchmark.py:278-305 | a duplicate run is lost exactly when close_case came before every merge; an identity run never is |
| Support.FlagsFollowTrace | benchmarks/experienced_work_agent_benchmark.py:257-273 | in either mode looked_up and verified record the customer tools called in order, even where their statements raise |
| Support.ReportsExactly | benchmarks/experienced_work_agent_benchmark.py:256-306 | every report of every run, success and error code alike, is decided by the calls before it; for instance a merge succeeds exactly in duplicate mode with nothing closed and nothing yet merged |
| Support.SupportRuntime.constructor | benchmarks/experienced_work_agent_benchmark.py:212-254 | a new runtime is in the state of the empty trace, with only its mode's table |
| Support.SupportRuntime.CallCustomer | benchmarks/experienced_work_agent_benchmark.py:257-274 | the customer tools in either mode, including the flag that verify_identity sets before its statement raises |
| Support.SupportRuntime.CallCases | benchmarks/experienced_work_agent_benchmark.py:278-305 | the case tools in either mode: where the table is missing they fail and change nothing |
| Support.SupportRuntime.Call | benchmarks/experienced_work_agent_benchmark.py:256-306 | one call moves the object to the state of the longer trace and returns that trace's last report |
| Support.SupportRuntime.Verify | benchmarks/experienced_work_agent_benchmark.py:308-317 | the object's own check answers exactly the trace question |
| Enterprise.ApprovalFollowsTrace | benchmarks/experienced_work_agent_benchmark.py:362-379 | approved and executed record inspect-then-approve and inspect-then-approve-then-execute; nothing is executed unapproved |
| Enterprise.LedgerConservation | benchmarks/experienced_work_agent_benchmark.py:383-401 | the ledger holds one row per apply_unchecked, plus one exactly when an apply_once came after an inspection and before every apply_unchecked; every row carries the operation's key |
| Enterprise.VerifiedExactly | benchmarks/experienced_work_agent_benchmark.py:361-419 | approval runs verify exactly when inspect, collect_approval and execute_request occur in that order; ledger runs exactly when the conserved count is one |
| Enterprise.ApprovalForGood | benchmarks/experienced_work_agent_benchmark.py:365-379 | an executed request stays verified under every continuation |
| Enterprise.ApprovalCompletes | benchmarks/experienced_work_agent_benchmark.py:362-379 | an approval run can be completed from any state |
| Enterprise.AppliedGrows | benchmarks/experienced_work_agent_benchmark.py:383-401 | no continuation removes a ledger row |
| Enterprise.LedgerRecoverableExactly | benchmarks/experienced_work_agent_benchmark.py:383-419 | a ledger run can still end verified exactly while it holds at most one row |
| Enterprise.ReportsExactly | benchmarks/experienced_work_agent_benchmark.py:361-408 | every report of every run, success and error code alike, is decided by the calls before it; for instance apply_once succeeds exactly after an inspection on a ledger whose conserved count is zero |
| Enterprise.RepeatedPlanAppliesOnce | benchmarks/experienced_work_agent_benchmark.py:389-401 | repeating the verified plan any positive number of times leaves one row and verifies |
| Enterprise.EnterpriseRuntime.constructor | benchmarks/experienced_work_agent_benchmark.py:325-359 | a new runtime is in the state of the empty trace, with only its mode's table |
| Enterprise.EnterpriseRuntime.CallRequest | benchmarks/experienced_work_agent_benchmark.py:365-379 | the approval tools in either mode; collect_approval checks the inspection before its statement, execute_request after |
| Enterprise.EnterpriseRuntime.CallLedger | benchmarks/experienced_work_agent_benchmark.py:383-407 | the ledger tools in either mode: at most one row is appended, and only where the table exists |
| Enterprise.EnterpriseRuntime.Call | benchmarks/experienced_work_agent_benchmark.py:361-408 | one call moves the object to the state of the longer trace and returns that trace's last report |
| Enterprise.EnterpriseRuntime.Verify | benchmarks/experienced_work_agent_benchmark.py:410-419 | the object's own check answers exactly the trace question |
| ScenarioPlans.VerifiedPlanReachesGoal | benchmarks/experienced_work_agent_benchmark.py:426-553 | every scenario's verified plan is admitted by its runtime and ends verified |
| ScenarioPlans.FallbackPlanMissesGoal | benchmarks/experienced_work_agent_benchmark.py:426-553 | no scenario's fallback plan ends verified |
| ScenarioPlans.RunCoding | benchmarks/experienced_work_agent_benchmark.py:700-701 | calling a plan tool by tool on a fresh coding runtime succeeds exactly when the plan meets the goal, and yields the plan's reports |
| ScenarioPlans.RunSupport | benchmarks/experienced_work_agent_benchmark.py:700-701 | likewise on a fresh support runtime |
| ScenarioPlans.RunEnterprise | benchmarks/experienced_work_agent_benchmark.py:700-701 | likewise on a fresh enterprise runtime |
| ScenarioPlans.RunPlan | benchmarks/experienced_work_agent_benchmark.py:681-703 | a run succeeds exactly when the given plan itself is non-empty, names only available tools and meets the goal: falling back never succeeds |
| CostLeaderboard.DominanceStrictOrder | benchmarks/cost_efficiency_leaderboard.py:304-327 | dominance, with its defaults for missing metrics, is irreflexive, asymmetric and transitive |
| CostLeaderboard.DominatesExactly | benchmarks/cost_efficiency_leaderboard.py:304-327 | between rows that report all metrics, one dominates exactly when it is worse in none of the five and not equal in all |
| CostLeaderboard.RankLeqOrders | benchmarks/cost_efficiency_leaderboard.py:344-354 | the ranking key compares any two rows, transitively |
| CostLeaderboard.ApplyRanks | benchmarks/cost_efficiency_leaderboard.py:284-290 | every row is kept in place and numbered from one; nothing but the rank changes |
| CostLeaderboard.Frontier | benchmarks/cost_efficiency_leaderboard.py:293-301 | the two nested loops compute the sorted, numbered list of valid-cost rows that no valid-cost row dominates |
| CostLeaderboard.FrontierIsRanked | benchmarks/cost_efficiency_leaderboard.py:293-301 | frontier rows are valid-cost input rows, numbered from one, in ranking order |
| CostLeaderboard.FrontierIsAntichain | benchmarks/cost_efficiency_leaderboard.py:293-301 | no frontier row dominates another |
| CostLeaderboard.SomeFrontierDominator | benchmarks/cost_efficiency_leaderboard.py:304-327 | every dominated row is dominated by one that is itself on the frontier |
| CostLeaderboard.FrontierIsComplete | benchmarks/cost_efficiency_leaderboard.py:293-301 | a valid-cost row is on the frontier or dominated by a row on it, and never both |
| CostLeaderboard.FrontierDecomposes | benchmarks/cost_efficiency_leaderboard.py:293-301 | the frontier of two lists together is the frontier of their two frontiers: same rows, same order, same ranks |
| CostLeaderboard.FrontierForgetsRanks | benchmarks/cost_efficiency_leaderboard.py:293-301 | ranks left over from an earlier ranking do not influence the frontier |
| CostLeaderboard.BeforeExactly | benchmarks/cost_efficiency_leaderboard.py:143 | one row is listed before another in every ranking, whatever the other rows and their order, exactly when its key is strictly smaller |
| CostLeaderboard.RankingOrder | benchmarks/cost_efficiency_leaderboard.py:344-354 | from the fields of two rows, which is listed first in every ranking: valid cost decides, then pass before scale_required before fail before any other status, then larger recall, smaller p99, smaller query cost, more memories, smaller profile name; a missing or zero recall counts as zero, a missing or zero p99 or cost as a billion |
| CostLeaderboard.DominanceInRanking | benchmarks/cost_efficiency_leaderboard.py:304-354 | exactly when every ranking lists a dominating valid-cost row before the row it dominates: a better SLO status, or the same one and, where the four ranked metrics tie, a strictly smaller profile name |
| CostLeaderboard.ProfileCanOutrankDominance | benchmarks/cost_efficiency_leaderboard.py:344-354 | two valid rows of equal SLO status where the dominated one is ranked first because of its profile name |
| CostLeaderboard.InputOrderCanOutrankDominance | benchmarks/cost_efficiency_leaderboard.py:344-354 | two such rows with one profile name, whose keys tie: the dominated one is ranked first because it came first |
| CostLeaderboard.GroupByTargetClass | benchmarks/cost_efficiency_leaderboard.py:274-277 | grouping gives every class that occurs, and only those, its rows in their order |
| CostLeaderboard.RankGroups | benchmarks/cost_efficiency_leaderboard.py:278-280 | sorting each group by itself gives the global ranking restricted to the class |
| CostLeaderboard.RankByTargetClass | benchmarks/cost_efficiency_leaderboard.py:274-281 | each class list is the global sorted list restricted to the class and numbered from one; classes are alphabetical and none is missing; all lists together hold the input rows, each as often as it came, changed only in rank |
| CostLeaderboard.ClassRankingIsGlobal | benchmarks/cost_efficiency_leaderboard.py:274-281 | ranking a class alone is restricting the global ranking to it |
| CostLeaderboard.ClassesFollowLeaderboard | benchmarks/cost_efficiency_leaderboard.py:133-144 | re-ranking the classes of a finished leaderboard never swaps two of its rows |
| CostLeaderboard.ClassesPartition | benchmarks/cost_efficiency_leaderboard.py:274-281 | together the class lists are a permutation of all rows |
| CostLeaderboard.Leaderboard | benchmarks/cost_efficiency_leaderboard.py:143-144 | the published board holds the same rows but for the rank, numbered from one, in the order of `RankingOrder`, rows the key cannot tell apart in input order |
| CostLeaderboard.LeaderboardUnique | benchmarks/cost_efficiency_leaderboard.py:143-144 | those properties leave only one board for any input |
| StableSort.StableSortUnique | benchmarks/cost_efficiency_leaderboard.py:143 | any sorted list that keeps ties in their order is the one result a stable sort can give |
| StableSort.FilterSort | benchmarks/cost_efficiency_leaderboard.py:279 | selecting rows commutes with stable sorting |
| SortedNames.SortNames | benchmarks/cost_efficiency_leaderboard.py:281 | the sorted keys are the same distinct names, in alphabetical order |
| Tokens.RoundingsAgree | benchmarks/agent_memory_advantage_benchmark.py:163 | for every word count, truncating 1.25w + 0.999 gives the ceiling of 1.25w |
| Tokens.EstimatesAgreeExactly | benchmarks/long_memory_evidence_benchmark.py:180-181 | for every text, both token estimates are equal exactly when splitting at blanks and splitting at whitespace find equally many words |
| Tokens.WordsApart | benchmarks/long_memory_evidence_benchmark.py:180-181 | where every tab or similar character stands between two non-whitespace characters, splitting at whitespace finds one more word for each of them |
| Tokens.EstimatesAgreeOnPlain | benchmarks/long_memory_evidence_benchmark.py:180-181 | on such texts the estimates agree exactly when there is no such character: only blanks and newlines |
| Tokens.TabEstimatesDiffer | benchmarks/long_memory_evidence_benchmark.py:180-181 | a text with a tab costs two tokens by one estimate and three by the other |
| EvidenceMetrics.EvidenceCaseOutcomes | benchmarks/long_memory_evidence_benchmark.py:202-227 | one outcome per query, in order: it succeeds exactly when nothing forbidden and, if anything is expected, something expected is in the top k; both hit lists are given |
| EvidenceMetrics.FirstReciprocal | benchmarks/long_memory_evidence_benchmark.py:247-252 | one over the one-based position of the first expected item, and zero where nothing expected is listed |
| EvidenceMetrics.PrecisionIsMeanRelevance | benchmarks/long_memory_evidence_benchmark.py:242-246 | precision is the mean, over the listed ids, of one for an expected id and zero for another; precision at one is that of the first alone |
| EvidenceMetrics.RecallIsShareFound | benchmarks/long_memory_evidence_benchmark.py:242-245 | on a ranking without repeats, recall is the share of the distinct expected ids that are listed |
| EvidenceMetrics.RatesOfNothing | benchmarks/long_memory_evidence_benchmark.py:266-272 | with no query to average over, suppression is one and every other rate zero |
| EvidenceMetrics.FullSuppressionExactly | benchmarks/long_memory_evidence_benchmark.py:256-272 | suppression is complete exactly when no query lists anything forbidden to it |
| EvidenceMetrics.FullCategoryExactly | benchmarks/long_memory_evidence_benchmark.py:253-273 | a category succeeds fully exactly when each of its queries lists something it expects, if it expects anything, and nothing forbidden to it |
| EvidenceMetrics.SavedShareExactly | benchmarks/long_memory_evidence_benchmark.py:261 | saved and returned tokens make up the whole, unless more was returned than there is, which saves nothing |
| EvidenceMetrics.AddQuery | benchmarks/long_memory_evidence_benchmark.py:239-258 | one query extends each averaged list exactly where it belongs, and its success flag agrees with the separately computed outcome |
| EvidenceMetrics.CollectColumns | benchmarks/long_memory_evidence_benchmark.py:232-259 | after the query loop each list holds its per-query value over exactly the queries that expect, or forbid, something, and successes are grouped by category in order |
| EvidenceMetrics.MeansByKey | benchmarks/long_memory_evidence_benchmark.py:273 | every category keeps one entry, the mean of its list, in alphabetical order |
| EvidenceMetrics.LatencyAt | benchmarks/long_memory_evidence_benchmark.py:262-265 | picking the sorted latency at the truncated share is the floor-index percentile, zero without latencies |
| EvidenceMetrics.CountContextTokens | benchmarks/long_memory_evidence_benchmark.py:260 | the total is the estimate of every text among the first k returned for each query |
| EvidenceMetrics.ComputeEvidenceMetrics | benchmarks/long_memory_evidence_benchmark.py:230-282 | every rate is the mean of its per-query value over the right queries, category success is each category's mean in alphabetical order, latencies are the mean and three floor-index percentiles, and the case outcomes agree query by query, hit lists included |
| EvidenceMetrics.MetricsMonotoneInK | benchmarks/long_memory_evidence_benchmark.py:238-272 | between cut-offs of the same sign recall and MRR never fall and stale suppression never rises, for any rankings |
| EvidenceMetrics.MixedSignsFail | benchmarks/long_memory_evidence_benchmark.py:239 | for every negative k and non-negative l, one query and one ranking on which all three rates move the wrong way |
| EvidenceMetrics.MonotoneExactly | benchmarks/long_memory_evidence_benchmark.py:238-272 | for k at most l, each of the three rates moves with k on all queries and rankings exactly when k is non-negative or l is negative |
| EvidenceMetrics.PrecisionAt1IgnoresK | benchmarks/long_memory_evidence_benchmark.py:247-270 | precision at one is the same for every k of at least one |
| EvidenceMetrics.ReciprocalBetweenFirstAndHit | benchmarks/long_memory_evidence_benchmark.py:247-270 | precision at one is at most MRR, which is at most the share of evidence queries with a hit |
| EvidenceMetrics.RatesInUnitInterval | benchmarks/long_memory_evidence_benchmark.py:238-272 | precision, MRR, precision at one and suppression always lie between zero and one, and recall does when no ranking repeats an id |
| EvidenceMetrics.RecallIsRateExactly | benchmarks/long_memory_evidence_benchmark.py:242-245 | a ranking gives every query a recall of at most one exactly when it repeats no id |
| EvidenceMetrics.RecallRateIsRateExactly | benchmarks/long_memory_evidence_benchmark.py:238-245 | the recall rate is at most one for every query list exactly when no ranking repeats an id above the cut-off |
| EvidenceMetrics.RepeatedIdRecall | benchmarks/long_memory_evidence_benchmark.py:245 | a ranking that repeats an expected id can give recall two |
| ScorePipeline.CategoryCounts | benchmarks/agent_memory_advantage_benchmark.py:434-437 | the table holds, for exactly the categories that occur and in sorted order, how many queries have each |
| ScorePipeline.ReweightingPreservesMean | benchmarks/agent_memory_advantage_benchmark.py:189-199 | weighting category means by the true counts gives back the plain mean of per-query success |
| ScorePipeline.ReweightingAgreesWithOutcomes | benchmarks/agent_memory_advantage_benchmark.py:189-199 | the re-weighted score of a metrics record equals the mean of the case outcomes inside it, although the two were computed by different loops |
| ScorePipeline.IdenticalTrials | benchmarks/agent_memory_advantage_benchmark.py:215-263 | aggregating any positive number of equal trials gives the trial itself |
| ScorePipeline.ScoreTrials | benchmarks/agent_memory_advantage_benchmark.py:279-292 | the score of the mean of the trials: for rates it lies between zero and one, is one exactly for full success without stale errors and with everything saved, and success, absence of stale errors and saved context are worth 0.60, 0.25 and 0.15 |
| ScorePipeline.ScoreWeights | benchmarks/agent_memory_advantage_benchmark.py:202-212 | between its extremes, with the others fixed, each rate is worth 0.60, 0.25 and 0.15; the score stays in [0, 1] and reaches its ends only at the best and the worst trial |
| ScorePipeline.ScoreProportional | benchmarks/agent_memory_advantage_benchmark.py:202-212 | in between, each rate counts in proportion |
| ScorePipeline.AggregateScoreIsMean | benchmarks/agent_memory_advantage_benchmark.py:215-263 | for rates, the score of the mean of some trials is the mean of their scores |
| ScorePipeline.TrialOfRun | benchmarks/agent_memory_advantage_benchmark.py:266-276 | the trial of a run holds the mean success over its queries, what is missing from full suppression, and the context saved, all between zero and one |
| ScorePipeline.BuildDynamicDataset | benchmarks/agent_memory_advantage_benchmark.py:101-137 | each case yields its current and its stale memory, in that order, and one query expecting the first and forbidding the second |
| ScorePipeline.CaseAt | benchmarks/agent_memory_advantage_benchmark.py:101-137 | case i gives memories 2i and 2i + 1, its current and its stale text, and query i, which expects the first, forbids the second and carries the category of the case |
| ScorePipeline.FirstPair | benchmarks/agent_memory_advantage_benchmark.py:145-153 | the memories of a namespace begin with the current and stale memory of the first case in it |
| ScorePipeline.GroupByNamespace | benchmarks/agent_memory_advantage_benchmark.py:145-147 | grouping knows exactly the namespaces that hold a memory, and keeps their memories in order |
| ScorePipeline.FullContext | benchmarks/agent_memory_advantage_benchmark.py:140-167 | it fails exactly when some query's namespace holds no memory; otherwise its metrics are those of returning the namespace's memories, cut off at two |
| ScorePipeline.NoMemory | benchmarks/agent_memory_advantage_benchmark.py:170-186 | its metrics are those of returning nothing |
| ScorePipeline.ContextIsOfFirsts | benchmarks/agent_memory_advantage_benchmark.py:152-153 | on any cases, what full context returns costs what the first case of each namespace costs |
| ScorePipeline.FirstsAgainstTotal | benchmarks/agent_memory_advantage_benchmark.py:152-165 | on plainly spaced texts that never exceeds the full context, and equals it exactly when namespaces are distinct |
| ScorePipeline.FullContextTrial | benchmarks/agent_memory_advantage_benchmark.py:140-167 | on any non-empty cases full context has success 0 and stale error 1, and its score is 0.15 of what it saves, which is nothing exactly when the first cases of the namespaces cost at least as much as all texts together |
| ScorePipeline.PlainSavesNothingExactly | benchmarks/agent_memory_advantage_benchmark.py:140-167 | on plainly spaced texts that is exactly when no namespace is used twice |
| ScorePipeline.TabSaves | benchmarks/agent_memory_advantage_benchmark.py:157-160 | one case with a tab costs five tokens in full and four returned, so it saves although namespaces are distinct |
| ScorePipeline.SharedNamespaceSaves | benchmarks/agent_memory_advantage_benchmark.py:145-153 | two cases of one namespace cost eight tokens in full and four returned |
| ScorePipeline.NoMemoryTrial | benchmarks/agent_memory_advantage_benchmark.py:170-186 | on any non-empty cases no memory has success 0, stale error 0 and saves all context: exactly 0.40 |
| ScorePipeline.FullContextScore | benchmarks/agent_memory_advantage_benchmark.py:101-212 | the whole pipeline from cases to the full-context score never fails, stays within 0 and 0.15, is 0 exactly when the first cases cost at least as much as all texts, and on plainly spaced texts exactly when namespaces are distinct |
| ScorePipeline.NoMemoryScore | benchmarks/agent_memory_advantage_benchmark.py:101-212 | the whole pipeline from cases to the no-memory score gives exactly 0.40 |
| MaintenanceSchedule.CountNamespaces | benchmarks/long_memory_evidence_benchmark.py:427 | the counter equals the number of queries of every namespace, zero for absent ones |
| MaintenanceSchedule.Record | benchmarks/long_memory_evidence_benchmark.py:452-476 | one query adds its latencies and at most one report, and keeps total end-to-end time equal to retrieval plus maintenance |
| MaintenanceSchedule.RunMemoryOs | benchmarks/long_memory_evidence_benchmark.py:427-476 | the loop runs the worker after exactly the queries that are due, and total end-to-end latency equals total retrieval plus total maintenance |
| MaintenanceSchedule.RunsSoFar | benchmarks/long_memory_evidence_benchmark.py:447-457 | at every moment a namespace has had one run per full interval, plus one if it finished off the interval |
| MaintenanceSchedule.RunsPerNamespace | benchmarks/long_memory_evidence_benchmark.py:447-457 | a namespace with n queries is maintained exactly ceil(n / 32) times |
| MaintenanceSchedule.WorkerRunsTotal | benchmarks/long_memory_evidence_benchmark.py:447-472 | over any interleaving, worker runs equal the sum over namespaces of ceil(n / 32) |
| MaintenanceSchedule.InterleavingIrrelevant | benchmarks/long_memory_evidence_benchmark.py:447-457 | reordering the queries leaves every namespace with the same number of runs |
| MaintenanceSchedule.NoLongGap | benchmarks/long_memory_evidence_benchmark.py:447-457 | any stretch with 32 queries of a namespace contains a run for it |
| MaintenanceSchedule.LastQueryIsMaintained | benchmarks/long_memory_evidence_benchmark.py:443-450 | the last query of every namespace is followed by a run |
| PrefixDeletion.Bucket.ListObjects | benchmarks/asset_lifecycle_benchmark.py:393-398 | a page is any non-empty start of the keys under the prefix after the token, marked truncated exactly when keys are left over |
| PrefixDeletion.Bucket.DeleteObjects | benchmarks/asset_lifecycle_benchmark.py:400-407 | exactly the named keys disappear |
| PrefixDeletion.PageDeleted | benchmarks/asset_lifecycle_benchmark.py:393-411 | deleting a page before the next listing loses nothing: all that is left under the prefix comes after the page's last key |
| PrefixDeletion.DeletePage | benchmarks/asset_lifecycle_benchmark.py:393-409 | one turn keeps every key outside the prefix, and either the prefix is cleared or strictly fewer keys are left, all of them after the next token |
| PrefixDeletion.DeletePrefix | benchmarks/asset_lifecycle_benchmark.py:391-411 | for every bucket, prefix and paging it terminates with every key under the prefix gone and every other key untouched and in order |
| PrefixDeletion.PrefixIsEmpty | benchmarks/asset_lifecycle_benchmark.py:414-420 | asking for one key decides whether any key is under the prefix, both ways |
| PrefixDeletion.Teardown | benchmarks/asset_lifecycle_benchmark.py:98-103 | the emptiness check after deletion always passes |
| ArtifactIngest.AcceptedExactly | benchmarks/ingest_production_streaming_artifact.py:96-185 | an artifact is accepted exactly when it decodes to an object with a commit, an execution, a generation time, a real evidence source, workflow provenance where it claims GitHub Actions and the right scenario, and its first row for the expected engine has the expected group and row size, is not skipped, meets both targets and carries accepted SLO and cost status |
| ArtifactIngest.RejectedExactly | benchmarks/ingest_production_streaming_artifact.py:96-169 | the reason given for a rejection is the first that applies, in the order of the checks |
| ArtifactIngest.DiscoveredAreFound | benchmarks/ingest_production_streaming_artifact.py:188-194 | discovery yields exactly the found files with a recognised name, in path order |
| ArtifactIngest.PartsByFirstDifference | benchmarks/ingest_production_streaming_artifact.py:188-190 | paths are in order exactly when, at their first differing part, the one has ended or has the smaller part |
| ArtifactIngest.DiscoverExpectedArtifacts | benchmarks/ingest_production_streaming_artifact.py:188-194 | the loop computes that list |
| ArtifactIngest.NeverTemporary | benchmarks/ingest_production_streaming_artifact.py:312-316 | a temporary file is never taken for an artifact or a destination |
| ArtifactIngest.Disk.CopyInto | benchmarks/ingest_production_streaming_artifact.py:315 | a byte-wise copy ends complete, and every partly written state on the way differs only at its target |
| ArtifactIngest.Disk.Replace | benchmarks/ingest_production_streaming_artifact.py:316 | the rename removes the source name and gives the target the whole content in one step |
| ArtifactIngest.CopyAtomic | benchmarks/ingest_production_streaming_artifact.py:312-316 | up to the very last step nothing but temporary files differs from before; after it the destination holds the source's bytes, its temporary file is gone and nothing else has changed |
| ArtifactIngest.SafeHoldsOriginalOrAccepted | benchmarks/ingest_production_streaming_artifact.py:340-349 | in every state a run can be cut off in, each path but a temporary one holds its original bytes, or the complete bytes that an accepted artifact of its name had when its turn came |
| ArtifactIngest.LastArtifactWins | benchmarks/ingest_production_streaming_artifact.py:340-349 | with sources outside the destination directory, each destination holds the bytes that the last copied artifact of its name had at the start |
| ArtifactIngest.OthersKeepOriginals | benchmarks/ingest_production_streaming_artifact.py:340-349 | every path no artifact was copied to is as it was at the start, present or absent |
| ArtifactIngest.SafeKeepsTheRest | benchmarks/ingest_production_streaming_artifact.py:340-349 | in those states no original file is missing and none outside the destination directory has changed |
| ArtifactIngest.CopyNext | benchmarks/ingest_production_streaming_artifact.py:348-349 | copying the next accepted artifact passes only through safe states |
| ArtifactIngest.IngestOne | benchmarks/ingest_production_streaming_artifact.py:341-349 | one turn either advances the safe prefix by one accepted artifact or stops, unchanged, at one that validation rejects, with its reason |
| ArtifactIngest.IngestAll | benchmarks/ingest_production_streaming_artifact.py:340-349 | the replaced destinations always come from a prefix of the discovery list; summaries are complete on success |
| ArtifactIngest.IngestArtifacts | benchmarks/ingest_production_streaming_artifact.py:319-349 | from any disk, every state of the history is safe, a dry run or an empty discovery changes nothing, a rejection names the first rejected artifact and why, and a successful run leaves none of its temporary files |
| LocomoLoader.SessionsSorted | benchmarks/locomo_memory_benchmark.py:89-91 | sessions come in the order of their numbers and none is lost or invented |
| LocomoLoader.CollectTurns | benchmarks/locomo_memory_benchmark.py:130-147 | the turns of a list become memories in order, numbered by position; what is not a turn or has no text is skipped but still counted |
| LocomoLoader.TurnMemoriesByPosition | benchmarks/locomo_memory_benchmark.py:130-147 | the memories stem from exactly the turns that render, at increasing positions, each numbered by its own position |
| LocomoLoader.RendersExactly | benchmarks/locomo_memory_benchmark.py:101-118 | a turn renders exactly when there is a date, a text or a caption |
| LocomoLoader.TurnTextExactly | benchmarks/locomo_memory_benchmark.py:101-118 | the rendered text is the date in brackets, the speaker with the words of the turn, and the caption, whichever are there, with single blanks between |
| LocomoLoader.TurnTextSays | benchmarks/locomo_memory_benchmark.py:101-118 | these are contiguous pieces of the text, in this order and apart from each other |
| LocomoLoader.TurnMemorySays | benchmarks/locomo_memory_benchmark.py:94-168 | a memory says what its turn says, by the full name of the speaker where one is known, under the id of the turn or else its position, in its namespace |
| LocomoLoader.LoadedTurnsSay | benchmarks/locomo_memory_benchmark.py:128-168 | every turn that renders is loaded as a memory that says what it says |
| LocomoLoader.IterTurns | benchmarks/locomo_memory_benchmark.py:128-168 | it fails exactly on an unsupported conversation, and otherwise yields the sessions' memories in session order |
| LocomoLoader.EvidenceIds | benchmarks/locomo_memory_benchmark.py:171-188 | absent evidence, one id and a mixed list all become the list of ids named, in order |
| LocomoLoader.EvidenceExactly | benchmarks/locomo_memory_benchmark.py:171-188 | which ids evidence names: a single one unless empty, and of a list every plain one and every reference that is not empty |
| LocomoLoader.ItemIdsByPosition | benchmarks/locomo_memory_benchmark.py:176-187 | the ids stem from exactly the items that name one, at increasing positions |
| LocomoLoader.CollectQueries | benchmarks/locomo_memory_benchmark.py:217-246 | the question loop with its early exit extends the limited list exactly as limiting afterwards would |
| LocomoLoader.QueriesByPosition | benchmarks/locomo_memory_benchmark.py:217-246 | the queries of a sample come from exactly the questions with a text and, unless answerless ones are included, known evidence, at increasing positions; each is numbered by its own position, carries its own category and expects exactly the known ids its evidence names |
| LocomoLoader.SampleQueryIdsDistinct | benchmarks/locomo_memory_benchmark.py:239 | no two queries of a sample share an id, however many there are |
| LocomoLoader.SampleIdsApart | benchmarks/locomo_memory_benchmark.py:66-71 | a sample keeps its own id, and samples without one get different ids |
| LocomoLoader.LimitStops | benchmarks/locomo_memory_benchmark.py:218-219 | leaving a sample's questions at the limit loses no query that limiting would keep |
| LocomoLoader.LoadNext | benchmarks/locomo_memory_benchmark.py:210-246 | one sample adds all its memories whatever the query limit, and fails exactly when it has no usable conversation |
| LocomoLoader.LoadDataset | benchmarks/locomo_memory_benchmark.py:195-248 | the load fails exactly when some limited sample is unusable; a query limit n keeps the first n queries of the unlimited load and leaves memories unchanged |
| LocomoLoader.SampleLimitIsPrefix | benchmarks/locomo_memory_benchmark.py:203-204 | a sample limit, even a negative one, yields prefixes of both unlimited lists |
| LocomoLoader.EvidenceNamesOwnMemory | benchmarks/locomo_memory_benchmark.py:223-244 | every expected evidence id of every query names a loaded memory of the query's own namespace |
| LocomoLoader.LoadedQueriesHaveEvidence | benchmarks/locomo_memory_benchmark.py:210-246 | unless answerless questions are included, every query of the whole load has evidence |
| Percentiles.NearestRankIsLeast | benchmarks/kubernetes_serverless_lifecycle_smoke.py:539-544 | the nearest-rank form returns the smallest sample value with at least the wanted share at or below it |
| Percentiles.FloorIndexVersusNearest | benchmarks/local_http_active_active_smoke.py:547-552 | the floor-index form takes the nearest-rank position, or the next one exactly when the share is a whole number strictly between none and all |
| Percentiles.FloorIndexNeverSmaller | benchmarks/local_http_active_active_smoke.py:547-552 | the floor-index percentile is never below the nearest-rank one |
| Percentiles.BetweenNeighbours | benchmarks/http_cluster_load_benchmark.py:170-174 | an interpolated value lies between the two sample values it interpolates |
| Percentiles.BetweenDividesGap | benchmarks/http_cluster_load_benchmark.py:170-174 | the fractional part of the rank divides the gap between the two neighbours in its own ratio |
| Percentiles.InterpolatedOnEven | benchmarks/http_cluster_load_benchmark.py:164-174 | on evenly spaced samples the p-th percentile is the minimum plus p hundredths of the spread |
| Percentiles.InterpolatedMonotone | benchmarks/http_cluster_load_benchmark.py:164-174 | the interpolated percentile never falls as the percentile grows |
| Percentiles.InterpolatedEnds | benchmarks/http_cluster_load_benchmark.py:164-174 | it runs from the sample's minimum at 0 to its maximum at 100 |
| Batching.UploadByFlushing | benchmarks/ann_index_curve_benchmark.py:278-285 | fill, flush at 1000, clear, flush the rest: exactly the chunks of the point list |
| Batching.UploadBySlicing | benchmarks/long_memory_evidence_benchmark.py:581-590 | slicing at multiples of 1000 sends the same chunks, so the two uploaders agree on every list |
| Batching.ChunksHoldEveryPoint | benchmarks/ann_index_curve_benchmark.py:278-285 | every point is in exactly one batch, in order; no batch is empty and all but the last hold 1000 |
| Batching.WellCutUnique | benchmarks/long_memory_evidence_benchmark.py:641-643 | those properties leave only one way to batch a list |
| AgentCoherence.LongestTrueRun | benchmarks/agent_coherence_benchmark.py:257-266 | the scan returns the length of a longest contiguous all-true block: one of that length exists and none is longer |
| AgentCoherence.LongestRunBounds | benchmarks/agent_coherence_benchmark.py:257-266 | with s successes and f failures the longest run L satisfies L <= s <= L(f + 1) |
| AgentCoherence.Judge | benchmarks/agent_coherence_benchmark.py:286-297 | success, first-place success and staleness of one retrieval, in terms of what the top-k list contains |
| AgentCoherence.FillBoard | benchmarks/agent_coherence_benchmark.py:280-303 | over the top-k lists, each column holds its verdict per agent request, the stale column only for requests that forbid something, and successes are grouped by category in order |
| AgentCoherence.ComputeAgentMetrics | benchmarks/agent_coherence_benchmark.py:269-333 | every reported rate is the share of its column, coherent turns are the longest success block, categories are alphabetical means, and context, savings and latencies are those of the evidence metrics |
| AgentCoherence.CountersBound | benchmarks/agent_coherence_benchmark.py:285-313 | first-place successes and the longest run never exceed successes, and successes plus stale errors never exceed the number of requests |
| AgentCoherence.RatesBound | benchmarks/agent_coherence_benchmark.py:314-333 | decision success at one and the coherent-turn rate are both at most the success rate, which is at most one |
| AgentCoherence.RateIsMean | benchmarks/agent_coherence_benchmark.py:316-319 | a rate is the mean of its verdicts, a true one counting one |
| AgentCoherence.FullSuccessExactly | benchmarks/agent_coherence_benchmark.py:285-321 | full success means that every request retrieves something it expects, if it expects anything, and nothing forbidden, and is the same as one coherent run over all requests |
| AgentCoherence.FullTopSuccessExactly | benchmarks/agent_coherence_benchmark.py:292-317 | full success at one means that every request retrieves, in the first place, something it expects, if it expects anything, and nowhere anything forbidden |
| AgentCoherence.NoStaleExactly | benchmarks/agent_coherence_benchmark.py:300-318 | no stale error means that nothing retrieved is forbidden to its request |
| AgentCoherence.NoLeakExactly | benchmarks/agent_coherence_benchmark.py:297-319 | no leak means that nothing retrieved is known to belong to another namespace |
| NodeSpecs.ReadEntry | benchmarks/http_cluster_load_benchmark.py:20-25 | an item is read exactly when it is an object whose chosen id and address each hold a non-whitespace character, and what is read is what lies between the whitespace at their ends |
| NodeSpecs.StripCuts | benchmarks/http_cluster_load_benchmark.py:21-22 | stripping cuts off whitespace at both ends and nothing else |
| NodeSpecs.ReadEntries | benchmarks/http_cluster_load_benchmark.py:36-39 | the whole list is read exactly when every item can be; otherwise the first that cannot decides the error |
| NodeSpecs.LoadNodeManifest | benchmarks/http_cluster_load_benchmark.py:28-52 | loading succeeds exactly on a non-empty complete list, and prints one id=url per item and one id=zone per item with a zone; an empty list and the first bad item have their own errors |
| NodeSpecs.ParseZoneSpecs | benchmarks/http_cluster_load_benchmark.py:62-69 | the loop is the left-to-right reading of the zone strings, with the last zone of an id winning and the first bad string failing all |
| NodeSpecs.ZonesExactly | benchmarks/http_cluster_load_benchmark.py:62-69 | the zone strings are read exactly when each gives some id a zone, and then each id has the zone its last string gives it, and no other id has one |
| NodeSpecs.ParseNodeSpecs | benchmarks/http_cluster_load_benchmark.py:55-94 | the loop with its `seen` set is the left-to-right reading in which each string must add a fresh id with an http(s) address |
| NodeSpecs.BuiltNodesFaithful | benchmarks/http_cluster_load_benchmark.py:73-93 | whatever parses has one node per string, in order, with the string's id, its address minus trailing slashes and the zone given for the id or the default of the position; ids are distinct and addresses http(s) |
| NodeSpecs.BuildExactly | benchmarks/http_cluster_load_benchmark.py:75-87 | the parts build nodes exactly when none lacks its id or address, repeats an earlier id or is not http(s); otherwise the first problem, in that order of checks, is reported |
| NodeSpecs.BareAddressesBuild | benchmarks/http_cluster_load_benchmark.py:75-94 | any number of bare http(s) addresses builds, repeated ones included: node i is numbered i in three digits or more, keeps its address minus trailing slashes, and takes its turn in the three zones |
| NodeSpecs.SplitPrinted | benchmarks/http_cluster_load_benchmark.py:76-77 | splitting a printed pair at its first "=" recovers an id free of "=", and otherwise cuts the id short |
| NodeSpecs.SplitExactly | benchmarks/http_cluster_load_benchmark.py:76-77 | the split is at the first "=", and there is one exactly where there is an "=" |
| NodeSpecs.SlashesExactly | benchmarks/http_cluster_load_benchmark.py:90 | only slashes are cut off the end, and none is left there |
| NodeSpecs.DefaultZoneCycles | benchmarks/http_cluster_load_benchmark.py:91 | the three default zones take turns |
| NodeSpecs.NodeRoundTrip | benchmarks/http_cluster_load_benchmark.py:28-94 | printing a manifest and parsing it back gives one node per entry with the same id, the address minus trailing slashes and its zone or zone-(i mod 3), exactly when ids are distinct and free of "=" and addresses are http(s) |
| NodeSpecs.EqualsInIdIsLost | benchmarks/http_cluster_load_benchmark.py:76-77 | an id with "=" does not come back |
| NodeSpecs.ManifestToNodes | benchmarks/http_cluster_load_benchmark.py:264-268 | the round trip from raw manifest items through the strings of both programs |
| NodeSpecs.LoadRegionManifest | benchmarks/local_http_active_active_smoke.py:157-179 | loading succeeds exactly on a non-empty complete list, and prints one id=url per item; an empty list and the first bad item have their own errors |
| NodeSpecs.ParseRegionSpecs | benchmarks/local_http_active_active_smoke.py:136-154 | the loop is the left-to-right reading in which slashes go before the address is checked, and at least two regions must result |
| NodeSpecs.BuiltRegionsFaithful | benchmarks/local_http_active_active_smoke.py:138-151 | whatever parses has one region per string, in order, with distinct ids and slash-stripped http(s) addresses |
| NodeSpecs.RegionsExactly | benchmarks/local_http_active_active_smoke.py:138-151 | the parts are regions exactly when none has a problem; otherwise the first is reported, the address being checked after its slashes are gone and before the id |
| NodeSpecs.BareRegionsBuild | benchmarks/local_http_active_active_smoke.py:136-154 | bare addresses are regions, numbered in order, exactly when there are two or more |
| NodeSpecs.RegionRoundTrip | benchmarks/local_http_active_active_smoke.py:136-179 | printing and parsing regions returns them exactly when there are at least two, ids are distinct and free of "=", and stripped addresses are http(s) |
| NodeSpecs.BareSchemeIsLost | benchmarks/local_http_active_active_smoke.py:144-148 | two entries that make the node round trip but not the region one, because slashes are stripped before the address is checked |
| NodeSpecs.ManifestToRegions | benchmarks/local_http_active_active_smoke.py:327-340 | the round trip from raw region items through the strings |
| FieldCrdt.FieldStateCRDT.constructor | wavemind/field_crdt.py:194-200 | a new replica is empty; an empty namespace or actor becomes the default |
| FieldCrdt.FieldStateCRDT.Increment | wavemind/field_crdt.py:329-345 | an effective increment adds the amount to the actor's own counter and raises its watermark; an empty key or an amount not above zero does nothing |
| FieldCrdt.FieldStateCRDT.BoostKey | wavemind/field_crdt.py:202-210 | a boost moves the replica to the specified state and keeps it sound |
| FieldCrdt.FieldStateCRDT.SuppressKey | wavemind/field_crdt.py:212-220 | likewise for a suppression |
| FieldCrdt.FieldStateCRDT.TombstoneKey | wavemind/field_crdt.py:222-236 | a deletion keeps the latest time per actor, never below zero |
| FieldCrdt.WatermarksFollow | wavemind/field_crdt.py:347-352 | watermarks never fall; an effective call lifts its own actor to its time, if that is later, and moves no other |
| FieldCrdt.MergeCounters | wavemind/field_crdt.py:530-538 | the loop takes over exactly the incoming values above what is held, and counts a change exactly when there is one |
| FieldCrdt.MergeTree | wavemind/field_crdt.py:514-527 | likewise for counters per key |
| FieldCrdt.FieldStateCRDT.Merge | wavemind/field_crdt.py:238-254 | another namespace is refused with nothing changed; otherwise the states merge, and a change is reported exactly when some value was below the delta's |
| FieldCrdt.MergedIsMaximum | wavemind/field_crdt.py:514-527 | after a merge every cell holds the larger of the two values |
| FieldCrdt.MergeIdempotent | wavemind/field_crdt.py:185-192 | merging a state into itself, or the same delta twice, changes nothing |
| FieldCrdt.MergeAssociative | wavemind/field_crdt.py:185-192 | merging is associative, into every state a replica can hold |
| FieldCrdt.MergeCommutesExactly | wavemind/field_crdt.py:185-192 | boosts and suppressions always commute; whole states do exactly when every deletion and watermark at time zero on one side has an entry on the other |
| FieldCrdt.AbsorbedStays | wavemind/field_crdt.py:238-254 | a delta already absorbed, however many others came since, changes nothing and is reported as no change |
| FieldCrdt.AnyOrderConverges | wavemind/field_crdt.py:185-192 | the same deltas, in any order and however often each, leave the identical state |
| FieldCrdt.EffectSound | wavemind/field_crdt.py:202-254 | no call and no delta, sound or not, leaves a counter at or below zero or a time below zero |
| FieldCrdt.ReachableSound | wavemind/field_crdt.py:202-254 | every state a new replica reaches is sound |
| FieldCrdt.TombstonesAfterMerge | wavemind/field_crdt.py:284-285 | what is deleted after a merge is what was deleted before and what the other side deleted at a time above zero |
| FieldCrdt.TombstoneTravelsExactly | wavemind/field_crdt.py:284-285 | a deletion reaches every replica that merges it exactly when one of its times is above zero |
| FieldCrdt.ZeroTombstoneIsLost | wavemind/field_crdt.py:222-236 | a deletion at time zero holds where it was made and is lost in the merge |
| FieldCrdt.TombstonedForGood | wavemind/field_crdt.py:284-293 | a deleted key stays deleted with energy zero under every continuation of boosts, suppressions, deletions and merges |
| FieldCrdt.EnergyConserved | wavemind/field_crdt.py:287-293 | an effective boost adds exactly its amount to its own key's energy, a suppression takes exactly its amount away, and no other key moves |
| FieldCrdt.TotalWithout | wavemind/field_crdt.py:541-542 | the sum of a counter does not depend on the order of its actors |
| FieldCrdt.FieldStateCRDT.SignedEnergy | wavemind/field_crdt.py:287-293 | the computed energy is boosts minus suppressions, and zero for a deleted key |

## Left out

- Of the `wavemind` package only the field state is modelled; stores, sharding, sync, the Memory OS worker and the
  experience compiler are not part of this model, and query results, worker times and rankings are arbitrary inputs.
- Of the field state: selecting keys for a delta, reading and writing dictionaries, `top`, the watermark audit and the
  counts in a merge report beyond whether anything changed.
- Payloads and durations of tool calls, repeated-error accounting, training runs and held-out statistics: only
  success and error codes of calls are modelled.
- SQL, HTTP, S3 and JSON mechanics: rows, keys and bytes are kept, a statement on a missing table raises, and JSON
  decoding is an arbitrary function. Failing S3 or file-system calls are modelled only as a run cut off between steps.
- Floating-point rounding, NaN and infinities: scores and latencies are reals.
- Query and prompt texts.
- Building and normalising cost rows, `_frontier_score` and the Markdown report; a leaderboard row is a value, so
  sharing of dictionaries between lists is not modelled, and a memory count is a whole number.
- Bootstrap confidence intervals, median latencies and per-category trial tables of the A/B comparison.
- The Memory OS report attached to the agent metrics; clocks and rankings are inputs.
- The ingestion manifest, directory creation, refresh commands and missing-directory errors; `evidence_source` is
  taken as already lower-cased, and result rows as already flattened with their group's size.
- Key fallback chains, value-to-text conversion and stripping in the LoCoMo files: turns, questions and evidence come
  decoded; a rendered turn is not stripped a second time. Tags and timestamps of memories.
- Extra command-line specs that are appended before those of a manifest, and the manifest's descriptive fields.
- Arguments below 0 or above 100 to the floor-index and interpolating percentiles; no caller passes them.
- Upload buffers and point lists are values: `batch.clear()` is an assignment, and aliasing of the sent list is not
  modelled.
- PrefixDeletion.Bucket.ListObjects: assumes a listing in ascending key order whose continuation token is the last key
  of the page, and non-empty keys; how many keys a page holds, up to 1000, is left open.
