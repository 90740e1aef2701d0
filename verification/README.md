# Growth experiment copilot: the statistics and dispatch layer

This project models the deterministic core of the growth experiment copilot backend, a FastAPI service with four parts:

- an experiment design endpoint, which sizes an experiment and asks a language model for a design card;
- an A/B test analysis endpoint, which computes per-variant rates and compares each treatment with the control;
- a causal analysis endpoint, which pools data points into difference-in-differences cells or buckets uplift scores;
- a chat orchestrator, which asks a language model for the user's intent and routes the request to handlers that repeat the three analyses.

Everything is modelled over exact `real` and `int`. The language model, `json.loads`, `re.search`, `str()` of a decoded value and the statistics libraries are parameters of the operations. Each is an arrow-typed field of an oracle record:

- `StatsLib.Lib`: `sqrt`, the normal CDF, `solve_power`, the two-proportion z-test and the score and Wald intervals;
- `DesignAgent.DesignOracles`: the two model calls, `json.loads`, `str()` and the key order of a decoded object;
- `Orchestrator.DetectOracles`: the intent model call, `re.search` and `json.loads`.

A library call that can raise is an oracle that returns `None` when it raises: `solve_power`, and both interval methods of `confint_proportions_2indep`. Two assumptions are made about the libraries, each a ghost predicate used only as a hypothesis of the lemmas that need it, never as an axiom:

- `SoundSqrt(lib)`: the square root of a non-negative number is non-negative, and zero exactly at zero;
- `SoundWald(lib)`: the Wald interval raises exactly when one of the two groups has no observations, the division by zero in its rates.

A third hypothesis of the same kind, `DesignAgent.SoundKeyOrder(keyOrder)`, says that the key order of a decoded object lists every key exactly once.

Modules, one per source file, plus shared helpers:

| module | models |
|---|---|
| `StatsCalculator` | `stats_calculator.py`: rates and clamping for sizing, the sample size, the proportion difference, the duration |
| `CausalAnalyzer` | `causal_analyzer.py`: `calculate_did`; the empty-group check, descending sort, 30/40/30 split and bucket summary of `calculate_uplift_model` |
| `CausalApi` | `api/analysis_causal.py`: the eight-accumulator pooling loop, cell rates, mode dispatch, rewrapping of every error as a 500 |
| `AbTestApi` | `api/analysis_ab_test.py`: variant metrics, control selection, the comparison loop, the revenue approximation, the warnings |
| `DesignApi` | `api/experiment_design.py`: sample-size and duration gating, hand-off to the design agent |
| `DesignAgent` | `agent_experiment_design.py`: prompt variables, fence extraction, the fallback design, hypothesis and variants coercion, the design card |
| `Orchestrator` | `agent_orchestrator.py`: `_parse_llm_response`, `_detect_intent_and_extract`, `process_message` dispatch |
| `ChatHandlers` | `agent_orchestrator.py`: the three chat handlers |
| `AnalysisInputs`, `DesignModels`, `AnalysisOutputs` | the pydantic request models as validity predicates, and the response shapes |
| `PyStr`, `JsonValue`, `StatsLib`, `Wrappers`, text modules | Python `str` behaviour, decoded JSON values and `dict.get`, the library oracles and ceiling, `Option`/`Result`, long literal texts |

The imperative parts of the source are methods with loops:

- the A/B endpoint's three loops (`ComputeVariantResults`, `FindControl`, `CompareAll`, composed by `AnalyzeAbTest`);
- the DiD pooling loop (`AggregateCells`);
- the rewriting of the reply text in `_parse_llm_response` (`FenceText`, `CandidateText`, `ParseLlmResponse`);
- the chat A/B handler's loops (`ChatVariantRows`, `ChatCompareAll`, `HandleAbTestAnalysis`).

Each method is proved equal to a specification function. The properties are proved about that function.

In the orchestrator's design handler (`agent_orchestrator.py`, lines 280-297), `sample_size` is assigned before the duration is computed, and both calls sit in one `try` whose `except` does nothing. A failure in the duration step therefore keeps the sample size already computed (`ChatHandlers.TrafficFailureKeepsSampleSize`).

## Model

Small helpers that only compute a value for one caller (for example `AbTestApi.MeanRevenue`, `CausalApi.CellSums`, `Orchestrator.UpToFence`, `DesignAgent.FallbackCard`) have no row of their own. The row of the member that uses them covers them. The request validators are predicates: each row below says which requests the validator accepts.

| member | source | states |
|---|---|---|
| StatsLib.Ceil | backend/app/services/stats_calculator.py:56 | `int(np.ceil(x))` is an integer k with x ≤ k < x + 1 |
| StatsLib.CeilUnique | backend/app/services/stats_calculator.py:175 | any integer in [x, x + 1) is the ceiling, so the ceiling is the least integer not below x |
| StatsLib.Abs | backend/app/services/causal_analyzer.py:60 | `abs` is non-negative and equals x or −x |
| StatsLib.NegatedQuotient | backend/app/services/causal_analyzer.py:69-70 | negating the numerator keeps the absolute z statistic, hence the two-sided p-value |
| StatsCalculator.ClampRate | backend/app/services/stats_calculator.py:35-36 | the result lies in [0.01, 0.99]; a rate inside is kept; a rate outside moves to the nearer bound |
| StatsCalculator.TreatmentRate | backend/app/services/stats_calculator.py:29-32 | relative effect: the lift over the baseline is baseline·mde, i.e. relative change mde; absolute effect: the lift is mde |
| StatsCalculator.SizingRates | backend/app/services/stats_calculator.py:29-36 | both rates end in [0.01, 0.99]; the treatment rate is derived from the unclamped baseline, then clamped |
| StatsCalculator.PooledVariancePositive | backend/app/services/stats_calculator.py:40-42 | for clamped rates the quantity under the square root is strictly positive |
| StatsCalculator.SampleSizeProportion | backend/app/services/stats_calculator.py:39-56 | std_effect = 0 gives 1000; otherwise there is no result exactly when `solve_power` has none, else the result is the ceiling of n |
| StatsCalculator.FallbackUnreachable | backend/app/services/stats_calculator.py:40-56 | with a sound square root, std_effect > 0, so the 1000 fallback never fires and the result is always ceil(solve_power) |
| StatsCalculator.Rate | backend/app/services/stats_calculator.py:79-80 | p·n = x when n > 0, and p = 0 otherwise |
| StatsCalculator.RelativeUplift | backend/app/services/stats_calculator.py:84-87 | p1 > 0: uplift·p1 = (p2 − p1)·100; p1 ≤ 0: 0 when the rates are equal, +∞ otherwise |
| StatsCalculator.OrderedInterval | backend/app/services/stats_calculator.py:94-107 | no interval exactly when both the score and the Wald method raise; otherwise lower ≤ upper, and the two bounds are those of the score interval, or of the Wald interval when the score method raises |
| StatsCalculator.ProportionDifference | backend/app/services/stats_calculator.py:59-109 | raises exactly when both interval methods raise; otherwise the difference of the guarded rates, their relative uplift, the interval OrderedInterval gives (score, else Wald, put in order), and the z-test p-value |
| StatsCalculator.ProportionDifferenceRaises | backend/app/services/stats_calculator.py:94-103 | with a sound Wald interval, the call raises exactly when the score method raises and a group is empty, so two non-empty groups always get a result |
| StatsCalculator.IdenticalGroupsNoUplift | backend/app/tests/test_stats_calculator.py:59-68 | two identical groups that get a result give difference 0 and uplift 0, for every n and x |
| StatsCalculator.TenVersusTwelvePercent | backend/app/tests/test_stats_calculator.py:41-52 | with a sound Wald interval, 100/1000 against 120/1000 gets a result, with difference 0.02 and uplift exactly 20% |
| StatsCalculator.EstimateExperimentDuration | backend/app/services/stats_calculator.py:153-175 | no estimate exactly when traffic ≤ 0; otherwise the least d with d·traffic ≥ per-variant size × variants |
| StatsCalculator.DurationBounds | backend/app/services/stats_calculator.py:172-175 | the ceiling d of total/traffic satisfies (d − 1)·traffic < total ≤ d·traffic |
| StatsCalculator.DurationExamples | backend/app/tests/test_stats_calculator.py:90-117 | (1000, 2, 100) gives 20, (1000, 2, 150) gives 14, zero traffic gives none |
| CausalAnalyzer.CellVariance | backend/app/services/causal_analyzer.py:51-54 | the cell term v satisfies v·n = p(1 − p) when n > 0, and is 0 when n ≤ 0 |
| CausalAnalyzer.CalculateDiD | backend/app/services/causal_analyzer.py:10-85 | inputs echoed; pre and post differences; did = post − pre = (t_post − t_pre) − (c_post − c_pre); interval symmetric about did with width 2·1.96·se; p-value absent iff se ≤ 0, else 2(1 − Φ(\|did/se\|)) |
| CausalAnalyzer.DiDExample | backend/app/tests/test_causal_analyzer.py:6-27 | rates (0.10, 0.15, 0.10, 0.10) give pre 0, post 0.05 and did 0.05, whatever the counts and mode |
| CausalAnalyzer.SwapGroupsNegates | backend/app/services/causal_analyzer.py:39-72 | swapping treatment and control negates both differences and did, mirrors the interval and keeps the p-value |
| CausalAnalyzer.SwapKeepsStandardError | backend/app/services/causal_analyzer.py:47-60 | the swap negates did and leaves se unchanged in both modes |
| CausalAnalyzer.CellVarianceNonNegative | backend/app/services/causal_analyzer.py:51-54 | each cell term is ≥ 0 for a rate in [0, 1] |
| CausalAnalyzer.VarianceSumNonNegative | backend/app/services/causal_analyzer.py:49-56 | with all four rates in [0, 1] the sum under the square root is ≥ 0 |
| CausalAnalyzer.MeanStandardErrorZeroIff | backend/app/services/causal_analyzer.py:57-60 | mean mode: se ≥ 0, and se = 0 exactly when did = 0 |
| CausalAnalyzer.IntervalBracketsEstimate | backend/app/services/causal_analyzer.py:62-65 | ci_lower ≤ did ≤ ci_upper (in proportion mode for rates in [0, 1]) |
| CausalAnalyzer.DegenerateProportionsHaveNoPValue | backend/app/services/causal_analyzer.py:49-72 | proportion mode with every rate 0 or 1 has se = 0, so no p-value |
| CausalAnalyzer.CountGroup | backend/app/services/causal_analyzer.py:103-104 | the group count is at most n, and zero exactly when no row has that treatment value |
| CausalAnalyzer.InsertDescending | backend/app/services/causal_analyzer.py:171 | inserting into a descending sequence keeps it descending and adds exactly that element |
| CausalAnalyzer.SortDescending | backend/app/services/causal_analyzer.py:171 | `argsort(...)[::-1]` applied to the scores: a descending permutation of them |
| CausalAnalyzer.DescendingUnique | backend/app/services/causal_analyzer.py:171 | two descending permutations of each other are equal, so the buckets do not depend on how ties are ordered |
| CausalAnalyzer.HeadIsMaximum | backend/app/services/causal_analyzer.py:171 | the first score after sorting is the largest |
| CausalAnalyzer.HighCut | backend/app/services/causal_analyzer.py:173 | k = int(0.3n): k ≤ 0.3n < k + 1 |
| CausalAnalyzer.MediumCut | backend/app/services/causal_analyzer.py:174 | k = ⌊7n/10⌋, which is int(n·0.7) in exact arithmetic, lying between the high cut and n |
| CausalAnalyzer.SplitBuckets | backend/app/services/causal_analyzer.py:176-178 | three consecutive slices at the two cuts that concatenate back to the sorted scores |
| CausalAnalyzer.Mean | backend/app/services/causal_analyzer.py:181-183 | mean·\|s\| = sum for a non-empty slice; 0.0 for an empty one |
| CausalAnalyzer.SumBounds | backend/app/services/causal_analyzer.py:181-183 | a slice whose scores are all ≥ c (≤ c) sums to at least (at most) \|s\|·c |
| CausalAnalyzer.MeanBounds | backend/app/services/causal_analyzer.py:181-183 | the mean of a non-empty slice lies within any bounds on its scores |
| CausalAnalyzer.BucketAveragesOrdered | backend/app/services/causal_analyzer.py:176-183 | average uplift of high ≥ medium ≥ low whenever the buckets compared are non-empty |
| CausalAnalyzer.AdjacentSlicesOrdered | backend/app/services/causal_analyzer.py:176-183 | of two adjacent non-empty slices of a descending sequence, the earlier has the larger mean |
| CausalAnalyzer.Fraction | backend/app/services/causal_analyzer.py:186 | f·n = k when n > 0, and 0.0 when n = 0 |
| CausalAnalyzer.Incremental | backend/app/services/causal_analyzer.py:187 | estimated incremental conversions are the total uplift of the high bucket |
| CausalAnalyzer.Buckets | backend/app/services/causal_analyzer.py:189-209 | three buckets in order High, Medium, Low/Negative with their mean, user fraction, and incremental conversions on High only |
| CausalAnalyzer.FractionsPartition | backend/app/services/causal_analyzer.py:186-206 | every fraction lies in [0, 1] and, for n > 0, the three sum to 1 |
| CausalAnalyzer.FractionInUnit | backend/app/services/causal_analyzer.py:186 | k ≤ n gives a fraction in [0, 1] |
| CausalAnalyzer.FractionsSumToOne | backend/app/services/causal_analyzer.py:186-206 | three counts summing to n > 0 give fractions summing to 1 |
| CausalAnalyzer.UpliftModel | backend/app/services/causal_analyzer.py:88-212 | on at least one row, no treatment or no control row fails with "Need both treatment and control groups"; a fitting error is passed on; otherwise n users, the overall mean and the buckets of the sorted scores |
| CausalAnalyzer.TreatmentOnlyRefused | backend/app/tests/test_causal_analyzer.py:113-122 | data with treatment rows only is refused with the both-groups error |
| CausalAnalyzer.UpliftBucketsPartition | backend/app/services/causal_analyzer.py:170-211 | bucket sizes add up to the reported total users, and the buckets concatenate to any descending arrangement of the scores |
| CausalAnalyzer.TenRowsSplit | backend/app/services/causal_analyzer.py:173-178 | ten scores split 3 / 4 / 3 |
| CausalApi.ValidPointHasCell | backend/app/api/analysis_causal.py:31-62 | every valid data point falls into one of the four (group, period) branches |
| CausalApi.AggregateCells | backend/app/api/analysis_causal.py:22-62 | after the loop each sum is the pooled outcome (proportion mode) or outcome·users (mean mode) over that cell's points, and each n the pooled users |
| CausalApi.CellStep | backend/app/api/analysis_causal.py:31-62 | one more point changes only its own cell, by its contribution and its users; the other cells are unchanged |
| CausalApi.CellsPartitionUsers | backend/app/api/analysis_causal.py:31-62 | for valid points the four cell counts add up to the total users: duplicates are pooled and no point is lost |
| CausalApi.EmptyCell | backend/app/api/analysis_causal.py:65-68 | a cell without points has sum 0, n 0 and rate 0.0 |
| CausalApi.WeightedSumBounds | backend/app/api/analysis_causal.py:37-38 | mean mode: lo·n ≤ cell sum ≤ hi·n when every outcome of the cell lies in [lo, hi] |
| CausalApi.MeanModeRateWithinOutcomes | backend/app/api/analysis_causal.py:37-38 | a mean-mode cell rate is a users-weighted mean, so it lies between the smallest and largest outcome |
| CausalApi.ProportionSumBounds | backend/app/api/analysis_causal.py:33-35 | proportion mode with 0 ≤ outcome ≤ users: 0 ≤ cell sum ≤ cell n |
| CausalApi.ProportionRatesInUnitInterval | backend/app/api/analysis_causal.py:65-68 | under that condition all four proportion rates lie in [0, 1] |
| CausalApi.Rewrap | backend/app/api/analysis_causal.py:114-115 | every error becomes status 500 with the "Error in causal analysis: " prefix |
| CausalApi.CausalAnalysis | backend/app/api/analysis_causal.py:16-115 | the specification of `analyze_causal`: "did" aggregates the four cells and runs the DiD calculation, "uplift" runs the uplift model, and a missing data block, an unknown mode or a failing model becomes an error |
| CausalApi.AnalyzeCausal | backend/app/api/analysis_causal.py:16-115 | the endpoint equals its specification function, and every failure it returns is a 500 |
| CausalApi.FailuresAre500 | backend/app/api/analysis_causal.py:114-115 | every failure, the 400s raised inside the try included, reaches the client as a 500 with the prefix |
| CausalApi.Routing | backend/app/api/analysis_causal.py:17-112 | "did" fails exactly when did_data is missing; "uplift" without uplift_data fails; "uplift" succeeds exactly when the uplift model does; any other mode fails |
| CausalApi.ProportionIntervalBrackets | backend/app/api/analysis_causal.py:65-81 | on valid proportion data the endpoint's interval contains its DiD estimate |
| AbTestApi.PerUser | backend/app/api/analysis_ab_test.py:30-32 | a rate exists exactly when the count is present and users > 0, and then rate·users = count |
| AbTestApi.VariantMetrics | backend/app/api/analysis_ab_test.py:28-43 | raw fields copied unchanged; ctr, cvr and arpu are clicks, orders and revenue per user under that guard |
| AbTestApi.ReportedRateIsComparedRate | backend/app/api/analysis_ab_test.py:30-76 | the reported ctr and cvr are the rates the proportion test compares |
| AbTestApi.FirstControl | backend/app/api/analysis_ab_test.py:47-50 | the first index from k whose lowercased name is "control", or none when no later name is |
| AbTestApi.ControlIndex | backend/app/api/analysis_ab_test.py:46-52 | the first variant named "control" in any case, else the first variant |
| AbTestApi.RevenueComparison | backend/app/api/analysis_ab_test.py:94-137 | difference of mean revenues; uplift·control = difference·100 when control > 0, else 0; interval symmetric with width 2·1.96·se; p-value from \|z\|; significance iff p < 0.05 |
| AbTestApi.RevenueSwapNegates | backend/app/api/analysis_ab_test.py:100-117 | swapping the two variants negates the difference, mirrors the interval and keeps the p-value |
| AbTestApi.RevenueIntervalBrackets | backend/app/api/analysis_ab_test.py:110-117 | the revenue interval contains the difference |
| AbTestApi.CompareOne | backend/app/api/analysis_ab_test.py:68-125 | skipped exactly when the metric's field is missing on either side ("custom" always); raises exactly when the CTR or CVR proportion test raises; otherwise CTR and CVR compare the control as group 1 with the treatment, copying that test's difference, uplift, interval and p-value, and significance iff p < 0.05 |
| AbTestApi.NoRaiseWithUsers | backend/app/services/stats_calculator.py:94-103 | with a sound Wald interval and users on both sides, no comparison raises |
| AbTestApi.Comparisons | backend/app/api/analysis_ab_test.py:63-137 | when no test raises, every comparison names the control, never a treatment with the control's name, and is significant iff p < 0.05 |
| AbTestApi.ComparisonsRaiseIff | backend/app/api/analysis_ab_test.py:63-137 | the loop raises exactly when some variant not named like the control has a raising test |
| AbTestApi.RaisePersists | backend/app/api/analysis_ab_test.py:63-137 | a raise among the first k variants is a raise of the whole loop |
| AbTestApi.ComparisonsDefined | backend/app/api/analysis_ab_test.py:63-137 | with a sound Wald interval and users in every variant, the loop never raises |
| AbTestApi.CountOthers | backend/app/api/analysis_ab_test.py:64-66 | the variants the loop does not skip by name: none exactly when all carry the control's name, all exactly when none does |
| AbTestApi.ComparisonsFromVariants | backend/app/api/analysis_ab_test.py:63-137 | when the loop does not raise, there are at most as many comparisons as variants not named like the control, and each is CompareOne of such a variant |
| AbTestApi.ComparisonsStep | backend/app/api/analysis_ab_test.py:63-137 | one more variant not named like the control makes the loop raise if its test raises, and otherwise appends its comparison exactly when its data allow one |
| AbTestApi.NoComparisonsWithoutControlData | backend/app/api/analysis_ab_test.py:68-123 | a control without the metric's field yields no comparisons and never raises |
| AbTestApi.EveryTreatmentCompared | backend/app/api/analysis_ab_test.py:63-137 | when every variant has the field and the loop does not raise, each variant not named like the control is compared |
| AbTestApi.MinUsers | backend/app/api/analysis_ab_test.py:59 | the least user count, attained by some variant |
| AbTestApi.Warnings | backend/app/api/analysis_ab_test.py:58-141 | the low-sample warning iff some variant has fewer than 100 users, then the multiple-comparisons warning iff there are more than one comparison |
| AbTestApi.AllVariantMetrics | backend/app/api/analysis_ab_test.py:28-43 | one result per variant, in request order |
| AbTestApi.AbTestAnalysis | backend/app/api/analysis_ab_test.py:26-165 | a 500 with the "Error analyzing A/B test: " detail exactly when a comparison raises; otherwise variants as computed, the primary metric echoed, comparisons against the selected control, and the warnings over both |
| AbTestApi.EndpointAnswers | backend/app/api/analysis_ab_test.py:26-165 | validation gives every variant users, so with a sound Wald interval the endpoint never answers with the 500 |
| AbTestApi.ComputeVariantResults | backend/app/api/analysis_ab_test.py:28-43 | the metrics loop yields VariantMetrics of each variant, in order |
| AbTestApi.FindControl | backend/app/api/analysis_ab_test.py:46-52 | the search loop with `break` returns the variant at ControlIndex |
| AbTestApi.CompareAll | backend/app/api/analysis_ab_test.py:63-137 | the comparison loop yields exactly Comparisons, stopping at the first raising test |
| AbTestApi.AnalyzeAbTest | backend/app/api/analysis_ab_test.py:26-165 | the endpoint body, with its `except`, yields exactly AbTestAnalysis |
| AbTestApi.AnalysisAssembled | backend/app/api/analysis_ab_test.py:58-141 | the warning computed from the minimum before the loop, followed by the multiple-comparisons warning when more than one comparison was made, is AbTestAnalysis's answer |
| AbTestApi.AnalysisFails | backend/app/api/analysis_ab_test.py:163-165 | a raising comparison loop makes AbTestAnalysis the 500 |
| AbTestApi.ComparisonsWellFormed | backend/app/api/analysis_ab_test.py:64-137 | on an answer, at most n − 1 comparisons, each naming the control, never the control itself, with significance iff p < 0.05 |
| AbTestApi.CustomMetricComparesNothing | backend/app/api/analysis_ab_test.py:121-123 | "custom" always answers, with no comparisons and at most the low-sample warning |
| AbTestApi.WarningsShape | backend/app/api/analysis_ab_test.py:58-141 | zero, one or two warnings; low sample first, with a minimum below 100; multiple comparisons last |
| AbTestApi.CaseSensitiveSkip | backend/app/api/analysis_ab_test.py:48-66 | control is found case-insensitively but skipped by exact name, so, with a sound Wald interval, "Control" is compared against a variant named "control" |
| AbTestApi.CapitalisedControl | backend/app/api/analysis_ab_test.py:48 | "Control" is recognised as a control name |
| AbTestApi.DuplicateControlNamesCompareNothing | backend/app/api/analysis_ab_test.py:64-66 | two variants sharing the control's name are both skipped, so nothing is compared and nothing raises |
| AnalysisInputs.ValidVariant | backend/app/models/analysis_inputs.py:6-12 | accepts a variant with users > 0 and, when present, clicks ≥ 0, orders ≥ 0 and revenue ≥ 0; the name is free |
| AnalysisInputs.ValidAbMetricType | backend/app/models/analysis_inputs.py:18-20 | accepts exactly "ctr", "cvr", "revenue_per_user" and "custom" |
| AnalysisInputs.ValidAbRequest | backend/app/models/analysis_inputs.py:15-20 | accepts at least two variants, each of them valid, and one of the four metric types |
| AnalysisInputs.ValidDiDPoint | backend/app/models/analysis_inputs.py:23-28 | accepts a point whose group is "treatment" or "control", whose period is "pre" or "post", with users > 0 and outcome ≥ 0 |
| AnalysisInputs.ValidDiDRequest | backend/app/models/analysis_inputs.py:31-34 | accepts any number of points, each valid, with metric type "proportion" or "mean" |
| AnalysisInputs.ValidUpliftPoint | backend/app/models/analysis_inputs.py:37-41 | accepts treatment and outcome each in {0, 1} |
| AnalysisInputs.ValidUpliftData | backend/app/models/analysis_inputs.py:44-46 | accepts any list of points, the empty list included, when each point is valid |
| AnalysisInputs.ValidCausalRequest | backend/app/models/analysis_inputs.py:49-53 | accepts mode "did" or "uplift"; either data block may be absent whatever the mode, and a block that is present must be valid |
| DesignModels.ValidDesignRequest | backend/app/models/experiment_design.py:6-13 | accepts a baseline rate in [0, 1], an effect > 0, alpha and power in [0, 1], and traffic > 0, each optional field only when present |
| AnalysisInputs.ClicksNotBoundedByUsers | backend/app/models/analysis_inputs.py:9-11 | a valid variant may have more clicks and orders than users |
| AnalysisInputs.DiDCellsNotConstrained | backend/app/models/analysis_inputs.py:33-34 | a valid DiD request may have no points, or several points in one cell |
| DesignModels.DescriptionOnly | backend/app/models/experiment_design.py:6-13 | a request with only a description is valid, with alpha 0.05, power 0.8 and the optional fields absent |
| DesignApi.PlannedSizing | backend/app/api/experiment_design.py:24-48 | sample size only when baseline and MDE are both given, always with the relative effect type; duration exactly when traffic is also given, for 2 variants; a failing `solve_power` is an error |
| DesignApi.OptionalNumber | backend/app/api/experiment_design.py:52-54 | an absent number is passed to the agent as null, a present one unchanged |
| DesignApi.DesignExperimentEndpoint | backend/app/api/experiment_design.py:21-68 | the agent's card and explanation, carrying the computed sample size and duration unchanged; every failure is a 500 whose detail starts "Error designing experiment: " |
| DesignApi.ValidTrafficAlwaysGivesDuration | backend/app/api/experiment_design.py:41-48 | valid traffic is positive, so a computed sample size always comes with a duration covering 2 × sample size |
| DesignApi.DescriptionOnlyHasNoSizing | backend/app/api/experiment_design.py:28 | a description-only request yields a card with neither sample size nor duration |
| DesignAgent.JsonSlot | backend/app/services/agent_experiment_design.py:94-95 | null becomes the placeholder text; any other value is given as it is |
| DesignAgent.IntSlot | backend/app/services/agent_experiment_design.py:96-97 | an absent number becomes the placeholder text; a present one is given as it is |
| DesignAgent.DesignPromptFor | backend/app/services/agent_experiment_design.py:92-98 | missing baseline and MDE read "not provided", missing sample size and duration "not calculated" |
| DesignAgent.ExtractDesignJson | backend/app/services/agent_experiment_design.py:106-115 | a reply without a fence is decoded as it is |
| DesignAgent.ClosedFenceExtractsBody | backend/app/services/agent_experiment_design.py:108-111 | with a closing fence, the stripped text between "```json" and the next "```", which holds no fence |
| DesignAgent.ClosedBareFenceExtractsBody | backend/app/services/agent_experiment_design.py:112-115 | without "```json" but with a closed "```" pair, the stripped text between the first two fences, which holds no fence |
| DesignAgent.UnclosedFenceDropsLastCharacter | backend/app/services/agent_experiment_design.py:108-111 | without a closing fence `find` gives −1, so the slice stops one character before the end |
| DesignAgent.AsStringList | backend/app/models/experiment_design.py:20-30 | a list field is accepted exactly when it is a list of strings, and keeps them in order |
| DesignAgent.AsString | backend/app/models/experiment_design.py:18-23 | a string field is accepted exactly when it is a string |
| DesignAgent.AsOptionalString | backend/app/models/experiment_design.py:24-26 | an optional string field accepts null or a string |
| DesignAgent.Str | backend/app/services/agent_experiment_design.py:179 | `str()` of a string is the string itself |
| DesignAgent.HypothesisText | backend/app/services/agent_experiment_design.py:172-179 | a dict becomes "H0: … . H1: …" with per-key defaults; anything else goes through `str()` |
| DesignAgent.HypothesisDictFormats | backend/app/services/agent_experiment_design.py:172-179 | concrete dict, empty dict and plain string hypotheses |
| DesignAgent.VariantsText | backend/app/services/agent_experiment_design.py:182-186 | a list is joined with ", " after `str()` of each item; anything else goes through `str()` |
| DesignAgent.VariantsJoined | backend/app/services/agent_experiment_design.py:182-186 | two names give "a, b"; one name gives itself; a string is kept |
| DesignAgent.BuildCard | backend/app/services/agent_experiment_design.py:188-202 | the card is built exactly when every field has the card's type; sample size and duration pass through; missing keys take their defaults |
| DesignAgent.FallbackDesignBuildsFallbackCard | backend/app/services/agent_experiment_design.py:118-129 | the fallback design always yields the fixed fallback card |
| DesignAgent.FallbackDesignFields | backend/app/services/agent_experiment_design.py:120-129 | the fallback design's goal, hypothesis, metrics, design type "A/B", variants and notes, and no population |
| DesignAgent.SampleSizeText | backend/app/services/agent_experiment_design.py:164 | a missing or zero sample size reads "Not available (missing inputs)", any other "n per variant" |
| DesignAgent.DurationText | backend/app/services/agent_experiment_design.py:165 | a missing or zero duration reads "Not available", any other "d days" |
| DesignAgent.ZeroSampleSizeReadsAsMissing | backend/app/services/agent_experiment_design.py:96-164 | a sample size of 0 is given to the design prompt as 0 but explained as not available |
| DesignAgent.ExplanationPromptFor | backend/app/services/agent_experiment_design.py:159-166 | defaults "A/B" and "2 variants"; primary metrics joined with ", "; no prompt exactly when `join` raises on them |
| DesignAgent.JoinedItems | backend/app/services/agent_experiment_design.py:162 | what `", ".join` iterates over: a list of strings, the characters of a string, the keys of an object; nothing for any other value |
| DesignAgent.ObjectMetricsJoinKeys | backend/app/services/agent_experiment_design.py:162 | with a sound key order, an object of primary metrics is joined over exactly its keys, as many items as keys |
| DesignAgent.StringMetricsJoinCharacters | backend/app/services/agent_experiment_design.py:162 | a string "ab" is joined character by character into "a, b" |
| DesignAgent.StringMetricsReachExplanation | backend/app/services/agent_experiment_design.py:22-207 | a string of primary metrics does not make `join` raise: it gets an explanation prompt, and the design then fails, at the explanation call when that call fails, otherwise at the card |
| DesignAgent.DecodedDesign | backend/app/services/agent_experiment_design.py:106-129 | undecodable text gives the fallback design; a decoded non-object is an error |
| DesignAgent.DesignExperiment | backend/app/services/agent_experiment_design.py:22-207 | a failed model call fails; otherwise the card and explanation of the decoded design, with sample size and duration passed through unchanged |
| DesignAgent.FallbackDesignExplained | backend/app/services/agent_experiment_design.py:118-166 | the fallback design always gives an explanation prompt |
| DesignAgent.UndecodableReplyGivesFallbackCard | backend/app/services/agent_experiment_design.py:106-202 | an undecodable reply still succeeds, with the fallback card |
| Orchestrator.BareFenceStart | backend/app/services/agent_orchestrator.py:127-131 | after a bare fence, the text starts past the language line when its newline comes within 20 characters |
| Orchestrator.OrchestratorFence | backend/app/services/agent_orchestrator.py:119-134 | a reply without a fence is kept as it is |
| Orchestrator.UpToClosingFence | backend/app/services/agent_orchestrator.py:132-134 | a closing fence after the start gives the stripped text up to it, which holds no fence |
| Orchestrator.JsonFenceExtracted | backend/app/services/agent_orchestrator.py:120-124 | "```json" with a later closing fence gives exactly the stripped text between them, free of fences |
| Orchestrator.UnclosedJsonFenceKept | backend/app/services/agent_orchestrator.py:122-124 | "```json" without a closing fence leaves the reply unchanged |
| Orchestrator.LanguageLineSkipped | backend/app/services/agent_orchestrator.py:125-134 | a bare fence followed by a newline within 20 characters skips that line |
| Orchestrator.NoLanguageLine | backend/app/services/agent_orchestrator.py:125-134 | otherwise the text starts right after the bare fence |
| Orchestrator.JsonCandidate | backend/app/services/agent_orchestrator.py:136-141 | text opening with "{" is kept; otherwise the first object-like match, if there is one |
| Orchestrator.KeywordIntent | backend/app/services/agent_orchestrator.py:157-164 | priority experiment_design, then ab_test, then causal or did; general conversation exactly when none occurs |
| Orchestrator.FallbackResult | backend/app/services/agent_orchestrator.py:167-174 | the intent, not enough information, no parameters, the fixed greeting |
| Orchestrator.WithDefaults | backend/app/services/agent_orchestrator.py:146-150 | "intent" and "has_sufficient_info" added with their defaults when missing; every other key kept unchanged |
| Orchestrator.HasKey | backend/app/services/agent_orchestrator.py:146-148 | `in` works on a decoded list or string; on any other non-object value it raises |
| Orchestrator.ParseOutcome | backend/app/services/agent_orchestrator.py:115-174 | undecodable text gives the keyword fallback; an object always carries both keys; a non-object comes back only as decoded |
| Orchestrator.DecodedObjectKept | backend/app/services/agent_orchestrator.py:143-150 | a decoded object keeps every key and value it had |
| Orchestrator.FenceText | backend/app/services/agent_orchestrator.py:119-134 | the step-by-step rewriting of `content` yields OrchestratorFence |
| Orchestrator.CandidateText | backend/app/services/agent_orchestrator.py:119-141 | fence step then object search yield JsonCandidate |
| Orchestrator.ParseLlmResponse | backend/app/services/agent_orchestrator.py:115-174 | the method yields ParseOutcome |
| Orchestrator.SafeFallback | backend/app/services/agent_orchestrator.py:257-265 | general conversation without sufficient information |
| Orchestrator.DetectIntent | backend/app/services/agent_orchestrator.py:236-265 | a failed model call or a raising parse gives the safe fallback; a non-dict result is only what the parse returned |
| Orchestrator.Dispatch | backend/app/services/agent_orchestrator.py:186-234 | a non-dict result gives the error greeting; general conversation gives a greeting; else insufficient information gives a clarification carrying the intent; else the three intents reach their handlers, and only with sufficient information; the greeting carries "greeting_response" when present; the clarification carries "clarification_question" (default: the fixed question) and "missing_info" (default: an empty list) |
| Orchestrator.ModelFailureGreets | backend/app/services/agent_orchestrator.py:202-265 | a failed model call ends in the fixed greeting |
| Orchestrator.UndecodableReplyNeverHandled | backend/app/services/agent_orchestrator.py:151-220 | an undecodable reply never reaches a handler: a greeting, or a clarification for the keyword intent |
| Orchestrator.DetectedIntentsAreKnown | backend/app/services/agent_orchestrator.py:186-234 | the reported intent is always one of five known names |
| ChatHandlers.ReadDesignParams | backend/app/services/agent_orchestrator.py:269-274 | missing parameters read as "", 0.05, 0.8 or null |
| ChatHandlers.ChatSizing | backend/app/services/agent_orchestrator.py:277-297 | sample size only with baseline and MDE, computed as the endpoint does; duration only with traffic as well, for 2 variants |
| ChatHandlers.TrafficFailureKeepsSampleSize | backend/app/services/agent_orchestrator.py:280-297 | a traffic value that makes the duration step raise keeps the sample size and drops only the duration |
| ChatHandlers.RequestParams | backend/app/services/agent_orchestrator.py:269-274 | a design request read as chat parameters |
| ChatHandlers.ChatSizingMatchesEndpoint | backend/app/services/agent_orchestrator.py:280-297 | the chat sizing equals the endpoint's; where the endpoint fails with a 500, chat carries on without sizing |
| ChatHandlers.ChatDesignExperiment | backend/app/services/agent_orchestrator.py:299-329 | the agent's result with the chat sizing; the card carries that sizing; agent errors become an error reply |
| ChatHandlers.ChatDesignMatchesEndpoint | backend/app/services/agent_orchestrator.py:300-310 | on the same request, chat answers exactly when the endpoint does, with the same output |
| ChatHandlers.NormalizeMetric | backend/app/services/agent_orchestrator.py:337-346 | ctr and click_through_rate give "ctr"; revenue_per_user and arpu give "revenue_per_user"; every other name gives "cvr" |
| ChatHandlers.EndpointMetricsNormalise | backend/app/services/agent_orchestrator.py:337-346 | the endpoint's metric names map to themselves |
| ChatHandlers.OrdersOf | backend/app/services/agent_orchestrator.py:362 | `orders or conversions or converts`: the first non-zero count, else `converts` whatever it is |
| ChatHandlers.ChatRow | backend/app/services/agent_orchestrator.py:358-378 | name defaults to "unknown", users to 0; rates guarded as in the endpoint |
| ChatHandlers.ZeroOrdersFallThrough | backend/app/services/agent_orchestrator.py:362-366 | 0 orders with no alternative gives no cvr in chat, where the endpoint reports 0.0; that variant is then not compared |
| ChatHandlers.ChatWarnings | backend/app/services/agent_orchestrator.py:422-425 | only the low-sample warning, iff some variant has fewer than 100 users |
| ChatHandlers.ChatComparisons | backend/app/services/agent_orchestrator.py:387-420 | only CTR and CVR are compared, so any other metric neither compares nor raises; when no test raises, every comparison names the control, never a same-named treatment, with significance iff p < 0.05 |
| ChatHandlers.ChatComparisonsStep | backend/app/services/agent_orchestrator.py:387-420 | one more row not named like the control makes the loop raise if its CTR or CVR test raises, and otherwise appends its comparison exactly as the endpoint would |
| ChatHandlers.ChatTreated | backend/app/services/agent_orchestrator.py:391-410 | a metric other than CTR and CVR skips every row |
| ChatHandlers.ChatRaisePersists | backend/app/services/agent_orchestrator.py:384-420 | a raise among the first k rows is a raise of the whole loop |
| ChatHandlers.ChatRows | backend/app/services/agent_orchestrator.py:357-378 | one row per variant, in order |
| ChatHandlers.ChatAbOutcome | backend/app/services/agent_orchestrator.py:331-451 | a non-string metric type raises; fewer than two variants asks for clarification; the error reply exactly when a comparison raises; otherwise the rows, comparisons against the control, and the warning |
| ChatHandlers.ChatOutcomeOf | backend/app/services/agent_orchestrator.py:355-451 | with two variants and a text metric, the answer is the error reply or the rows, comparisons and warning, as the comparisons decide |
| ChatHandlers.ChatVariantRows | backend/app/services/agent_orchestrator.py:357-378 | the rows loop yields ChatRows |
| ChatHandlers.ChatCompareAll | backend/app/services/agent_orchestrator.py:384-420 | the comparison loop yields ChatComparisons, stopping at the first raising test |
| ChatHandlers.HandleAbTestAnalysis | backend/app/services/agent_orchestrator.py:331-451 | the handler, with its `except` reply, yields ChatAbOutcome |
| ChatHandlers.ChatAnswersWithUsers | backend/app/services/agent_orchestrator.py:357-451 | with a sound Wald interval and users in every variant, two variants and a text metric always get an answer |
| ChatHandlers.ControlWithoutUsersErrors | backend/app/services/agent_orchestrator.py:359-451 | a control with 5 clicks and no user count, against "B" with 100 users and 10 clicks on "ctr", gets the error reply when the score method raises |
| ChatHandlers.ChatNeverComparesRevenue | backend/app/services/agent_orchestrator.py:391-408 | a revenue metric answers with no comparisons at all |
| ChatHandlers.ChatAgreesWithEndpoint | backend/app/services/agent_orchestrator.py:357-451 | for ctr and cvr without zero order counts, chat gives its error reply exactly when the endpoint gives its 500, and otherwise the endpoint's variants and comparisons |
| ChatHandlers.ChatRowsMatchEndpoint | backend/app/services/agent_orchestrator.py:357-378 | without zero order counts, the chat rows are the endpoint's variant results |
| ChatHandlers.ChatRate | backend/app/services/agent_orchestrator.py:469-472 | rate·users = outcome when users > 0, else 0 |
| ChatHandlers.ChatRates | backend/app/services/agent_orchestrator.py:468-477 | proportion mode divides each outcome by its users; other modes pass outcomes through |
| ChatHandlers.ChatDiD | backend/app/services/agent_orchestrator.py:480-490 | outside proportion mode did is the difference of the raw outcome changes; symmetric interval; p-value absent iff se ≤ 0 |
| ChatHandlers.ChatDiDMatchesEndpoint | backend/app/services/agent_orchestrator.py:468-490 | with positive users, chat gives the same DiD as the endpoint on one data point per cell |
| ChatHandlers.ChatRateInUnitInterval | backend/app/services/agent_orchestrator.py:469-472 | 0 ≤ outcome ≤ users gives a rate in [0, 1] |
| ChatHandlers.ChatIntervalBrackets | backend/app/services/agent_orchestrator.py:468-490 | on such proportion data the chat interval contains the estimate |

## Left out

- Floating point: every float is an exact `real`, so rounding, NaN and infinities other than the relative uplift's `inf` are not modelled.
- The statistics libraries are oracles: `np.sqrt`, `stats.norm.cdf`, `NormalIndPower.solve_power`, `proportions_ztest`, `confint_proportions_2indep`. Nothing is proved about their numeric accuracy.
- `calculate_mean_difference` (Welch's t-test) is not modelled: it works on numpy arrays through library calls and no route calls it.
- `calculate_uplift_model`'s logistic regressions and feature flattening are not modelled. The predicted uplift per row, or the fitting error, is an input of `CausalAnalyzer.UpliftModel`.
- Every language-model call is an oracle, and `agent_report_writer.py` is not part of this model. The `llm_report_markdown` of the responses is therefore absent, along with any failure of the report call.
- `re.search` and `json.loads` in `_parse_llm_response` are oracles, as is `str()` of a decoded value that is not a string.
- The `_format_*_response` helpers and `_format_messages_for_llm` build display text only and are not modelled; the chat handlers return the values those helpers would format.
- The greeting and clarification texts are carried as the values `process_message` reads. The built-in Traditional Chinese greeting, used when `greeting_response` is absent, is `None` in `Orchestrator.Route.Greeting`.
- `print` and the traceback logging on parse failures are left out.
- `str.lower` and `str.strip` follow Python for ASCII letters and for the whitespace characters Python recognises; Unicode case mapping beyond ASCII is not modelled.
- Chat parameters are modelled with the JSON shapes the handlers expect: a list of variant objects with integer counts, numbers for the DiD fields. A wrongly typed value, or an explicit null for `name` or `users`, raises in the source and is not modelled, except for a non-string metric type (`MetricTypeRaised`).
- Pydantic's coercions (e.g. a numeric string accepted as a number) are not modelled: validity predicates check the declared ranges and literals on already typed values.
- The text of exceptions in the 500 details is `CausalApi.Describe` of a fault; Python's exact exception messages are not reproduced.
- `main.py`, `api/chat_agent.py`, `models/chat_agent.py` and the environment reading in `core/config.py` are not part of this model; `MIN_SAMPLE_SIZE_WARNING` is the constant 100.
- StatsCalculator.SampleSizeProportion: states the result only in terms of the `solve_power` oracle, with no claim about the size of n.
- CausalAnalyzer.MediumCut: the cut is the exact ⌊7n/10⌋, while the source truncates the double product `n * 0.7`. The two differ exactly where that product rounds below 7n/10, which happens only at multiples of 10. For n up to 10^6 there are 18 719 such values, the first being 90, 170, 180 and 330; there the source's medium cut is one lower (62 instead of 63 at n = 90). The high cut, `int(n * 0.3)`, agrees with ⌊3n/10⌋ over that range.
- AbTestApi.AbTestAnalysis: the 500's detail holds only the "Error analyzing A/B test: " prefix; the exception text after it is not modelled.
- The chat's error reply (`AbErrored`) carries no text; the exception message in it is not modelled.
- The key order of a decoded JSON object, which `", ".join` follows when the primary metrics are an object, is the `keyOrder` oracle; only `SoundKeyOrder` is assumed about it.
- CausalAnalyzer.UpliftModel: an empty `data` list is answered with the both-groups failure. In the source `pd.DataFrame([])` has no `treatment` column, so `df['treatment']` raises a `KeyError` before the group check; the endpoint turns either into a 500, but the message differs.
- DesignApi.DesignExperimentEndpoint: the 500's detail holds only the "Error designing experiment: " prefix; the exception text after it is not modelled.
- DesignAgent.Str: fixes `str()` only for strings; other values are rendered by the `show` oracle.
