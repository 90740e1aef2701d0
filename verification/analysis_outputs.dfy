/**
 * The records the A/B test endpoint returns (backend/app/models/analysis_outputs.py).
 * The Difference-in-Differences and uplift records live with the code that
 * builds them, in `CausalAnalyzer`.
 */
module AnalysisOutputs {
  import opened Wrappers
  import StatsCalculator

  /** One variant as reported: its counts and the per-user rates derived from them. */
  datatype VariantResult = VariantResult(
    name: string,
    users: int,
    clicks: Option<int>,
    orders: Option<int>,
    revenue: Option<real>,
    ctr: Option<real>,
    cvr: Option<real>,
    arpu: Option<real>)

  /** One treatment compared with the control on the request's metric. */
  datatype Comparison = Comparison(
    treatmentName: string,
    controlName: string,
    metricName: string,
    absoluteDifference: real,
    relativeUplift: StatsCalculator.Uplift,
    pValue: real,
    ciLower: real,
    ciUpper: real,
    isSignificant: bool)

  /** The structured results and the warnings of one analysis; the written report is left out. */
  datatype AbAnalysis = AbAnalysis(
    variants: seq<VariantResult>,
    comparisons: seq<Comparison>,
    primaryMetric: string,
    warnings: seq<string>)
}
