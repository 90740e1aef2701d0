/**
 * The request bodies of the analysis endpoints and the field constraints the
 * request validation enforces before any handler runs
 * (backend/app/models/analysis_inputs.py). `Literal` fields are kept as
 * strings; the validity predicates say which strings are accepted.
 */
module AnalysisInputs {
  import opened Wrappers

  /** One variant of an A/B test. */
  datatype VariantData = VariantData(
    name: string,
    users: int,
    clicks: Option<int>,
    orders: Option<int>,
    revenue: Option<real>)

  /** `users > 0`; clicks, orders and revenue non-negative when present. */
  predicate ValidVariant(v: VariantData) {
    v.users > 0 &&
    (v.clicks.Some? ==> v.clicks.value >= 0) &&
    (v.orders.Some? ==> v.orders.value >= 0) &&
    (v.revenue.Some? ==> v.revenue.value >= 0.0)
  }

  predicate ValidAbMetricType(m: string) {
    m == "ctr" || m == "cvr" || m == "revenue_per_user" || m == "custom"
  }

  datatype AbTestRequest = AbTestRequest(variants: seq<VariantData>, overallMetricType: string)

  /** At least two variants, each valid, and one of the four metric types. */
  predicate ValidAbRequest(r: AbTestRequest) {
    |r.variants| >= 2 &&
    (forall i :: 0 <= i < |r.variants| ==> ValidVariant(r.variants[i])) &&
    ValidAbMetricType(r.overallMetricType)
  }

  /** Nothing ties the counts to the number of users: more clicks than users is accepted. */
  lemma ClicksNotBoundedByUsers()
    ensures var v := VariantData("treatment", 10, Some(25), Some(40), None);
      ValidVariant(v) && v.clicks.value > v.users && v.orders.value > v.users
  {
  }

  /** One raw observation for the Difference-in-Differences analysis. */
  datatype DiDDataPoint = DiDDataPoint(group: string, period: string, users: int, outcome: real)

  predicate ValidDiDPoint(p: DiDDataPoint) {
    (p.group == "treatment" || p.group == "control") &&
    (p.period == "pre" || p.period == "post") &&
    p.users > 0 &&
    p.outcome >= 0.0
  }

  datatype DiDRequest = DiDRequest(data: seq<DiDDataPoint>, metricType: string)

  /** Every point valid and the metric one of "proportion" or "mean"; the number of points per cell is free. */
  predicate ValidDiDRequest(r: DiDRequest) {
    (forall i :: 0 <= i < |r.data| ==> ValidDiDPoint(r.data[i])) &&
    (r.metricType == "proportion" || r.metricType == "mean")
  }

  /** An empty list of points, and two points for the same cell, are both accepted. */
  lemma DiDCellsNotConstrained()
    ensures ValidDiDRequest(DiDRequest([], "mean"))
    ensures ValidDiDRequest(DiDRequest([DiDDataPoint("treatment", "pre", 5, 1.0),
                                        DiDDataPoint("treatment", "pre", 7, 2.0)], "proportion"))
  {
  }

  /** One row for the uplift model; the optional features only feed the regression and are left out. */
  datatype UpliftPoint = UpliftPoint(treatment: int, outcome: int)

  predicate ValidUpliftPoint(p: UpliftPoint) {
    0 <= p.treatment <= 1 && 0 <= p.outcome <= 1
  }

  predicate ValidUpliftData(data: seq<UpliftPoint>) {
    forall i :: 0 <= i < |data| ==> ValidUpliftPoint(data[i])
  }

  datatype CausalRequest = CausalRequest(
    mode: string,
    didData: Option<DiDRequest>,
    upliftData: Option<seq<UpliftPoint>>)

  /** The mode is "did" or "uplift"; either data block may be missing whatever the mode. */
  predicate ValidCausalRequest(r: CausalRequest) {
    (r.mode == "did" || r.mode == "uplift") &&
    (r.didData.Some? ==> ValidDiDRequest(r.didData.value)) &&
    (r.upliftData.Some? ==> ValidUpliftData(r.upliftData.value))
  }
}
