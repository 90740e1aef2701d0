/**
 * The experiment design request and the design card
 * (backend/app/models/experiment_design.py).
 */
module DesignModels {
  import opened Wrappers

  /** The defaults of the request's `alpha` and `power`. */
  const DefaultAlpha: real := 0.05
  const DefaultPower: real := 0.8

  datatype DesignRequest = DesignRequest(
    description: string,
    baselineRate: Option<real>,
    minimumDetectableEffect: Option<real>,
    alpha: real,
    power: real,
    expectedDailyTraffic: Option<int>)

  /**
   * The field constraints request validation enforces: a baseline rate in
   * [0, 1], a positive effect, alpha and power in [0, 1], positive traffic.
   */
  predicate ValidDesignRequest(r: DesignRequest) {
    (r.baselineRate.Some? ==> 0.0 <= r.baselineRate.value <= 1.0) &&
    (r.minimumDetectableEffect.Some? ==> r.minimumDetectableEffect.value > 0.0) &&
    0.0 <= r.alpha <= 1.0 &&
    0.0 <= r.power <= 1.0 &&
    (r.expectedDailyTraffic.Some? ==> r.expectedDailyTraffic.value > 0)
  }

  /** A request that gives only the description: every optional field absent, the defaults applied. */
  function DescriptionOnly(description: string): (r: DesignRequest)
    ensures ValidDesignRequest(r)
    ensures r.alpha == DefaultAlpha && r.power == DefaultPower
    ensures r.baselineRate.None? && r.minimumDetectableEffect.None? && r.expectedDailyTraffic.None?
  {
    DesignRequest(description, None, None, DefaultAlpha, DefaultPower, None)
  }

  /** The structured design card. */
  datatype DesignCard = DesignCard(
    goal: string,
    hypothesis: string,
    primaryMetrics: seq<string>,
    secondaryMetrics: seq<string>,
    designType: string,
    variants: string,
    population: Option<string>,
    randomizationUnit: Option<string>,
    trafficAllocation: Option<string>,
    sampleSizePerVariant: Option<int>,
    estimatedDurationDays: Option<int>,
    guardrailMetrics: seq<string>,
    notes: seq<string>)
}
