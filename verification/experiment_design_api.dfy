/**
 * The experiment design endpoint (backend/app/api/experiment_design.py):
 * the sample size and duration it works out before calling the design
 * agent, and the 500 response every failure becomes.
 */
module DesignApi {
  import opened Wrappers
  import opened JsonValue
  import opened StatsLib
  import opened StatsCalculator
  import opened DesignModels
  import opened DesignAgent

  /** The endpoint always sizes for a relative effect between two variants. */
  const SizingEffectType: string := "relative"
  const SizingVariants: int := 2

  /** What went wrong behind a 500 response. */
  datatype DesignApiFault =
    | SizingFailed
    | AgentFailed(fault: DesignFault)

  /** The start of the 500's detail; the exception's own message follows it. */
  const DesignErrorPrefix: string := "Error designing experiment: "

  datatype HttpError = HttpError(status: int, detail: string, fault: DesignApiFault)

  datatype Sizing = Sizing(sampleSize: Option<int>, estimatedDuration: Option<int>)

  /**
   * The sample size when both the baseline and the effect are given, and the
   * duration when the traffic is given as well; a failing power solver
   * fails the request.
   */
  function PlannedSizing(r: DesignRequest, lib: Lib): (s: Result<Sizing, DesignApiFault>)
    requires ValidDesignRequest(r)
    ensures r.baselineRate.None? || r.minimumDetectableEffect.None? ==> s == Success(Sizing(None, None))
    ensures r.baselineRate.Some? && r.minimumDetectableEffect.Some? ==>
      var n := SampleSizeProportion(r.baselineRate.value, r.minimumDetectableEffect.value,
                                    r.alpha, r.power, SizingEffectType, lib);
      (s.Failure? <==> n.None?) &&
      (s.Success? ==> s.value.sampleSize == n) &&
      (s.Success? ==> (s.value.estimatedDuration.Some? <==> r.expectedDailyTraffic.Some?)) &&
      (s.Success? && r.expectedDailyTraffic.Some? ==>
        s.value.estimatedDuration == EstimateExperimentDuration(n.value, SizingVariants, r.expectedDailyTraffic.value as real))
    ensures s.Failure? ==> s.error == SizingFailed
  {
    if r.baselineRate.Some? && r.minimumDetectableEffect.Some? then
      match SampleSizeProportion(r.baselineRate.value, r.minimumDetectableEffect.value,
                                 r.alpha, r.power, SizingEffectType, lib)
      case None => Failure(SizingFailed)
      case Some(n) =>
        if r.expectedDailyTraffic.Some? then
          Success(Sizing(Some(n), EstimateExperimentDuration(n, SizingVariants, r.expectedDailyTraffic.value as real)))
        else Success(Sizing(Some(n), None))
    else Success(Sizing(None, None))
  }

  /** An optional request number as the agent receives it: `None` stays null. */
  function OptionalNumber(x: Option<real>): (j: Json)
    ensures x.None? <==> j == JNull
    ensures x.Some? ==> j == JNum(x.value)
  {
    if x.Some? then JNum(x.value) else JNull
  }

  /** `POST /experiment-design`: the card and explanation, or a 500 naming the failure. */
  function DesignExperimentEndpoint(r: DesignRequest, lib: Lib, oracles: DesignOracles): (res: Result<DesignOutput, HttpError>)
    requires ValidDesignRequest(r)
    ensures res.Failure? ==> res.error.status == 500 && res.error.detail == DesignErrorPrefix
    ensures PlannedSizing(r, lib).Failure? ==> res == Failure(HttpError(500, DesignErrorPrefix, SizingFailed))
    ensures PlannedSizing(r, lib).Success? ==>
      var sizing := PlannedSizing(r, lib).value;
      var agent := DesignExperiment(JStr(r.description), OptionalNumber(r.baselineRate),
                                    OptionalNumber(r.minimumDetectableEffect),
                                    sizing.sampleSize, sizing.estimatedDuration, oracles);
      (res.Success? <==> agent.Success?) &&
      (res.Success? ==> res.value == agent.value) &&
      (res.Success? ==> res.value.card.sampleSizePerVariant == sizing.sampleSize) &&
      (res.Success? ==> res.value.card.estimatedDurationDays == sizing.estimatedDuration) &&
      (res.Failure? ==> res.error.fault == AgentFailed(agent.error))
  {
    match PlannedSizing(r, lib)
    case Failure(f) => Failure(HttpError(500, DesignErrorPrefix, f))
    case Success(sizing) =>
      match DesignExperiment(JStr(r.description), OptionalNumber(r.baselineRate),
                             OptionalNumber(r.minimumDetectableEffect),
                             sizing.sampleSize, sizing.estimatedDuration, oracles)
      case Failure(f) => Failure(HttpError(500, DesignErrorPrefix, AgentFailed(f)))
      case Success(out) => Success(out)
  }

  /**
   * A request that validates never reaches the duration's "no traffic"
   * branch: with a sample size and a traffic figure there is always a
   * duration, and it covers both variants' samples.
   */
  lemma ValidTrafficAlwaysGivesDuration(r: DesignRequest, lib: Lib)
    requires ValidDesignRequest(r)
    requires r.expectedDailyTraffic.Some?
    requires PlannedSizing(r, lib).Success? && PlannedSizing(r, lib).value.sampleSize.Some?
    ensures var s := PlannedSizing(r, lib).value;
      s.estimatedDuration.Some? &&
      s.estimatedDuration.value as real * r.expectedDailyTraffic.value as real >= (s.sampleSize.value * 2) as real
  {
  }

  /** A description alone produces a card with neither a sample size nor a duration. */
  lemma DescriptionOnlyHasNoSizing(description: string, lib: Lib, oracles: DesignOracles)
    ensures var res := DesignExperimentEndpoint(DescriptionOnly(description), lib, oracles);
      res.Success? ==> res.value.card.sampleSizePerVariant.None? && res.value.card.estimatedDurationDays.None?
  {
  }
}
