/**
 * Experiment sizing and the two-proportion comparison
 * (backend/app/services/stats_calculator.py).
 */
module StatsCalculator {
  import opened Wrappers
  import opened StatsLib

  /** The bounds into which both rates are clamped before the power analysis. */
  const MinRate: real := 0.01
  const MaxRate: real := 0.99

  /** Returned instead of a power analysis when the pooled standard deviation is zero. */
  const FallbackSampleSize: int := 1000

  /** `max(0.01, min(0.99, x))`. */
  function ClampRate(x: real): (r: real)
    ensures MinRate <= r <= MaxRate
    ensures MinRate <= x <= MaxRate ==> r == x
    ensures x < MinRate ==> r == MinRate
    ensures x > MaxRate ==> r == MaxRate
  {
    var upper := if x < MaxRate then x else MaxRate;
    if upper > MinRate then upper else MinRate
  }

  /**
   * The treatment rate an effect of size `mde` implies: a relative effect
   * moves the baseline by the fraction `mde` of itself, any other effect type
   * ("absolute") moves it by `mde` itself.
   */
  function TreatmentRate(baseline: real, mde: real, effectType: string): (t: real)
    ensures effectType == "relative" ==> t - baseline == baseline * mde
    ensures effectType == "relative" && baseline != 0.0 ==> (t - baseline) / baseline == mde
    ensures effectType != "relative" ==> t - baseline == mde
  {
    if effectType == "relative" then baseline * (1.0 + mde) else baseline + mde
  }

  datatype RatePair = RatePair(baseline: real, treatment: real)

  /** Both rates after clamping, as the power analysis uses them. */
  function SizingRates(baseline: real, mde: real, effectType: string): (p: RatePair)
    ensures MinRate <= p.baseline <= MaxRate && MinRate <= p.treatment <= MaxRate
    ensures p.baseline == ClampRate(baseline)
    ensures p.treatment == ClampRate(TreatmentRate(baseline, mde, effectType))
  {
    RatePair(ClampRate(baseline), ClampRate(TreatmentRate(baseline, mde, effectType)))
  }

  /** `p(1 - p)` summed over the two clamped rates: what the square root is taken of. */
  function PooledVariance(p: RatePair): real {
    p.baseline * (1.0 - p.baseline) + p.treatment * (1.0 - p.treatment)
  }

  /** For clamped rates the pooled variance is strictly positive. */
  lemma PooledVariancePositive(p: RatePair)
    requires MinRate <= p.baseline <= MaxRate && MinRate <= p.treatment <= MaxRate
    ensures PooledVariance(p) > 0.0
  {
    BernoulliVariancesPositive(p.baseline, p.treatment);
  }

  /** Two rates strictly between 0 and 1 have a positive summed variance `x(1-x) + y(1-y)`. */
  lemma BernoulliVariancesPositive(x: real, y: real)
    requires 0.0 < x < 1.0 && 0.0 < y < 1.0
    ensures x * (1.0 - x) + y * (1.0 - y) > 0.0
  {
    ProductPositive(x, 1.0 - x);
    ProductPositive(y, 1.0 - y);
  }

  lemma ProductPositive(x: real, y: real)
    requires 0.0 < x && 0.0 < y
    ensures x * y > 0.0
  {
  }

  /** `std_effect` in the source. */
  function StdEffect(baseline: real, mde: real, effectType: string, lib: Lib): real {
    lib.sqrt(PooledVariance(SizingRates(baseline, mde, effectType)))
  }

  /** `effect_size / std_effect` in the source (used only when `std_effect != 0`). */
  function StandardizedEffect(baseline: real, mde: real, effectType: string, lib: Lib): real
  {
    var p := SizingRates(baseline, mde, effectType);
    var std := StdEffect(baseline, mde, effectType, lib);
    if std == 0.0 then 0.0 else Abs(p.treatment - p.baseline) / std
  }

  /**
   * `calculate_sample_size_proportion`: the per-variant sample size, `None`
   * when the power analysis raises.
   */
  function SampleSizeProportion(baseline: real, mde: real, alpha: real, power: real,
                                effectType: string, lib: Lib): (r: Option<int>)
    ensures StdEffect(baseline, mde, effectType, lib) == 0.0 ==> r == Some(FallbackSampleSize)
    ensures StdEffect(baseline, mde, effectType, lib) != 0.0 ==>
      (r.None? <==> lib.solvePower(StandardizedEffect(baseline, mde, effectType, lib), alpha, power).None?)
    ensures StdEffect(baseline, mde, effectType, lib) != 0.0 && r.Some? ==>
      var n := lib.solvePower(StandardizedEffect(baseline, mde, effectType, lib), alpha, power).value;
      n <= r.value as real < n + 1.0
  {
    if StdEffect(baseline, mde, effectType, lib) == 0.0 then Some(FallbackSampleSize)
    else
      match lib.solvePower(StandardizedEffect(baseline, mde, effectType, lib), alpha, power)
      case None => None
      case Some(n) => Some(Ceil(n))
  }

  /**
   * With a sound square root the `return 1000` fallback is unreachable: the
   * result is always the rounded-up power analysis.
   */
  lemma FallbackUnreachable(baseline: real, mde: real, alpha: real, power: real, effectType: string, lib: Lib)
    requires SoundSqrt(lib)
    ensures StdEffect(baseline, mde, effectType, lib) > 0.0
    ensures var n := lib.solvePower(StandardizedEffect(baseline, mde, effectType, lib), alpha, power);
      SampleSizeProportion(baseline, mde, alpha, power, effectType, lib) ==
        if n.None? then None else Some(Ceil(n.value))
  {
    var p := SizingRates(baseline, mde, effectType);
    PooledVariancePositive(p);
    assert 0.0 <= lib.sqrt(PooledVariance(p)) && (lib.sqrt(PooledVariance(p)) == 0.0 <==> PooledVariance(p) == 0.0);
  }

  /** The relative uplift in percent, which may be positive infinity. */
  datatype Uplift = Finite(percent: real) | PositiveInfinity

  /** `x / n if n > 0 else 0.0`. */
  function Rate(x: real, n: real): (p: real)
    ensures n > 0.0 ==> p * n == x
    ensures n <= 0.0 ==> p == 0.0
  {
    if n > 0.0 then x / n else 0.0
  }

  /**
   * The relative uplift of `p2` over `p1`, with the source's handling of a
   * zero (or negative) base rate.
   */
  function RelativeUplift(p1: real, p2: real): (u: Uplift)
    ensures p1 > 0.0 ==> u.Finite? && u.percent * p1 == (p2 - p1) * 100.0
    ensures p1 <= 0.0 && p2 == p1 ==> u == Finite(0.0)
    ensures p1 <= 0.0 && p2 != p1 ==> u == PositiveInfinity
  {
    var diff := p2 - p1;
    if p1 > 0.0 then Finite(diff / p1 * 100.0)
    else if diff == 0.0 then Finite(0.0)
    else PositiveInfinity
  }

  /**
   * The confidence interval for the difference: the score interval, the Wald
   * interval when the score method raises, and its bounds put in order;
   * `None` when the Wald method raises as well, which nothing catches.
   */
  function OrderedInterval(x1: real, n1: real, x2: real, n2: real, lib: Lib): (ci: Option<(real, real)>)
    ensures ci.None? <==> lib.scoreInterval(x1, n1, x2, n2).None? && lib.waldInterval(x1, n1, x2, n2).None?
    ensures ci.Some? ==> ci.value.0 <= ci.value.1
    ensures ci.Some? ==>
      var raw := if lib.scoreInterval(x1, n1, x2, n2).Some? then lib.scoreInterval(x1, n1, x2, n2).value
                 else lib.waldInterval(x1, n1, x2, n2).value;
      multiset{ci.value.0, ci.value.1} == multiset{raw.0, raw.1}
  {
    var raw := match lib.scoreInterval(x1, n1, x2, n2)
               case Some(i) => Some(i)
               case None => lib.waldInterval(x1, n1, x2, n2);
    match raw
    case None => None
    case Some(i) => Some(if i.0 > i.1 then (i.1, i.0) else i)
  }

  datatype ProportionTest = ProportionTest(
    absoluteDifference: real,
    relativeUplift: Uplift,
    ciLower: real,
    ciUpper: real,
    pValue: real)

  /**
   * `calculate_proportion_difference(n1, x1, n2, x2)`: group 2 compared with
   * group 1; `None` when it raises, because both interval methods raise.
   */
  function ProportionDifference(n1: real, x1: real, n2: real, x2: real, lib: Lib): (t: Option<ProportionTest>)
    ensures t.None? <==> lib.scoreInterval(x1, n1, x2, n2).None? && lib.waldInterval(x1, n1, x2, n2).None?
    ensures t.Some? ==> t.value.absoluteDifference == Rate(x2, n2) - Rate(x1, n1)
    ensures t.Some? ==> t.value.relativeUplift == RelativeUplift(Rate(x1, n1), Rate(x2, n2))
    ensures t.Some? ==> t.value.ciLower <= t.value.ciUpper
    ensures t.Some? ==> OrderedInterval(x1, n1, x2, n2, lib) == Some((t.value.ciLower, t.value.ciUpper))
    ensures t.Some? ==> t.value.pValue == lib.zTestPValue(x1, n1, x2, n2)
  {
    var p1 := Rate(x1, n1);
    var p2 := Rate(x2, n2);
    match OrderedInterval(x1, n1, x2, n2, lib)
    case None => None
    case Some(ci) => Some(ProportionTest(p2 - p1, RelativeUplift(p1, p2), ci.0, ci.1, lib.zTestPValue(x1, n1, x2, n2)))
  }

  /**
   * With a Wald interval that raises only on an empty group, the test raises
   * exactly when a group is empty and the score method raises too; two
   * non-empty groups always get a result.
   */
  lemma ProportionDifferenceRaises(n1: real, x1: real, n2: real, x2: real, lib: Lib)
    requires SoundWald(lib)
    ensures ProportionDifference(n1, x1, n2, x2, lib).None? <==>
      lib.scoreInterval(x1, n1, x2, n2).None? && (n1 == 0.0 || n2 == 0.0)
  {
    assert lib.waldInterval(x1, n1, x2, n2).None? <==> n1 == 0.0 || n2 == 0.0;
  }

  /** Identical groups have no difference and a zero relative uplift. */
  lemma {:induction false} IdenticalGroupsNoUplift(n: real, x: real, lib: Lib)
    ensures var t := ProportionDifference(n, x, n, x, lib);
      t.Some? ==> t.value.absoluteDifference == 0.0 && t.value.relativeUplift == Finite(0.0)
  {
    var p := Rate(x, n);
    if p > 0.0 {
      var u := RelativeUplift(p, p);
      assert u.percent * p == 0.0;
    }
  }

  /** 10% against 12% out of 1000 each: a difference of 0.02 and an uplift of 20%. */
  lemma {:induction false} TenVersusTwelvePercent(lib: Lib)
    requires SoundWald(lib)
    ensures var t := ProportionDifference(1000.0, 100.0, 1000.0, 120.0, lib);
      t.Some? && t.value.absoluteDifference == 0.02 && t.value.relativeUplift == Finite(20.0)
  {
    ProportionDifferenceRaises(1000.0, 100.0, 1000.0, 120.0, lib);
    assert Rate(100.0, 1000.0) == 0.1;
    assert Rate(120.0, 1000.0) == 0.12;
  }

  /**
   * `estimate_experiment_duration`: the days needed to reach the total sample
   * at the given daily traffic, `None` when there is no positive traffic.
   */
  function EstimateExperimentDuration(sampleSizePerVariant: int, numVariants: int, dailyTraffic: real): (r: Option<int>)
    ensures r.None? <==> dailyTraffic <= 0.0
    ensures r.Some? ==> r.value as real * dailyTraffic >= (sampleSizePerVariant * numVariants) as real
    ensures r.Some? ==> (r.value - 1) as real * dailyTraffic < (sampleSizePerVariant * numVariants) as real
  {
    if dailyTraffic <= 0.0 then None
    else
      var total := (sampleSizePerVariant * numVariants) as real;
      var days := Ceil(total / dailyTraffic);
      DurationBounds(total, dailyTraffic, days);
      Some(days)
  }

  /** `ceil(total / traffic)` is the least number of days whose traffic covers `total`. */
  lemma DurationBounds(total: real, traffic: real, days: int)
    requires traffic > 0.0
    requires total / traffic <= days as real < total / traffic + 1.0
    ensures days as real * traffic >= total
    ensures (days - 1) as real * traffic < total
  {
    var q := total / traffic;
    assert q * traffic == total;
    assert days as real * traffic >= q * traffic;
    assert (days - 1) as real < q;
    assert (days - 1) as real * traffic < q * traffic;
  }

  /** 1000 per variant, 2 variants: 20 days at 100 a day, 14 at 150 a day, none at 0. */
  lemma DurationExamples()
    ensures EstimateExperimentDuration(1000, 2, 100.0) == Some(20)
    ensures EstimateExperimentDuration(1000, 2, 150.0) == Some(14)
    ensures EstimateExperimentDuration(1000, 2, 0.0) == None
  {
    var d := EstimateExperimentDuration(1000, 2, 150.0).value;
    assert d as real * 150.0 >= 2000.0 && (d - 1) as real * 150.0 < 2000.0;
    assert d == 14;
  }
}
