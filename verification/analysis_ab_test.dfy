/**
 * The A/B(/n) test endpoint (backend/app/api/analysis_ab_test.py): per-variant
 * rates, the choice of the control, one comparison per treatment on the
 * requested metric, and the warnings. The written report is left out.
 */
module AbTestApi {
  import opened Wrappers
  import opened PyStr
  import opened StatsLib
  import opened StatsCalculator
  import opened AnalysisInputs
  import opened AnalysisOutputs

  /** `MIN_SAMPLE_SIZE_WARNING` (backend/app/core/config.py). */
  const MinSampleSizeWarning: int := 100

  /** A comparison is significant when its p-value is below this. */
  const SignificanceLevel: real := 0.05

  /** The critical value of the revenue interval. */
  const RevenueZ: real := 1.96

  const MultipleComparisonsWarning: string :=
    "Multiple comparisons detected. Consider adjusting for multiple testing (e.g., Bonferroni correction)."

  function LowSampleWarning(minUsers: int): string {
    "Low sample size detected: minimum " + IntToString(minUsers) + " users. Results may be unreliable."
  }

  function AsReal(n: Option<int>): Option<real> {
    if n.Some? then Some(n.value as real) else None
  }

  /** A count divided by the number of users, present only when the count is and there are users. */
  function PerUser(count: Option<real>, users: int): (r: Option<real>)
    ensures r.Some? <==> count.Some? && users > 0
    ensures r.Some? ==> r.value * users as real == count.value
  {
    if count.Some? && users > 0 then Some(count.value / users as real) else None
  }

  /** The reported variant: the request's counts and the three rates derived from them. */
  function VariantMetrics(v: VariantData): (m: VariantResult)
    ensures m.name == v.name && m.users == v.users
    ensures m.clicks == v.clicks && m.orders == v.orders && m.revenue == v.revenue
    ensures m.ctr.Some? <==> v.clicks.Some? && v.users > 0
    ensures m.ctr.Some? ==> m.ctr.value * v.users as real == v.clicks.value as real
    ensures m.cvr.Some? <==> v.orders.Some? && v.users > 0
    ensures m.cvr.Some? ==> m.cvr.value * v.users as real == v.orders.value as real
    ensures m.arpu.Some? <==> v.revenue.Some? && v.users > 0
    ensures m.arpu.Some? ==> m.arpu.value * v.users as real == v.revenue.value
  {
    VariantResult(v.name, v.users, v.clicks, v.orders, v.revenue,
                  PerUser(AsReal(v.clicks), v.users),
                  PerUser(AsReal(v.orders), v.users),
                  PerUser(v.revenue, v.users))
  }

  /** The reported click-through rate is the rate the comparison uses. */
  lemma ReportedRateIsComparedRate(v: VariantData)
    requires ValidVariant(v)
    ensures v.clicks.Some? ==> VariantMetrics(v).ctr == Some(Rate(v.clicks.value as real, v.users as real))
    ensures v.orders.Some? ==> VariantMetrics(v).cvr == Some(Rate(v.orders.value as real, v.users as real))
  {
  }

  /** A name that is "control" once lower-cased. */
  predicate IsControlName(name: string) {
    Lower(name) == "control"
  }

  /** The first index at or after `k` whose variant is named "control" in any case. */
  function FirstControl(vs: seq<VariantResult>, k: nat): (r: Option<nat>)
    requires k <= |vs|
    ensures r.Some? ==> k <= r.value < |vs| && IsControlName(vs[r.value].name)
    ensures r.Some? ==> forall j :: k <= j < r.value ==> !IsControlName(vs[j].name)
    ensures r.None? ==> forall j :: k <= j < |vs| ==> !IsControlName(vs[j].name)
    decreases |vs| - k
  {
    if k == |vs| then None
    else if IsControlName(vs[k].name) then Some(k)
    else FirstControl(vs, k + 1)
  }

  /** The control: the first variant named "control" in any case, otherwise the first variant. */
  function ControlIndex(vs: seq<VariantResult>): (i: nat)
    requires |vs| >= 1
    ensures i < |vs|
    ensures forall j :: 0 <= j < i ==> !IsControlName(vs[j].name)
    ensures IsControlName(vs[i].name) || (i == 0 && forall j :: 0 <= j < |vs| ==> !IsControlName(vs[j].name))
  {
    match FirstControl(vs, 0)
    case Some(i) => i
    case None => 0
  }

  /** `arpu or 0`. */
  function MeanRevenue(v: VariantResult): real {
    v.arpu.GetOr(0.0)
  }

  /**
   * The standard error of the difference in revenue per user, each mean's own
   * standard error being taken as a tenth of the mean.
   */
  function RevenueStandardError(controlMean: real, controlUsers: int, treatmentMean: real, treatmentUsers: int,
                                lib: Lib): real
    requires controlUsers > 0 && treatmentUsers > 0
  {
    var seControl := controlMean * 0.1;
    var seTreatment := treatmentMean * 0.1;
    lib.sqrt(seControl * seControl / controlUsers as real + seTreatment * seTreatment / treatmentUsers as real)
  }

  /** The z statistic of the revenue test, 0 when the standard error is not positive. */
  function RevenueZStatistic(difference: real, se: real): real {
    if se > 0.0 then difference / se else 0.0
  }

  /** The revenue-per-user comparison: a z-test on the two means. */
  function RevenueComparison(treatment: VariantResult, control: VariantResult, lib: Lib): (c: Comparison)
    requires treatment.users > 0 && control.users > 0
    ensures c.treatmentName == treatment.name && c.controlName == control.name
    ensures c.metricName == "Revenue per User"
    ensures c.absoluteDifference == MeanRevenue(treatment) - MeanRevenue(control)
    ensures MeanRevenue(control) > 0.0 ==>
      c.relativeUplift.Finite? && c.relativeUplift.percent * MeanRevenue(control) == c.absoluteDifference * 100.0
    ensures MeanRevenue(control) <= 0.0 ==> c.relativeUplift == Finite(0.0)
    ensures var se := RevenueStandardError(MeanRevenue(control), control.users, MeanRevenue(treatment), treatment.users, lib);
      c.ciUpper - c.absoluteDifference == c.absoluteDifference - c.ciLower &&
      c.ciUpper - c.ciLower == 2.0 * RevenueZ * se &&
      c.pValue == 2.0 * (1.0 - lib.normCdf(Abs(RevenueZStatistic(c.absoluteDifference, se))))
    ensures c.isSignificant <==> c.pValue < SignificanceLevel
  {
    var controlMean := MeanRevenue(control);
    var treatmentMean := MeanRevenue(treatment);
    var diff := treatmentMean - controlMean;
    var relative := if controlMean > 0.0 then diff / controlMean * 100.0 else 0.0;
    var se := RevenueStandardError(controlMean, control.users, treatmentMean, treatment.users, lib);
    var p := 2.0 * (1.0 - lib.normCdf(Abs(RevenueZStatistic(diff, se))));
    Comparison(treatment.name, control.name, "Revenue per User", diff, Finite(relative), p,
               diff - RevenueZ * se, diff + RevenueZ * se, p < SignificanceLevel)
  }

  /**
   * Exchanging the two variants negates the difference, mirrors the interval
   * and leaves the p-value unchanged.
   */
  lemma {:induction false} RevenueSwapNegates(a: VariantResult, b: VariantResult, lib: Lib)
    requires a.users > 0 && b.users > 0
    ensures var ab := RevenueComparison(a, b, lib);
      var ba := RevenueComparison(b, a, lib);
      ba.absoluteDifference == -ab.absoluteDifference &&
      ba.ciLower == -ab.ciUpper && ba.ciUpper == -ab.ciLower &&
      ba.pValue == ab.pValue
  {
    var ma, mb := MeanRevenue(a), MeanRevenue(b);
    var sa, sb := ma * 0.1, mb * 0.1;
    var x, y := sb * sb / b.users as real, sa * sa / a.users as real;
    assert x + y == y + x;
    var se := RevenueStandardError(mb, b.users, ma, a.users, lib);
    assert se == RevenueStandardError(ma, a.users, mb, b.users, lib);
    if se > 0.0 {
      NegatedQuotient(ma - mb, se);
      assert mb - ma == -(ma - mb);
    }
  }

  /** With a sound square root the revenue interval contains the observed difference. */
  lemma RevenueIntervalBrackets(treatment: VariantResult, control: VariantResult, lib: Lib)
    requires treatment.users > 0 && control.users > 0
    requires SoundSqrt(lib)
    ensures var c := RevenueComparison(treatment, control, lib);
      c.ciLower <= c.absoluteDifference <= c.ciUpper
  {
    var seC, seT := MeanRevenue(control) * 0.1, MeanRevenue(treatment) * 0.1;
    SquareOverPositive(seC, control.users as real);
    SquareOverPositive(seT, treatment.users as real);
  }

  lemma SquareOverPositive(x: real, n: real)
    requires n > 0.0
    ensures x * x / n >= 0.0
  {
    assert x * x >= 0.0;
  }

  /** The variant has the counts the metric needs: clicks, orders or revenue. */
  predicate HasMetricData(v: VariantResult, metricType: string) {
    (metricType == "ctr" && v.clicks.Some?) ||
    (metricType == "cvr" && v.orders.Some?) ||
    (metricType == "revenue_per_user" && v.revenue.Some?)
  }

  /** What one treatment gives: nothing to compare, a comparison, or the exception of a proportion test. */
  datatype Treated = Skipped | Compared(comparison: Comparison) | Raised

  /**
   * One treatment against the control; `Skipped` when the metric is "custom"
   * or either side lacks the metric's counts, `Raised` when the proportion
   * test raises. Both proportion tests take the control as the first group,
   * so differences read treatment minus control.
   */
  function CompareOne(treatment: VariantResult, control: VariantResult, metricType: string, lib: Lib): (r: Treated)
    requires metricType == "revenue_per_user" ==> treatment.users > 0 && control.users > 0
    ensures r.Skipped? <==> !(HasMetricData(treatment, metricType) && HasMetricData(control, metricType))
    ensures r.Raised? <==>
      (metricType == "ctr" && treatment.clicks.Some? && control.clicks.Some? &&
       ProportionDifference(control.users as real, control.clicks.value as real,
                            treatment.users as real, treatment.clicks.value as real, lib).None?) ||
      (metricType == "cvr" && treatment.orders.Some? && control.orders.Some? &&
       ProportionDifference(control.users as real, control.orders.value as real,
                            treatment.users as real, treatment.orders.value as real, lib).None?)
    ensures r.Compared? ==> r.comparison.treatmentName == treatment.name && r.comparison.controlName == control.name
    ensures r.Compared? ==> (r.comparison.isSignificant <==> r.comparison.pValue < SignificanceLevel)
    ensures r.Compared? && metricType == "ctr" ==>
      var p1, p2 := Rate(control.clicks.value as real, control.users as real), Rate(treatment.clicks.value as real, treatment.users as real);
      var t := ProportionDifference(control.users as real, control.clicks.value as real,
                                    treatment.users as real, treatment.clicks.value as real, lib);
      t.Some? && r.comparison.ciLower == t.value.ciLower && r.comparison.ciUpper == t.value.ciUpper &&
      r.comparison.metricName == "CTR" && r.comparison.ciLower <= r.comparison.ciUpper &&
      r.comparison.absoluteDifference == p2 - p1 && r.comparison.relativeUplift == RelativeUplift(p1, p2) &&
      r.comparison.pValue == lib.zTestPValue(control.clicks.value as real, control.users as real,
                                             treatment.clicks.value as real, treatment.users as real)
    ensures r.Compared? && metricType == "cvr" ==>
      var p1, p2 := Rate(control.orders.value as real, control.users as real), Rate(treatment.orders.value as real, treatment.users as real);
      var t := ProportionDifference(control.users as real, control.orders.value as real,
                                    treatment.users as real, treatment.orders.value as real, lib);
      t.Some? && r.comparison.ciLower == t.value.ciLower && r.comparison.ciUpper == t.value.ciUpper &&
      r.comparison.metricName == "CVR" && r.comparison.ciLower <= r.comparison.ciUpper &&
      r.comparison.absoluteDifference == p2 - p1 && r.comparison.relativeUplift == RelativeUplift(p1, p2) &&
      r.comparison.pValue == lib.zTestPValue(control.orders.value as real, control.users as real,
                                             treatment.orders.value as real, treatment.users as real)
    ensures r.Compared? && metricType == "revenue_per_user" ==> r.comparison == RevenueComparison(treatment, control, lib)
  {
    if metricType == "ctr" then
      if treatment.clicks.Some? && control.clicks.Some? then
        FromProportionTest(treatment, control, "CTR",
          ProportionDifference(control.users as real, control.clicks.value as real,
                               treatment.users as real, treatment.clicks.value as real, lib))
      else Skipped
    else if metricType == "cvr" then
      if treatment.orders.Some? && control.orders.Some? then
        FromProportionTest(treatment, control, "CVR",
          ProportionDifference(control.users as real, control.orders.value as real,
                               treatment.users as real, treatment.orders.value as real, lib))
      else Skipped
    else if metricType == "revenue_per_user" then
      if treatment.revenue.Some? && control.revenue.Some? then Compared(RevenueComparison(treatment, control, lib))
      else Skipped
    else Skipped
  }

  function FromProportionTest(treatment: VariantResult, control: VariantResult, metricName: string,
                              t: Option<ProportionTest>): Treated {
    match t
    case None => Raised
    case Some(t) =>
      Compared(Comparison(treatment.name, control.name, metricName, t.absoluteDifference, t.relativeUplift,
                          t.pValue, t.ciLower, t.ciUpper, t.pValue < SignificanceLevel))
  }

  /** Between two groups with users, a Wald interval that raises only on an empty group keeps every test from raising. */
  lemma NoRaiseWithUsers(treatment: VariantResult, control: VariantResult, metricType: string, lib: Lib)
    requires SoundWald(lib) && treatment.users > 0 && control.users > 0
    ensures !CompareOne(treatment, control, metricType, lib).Raised?
  {
    if metricType == "ctr" && treatment.clicks.Some? && control.clicks.Some? {
      ProportionDifferenceRaises(control.users as real, control.clicks.value as real,
                                 treatment.users as real, treatment.clicks.value as real, lib);
    }
    if metricType == "cvr" && treatment.orders.Some? && control.orders.Some? {
      ProportionDifferenceRaises(control.users as real, control.orders.value as real,
                                 treatment.users as real, treatment.orders.value as real, lib);
    }
  }

  /** The number of variants not named `name` (exactly, case included). */
  function CountOthers(vs: seq<VariantResult>, name: string): (n: nat)
    ensures n <= |vs|
    ensures n == 0 <==> forall j :: 0 <= j < |vs| ==> vs[j].name == name
    ensures n == |vs| <==> forall j :: 0 <= j < |vs| ==> vs[j].name != name
  {
    if vs == [] then 0
    else CountOthers(vs[..|vs| - 1], name) + (if vs[|vs| - 1].name != name then 1 else 0)
  }

  /** Every variant has users, as request validation guarantees. */
  predicate AllHaveUsers(vs: seq<VariantResult>) {
    forall j :: 0 <= j < |vs| ==> vs[j].users > 0
  }

  /**
   * What the comparisons need: the revenue comparison divides by user
   * counts, the proportion tests give a rate of 0 to an empty group.
   */
  predicate Comparable(vs: seq<VariantResult>, control: VariantResult, metricType: string) {
    metricType == "revenue_per_user" ==> AllHaveUsers(vs) && control.users > 0
  }

  /** `c` is the comparison of some variant of `vs` not named like the control. */
  ghost predicate ComparedVariant(c: Comparison, vs: seq<VariantResult>, control: VariantResult, metricType: string, lib: Lib)
    requires Comparable(vs, control, metricType)
  {
    exists j :: 0 <= j < |vs| && vs[j].name != control.name && CompareOne(vs[j], control, metricType, lib) == Compared(c)
  }

  /** Some variant not named like the control has a proportion test that raises. */
  ghost predicate SomeComparisonRaises(vs: seq<VariantResult>, control: VariantResult, metricType: string, lib: Lib)
    requires Comparable(vs, control, metricType)
  {
    exists j :: 0 <= j < |vs| && vs[j].name != control.name && CompareOne(vs[j], control, metricType, lib).Raised?
  }

  /**
   * The comparisons, in variant order, of every variant whose name differs
   * from the control's with the control; `None` once one of them raises.
   */
  function Comparisons(vs: seq<VariantResult>, control: VariantResult, metricType: string, lib: Lib): (r: Option<seq<Comparison>>)
    requires Comparable(vs, control, metricType)
    ensures r.Some? ==> forall i :: 0 <= i < |r.value| ==> r.value[i].controlName == control.name && r.value[i].treatmentName != control.name
    ensures r.Some? ==> forall i :: 0 <= i < |r.value| ==> (r.value[i].isSignificant <==> r.value[i].pValue < SignificanceLevel)
  {
    if vs == [] then Some([])
    else
      var last := vs[|vs| - 1];
      ComparablePrefix(vs, control, metricType, |vs| - 1);
      match Comparisons(vs[..|vs| - 1], control, metricType, lib)
      case None => None
      case Some(rest) =>
        if last.name == control.name then Some(rest)
        else
          match CompareOne(last, control, metricType, lib)
          case Skipped => Some(rest)
          case Compared(c) => Some(rest + [c])
          case Raised => None
  }

  /** The comparisons raise exactly when the test of some variant not named like the control raises. */
  lemma {:induction false} ComparisonsRaiseIff(vs: seq<VariantResult>, control: VariantResult, metricType: string, lib: Lib)
    requires Comparable(vs, control, metricType)
    ensures Comparisons(vs, control, metricType, lib).None? <==> SomeComparisonRaises(vs, control, metricType, lib)
  {
    if vs != [] {
      var prefix := vs[..|vs| - 1];
      var last := vs[|vs| - 1];
      ComparablePrefix(vs, control, metricType, |vs| - 1);
      ComparisonsRaiseIff(prefix, control, metricType, lib);
      if SomeComparisonRaises(prefix, control, metricType, lib) {
        var j :| 0 <= j < |prefix| && prefix[j].name != control.name && CompareOne(prefix[j], control, metricType, lib).Raised?;
        assert vs[j] == prefix[j];
      }
      if SomeComparisonRaises(vs, control, metricType, lib) {
        var j :| 0 <= j < |vs| && vs[j].name != control.name && CompareOne(vs[j], control, metricType, lib).Raised?;
        if j < |vs| - 1 {
          assert prefix[j] == vs[j];
        }
      }
    }
  }

  /** A raise among the first `k` variants is a raise of the whole loop. */
  lemma RaisePersists(vs: seq<VariantResult>, control: VariantResult, metricType: string, lib: Lib, k: nat)
    requires k <= |vs| && Comparable(vs, control, metricType)
    requires Comparable(vs[..k], control, metricType) && Comparisons(vs[..k], control, metricType, lib).None?
    ensures Comparisons(vs, control, metricType, lib).None?
  {
    ComparisonsRaiseIff(vs[..k], control, metricType, lib);
    var j :| 0 <= j < k && vs[..k][j].name != control.name && CompareOne(vs[..k][j], control, metricType, lib).Raised?;
    assert vs[..k][j] == vs[j];
    ComparisonsRaiseIff(vs, control, metricType, lib);
  }

  /** With users in every group and a Wald interval that raises only on an empty group, nothing raises. */
  lemma {:induction false} ComparisonsDefined(vs: seq<VariantResult>, control: VariantResult, metricType: string, lib: Lib)
    requires SoundWald(lib) && AllHaveUsers(vs) && control.users > 0
    ensures Comparable(vs, control, metricType)
    ensures Comparisons(vs, control, metricType, lib).Some?
  {
    if vs != [] {
      var prefix := vs[..|vs| - 1];
      assert AllHaveUsers(prefix) by {
        forall j | 0 <= j < |prefix| ensures prefix[j].users > 0 {
          assert prefix[j] == vs[j];
        }
      }
      ComparisonsDefined(prefix, control, metricType, lib);
      NoRaiseWithUsers(vs[|vs| - 1], control, metricType, lib);
    }
  }

  /**
   * Each comparison is that of a distinct variant not named like the
   * control: there are at most as many as such variants, and each one is
   * `CompareOne` of one of them.
   */
  lemma {:induction false} ComparisonsFromVariants(vs: seq<VariantResult>, control: VariantResult,
                                                   metricType: string, lib: Lib)
    requires Comparable(vs, control, metricType)
    ensures var r := Comparisons(vs, control, metricType, lib);
      r.Some? ==>
        |r.value| <= CountOthers(vs, control.name) &&
        forall i :: 0 <= i < |r.value| ==> ComparedVariant(r.value[i], vs, control, metricType, lib)
  {
    if vs != [] {
      var prefix := vs[..|vs| - 1];
      var last := vs[|vs| - 1];
      ComparablePrefix(vs, control, metricType, |vs| - 1);
      ComparisonsFromVariants(prefix, control, metricType, lib);
      ComparisonsStep(vs, control, metricType, lib);
      assert CountOthers(vs, control.name) == CountOthers(prefix, control.name) + (if last.name != control.name then 1 else 0);
      var rest := Comparisons(prefix, control, metricType, lib);
      if rest.Some? {
        ComparedInLonger(rest.value, vs, control, metricType, lib);
        var c := CompareOne(last, control, metricType, lib);
        if last.name != control.name && c.Compared? {
          assert ComparedVariant(c.comparison, vs, control, metricType, lib);
        }
      }
    }
  }

  /** Dropping variants keeps the rest comparable. */
  lemma ComparablePrefix(vs: seq<VariantResult>, control: VariantResult, metricType: string, k: nat)
    requires k <= |vs| && Comparable(vs, control, metricType)
    ensures Comparable(vs[..k], control, metricType)
  {
    if metricType == "revenue_per_user" {
      forall j | 0 <= j < k ensures vs[..k][j].users > 0 {
        assert vs[..k][j] == vs[j];
      }
    }
  }

  /** A comparison of one of the first variants is a comparison of one of all of them. */
  lemma ComparedInLonger(rest: seq<Comparison>, vs: seq<VariantResult>, control: VariantResult, metricType: string, lib: Lib)
    requires |vs| >= 1 && Comparable(vs, control, metricType) && Comparable(vs[..|vs| - 1], control, metricType)
    requires forall i :: 0 <= i < |rest| ==> ComparedVariant(rest[i], vs[..|vs| - 1], control, metricType, lib)
    ensures forall i :: 0 <= i < |rest| ==> ComparedVariant(rest[i], vs, control, metricType, lib)
  {
    var prefix := vs[..|vs| - 1];
    forall i | 0 <= i < |rest|
      ensures ComparedVariant(rest[i], vs, control, metricType, lib)
    {
      var j :| 0 <= j < |prefix| && prefix[j].name != control.name &&
        CompareOne(prefix[j], control, metricType, lib) == Compared(rest[i]);
      assert vs[j] == prefix[j];
    }
  }

  /**
   * One more variant adds its comparison, if it has one and is not named like
   * the control, and raises if its test raises.
   */
  lemma {:induction false} ComparisonsStep(vs: seq<VariantResult>, control: VariantResult, metricType: string, lib: Lib)
    requires |vs| >= 1 && Comparable(vs, control, metricType)
    ensures var last := vs[|vs| - 1];
      var rest := Comparisons(vs[..|vs| - 1], control, metricType, lib);
      var c := CompareOne(last, control, metricType, lib);
      Comparisons(vs, control, metricType, lib) ==
        if rest.None? || (last.name != control.name && c.Raised?) then None
        else Some(rest.value + (if last.name != control.name && c.Compared? then [c.comparison] else []))
  {
    ComparablePrefix(vs, control, metricType, |vs| - 1);
    var rest := Comparisons(vs[..|vs| - 1], control, metricType, lib);
    var c := CompareOne(vs[|vs| - 1], control, metricType, lib);
    if rest.Some? && vs[|vs| - 1].name != control.name {
      match c
      case Skipped => assert rest.value + [] == rest.value;
      case Compared(x) =>
      case Raised =>
    }
  }

  /** When the control lacks the metric's counts (and always for "custom") nothing is compared. */
  lemma {:induction false} NoComparisonsWithoutControlData(vs: seq<VariantResult>, control: VariantResult,
                                                          metricType: string, lib: Lib)
    requires Comparable(vs, control, metricType)
    requires !HasMetricData(control, metricType)
    ensures Comparisons(vs, control, metricType, lib) == Some([])
  {
    if vs != [] {
      NoComparisonsWithoutControlData(vs[..|vs| - 1], control, metricType, lib);
    }
  }

  /** When every variant has the metric's counts, every variant not named like the control is compared. */
  lemma {:induction false} EveryTreatmentCompared(vs: seq<VariantResult>, control: VariantResult,
                                                  metricType: string, lib: Lib)
    requires Comparable(vs, control, metricType)
    requires HasMetricData(control, metricType)
    requires forall j :: 0 <= j < |vs| ==> HasMetricData(vs[j], metricType)
    ensures var r := Comparisons(vs, control, metricType, lib);
      r.Some? ==> |r.value| == CountOthers(vs, control.name)
  {
    if vs != [] {
      EveryTreatmentCompared(vs[..|vs| - 1], control, metricType, lib);
    }
  }

  /** Python's `min` over the user counts. */
  function MinUsers(vs: seq<VariantResult>): (m: int)
    requires |vs| >= 1
    ensures exists j :: 0 <= j < |vs| && vs[j].users == m
    ensures forall j :: 0 <= j < |vs| ==> m <= vs[j].users
  {
    if |vs| == 1 then vs[0].users
    else
      var rest := MinUsers(vs[1..]);
      assert forall j :: 1 <= j < |vs| ==> vs[j] == vs[1..][j - 1];
      if vs[0].users < rest then vs[0].users else rest
  }

  /**
   * The warnings: a small-sample warning when some variant has fewer than
   * `MinSampleSizeWarning` users, then a multiple-testing warning when more
   * than one comparison was made.
   */
  function Warnings(vs: seq<VariantResult>, comparisons: seq<Comparison>): (w: seq<string>)
    requires |vs| >= 1
    ensures w == (if exists j :: 0 <= j < |vs| && vs[j].users < MinSampleSizeWarning
                  then [LowSampleWarning(MinUsers(vs))] else []) +
                 (if |comparisons| > 1 then [MultipleComparisonsWarning] else [])
  {
    (if MinUsers(vs) < MinSampleSizeWarning then [LowSampleWarning(MinUsers(vs))] else []) +
    (if |comparisons| > 1 then [MultipleComparisonsWarning] else [])
  }

  /** The reported variants, one per request variant, in order. */
  function AllVariantMetrics(variants: seq<VariantData>): (vs: seq<VariantResult>)
    ensures |vs| == |variants|
    ensures forall i :: 0 <= i < |variants| ==> vs[i] == VariantMetrics(variants[i])
  {
    seq(|variants|, i requires 0 <= i < |variants| => VariantMetrics(variants[i]))
  }

  /** Validation gives every variant users, and the metrics keep the count. */
  lemma MetricsHaveUsers(variants: seq<VariantData>)
    requires forall i :: 0 <= i < |variants| ==> ValidVariant(variants[i])
    ensures AllHaveUsers(AllVariantMetrics(variants))
  {
  }

  /** The start of the 500's detail; the library's own message follows it. */
  const AbErrorPrefix: string := "Error analyzing A/B test: "

  datatype HttpError = HttpError(status: int, detail: string)

  /**
   * `analyze_ab_test` as a function of the request: the analysis, or the 500
   * its `except` turns a raising proportion test into.
   */
  function AbTestAnalysis(r: AbTestRequest, lib: Lib): (a: Result<AbAnalysis, HttpError>)
    requires ValidAbRequest(r)
    ensures var vs := AllVariantMetrics(r.variants);
      AllHaveUsers(vs) &&
      (a.Failure? <==> Comparisons(vs, vs[ControlIndex(vs)], r.overallMetricType, lib).None?)
    ensures a.Failure? ==> a.error == HttpError(500, AbErrorPrefix)
    ensures a.Success? ==> |a.value.variants| == |r.variants| && AllHaveUsers(a.value.variants)
    ensures a.Success? ==> forall i :: 0 <= i < |r.variants| ==> a.value.variants[i] == VariantMetrics(r.variants[i])
    ensures a.Success? ==> a.value.primaryMetric == r.overallMetricType
    ensures a.Success? ==> var control := a.value.variants[ControlIndex(a.value.variants)];
      Comparisons(a.value.variants, control, r.overallMetricType, lib) == Some(a.value.comparisons) &&
      a.value.warnings == Warnings(a.value.variants, a.value.comparisons)
  {
    var vs := AllVariantMetrics(r.variants);
    assert AllHaveUsers(vs);
    var control := vs[ControlIndex(vs)];
    match Comparisons(vs, control, r.overallMetricType, lib)
    case None => Failure(HttpError(500, AbErrorPrefix))
    case Some(comparisons) => Success(AbAnalysis(vs, comparisons, r.overallMetricType, Warnings(vs, comparisons)))
  }

  /** Request validation gives every group users, so with a Wald interval that raises only on an empty group the endpoint always answers. */
  lemma EndpointAnswers(r: AbTestRequest, lib: Lib)
    requires ValidAbRequest(r) && SoundWald(lib)
    ensures AbTestAnalysis(r, lib).Success?
  {
    var vs := AllVariantMetrics(r.variants);
    MetricsHaveUsers(r.variants);
    ComparisonsDefined(vs, vs[ControlIndex(vs)], r.overallMetricType, lib);
  }

  /** The metrics loop: one reported variant per request variant, in order. */
  method ComputeVariantResults(variants: seq<VariantData>) returns (variantResults: seq<VariantResult>)
    ensures variantResults == AllVariantMetrics(variants)
  {
    variantResults := [];
    for i := 0 to |variants|
      invariant |variantResults| == i
      invariant forall j :: 0 <= j < i ==> variantResults[j] == VariantMetrics(variants[j])
    {
      variantResults := variantResults + [VariantMetrics(variants[i])];
    }
    assert variantResults == AllVariantMetrics(variants);
  }

  /** The control search: the loop that stops at the first "control", then the first variant. */
  method FindControl(variantResults: seq<VariantResult>) returns (control: VariantResult)
    requires |variantResults| >= 1
    ensures control == variantResults[ControlIndex(variantResults)]
  {
    var controlVariant: Option<VariantResult> := None;
    var i := 0;
    while i < |variantResults|
      invariant 0 <= i <= |variantResults|
      invariant FirstControl(variantResults, i) == FirstControl(variantResults, 0)
      invariant controlVariant == None
    {
      if Lower(variantResults[i].name) == "control" {
        controlVariant := Some(variantResults[i]);
        break;
      }
      i := i + 1;
    }
    if controlVariant.None? {
      controlVariant := Some(variantResults[0]);
    }
    control := controlVariant.value;
  }

  /** The comparison loop: skips the control's name and any variant the metric cannot compare, and stops when a test raises. */
  method CompareAll(variantResults: seq<VariantResult>, control: VariantResult, metricType: string, lib: Lib)
    returns (comparisons: Option<seq<Comparison>>)
    requires Comparable(variantResults, control, metricType)
    ensures comparisons == Comparisons(variantResults, control, metricType, lib)
  {
    var made: seq<Comparison> := [];
    for k := 0 to |variantResults|
      invariant Comparable(variantResults[..k], control, metricType)
      invariant Comparisons(variantResults[..k], control, metricType, lib) == Some(made)
    {
      var treatment := variantResults[k];
      ComparisonsStep(variantResults[..k + 1], control, metricType, lib);
      assert variantResults[..k + 1][..k] == variantResults[..k];
      if treatment.name == control.name {
        continue;
      }
      var comparison := CompareOne(treatment, control, metricType, lib);
      if comparison.Raised? {
        RaisePersists(variantResults, control, metricType, lib, k + 1);
        return None;
      }
      if comparison.Skipped? {
        continue;
      }
      made := made + [comparison.comparison];
    }
    assert variantResults[..|variantResults|] == variantResults;
    comparisons := Some(made);
  }

  /**
   * The endpoint's body: metrics, control, small-sample warning, comparisons,
   * multiple-testing warning; a raising test ends in the 500.
   */
  method AnalyzeAbTest(r: AbTestRequest, lib: Lib) returns (a: Result<AbAnalysis, HttpError>)
    requires ValidAbRequest(r)
    ensures a == AbTestAnalysis(r, lib)
  {
    var variantResults := ComputeVariantResults(r.variants);
    MetricsHaveUsers(r.variants);
    var control := FindControl(variantResults);
    var warnings: seq<string> := [];
    var minUsers := MinUsers(variantResults);
    if minUsers < MinSampleSizeWarning {
      warnings := warnings + [LowSampleWarning(minUsers)];
    }
    ghost var lowSample := warnings;
    var comparisons := CompareAll(variantResults, control, r.overallMetricType, lib);
    if comparisons.None? {
      AnalysisFails(r, lib, variantResults, control);
      return Failure(HttpError(500, AbErrorPrefix));
    }
    var made := comparisons.value;
    AnalysisAssembled(r, lib, variantResults, control, made, lowSample);
    ghost var expected := AbTestAnalysis(r, lib);
    assert expected.Success? && expected.value.variants == variantResults && expected.value.comparisons == made;
    if |made| > 1 {
      warnings := warnings + [MultipleComparisonsWarning];
    }
    assert expected.value.warnings == warnings;
    a := Success(AbAnalysis(variantResults, made, r.overallMetricType, warnings));
  }

  /** A raising comparison loop makes `AbTestAnalysis` the 500. */
  lemma AnalysisFails(r: AbTestRequest, lib: Lib, variantResults: seq<VariantResult>, control: VariantResult)
    requires ValidAbRequest(r)
    requires variantResults == AllVariantMetrics(r.variants) && AllHaveUsers(variantResults)
    requires control == variantResults[ControlIndex(variantResults)]
    requires Comparisons(variantResults, control, r.overallMetricType, lib).None?
    ensures AbTestAnalysis(r, lib) == Failure(HttpError(500, AbErrorPrefix))
  {
  }

  /** The pieces the endpoint's body computes make up `AbTestAnalysis`. */
  lemma AnalysisAssembled(r: AbTestRequest, lib: Lib, variantResults: seq<VariantResult>, control: VariantResult,
                          comparisons: seq<Comparison>, lowSample: seq<string>)
    requires ValidAbRequest(r)
    requires variantResults == AllVariantMetrics(r.variants) && AllHaveUsers(variantResults)
    requires control == variantResults[ControlIndex(variantResults)]
    requires Comparisons(variantResults, control, r.overallMetricType, lib) == Some(comparisons)
    requires lowSample == if MinUsers(variantResults) < MinSampleSizeWarning
                          then [LowSampleWarning(MinUsers(variantResults))] else []
    ensures AbTestAnalysis(r, lib) ==
      Success(AbAnalysis(variantResults, comparisons, r.overallMetricType,
                         lowSample + (if |comparisons| > 1 then [MultipleComparisonsWarning] else [])))
  {
    assert AbTestAnalysis(r, lib) ==
      Success(AbAnalysis(variantResults, comparisons, r.overallMetricType, Warnings(variantResults, comparisons)));
  }

  /**
   * The control is never compared with itself, at most one comparison is made
   * per other variant, and the significance flag is the p-value below 0.05.
   */
  lemma ComparisonsWellFormed(r: AbTestRequest, lib: Lib)
    requires ValidAbRequest(r)
    ensures var a := AbTestAnalysis(r, lib);
      a.Success? ==>
        var control := a.value.variants[ControlIndex(a.value.variants)];
        |a.value.comparisons| <= |r.variants| - 1 &&
        forall i :: 0 <= i < |a.value.comparisons| ==>
          a.value.comparisons[i].controlName == control.name &&
          a.value.comparisons[i].treatmentName != control.name &&
          (a.value.comparisons[i].isSignificant <==> a.value.comparisons[i].pValue < SignificanceLevel)
  {
    var a := AbTestAnalysis(r, lib);
    if a.Success? {
      var c := ControlIndex(a.value.variants);
      ComparisonsFromVariants(a.value.variants, a.value.variants[c], r.overallMetricType, lib);
      OthersExcludeOne(a.value.variants, c);
    }
  }

  /** A variant's own name is not counted among the others. */
  lemma {:induction false} OthersExcludeOne(vs: seq<VariantResult>, k: nat)
    requires k < |vs|
    ensures CountOthers(vs, vs[k].name) <= |vs| - 1
  {
    var n := vs[k].name;
    if k < |vs| - 1 {
      OthersExcludeOne(vs[..|vs| - 1], k);
    }
  }

  /** A "custom" metric produces no comparisons and therefore no multiple-testing warning. */
  lemma CustomMetricComparesNothing(r: AbTestRequest, lib: Lib)
    requires ValidAbRequest(r) && r.overallMetricType == "custom"
    ensures AbTestAnalysis(r, lib).Success?
    ensures AbTestAnalysis(r, lib).value.comparisons == []
    ensures |AbTestAnalysis(r, lib).value.warnings| <= 1
  {
    var vs := AllVariantMetrics(r.variants);
    MetricsHaveUsers(r.variants);
    NoComparisonsWithoutControlData(vs, vs[ControlIndex(vs)], "custom", lib);
  }

  /**
   * One warning per condition: the small-sample warning, naming the smallest
   * group, first when some variant has fewer than 100 users, and the
   * multiple-testing warning last when more than one comparison was made.
   */
  lemma WarningsShape(vs: seq<VariantResult>, comparisons: seq<Comparison>)
    requires |vs| >= 1
    ensures var w := Warnings(vs, comparisons);
      var low := exists j :: 0 <= j < |vs| && vs[j].users < MinSampleSizeWarning;
      |w| == (if low then 1 else 0) + (if |comparisons| > 1 then 1 else 0) &&
      (low ==> w[0] == LowSampleWarning(MinUsers(vs)) && MinUsers(vs) < MinSampleSizeWarning) &&
      (|comparisons| > 1 ==> w[|w| - 1] == MultipleComparisonsWarning)
  {
  }

  /**
   * The control is chosen without regard to case but skipped by exact name:
   * of "Control" and "control", "Control" is the control and "control" is
   * compared with it.
   */
  lemma CaseSensitiveSkip(lib: Lib)
    requires SoundWald(lib)
    ensures var vs := [VariantResult("Control", 500, Some(50), None, None, Some(0.1), None, None),
                       VariantResult("control", 500, Some(60), None, None, Some(0.12), None, None)];
      ControlIndex(vs) == 0 &&
      var cs := Comparisons(vs, vs[0], "ctr", lib);
      cs.Some? && |cs.value| == 1 && cs.value[0].controlName == "Control" && cs.value[0].treatmentName == "control"
  {
    var vs := [VariantResult("Control", 500, Some(50), None, None, Some(0.1), None, None),
               VariantResult("control", 500, Some(60), None, None, Some(0.12), None, None)];
    CapitalisedControl();
    assert FirstControl(vs, 0) == Some(0);
    assert "control" != "Control" by { assert "control"[0] != "Control"[0]; }
    assert CountOthers(vs, "Control") == 1 by {
      assert vs[..1][..0] == [];
      assert vs[..|vs| - 1] == vs[..1];
    }
    EveryTreatmentCompared(vs, vs[0], "ctr", lib);
    ComparisonsDefined(vs, vs[0], "ctr", lib);
  }

  lemma CapitalisedControl()
    ensures IsControlName("Control")
  {
    var l := Lower("Control");
    assert |l| == 7 && l[0] == 'c';
    forall i | 1 <= i < 7 ensures l[i] == "control"[i] {
      assert "Control"[i] == "control"[i];
    }
  }

  /** Two variants that share the control's exact name: neither is compared. */
  lemma DuplicateControlNamesCompareNothing(lib: Lib)
    ensures var vs := [VariantResult("A", 500, Some(50), None, None, Some(0.1), None, None),
                       VariantResult("A", 500, Some(60), None, None, Some(0.12), None, None)];
      Comparisons(vs, vs[ControlIndex(vs)], "ctr", lib) == Some([])
  {
    var vs := [VariantResult("A", 500, Some(50), None, None, Some(0.1), None, None),
               VariantResult("A", 500, Some(60), None, None, Some(0.12), None, None)];
    assert vs[ControlIndex(vs)].name == "A";
    assert CountOthers(vs, "A") == 0 by {
      assert vs[..1][..0] == [];
      assert vs[..|vs| - 1] == vs[..1];
    }
    ComparisonsRaiseIff(vs, vs[ControlIndex(vs)], "ctr", lib);
    ComparisonsFromVariants(vs, vs[ControlIndex(vs)], "ctr", lib);
  }
}
