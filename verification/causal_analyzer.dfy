/**
 * Difference-in-Differences and the bucket summary of the uplift model
 * (backend/app/services/causal_analyzer.py). The two logistic regressions are
 * left out: their per-row uplift predictions are an input.
 */
module CausalAnalyzer {
  import opened Wrappers
  import opened StatsLib
  import opened AnalysisInputs

  /** The two-sided 95% critical value used for the interval. */
  const ZCritical: real := 1.96

  /** One value per (group, period) cell. */
  datatype Cells<T> = Cells(treatmentPre: T, treatmentPost: T, controlPre: T, controlPost: T) {
    /** The same cells with the treatment and control groups exchanged. */
    function Swap(): Cells<T> {
      Cells(controlPre, controlPost, treatmentPre, treatmentPost)
    }
  }

  datatype DiDResult = DiDResult(
    treatmentPre: real,
    treatmentPost: real,
    controlPre: real,
    controlPost: real,
    preDifference: real,
    postDifference: real,
    didEstimate: real,
    ciLower: real,
    ciUpper: real,
    pValue: Option<real>)

  /** The variance term of one cell, `p(1 - p) / n`, or 0 when the cell has no users. */
  function CellVariance(p: real, n: int): (v: real)
    ensures n > 0 ==> v * n as real == p * (1.0 - p)
    ensures n <= 0 ==> v == 0.0
  {
    if n > 0 then p * (1.0 - p) / n as real else 0.0
  }

  function VarianceSum(rates: Cells<real>, counts: Cells<int>): real {
    CellVariance(rates.treatmentPre, counts.treatmentPre) +
    CellVariance(rates.treatmentPost, counts.treatmentPost) +
    CellVariance(rates.controlPre, counts.controlPre) +
    CellVariance(rates.controlPost, counts.controlPost)
  }

  /** The DiD estimate: the treatment group's change minus the control group's change. */
  function DidEstimate(rates: Cells<real>): real {
    (rates.treatmentPost - rates.controlPost) - (rates.treatmentPre - rates.controlPre)
  }

  /**
   * The standard error: the square root of the summed cell variances for
   * proportions, and a tenth of the estimate's magnitude for any other metric.
   */
  function StandardError(rates: Cells<real>, counts: Cells<int>, metricType: string, lib: Lib): real {
    if metricType == "proportion" then lib.sqrt(VarianceSum(rates, counts))
    else Abs(DidEstimate(rates)) * 0.1
  }

  /** `calculate_did`, with the four rates and the four cell sizes. */
  function CalculateDiD(rates: Cells<real>, counts: Cells<int>, metricType: string, lib: Lib): (r: DiDResult)
    ensures r.treatmentPre == rates.treatmentPre && r.treatmentPost == rates.treatmentPost
    ensures r.controlPre == rates.controlPre && r.controlPost == rates.controlPost
    ensures r.preDifference == rates.treatmentPre - rates.controlPre
    ensures r.postDifference == rates.treatmentPost - rates.controlPost
    ensures r.didEstimate == r.postDifference - r.preDifference
    ensures r.didEstimate == (rates.treatmentPost - rates.treatmentPre) - (rates.controlPost - rates.controlPre)
    ensures r.ciUpper - r.didEstimate == r.didEstimate - r.ciLower
    ensures r.ciUpper - r.ciLower == 2.0 * ZCritical * StandardError(rates, counts, metricType, lib)
    ensures r.pValue.None? <==> StandardError(rates, counts, metricType, lib) <= 0.0
    ensures r.pValue.Some? ==>
      r.pValue.value == 2.0 * (1.0 - lib.normCdf(Abs(r.didEstimate / StandardError(rates, counts, metricType, lib))))
  {
    var preDiff := rates.treatmentPre - rates.controlPre;
    var postDiff := rates.treatmentPost - rates.controlPost;
    var did := postDiff - preDiff;
    var se := StandardError(rates, counts, metricType, lib);
    var p := if se > 0.0 then Some(2.0 * (1.0 - lib.normCdf(Abs(did / se)))) else None;
    DiDResult(rates.treatmentPre, rates.treatmentPost, rates.controlPre, rates.controlPost,
              preDiff, postDiff, did, did - ZCritical * se, did + ZCritical * se, p)
  }

  /** The example of a 10% to 15% move against a flat 10% control: an estimate of 0.05. */
  lemma DiDExample(counts: Cells<int>, metricType: string, lib: Lib)
    ensures var r := CalculateDiD(Cells(0.10, 0.15, 0.10, 0.10), counts, metricType, lib);
      r.preDifference == 0.0 && r.postDifference == 0.05 && r.didEstimate == 0.05
  {
  }

  /**
   * Exchanging the treatment and control groups negates the pre, post and DiD
   * figures, mirrors the interval and leaves the p-value unchanged.
   */
  lemma {:induction false} SwapGroupsNegates(rates: Cells<real>, counts: Cells<int>, metricType: string, lib: Lib)
    ensures var r := CalculateDiD(rates, counts, metricType, lib);
      var s := CalculateDiD(rates.Swap(), counts.Swap(), metricType, lib);
      s.preDifference == -r.preDifference && s.postDifference == -r.postDifference &&
      s.didEstimate == -r.didEstimate &&
      s.ciLower == -r.ciUpper && s.ciUpper == -r.ciLower &&
      s.pValue == r.pValue
  {
    var se := StandardError(rates, counts, metricType, lib);
    SwapKeepsStandardError(rates, counts, metricType, lib);
    var did := DidEstimate(rates);
    if se > 0.0 {
      NegatedQuotient(did, se);
    }
  }

  /** Exchanging the groups leaves the standard error as it is. */
  lemma SwapKeepsStandardError(rates: Cells<real>, counts: Cells<int>, metricType: string, lib: Lib)
    ensures DidEstimate(rates.Swap()) == -DidEstimate(rates)
    ensures StandardError(rates.Swap(), counts.Swap(), metricType, lib) == StandardError(rates, counts, metricType, lib)
  {
    assert VarianceSum(rates.Swap(), counts.Swap()) == VarianceSum(rates, counts);
  }

  /** A rate in [0, 1] has a non-negative cell variance. */
  lemma CellVarianceNonNegative(p: real, n: int)
    requires 0.0 <= p <= 1.0
    ensures CellVariance(p, n) >= 0.0
  {
    if n > 0 {
      ProductNonNegative(p, 1.0 - p);
      QuotientNonNegative(p * (1.0 - p), n as real);
    }
  }

  lemma ProductNonNegative(x: real, y: real)
    requires 0.0 <= x && 0.0 <= y
    ensures x * y >= 0.0
  {
  }

  lemma QuotientNonNegative(x: real, y: real)
    requires 0.0 <= x && 0.0 < y
    ensures x / y >= 0.0
  {
  }

  predicate RatesInUnitInterval(rates: Cells<real>) {
    0.0 <= rates.treatmentPre <= 1.0 && 0.0 <= rates.treatmentPost <= 1.0 &&
    0.0 <= rates.controlPre <= 1.0 && 0.0 <= rates.controlPost <= 1.0
  }

  /** For rates in [0, 1] the summed variance is non-negative. */
  lemma VarianceSumNonNegative(rates: Cells<real>, counts: Cells<int>)
    requires RatesInUnitInterval(rates)
    ensures VarianceSum(rates, counts) >= 0.0
  {
    CellVarianceNonNegative(rates.treatmentPre, counts.treatmentPre);
    CellVarianceNonNegative(rates.treatmentPost, counts.treatmentPost);
    CellVarianceNonNegative(rates.controlPre, counts.controlPre);
    CellVarianceNonNegative(rates.controlPost, counts.controlPost);
  }

  /** For a mean metric the standard error is zero exactly when the estimate is. */
  lemma MeanStandardErrorZeroIff(rates: Cells<real>, counts: Cells<int>, metricType: string, lib: Lib)
    requires metricType != "proportion"
    ensures StandardError(rates, counts, metricType, lib) >= 0.0
    ensures StandardError(rates, counts, metricType, lib) == 0.0 <==> DidEstimate(rates) == 0.0
  {
  }

  /**
   * With a sound square root, and rates in [0, 1] for proportions, the
   * interval contains the estimate.
   */
  lemma IntervalBracketsEstimate(rates: Cells<real>, counts: Cells<int>, metricType: string, lib: Lib)
    requires SoundSqrt(lib)
    requires metricType == "proportion" ==> RatesInUnitInterval(rates)
    ensures var r := CalculateDiD(rates, counts, metricType, lib);
      r.ciLower <= r.didEstimate <= r.ciUpper
  {
    if metricType == "proportion" {
      VarianceSumNonNegative(rates, counts);
    }
    assert StandardError(rates, counts, metricType, lib) >= 0.0;
  }

  /**
   * Proportions that are all 0 or 1 have no variance: with a sound square
   * root the p-value is then `None`.
   */
  lemma DegenerateProportionsHaveNoPValue(rates: Cells<real>, counts: Cells<int>, lib: Lib)
    requires SoundSqrt(lib)
    requires rates.treatmentPre in {0.0, 1.0} && rates.treatmentPost in {0.0, 1.0}
    requires rates.controlPre in {0.0, 1.0} && rates.controlPost in {0.0, 1.0}
    ensures CalculateDiD(rates, counts, "proportion", lib).pValue.None?
  {
    assert VarianceSum(rates, counts) == 0.0;
  }

  // ---------------------------------------------------------------------
  // Uplift buckets

  /** The number of rows whose treatment flag is `t`. */
  function CountGroup(data: seq<UpliftPoint>, t: int): (c: nat)
    ensures c <= |data|
    ensures c == 0 <==> forall i :: 0 <= i < |data| ==> data[i].treatment != t
  {
    if data == [] then 0
    else CountGroup(data[..|data| - 1], t) + (if data[|data| - 1].treatment == t then 1 else 0)
  }

  /** Every element is at least the next one. */
  predicate Descending(s: seq<real>) {
    forall i, j :: 0 <= i < j < |s| ==> s[i] >= s[j]
  }

  /** Places `x` into a descending sequence. */
  function InsertDescending(x: real, s: seq<real>): (r: seq<real>)
    requires Descending(s)
    ensures Descending(r)
    ensures multiset(r) == multiset(s) + multiset{x}
    ensures |r| == |s| + 1
    ensures r[0] == x || (s != [] && r[0] == s[0])
  {
    if s == [] || x >= s[0] then [x] + s
    else
      var rest := InsertDescending(x, s[1..]);
      assert s == [s[0]] + s[1..];
      assert s[0] >= rest[0];
      [s[0]] + rest
  }

  /** The scores in descending order: what `uplift[argsort(uplift)[::-1]]` is. */
  function SortDescending(s: seq<real>): (r: seq<real>)
    ensures Descending(r)
    ensures multiset(r) == multiset(s)
    ensures |r| == |s|
  {
    if s == [] then []
    else
      assert s == s[..|s| - 1] + [s[|s| - 1]];
      InsertDescending(s[|s| - 1], SortDescending(s[..|s| - 1]))
  }

  /**
   * Two descending orderings of the same scores are equal, so the values in
   * each bucket do not depend on how ties are ordered.
   */
  lemma {:induction false} DescendingUnique(a: seq<real>, b: seq<real>)
    requires Descending(a) && Descending(b)
    requires multiset(a) == multiset(b)
    ensures a == b
    decreases |a|
  {
    assert |b| == |a| by { assert |multiset(a)| == |multiset(b)|; }
    if a != [] {
      assert b[0] in multiset(a) by { assert b[0] in b; }
      assert a[0] in multiset(b) by { assert a[0] in a; }
      HeadIsMaximum(a, b[0]);
      HeadIsMaximum(b, a[0]);
      var h := a[0];
      assert b[0] == h;
      var ta, tb := a[1..], b[1..];
      MultisetOfTail(a);
      MultisetOfTail(b);
      assert multiset(ta) == multiset(tb);
      DescendingTail(a);
      DescendingTail(b);
      DescendingUnique(ta, tb);
      assert a == [h] + ta;
      assert b == [h] + tb;
    }
  }

  lemma HeadIsMaximum(s: seq<real>, x: real)
    requires Descending(s) && x in multiset(s)
    ensures s[0] >= x
  {
    var i :| 0 <= i < |s| && s[i] == x;
    if i > 0 {
      assert s[0] >= s[i];
    }
  }

  lemma MultisetOfTail(s: seq<real>)
    requires s != []
    ensures multiset(s[1..]) == multiset(s) - multiset{s[0]}
  {
    assert s == [s[0]] + s[1..];
  }

  lemma DescendingTail(s: seq<real>)
    requires Descending(s) && s != []
    ensures Descending(s[1..])
  {
    forall i, j | 0 <= i < j < |s| - 1 ensures s[1..][i] >= s[1..][j] {
      assert s[1..][i] == s[i + 1] && s[1..][j] == s[j + 1];
    }
  }

  /** `int(n * 0.3)`: the size of the high-uplift bucket. */
  function HighCut(n: nat): (k: nat)
    ensures k as real <= n as real * 0.3 < k as real + 1.0
    ensures k <= n
  {
    (n as real * 0.3).Floor
  }

  /** `int(n * 0.7)`: where the low-uplift bucket starts. */
  function MediumCut(n: nat): (k: nat)
    ensures k as real <= n as real * 0.7 < k as real + 1.0
    ensures HighCut(n) <= k <= n
  {
    (n as real * 0.7).Floor
  }

  datatype Split = Split(high: seq<real>, medium: seq<real>, low: seq<real>)

  /** The three slices of the sorted scores. */
  function SplitBuckets(sorted: seq<real>): (s: Split)
    ensures s.high + s.medium + s.low == sorted
    ensures |s.high| + |s.medium| + |s.low| == |sorted|
    ensures |s.high| == HighCut(|sorted|)
    ensures |s.high| + |s.medium| == MediumCut(|sorted|)
    ensures s.high == sorted[..HighCut(|sorted|)]
    ensures s.medium == sorted[HighCut(|sorted|)..MediumCut(|sorted|)]
    ensures s.low == sorted[MediumCut(|sorted|)..]
  {
    var h := HighCut(|sorted|);
    var m := MediumCut(|sorted|);
    assert sorted[..h] + sorted[h..m] + sorted[m..] == sorted;
    Split(sorted[..h], sorted[h..m], sorted[m..])
  }

  function Sum(s: seq<real>): real {
    if s == [] then 0.0 else Sum(s[..|s| - 1]) + s[|s| - 1]
  }

  /** `np.mean(s) if len(s) > 0 else 0.0`. */
  function Mean(s: seq<real>): (m: real)
    ensures s != [] ==> m * |s| as real == Sum(s)
    ensures s == [] ==> m == 0.0
  {
    if s == [] then 0.0 else Sum(s) / |s| as real
  }

  /** A sum of values all at least `c` is at least `|s| * c`, and one of values at most `c` at most that. */
  lemma {:induction false} SumBounds(s: seq<real>, c: real)
    ensures (forall i :: 0 <= i < |s| ==> s[i] >= c) ==> Sum(s) >= |s| as real * c
    ensures (forall i :: 0 <= i < |s| ==> s[i] <= c) ==> Sum(s) <= |s| as real * c
  {
    if s != [] {
      SumBounds(s[..|s| - 1], c);
      assert forall i :: 0 <= i < |s| - 1 ==> s[..|s| - 1][i] == s[i];
    }
  }

  /** The mean of values all at least (at most) `c` is at least (at most) `c`. */
  lemma MeanBounds(s: seq<real>, c: real)
    requires s != []
    ensures (forall i :: 0 <= i < |s| ==> s[i] >= c) ==> Mean(s) >= c
    ensures (forall i :: 0 <= i < |s| ==> s[i] <= c) ==> Mean(s) <= c
  {
    SumBounds(s, c);
    var n := |s| as real;
    if forall i :: 0 <= i < |s| ==> s[i] >= c {
      assert Mean(s) * n >= c * n;
      ScaleMonotone(c, Mean(s), n);
    }
    if forall i :: 0 <= i < |s| ==> s[i] <= c {
      assert Mean(s) * n <= c * n;
      ScaleMonotone(Mean(s), c, n);
    }
  }

  lemma ScaleMonotone(x: real, y: real, n: real)
    requires n > 0.0 && x * n <= y * n
    ensures x <= y
  {
  }

  /** Over a descending sequence, a non-empty bucket never averages below a later non-empty bucket. */
  lemma BucketAveragesOrdered(sorted: seq<real>)
    requires Descending(sorted)
    ensures var s := SplitBuckets(sorted);
      (s.high != [] && s.medium != [] ==> Mean(s.high) >= Mean(s.medium)) &&
      (s.medium != [] && s.low != [] ==> Mean(s.medium) >= Mean(s.low))
  {
    var s := SplitBuckets(sorted);
    var h := HighCut(|sorted|);
    var m := MediumCut(|sorted|);
    if 0 < h < m {
      AdjacentSlicesOrdered(sorted, 0, h, m);
      assert s.high == sorted[0..h];
    }
    if h < m < |sorted| {
      AdjacentSlicesOrdered(sorted, h, m, |sorted|);
      assert s.low == sorted[m..|sorted|];
    }
  }

  /** In a descending sequence an earlier slice averages at least as much as the slice after it. */
  lemma AdjacentSlicesOrdered(sorted: seq<real>, lo: nat, mid: nat, hi: nat)
    requires Descending(sorted)
    requires lo < mid < hi <= |sorted|
    ensures Mean(sorted[lo..mid]) >= Mean(sorted[mid..hi])
  {
    var c := sorted[mid - 1];
    var x, y := sorted[lo..mid], sorted[mid..hi];
    forall i | 0 <= i < |x| ensures x[i] >= c {
      assert x[i] == sorted[lo + i];
    }
    forall j | 0 <= j < |y| ensures y[j] <= c {
      assert y[j] == sorted[mid + j];
    }
    MeanBounds(x, c);
    MeanBounds(y, c);
  }

  datatype UpliftBucket = UpliftBucket(
    bucketName: string,
    averagePredictedUplift: real,
    fractionOfUsers: real,
    estimatedIncrementalConversions: Option<real>)

  datatype UpliftSummary = UpliftSummary(
    buckets: seq<UpliftBucket>,
    overallAverageUplift: real,
    totalUsers: nat)

  const NeedBothGroups: string := "Need both treatment and control groups"

  /** `len(bucket) / n if n > 0 else 0.0`. */
  function Fraction(k: nat, n: nat): (f: real)
    ensures n > 0 ==> f * n as real == k as real
    ensures n == 0 ==> f == 0.0
  {
    if n > 0 then k as real / n as real else 0.0
  }

  /**
   * `high_avg_uplift * len(high_uplift)`, 0 for an empty bucket: the summed
   * predicted uplift of the bucket.
   */
  function Incremental(high: seq<real>): (e: real)
    ensures e == Sum(high)
  {
    if |high| > 0 then Mean(high) * |high| as real else 0.0
  }

  /** The three buckets built from the sorted scores. */
  function Buckets(sorted: seq<real>): (b: seq<UpliftBucket>)
    ensures |b| == 3
    ensures var s := SplitBuckets(sorted);
      b == [UpliftBucket("High Uplift", Mean(s.high), Fraction(|s.high|, |sorted|), Some(Sum(s.high))),
            UpliftBucket("Medium Uplift", Mean(s.medium), Fraction(|s.medium|, |sorted|), None),
            UpliftBucket("Low/Negative Uplift", Mean(s.low), Fraction(|s.low|, |sorted|), None)]
  {
    var s := SplitBuckets(sorted);
    var n := |sorted|;
    [UpliftBucket("High Uplift", Mean(s.high), Fraction(|s.high|, n), Some(Incremental(s.high))),
     UpliftBucket("Medium Uplift", Mean(s.medium), Fraction(|s.medium|, n), None),
     UpliftBucket("Low/Negative Uplift", Mean(s.low), Fraction(|s.low|, n), None)]
  }

  /** Each bucket's fraction lies in [0, 1] and, for at least one score, the three sum to 1. */
  lemma FractionsPartition(sorted: seq<real>)
    ensures var b := Buckets(sorted);
      (forall k :: 0 <= k < 3 ==> 0.0 <= b[k].fractionOfUsers <= 1.0) &&
      (sorted != [] ==> b[0].fractionOfUsers + b[1].fractionOfUsers + b[2].fractionOfUsers == 1.0)
  {
    var s := SplitBuckets(sorted);
    var n := |sorted|;
    FractionInUnit(|s.high|, n);
    FractionInUnit(|s.medium|, n);
    FractionInUnit(|s.low|, n);
    if n > 0 {
      FractionsSumToOne(|s.high|, |s.medium|, |s.low|, n);
    }
  }

  lemma FractionInUnit(k: nat, n: nat)
    requires k <= n
    ensures 0.0 <= Fraction(k, n) <= 1.0
  {
    if n > 0 {
      var f := Fraction(k, n);
      assert f * n as real <= 1.0 * n as real;
      ScaleMonotone(f, 1.0, n as real);
    }
  }

  lemma FractionsSumToOne(a: nat, b: nat, c: nat, n: nat)
    requires a + b + c == n > 0
    ensures Fraction(a, n) + Fraction(b, n) + Fraction(c, n) == 1.0
  {
    var N := n as real;
    var fa, fb, fc := Fraction(a, n), Fraction(b, n), Fraction(c, n);
    var x, y, z := fa * N, fb * N, fc * N;
    assert x == a as real && y == b as real && z == c as real;
    assert x + y + z == N;
    Distribute(fa, fb, fc, N);
    var t := fa + fb + fc;
    assert t * N == x + y + z;
    ScaleCancel(t, N);
  }

  lemma Distribute(x: real, y: real, z: real, n: real)
    ensures (x + y + z) * n == x * n + y * n + z * n
  {
  }

  lemma ScaleCancel(x: real, n: real)
    requires n > 0.0 && x * n == n
    ensures x == 1.0
  {
  }

  /**
   * The bucket summary of `calculate_uplift_model`. `fitted` stands for the two
   * logistic regressions: the per-row uplift predictions `p_treat - p_control`,
   * or the message of the exception the fitting raised.
   */
  function UpliftModel(data: seq<UpliftPoint>, fitted: Result<seq<real>, string>): (r: Result<UpliftSummary, string>)
    requires fitted.Success? ==> |fitted.value| == |data|
    ensures CountGroup(data, 1) == 0 || CountGroup(data, 0) == 0 ==> r == Failure(NeedBothGroups)
    ensures CountGroup(data, 1) > 0 && CountGroup(data, 0) > 0 && fitted.Failure? ==> r == Failure(fitted.error)
    ensures r.Success? <==> CountGroup(data, 1) > 0 && CountGroup(data, 0) > 0 && fitted.Success?
    ensures r.Success? ==>
      r.value.totalUsers == |data| &&
      r.value.overallAverageUplift == Mean(fitted.value) &&
      r.value.buckets == Buckets(SortDescending(fitted.value))
  {
    if CountGroup(data, 1) == 0 || CountGroup(data, 0) == 0 then Failure(NeedBothGroups)
    else match fitted
      case Failure(e) => Failure(e)
      case Success(uplift) => Success(UpliftSummary(Buckets(SortDescending(uplift)), Mean(uplift), |uplift|))
  }

  /** Rows from the treatment group alone are refused, whatever the regressions would give. */
  lemma TreatmentOnlyRefused(n: nat, fitted: Result<seq<real>, string>)
    requires n > 0
    requires fitted.Success? ==> |fitted.value| == n
    ensures UpliftModel(seq(n, _ => UpliftPoint(1, 0)), fitted) == Failure(NeedBothGroups)
  {
    var data := seq(n, _ => UpliftPoint(1, 0));
    assert data[0].treatment != 0;
    assert CountGroup(data, 0) == 0;
  }

  /**
   * The buckets partition the rows: their sizes add up to the number of rows,
   * and any descending order of the predictions yields the same buckets.
   */
  lemma UpliftBucketsPartition(data: seq<UpliftPoint>, uplift: seq<real>, anyOrder: seq<real>)
    requires |uplift| == |data|
    requires UpliftModel(data, Success(uplift)).Success?
    requires Descending(anyOrder) && multiset(anyOrder) == multiset(uplift)
    ensures var s := SplitBuckets(SortDescending(uplift));
      UpliftModel(data, Success(uplift)).value.totalUsers == |s.high| + |s.medium| + |s.low| &&
      s.high + s.medium + s.low == anyOrder
  {
    DescendingUnique(SortDescending(uplift), anyOrder);
  }

  /** For ten rows the buckets hold three, four and three of them. */
  lemma TenRowsSplit(sorted: seq<real>)
    requires |sorted| == 10
    ensures |SplitBuckets(sorted).high| == 3
    ensures |SplitBuckets(sorted).medium| == 4
    ensures |SplitBuckets(sorted).low| == 3
  {
    assert HighCut(10) == 3;
    assert MediumCut(10) == 7;
  }
}
