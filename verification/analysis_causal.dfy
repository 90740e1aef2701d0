/**
 * The causal-analysis endpoint (backend/app/api/analysis_causal.py): it pools
 * the raw DiD points into four (group x period) cells and hands the cell rates
 * to `calculate_did`, or hands the uplift rows to the uplift model. Every
 * failure, including its own 400s, leaves it as a 500.
 */
module CausalApi {
  import opened Wrappers
  import opened StatsLib
  import opened AnalysisInputs
  import opened CausalAnalyzer
  import StatsCalculator
  import opened PyStr

  datatype Cell = TreatmentPre | TreatmentPost | ControlPre | ControlPost

  /** The `if/elif` chain that picks the accumulators a point feeds, if any. */
  function CellOf(p: DiDDataPoint): Option<Cell> {
    if p.group == "treatment" && p.period == "pre" then Some(TreatmentPre)
    else if p.group == "treatment" && p.period == "post" then Some(TreatmentPost)
    else if p.group == "control" && p.period == "pre" then Some(ControlPre)
    else if p.group == "control" && p.period == "post" then Some(ControlPost)
    else None
  }

  /** A valid point feeds exactly one cell. */
  lemma ValidPointHasCell(p: DiDDataPoint)
    requires ValidDiDPoint(p)
    ensures CellOf(p).Some?
  {
  }

  /** What a point adds to its cell's sum: the outcome for proportions, `outcome * users` otherwise. */
  function Contribution(p: DiDDataPoint, metricType: string): real {
    if metricType == "proportion" then p.outcome else p.outcome * p.users as real
  }

  /** The cell sum after the points `data`: the contributions of the points that feed `c`. */
  function CellSum(data: seq<DiDDataPoint>, c: Cell, metricType: string): real {
    if data == [] then 0.0
    else
      var last := data[|data| - 1];
      CellSum(data[..|data| - 1], c, metricType) +
        (if CellOf(last) == Some(c) then Contribution(last, metricType) else 0.0)
  }

  /** The cell size after the points `data`: the users of the points that feed `c`. */
  function CellUsers(data: seq<DiDDataPoint>, c: Cell): int {
    if data == [] then 0
    else
      var last := data[|data| - 1];
      CellUsers(data[..|data| - 1], c) + (if CellOf(last) == Some(c) then last.users else 0)
  }

  function CellSums(data: seq<DiDDataPoint>, metricType: string): Cells<real> {
    Cells(CellSum(data, TreatmentPre, metricType), CellSum(data, TreatmentPost, metricType),
          CellSum(data, ControlPre, metricType), CellSum(data, ControlPost, metricType))
  }

  function CellCounts(data: seq<DiDDataPoint>): Cells<int> {
    Cells(CellUsers(data, TreatmentPre), CellUsers(data, TreatmentPost),
          CellUsers(data, ControlPre), CellUsers(data, ControlPost))
  }

  /** The aggregation loop with its eight accumulators. */
  method AggregateCells(data: seq<DiDDataPoint>, metricType: string) returns (sums: Cells<real>, counts: Cells<int>)
    ensures sums == CellSums(data, metricType)
    ensures counts == CellCounts(data)
  {
    var treatmentPreSum, treatmentPreN := 0.0, 0;
    var treatmentPostSum, treatmentPostN := 0.0, 0;
    var controlPreSum, controlPreN := 0.0, 0;
    var controlPostSum, controlPostN := 0.0, 0;
    var i := 0;
    while i < |data|
      invariant 0 <= i <= |data|
      invariant treatmentPreSum == CellSum(data[..i], TreatmentPre, metricType)
      invariant treatmentPostSum == CellSum(data[..i], TreatmentPost, metricType)
      invariant controlPreSum == CellSum(data[..i], ControlPre, metricType)
      invariant controlPostSum == CellSum(data[..i], ControlPost, metricType)
      invariant treatmentPreN == CellUsers(data[..i], TreatmentPre)
      invariant treatmentPostN == CellUsers(data[..i], TreatmentPost)
      invariant controlPreN == CellUsers(data[..i], ControlPre)
      invariant controlPostN == CellUsers(data[..i], ControlPost)
    {
      var point := data[i];
      assert data[..i + 1][..i] == data[..i];
      if point.group == "treatment" && point.period == "pre" {
        if metricType == "proportion" {
          treatmentPreSum := treatmentPreSum + point.outcome;
          treatmentPreN := treatmentPreN + point.users;
        } else {
          treatmentPreSum := treatmentPreSum + point.outcome * point.users as real;
          treatmentPreN := treatmentPreN + point.users;
        }
      } else if point.group == "treatment" && point.period == "post" {
        if metricType == "proportion" {
          treatmentPostSum := treatmentPostSum + point.outcome;
          treatmentPostN := treatmentPostN + point.users;
        } else {
          treatmentPostSum := treatmentPostSum + point.outcome * point.users as real;
          treatmentPostN := treatmentPostN + point.users;
        }
      } else if point.group == "control" && point.period == "pre" {
        if metricType == "proportion" {
          controlPreSum := controlPreSum + point.outcome;
          controlPreN := controlPreN + point.users;
        } else {
          controlPreSum := controlPreSum + point.outcome * point.users as real;
          controlPreN := controlPreN + point.users;
        }
      } else if point.group == "control" && point.period == "post" {
        if metricType == "proportion" {
          controlPostSum := controlPostSum + point.outcome;
          controlPostN := controlPostN + point.users;
        } else {
          controlPostSum := controlPostSum + point.outcome * point.users as real;
          controlPostN := controlPostN + point.users;
        }
      }
      i := i + 1;
    }
    assert data[..i] == data;
    sums := Cells(treatmentPreSum, treatmentPostSum, controlPreSum, controlPostSum);
    counts := Cells(treatmentPreN, treatmentPostN, controlPreN, controlPostN);
  }

  /** The four cell rates: each sum over its cell size, 0 for an empty cell. */
  function CellRates(sums: Cells<real>, counts: Cells<int>): Cells<real> {
    Cells(StatsCalculator.Rate(sums.treatmentPre, counts.treatmentPre as real),
          StatsCalculator.Rate(sums.treatmentPost, counts.treatmentPost as real),
          StatsCalculator.Rate(sums.controlPre, counts.controlPre as real),
          StatsCalculator.Rate(sums.controlPost, counts.controlPost as real))
  }

  function TotalUsers(data: seq<DiDDataPoint>): int {
    if data == [] then 0 else TotalUsers(data[..|data| - 1]) + data[|data| - 1].users
  }

  /**
   * For valid points the four cell sizes add up to all the users: every point
   * is pooled into exactly one cell, duplicates included.
   */
  lemma {:induction false} CellsPartitionUsers(data: seq<DiDDataPoint>)
    requires forall i :: 0 <= i < |data| ==> ValidDiDPoint(data[i])
    ensures CellUsers(data, TreatmentPre) + CellUsers(data, TreatmentPost) +
            CellUsers(data, ControlPre) + CellUsers(data, ControlPost) == TotalUsers(data)
  {
    if data != [] {
      var init := data[..|data| - 1];
      assert forall i :: 0 <= i < |init| ==> init[i] == data[i];
      CellsPartitionUsers(init);
      ValidPointHasCell(data[|data| - 1]);
    }
  }

  /** A cell that no point feeds has sum 0 and size 0, so its rate is 0. */
  lemma {:induction false} EmptyCell(data: seq<DiDDataPoint>, c: Cell, metricType: string)
    requires forall i :: 0 <= i < |data| ==> CellOf(data[i]) != Some(c)
    ensures CellSum(data, c, metricType) == 0.0 && CellUsers(data, c) == 0
    ensures StatsCalculator.Rate(CellSum(data, c, metricType), CellUsers(data, c) as real) == 0.0
  {
    if data != [] {
      var init := data[..|data| - 1];
      assert forall i :: 0 <= i < |init| ==> init[i] == data[i];
      EmptyCell(init, c, metricType);
    }
  }

  /** `k` added up `n` times: `k * n` unfolded into sums, one user at a time. */
  function Times(k: real, n: nat): real
    decreases n
  {
    if n == 0 then 0.0 else Times(k, n - 1) + k
  }

  lemma {:induction false} TimesIsProduct(k: real, n: nat)
    ensures Times(k, n) == k * n as real
    decreases n
  {
    if n > 0 {
      TimesIsProduct(k, n - 1);
      assert k * (n - 1) as real + k == k * n as real;
    }
  }

  lemma {:induction false} TimesAdd(k: real, n: nat, u: nat)
    ensures Times(k, n + u) == Times(k, n) + Times(k, u)
    decreases u
  {
    if u > 0 {
      TimesAdd(k, n, u - 1);
      assert Times(k, n + u) == Times(k, n + u - 1) + k;
    }
  }

  /** In mean mode a point whose outcome is at least `lo` contributes at least `lo` per user. */
  lemma ContributionAtLeast(p: DiDDataPoint, metricType: string, lo: real)
    requires metricType != "proportion" && p.users >= 0 && lo <= p.outcome
    ensures Times(lo, p.users) <= Contribution(p, metricType)
  {
    TimesIsProduct(lo, p.users);
    assert lo * p.users as real <= p.outcome * p.users as real;
  }

  /** In mean mode a point whose outcome is at most `hi` contributes at most `hi` per user. */
  lemma ContributionAtMost(p: DiDDataPoint, metricType: string, hi: real)
    requires metricType != "proportion" && p.users >= 0 && p.outcome <= hi
    ensures Contribution(p, metricType) <= Times(hi, p.users)
  {
    TimesIsProduct(hi, p.users);
    assert p.outcome * p.users as real <= hi * p.users as real;
  }

  /** The last point of a non-empty sequence, added to the cell it feeds. */
  lemma CellStep(data: seq<DiDDataPoint>, c: Cell, metricType: string)
    requires data != []
    ensures var init, last := data[..|data| - 1], data[|data| - 1];
      if CellOf(last) == Some(c) then
        CellUsers(data, c) == CellUsers(init, c) + last.users &&
        CellSum(data, c, metricType) == CellSum(init, c, metricType) + Contribution(last, metricType)
      else
        CellUsers(data, c) == CellUsers(init, c) && CellSum(data, c, metricType) == CellSum(init, c, metricType)
  {
  }

  /** A cell sum is at least `lo` times the cell size when its outcomes are. */
  lemma {:induction false} WeightedSumAtLeast(data: seq<DiDDataPoint>, c: Cell, metricType: string, lo: real)
    requires metricType != "proportion"
    requires forall i :: 0 <= i < |data| ==> data[i].users > 0
    requires forall i :: 0 <= i < |data| && CellOf(data[i]) == Some(c) ==> lo <= data[i].outcome
    ensures CellUsers(data, c) >= 0 && Times(lo, CellUsers(data, c)) <= CellSum(data, c, metricType)
  {
    if data != [] {
      var init, last := data[..|data| - 1], data[|data| - 1];
      assert forall i :: 0 <= i < |init| ==> init[i] == data[i];
      WeightedSumAtLeast(init, c, metricType, lo);
      CellStep(data, c, metricType);
      if CellOf(last) == Some(c) {
        assert lo <= last.outcome && last.users > 0;
        ContributionAtLeast(last, metricType, lo);
        TimesAdd(lo, CellUsers(init, c), last.users);
      }
    }
  }

  /** A cell sum is at most `hi` times the cell size when its outcomes are. */
  lemma {:induction false} WeightedSumAtMost(data: seq<DiDDataPoint>, c: Cell, metricType: string, hi: real)
    requires metricType != "proportion"
    requires forall i :: 0 <= i < |data| ==> data[i].users > 0
    requires forall i :: 0 <= i < |data| && CellOf(data[i]) == Some(c) ==> data[i].outcome <= hi
    ensures CellUsers(data, c) >= 0 && CellSum(data, c, metricType) <= Times(hi, CellUsers(data, c))
  {
    if data != [] {
      var init, last := data[..|data| - 1], data[|data| - 1];
      assert forall i :: 0 <= i < |init| ==> init[i] == data[i];
      WeightedSumAtMost(init, c, metricType, hi);
      CellStep(data, c, metricType);
      if CellOf(last) == Some(c) {
        assert last.outcome <= hi && last.users > 0;
        ContributionAtMost(last, metricType, hi);
        TimesAdd(hi, CellUsers(init, c), last.users);
      }
    }
  }

  /**
   * In mean mode a cell sum is the users-weighted total of its points'
   * outcomes, so it lies between `lo` and `hi` times the cell size when every
   * outcome of the cell does.
   */
  lemma WeightedSumBounds(data: seq<DiDDataPoint>, c: Cell, metricType: string, lo: real, hi: real)
    requires metricType != "proportion"
    requires forall i :: 0 <= i < |data| ==> data[i].users > 0
    requires forall i :: 0 <= i < |data| && CellOf(data[i]) == Some(c) ==> lo <= data[i].outcome <= hi
    ensures lo * CellUsers(data, c) as real <= CellSum(data, c, metricType) <= hi * CellUsers(data, c) as real
  {
    WeightedSumAtLeast(data, c, metricType, lo);
    WeightedSumAtMost(data, c, metricType, hi);
    TimesIsProduct(lo, CellUsers(data, c));
    TimesIsProduct(hi, CellUsers(data, c));
  }

  /** In mean mode a non-empty cell's rate is a weighted mean: it lies within its points' outcome range. */
  lemma MeanModeRateWithinOutcomes(data: seq<DiDDataPoint>, c: Cell, metricType: string, lo: real, hi: real)
    requires metricType != "proportion"
    requires forall i :: 0 <= i < |data| ==> data[i].users > 0
    requires forall i :: 0 <= i < |data| && CellOf(data[i]) == Some(c) ==> lo <= data[i].outcome <= hi
    requires CellUsers(data, c) > 0
    ensures lo <= StatsCalculator.Rate(CellSum(data, c, metricType), CellUsers(data, c) as real) <= hi
  {
    WeightedSumAtLeast(data, c, metricType, lo);
    WeightedSumAtMost(data, c, metricType, hi);
    TimesRateWithin(lo, hi, CellSum(data, c, metricType), CellUsers(data, c));
  }

  /** A total between `lo` and `hi` times a positive count has its rate between `lo` and `hi`. */
  lemma TimesRateWithin(lo: real, hi: real, total: real, n: nat)
    requires n > 0 && Times(lo, n) <= total <= Times(hi, n)
    ensures lo <= StatsCalculator.Rate(total, n as real) <= hi
  {
    TimesIsProduct(lo, n);
    TimesIsProduct(hi, n);
    RateWithinBounds(lo, hi, total, n as real);
  }

  lemma RateWithinBounds(lo: real, hi: real, total: real, n: real)
    requires n > 0.0 && lo * n <= total <= hi * n
    ensures lo <= StatsCalculator.Rate(total, n) <= hi
  {
    var r := StatsCalculator.Rate(total, n);
    assert r * n == total;
    UnscaledBounds(lo, r, hi, n);
  }

  lemma UnscaledBounds(lo: real, x: real, hi: real, w: real)
    requires lo * w <= x * w <= hi * w && w > 0.0
    ensures lo <= x <= hi
  {
  }

  /**
   * In proportion mode, when no point reports more conversions than users,
   * each cell sum lies between 0 and the cell size.
   */
  lemma {:induction false} ProportionSumBounds(data: seq<DiDDataPoint>, c: Cell)
    requires forall i :: 0 <= i < |data| ==> 0.0 <= data[i].outcome <= data[i].users as real
    ensures 0.0 <= CellSum(data, c, "proportion") <= CellUsers(data, c) as real
  {
    if data != [] {
      var init := data[..|data| - 1];
      assert forall i :: 0 <= i < |init| ==> init[i] == data[i];
      ProportionSumBounds(init, c);
    }
  }

  /** Under that condition every proportion-mode cell rate lies in [0, 1]. */
  lemma ProportionRatesInUnitInterval(data: seq<DiDDataPoint>)
    requires forall i :: 0 <= i < |data| ==> 0.0 <= data[i].outcome <= data[i].users as real
    ensures RatesInUnitInterval(CellRates(CellSums(data, "proportion"), CellCounts(data)))
  {
    forall c: Cell
      ensures 0.0 <= StatsCalculator.Rate(CellSum(data, c, "proportion"), CellUsers(data, c) as real) <= 1.0
    {
      ProportionSumBounds(data, c);
      var n := CellUsers(data, c) as real;
      if n > 0.0 {
        RateWithinBounds(0.0, 1.0, CellSum(data, c, "proportion"), n);
      }
    }
  }

  datatype Fault =
    | BadRequest(detail: string)   // an HTTPException with status 400
    | ValueError(message: string)  // an error raised by the uplift model

  /** `str(e)` of the caught exception; an HTTPException renders as "status: detail". */
  function Describe(f: Fault): string {
    match f
    case BadRequest(d) => "400: " + d
    case ValueError(m) => m
  }

  datatype HttpError = HttpError(status: int, detail: string)

  const ErrorPrefix: string := "Error in causal analysis: "

  /** The outer handler: every exception becomes a 500 carrying its text. */
  function Rewrap(f: Fault): (e: HttpError)
    ensures e.status == 500
    ensures e.detail == ErrorPrefix + Describe(f)
  {
    HttpError(500, ErrorPrefix + Describe(f))
  }

  datatype CausalOutcome = DiDOutcome(numericResults: DiDResult) | UpliftOutcome(summary: UpliftSummary)

  /** What the endpoint returns, with the cells pooled as `AggregateCells` pools them. */
  function CausalAnalysis(r: CausalRequest, fitted: Result<seq<real>, string>, lib: Lib): Result<CausalOutcome, HttpError>
    requires r.upliftData.Some? && fitted.Success? ==> |fitted.value| == |r.upliftData.value|
  {
    if r.mode == "did" then
      match r.didData
      case None => Failure(Rewrap(BadRequest("did_data is required for DiD mode")))
      case Some(d) =>
        var counts := CellCounts(d.data);
        Success(DiDOutcome(CalculateDiD(CellRates(CellSums(d.data, d.metricType), counts), counts, d.metricType, lib)))
    else if r.mode == "uplift" then
      match r.upliftData
      case None => Failure(Rewrap(BadRequest("uplift_data is required for uplift mode")))
      case Some(rows) =>
        match UpliftModel(rows, fitted)
        case Failure(m) => Failure(Rewrap(ValueError(m)))
        case Success(s) => Success(UpliftOutcome(s))
    else Failure(Rewrap(BadRequest("Unknown mode: " + r.mode)))
  }

  /** `analyze_causal`. */
  method AnalyzeCausal(r: CausalRequest, fitted: Result<seq<real>, string>, lib: Lib)
    returns (result: Result<CausalOutcome, HttpError>)
    requires r.upliftData.Some? && fitted.Success? ==> |fitted.value| == |r.upliftData.value|
    ensures result == CausalAnalysis(r, fitted, lib)
    ensures result.Failure? ==> result.error.status == 500
  {
    if r.mode == "did" {
      if r.didData.None? {
        return Failure(Rewrap(BadRequest("did_data is required for DiD mode")));
      }
      var d := r.didData.value;
      var sums, counts := AggregateCells(d.data, d.metricType);
      var rates := CellRates(sums, counts);
      result := Success(DiDOutcome(CalculateDiD(rates, counts, d.metricType, lib)));
    } else if r.mode == "uplift" {
      if r.upliftData.None? {
        return Failure(Rewrap(BadRequest("uplift_data is required for uplift mode")));
      }
      match UpliftModel(r.upliftData.value, fitted)
      case Failure(m) => result := Failure(Rewrap(ValueError(m)));
      case Success(s) => result := Success(UpliftOutcome(s));
    } else {
      result := Failure(Rewrap(BadRequest("Unknown mode: " + r.mode)));
    }
  }

  /** Every failure of the endpoint is a 500, the missing-data 400s included. */
  lemma FailuresAre500(r: CausalRequest, fitted: Result<seq<real>, string>, lib: Lib)
    requires r.upliftData.Some? && fitted.Success? ==> |fitted.value| == |r.upliftData.value|
    ensures var res := CausalAnalysis(r, fitted, lib);
      res.Failure? ==> res.error.status == 500 && StartsWith(res.error.detail, ErrorPrefix)
  {
  }

  /** Routing: which requests fail, and with which text. */
  lemma Routing(r: CausalRequest, fitted: Result<seq<real>, string>, lib: Lib)
    requires r.upliftData.Some? && fitted.Success? ==> |fitted.value| == |r.upliftData.value|
    ensures var res := CausalAnalysis(r, fitted, lib);
      (r.mode == "did" ==> (res.Failure? <==> r.didData.None?) && (res.Success? ==> res.value.DiDOutcome?)) &&
      (r.mode == "did" && r.didData.None? ==>
         res == Failure(Rewrap(BadRequest("did_data is required for DiD mode")))) &&
      (r.mode == "uplift" && r.upliftData.None? ==>
         res == Failure(Rewrap(BadRequest("uplift_data is required for uplift mode")))) &&
      (r.mode == "uplift" && r.upliftData.Some? ==>
         (res.Success? <==> UpliftModel(r.upliftData.value, fitted).Success?)) &&
      (r.mode != "did" && r.mode != "uplift" ==> res.Failure?)
  {
  }

  /**
   * For a valid request whose points report no more conversions than users,
   * the proportion-mode DiD interval contains the estimate.
   */
  lemma ProportionIntervalBrackets(d: DiDRequest, lib: Lib)
    requires SoundSqrt(lib)
    requires d.metricType == "proportion"
    requires forall i :: 0 <= i < |d.data| ==> 0.0 <= d.data[i].outcome <= d.data[i].users as real
    ensures var counts := CellCounts(d.data);
      var res := CalculateDiD(CellRates(CellSums(d.data, d.metricType), counts), counts, d.metricType, lib);
      res.ciLower <= res.didEstimate <= res.ciUpper
  {
    ProportionRatesInUnitInterval(d.data);
    var counts := CellCounts(d.data);
    IntervalBracketsEstimate(CellRates(CellSums(d.data, d.metricType), counts), counts, d.metricType, lib);
  }
}
