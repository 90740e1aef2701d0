/**
 * The three chat handlers of the orchestrator
 * (backend/app/services/agent_orchestrator.py): the sizing the design
 * handler does before calling the design agent, the A/B handler's metric
 * table, variant rows, comparison loop and warning, and the rates the causal
 * handler hands to `calculate_did`. The report writer and the reply text
 * are left out.
 */
module ChatHandlers {
  import opened Wrappers
  import opened PyStr
  import opened JsonValue
  import opened StatsLib
  import opened StatsCalculator
  import opened DesignModels
  import opened DesignAgent
  import DesignApi
  import opened AnalysisInputs
  import opened AnalysisOutputs
  import AbTestApi
  import opened CausalAnalyzer
  import CausalApi

  // ---------------------------------------------------------------------
  // The experiment design handler
  // ---------------------------------------------------------------------

  /** The values the design handler reads from the extracted parameters. */
  datatype DesignParams = DesignParams(
    description: Json,
    baselineRate: Json,
    minimumDetectableEffect: Json,
    alpha: Json,
    power: Json,
    expectedDailyTraffic: Json)

  /** `params.get(...)`: "" for the description, 0.05 for alpha, 0.8 for power, null for the rest. */
  function ReadDesignParams(params: map<string, Json>): (p: DesignParams)
    ensures "description" !in params ==> p.description == JStr("")
    ensures "alpha" !in params ==> p.alpha == JNum(DefaultAlpha)
    ensures "power" !in params ==> p.power == JNum(DefaultPower)
    ensures "baseline_rate" !in params ==> p.baselineRate == JNull
    ensures "minimum_detectable_effect" !in params ==> p.minimumDetectableEffect == JNull
    ensures "expected_daily_traffic" !in params ==> p.expectedDailyTraffic == JNull
  {
    DesignParams(GetOr(params, "description", JStr("")),
                 Get(params, "baseline_rate"),
                 Get(params, "minimum_detectable_effect"),
                 GetOr(params, "alpha", JNum(DefaultAlpha)),
                 GetOr(params, "power", JNum(DefaultPower)),
                 Get(params, "expected_daily_traffic"))
  }

  /**
   * The sizing of `_handle_experiment_design`. Only with a baseline and an
   * effect is a sample size computed, for a relative effect; only with a
   * traffic figure as well is a duration computed, for two variants. A value
   * that is not a number makes the calculation raise, which the handler
   * swallows: before the sample size is assigned both stay missing, after it
   * only the duration does.
   */
  function ChatSizing(p: DesignParams, lib: Lib): (s: DesignApi.Sizing)
    ensures s.sampleSize.Some? ==> p.baselineRate != JNull && p.minimumDetectableEffect != JNull
    ensures s.estimatedDuration.Some? ==> s.sampleSize.Some? && p.expectedDailyTraffic != JNull
    ensures s.sampleSize.Some? ==>
      AsNumber(p.baselineRate).Some? && AsNumber(p.minimumDetectableEffect).Some? &&
      AsNumber(p.alpha).Some? && AsNumber(p.power).Some? &&
      s.sampleSize == SampleSizeProportion(AsNumber(p.baselineRate).value, AsNumber(p.minimumDetectableEffect).value,
                                           AsNumber(p.alpha).value, AsNumber(p.power).value,
                                           DesignApi.SizingEffectType, lib)
    ensures s.estimatedDuration.Some? ==>
      AsNumber(p.expectedDailyTraffic).Some? &&
      s.estimatedDuration == EstimateExperimentDuration(s.sampleSize.value, DesignApi.SizingVariants,
                                                        AsNumber(p.expectedDailyTraffic).value)
  {
    if p.baselineRate == JNull || p.minimumDetectableEffect == JNull then DesignApi.Sizing(None, None)
    else
      var baseline, mde := AsNumber(p.baselineRate), AsNumber(p.minimumDetectableEffect);
      var alpha, power := AsNumber(p.alpha), AsNumber(p.power);
      if baseline.None? || mde.None? || alpha.None? || power.None? then DesignApi.Sizing(None, None)
      else
        match SampleSizeProportion(baseline.value, mde.value, alpha.value, power.value, DesignApi.SizingEffectType, lib)
        case None => DesignApi.Sizing(None, None)
        case Some(n) =>
          if p.expectedDailyTraffic == JNull then DesignApi.Sizing(Some(n), None)
          else
            match AsNumber(p.expectedDailyTraffic)
            case None => DesignApi.Sizing(Some(n), None)
            case Some(t) => DesignApi.Sizing(Some(n), EstimateExperimentDuration(n, DesignApi.SizingVariants, t))
  }

  /** A traffic figure that is not a number loses the duration but keeps the sample size already computed. */
  lemma TrafficFailureKeepsSampleSize(p: DesignParams, lib: Lib)
    requires AsNumber(p.baselineRate).Some? && AsNumber(p.minimumDetectableEffect).Some?
    requires AsNumber(p.alpha).Some? && AsNumber(p.power).Some?
    requires p.expectedDailyTraffic != JNull && AsNumber(p.expectedDailyTraffic).None?
    ensures ChatSizing(p, lib).estimatedDuration.None?
    ensures ChatSizing(p, lib).sampleSize ==
      SampleSizeProportion(AsNumber(p.baselineRate).value, AsNumber(p.minimumDetectableEffect).value,
                           AsNumber(p.alpha).value, AsNumber(p.power).value, DesignApi.SizingEffectType, lib)
  {
    assert p.baselineRate != JNull && p.minimumDetectableEffect != JNull;
  }

  /** The parameters the chat would extract for the same request the design endpoint receives. */
  function RequestParams(r: DesignRequest): (p: DesignParams)
    ensures p.baselineRate == DesignApi.OptionalNumber(r.baselineRate)
    ensures p.minimumDetectableEffect == DesignApi.OptionalNumber(r.minimumDetectableEffect)
    ensures AsNumber(p.alpha) == Some(r.alpha) && AsNumber(p.power) == Some(r.power)
    ensures r.expectedDailyTraffic.None? <==> p.expectedDailyTraffic == JNull
  {
    DesignParams(JStr(r.description),
                 DesignApi.OptionalNumber(r.baselineRate),
                 DesignApi.OptionalNumber(r.minimumDetectableEffect),
                 JNum(r.alpha), JNum(r.power),
                 if r.expectedDailyTraffic.Some? then JNum(r.expectedDailyTraffic.value as real) else JNull)
  }

  /**
   * The chat sizes a request as the design endpoint does; where the
   * endpoint fails with a 500 the chat goes on with neither figure.
   */
  lemma {:induction false} ChatSizingMatchesEndpoint(r: DesignRequest, lib: Lib)
    requires ValidDesignRequest(r)
    ensures DesignApi.PlannedSizing(r, lib).Success? ==> ChatSizing(RequestParams(r), lib) == DesignApi.PlannedSizing(r, lib).value
    ensures DesignApi.PlannedSizing(r, lib).Failure? ==> ChatSizing(RequestParams(r), lib) == DesignApi.Sizing(None, None)
  {
    var p := RequestParams(r);
    if r.baselineRate.Some? && r.minimumDetectableEffect.Some? {
      assert AsNumber(p.baselineRate) == r.baselineRate && AsNumber(p.minimumDetectableEffect) == r.minimumDetectableEffect;
      if r.expectedDailyTraffic.Some? {
        assert AsNumber(p.expectedDailyTraffic) == Some(r.expectedDailyTraffic.value as real);
      }
    }
  }

  /** What the design handler answers: the agent's output with the sizing, or the error it caught. */
  datatype DesignChatReply =
    | DesignAnswered(output: DesignOutput, sizing: DesignApi.Sizing)
    | DesignErrored(fault: DesignFault)

  /** `_handle_experiment_design`: the sizing, then the design agent with the raw baseline and effect. */
  function ChatDesignExperiment(p: DesignParams, lib: Lib, oracles: DesignOracles): (reply: DesignChatReply)
    ensures var s := ChatSizing(p, lib);
      var agent := DesignExperiment(p.description, p.baselineRate, p.minimumDetectableEffect,
                                    s.sampleSize, s.estimatedDuration, oracles);
      (reply.DesignAnswered? <==> agent.Success?) &&
      (reply.DesignAnswered? ==> reply.sizing == s && reply.output == agent.value) &&
      (reply.DesignErrored? ==> reply.fault == agent.error)
    ensures reply.DesignAnswered? ==>
      reply.output.card.sampleSizePerVariant == reply.sizing.sampleSize &&
      reply.output.card.estimatedDurationDays == reply.sizing.estimatedDuration
  {
    var s := ChatSizing(p, lib);
    match DesignExperiment(p.description, p.baselineRate, p.minimumDetectableEffect, s.sampleSize, s.estimatedDuration, oracles)
    case Success(out) => DesignAnswered(out, s)
    case Failure(f) => DesignErrored(f)
  }

  /**
   * For a request the endpoint sizes, the chat produces the endpoint's card
   * and explanation, or fails where the endpoint fails, for the same reason.
   */
  lemma ChatDesignMatchesEndpoint(r: DesignRequest, lib: Lib, oracles: DesignOracles)
    requires ValidDesignRequest(r)
    requires DesignApi.PlannedSizing(r, lib).Success?
    ensures var reply := ChatDesignExperiment(RequestParams(r), lib, oracles);
      var res := DesignApi.DesignExperimentEndpoint(r, lib, oracles);
      (reply.DesignAnswered? <==> res.Success?) &&
      (res.Success? ==> reply.output == res.value) &&
      (res.Failure? ==> res.error.fault == DesignApi.AgentFailed(reply.fault))
  {
    ChatSizingMatchesEndpoint(r, lib);
  }

  // ---------------------------------------------------------------------
  // The A/B test handler
  // ---------------------------------------------------------------------

  /**
   * `metric_type_mapping.get(raw.lower(), "cvr")`: the aliases of CTR and of
   * revenue per user are recognised, and every other name reads as CVR.
   */
  function NormalizeMetric(raw: string): (m: string)
    ensures m == "ctr" <==> Lower(raw) == "ctr" || Lower(raw) == "click_through_rate"
    ensures m == "revenue_per_user" <==> Lower(raw) == "revenue_per_user" || Lower(raw) == "arpu"
    ensures m == "cvr" <==>
      Lower(raw) != "ctr" && Lower(raw) != "click_through_rate" &&
      Lower(raw) != "revenue_per_user" && Lower(raw) != "arpu"
  {
    var key := Lower(raw);
    if key == "conversion_rate" || key == "conversion" || key == "cvr" then "cvr"
    else if key == "ctr" || key == "click_through_rate" then "ctr"
    else if key == "revenue_per_user" || key == "arpu" then "revenue_per_user"
    else "cvr"
  }

  /** The metric names of the A/B endpoint are their own normal form. */
  lemma EndpointMetricsNormalise()
    ensures NormalizeMetric("ctr") == "ctr"
    ensures NormalizeMetric("cvr") == "cvr"
    ensures NormalizeMetric("revenue_per_user") == "revenue_per_user"
  {
    LowerKeepsLowercase("ctr");
    LowerKeepsLowercase("cvr");
    LowerKeepsLowercase("revenue_per_user");
  }

  /** One extracted variant; `None` for a key that is absent. */
  datatype ChatVariantInput = ChatVariantInput(
    name: Option<string>,
    users: Option<int>,
    clicks: Option<int>,
    orders: Option<int>,
    conversions: Option<int>,
    converts: Option<int>,
    revenue: Option<real>)

  /** A count Python treats as true: present and not 0. */
  predicate TruthyCount(x: Option<int>) {
    x.Some? && x.value != 0
  }

  /** `v.get("orders") or v.get("conversions") or v.get("converts")`. */
  function OrdersOf(v: ChatVariantInput): (r: Option<int>)
    ensures r == v.orders || r == v.conversions || r == v.converts
    ensures TruthyCount(r) <==> TruthyCount(v.orders) || TruthyCount(v.conversions) || TruthyCount(v.converts)
    ensures TruthyCount(v.orders) ==> r == v.orders
    ensures !TruthyCount(v.orders) && TruthyCount(v.conversions) ==> r == v.conversions
    ensures !TruthyCount(v.orders) && !TruthyCount(v.conversions) ==> r == v.converts
  {
    if TruthyCount(v.orders) then v.orders
    else if TruthyCount(v.conversions) then v.conversions
    else v.converts
  }

  /**
   * One row of `variant_results`: the name ("unknown" when absent), the users
   * (0 when absent), the counts, and each rate only when its count is present
   * and there are users.
   */
  function ChatRow(v: ChatVariantInput): (row: VariantResult)
    ensures row.name == v.name.GetOr("unknown") && row.users == v.users.GetOr(0)
    ensures row.clicks == v.clicks && row.orders == OrdersOf(v) && row.revenue == v.revenue
    ensures row.ctr.Some? <==> v.clicks.Some? && row.users > 0
    ensures row.ctr.Some? ==> row.ctr.value * row.users as real == v.clicks.value as real
    ensures row.cvr.Some? <==> row.orders.Some? && row.users > 0
    ensures row.cvr.Some? ==> row.cvr.value * row.users as real == row.orders.value as real
    ensures row.arpu.Some? <==> v.revenue.Some? && row.users > 0
    ensures row.arpu.Some? ==> row.arpu.value * row.users as real == v.revenue.value
  {
    AbTestApi.VariantMetrics(VariantData(v.name.GetOr("unknown"), v.users.GetOr(0), v.clicks, OrdersOf(v), v.revenue))
  }

  /**
   * An order count of 0 falls through the `or` chain: with no other key the
   * row has no orders and no CVR, where the endpoint reports a CVR of 0, and
   * the variant is never compared on CVR.
   */
  lemma ZeroOrdersFallThrough(v: ChatVariantInput, control: VariantResult, lib: Lib)
    requires v.orders == Some(0) && v.conversions.None? && v.converts.None?
    requires v.users.GetOr(0) > 0
    ensures ChatRow(v).orders.None? && ChatRow(v).cvr.None?
    ensures AbTestApi.VariantMetrics(VariantData(v.name.GetOr("unknown"), v.users.GetOr(0), v.clicks, v.orders, v.revenue)).cvr
            == Some(0.0)
    ensures AbTestApi.CompareOne(ChatRow(v), control, "cvr", lib).Skipped?
  {
  }

  function ChatLowSampleWarning(minUsers: int): string {
    "Low sample size detected (minimum " + IntToString(minUsers) + " users). Results may not be reliable."
  }

  /** The handler's only warning: the small-sample one, when some variant has fewer than 100 users. */
  function ChatWarnings(rows: seq<VariantResult>): (w: seq<string>)
    requires |rows| >= 1
    ensures |w| <= 1
    ensures |w| == 1 <==> exists j :: 0 <= j < |rows| && rows[j].users < AbTestApi.MinSampleSizeWarning
    ensures |w| == 1 ==> w[0] == ChatLowSampleWarning(AbTestApi.MinUsers(rows))
  {
    if AbTestApi.MinUsers(rows) < AbTestApi.MinSampleSizeWarning
    then [ChatLowSampleWarning(AbTestApi.MinUsers(rows))] else []
  }

  /**
   * The handler's comparisons: those of the endpoint on CTR or CVR, `None`
   * when a proportion test raises, and none at all for revenue per user,
   * which the handler has no branch for.
   */
  function ChatComparisons(rows: seq<VariantResult>, control: VariantResult, metricType: string, lib: Lib)
    : (r: Option<seq<Comparison>>)
    ensures metricType != "ctr" && metricType != "cvr" ==> r == Some([])
    ensures r.Some? ==> forall i :: 0 <= i < |r.value| ==> r.value[i].controlName == control.name && r.value[i].treatmentName != control.name
    ensures r.Some? ==> forall i :: 0 <= i < |r.value| ==> (r.value[i].isSignificant <==> r.value[i].pValue < AbTestApi.SignificanceLevel)
  {
    if metricType == "ctr" || metricType == "cvr" then AbTestApi.Comparisons(rows, control, metricType, lib) else Some([])
  }

  /** What the handler's loop makes of one row: the endpoint's treatment on CTR and CVR, nothing otherwise. */
  function ChatTreated(treatment: VariantResult, control: VariantResult, metricType: string, lib: Lib): (c: AbTestApi.Treated)
    ensures metricType != "ctr" && metricType != "cvr" ==> c == AbTestApi.Skipped
  {
    if metricType == "ctr" || metricType == "cvr" then AbTestApi.CompareOne(treatment, control, metricType, lib) else AbTestApi.Skipped
  }

  /**
   * One more row not named like the control adds its comparison, if it has
   * one, or makes the whole result `None` if its test raises.
   */
  lemma ChatComparisonsStep(rows: seq<VariantResult>, control: VariantResult, metricType: string, lib: Lib)
    requires |rows| >= 1
    ensures var last := rows[|rows| - 1];
      var rest := ChatComparisons(rows[..|rows| - 1], control, metricType, lib);
      var c := ChatTreated(last, control, metricType, lib);
      ChatComparisons(rows, control, metricType, lib) ==
        if rest.None? || (last.name != control.name && c.Raised?) then None
        else Some(rest.value + (if last.name != control.name && c.Compared? then [c.comparison] else []))
  {
    if metricType == "ctr" || metricType == "cvr" {
      AbTestApi.ComparisonsStep(rows, control, metricType, lib);
    } else {
      var none: seq<Comparison> := [];
      assert none + [] == none;
    }
  }

  /** A raise among the first `k` rows is a raise of the whole loop. */
  lemma ChatRaisePersists(rows: seq<VariantResult>, control: VariantResult, metricType: string, lib: Lib, k: nat)
    requires k <= |rows| && ChatComparisons(rows[..k], control, metricType, lib).None?
    ensures ChatComparisons(rows, control, metricType, lib).None?
  {
    AbTestApi.RaisePersists(rows, control, metricType, lib, k);
  }

  function ChatRows(variants: seq<ChatVariantInput>): (rows: seq<VariantResult>)
    ensures |rows| == |variants|
    ensures forall i :: 0 <= i < |variants| ==> rows[i] == ChatRow(variants[i])
  {
    seq(|variants|, i requires 0 <= i < |variants| => ChatRow(variants[i]))
  }

  /** What the A/B handler gives back. */
  datatype AbChatOutcome =
    | MetricTypeRaised   // `.lower()` on a metric type that is not text raises before the handler's `try`
    | NeedsTwoVariants   // the clarification asking for two variants
    | AbErrored          // the `except` reply: a proportion test raised inside the handler's `try`
    | AbAnswered(variants: seq<VariantResult>, comparisons: seq<Comparison>, warnings: seq<string>)

  /**
   * `_handle_ab_test_analysis` as a function of the extracted variants and
   * the extracted metric type (`"cvr"` when absent).
   */
  function ChatAbOutcome(variants: seq<ChatVariantInput>, metricTypeRaw: Json, lib: Lib): (o: AbChatOutcome)
    ensures o == MetricTypeRaised <==> !metricTypeRaw.JStr?
    ensures metricTypeRaw.JStr? ==> (o == NeedsTwoVariants <==> |variants| < 2)
    ensures metricTypeRaw.JStr? && |variants| >= 2 ==>
      var rows := ChatRows(variants);
      (o == AbErrored <==> ChatComparisons(rows, rows[AbTestApi.ControlIndex(rows)], NormalizeMetric(metricTypeRaw.s), lib).None?)
    ensures o.AbAnswered? ==> |variants| >= 2 && o.variants == ChatRows(variants)
    ensures o.AbAnswered? ==>
      var control := o.variants[AbTestApi.ControlIndex(o.variants)];
      ChatComparisons(o.variants, control, NormalizeMetric(metricTypeRaw.s), lib) == Some(o.comparisons) &&
      o.warnings == ChatWarnings(o.variants)
  {
    match metricTypeRaw
    case JStr(raw) =>
      if |variants| < 2 then NeedsTwoVariants
      else
        var rows := ChatRows(variants);
        var control := rows[AbTestApi.ControlIndex(rows)];
        var comparisons := ChatComparisons(rows, control, NormalizeMetric(raw), lib);
        if comparisons.None? then AbErrored else AbAnswered(rows, comparisons.value, ChatWarnings(rows))
    case _ => MetricTypeRaised
  }

  /** The handler's comparison loop, with its own CTR and CVR branches; `None` when a test raises. */
  method ChatCompareAll(rows: seq<VariantResult>, control: VariantResult, metricType: string, lib: Lib)
    returns (comparisons: Option<seq<Comparison>>)
    ensures comparisons == ChatComparisons(rows, control, metricType, lib)
  {
    var made: seq<Comparison> := [];
    for k := 0 to |rows|
      invariant ChatComparisons(rows[..k], control, metricType, lib) == Some(made)
    {
      var treatment := rows[k];
      ChatComparisonsStep(rows[..k + 1], control, metricType, lib);
      assert rows[..k + 1][..k] == rows[..k];
      if treatment.name == control.name {
        continue;
      }
      var treated: AbTestApi.Treated;
      if metricType == "ctr" && treatment.clicks.Some? && control.clicks.Some? {
        var t := ProportionDifference(control.users as real, control.clicks.value as real,
                                      treatment.users as real, treatment.clicks.value as real, lib);
        treated := AbTestApi.FromProportionTest(treatment, control, "CTR", t);
      } else if metricType == "cvr" && treatment.orders.Some? && control.orders.Some? {
        var t := ProportionDifference(control.users as real, control.orders.value as real,
                                      treatment.users as real, treatment.orders.value as real, lib);
        treated := AbTestApi.FromProportionTest(treatment, control, "CVR", t);
      } else {
        continue;
      }
      if treated.Raised? {
        ChatRaisePersists(rows, control, metricType, lib, k + 1);
        return None;
      }
      made := made + [treated.comparison];
    }
    assert rows[..|rows|] == rows;
    comparisons := Some(made);
  }

  /** The handler's rows loop: one row per extracted variant, in order. */
  method ChatVariantRows(variants: seq<ChatVariantInput>) returns (rows: seq<VariantResult>)
    ensures rows == ChatRows(variants)
  {
    rows := [];
    for i := 0 to |variants|
      invariant |rows| == i
      invariant forall j :: 0 <= j < i ==> rows[j] == ChatRow(variants[j])
    {
      var v := variants[i];
      var users := v.users.GetOr(0);
      var orders := OrdersOf(v);
      var ctr := if v.clicks.Some? && users > 0 then Some(v.clicks.value as real / users as real) else None;
      var cvr := if orders.Some? && users > 0 then Some(orders.value as real / users as real) else None;
      var arpu := if v.revenue.Some? && users > 0 then Some(v.revenue.value / users as real) else None;
      rows := rows + [VariantResult(v.name.GetOr("unknown"), users, v.clicks, orders, v.revenue, ctr, cvr, arpu)];
    }
  }

  /** `_handle_ab_test_analysis`: the metric, the rows loop, the control, the comparison loop, the warning, the `except` reply. */
  method HandleAbTestAnalysis(variants: seq<ChatVariantInput>, metricTypeRaw: Json, lib: Lib)
    returns (o: AbChatOutcome)
    ensures o == ChatAbOutcome(variants, metricTypeRaw, lib)
  {
    if !metricTypeRaw.JStr? {
      return MetricTypeRaised;
    }
    var metricType := NormalizeMetric(metricTypeRaw.s);
    if |variants| < 2 {
      return NeedsTwoVariants;
    }
    var rows := ChatVariantRows(variants);
    var control := rows[AbTestApi.ControlIndex(rows)];
    var comparisons := ChatCompareAll(rows, control, metricType, lib);
    ChatOutcomeOf(variants, metricTypeRaw.s, lib);
    if comparisons.None? {
      return AbErrored;
    }
    var warnings: seq<string> := [];
    var minUsers := AbTestApi.MinUsers(rows);
    if minUsers < AbTestApi.MinSampleSizeWarning {
      warnings := warnings + [ChatLowSampleWarning(minUsers)];
    }
    o := AbAnswered(rows, comparisons.value, warnings);
  }

  /**
   * With users in every variant and a Wald interval that raises only on an
   * empty group, a text metric and two variants always get an answer.
   */
  lemma ChatAnswersWithUsers(variants: seq<ChatVariantInput>, raw: string, lib: Lib)
    requires SoundWald(lib) && |variants| >= 2
    requires forall i :: 0 <= i < |variants| ==> variants[i].users.GetOr(0) > 0
    ensures ChatAbOutcome(variants, JStr(raw), lib).AbAnswered?
  {
    var rows := ChatRows(variants);
    var control := rows[AbTestApi.ControlIndex(rows)];
    var mt := NormalizeMetric(raw);
    if mt == "ctr" || mt == "cvr" {
      AbTestApi.ComparisonsDefined(rows, control, mt, lib);
    }
  }

  /**
   * A control sent without a user count is a group of 0 users: its CTR test
   * against any treatment raises when the score method does, and the
   * handler gives its error reply.
   */
  lemma ControlWithoutUsersErrors(lib: Lib)
    requires SoundWald(lib) && lib.scoreInterval(5.0, 0.0, 10.0, 100.0).None?
    ensures ChatAbOutcome([ChatVariantInput(Some("control"), None, Some(5), None, None, None, None),
                           ChatVariantInput(Some("B"), Some(100), Some(10), None, None, None, None)],
                          JStr("ctr"), lib) == AbErrored
  {
    var variants := [ChatVariantInput(Some("control"), None, Some(5), None, None, None, None),
                     ChatVariantInput(Some("B"), Some(100), Some(10), None, None, None, None)];
    var rows := ChatRows(variants);
    var control, treatment := rows[0], rows[1];
    assert control.name == "control" && control.users == 0 && control.clicks == Some(5);
    assert treatment.name == "B" && treatment.users == 100 && treatment.clicks == Some(10);
    LowerKeepsLowercase("control");
    LowerKeepsLowercase("ctr");
    assert AbTestApi.ControlIndex(rows) == 0;
    ProportionDifferenceRaises(0.0, 5.0, 100.0, 10.0, lib);
    assert ChatTreated(treatment, control, "ctr", lib).Raised?;
    ChatComparisonsStep(rows, control, "ctr", lib);
    ChatOutcomeOf(variants, "ctr", lib);
  }

  /** Revenue per user, under any of its names, is never compared in the chat. */
  lemma ChatNeverComparesRevenue(variants: seq<ChatVariantInput>, raw: string, lib: Lib)
    requires NormalizeMetric(raw) == "revenue_per_user" && |variants| >= 2
    ensures ChatAbOutcome(variants, JStr(raw), lib).AbAnswered?
    ensures ChatAbOutcome(variants, JStr(raw), lib).comparisons == []
  {
  }

  /** The chat's view of an endpoint variant: every key present, the orders under "orders". */
  function AsChatInput(v: VariantData): (c: ChatVariantInput)
    ensures c.name == Some(v.name) && c.users == Some(v.users) && c.orders == v.orders
  {
    ChatVariantInput(Some(v.name), Some(v.users), v.clicks, v.orders, None, None, v.revenue)
  }

  function AsChatInputs(vs: seq<VariantData>): (cs: seq<ChatVariantInput>)
    ensures |cs| == |vs| && forall i :: 0 <= i < |vs| ==> cs[i] == AsChatInput(vs[i])
  {
    seq(|vs|, i requires 0 <= i < |vs| => AsChatInput(vs[i]))
  }

  /** The handler's answer, given two variants and a text metric, read off its comparisons. */
  lemma ChatOutcomeOf(variants: seq<ChatVariantInput>, raw: string, lib: Lib)
    requires |variants| >= 2
    ensures var rows := ChatRows(variants);
      var cs := ChatComparisons(rows, rows[AbTestApi.ControlIndex(rows)], NormalizeMetric(raw), lib);
      ChatAbOutcome(variants, JStr(raw), lib) == if cs.None? then AbErrored else AbAnswered(rows, cs.value, ChatWarnings(rows))
  {
  }

  /**
   * On CTR and CVR the chat reports the endpoint's variants and comparisons
   * for the same data, as long as no variant reports 0 orders.
   */
  lemma ChatAgreesWithEndpoint(r: AbTestRequest, lib: Lib)
    requires ValidAbRequest(r)
    requires r.overallMetricType == "ctr" || r.overallMetricType == "cvr"
    requires forall i :: 0 <= i < |r.variants| ==> r.variants[i].orders != Some(0)
    ensures var o := ChatAbOutcome(AsChatInputs(r.variants), JStr(r.overallMetricType), lib);
      var a := AbTestApi.AbTestAnalysis(r, lib);
      (o.AbAnswered? <==> a.Success?) && (o == AbErrored <==> a.Failure?) &&
      (a.Success? ==> o.variants == a.value.variants && o.comparisons == a.value.comparisons)
  {
    var mt := r.overallMetricType;
    EndpointMetricsNormalise();
    ChatRowsMatchEndpoint(r.variants);
    var rows := ChatRows(AsChatInputs(r.variants));
    assert rows == AbTestApi.AllVariantMetrics(r.variants);
    var control := rows[AbTestApi.ControlIndex(rows)];
    var comparisons := ChatComparisons(rows, control, mt, lib);
    assert comparisons == AbTestApi.Comparisons(rows, control, mt, lib);
    var a := AbTestApi.AbTestAnalysis(r, lib);
    var o := ChatAbOutcome(AsChatInputs(r.variants), JStr(mt), lib);
    ChatOutcomeOf(AsChatInputs(r.variants), mt, lib);
    if comparisons.None? {
      assert o == AbErrored && a.Failure?;
    } else {
      assert o == AbAnswered(rows, comparisons.value, ChatWarnings(rows));
      assert a.Success? && a.value.variants == rows && a.value.comparisons == comparisons.value;
    }
  }

  /** Without a 0 order count, the chat's rows are the endpoint's variant results. */
  lemma ChatRowsMatchEndpoint(vs: seq<VariantData>)
    requires forall i :: 0 <= i < |vs| ==> vs[i].orders != Some(0)
    ensures ChatRows(AsChatInputs(vs)) == AbTestApi.AllVariantMetrics(vs)
  {
    var rows := ChatRows(AsChatInputs(vs));
    forall i | 0 <= i < |vs| ensures rows[i] == AbTestApi.VariantMetrics(vs[i]) {
      assert OrdersOf(AsChatInput(vs[i])) == vs[i].orders;
    }
  }

  // ---------------------------------------------------------------------
  // The causal analysis handler
  // ---------------------------------------------------------------------

  /** The eight extracted figures (0 when absent) and the metric type ("proportion" when absent). */
  datatype DiDChatParams = DiDChatParams(outcomes: Cells<real>, users: Cells<int>, metricType: string)

  /** `outcome / users if users > 0 else 0`. */
  function ChatRate(outcome: real, users: int): (r: real)
    ensures users > 0 ==> r * users as real == outcome
    ensures users <= 0 ==> r == 0.0
  {
    if users > 0 then outcome / users as real else 0.0
  }

  /**
   * The rates handed to `calculate_did`: each outcome over its users for
   * proportions, as the endpoint computes cell rates; the outcomes themselves
   * for any other metric.
   */
  function ChatRates(p: DiDChatParams): (rates: Cells<real>)
    ensures p.metricType == "proportion" ==> rates == CausalApi.CellRates(p.outcomes, p.users)
    ensures p.metricType != "proportion" ==> rates == p.outcomes
  {
    if p.metricType == "proportion" then
      Cells(ChatRate(p.outcomes.treatmentPre, p.users.treatmentPre),
            ChatRate(p.outcomes.treatmentPost, p.users.treatmentPost),
            ChatRate(p.outcomes.controlPre, p.users.controlPre),
            ChatRate(p.outcomes.controlPost, p.users.controlPost))
    else p.outcomes
  }

  /** `_handle_causal_analysis`'s estimate: `calculate_did` on the chat's rates and the users as cell sizes. */
  function ChatDiD(p: DiDChatParams, lib: Lib): (r: DiDResult)
    ensures p.metricType != "proportion" ==>
      r.didEstimate == (p.outcomes.treatmentPost - p.outcomes.treatmentPre) -
                       (p.outcomes.controlPost - p.outcomes.controlPre)
    ensures r.ciUpper - r.didEstimate == r.didEstimate - r.ciLower
    ensures r.pValue.None? <==> StandardError(ChatRates(p), p.users, p.metricType, lib) <= 0.0
  {
    CalculateDiD(ChatRates(p), p.users, p.metricType, lib)
  }

  /** The chat's figures as the endpoint's raw points, one per cell. */
  function OnePointPerCell(p: DiDChatParams): (data: seq<DiDDataPoint>)
    ensures |data| == 4
  {
    [DiDDataPoint("treatment", "pre", p.users.treatmentPre, p.outcomes.treatmentPre),
     DiDDataPoint("treatment", "post", p.users.treatmentPost, p.outcomes.treatmentPost),
     DiDDataPoint("control", "pre", p.users.controlPre, p.outcomes.controlPre),
     DiDDataPoint("control", "post", p.users.controlPost, p.outcomes.controlPost)]
  }

  /** Appending a point adds its share to each cell's users and sum. */
  lemma PoolOneMore(s: seq<DiDDataPoint>, x: DiDDataPoint, mt: string)
    ensures var share := if CausalApi.CellOf(x) == Some(CausalApi.TreatmentPre) then x.users else 0;
      CausalApi.CellUsers(s + [x], CausalApi.TreatmentPre) == CausalApi.CellUsers(s, CausalApi.TreatmentPre) + share
    ensures var share := if CausalApi.CellOf(x) == Some(CausalApi.TreatmentPost) then x.users else 0;
      CausalApi.CellUsers(s + [x], CausalApi.TreatmentPost) == CausalApi.CellUsers(s, CausalApi.TreatmentPost) + share
    ensures var share := if CausalApi.CellOf(x) == Some(CausalApi.ControlPre) then x.users else 0;
      CausalApi.CellUsers(s + [x], CausalApi.ControlPre) == CausalApi.CellUsers(s, CausalApi.ControlPre) + share
    ensures var share := if CausalApi.CellOf(x) == Some(CausalApi.ControlPost) then x.users else 0;
      CausalApi.CellUsers(s + [x], CausalApi.ControlPost) == CausalApi.CellUsers(s, CausalApi.ControlPost) + share
    ensures var share := if CausalApi.CellOf(x) == Some(CausalApi.TreatmentPre) then CausalApi.Contribution(x, mt) else 0.0;
      CausalApi.CellSum(s + [x], CausalApi.TreatmentPre, mt) == CausalApi.CellSum(s, CausalApi.TreatmentPre, mt) + share
    ensures var share := if CausalApi.CellOf(x) == Some(CausalApi.TreatmentPost) then CausalApi.Contribution(x, mt) else 0.0;
      CausalApi.CellSum(s + [x], CausalApi.TreatmentPost, mt) == CausalApi.CellSum(s, CausalApi.TreatmentPost, mt) + share
    ensures var share := if CausalApi.CellOf(x) == Some(CausalApi.ControlPre) then CausalApi.Contribution(x, mt) else 0.0;
      CausalApi.CellSum(s + [x], CausalApi.ControlPre, mt) == CausalApi.CellSum(s, CausalApi.ControlPre, mt) + share
    ensures var share := if CausalApi.CellOf(x) == Some(CausalApi.ControlPost) then CausalApi.Contribution(x, mt) else 0.0;
      CausalApi.CellSum(s + [x], CausalApi.ControlPost, mt) == CausalApi.CellSum(s, CausalApi.ControlPost, mt) + share
  {
    assert (s + [x])[..|s|] == s;
  }

  /** Pooling one point per cell gives each cell its point's contribution and users. */
  lemma OnePointPerCellPooled(p: DiDChatParams)
    ensures var data := OnePointPerCell(p);
      CausalApi.CellCounts(data) == p.users &&
      CausalApi.CellSums(data, p.metricType) ==
        Cells(CausalApi.Contribution(data[0], p.metricType), CausalApi.Contribution(data[1], p.metricType),
              CausalApi.Contribution(data[2], p.metricType), CausalApi.Contribution(data[3], p.metricType))
  {
    var data := OnePointPerCell(p);
    var mt := p.metricType;
    assert CausalApi.CellOf(data[0]) == Some(CausalApi.TreatmentPre);
    assert CausalApi.CellOf(data[1]) == Some(CausalApi.TreatmentPost);
    assert CausalApi.CellOf(data[2]) == Some(CausalApi.ControlPre);
    assert CausalApi.CellOf(data[3]) == Some(CausalApi.ControlPost);
    assert data == [] + [data[0]] + [data[1]] + [data[2]] + [data[3]];
    PoolOneMore([], data[0], mt);
    PoolOneMore([data[0]], data[1], mt);
    assert [] + [data[0]] == [data[0]];
    assert [data[0]] + [data[1]] == data[..2];
    PoolOneMore(data[..2], data[2], mt);
    assert data[..2] + [data[2]] == data[..3];
    PoolOneMore(data[..3], data[3], mt);
    assert data[..3] + [data[3]] == data;
  }

  /** `(x * n) / n == x` for a positive count. */
  lemma MeanOfOnePoint(x: real, n: int)
    requires n > 0
    ensures Rate(x * n as real, n as real) == x
  {
    assert (x * n as real) / n as real == x;
  }

  /**
   * With users in every cell, the chat's estimate is the endpoint's estimate
   * for one point per cell, in both metric modes.
   */
  lemma ChatDiDMatchesEndpoint(p: DiDChatParams, fitted: Result<seq<real>, string>, lib: Lib)
    requires p.users.treatmentPre > 0 && p.users.treatmentPost > 0 && p.users.controlPre > 0 && p.users.controlPost > 0
    requires p.metricType == "proportion" || p.metricType == "mean"
    ensures CausalApi.CausalAnalysis(CausalRequest("did", Some(DiDRequest(OnePointPerCell(p), p.metricType)), None),
                                     fitted, lib) ==
            Success(CausalApi.DiDOutcome(ChatDiD(p, lib)))
  {
    var data := OnePointPerCell(p);
    OnePointPerCellPooled(p);
    if p.metricType == "mean" {
      assert p.metricType != "proportion" by { assert |p.metricType| == 4; }
      assert data[0].outcome == p.outcomes.treatmentPre && data[0].users == p.users.treatmentPre;
      assert CausalApi.Contribution(data[0], p.metricType) == p.outcomes.treatmentPre * p.users.treatmentPre as real;
      assert CausalApi.Contribution(data[1], p.metricType) == p.outcomes.treatmentPost * p.users.treatmentPost as real;
      assert CausalApi.Contribution(data[2], p.metricType) == p.outcomes.controlPre * p.users.controlPre as real;
      assert CausalApi.Contribution(data[3], p.metricType) == p.outcomes.controlPost * p.users.controlPost as real;
      assert CausalApi.CellSums(data, p.metricType) ==
        Cells(p.outcomes.treatmentPre * p.users.treatmentPre as real, p.outcomes.treatmentPost * p.users.treatmentPost as real,
              p.outcomes.controlPre * p.users.controlPre as real, p.outcomes.controlPost * p.users.controlPost as real);
      MeanOfOnePoint(p.outcomes.treatmentPre, p.users.treatmentPre);
      MeanOfOnePoint(p.outcomes.treatmentPost, p.users.treatmentPost);
      MeanOfOnePoint(p.outcomes.controlPre, p.users.controlPre);
      MeanOfOnePoint(p.outcomes.controlPost, p.users.controlPost);
      var sums := CausalApi.CellSums(data, p.metricType);
      assert Rate(sums.treatmentPre, p.users.treatmentPre as real) == p.outcomes.treatmentPre;
      assert Rate(sums.treatmentPost, p.users.treatmentPost as real) == p.outcomes.treatmentPost;
      assert Rate(sums.controlPre, p.users.controlPre as real) == p.outcomes.controlPre;
      assert Rate(sums.controlPost, p.users.controlPost as real) == p.outcomes.controlPost;
      assert CausalApi.CellRates(sums, p.users) == p.outcomes;
      assert ChatRates(p) == p.outcomes;
    } else {
      assert CausalApi.CellSums(data, p.metricType) == p.outcomes;
      assert ChatRates(p) == CausalApi.CellRates(p.outcomes, p.users);
    }
    assert CausalApi.CellRates(CausalApi.CellSums(data, p.metricType), CausalApi.CellCounts(data)) == ChatRates(p);
  }

  /** A proportion rate of at most as many outcomes as users lies in [0, 1]. */
  lemma ChatRateInUnitInterval(outcome: real, users: int)
    requires 0.0 <= outcome <= users as real
    ensures 0.0 <= ChatRate(outcome, users) <= 1.0
  {
    if users > 0 {
      var r := ChatRate(outcome, users);
      assert r * users as real == outcome;
    }
  }

  /**
   * In proportion mode, with no more outcomes than users in any cell, the
   * chat's interval contains its estimate.
   */
  lemma ChatIntervalBrackets(p: DiDChatParams, lib: Lib)
    requires SoundSqrt(lib)
    requires p.metricType == "proportion"
    requires 0.0 <= p.outcomes.treatmentPre <= p.users.treatmentPre as real
    requires 0.0 <= p.outcomes.treatmentPost <= p.users.treatmentPost as real
    requires 0.0 <= p.outcomes.controlPre <= p.users.controlPre as real
    requires 0.0 <= p.outcomes.controlPost <= p.users.controlPost as real
    ensures ChatDiD(p, lib).ciLower <= ChatDiD(p, lib).didEstimate <= ChatDiD(p, lib).ciUpper
  {
    ChatRateInUnitInterval(p.outcomes.treatmentPre, p.users.treatmentPre);
    ChatRateInUnitInterval(p.outcomes.treatmentPost, p.users.treatmentPost);
    ChatRateInUnitInterval(p.outcomes.controlPre, p.users.controlPre);
    ChatRateInUnitInterval(p.outcomes.controlPost, p.users.controlPost);
    IntervalBracketsEstimate(ChatRates(p), p.users, p.metricType, lib);
  }
}
