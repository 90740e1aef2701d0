/**
 * The experiment design agent (backend/app/services/agent_experiment_design.py):
 * the two prompts it fills, the extraction of the JSON design from the
 * model's reply, the fixed fallback design, and the design card built from
 * the decoded design. The language model and `json.loads` are oracles.
 */
module DesignAgent {
  import opened Wrappers
  import opened PyStr
  import opened DesignTexts
  import opened JsonValue
  import opened DesignModels

  /** A prompt variable: the value given, or the placeholder text shown when it is absent. */
  datatype Slot<T> = Given(value: T) | Placeholder(text: string)

  /** The variables of the design prompt. */
  datatype DesignPrompt = DesignPrompt(
    description: Json,
    baselineRate: Slot<Json>,
    minimumDetectableEffect: Slot<Json>,
    sampleSize: Slot<int>,
    estimatedDuration: Slot<int>)

  /** `x if x is not None else placeholder` for a value that may be `None`. */
  function JsonSlot(j: Json, placeholder: string): (s: Slot<Json>)
    ensures s.Placeholder? <==> j == JNull
    ensures s.Placeholder? ==> s.text == placeholder
    ensures s.Given? ==> s.value == j
  {
    if j == JNull then Placeholder(placeholder) else Given(j)
  }

  function IntSlot(n: Option<int>, placeholder: string): (s: Slot<int>)
    ensures s.Placeholder? <==> n.None?
    ensures s.Placeholder? ==> s.text == placeholder
    ensures s.Given? ==> s.value == n.value
  {
    if n.None? then Placeholder(placeholder) else Given(n.value)
  }

  /**
   * The design prompt's variables: a missing baseline or effect reads "not
   * provided", a missing sample size or duration "not calculated"; a present
   * value, zero included, is shown as it is.
   */
  function DesignPromptFor(description: Json, baselineRate: Json, mde: Json,
                           sampleSize: Option<int>, estimatedDuration: Option<int>): (p: DesignPrompt)
    ensures p.description == description
    ensures p.baselineRate == (if baselineRate == JNull then Placeholder(NotProvided) else Given(baselineRate))
    ensures p.minimumDetectableEffect == (if mde == JNull then Placeholder(NotProvided) else Given(mde))
    ensures p.sampleSize == (if sampleSize.None? then Placeholder(NotCalculated) else Given(sampleSize.value))
    ensures p.estimatedDuration == (if estimatedDuration.None? then Placeholder(NotCalculated) else Given(estimatedDuration.value))
  {
    DesignPrompt(description, JsonSlot(baselineRate, NotProvided), JsonSlot(mde, NotProvided),
                 IntSlot(sampleSize, NotCalculated), IntSlot(estimatedDuration, NotCalculated))
  }

  /**
   * The stripped text after the first `open` up to the next `close` after
   * it. Nothing checks that `close` occurs: `find` then gives -1 and the
   * slice stops one character before the end.
   */
  function FencedBody(content: string, open: string, close: string): string
    requires Contains(content, open)
  {
    BodyFrom(content, Find(content, open, 0) + |open|, close)
  }

  /** The stripped text from `start` up to the next `close`, cut as `content[start:find]`. */
  function BodyFrom(content: string, start: nat, close: string): string
  {
    Strip(PySlice(content, start, Find(content, close, start)))
  }

  /** With a closing fence the body is what lies between the fences, and holds no closing fence. */
  lemma FencedBodyClosed(content: string, open: string, close: string)
    requires Contains(content, open) && close != []
    requires Find(content, close, Find(content, open, 0) + |open|) != -1
    ensures var start := Find(content, open, 0) + |open|;
      var end := Find(content, close, start);
      start <= end <= |content| &&
      FencedBody(content, open, close) == Strip(content[start..end]) &&
      forall k :: !OccursAt(FencedBody(content, open, close), close, k)
  {
    var start := Find(content, open, 0) + |open|;
    var end := Find(content, close, start);
    assert start <= end <= |content|;
    assert PySlice(content, start, end) == content[start..end] by {
      assert SliceBound(start, |content|) == start;
      assert SliceBound(end, |content|) == end;
    }
    FindIsFirst(content, close, start);
    assert forall i :: start <= i && i + |close| <= end ==> !OccursAt(content, close, i);
    NotContainsSlice(content, close, start, end);
    StripKeepsAbsence(content[start..end], close);
  }

  /** Without a closing fence the last character of the content is cut off. */
  lemma FencedBodyUnclosed(content: string, open: string, close: string)
    requires Contains(content, open)
    requires Find(content, close, Find(content, open, 0) + |open|) == -1
    ensures var start := Find(content, open, 0) + |open|;
      FencedBody(content, open, close) == if start < |content| - 1 then Strip(content[start..|content| - 1]) else []
  {
    var start := Find(content, open, 0) + |open|;
    SliceToLastCut(content, start, Find(content, close, start));
  }

  /** `s[start:-1]`: everything from `start` but the last character, possibly nothing. */
  lemma SliceToLastCut(s: string, start: int, stop: int)
    requires 0 <= start <= |s| && stop == -1
    ensures Strip(PySlice(s, start, stop)) == if start < |s| - 1 then Strip(s[start..|s| - 1]) else []
  {
    assert SliceBound(start, |s|) == start;
    if |s| == 0 {
      assert SliceBound(-1, |s|) == 0;
    } else {
      assert SliceBound(-1, |s|) == |s| - 1;
    }
    if start >= |s| - 1 {
      assert PySlice(s, start, -1) == [];
      assert Strip([]) == [];
    }
  }

  const JsonFence: string := "```json"
  const Fence: string := "```"

  /**
   * The text handed to `json.loads`: the body after the first "```json", or
   * failing that after the first "```", up to the next "```"; the reply
   * itself when it holds no fence.
   */
  function ExtractDesignJson(content: string): (r: string)
    ensures !Contains(content, Fence) ==> r == content
  {
    if Contains(content, JsonFence) then
      assert StartsWith(JsonFence, Fence);
      ContainsPrefix(content, JsonFence, Fence);
      FencedBody(content, JsonFence, Fence)
    else if Contains(content, Fence) then FencedBody(content, Fence, Fence)
    else content
  }

  /** A closed "```json" fence yields exactly the stripped text between the fences, free of fences. */
  lemma ClosedFenceExtractsBody(content: string)
    requires Contains(content, JsonFence)
    requires Find(content, Fence, Find(content, JsonFence, 0) + 7) != -1
    ensures var start := Find(content, JsonFence, 0) + 7;
      var end := Find(content, Fence, start);
      start <= end <= |content| &&
      ExtractDesignJson(content) == Strip(content[start..end]) &&
      forall k :: !OccursAt(ExtractDesignJson(content), Fence, k)
  {
    FencedBodyClosed(content, JsonFence, Fence);
  }

  /** Without "```json", a closed bare "```" fence yields the stripped text between the two fences. */
  lemma ClosedBareFenceExtractsBody(content: string)
    requires !Contains(content, JsonFence) && Contains(content, Fence)
    requires Find(content, Fence, Find(content, Fence, 0) + 3) != -1
    ensures var start := Find(content, Fence, 0) + 3;
      var end := Find(content, Fence, start);
      start <= end <= |content| &&
      ExtractDesignJson(content) == Strip(content[start..end]) &&
      forall k :: !OccursAt(ExtractDesignJson(content), Fence, k)
  {
    FencedBodyClosed(content, Fence, Fence);
  }

  /**
   * An unclosed "```json" fence loses the reply's last character: for a
   * reply ending in a complete JSON object, its closing brace.
   */
  lemma UnclosedFenceDropsLastCharacter(content: string)
    requires Contains(content, JsonFence)
    requires Find(content, Fence, Find(content, JsonFence, 0) + 7) == -1
    ensures var start := Find(content, JsonFence, 0) + 7;
      ExtractDesignJson(content) == if start < |content| - 1 then Strip(content[start..|content| - 1]) else []
  {
    FencedBodyUnclosed(content, JsonFence, Fence);
  }

  /** The design used when the reply does not decode as JSON. */
  const FallbackDesign: map<string, Json> := map[
    "goal" := JStr(FallbackGoal),
    "hypothesis" := JStr(FallbackHypothesis),
    "primary_metrics" := JArr([JStr(DefaultPrimaryMetric)]),
    "secondary_metrics" := JArr([]),
    "guardrail_metrics" := JArr([]),
    "design_type" := JStr(DefaultDesignType),
    "variants" := JStr(FallbackVariants),
    "notes" := JArr([JStr(FallbackNote)])]

  /** A string value, as a `str` field of the card accepts it. */
  function AsString(j: Json): (r: Option<string>)
    ensures r.Some? <==> j.JStr?
    ensures r.Some? ==> r.value == j.s
  {
    if j.JStr? then Some(j.s) else None
  }

  /** A list of strings, as a `List[str]` field of the card accepts it. */
  function AsStringList(j: Json): (r: Option<seq<string>>)
    ensures r.Some? <==> j.JArr? && forall i :: 0 <= i < |j.items| ==> j.items[i].JStr?
    ensures r.Some? ==> |r.value| == |j.items| && forall i :: 0 <= i < |j.items| ==> r.value[i] == j.items[i].s
  {
    if j.JArr? && forall i :: 0 <= i < |j.items| ==> j.items[i].JStr? then
      Some(seq(|j.items|, i requires 0 <= i < |j.items| && j.items[i].JStr? => j.items[i].s))
    else None
  }

  lemma SingleStringList(s: string)
    ensures AsStringList(JArr([JStr(s)])) == Some([s])
  {
    var r := AsStringList(JArr([JStr(s)]));
    assert [JStr(s)][0].JStr?;
    assert r.Some? && |r.value| == 1 && r.value[0] == s;
    assert r.value == [s];
  }

  /** An `Optional[str]` field: `None` for null, the string for a string, otherwise rejected. */
  function AsOptionalString(j: Json): (r: Option<Option<string>>)
    ensures r.Some? <==> j.JNull? || j.JStr?
    ensures j.JNull? ==> r == Some(None)
    ensures j.JStr? ==> r == Some(Some(j.s))
  {
    match j
    case JNull => Some(None)
    case JStr(s) => Some(Some(s))
    case _ => None
  }

  /**
   * Python's `str(x)`: a string is itself; how other values are written
   * (`repr` of numbers, lists and dicts) is the oracle `show`.
   */
  function Str(j: Json, show: Json -> string): (r: string)
    ensures j.JStr? ==> r == j.s
  {
    if j.JStr? then j.s else show(j)
  }

  /** The card's hypothesis: a dict becomes "H0: {H0}. H1: {H1}" with per-key defaults, anything else `str()`. */
  function HypothesisText(raw: Json, show: Json -> string): (r: string)
    ensures raw.JObj? ==>
      r == "H0: " + Str(GetOr(raw.fields, "H0", JStr(DefaultH0)), show) +
           ". H1: " + Str(GetOr(raw.fields, "H1", JStr(DefaultH1)), show)
    ensures !raw.JObj? ==> r == Str(raw, show)
  {
    match raw
    case JObj(fields) =>
      "H0: " + Str(GetOr(fields, "H0", JStr(DefaultH0)), show) +
      ". H1: " + Str(GetOr(fields, "H1", JStr(DefaultH1)), show)
    case _ => Str(raw, show)
  }

  /** A dict with both hypotheses as strings yields exactly "H0: a. H1: b"; an empty dict yields both defaults. */
  lemma HypothesisDictFormats(a: string, b: string, show: Json -> string)
    ensures HypothesisText(JObj(map["H0" := JStr(a), "H1" := JStr(b)]), show) == "H0: " + a + ". H1: " + b
    ensures HypothesisText(JObj(map[]), show) == "H0: " + DefaultH0 + ". H1: " + DefaultH1
    ensures HypothesisText(JStr(a), show) == a
  {
  }

  /** The card's variants: a list is joined with ", " (each item through `str()`), anything else `str()`. */
  function VariantsText(raw: Json, show: Json -> string): (r: string)
    ensures raw.JArr? ==> r == Join(", ", seq(|raw.items|, i requires 0 <= i < |raw.items| => Str(raw.items[i], show)))
    ensures !raw.JArr? ==> r == Str(raw, show)
  {
    match raw
    case JArr(items) => Join(", ", seq(|items|, i requires 0 <= i < |items| => Str(items[i], show)))
    case _ => Str(raw, show)
  }

  /** A list of names is joined with ", "; a single name is itself; a plain string is unchanged. */
  lemma VariantsJoined(a: string, b: string, show: Json -> string)
    ensures VariantsText(JArr([JStr(a), JStr(b)]), show) == a + ", " + b
    ensures VariantsText(JArr([JStr(a)]), show) == a
    ensures VariantsText(JStr(a), show) == a
  {
    var names := seq(2, i requires 0 <= i < 2 => Str([JStr(a), JStr(b)][i], show));
    assert names == [a, b];
    assert names[1..] == [b];
    var one := seq(1, i requires 0 <= i < 1 => Str([JStr(a)][i], show));
    assert one == [a];
  }

  /** Why a design could not be produced. */
  datatype DesignFault =
    | ModelFailed
    | NotAnObject
    | NotJoinable                  // `", ".join` raises on the primary metrics
    | InvalidField(field: string)

  /** The card fields of a decoded design, each of the type the card demands. */
  predicate WellTypedDesign(data: map<string, Json>) {
    AsString(GetOr(data, "goal", JStr(FallbackGoal))).Some? &&
    AsStringList(GetOr(data, "primary_metrics", JArr([JStr(DefaultPrimaryMetric)]))).Some? &&
    AsStringList(GetOr(data, "secondary_metrics", JArr([]))).Some? &&
    AsStringList(GetOr(data, "guardrail_metrics", JArr([]))).Some? &&
    AsString(GetOr(data, "design_type", JStr(DefaultDesignType))).Some? &&
    AsOptionalString(Get(data, "population")).Some? &&
    AsOptionalString(Get(data, "randomization_unit")).Some? &&
    AsOptionalString(Get(data, "traffic_allocation")).Some? &&
    AsStringList(GetOr(data, "notes", JArr([]))).Some?
  }

  /**
   * The design card: every field from the decoded design with its default,
   * the hypothesis and variants rendered as text, and the sample size and
   * duration exactly as passed in.
   */
  function BuildCard(data: map<string, Json>, sampleSize: Option<int>, estimatedDuration: Option<int>,
                     show: Json -> string): (r: Result<DesignCard, DesignFault>)
    ensures r.Success? <==> WellTypedDesign(data)
    ensures r.Success? ==> r.value.sampleSizePerVariant == sampleSize && r.value.estimatedDurationDays == estimatedDuration
    ensures r.Success? ==> r.value.hypothesis == HypothesisText(GetOr(data, "hypothesis", JStr(DefaultHypothesis)), show)
    ensures r.Success? ==> r.value.variants == VariantsText(GetOr(data, "variants", JStr(FallbackVariants)), show)
    ensures r.Success? && "goal" !in data ==> r.value.goal == FallbackGoal
    ensures r.Success? && "primary_metrics" !in data ==> r.value.primaryMetrics == [DefaultPrimaryMetric]
    ensures r.Success? && "secondary_metrics" !in data ==> r.value.secondaryMetrics == []
    ensures r.Success? && "guardrail_metrics" !in data ==> r.value.guardrailMetrics == []
    ensures r.Success? && "notes" !in data ==> r.value.notes == []
    ensures r.Success? && "design_type" !in data ==> r.value.designType == DefaultDesignType
    ensures r.Success? && "population" !in data ==> r.value.population.None?
  {
    var goal := AsString(GetOr(data, "goal", JStr(FallbackGoal)));
    var primary := AsStringList(GetOr(data, "primary_metrics", JArr([JStr(DefaultPrimaryMetric)])));
    var secondary := AsStringList(GetOr(data, "secondary_metrics", JArr([])));
    var guardrail := AsStringList(GetOr(data, "guardrail_metrics", JArr([])));
    var designType := AsString(GetOr(data, "design_type", JStr(DefaultDesignType)));
    var population := AsOptionalString(Get(data, "population"));
    var unit := AsOptionalString(Get(data, "randomization_unit"));
    var allocation := AsOptionalString(Get(data, "traffic_allocation"));
    var notes := AsStringList(GetOr(data, "notes", JArr([])));
    if goal.None? then Failure(InvalidField("goal"))
    else if primary.None? then Failure(InvalidField("primary_metrics"))
    else if secondary.None? then Failure(InvalidField("secondary_metrics"))
    else if guardrail.None? then Failure(InvalidField("guardrail_metrics"))
    else if designType.None? then Failure(InvalidField("design_type"))
    else if population.None? then Failure(InvalidField("population"))
    else if unit.None? then Failure(InvalidField("randomization_unit"))
    else if allocation.None? then Failure(InvalidField("traffic_allocation"))
    else if notes.None? then Failure(InvalidField("notes"))
    else
      Success(DesignCard(
        goal.value,
        HypothesisText(GetOr(data, "hypothesis", JStr(DefaultHypothesis)), show),
        primary.value, secondary.value, designType.value,
        VariantsText(GetOr(data, "variants", JStr(FallbackVariants)), show),
        population.value, unit.value, allocation.value,
        sampleSize, estimatedDuration,
        guardrail.value, notes.value))
  }

  /** The card of the fallback design. */
  function FallbackCard(sampleSize: Option<int>, estimatedDuration: Option<int>): DesignCard {
    DesignCard(FallbackGoal, FallbackHypothesis, [DefaultPrimaryMetric], [], DefaultDesignType,
               FallbackVariants, None, None, None, sampleSize, estimatedDuration, [], [FallbackNote])
  }

  /**
   * The fallback design always makes a valid card: design type "A/B", the
   * single primary metric "conversion_rate", the one note about randomization.
   */
  lemma FallbackDesignBuildsFallbackCard(sampleSize: Option<int>, estimatedDuration: Option<int>, show: Json -> string)
    ensures BuildCard(FallbackDesign, sampleSize, estimatedDuration, show) == Success(FallbackCard(sampleSize, estimatedDuration))
  {
    FallbackDesignFields();
    SingleStringList(DefaultPrimaryMetric);
    SingleStringList(FallbackNote);
    assert AsStringList(JArr([])) == Some([]);
  }

  /** What each card field reads from the fallback design. */
  lemma FallbackDesignFields()
    ensures GetOr(FallbackDesign, "goal", JStr(FallbackGoal)) == JStr(FallbackGoal)
    ensures GetOr(FallbackDesign, "hypothesis", JStr(DefaultHypothesis)) == JStr(FallbackHypothesis)
    ensures GetOr(FallbackDesign, "primary_metrics", JArr([JStr(DefaultPrimaryMetric)])) == JArr([JStr(DefaultPrimaryMetric)])
    ensures GetOr(FallbackDesign, "secondary_metrics", JArr([])) == JArr([])
    ensures GetOr(FallbackDesign, "guardrail_metrics", JArr([])) == JArr([])
    ensures GetOr(FallbackDesign, "design_type", JStr(DefaultDesignType)) == JStr(DefaultDesignType)
    ensures GetOr(FallbackDesign, "variants", JStr(FallbackVariants)) == JStr(FallbackVariants)
    ensures GetOr(FallbackDesign, "notes", JArr([])) == JArr([JStr(FallbackNote)])
    ensures Get(FallbackDesign, "population") == JNull
    ensures Get(FallbackDesign, "randomization_unit") == JNull
    ensures Get(FallbackDesign, "traffic_allocation") == JNull
  {
  }

  /** The variables of the explanation prompt. */
  datatype ExplanationPrompt = ExplanationPrompt(
    description: Json,
    designType: Json,
    variants: Json,
    primaryMetrics: string,
    sampleSize: string,
    estimatedDuration: string)

  /** A sample size shown only when truthy: `None` and 0 both read as missing. */
  function SampleSizeText(sampleSize: Option<int>): (t: string)
    ensures sampleSize.None? || sampleSize == Some(0) ==> t == SampleSizeMissing
    ensures sampleSize.Some? && sampleSize.value != 0 ==> t == IntToString(sampleSize.value) + " per variant"
  {
    if sampleSize.Some? && sampleSize.value != 0 then IntToString(sampleSize.value) + " per variant"
    else SampleSizeMissing
  }

  function DurationText(estimatedDuration: Option<int>): (t: string)
    ensures estimatedDuration.None? || estimatedDuration == Some(0) ==> t == DurationMissing
    ensures estimatedDuration.Some? && estimatedDuration.value != 0 ==> t == IntToString(estimatedDuration.value) + " days"
  {
    if estimatedDuration.Some? && estimatedDuration.value != 0 then IntToString(estimatedDuration.value) + " days"
    else DurationMissing
  }

  /** A sample size of 0 is given to the design prompt as 0 but to the explanation as missing. */
  lemma ZeroSampleSizeReadsAsMissing(description: Json, baselineRate: Json, mde: Json)
    ensures DesignPromptFor(description, baselineRate, mde, Some(0), None).sampleSize == Given(0)
    ensures SampleSizeText(Some(0)) == SampleSizeMissing
  {
  }

  /**
   * What `", ".join(x)` iterates over: the items of a list of strings, the
   * characters of a string, the keys of an object in the order `keyOrder`
   * gives them; `None` for anything else, on which `join` raises `TypeError`.
   */
  function JoinedItems(j: Json, keyOrder: map<string, Json> -> seq<string>): (r: Option<seq<string>>)
    ensures j.JArr? ==> r == AsStringList(j)
    ensures j.JStr? ==> r.Some? && |r.value| == |j.s| && forall i :: 0 <= i < |j.s| ==> r.value[i] == [j.s[i]]
    ensures j.JObj? ==> r == Some(keyOrder(j.fields))
    ensures r.None? <==> !j.JStr? && !j.JObj? && AsStringList(j).None?
  {
    match j
    case JArr(_) => AsStringList(j)
    case JStr(s) => Some(seq(|s|, i requires 0 <= i < |s| => [s[i]]))
    case JObj(fields) => Some(keyOrder(fields))
    case _ => None
  }

  /** The one assumption made about the key order of a decoded object: it lists every key exactly once. */
  ghost predicate SoundKeyOrder(keyOrder: map<string, Json> -> seq<string>) {
    forall fields: map<string, Json> {:trigger keyOrder(fields)} ::
      (forall i :: 0 <= i < |keyOrder(fields)| ==> keyOrder(fields)[i] in fields) &&
      (forall k :: k in fields ==> k in keyOrder(fields)) &&
      (forall i, j :: 0 <= i < j < |keyOrder(fields)| ==> keyOrder(fields)[i] != keyOrder(fields)[j])
  }

  /** With a sound key order, an object given as the primary metrics is joined over its keys, each once. */
  lemma ObjectMetricsJoinKeys(fields: map<string, Json>, keyOrder: map<string, Json> -> seq<string>)
    requires SoundKeyOrder(keyOrder)
    ensures var r := JoinedItems(JObj(fields), keyOrder);
      r.Some? && |r.value| == |fields| &&
      (forall i :: 0 <= i < |r.value| ==> r.value[i] in fields) &&
      (forall k :: k in fields ==> k in r.value)
  {
    var keys := keyOrder(fields);
    assert forall i :: 0 <= i < |keys| ==> keys[i] in fields;
    assert forall k :: k in fields ==> k in keys;
    KeysCounted(keys, fields.Keys);
  }

  /** A sequence without repeats that lists exactly the elements of a set is as long as the set. */
  lemma {:induction false} KeysCounted(keys: seq<string>, names: set<string>)
    requires forall i :: 0 <= i < |keys| ==> keys[i] in names
    requires forall k :: k in names ==> k in keys
    requires forall i, j :: 0 <= i < j < |keys| ==> keys[i] != keys[j]
    ensures |keys| == |names|
  {
    if keys != [] {
      var last := keys[|keys| - 1];
      var prefix := keys[..|keys| - 1];
      forall k | k in names - {last} ensures k in prefix {
        var i :| 0 <= i < |keys| && keys[i] == k;
        assert i < |keys| - 1;
        assert prefix[i] == k;
      }
      KeysCounted(prefix, names - {last});
    }
  }

  /** A string given as the primary metrics is joined character by character. */
  lemma StringMetricsJoinCharacters(keyOrder: map<string, Json> -> seq<string>)
    ensures JoinedItems(JStr("ab"), keyOrder) == Some(["a", "b"])
    ensures Join(", ", JoinedItems(JStr("ab"), keyOrder).value) == "a, b"
  {
    var r := JoinedItems(JStr("ab"), keyOrder).value;
    assert r == ["a", "b"];
    assert r[1..] == ["b"];
  }

  /**
   * The explanation prompt's variables; `None` when the primary metrics are
   * something `join` cannot iterate over as strings.
   */
  function ExplanationPromptFor(description: Json, data: map<string, Json>,
                                sampleSize: Option<int>, estimatedDuration: Option<int>,
                                keyOrder: map<string, Json> -> seq<string>): (p: Option<ExplanationPrompt>)
    ensures p.Some? <==> JoinedItems(GetOr(data, "primary_metrics", JArr([])), keyOrder).Some?
    ensures p.Some? ==> p.value.designType == GetOr(data, "design_type", JStr(DefaultDesignType))
    ensures p.Some? ==> p.value.variants == GetOr(data, "variants", JStr("2 variants"))
    ensures p.Some? ==> p.value.primaryMetrics == Join(", ", JoinedItems(GetOr(data, "primary_metrics", JArr([])), keyOrder).value)
    ensures p.Some? ==> p.value.sampleSize == SampleSizeText(sampleSize) && p.value.estimatedDuration == DurationText(estimatedDuration)
  {
    match JoinedItems(GetOr(data, "primary_metrics", JArr([])), keyOrder)
    case None => None
    case Some(primary) =>
      Some(ExplanationPrompt(description, GetOr(data, "design_type", JStr(DefaultDesignType)),
                             GetOr(data, "variants", JStr("2 variants")), Join(", ", primary),
                             SampleSizeText(sampleSize), DurationText(estimatedDuration)))
  }

  /**
   * The oracles the agent calls: the two model calls (`None` when they raise),
   * `json.loads`, `str()`, and the order in which a decoded object lists its
   * keys (the document order `json.loads` keeps and a `map` does not).
   */
  datatype DesignOracles = DesignOracles(
    design: DesignPrompt -> Option<string>,
    explain: ExplanationPrompt -> Option<string>,
    loads: string -> Option<Json>,
    show: Json -> string,
    keyOrder: map<string, Json> -> seq<string>)

  datatype DesignOutput = DesignOutput(card: DesignCard, explanation: string)

  /** The design read from the model's reply: the decoded object, or the fallback when it does not decode. */
  function DecodedDesign(reply: string, oracles: DesignOracles): (d: Result<map<string, Json>, DesignFault>)
    ensures oracles.loads(ExtractDesignJson(reply)).None? ==> d == Success(FallbackDesign)
    ensures oracles.loads(ExtractDesignJson(reply)).Some? ==>
      (d.Success? <==> oracles.loads(ExtractDesignJson(reply)).value.JObj?)
    ensures d.Failure? ==> d.error == NotAnObject
  {
    match oracles.loads(ExtractDesignJson(reply))
    case None => Success(FallbackDesign)
    case Some(JObj(fields)) => Success(fields)
    case Some(_) => Failure(NotAnObject)
  }

  /** `design_experiment`: the card and the model's explanation, or why neither could be produced. */
  function DesignExperiment(description: Json, baselineRate: Json, mde: Json,
                            sampleSize: Option<int>, estimatedDuration: Option<int>,
                            oracles: DesignOracles): (r: Result<DesignOutput, DesignFault>)
    ensures oracles.design(DesignPromptFor(description, baselineRate, mde, sampleSize, estimatedDuration)).None? ==>
      r == Failure(ModelFailed)
    ensures var reply := oracles.design(DesignPromptFor(description, baselineRate, mde, sampleSize, estimatedDuration));
      reply.Some? && DecodedDesign(reply.value, oracles).Failure? ==> r == Failure(NotAnObject)
    ensures var reply := oracles.design(DesignPromptFor(description, baselineRate, mde, sampleSize, estimatedDuration));
      reply.Some? && DecodedDesign(reply.value, oracles).Success? ==>
        var data := DecodedDesign(reply.value, oracles).value;
        var prompt := ExplanationPromptFor(description, data, sampleSize, estimatedDuration, oracles.keyOrder);
        (r.Success? <==> prompt.Some? && oracles.explain(prompt.value).Some? &&
                         BuildCard(data, sampleSize, estimatedDuration, oracles.show).Success?) &&
        (r.Success? ==> r.value.card == BuildCard(data, sampleSize, estimatedDuration, oracles.show).value &&
                        r.value.explanation == oracles.explain(prompt.value).value)
    ensures r.Success? ==>
      r.value.card.sampleSizePerVariant == sampleSize && r.value.card.estimatedDurationDays == estimatedDuration
  {
    match oracles.design(DesignPromptFor(description, baselineRate, mde, sampleSize, estimatedDuration))
    case None => Failure(ModelFailed)
    case Some(reply) =>
      match DecodedDesign(reply, oracles)
      case Failure(f) => Failure(f)
      case Success(data) =>
        match ExplanationPromptFor(description, data, sampleSize, estimatedDuration, oracles.keyOrder)
        case None => Failure(NotJoinable)
        case Some(prompt) =>
          match oracles.explain(prompt)
          case None => Failure(ModelFailed)
          case Some(explanation) =>
            match BuildCard(data, sampleSize, estimatedDuration, oracles.show)
            case Failure(f) => Failure(f)
            case Success(card) => Success(DesignOutput(card, explanation))
  }

  /** The explanation prompt for the fallback design. */
  function FallbackExplanation(description: Json, sampleSize: Option<int>, estimatedDuration: Option<int>): ExplanationPrompt {
    ExplanationPrompt(description, JStr(DefaultDesignType), JStr(FallbackVariants), DefaultPrimaryMetric,
                      SampleSizeText(sampleSize), DurationText(estimatedDuration))
  }

  /** The fallback design explains itself as an "A/B" design over "conversion_rate". */
  lemma FallbackDesignExplained(description: Json, sampleSize: Option<int>, estimatedDuration: Option<int>,
                                keyOrder: map<string, Json> -> seq<string>)
    ensures ExplanationPromptFor(description, FallbackDesign, sampleSize, estimatedDuration, keyOrder) ==
      Some(FallbackExplanation(description, sampleSize, estimatedDuration))
  {
    assert GetOr(FallbackDesign, "primary_metrics", JArr([])) == JArr([JStr(DefaultPrimaryMetric)]);
    SingleStringList(DefaultPrimaryMetric);
  }

  /**
   * A reply that does not decode yields the fallback card, whatever the reply
   * said, as soon as the explanation call answers.
   */
  lemma UndecodableReplyGivesFallbackCard(description: Json, baselineRate: Json, mde: Json,
                                         sampleSize: Option<int>, estimatedDuration: Option<int>,
                                         oracles: DesignOracles, reply: string)
    requires oracles.design(DesignPromptFor(description, baselineRate, mde, sampleSize, estimatedDuration)) == Some(reply)
    requires oracles.loads(ExtractDesignJson(reply)).None?
    requires oracles.explain(FallbackExplanation(description, sampleSize, estimatedDuration)).Some?
    ensures var r := DesignExperiment(description, baselineRate, mde, sampleSize, estimatedDuration, oracles);
      r.Success? && r.value.card == FallbackCard(sampleSize, estimatedDuration)
  {
    assert DecodedDesign(reply, oracles) == Success(FallbackDesign);
    FallbackDesignExplained(description, sampleSize, estimatedDuration, oracles.keyOrder);
    FallbackDesignBuildsFallbackCard(sampleSize, estimatedDuration, oracles.show);
  }

  /**
   * Primary metrics given as a string still reach the explanation call, which
   * is shown their characters joined; the design then fails at that call when
   * it fails, and otherwise at the card, whose list field rejects a string.
   */
  lemma StringMetricsReachExplanation(description: Json, baselineRate: Json, mde: Json,
                                      sampleSize: Option<int>, estimatedDuration: Option<int>,
                                      oracles: DesignOracles, reply: string, data: map<string, Json>, metrics: string)
    requires oracles.design(DesignPromptFor(description, baselineRate, mde, sampleSize, estimatedDuration)) == Some(reply)
    requires oracles.loads(ExtractDesignJson(reply)) == Some(JObj(data))
    requires "primary_metrics" in data && data["primary_metrics"] == JStr(metrics)
    ensures var prompt := ExplanationPromptFor(description, data, sampleSize, estimatedDuration, oracles.keyOrder);
      prompt.Some? &&
      var r := DesignExperiment(description, baselineRate, mde, sampleSize, estimatedDuration, oracles);
      r.Failure? && (oracles.explain(prompt.value).None? ==> r.error == ModelFailed)
  {
    assert DecodedDesign(reply, oracles) == Success(data);
    assert !WellTypedDesign(data);
  }
}
