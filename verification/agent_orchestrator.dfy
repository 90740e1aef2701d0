/**
 * The chat orchestrator's intent detection and dispatch
 * (backend/app/services/agent_orchestrator.py): reading the JSON out of
 * the model's reply, the keyword fallback when it does not decode, and the
 * routing of a detected intent. The model, `re.search` and `json.loads`
 * are oracles.
 */
module Orchestrator {
  import opened Wrappers
  import opened PyStr
  import opened JsonValue
  import DesignAgent
  import opened OrchestratorTexts

  const JsonFence: string := DesignAgent.JsonFence
  const Fence: string := DesignAgent.Fence

  /** A language line after a bare fence is skipped when its newline comes within this many characters. */
  const LanguageLineWindow: int := 20

  /** The stripped text from `start` up to the next fence when one follows it, else the content unchanged. */
  function UpToFence(content: string, start: nat): (r: string)
    requires start <= |content|
  {
    var end := Find(content, Fence, start);
    if end > start then Strip(content[start..end]) else content
  }

  /** Where the text after a bare "```" starts: past the language line when its newline comes soon enough. */
  function BareFenceStart(content: string): (start: nat)
    requires Contains(content, Fence)
    ensures start <= |content|
  {
    var afterFence := Find(content, Fence, 0) + |Fence|;
    var newline := Find(content, "\n", afterFence);
    if newline != -1 && newline < afterFence + LanguageLineWindow then newline + 1 else afterFence
  }

  /**
   * The fence step: after the first "```json", or else after the first
   * "```" and the language line that may follow it, up to the next "```";
   * a fence with nothing after it, or no closing fence, leaves the content
   * as it was.
   */
  function OrchestratorFence(content: string): (r: string)
    ensures !Contains(content, Fence) ==> r == content
  {
    if Contains(content, JsonFence) then
      assert StartsWith(JsonFence, Fence);
      ContainsPrefix(content, JsonFence, Fence);
      UpToFence(content, Find(content, JsonFence, 0) + |JsonFence|)
    else if Contains(content, Fence) then UpToFence(content, BareFenceStart(content))
    else content
  }

  /** The "```json" branch of the fence step. */
  lemma JsonFenceBranch(content: string)
    requires Contains(content, JsonFence)
    ensures OrchestratorFence(content) == UpToFence(content, Find(content, JsonFence, 0) + |JsonFence|)
  {
  }

  /** The bare "```" branch of the fence step. */
  lemma BareFenceBranch(content: string)
    requires !Contains(content, JsonFence) && Contains(content, Fence)
    ensures OrchestratorFence(content) == UpToFence(content, BareFenceStart(content))
  {
  }

  /** With a closing fence the text is what lies between, stripped, and it holds no fence. */
  lemma UpToClosingFence(content: string, start: nat)
    requires start <= |content| && Find(content, Fence, start) > start
    ensures var end := Find(content, Fence, start);
      end <= |content| &&
      UpToFence(content, start) == Strip(content[start..end]) &&
      forall k :: !OccursAt(UpToFence(content, start), Fence, k)
  {
    var end := Find(content, Fence, start);
    FindIsFirst(content, Fence, start);
    assert forall i :: start <= i && i + |Fence| <= end ==> !OccursAt(content, Fence, i);
    NotContainsSlice(content, Fence, start, end);
    StripKeepsAbsence(content[start..end], Fence);
  }

  /** A closed "```json" fence leaves exactly the stripped text between the fences, free of fences. */
  lemma JsonFenceExtracted(content: string, start: nat, end: int)
    requires Contains(content, JsonFence) && start == Find(content, JsonFence, 0) + |JsonFence|
    requires end == Find(content, Fence, start) && end > start
    ensures end <= |content| && OrchestratorFence(content) == Strip(content[start..end])
    ensures forall k :: !OccursAt(OrchestratorFence(content), Fence, k)
  {
    UpToClosingFence(content, start);
    JsonFenceBranch(content);
  }

  /** A "```json" fence that is never closed leaves the reply untouched. */
  lemma UnclosedJsonFenceKept(content: string)
    requires Contains(content, JsonFence)
    requires Find(content, Fence, Find(content, JsonFence, 0) + 7) == -1
    ensures OrchestratorFence(content) == content
  {
    assert |JsonFence| == 7;
    var start := Find(content, JsonFence, 0) + |JsonFence|;
    JsonFenceBranch(content);
    assert UpToFence(content, start) == content;
  }

  /**
   * After a bare fence, a newline within 20 characters ends a language line
   * that is skipped: the text starts after that newline.
   */
  lemma LanguageLineSkipped(content: string)
    requires !Contains(content, JsonFence) && Contains(content, Fence)
    requires var afterFence := Find(content, Fence, 0) + 3;
      var newline := Find(content, "\n", afterFence);
      newline != -1 && newline < afterFence + LanguageLineWindow
    ensures var newline := Find(content, "\n", Find(content, Fence, 0) + 3);
      OrchestratorFence(content) == UpToFence(content, newline + 1)
  {
    assert |Fence| == 3;
    var newline := Find(content, "\n", Find(content, Fence, 0) + 3);
    assert BareFenceStart(content) == newline + 1;
    BareFenceBranch(content);
  }

  /** Without a newline soon after a bare fence, the text starts right after the fence. */
  lemma NoLanguageLine(content: string)
    requires !Contains(content, JsonFence) && Contains(content, Fence)
    requires var afterFence := Find(content, Fence, 0) + 3;
      var newline := Find(content, "\n", afterFence);
      newline == -1 || newline >= afterFence + LanguageLineWindow
    ensures OrchestratorFence(content) == UpToFence(content, Find(content, Fence, 0) + 3)
  {
    assert |Fence| == 3;
    assert BareFenceStart(content) == Find(content, Fence, 0) + 3;
    BareFenceBranch(content);
  }

  /** The oracles intent detection calls: the model (`None` when it raises), `re.search` and `json.loads`. */
  datatype DetectOracles = DetectOracles(
    llm: Option<string>,
    search: string -> Option<string>,
    loads: string -> Option<Json>)

  /**
   * The text handed to `json.loads`: the fence step, then, unless the text
   * (stripped) opens with "{", the first JSON-object-like match, if any.
   */
  function JsonCandidate(content: string, search: string -> Option<string>): (r: string)
    ensures StartsWith(Strip(OrchestratorFence(content)), "{") ==> r == OrchestratorFence(content)
    ensures !StartsWith(Strip(OrchestratorFence(content)), "{") && search(OrchestratorFence(content)).None? ==>
      r == OrchestratorFence(content)
    ensures !StartsWith(Strip(OrchestratorFence(content)), "{") && search(OrchestratorFence(content)).Some? ==>
      r == search(OrchestratorFence(content)).value
  {
    var fenced := OrchestratorFence(content);
    if !StartsWith(Strip(fenced), "{") then
      match search(fenced)
      case Some(m) => m
      case None => fenced
    else fenced
  }

  const GeneralConversation: string := "general_conversation"
  const ExperimentDesign: string := "experiment_design"
  const AbTestAnalysis: string := "ab_test_analysis"
  const CausalAnalysis: string := "causal_analysis"

  /**
   * The intent read from the lowercased reply when it does not decode:
   * "experiment_design" first, then "ab_test", then "causal" or "did".
   */
  function KeywordIntent(lowered: string): (intent: string)
    ensures Contains(lowered, "experiment_design") ==> intent == ExperimentDesign
    ensures !Contains(lowered, "experiment_design") && Contains(lowered, "ab_test") ==> intent == AbTestAnalysis
    ensures (!Contains(lowered, "experiment_design") && !Contains(lowered, "ab_test") &&
             (Contains(lowered, "causal") || Contains(lowered, "did"))) ==> intent == CausalAnalysis
    ensures intent == GeneralConversation <==>
      !Contains(lowered, "experiment_design") && !Contains(lowered, "ab_test") &&
      !Contains(lowered, "causal") && !Contains(lowered, "did")
  {
    if Contains(lowered, "experiment_design") then ExperimentDesign
    else if Contains(lowered, "ab_test") then AbTestAnalysis
    else if Contains(lowered, "causal") || Contains(lowered, "did") then CausalAnalysis
    else GeneralConversation
  }

  /** The result put in place of one that could not be read: the intent, not enough information, the greeting. */
  function FallbackResult(intent: string): (m: map<string, Json>)
    ensures Get(m, "intent") == JStr(intent) && Get(m, "has_sufficient_info") == JBool(false)
    ensures Get(m, "extracted_params") == JObj(map[]) && Get(m, "missing_info") == JArr([])
    ensures Get(m, "clarification_question") == JStr("") && Get(m, "greeting_response") == JStr(GreetingText)
  {
    map["intent" := JStr(intent),
        "has_sufficient_info" := JBool(false),
        "extracted_params" := JObj(map[]),
        "missing_info" := JArr([]),
        "clarification_question" := JStr(""),
        "greeting_response" := JStr(GreetingText)]
  }

  /** A decoded object with "intent" and "has_sufficient_info" filled in when missing; nothing else changes. */
  function WithDefaults(fields: map<string, Json>): (m: map<string, Json>)
    ensures "intent" in m && "has_sufficient_info" in m
    ensures m.Keys == fields.Keys + {"intent", "has_sufficient_info"}
    ensures forall k :: k in fields ==> m[k] == fields[k]
    ensures "intent" !in fields ==> m["intent"] == JStr(GeneralConversation)
    ensures "has_sufficient_info" !in fields ==> m["has_sufficient_info"] == JBool(false)
  {
    var withIntent := if "intent" in fields then fields else fields["intent" := JStr(GeneralConversation)];
    if "has_sufficient_info" in withIntent then withIntent
    else withIntent["has_sufficient_info" := JBool(false)]
  }

  /**
   * `key in value` for a decoded value that is not an object: list
   * membership for a list, substring for a string; any other value raises.
   */
  function HasKey(value: Json, key: string): (r: Option<bool>)
    ensures r.Some? <==> value.JArr? || value.JStr?
  {
    match value
    case JArr(items) => Some(JStr(key) in items)
    case JStr(s) => Some(Contains(s, key))
    case _ => None
  }

  /** What parsing the reply gives back. */
  datatype Parsed =
    | ParsedObject(result: map<string, Json>)
    | ReturnedAsIs(value: Json)
    | ParseRaised

  /**
   * `_parse_llm_response` as a function of the reply. A decoded object gets
   * its defaults; a list or string that already "contains" both keys is
   * returned as it is; any other decoded value raises when the defaults are
   * written into it; text that does not decode gives the keyword fallback.
   */
  function ParseOutcome(content: string, search: string -> Option<string>, loads: string -> Option<Json>): (p: Parsed)
    ensures loads(JsonCandidate(content, search)).None? ==> p == ParsedObject(FallbackResult(KeywordIntent(Lower(content))))
    ensures p.ParsedObject? ==> "intent" in p.result && "has_sufficient_info" in p.result
    ensures p.ReturnedAsIs? ==> loads(JsonCandidate(content, search)) == Some(p.value) && !p.value.JObj?
  {
    match loads(JsonCandidate(content, search))
    case None => ParsedObject(FallbackResult(KeywordIntent(Lower(content))))
    case Some(JObj(fields)) => ParsedObject(WithDefaults(fields))
    case Some(value) =>
      if HasKey(value, "intent") == Some(true) && HasKey(value, "has_sufficient_info") == Some(true) then ReturnedAsIs(value)
      else ParseRaised
  }

  /** A decoded object keeps every key and value it had. */
  lemma DecodedObjectKept(content: string, search: string -> Option<string>, loads: string -> Option<Json>,
                          fields: map<string, Json>)
    requires loads(JsonCandidate(content, search)) == Some(JObj(fields))
    ensures var p := ParseOutcome(content, search, loads);
      p.ParsedObject? && forall k :: k in fields ==> k in p.result && p.result[k] == fields[k]
  {
  }

  /** The fence step of `_parse_llm_response`, on the local `text`. */
  method FenceText(content: string) returns (text: string)
    ensures text == OrchestratorFence(content)
  {
    text := content;
    if Contains(text, JsonFence) {
      var start := Find(text, JsonFence, 0) + |JsonFence|;
      var end := Find(text, Fence, start);
      if end > start {
        text := Strip(text[start..end]);
      }
      assert text == UpToFence(content, start);
    } else if Contains(text, Fence) {
      var start := Find(text, Fence, 0) + |Fence|;
      var newline := Find(text, "\n", start);
      if newline != -1 && newline < start + LanguageLineWindow {
        start := newline + 1;
      }
      assert start == BareFenceStart(content);
      var end := Find(text, Fence, start);
      if end > start {
        text := Strip(text[start..end]);
      }
      assert text == UpToFence(content, start);
    }
  }

  /** The first half of `_parse_llm_response`: the reply rewritten into the text handed to `json.loads`. */
  method CandidateText(content: string, search: string -> Option<string>) returns (text: string)
    ensures text == JsonCandidate(content, search)
  {
    text := FenceText(content);
    if !StartsWith(Strip(text), "{") {
      var found := search(text);
      if found.Some? {
        text := found.value;
      }
    }
  }

  /** `_parse_llm_response`: decoding the candidate text, with the defaults or the keyword fallback. */
  method ParseLlmResponse(content: string, search: string -> Option<string>, loads: string -> Option<Json>)
    returns (parsed: Parsed)
    ensures parsed == ParseOutcome(content, search, loads)
  {
    var text := CandidateText(content, search);
    var decoded := loads(text);
    if decoded.None? {
      return ParsedObject(FallbackResult(KeywordIntent(Lower(content))));
    }
    match decoded.value
    case JObj(fields) =>
      var result := fields;
      if "intent" !in result {
        result := result["intent" := JStr(GeneralConversation)];
      }
      if "has_sufficient_info" !in result {
        result := result["has_sufficient_info" := JBool(false)];
      }
      parsed := ParsedObject(result);
    case JArr(items) =>
      if JStr("intent") in items && JStr("has_sufficient_info") in items {
        parsed := ReturnedAsIs(decoded.value);
      } else {
        parsed := ParseRaised;
      }
    case JStr(s) =>
      if Contains(s, "intent") && Contains(s, "has_sufficient_info") {
        parsed := ReturnedAsIs(decoded.value);
      } else {
        parsed := ParseRaised;
      }
    case _ =>
      parsed := ParseRaised;
  }

  /** What intent detection hands to dispatch. */
  datatype Detection =
    | Detected(result: map<string, Json>)
    | NotADict(value: Json)

  /** The safe fallback when the model call or the parsing raises. */
  function SafeFallback(): (m: map<string, Json>)
    ensures Get(m, "intent") == JStr(GeneralConversation) && Get(m, "has_sufficient_info") == JBool(false)
  {
    FallbackResult(GeneralConversation)
  }

  /** `_detect_intent_and_extract`: any exception becomes the safe fallback. */
  function DetectIntent(oracles: DetectOracles): (d: Detection)
    ensures oracles.llm.None? ==> d == Detected(SafeFallback())
    ensures oracles.llm.Some? && ParseOutcome(oracles.llm.value, oracles.search, oracles.loads).ParseRaised? ==>
      d == Detected(SafeFallback())
    ensures d.NotADict? ==>
      oracles.llm.Some? && ParseOutcome(oracles.llm.value, oracles.search, oracles.loads) == ReturnedAsIs(d.value)
  {
    match oracles.llm
    case None => Detected(SafeFallback())
    case Some(content) =>
      match ParseOutcome(content, oracles.search, oracles.loads)
      case ParsedObject(m) => Detected(m)
      case ReturnedAsIs(v) => NotADict(v)
      case ParseRaised => Detected(SafeFallback())
  }

  /** Where `process_message` sends a detection. */
  datatype Route =
    | DetectionFailed
    | Greeting(reply: Option<Json>)
    | Clarification(underlyingIntent: Json, question: Json, missingInfo: Json)
    | DesignRoute(params: Json)
    | AbTestRoute(params: Json)
    | CausalRoute(params: Json)
    | Unrecognised
  {
    /** The `detected_intent` the response reports. */
    function DetectedIntent(): string {
      match this
      case DetectionFailed => GeneralConversation
      case Greeting(_) => GeneralConversation
      case Clarification(_, _, _) => "clarification_needed"
      case DesignRoute(_) => ExperimentDesign
      case AbTestRoute(_) => AbTestAnalysis
      case CausalRoute(_) => CausalAnalysis
      case Unrecognised => GeneralConversation
    }

    predicate ReachesHandler() {
      DesignRoute? || AbTestRoute? || CausalRoute?
    }
  }

  /**
   * `process_message`'s case split: a greeting for general conversation
   * (`None` standing for the built-in greeting), a clarification carrying
   * the underlying intent when information is insufficient, then the three
   * handlers, and anything else as not understood. A detection that is not
   * a dict fails on `.get` and gets the fixed greeting.
   */
  function Dispatch(d: Detection): (route: Route)
    ensures d.NotADict? <==> route == DetectionFailed
    ensures d.Detected? ==>
      var intent := GetOr(d.result, "intent", JStr(GeneralConversation));
      var sufficient := Truthy(GetOr(d.result, "has_sufficient_info", JBool(false)));
      var params := GetOr(d.result, "extracted_params", JObj(map[]));
      (route.Greeting? <==> intent == JStr(GeneralConversation)) &&
      (route.Clarification? <==> intent != JStr(GeneralConversation) && !sufficient) &&
      (route.Clarification? ==> route.underlyingIntent == intent) &&
      (route.Greeting? ==> (route.reply.Some? <==> "greeting_response" in d.result) &&
                           (route.reply.Some? ==> route.reply.value == d.result["greeting_response"])) &&
      (route.Clarification? ==> route.question == GetOr(d.result, "clarification_question", JStr(ClarificationDefault)) &&
                                route.missingInfo == GetOr(d.result, "missing_info", JArr([]))) &&
      (route == DesignRoute(params) <==> intent == JStr(ExperimentDesign) && sufficient) &&
      (route == AbTestRoute(params) <==> intent == JStr(AbTestAnalysis) && sufficient) &&
      (route == CausalRoute(params) <==> intent == JStr(CausalAnalysis) && sufficient) &&
      (route.ReachesHandler() ==> sufficient)
  {
    match d
    case NotADict(_) => DetectionFailed
    case Detected(m) =>
      var intent := GetOr(m, "intent", JStr(GeneralConversation));
      var sufficient := GetOr(m, "has_sufficient_info", JBool(false));
      var params := GetOr(m, "extracted_params", JObj(map[]));
      if intent == JStr(GeneralConversation) then
        Greeting(if "greeting_response" in m then Some(m["greeting_response"]) else None)
      else if !Truthy(sufficient) then
        Clarification(intent, GetOr(m, "clarification_question", JStr(ClarificationDefault)),
                      GetOr(m, "missing_info", JArr([])))
      else if intent == JStr(ExperimentDesign) then DesignRoute(params)
      else if intent == JStr(AbTestAnalysis) then AbTestRoute(params)
      else if intent == JStr(CausalAnalysis) then CausalRoute(params)
      else Unrecognised
  }

  /** A failed model call gives the English greeting. */
  lemma ModelFailureGreets(search: string -> Option<string>, loads: string -> Option<Json>)
    ensures Dispatch(DetectIntent(DetectOracles(None, search, loads))) == Greeting(Some(JStr(GreetingText)))
  {
  }

  /**
   * A reply that does not decode never reaches a handler: it is a greeting
   * when no keyword matches, and otherwise a clarification with an empty
   * question for the keyword's intent.
   */
  lemma UndecodableReplyNeverHandled(content: string, search: string -> Option<string>, loads: string -> Option<Json>)
    requires loads(JsonCandidate(content, search)).None?
    ensures var intent := KeywordIntent(Lower(content));
      var route := Dispatch(DetectIntent(DetectOracles(Some(content), search, loads)));
      !route.ReachesHandler() &&
      (intent == GeneralConversation ==> route == Greeting(Some(JStr(GreetingText)))) &&
      (intent != GeneralConversation ==> route == Clarification(JStr(intent), JStr(""), JArr([])))
  {
    var m := FallbackResult(KeywordIntent(Lower(content)));
    assert DetectIntent(DetectOracles(Some(content), search, loads)) == Detected(m);
  }

  /** Every response reports one of five intents. */
  lemma DetectedIntentsAreKnown(d: Detection)
    ensures Dispatch(d).DetectedIntent() in {GeneralConversation, "clarification_needed", ExperimentDesign,
                                             AbTestAnalysis, CausalAnalysis}
  {
  }
}
