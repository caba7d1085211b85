/**
 * The three language-model round trips around the evidence pipeline, with
 * the model replies and the JSON parser as inputs: the extraction of URLs
 * and brands, the final detection with its fail-closed fallback, and the
 * plain-language explanation.
 */
module Verdicts {
  import opened Wrappers
  import opened Text
  import opened Evidence
  import opened ReplyCleaning

  /** A value of the detection reply: a JSON boolean, a JSON string, or any other JSON value as its text. */
  datatype Value = Bool(b: bool) | Str(s: string) | Other(json: string)

  /**
   * The detection reply as `json.loads` returns it: every key the model
   * sent ('category', 'brief_reason', 'advice', 'brand_impersonated', 'URL',
   * 'rationales' or any other) with its value, in the reply's own order.
   */
  datatype Verdict = Verdict(entries: seq<(string, Value)>)

  /** The position of `key` among the entries, if it is there: the first entry holding it. */
  function KeyIndex(entries: seq<(string, Value)>, key: string): (r: Option<nat>)
    ensures r.None? ==> forall k :: 0 <= k < |entries| ==> entries[k].0 != key
    ensures r.Some? ==> r.value < |entries| && entries[r.value].0 == key
    ensures r.Some? ==> forall k :: 0 <= k < r.value ==> entries[k].0 != key
    decreases |entries|
  {
    if |entries| == 0 then None
    else if entries[0].0 == key then Some(0)
    else match KeyIndex(entries[1..], key)
      case None => None
      case Some(k) => Some(k + 1)
  }

  /** `verdict.get(key)`: the value stored under `key`, or `None` when the reply lacks it. */
  function Lookup(v: Verdict, key: string): (r: Option<Value>)
    ensures r.None? <==> forall k :: 0 <= k < |v.entries| ==> v.entries[k].0 != key
    ensures r.Some? ==> var k := KeyIndex(v.entries, key).value; r.value == v.entries[k].1
  {
    match KeyIndex(v.entries, key)
    case None => None
    case Some(k) => Some(v.entries[k].1)
  }

  /** The verdict put in place of any failed detection: phishing, with a cautious advice, and nothing else. */
  const Fallback: Verdict := Verdict([
    ("category", Bool(true)),
    ("brief_reason", Str("Analysis failed")),
    ("advice", Str("Exercise caution"))])

  /** The fallback holds exactly its three keys, in that order, and says phishing. */
  lemma FallbackKeys()
    ensures |Fallback.entries| == 3
    ensures Lookup(Fallback, "category") == Some(Bool(true))
    ensures Lookup(Fallback, "brief_reason") == Some(Str("Analysis failed"))
    ensures Lookup(Fallback, "advice") == Some(Str("Exercise caution"))
  {
    assert KeyIndex(Fallback.entries, "category") == Some(0);
    assert Fallback.entries[1..][0].0 == "brief_reason";
    assert KeyIndex(Fallback.entries, "brief_reason") == Some(1);
    assert Fallback.entries[1..][1..][0].0 == "advice";
    assert KeyIndex(Fallback.entries, "advice") == Some(2);
  }

  /** The extraction prompt: its template, a newline, then the SMS. */
  function ExtractionPrompt(template: string, sms: string): (r: string)
    ensures |r| == |template| + 1 + |sms|
    ensures StartsWith(r, template) && r[|template|] == '\n'
    ensures r[|template| + 1..] == sms
  {
    template + "\n" + sms
  }

  /**
   * `_extract_urls_and_brands`, given the model's reply (`None` when the
   * call raised) and the JSON parser (`None` when `json.loads` raised).
   * Nothing is caught here: `None` means the whole detection raises. The
   * keys are read later, by the caller.
   */
  function ExtractUrlsAndBrands(reply: Option<string>, parse: string -> Option<Extraction>): (r: Option<Extraction>)
    ensures r.Some? <==> reply.Some? && parse(CleanJsonResponse(reply.value)).Some?
    ensures r.Some? ==> r == parse(CleanJsonResponse(reply.value))
  {
    match reply
    case None => None
    case Some(content) => parse(CleanJsonResponse(content))
  }

  /**
   * `_perform_final_detection`, given the model's reply (`None` when the
   * call raised) and the JSON parser (`None` when parsing raised): the
   * parsed verdict, or the fallback on any failure.
   */
  function FinalDetection(reply: Option<string>, parse: string -> Option<Verdict>): (v: Verdict)
    ensures reply.None? ==> v == Fallback
    ensures reply.Some? && parse(CleanJsonResponse(reply.value)).None? ==> v == Fallback
    ensures reply.Some? && parse(CleanJsonResponse(reply.value)).Some? ==>
      v == parse(CleanJsonResponse(reply.value)).value
  {
    match reply
    case None => Fallback
    case Some(content) => parse(CleanJsonResponse(content)).GetOr(Fallback)
  }

  /**
   * `detection_result.get('category', True)`, the value `detect_sms_phishing`
   * returns: the reply's 'category' as it stands, or `True` when it is missing.
   */
  function Category(v: Verdict): (r: Value)
    ensures Lookup(v, "category").None? ==> r == Bool(true)
    ensures Lookup(v, "category").Some? ==> r == Lookup(v, "category").value
    ensures r == Bool(false) <==> Lookup(v, "category") == Some(Bool(false))
  {
    Lookup(v, "category").GetOr(Bool(true))
  }

  /**
   * The detection fails closed: the run returns `False` only when the model
   * answered, its cleaned reply parsed, and the parsed verdict holds an
   * explicit false category; on any failure it returns `True`.
   */
  lemma FailClosed(reply: Option<string>, parse: string -> Option<Verdict>)
    ensures Category(FinalDetection(reply, parse)) == Bool(false) <==>
      reply.Some? && parse(CleanJsonResponse(reply.value)).Some? &&
      Lookup(parse(CleanJsonResponse(reply.value)).value, "category") == Some(Bool(false))
    ensures reply.None? || parse(CleanJsonResponse(reply.value)).None? ==>
      Category(FinalDetection(reply, parse)) == Bool(true)
  {
    FallbackKeys();
  }

  /** Returned in place of the explanation when the model call fails. */
  const NoExplanation: string := "Unable to generate user-friendly analysis."

  const SmsLabel: string := "\nThe SMS message: "
  const ResultLabel: string := "\nThe analysis result: "

  /** The explanation prompt: template, the SMS, then `str()` of the whole verdict, each after its label. */
  function ExplanationPrompt(template: string, sms: string, shownVerdict: string): (r: string)
    ensures StartsWith(r, template + SmsLabel + sms + ResultLabel)
    ensures |r| == |template + SmsLabel + sms + ResultLabel| + |shownVerdict|
    ensures |r| >= |shownVerdict| && r[|r| - |shownVerdict|..] == shownVerdict
  {
    var r := template + SmsLabel + sms + ResultLabel + shownVerdict;
    StartsWithAppend(template + SmsLabel + sms + ResultLabel, shownVerdict);
    r
  }

  /**
   * `_generate_user_friendly_output`, given the model's reply (`None` when
   * the call raised): the cleaned reply, or the fixed apology. Either way
   * the text holds no newline and no code fence.
   */
  function UserFriendlyOutput(reply: Option<string>): (r: string)
    ensures '\n' !in r && !Contains(r, Fence)
    ensures reply.None? ==> r == NoExplanation
    ensures reply.Some? ==> r == CleanJsonResponse(reply.value)
  {
    match reply
    case None =>
      NoExplanationClean();
      NoExplanation
    case Some(content) => CleanJsonResponse(content)
  }

  /** The apology holds no newline and no fence. */
  lemma NoExplanationClean()
    ensures '\n' !in NoExplanation && !Contains(NoExplanation, Fence)
  {
    assert '`' !in NoExplanation;
    AbsentCharNotContained(NoExplanation, '`');
    assert Fence == "`" + "``";
    AbsentPrefixPattern(NoExplanation, "`", "``");
  }
}
