/** The response handling of the LLM service: cutting the JSON object out of
    the model's reply (`parseJsonResponse`), validating it into a
    `MatchResult` (`parseMatchResult`), and the array check of the improvement
    suggestions. The HTTP calls around them are not modelled; each operation
    here starts from the reply text and takes `JSON.parse` as a `Decoder`. */
module LlmService {
  import opened Wrappers
  import opened Json
  import opened Text
  import opened MatchTypes
  import JsonParser

  const NoObjectMessage: string := "Kein JSON-Objekt in der Antwort gefunden"
  const InvalidJsonMessage: string := "Ungültiges JSON-Format in der Antwort"
  const GenericMessage: string := "Die Antwort des LLM konnte nicht verarbeitet werden."
  const ScoreMessage: string := "overallScore fehlt oder ist ungültig"
  const StrengthsMessage: string := "strengths fehlt oder ist kein Array"
  const GapsMessage: string := "gaps fehlt oder ist kein Array"
  const RecommendationsMessage: string := "recommendations fehlt oder ist kein Array"
  const AnalysisMessage: string := "detailedAnalysis fehlt oder ist kein String"
  const ImprovementsMessage: string := "Fehler beim Generieren der Verbesserungsvorschläge."

  const ObjectOpen: set<char> := {'{'}
  const ObjectClose: set<char> := {'}'}

  /** `cleaned.match(/\{[\s\S]*\}/)`: from the first `{` to the last `}`
      after it, with no attempt at balancing braces. */
  function ObjectCandidate(cleaned: string): (r: Option<string>)
    ensures r.Some? ==> |r.value| >= 2 && r.value[0] == '{' && r.value[|r.value| - 1] == '}'
    ensures r.None? <==> forall i, j :: 0 <= i < j < |cleaned| ==> !(cleaned[i] == '{' && cleaned[j] == '}')
  {
    match GreedySpan(cleaned, ObjectOpen, ObjectClose)
    case None =>
      assert forall i, j :: 0 <= i < j < |cleaned| ==> !(cleaned[i] == '{' && cleaned[j] == '}') by {
        forall i, j | 0 <= i < j < |cleaned| && cleaned[i] == '{' && cleaned[j] == '}'
          ensures false
        {
          assert SpanMatch(cleaned, ObjectOpen, ObjectClose, i, j + 1);
        }
      }
      None
    case Some(span) => Some(cleaned[span.0..span.1])
  }

  /** The candidate is exactly the text from the first `{` of the cleaned
      reply to its last `}`. */
  lemma ObjectCandidateBounds(cleaned: string)
    requires ObjectCandidate(cleaned).Some?
    ensures exists i, e :: (
      && 0 <= i < e <= |cleaned|
      && ObjectCandidate(cleaned).value == cleaned[i..e]
      && (forall k :: 0 <= k < i ==> cleaned[k] != '{')
      && (forall k :: e <= k < |cleaned| ==> cleaned[k] != '}'))
  {
    var span := GreedySpan(cleaned, ObjectOpen, ObjectClose).value;
    var i, e := span.0, span.1;
    assert forall k :: 0 <= k < i ==> cleaned[k] != '{';
    assert forall k :: e <= k < |cleaned| ==> cleaned[k] != '}';
  }

  /** A text that starts with `{` and ends with `}`. */
  predicate ObjectText(t: string)
  {
    |t| >= 2 && t[0] == '{' && t[|t| - 1] == '}'
  }

  /** A text that starts with `[` and ends with `]`. */
  predicate ArrayText(t: string)
  {
    |t| >= 2 && t[0] == '[' && t[|t| - 1] == ']'
  }

  /** A text that starts with `{` and ends with `}` is its own candidate. */
  lemma WholeObjectIsCandidate(t: string)
    requires ObjectText(t)
    ensures ObjectCandidate(t) == Some(t)
  {
    assert SpanMatch(t, ObjectOpen, ObjectClose, 0, |t|);
    assert t[0..|t|] == t;
  }

  /** The object-only search finds something whenever the object-or-array
      search of the JSON utilities would, and on a text without `[` or `]`
      the two searches agree. */
  lemma ObjectSearchWithinAnySearch(cleaned: string)
    ensures ObjectCandidate(cleaned).Some? ==> JsonParser.Candidate(cleaned).Some?
    ensures '[' !in cleaned && ']' !in cleaned ==> ObjectCandidate(cleaned) == JsonParser.Candidate(cleaned)
  {
    if '[' !in cleaned && ']' !in cleaned {
      SameSearchWithoutBrackets(cleaned);
    }
  }

  lemma SameSearchWithoutBrackets(cleaned: string)
    requires '[' !in cleaned && ']' !in cleaned
    ensures ObjectCandidate(cleaned) == JsonParser.Candidate(cleaned)
  {
    var g1 := GreedySpan(cleaned, ObjectOpen, ObjectClose);
    var g2 := GreedySpan(cleaned, JsonParser.Openers, JsonParser.Closers);
    forall i, e ensures SpanMatch(cleaned, ObjectOpen, ObjectClose, i, e)
      <==> SpanMatch(cleaned, JsonParser.Openers, JsonParser.Closers, i, e)
    {
      if 0 <= i && i + 1 < e <= |cleaned| {
        assert cleaned[i] in cleaned && cleaned[e - 1] in cleaned;
      }
    }
    if g1.Some? {
      assert SpanMatch(cleaned, JsonParser.Openers, JsonParser.Closers, g1.value.0, g1.value.1);
      assert SpanMatch(cleaned, ObjectOpen, ObjectClose, g2.value.0, g2.value.1);
      assert g1 == g2;
    }
  }

  /** `parseJsonResponse` of llm.ts. */
  function ParseJsonResponse(response: string, decode: Decoder): (r: Result<Json, string>)
    ensures r.Failure? ==> r.error == NoObjectMessage || r.error == InvalidJsonMessage
    ensures r == Failure(NoObjectMessage) <==> ObjectCandidate(StripCodeFences(response)).None?
    ensures r.Success? <==> ObjectCandidate(StripCodeFences(response)).Some? && decode(ObjectCandidate(StripCodeFences(response)).value).Some?
    ensures r.Success? ==> decode(ObjectCandidate(StripCodeFences(response)).value) == Some(r.value)
  {
    match ObjectCandidate(StripCodeFences(response))
    case None => Failure(NoObjectMessage)
    case Some(candidate) =>
      match decode(candidate)
      case None => Failure(InvalidJsonMessage)
      case Some(v) => Success(v)
  }

  /** When no candidate is found the decoder is never consulted: every
      decoder gives the same answer. */
  lemma NoCandidateNoDecode(response: string, d1: Decoder, d2: Decoder)
    requires ObjectCandidate(StripCodeFences(response)).None?
    ensures ParseJsonResponse(response, d1) == ParseJsonResponse(response, d2) == Failure(NoObjectMessage)
  {
  }

  /** Everything `parseJsonResponse` returns is a JSON object. */
  lemma ParsedIsObject(response: string, decode: Decoder)
    requires LeadingCharAxiom(decode)
    requires ParseJsonResponse(response, decode).Success?
    ensures ParseJsonResponse(response, decode).value.JObject?
  {
    var candidate := ObjectCandidate(StripCodeFences(response)).value;
    assert decode(candidate).Some? && |candidate| > 0 && candidate[0] == '{';
  }

  /** The candidate is not brace-balanced: prose after the object that
      contains a `}` is swallowed into the candidate, prose without one is
      dropped. */
  lemma TrailingProse(obj: string, prose: string)
    requires |obj| >= 2 && obj[0] == '{' && obj[|obj| - 1] == '}'
    ensures ObjectCandidate(obj + prose).Some?
    ensures '}' in prose ==> |ObjectCandidate(obj + prose).value| > |obj|
    ensures '}' !in prose ==> ObjectCandidate(obj + prose).value == obj
  {
    var s := obj + prose;
    assert s[0] == '{' && s[|obj| - 1] == '}';
    ObjectCandidateBounds(s);
    var c := ObjectCandidate(s).value;
    var i, e :| 0 <= i < e <= |s| && c == s[i..e]
      && (forall k :: 0 <= k < i ==> s[k] != '{')
      && (forall k :: e <= k < |s| ==> s[k] != '}');
    assert i == 0;
    if '}' in prose {
      var k :| 0 <= k < |prose| && prose[k] == '}';
      assert s[|obj| + k] == '}';
      assert e > |obj| + k;
    } else {
      assert forall k :: |obj| <= k < |s| ==> s[k] == prose[k - |obj|];
      assert s[e - 1] == '}';
      assert e == |obj|;
      assert c == s[..|obj|] == obj;
    }
  }

  /** `Math.max(0, Math.min(100, x))`. */
  function Clamp(x: real): (r: real)
    ensures 0.0 <= r <= 100.0
    ensures 0.0 <= x <= 100.0 ==> r == x
    ensures x < 0.0 ==> r == 0.0
    ensures x > 100.0 ==> r == 100.0
  {
    var m := if x < 100.0 then x else 100.0;
    if m > 0.0 then m else 0.0
  }

  /** The five checks `parseMatchResult` makes on the decoded value. */
  predicate HasRequiredFields(parsed: Json)
  {
    && IsNumber(Get(parsed, "overallScore"))
    && IsArray(Get(parsed, "strengths"))
    && IsArray(Get(parsed, "gaps"))
    && IsArray(Get(parsed, "recommendations"))
    && IsString(Get(parsed, "detailedAnalysis"))
  }

  /** The checks and the projection of `parseMatchResult` (the body of its
      `try`): the first failing check names its field; on success the five
      fields are copied, the score clamped, and every other key dropped. */
  function ValidateMatch(parsed: Json): (r: Result<MatchResult, string>)
    ensures r.Success? <==> HasRequiredFields(parsed)
    ensures !IsNumber(Get(parsed, "overallScore")) ==> r == Failure(ScoreMessage)
    ensures IsNumber(Get(parsed, "overallScore")) && !IsArray(Get(parsed, "strengths"))
      ==> r == Failure(StrengthsMessage)
    ensures IsNumber(Get(parsed, "overallScore")) && IsArray(Get(parsed, "strengths")) && !IsArray(Get(parsed, "gaps"))
      ==> r == Failure(GapsMessage)
    ensures (&& IsNumber(Get(parsed, "overallScore")) && IsArray(Get(parsed, "strengths")) && IsArray(Get(parsed, "gaps"))
             && !IsArray(Get(parsed, "recommendations")))
      ==> r == Failure(RecommendationsMessage)
    ensures (&& r.Failure? && IsNumber(Get(parsed, "overallScore")) && IsArray(Get(parsed, "strengths"))
             && IsArray(Get(parsed, "gaps")) && IsArray(Get(parsed, "recommendations")))
      ==> r == Failure(AnalysisMessage)
    ensures r.Success? ==>
      && r.value.overallScore == Clamp(parsed.fields["overallScore"].n)
      && r.value.strengths == parsed.fields["strengths"].items
      && r.value.gaps == parsed.fields["gaps"].items
      && r.value.recommendations == parsed.fields["recommendations"].items
      && r.value.detailedAnalysis == parsed.fields["detailedAnalysis"].s
      && r.value.comparison.None?
      && r.value.riskAssessment.None?
      && r.value.developmentPotential.None?
  {
    var score := Get(parsed, "overallScore");
    var strengths := Get(parsed, "strengths");
    var gaps := Get(parsed, "gaps");
    var recommendations := Get(parsed, "recommendations");
    var analysis := Get(parsed, "detailedAnalysis");
    if !IsNumber(score) then Failure(ScoreMessage)
    else if !IsArray(strengths) then Failure(StrengthsMessage)
    else if !IsArray(gaps) then Failure(GapsMessage)
    else if !IsArray(recommendations) then Failure(RecommendationsMessage)
    else if !IsString(analysis) then Failure(AnalysisMessage)
    else Success(MatchResult(
      Clamp(score.value.n),
      strengths.value.items,
      gaps.value.items,
      recommendations.value.items,
      analysis.value.s,
      None, None, None))
  }

  /** `parseMatchResult`: every failure, whether no object, invalid JSON or a
      failed check, becomes the single generic message. */
  function ParseMatchResult(response: string, decode: Decoder): (r: Result<MatchResult, string>)
    ensures r.Failure? ==> r.error == GenericMessage
    ensures r.Success? <==>
      ParseJsonResponse(response, decode).Success? && HasRequiredFields(ParseJsonResponse(response, decode).value)
    ensures r.Success? ==> r == ValidateMatch(ParseJsonResponse(response, decode).value)
    ensures r.Success? ==> 0.0 <= r.value.overallScore <= 100.0
  {
    match ParseJsonResponse(response, decode)
    case Failure(_) => Failure(GenericMessage)
    case Success(parsed) =>
      match ValidateMatch(parsed)
      case Failure(_) => Failure(GenericMessage)
      case Success(result) => Success(result)
  }

  /** A reply that, trimmed, is one object text is decoded whole. */
  lemma WholeObjectReply(response: string, decode: Decoder, v: Json)
    requires ObjectText(Trim(response))
    requires decode(Trim(response)) == Some(v)
    ensures ParseJsonResponse(response, decode) == Success(v)
  {
    assert NoBacktickEnds(Trim(response));
    PlainReply(response);
    ParseOfWholeObject(response, decode, Trim(response), v);
  }

  lemma ParseOfWholeObject(response: string, decode: Decoder, cleaned: string, v: Json)
    requires StripCodeFences(response) == cleaned && ObjectText(cleaned)
    requires decode(cleaned) == Some(v)
    ensures ParseJsonResponse(response, decode) == Success(v)
  {
    WholeObjectIsCandidate(cleaned);
  }

  /** A reply that is just a JSON object text with the five fields correctly
      typed yields exactly those values, the score clamped into [0, 100]. */
  lemma RoundTrip(response: string, decode: Decoder, fields: map<string, Json>)
    requires ObjectText(Trim(response))
    requires decode(Trim(response)) == Some(JObject(fields))
    requires HasRequiredFields(JObject(fields))
    ensures ParseMatchResult(response, decode) == Success(MatchResult(
      Clamp(fields["overallScore"].n),
      fields["strengths"].items,
      fields["gaps"].items,
      fields["recommendations"].items,
      fields["detailedAnalysis"].s,
      None, None, None))
  {
    WholeObjectReply(response, decode, JObject(fields));
  }

  lemma SameCleanedSameParse(r1: string, r2: string, decode: Decoder)
    requires StripCodeFences(r1) == StripCodeFences(r2)
    ensures ParseJsonResponse(r1, decode) == ParseJsonResponse(r2, decode)
  {
  }

  /** `parseMatchResult` depends on the reply only through its cleaned text. */
  lemma SameCleanedSameResult(r1: string, r2: string, decode: Decoder)
    requires StripCodeFences(r1) == StripCodeFences(r2)
    ensures ParseMatchResult(r1, decode) == ParseMatchResult(r2, decode)
  {
    SameCleanedSameParse(r1, r2, decode);
  }

  /** Wrapping a JSON object reply in a "```json" block changes nothing. */
  lemma FenceIrrelevant(body: string, decode: Decoder)
    requires ObjectText(Trim(body))
    ensures ParseMatchResult(JsonFence + body + Fence, decode) == ParseMatchResult(body, decode)
  {
    FencedJsonBlock(body);
    assert NoBacktickEnds(Trim(body));
    PlainReply(body);
    SameCleanedSameResult(JsonFence + body + Fence, body, decode);
  }

  /** `generateCVImprovements` after its HTTP call (llm.ts 237-252): the reply
      goes through this module's `parseJsonResponse` and must be an array. */
  function CVImprovementsAsWritten(response: string, decode: Decoder): (r: Result<seq<Json>, string>)
    ensures r.Failure? ==> r.error == ImprovementsMessage
    ensures r.Success? ==> ParseJsonResponse(response, decode) == Success(JArray(r.value))
    ensures ParseJsonResponse(response, decode).Success? && ParseJsonResponse(response, decode).value.JArray?
      ==> r.Success?
  {
    match ParseJsonResponse(response, decode)
    case Failure(_) => Failure(ImprovementsMessage)
    case Success(parsed) =>
      if parsed.JArray? then Success(parsed.items) else Failure(ImprovementsMessage)
  }

  /** As written, improvement suggestions can never be returned: the
      candidate always starts with `{`, so it never decodes to an array. */
  lemma CVImprovementsNeverSucceed(response: string, decode: Decoder)
    requires LeadingCharAxiom(decode)
    ensures CVImprovementsAsWritten(response, decode).Failure?
  {
    if ParseJsonResponse(response, decode).Success? {
      ParsedIsObject(response, decode);
    }
  }

  /** The reply the prompt asks for, a JSON array of strings, holds no `{`
      and is rejected whatever `JSON.parse` does. */
  lemma ArrayReplyRejected(response: string, decode: Decoder)
    requires '{' !in response
    ensures CVImprovementsAsWritten(response, decode) == Failure(ImprovementsMessage)
  {
    var cleaned := StripCodeFences(response);
    StripKeepsOut(response, '{');
    assert ObjectCandidate(cleaned).None?;
  }

  /** The evidently intended `generateCVImprovements`: cut the candidate out
      with the object-or-array search of the JSON utilities. */
  function CVImprovements(response: string, decode: Decoder): (r: Result<seq<Json>, string>)
    ensures r.Failure? ==> r.error == ImprovementsMessage
    ensures r.Success? ==> JsonParser.ParseJsonResponse(response, decode) == Success(JArray(r.value))
    ensures JsonParser.ParseJsonResponse(response, decode).Success? && JsonParser.ParseJsonResponse(response, decode).value.JArray?
      ==> r.Success?
  {
    match JsonParser.ParseJsonResponse(response, decode)
    case Failure(_) => Failure(ImprovementsMessage)
    case Success(parsed) =>
      if parsed.JArray? then Success(parsed.items) else Failure(ImprovementsMessage)
  }

  /** With the correction, a reply that is a JSON array is returned item for
      item. */
  lemma CVImprovementsAcceptsArray(response: string, decode: Decoder, items: seq<Json>)
    requires ArrayText(Trim(response))
    requires decode(Trim(response)) == Some(JArray(items))
    ensures CVImprovements(response, decode) == Success(items)
  {
    WholeArrayReply(response, decode, items);
  }

  lemma WholeArrayReply(response: string, decode: Decoder, items: seq<Json>)
    requires ArrayText(Trim(response))
    requires decode(Trim(response)) == Some(JArray(items))
    ensures JsonParser.ParseJsonResponse(response, decode) == Success(JArray(items))
  {
    assert JsonParser.ContainerText(Trim(response)) by {
      assert '[' in JsonParser.Openers && ']' in JsonParser.Closers;
    }
    JsonParser.WholeReply(response, decode, JArray(items));
  }
}
