/**
 * The post-processing in `FactChecker.check_claim`: the reply of the
 * generative model is cleaned of a markdown code fence, decoded as JSON and
 * turned into the claim report, with the retrieval and entity metadata
 * attached to the decoded object in place, or replaced by a fixed error
 * report when the reply does not decode.
 *
 * The services around it are parameters: `parse` stands for `json.loads`
 * (None is a `JSONDecodeError`), `extractEntities` for the spaCy entity
 * extractor, `score` for `round(1 - d, 2)`, and the retrieved facts and
 * their distances are the first rows of the vector-index query result.
 */
module FactChecker {
  import opened Wrappers
  import opened PyStr
  import opened PyJson

  /* ---------------- Cleaning the model's reply ---------------- */

  const Fence: string := "```"
  const JsonFence: string := "```json"

  /**
   * Removes a code fence from an already stripped reply: after an opening
   * "```json" the first 7 and the last 3 characters are cut, after a plain
   * opening "```" the first 3 and the last 3; anything else is kept as is.
   * The closing fence is cut without being looked at.
   */
  function TrimFence(t: string): string {
    if StartsWith(t, JsonFence) then Slice(t, 7, -3)
    else if StartsWith(t, Fence) then Slice(t, 3, -3)
    else t
  }

  /** The text handed to the JSON decoder: the reply stripped, then its fence trimmed. */
  function CleanResponse(raw: string): string {
    TrimFence(Strip(raw))
  }

  /** `r` occurs in `t` at position `i`. */
  predicate InfixAt(r: string, t: string, i: nat) {
    i + |r| <= |t| && r == t[i..i + |r|]
  }

  /** `r` occurs somewhere in `t`. */
  ghost predicate InfixOf(r: string, t: string) {
    exists i :: InfixAt(r, t, i)
  }

  /** A reply in a "```json" fence loses its first 7 and its last 3 characters; ten or fewer leave nothing. */
  lemma TrimJsonFence(t: string)
    requires StartsWith(t, JsonFence)
    ensures |t| <= 10 ==> TrimFence(t) == []
    ensures |t| > 10 ==> TrimFence(t) == t[7..|t| - 3]
  {
  }

  /** A reply in a plain "```" fence loses its first 3 and its last 3 characters; six or fewer leave nothing. */
  lemma TrimPlainFence(t: string)
    requires StartsWith(t, Fence) && !StartsWith(t, JsonFence)
    ensures |t| <= 6 ==> TrimFence(t) == []
    ensures |t| > 6 ==> TrimFence(t) == t[3..|t| - 3]
  {
  }

  /** A reply that does not open with "```" reaches the decoder exactly as `strip()` left it. */
  lemma UnfencedKept(raw: string)
    requires !StartsWith(Strip(raw), Fence)
    ensures CleanResponse(raw) == Strip(raw)
  {
  }

  /** A trimmed reply that does not open with a backtick reaches the decoder unchanged. */
  lemma CleanKeepsPlainReply(s: string)
    requires Trimmed(s) && s != [] && s[0] != '`'
    ensures CleanResponse(s) == s
  {
  }

  /** The "```json" test comes first: a reply opening with "```json" never loses only 3 leading characters. */
  lemma JsonFenceTestedFirst(t: string)
    requires StartsWith(t, JsonFence) && |t| > 10
    ensures TrimFence(t) != t[3..|t| - 3]
  {
  }

  /**
   * The cleaned text is a contiguous piece of the stripped reply, and when
   * the reply opens with a fence it is a piece of the reply without its
   * last 3 characters, so the closing fence never reaches the decoder.
   */
  lemma CleanedIsInfix(raw: string)
    ensures var t, r := Strip(raw), CleanResponse(raw);
            && |r| <= |t|
            && InfixOf(r, t)
            && (StartsWith(t, Fence) ==> InfixOf(r, t[..|t| - 3]))
  {
    var t, r := Strip(raw), CleanResponse(raw);
    if StartsWith(t, JsonFence) {
      TrimJsonFence(t);
      if |t| > 10 {
        assert InfixAt(r, t, 7) && InfixAt(r, t[..|t| - 3], 7);
      } else {
        assert InfixAt(r, t, 0) && InfixAt(r, t[..|t| - 3], 0);
      }
    } else if StartsWith(t, Fence) {
      TrimPlainFence(t);
      if |t| > 6 {
        assert InfixAt(r, t, 3) && InfixAt(r, t[..|t| - 3], 3);
      } else {
        assert InfixAt(r, t, 0) && InfixAt(r, t[..|t| - 3], 0);
      }
    } else {
      assert InfixAt(r, t, 0);
    }
  }

  /**
   * The closing fence is not checked: two fenced replies of ten or more
   * characters that differ only in their last 3 characters clean to the
   * same text.
   */
  lemma ClosingFenceUnchecked(t: string, u: string)
    requires StartsWith(t, Fence) && |t| >= 10
    requires |u| == |t| && u[..|u| - 3] == t[..|t| - 3]
    ensures TrimFence(u) == TrimFence(t)
  {
    assert u[..7] == t[..7] by {
      assert u[..7] == u[..|u| - 3][..7];
      assert t[..7] == t[..|t| - 3][..7];
    }
    assert u[..3] == t[..3] by {
      assert u[..3] == u[..7][..3];
      assert t[..3] == t[..7][..3];
    }
    assert StartsWith(u, Fence);
    if StartsWith(t, JsonFence) {
      TrimJsonFence(t);
      TrimJsonFence(u);
      if |t| > 10 {
        assert t[7..|t| - 3] == t[..|t| - 3][7..];
        assert u[7..|u| - 3] == u[..|u| - 3][7..];
      }
    } else {
      TrimPlainFence(t);
      TrimPlainFence(u);
      assert t[3..|t| - 3] == t[..|t| - 3][3..];
      assert u[3..|u| - 3] == u[..|u| - 3][3..];
    }
  }

  /**
   * Cleaning is not idempotent: a reply fenced twice loses only the outer
   * fence, and cleaning the result again would remove the inner one.
   */
  lemma DoubleFenceTrimmedOnce()
    ensures CleanResponse("```json\n```json\n{}\n```\n```") == "\n```json\n{}\n```\n"
    ensures CleanResponse("\n```json\n{}\n```\n") == "\n{}\n"
  {
    var outer := "```json\n```json\n{}\n```\n```";
    assert outer[7..23] == "\n```json\n{}\n```\n";
    StripKeepsTrimmed(outer);
    assert StartsWith(outer, JsonFence);
    TrimJsonFence(outer);
    PaddedJsonFenceExample();
  }

  /** A fenced reply between two newlines is stripped first and then loses its fence. */
  lemma PaddedJsonFenceExample()
    ensures CleanResponse("\n```json\n{}\n```\n") == "\n{}\n"
  {
    var inner := "```json\n{}\n```";
    assert inner[7..11] == "\n{}\n";
    assert "\n" + inner + "\n" == "\n```json\n{}\n```\n";
    StripPadded("\n", inner, "\n");
    assert StartsWith(inner, JsonFence);
    TrimJsonFence(inner);
  }

  /** A reply wrapped in a "```json" fence reaches the decoder with its inner newlines. */
  lemma JsonFenceExample()
    ensures CleanResponse("```json\n{}\n```") == "\n{}\n"
  {
    var t := "```json\n{}\n```";
    StripKeepsTrimmed(t);
    assert t[..7] == JsonFence;
    TrimJsonFence(t);
  }

  /** A reply wrapped in a plain fence reaches the decoder with its inner newlines. */
  lemma PlainFenceExample()
    ensures CleanResponse("```\n{}\n```") == "\n{}\n"
  {
    var t := "```\n{}\n```";
    StripKeepsTrimmed(t);
    assert t[..3] == Fence;
    assert t[..7][3] == '\n' && JsonFence[3] == 'j';
    TrimPlainFence(t);
  }

  /** An unfenced reply only loses its surrounding whitespace. */
  lemma UnfencedExample()
    ensures CleanResponse("  {}\n") == "{}"
  {
    StripPadded("  ", "{}", "\n");
    assert "  " + "{}" + "\n" == "  {}\n";
    assert |"{}"| < |Fence|;
  }

  /** An empty "```json" fence with no closing line leaves nothing to decode. */
  lemma ShortJsonFenceExample()
    ensures CleanResponse("```json```") == []
  {
    var t := "```json```";
    StripKeepsTrimmed(t);
    assert t[..7] == JsonFence;
    TrimJsonFence(t);
  }

  /* ---------------- Assembling the claim report ---------------- */

  const RetrievedContextKey: string := "retrieved_context"
  const EntitiesKey: string := "entities_detected"
  const ConfidenceKey: string := "confidence_scores"
  /** The keys attached to a successfully decoded reply. */
  const MetadataKeys: set<string> := {RetrievedContextKey, EntitiesKey, ConfidenceKey}

  const VerdictKey: string := "verdict"
  const ReasoningKey: string := "reasoning"
  const EvidenceKey: string := "evidence_used"
  const RawResponseKey: string := "raw_response"
  /** The keys of the report returned when the reply does not decode. */
  const FallbackKeys: set<string> := {VerdictKey, ReasoningKey, EvidenceKey, RawResponseKey}

  /** What `check_claim` does with the reply: return a report, or let an exception escape. */
  datatype Outcome =
    | Returned(report: map<string, Json>)
      /** `result_json[...] = ...` on a decoded value that is not a dict; only `JSONDecodeError` is caught. */
    | UncaughtTypeError

  /** One confidence score per distance, in the order of the distances. */
  function ConfidenceScores(distances: seq<real>, score: real -> real): (r: seq<Json>)
    ensures |r| == |distances|
    ensures forall i :: 0 <= i < |distances| ==> r[i] == JNumber(score(distances[i]))
  {
    if distances == [] then []
    else [JNumber(score(distances[0]))] + ConfidenceScores(distances[1..], score)
  }

  /** The report returned when the reply does not decode, carrying the unstripped reply. */
  function FallbackReport(raw: string): map<string, Json> {
    map[VerdictKey := JString("Error"),
        ReasoningKey := JString("Model output format error"),
        EvidenceKey := JArray([]),
        RawResponseKey := JString(raw)]
  }

  /** The decoded reply with the three metadata entries set, replacing any the model wrote. */
  function WithMetadata(fields: map<string, Json>, claim: string, retrievedFacts: seq<string>,
                        distances: seq<real>, extractEntities: string -> seq<string>,
                        score: real -> real): map<string, Json>
  {
    fields[RetrievedContextKey := JArray(StringArray(retrievedFacts))]
          [EntitiesKey := JArray(StringArray(extractEntities(claim)))]
          [ConfidenceKey := JArray(ConfidenceScores(distances, score))]
  }

  /**
   * What `check_claim` makes of the model's raw reply, given what the
   * retrieval step found.
   */
  function ClaimReport(claim: string, raw: string, retrievedFacts: seq<string>,
                       distances: seq<real>, parse: string -> Option<Json>,
                       extractEntities: string -> seq<string>, score: real -> real): Outcome
  {
    match parse(CleanResponse(raw))
    case None => Returned(FallbackReport(raw))
    case Some(JObject(fields)) =>
      Returned(WithMetadata(fields, claim, retrievedFacts, distances, extractEntities, score))
    case Some(_) => UncaughtTypeError
  }

  /**
   * The post-processing of `check_claim` step by step: clean the reply,
   * decode it, and set the metadata entries on the decoded dict in place.
   */
  method CheckClaim(claim: string, raw: string, retrievedFacts: seq<string>,
                    distances: seq<real>, parse: string -> Option<Json>,
                    extractEntities: string -> seq<string>, score: real -> real)
    returns (out: Outcome)
    ensures out == ClaimReport(claim, raw, retrievedFacts, distances, parse, extractEntities, score)
  {
    var cleanText := Strip(raw);
    if StartsWith(cleanText, JsonFence) {
      cleanText := Slice(cleanText, 7, -3);
    } else if StartsWith(cleanText, Fence) {
      cleanText := Slice(cleanText, 3, -3);
    }
    assert cleanText == CleanResponse(raw);
    var decoded := parse(cleanText);
    match decoded
    case None =>
      out := Returned(FallbackReport(raw));
    case Some(value) =>
      if !value.JObject? {
        out := UncaughtTypeError;
        return;
      }
      var resultJson := new Dict(value.fields);
      resultJson.SetItem(RetrievedContextKey, JArray(StringArray(retrievedFacts)));
      resultJson.SetItem(EntitiesKey, JArray(StringArray(extractEntities(claim))));
      resultJson.SetItem(ConfidenceKey, JArray(ConfidenceScores(distances, score)));
      out := Returned(resultJson.items);
  }

  /** The reply decoded to a JSON object. */
  predicate DecodesToObject(raw: string, parse: string -> Option<Json>) {
    parse(CleanResponse(raw)).Some? && parse(CleanResponse(raw)).value.JObject?
  }

  /**
   * A reply that decodes to an object is returned with every key the model
   * wrote, the three metadata keys added or overwritten, and every other
   * entry unchanged; the context is the retrieved facts and the entities
   * those found in the original claim.
   */
  lemma DecodedObjectReport(claim: string, raw: string, retrievedFacts: seq<string>,
                            distances: seq<real>, parse: string -> Option<Json>,
                            extractEntities: string -> seq<string>, score: real -> real)
    requires DecodesToObject(raw, parse)
    ensures var out := ClaimReport(claim, raw, retrievedFacts, distances, parse, extractEntities, score);
            var fields := parse(CleanResponse(raw)).value.fields;
            && out.Returned?
            && out.report.Keys == fields.Keys + MetadataKeys
            && (forall k :: k in fields && k !in MetadataKeys ==> out.report[k] == fields[k])
            && AsStrings(out.report[RetrievedContextKey]) == Some(retrievedFacts)
            && AsStrings(out.report[EntitiesKey]) == Some(extractEntities(claim))
            && out.report[ConfidenceKey].JArray?
            && |out.report[ConfidenceKey].items| == |distances|
  {
    AsStringsOfStringArray(retrievedFacts);
    AsStringsOfStringArray(extractEntities(claim));
  }

  /**
   * On success the context and the confidence scores line up: equally many
   * when the query returned as many distances as documents, and the i-th
   * score belongs to the i-th fact.
   */
  lemma ContextAndScoresAligned(claim: string, raw: string, retrievedFacts: seq<string>,
                                distances: seq<real>, parse: string -> Option<Json>,
                                extractEntities: string -> seq<string>, score: real -> real)
    requires DecodesToObject(raw, parse)
    requires |retrievedFacts| == |distances|
    ensures var out := ClaimReport(claim, raw, retrievedFacts, distances, parse, extractEntities, score);
            var context, scores := out.report[RetrievedContextKey].items, out.report[ConfidenceKey].items;
            && |context| == |scores| == |retrievedFacts|
            && forall i :: 0 <= i < |context| ==>
                 context[i] == JString(retrievedFacts[i]) && scores[i] == JNumber(score(distances[i]))
  {
  }

  /**
   * A reply that does not decode gives the fixed four-field error report
   * with the reply as received, and no retrieval or entity metadata.
   */
  lemma UndecodableReport(claim: string, raw: string, retrievedFacts: seq<string>,
                          distances: seq<real>, parse: string -> Option<Json>,
                          extractEntities: string -> seq<string>, score: real -> real)
    requires parse(CleanResponse(raw)).None?
    ensures var out := ClaimReport(claim, raw, retrievedFacts, distances, parse, extractEntities, score);
            && out.Returned?
            && out.report.Keys == FallbackKeys
            && out.report[VerdictKey] == JString("Error")
            && out.report[ReasoningKey] == JString("Model output format error")
            && out.report[EvidenceKey] == JArray([])
            && out.report[RawResponseKey] == JString(raw)
            && out.report.Keys !! MetadataKeys
  {
  }

  /** A reply that decodes to anything but an object makes `check_claim` raise. */
  lemma NonObjectRaises(claim: string, raw: string, retrievedFacts: seq<string>,
                        distances: seq<real>, parse: string -> Option<Json>,
                        extractEntities: string -> seq<string>, score: real -> real)
    ensures var out := ClaimReport(claim, raw, retrievedFacts, distances, parse, extractEntities, score);
            && (out.UncaughtTypeError? <==> parse(CleanResponse(raw)).Some? && !DecodesToObject(raw, parse))
            && (out.Returned? && MetadataKeys <= out.report.Keys <==> DecodesToObject(raw, parse))
  {
  }

  /**
   * Entities are extracted only on the success path: when the reply does
   * not decode to an object, the outcome is the same whatever the extractor
   * would have returned, and so is it whatever the retrieval returned.
   */
  lemma MetadataOnlyOnSuccess(claim: string, raw: string, retrievedFacts: seq<string>,
                              distances: seq<real>, parse: string -> Option<Json>,
                              extractEntities: string -> seq<string>, score: real -> real,
                              otherFacts: seq<string>, otherDistances: seq<real>,
                              otherExtractor: string -> seq<string>, otherScore: real -> real)
    requires !DecodesToObject(raw, parse)
    ensures ClaimReport(claim, raw, retrievedFacts, distances, parse, extractEntities, score)
         == ClaimReport(claim, raw, otherFacts, otherDistances, parse, otherExtractor, otherScore)
  {
  }
}
