/** The end-to-end scenario of the fact checker, with the services stubbed by their contracts. */
module Scenarios {
  import opened Wrappers
  import opened PyStr
  import opened PyJson
  import opened FactChecker

  /**
   * A knowledge base holding only "The sky is blue on a clear day.", the
   * claim "The sky is green." and a model that answers "False" citing that
   * fact: the report carries the verdict and that one fact as context.
   */
  lemma SkyIsGreenScenario(distance: real, parse: string -> Option<Json>,
                           extractEntities: string -> seq<string>, score: real -> real)
    requires parse(SkyReply) == Some(JObject(map[VerdictKey := JString("False"),
                                                 ReasoningKey := JString("Contradicts known fact."),
                                                 EvidenceKey := JArray([JString(SkyFact)])]))
    ensures var out := ClaimReport(SkyClaim, SkyReply, [SkyFact], [distance],
                                   parse, extractEntities, score);
            && out.Returned?
            && VerdictKey in out.report && out.report[VerdictKey] == JString("False")
            && EvidenceKey in out.report && out.report[EvidenceKey] == JArray([JString(SkyFact)])
            && AsStrings(out.report[RetrievedContextKey]) == Some([SkyFact])
  {
    SkyReplyReachesDecoder();
    assert VerdictKey !in MetadataKeys && EvidenceKey !in MetadataKeys;
    DecodedObjectReport(SkyClaim, SkyReply, [SkyFact], [distance], parse, extractEntities, score);
  }

  /** The mocked reply is unfenced JSON and is decoded as it came. */
  lemma SkyReplyReachesDecoder()
    ensures CleanResponse(SkyReply) == SkyReply
  {
    assert SkyReply[0] == '{';
    assert SkyReply[|SkyReply| - 1] == '}';
    CleanKeepsPlainReply(SkyReply);
  }

  /**
   * A truncated reply that the decoder rejects gives the error report,
   * with no evidence and the reply kept for diagnosis.
   */
  lemma TruncatedReplyScenario(retrievedFacts: seq<string>, distances: seq<real>,
                               parse: string -> Option<Json>,
                               extractEntities: string -> seq<string>, score: real -> real)
    requires parse(TruncatedReply) == None
    ensures var out := ClaimReport(SkyClaim, TruncatedReply, retrievedFacts, distances,
                                   parse, extractEntities, score);
            && out.Returned?
            && VerdictKey in out.report && out.report[VerdictKey] == JString("Error")
            && EvidenceKey in out.report && out.report[EvidenceKey] == JArray([])
            && RawResponseKey in out.report && out.report[RawResponseKey] == JString(TruncatedReply)
  {
    TruncatedReplyReachesDecoder();
    UndecodableReport(SkyClaim, TruncatedReply, retrievedFacts, distances, parse, extractEntities, score);
  }

  /** The truncated reply is unfenced and is decoded as it came. */
  lemma TruncatedReplyReachesDecoder()
    ensures CleanResponse(TruncatedReply) == TruncatedReply
  {
    assert TruncatedReply[0] == '{' && TruncatedReply[|TruncatedReply| - 1] == 'e';
    CleanKeepsPlainReply(TruncatedReply);
  }

  const TruncatedReply: string := "{verdict: True"
  const SkyFact: string := "The sky is blue on a clear day."
  const SkyClaim: string := "The sky is green."
  const SkyReply: string := "{" + SkyReplyFields + "}"
  const SkyReplyFields: string :=
    "\"verdict\":\"False\",\"reasoning\":\"Contradicts known fact.\",\"evidence_used\":[\"The sky is blue on a clear day.\"]"
}
