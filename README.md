# LLM fact checker: reply cleaning and claim-report assembly

This project models the one piece of the fact checker that has logic of its
own: what `FactChecker.check_claim` does with the generative model's reply.
The reply is stripped of surrounding whitespace. If it then opens with a
"```json" or "```" code fence, the fence is cut off. The text is decoded as
JSON. A decoded object gets three metadata entries set on it in place:

- `retrieved_context`: the retrieved facts;
- `entities_detected`: the entities found in the claim;
- `confidence_scores`: one score per retrieval distance.

A reply that does not decode is replaced by a fixed four-field error report.
A reply that decodes to something other than an object makes
`check_claim` raise.

Modules:

- `PyStr` (py_str.dfy): the Python string operations the cleaning uses.
  These are `str.isspace`, `strip()`, `startswith`, and slicing with
  Python's clamping of negative and out-of-range bounds.
- `PyJson` (py_json.dfy): decoded JSON values, and a `Dict` class. `Dict`
  stands for the Python dict that `check_claim` updates with `d[key] = value`.
- `FactChecker` (fact_checker.dfy): the fence trim (`TrimFence`,
  `CleanResponse`), the report as a function (`ClaimReport`), and the
  step-by-step method `CheckClaim`, which is proved equal to it. It also
  holds the lemmas about both.
- `Scenarios` (scenarios.dfy): the end-to-end "the sky is green" scenario,
  and a truncated reply.

The services are parameters, not modelled:

- `parse` stands for `json.loads`; `None` is a `JSONDecodeError`.
- `extractEntities` stands for the spaCy extractor.
- `score` stands for `round(1 - d, 2)`.
- The raw reply text, the retrieved documents and their distances are
  plain inputs.

Three behaviours of the code are worth stating outright:

- Cleaning is not idempotent: a reply fenced twice loses only its outer
  fence (`DoubleFenceTrimmedOnce`).
- The last three characters of a fenced reply are cut without being
  checked (`ClosingFenceUnchecked`).
- Besides a decode failure, a reply that decodes to a non-object (an array,
  a string, a number) raises an uncaught `TypeError` at fact_checker.py:100
  (`Outcome.UncaughtTypeError`).

## Model

| member | source | states |
|---|---|---|
| PyStr.LeadingSpace | fact_checker.py:91 | the count of whitespace characters `strip()` removes from the front: all of them are whitespace and the next one is not |
| PyStr.TrailingSpace | fact_checker.py:91 | the count of whitespace characters `strip()` removes from the back: all of them are whitespace and the one before is not |
| PyStr.Strip | fact_checker.py:91 | `strip()` yields a contiguous piece of the reply with no whitespace at either end; only whitespace lies outside it; it is empty exactly when the reply is all whitespace |
| PyStr.StripPadded | fact_checker.py:91 | stripping whitespace padding off a text with non-space ends gives back exactly that text |
| PyStr.StripKeepsTrimmed | fact_checker.py:91 | a text with no whitespace at its ends is unchanged by `strip()` |
| PyStr.ClampIndex | fact_checker.py:93-95 | a slice bound becomes an index: negative bounds count from the end, and the result is clamped to 0..length |
| PyStr.Slice | fact_checker.py:93-95 | `s[a:b]` is never out of range; it is empty when the clamped stop is not past the clamped start; otherwise it is the characters between them |
| FactChecker.TrimJsonFence | fact_checker.py:92-93 | after a "```json" opening the first 7 and last 3 characters are cut; a reply of 10 or fewer characters leaves nothing |
| FactChecker.TrimPlainFence | fact_checker.py:94-95 | after a plain "```" opening (not "```json") the first 3 and last 3 characters are cut; 6 or fewer leave nothing |
| FactChecker.UnfencedKept | fact_checker.py:91-95 | a reply not opening with "```" reaches the decoder exactly as `strip()` left it |
| FactChecker.CleanKeepsPlainReply | fact_checker.py:91-95 | a reply with no whitespace at its ends whose first character is not a backtick reaches the decoder unchanged |
| FactChecker.JsonFenceTestedFirst | fact_checker.py:92-95 | the "```json" test comes before the plain test, so a "```json" reply never loses only 3 leading characters |
| FactChecker.CleanedIsInfix | fact_checker.py:91-95 | the cleaned text is a contiguous piece of the stripped reply and never longer; for a fenced reply it lies within the reply minus its last 3 characters |
| FactChecker.ClosingFenceUnchecked | fact_checker.py:93-95 | two fenced replies of 10 or more characters that differ only in their last 3 characters clean to the same text |
| FactChecker.DoubleFenceTrimmedOnce | fact_checker.py:91-95 | cleaning is not idempotent: a doubly fenced reply keeps its inner fence, which a second cleaning would remove |
| FactChecker.PaddedJsonFenceExample | fact_checker.py:91-93 | a "```json" fenced reply padded with newlines is stripped and loses its fence, keeping the inner newlines |
| FactChecker.JsonFenceExample | fact_checker.py:92-93 | "```json\n{}\n```" reaches the decoder as "\n{}\n" |
| FactChecker.PlainFenceExample | fact_checker.py:94-95 | "```\n{}\n```" reaches the decoder as "\n{}\n" |
| FactChecker.UnfencedExample | fact_checker.py:91 | an unfenced reply only loses its surrounding whitespace |
| FactChecker.ShortJsonFenceExample | fact_checker.py:92-93 | "```json```" leaves nothing to decode |
| PyJson.StringArray | fact_checker.py:100-101 | a list of strings as a JSON array: same length, element i is string i |
| PyJson.AsStringsOfStringArray | fact_checker.py:100-101 | a list of strings stored in the report reads back as the same list |
| PyJson.Dict.SetItem | fact_checker.py:100-102 | `d[key] = value` adds or overwrites that key and changes no other entry |
| FactChecker.ConfidenceScores | fact_checker.py:102 | one score per distance, the i-th score computed from the i-th distance |
| FactChecker.CheckClaim | fact_checker.py:91-110 | the clean-decode-update-in-place sequence yields exactly the outcome `ClaimReport` describes |
| FactChecker.DecodedObjectReport | fact_checker.py:97-103 | on a decoded object: its keys plus the three metadata keys; non-metadata entries unchanged; metadata overwrites same-named entries; context is the retrieved facts, entities come from the claim, one score per distance |
| FactChecker.ContextAndScoresAligned | fact_checker.py:100-102 | when the query returns as many distances as documents, context and scores have equal length and the i-th score pairs with the i-th fact |
| FactChecker.UndecodableReport | fact_checker.py:104-110 | on a decode failure the report has exactly `verdict`="Error", `reasoning`="Model output format error", `evidence_used`=[] and `raw_response`=the unstripped reply, and no metadata key |
| FactChecker.NonObjectRaises | fact_checker.py:97-104 | the outcome is an uncaught error exactly when the reply decodes to a non-object; metadata is present exactly when it decodes to an object |
| FactChecker.MetadataOnlyOnSuccess | fact_checker.py:98-110 | when the reply does not decode to an object, the outcome does not depend on the entity extractor, the retrieved facts, the distances or the score function |
| Scenarios.SkyIsGreenScenario | fact_checker.py:55-103 | with one fact "The sky is blue on a clear day." and a model answering "False", the report keeps the model's verdict "False" and its evidence list, and has that fact as its only context |
| Scenarios.SkyReplyReachesDecoder | fact_checker.py:91-95 | the mocked unfenced reply is decoded as it came |
| Scenarios.TruncatedReplyScenario | fact_checker.py:104-110 | the truncated reply "{verdict: True" that fails to decode yields verdict "Error", no evidence, and the reply kept under `raw_response` |
| Scenarios.TruncatedReplyReachesDecoder | fact_checker.py:91-95 | the truncated reply is unfenced and is decoded as it came |

## Left out

- Client setup, collection reset and model loading (fact_checker.py:10, 18-31): calls into third-party libraries and global state.
- `load_knowledge_base` (fact_checker.py:33-49): CSV input through pandas, embedding and a vector-index insert.
- Embedding the claim and the nearest-neighbour query (fact_checker.py:57-64): external services. Their first result rows (documents and distances) are inputs.
- `extract_entities` (fact_checker.py:51-53): a single spaCy call, modelled as an uninterpreted function from the claim to a list of strings. An exception it might raise is not modelled.
- Prompt construction and `generate_content` (fact_checker.py:67-88): a constant template and a network call. The raw reply text is an input. An exception from reading the reply's text is not modelled.
- `json.loads` (fact_checker.py:98): abstracted as `parse`. Exceptions other than `JSONDecodeError` (such as a recursion error on deep nesting) are not modelled.
- FactChecker.ConfidenceScores: `round(1 - d, 2)` is floating-point arithmetic. It is the uninterpreted `score`, so only the count and order of the scores are stated, not their values.
- Key order of the Python dict: the report is a `map`. Python keeps insertion order, with overwritten keys staying in place and new metadata keys appended. That order is not captured.
- Numbers: `json.loads` accepts NaN and the infinities and keeps integers apart from floats. `JNumber` holds one `real` and has no NaN or infinity. Decoded values only pass through the model, so no stated property depends on this.
- Lone surrogates: a Python `str` may hold them, but a Dafny `char` is a Unicode scalar value, so texts containing them are not modelled.
- Aliasing: `retrieved_context` holds the very list object the query returned. The model stores its value.
- app.py: the Streamlit interface that collects the API key and shows the report.
