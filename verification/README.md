# Price verification service — a Dafny model

This project models the core of an internet-plan price checker. `GeminiService` asks two
language models to read a provider's web page. It parses each answer into a verification
record and reconciles the two records. It retries failed attempts with exponential
backoff and caches confident results for an hour. A small ScrapeGraph helper picks the
"TOTAL RESULT" metrics entry out of a run's execution log.

Modules, leaves first:

- `Wrappers`: Option and Result.
- `Sequences`: associativity of concatenation, which the proofs cite.
- `Text`: the Python `str` operations the parser relies on:
  - `isspace` and `\s`;
  - `strip`;
  - `in`, `split(...)[0]` and `split(...)[1]`;
  - `join` and `str(int)`.
- `Values`: decoded JSON values with Python truthiness, the type names used in error
  texts, and `dict.get`.
- `Records`: the plan descriptor, the verification record, the error taxonomy, the
  record invariant and the cache-population rule.
- `DetailCleaner`: `_clean_plan_details`.
- `ResponseParser`:
  - `_parse_verification_response`, with every exception it can raise mapped by the
    three `except` clauses;
  - `_create_error_response`.
- `Backoff`: the delay formula of `_handle_retry_delay`.
- `Reconciliation`: one attempt of `verify_price`, which covers:
  - the two model answers;
  - the comparison;
  - the re-query of one model;
  - the choice among three answers by Python's `max`;
  - the "full retry" failure.
- `ResultCache`: `_generate_cache_key`, and the meaning of a lookup with lazy eviction.
- `Service`:
  - the class `GeminiService`, whose cache table is a `map` field updated in place by
    `GetCachedResult` and `CacheResult`;
  - `VerifyPrice`;
  - the retry loop `RunAttempts`, a `while` loop proved against the specification
    function `RunFrom`, whose properties are proved in `RunFromFacts`.
- `ScrapeGraphUtils`: `get_total_result_metrics`.

Everything the code takes from outside is a parameter:

- Clock readings are real seconds.
- `json.loads` and `float()` of a string are partial functions in a `Library` value.
- The model answers are an `AttemptScript` per attempt: the primary's reply, the
  secondary's reply, what each model replies if it is the one asked again, and the time
  the answers are parsed.

A reply is either the response text or the text of the exception the call raised. The
sleeps of the retry loop are returned as a list of delays in seconds.

Four behaviours of the code worth knowing:

- **Special-character runs.** The cleaner's pattern `[^a-zA-Z0-9\s](?=[^a-zA-Z0-9\s])`
  deletes every special character whose successor is also special. So the LAST
  character of each run survives, not the first (`LastOfRunSurvives`).
- **Idempotence of the cleaner.** It holds for every non-empty output
  (`CleanIdempotent`). The output is `""` exactly for a non-empty input whose first 50
  characters are all whitespace, such as a blank text or 50 spaces before any text
  (`CleansToEmptyIffBlankPrefix`). `""` is falsy, so cleaning it again gives the
  placeholder (`CleanNotIdempotentOnBlank`).
- **Promotion details.** The record's `promo_details` is read from the key `promo`.
  The answer schema never produces that key (`SchemaAnswerHasNoPromo`).
- **Cache hits.** A cache hit raises `TypeError` rather than returning the cached
  record; see Findings.

## Model

| member | source | states |
|---|---|---|
| Text.IsSpace | gemini_service_example.py:412-414 | the characters `str.isspace()` accepts, which are also what `\s` matches in a `str` pattern |
| Text.Strip | gemini_service_example.py:445 | the result is a prefix of the input with its leading whitespace dropped, only whitespace follows it there, and neither of its ends is whitespace |
| Text.FindFrom | gemini_service_example.py:441 | the result is the first index at or after the start where the pattern occurs, and there is none exactly when it occurs nowhere from there |
| Text.Contains | gemini_service_example.py:441 | `pat in s`: the search from the start of the text finds an occurrence |
| Text.Join | gemini_service_example.py:597 | `sep.join` of no parts is empty; otherwise it starts with the first part and is as long as the parts plus one separator between each two neighbours |
| Text.JoinPlacesParts | gemini_service_example.py:480 | in `sep.join(parts)` each part sits at the offset after the parts before it and one separator behind each, so every part occurs in the result |
| Text.JoinFour | gemini_service_example.py:597 | joining four parts puts the separator between each two neighbours |
| Text.NatToString | gemini_service_example.py:594-595 | the decimal digits of a natural number, without leading zeros, spell exactly that number |
| Text.IntToString | gemini_service_example.py:594-595 | `str(int)` is a minus sign exactly for a negative number, followed by decimal digits that spell its absolute value; so it never holds an underscore |
| Text.IntToStringInjective | gemini_service_example.py:594-595 | distinct integers print differently |
| Text.StripEmptyIffAllSpace | gemini_service_example.py:414 | `strip()` gives the empty string exactly for an all-whitespace text |
| Text.SplitHead | gemini_service_example.py:442 | `split(sep)[0]` is the longest prefix with no occurrence of the separator, ending exactly where the first occurrence starts |
| Text.SplitSecond | gemini_service_example.py:442 | `split(sep)[1]` fails (IndexError) exactly when the separator does not occur; otherwise it is the text after the first separator up to the next separator or the end |
| Values.Truthy | gemini_service_example.py:404 | the falsy values are exactly `None`, `False`, the zeros and the empty string, list and dictionary |
| Values.Get | gemini_service_example.py:461 | `dict.get` yields a value exactly when the key is present with a non-null value, and then that value |
| Values.TypeName | gemini_service_example.py:461 | `type(v).__name__` of each JSON value, as it appears in the texts of TypeError and AttributeError |
| Records.FailedRecord | gemini_service_example.py:562-587 | every error record is not verified, has zero confidence, no price, no promotion, no plan details and empty match details; it carries the given error type, message and date, keeps the threshold invariant and is never cacheable |
| DetailCleaner.IsSpecial | gemini_service_example.py:412 | a character of the class `[^a-zA-Z0-9\s]`: neither an ASCII letter or digit nor whitespace |
| DetailCleaner.Truncate | gemini_service_example.py:408 | `s[:50]` is the prefix of exactly 50 characters of a longer text, and the whole text otherwise |
| DetailCleaner.DropSpecialRuns | gemini_service_example.py:412 | the substitution never lengthens the text and keeps a leading non-special character in place |
| DetailCleaner.DropSpecialRunsKeepsPlain | gemini_service_example.py:412 | the substitution deletes only special characters: the non-special ones are all kept, in order |
| DetailCleaner.DropSpecialRunsLeavesNoAdjacent | gemini_service_example.py:412 | after the substitution no two special characters are adjacent |
| DetailCleaner.StripKeepsNoAdjacentSpecials | gemini_service_example.py:414 | stripping creates no adjacent special characters and never lengthens the text |
| DetailCleaner.PlaceholderIsClean | gemini_service_example.py:404-405 | the placeholder has at most 50 characters, no surrounding whitespace and no adjacent special characters |
| DetailCleaner.CleanPlanDetails | gemini_service_example.py:395-414 | a missing or empty input gives "No details available"; every result has at most 50 characters, no surrounding whitespace and no adjacent special characters |
| DetailCleaner.DropSpecialRunsKeepsClean | gemini_service_example.py:412 | a text without adjacent specials is left unchanged by the substitution |
| DetailCleaner.CleanIdempotent | gemini_service_example.py:395-414 | cleaning a non-empty cleaned text again gives the same text |
| DetailCleaner.DropSpecialRunsAllSpace | gemini_service_example.py:412 | the substitution's result is all whitespace exactly when its input is |
| DetailCleaner.CleansToEmptyIffBlankPrefix | gemini_service_example.py:404-414 | cleaning gives the empty string exactly for a non-empty input whose first 50 characters are all whitespace |
| DetailCleaner.CleanNotIdempotentOnBlank | gemini_service_example.py:404-414 | for every such input the result is the empty string, and cleaning that again gives the placeholder |
| DetailCleaner.SpacesBeforeTextCleanToEmpty | gemini_service_example.py:404-414 | 50 spaces before any text clean to the empty string, whatever the text |
| DetailCleaner.SpecialRunCollapses | gemini_service_example.py:412 | a text made only of special characters shrinks to its last character |
| DetailCleaner.DropSpecialRunsSplits | gemini_service_example.py:412 | the substitution distributes over a concatenation whose seam does not join two specials |
| DetailCleaner.LastOfRunSurvives | gemini_service_example.py:412 | a run of specials between non-special neighbours is replaced by its last character and the rest is cleaned independently |
| ResponseParser.ExtractJsonText | gemini_service_example.py:441-445 | text without a ```` ```json ```` fence is only stripped; with a fence, it fails with IndexError exactly when ```` ```json ```` is never followed by a newline; otherwise it is the stripped text after the first ```` ```json\n ```` up to the next ```` \n``` ```` or ```` ```json\n ````, or to the end; every extracted text is stripped |
| ResponseParser.CleanDetailsValue | gemini_service_example.py:461-464 | a missing or falsy value gives the placeholder, a string gives its cleaned form, and any other truthy value raises a non-ValueError exception |
| ResponseParser.NotStringError | gemini_service_example.py:408-412 | a truthy value that is not a string raises inside the slice or the regex, an exception only the catch-all clause handles |
| ResponseParser.MissingFields | gemini_service_example.py:467-468 | the list holds exactly the required keys absent from the data, and is empty exactly when all four are present |
| ResponseParser.MissingFromAgrees | gemini_service_example.py:468 | the missing-key list depends only on which of the listed keys are present |
| ResponseParser.ToFloat | gemini_service_example.py:485 | `float()` keeps floats, converts ints, maps `True`/`False` to 1.0/0.0, gives the parser's value for a string it accepts and ValueError for one it rejects, and rejects null, lists and dicts with TypeError |
| ResponseParser.PriceOf | gemini_service_example.py:486 | the price is absent exactly for a null value, and otherwise is `float()` of the value or its exception |
| ResponseParser.EnforceThreshold | gemini_service_example.py:495-508 | a record stays verified exactly when it was verified with confidence at least 0.8; a demoted record gets LOW_CONFIDENCE and the fixed message; any other record is unchanged |
| ResponseParser.CoerceFields | gemini_service_example.py:482-508 | the record is built exactly when `float()` accepts the confidence and the price; a rejected confidence gives its exception, and otherwise a rejected price gives its own; it has confidence and price as `float()` gives them, is verified only when truthy and at least 0.8, gets LOW_CONFIDENCE exactly for a truthy claim below 0.8, and takes its promotion from `promo` and its match details from `match_criteria` |
| ResponseParser.CoerceRecord | gemini_service_example.py:467-492 | with a required key missing the result is the ValueError naming the missing keys; with all four present it is the coercion of their values |
| ResponseParser.BuildRecord | gemini_service_example.py:458-464 | a failing cleaning gives its exception, that of `plan_details` first; once both cleanings succeed, writing them back into the dictionary changes nothing the record reads except `plan_details`, which becomes the cleaned string |
| ResponseParser.CoerceIgnoresDetails | gemini_service_example.py:461-468 | overwriting `plan_details` and `promotion_details` does not change the required-key check or any coerced field |
| ResponseParser.Decode | gemini_service_example.py:441-492 | every record decoded from a text keeps the threshold invariant, is dated at parse time, and has no error type or LOW_CONFIDENCE |
| ResponseParser.ParseVerificationResponse | gemini_service_example.py:416-560 | the parser never raises; every record keeps the threshold invariant and is dated at parse time; VERIFICATION_FAILED never comes out of it; every INVALID_JSON, VALIDATION_ERROR and PROCESSING_ERROR record has the fixed failure shape |
| ResponseParser.DecodedParse | gemini_service_example.py:458-522 | once the text decodes to a dictionary, the parser returns what the cleaning and coercion steps build |
| ResponseParser.UndecodableIsInvalidJson | gemini_service_example.py:524-535 | text that `json.loads` rejects gives INVALID_JSON with the fixed message |
| ResponseParser.UnterminatedFenceIsProcessingError | gemini_service_example.py:441-442 | a fence with no newline after ```` ```json ```` gives PROCESSING_ERROR with the IndexError text |
| ResponseParser.NonObjectIsProcessingError | gemini_service_example.py:461 | decoded JSON that is not an object gives PROCESSING_ERROR |
| ResponseParser.MissingKeysIsValidationError | gemini_service_example.py:467-480 | an object lacking a required key gives a VALIDATION_ERROR failure record naming exactly the missing keys |
| ResponseParser.MissingMessageNamesEveryKey | gemini_service_example.py:467-480 | every required key the data lacks occurs in the VALIDATION_ERROR message |
| ResponseParser.NonStringDetailsIsProcessingError | gemini_service_example.py:461 | a truthy `plan_details` that is not a string gives PROCESSING_ERROR with the text of the exception the cleaning raised |
| ResponseParser.RejectedPriceErrors | gemini_service_example.py:485-486 | with the keys present and the confidence accepted, a rejected price gives VALIDATION_ERROR for an unparsable string and PROCESSING_ERROR for any other value |
| ResponseParser.LowConfidenceIsDemoted | gemini_service_example.py:495-508 | a verification claim below 0.8 comes back unverified with LOW_CONFIDENCE, keeping its confidence and match details |
| ResponseParser.SchemaAnswerHasNoPromo | gemini_service_example.py:487 | an answer using only the schema's keys always has no promotion details |
| ResponseParser.MalformedJsonExample | gemini_service_example.py:524-535 | the text `not json` gives INVALID_JSON |
| Backoff.RetryDelay | gemini_service_example.py:665 | the delay is the exponential `30 * 2^attempt` or the 300-second cap, whichever is smaller |
| Backoff.RetryDelayMonotone | gemini_service_example.py:665 | delays never decrease as the attempt number grows |
| Backoff.RetryDelaySchedule | gemini_service_example.py:665 | the schedule is 60, 120, 240 seconds, then 300 from the fourth failure on |
| Reconciliation.MatchesOriginal | gemini_service_example.py:240-241 | a record matches when an advertised price is given and the record's price equals it |
| Reconciliation.Decide | gemini_service_example.py:220-280 | equal prices are agreement, picking the more confident record and the primary on a tie; unequal confidence re-queries the less confident model; at equal confidence the model missing the advertised price is re-queried when exactly one hits it, and otherwise the attempt needs a full retry |
| Reconciliation.FirstMaxIndex | gemini_service_example.py:277 | `max` with a key returns a record of maximal confidence that is strictly more confident than every record before it |
| Reconciliation.SelectAfterRequery | gemini_service_example.py:273-277 | the answer chosen after a re-query is one of the three and at least as confident as each; the primary wins when it ties or beats both, the secondary when it beats the primary and ties or beats the re-query, and the re-query only when it beats both |
| Reconciliation.RequeryWinsOnlyIfStrictlyBetter | gemini_service_example.py:277 | the re-queried answer wins exactly when it beats both first answers strictly; the primary wins exactly when it ties or beats both |
| Reconciliation.RequeryReply | gemini_service_example.py:273 | the reply of the model `Decide` chose to ask again |
| Reconciliation.Attempt | gemini_service_example.py:184-297 | a failed call makes the attempt fail with its message, the primary's checked first; with both answers parsed, agreement succeeds with the record `Decide` chose, a full retry fails with the fixed message, and a re-query fails with the chosen model's call error or succeeds with the first most confident of the three records; every success keeps the threshold invariant, is dated at parse time and is never VERIFICATION_FAILED |
| Reconciliation.Answered | gemini_service_example.py:482-508 | a parsed answer with the given price and confidence that claimed verification, as the threshold check leaves it: verified exactly from 0.8 on, keeping the threshold invariant |
| Reconciliation.AgreementExample | gemini_service_example.py:278-283 | agreement at 89.0 with confidences 0.85 and 0.90 keeps the 0.90 answer; a 0.8 record is not cached and a 0.85 one is |
| Reconciliation.DisagreementExamples | gemini_service_example.py:235-262 | the worked cases of disagreement: the less confident model, or the model missing the advertised 89.0, is re-queried; equal confidence with neither or both matching needs a full retry |
| ResultCache.RenderSpeedInjective | gemini_service_example.py:594-595 | distinct speeds, a missing one included, give distinct parts of the key |
| ResultCache.CacheKey | gemini_service_example.py:589-597 | the key is URL, plan name, download and upload speed joined by `_`, a missing field rendering as `None` |
| ResultCache.CacheKeyIgnoresPrice | gemini_service_example.py:589-597 | the advertised price has no effect on the key |
| ResultCache.CacheKeyNotInjective | gemini_service_example.py:589-597 | distinct requests can share a key: an underscore inside a field, or a plan named "None" against a missing name |
| ResultCache.Live | gemini_service_example.py:603-604 | an entry is live while its age is below the timeout |
| ResultCache.Lookup | gemini_service_example.py:599-618 | a lookup yields the stored record exactly when the key is present and younger than the timeout |
| ResultCache.AfterLookup | gemini_service_example.py:601-631 | a lookup deletes the key's entry exactly when it has expired and leaves every other entry untouched |
| ResultCache.StoredRecordExpires | gemini_service_example.py:599-647 | a stored record is returned unchanged until the timeout; from then on the lookup misses and removes only that entry |
| Service.Outcomes | gemini_service_example.py:184-297 | one outcome per scripted attempt, and every successful one keeps the threshold invariant and is not VERIFICATION_FAILED |
| Service.RunFrom | gemini_service_example.py:180-340 | the retry loop from attempt k on makes as many attempts as it sleeps, or one more (`RunFromFacts` says which), and stamps a record for the cache only when it qualifies |
| Service.Run | gemini_service_example.py:180-340 | the whole retry loop returns a record keeping the threshold invariant |
| Service.RunFromFacts | gemini_service_example.py:180-340 | the retry loop spends at most the budget; the i-th sleep is the delay for failure i+1 and follows a failed attempt; the loop either spends the whole budget on failures and returns VERIFICATION_FAILED with the last failure's message, or returns the first success, to be cached exactly when it qualifies |
| Service.RunExhausted | gemini_service_example.py:183-340 | when every attempt fails, exactly `retry_count` attempts and sleeps happen, one VERIFICATION_FAILED record carries the last message, and nothing is cached |
| Service.RunWithoutBudget | gemini_service_example.py:180-340 | a budget of zero or less makes no attempt, sleeps nothing, and returns VERIFICATION_FAILED with no message |
| Service.RunSucceedsAt | gemini_service_example.py:183-317 | when the first k attempts fail and attempt k succeeds, its record is returned after k sleeps, and it is cached with that attempt's time exactly when verified above 0.8 |
| Service.DefaultBudgetExhausted | gemini_service_example.py:299-317 | with the default two attempts both failing, the sleeps are 60 then 120 seconds and the result is VERIFICATION_FAILED |
| Service.RunRecordQualifies | gemini_service_example.py:180-340 | the record the loop returns keeps the threshold invariant and is stamped for the cache only if it qualifies |
| Service.RunFromFailedStep | gemini_service_example.py:299-317 | a failed attempt within the budget adds its delay in front of the remaining sleeps and becomes the last failure |
| Service.AttemptAt | gemini_service_example.py:184-297 | the attempt run for index i is the i-th of the outcomes the loop is specified over |
| Service.RunAttempts | gemini_service_example.py:180-340 | the loop returns the record, sleeps and cache stamp of the retry specification; the record keeps the threshold invariant and is stamped for the cache only when cacheable |
| Service.FloatMinus | gemini_service_example.py:167 | a float minus a float is a float; a float minus a `datetime` raises |
| Service.CacheHitAsWritten | gemini_service_example.py:160-170 | the cache-hit branch as written returns, when it returns at all, the cached record |
| Service.CacheHitAlwaysRaises | gemini_service_example.py:167 | as written, every cache hit raises instead of returning |
| Service.GeminiService.constructor | gemini_service_example.py:106-108 | the service starts with an empty cache and the given timeout |
| Service.GeminiService.WithDefaultTimeout | gemini_service_example.py:22 | without an argument the timeout is one hour (3600 seconds) and the cache is empty |
| Service.GeminiService.GetCachedResult | gemini_service_example.py:599-642 | returns the live record for the key and deletes the entry if it has expired, leaving the rest of the table alone; the table keeps holding only cacheable records |
| Service.GeminiService.CacheResult | gemini_service_example.py:644-647 | stores a cacheable record with the current time, replacing any entry for the key; the table keeps holding only cacheable records |
| Service.GeminiService.VerifyPrice | gemini_service_example.py:110-340 | a live cache entry is returned with no attempt and the table unchanged; otherwise the result and sleeps are those of the retry loop, the expired entry is evicted, and a qualifying result is stored under the key; the table holds only cacheable records throughout |
| ScrapeGraphUtils.IsTotalResult | src/scrapegraph_LLM_utils.py:52 | an entry is the total when its `node_name` is the string "TOTAL RESULT" |
| ScrapeGraphUtils.GetTotalResultMetrics | src/scrapegraph_LLM_utils.py:51-54 | the result is an entry of the list named "TOTAL RESULT", and there is none exactly when no entry has that name |
| ScrapeGraphUtils.TotalResultIsFirstMatch | src/scrapegraph_LLM_utils.py:51-54 | the entry returned is the earliest with that name |

## Left out

- Logging, correlation and request ids, and the timing measurements are not modelled, because they do not affect any result. The exception is the cache-hit log line, which does (see Findings).
- `_create_verification_prompt`, the model configuration in `__init__` and the `generate_content` calls are not modelled. The prompt and the replies are scripted inputs.
- The actual sleeping is not modelled: the delays are returned instead.
- Concurrency is not modelled. When both gathered model calls raise, the model reports the primary's exception; in the source, the one that finishes first propagates.
- Reply: a failure of the model call and a failure of reading `.text` are treated the same.
- `json.loads` and `float()` of a string are oracles. Floats are reals, so rounding, NaN, infinities and `OverflowError` from huge ints are not modelled.
- Records.ThresholdInvariant: holds in the model only because confidences are reals. In the source, `json.loads` accepts `NaN` and `float("nan")` parses, and `nan < 0.8` is false (gemini_service_example.py:495). So an answer with `"verified": true, "confidence": NaN` comes back verified with a NaN confidence, undemoted. Such a record is never cached, since `nan > 0.8` is false too.
- ResponseParser.ToFloat: the ValueError text quotes the string between single quotes. Python uses `repr`, which may choose double quotes or escape characters.
- ResponseParser.MissingFields: the missing keys are listed in the order price, verified, confidence, match_criteria. Python iterates a set here, whose order depends on string hashing.
- Records.PlanDescriptor: the plan name is a string, the speeds are ints, and the advertised price is a float. Other value types in the caller's dictionary are not modelled.
- Service.GeminiService.CacheResult: the stamp is the time of the successful attempt, one clock reading per attempt. In the source, `_cache_result` reads `datetime.now()` once more.
- Service.GeminiService.VerifyPrice: the returned record and the cached one are values, so the sharing of one dictionary between the caller and the cache is not modelled.
- The rest of `src/scrapegraph_LLM_utils.py` (configuration builders) is not part of this model.

## Findings

| source | as written | input that shows it | evidently intended | confidence | as-written member | corrected member |
|---|---|---|---|---|---|---|
| gemini_service_example.py:167 | the cache-hit log line computes `time.time() - cached_result.get('verification_date', 0)`, a float minus the record's `datetime`, which raises `TypeError` outside the `try`, so `verify_price` raises | a second `verify_price` call for the same URL, plan name and speeds within the timeout after a result verified above 0.8 was cached | return the cached record (the age being that of the stored entry) | high, not executed | Service.CacheHitAlwaysRaises | Service.GeminiService.VerifyPrice |
