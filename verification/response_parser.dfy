/** `_parse_verification_response` and `_create_error_response`: turn a model's raw text
    into a verification record. The steps run in the source's order (fence extraction,
    strip, decode, clean `plan_details` and `promotion_details`, required keys, coercions,
    threshold); each may raise, and the raise is mapped to a failure record by the class
    of the exception, as the three `except` clauses do. */
module ResponseParser {
  import opened Wrappers
  import opened Text
  import opened Values
  import opened Records
  import opened DetailCleaner

  /** What the parser takes from Python's libraries: `json.loads` and `float()` of a
      `str`, each partial (None where they raise). */
  datatype Library = Library(jsonLoads: string -> Option<Value>, parseFloat: string -> Option<real>)

  /** The three exception classes the parser's `try` statement tells apart:
      `json.JSONDecodeError`, `ValueError`, and any other `Exception`, with its text. */
  datatype Exception = JsonDecodeError | ValueError(message: string) | OtherError(message: string)

  const JsonFence: string := "```json"
  const JsonFenceLine: string := "```json\n"
  const FenceClose: string := "\n```"
  const RequiredFields: seq<string> := ["price", "verified", "confidence", "match_criteria"]
  const InvalidJsonMessage: string := "Failed to parse JSON response"
  const LowConfidenceMessage: string := "Confidence score below threshold"
  const ProcessingPrefix: string := "Failed to process response: "
  const MissingPrefix: string := "Missing required fields: "
  const IndexErrorMessage: string := "list index out of range"
  const FloatArgumentPrefix: string := "float() argument must be a string or a real number, not "

  /** The keys of the JSON shape the prompt and the tool schema ask the models for. */
  const SchemaKeys: set<string> := {"plan_name", "price", "price_string", "download_speed",
    "upload_speed", "promotion_details", "plan_details", "verified", "confidence", "match_criteria"}

  /** An occurrence of ```` ```json\n ```` is an occurrence of ```` ```json ````. */
  lemma FenceLineHasFence(text: string)
    ensures Contains(text, JsonFenceLine) ==> Contains(text, JsonFence)
  {
    if Contains(text, JsonFenceLine) {
      var i := FindFrom(text, JsonFenceLine, 0).value;
      assert text[i..i + |JsonFence|] == text[i..i + |JsonFenceLine|][..|JsonFence|];
      assert OccursAt(text, JsonFence, i);
    }
  }

  /** The markdown preprocessing: with a ```` ```json ```` fence, the text that follows
      the first ```` ```json\n ````, up to the next ```` \n``` ```` or the next
      ```` ```json\n ````, whichever comes first, or to the end; then strip. */
  function ExtractJsonText(text: string): (r: Result<string, Exception>)
    ensures r.Ok? ==> Stripped(r.value)
    ensures !Contains(text, JsonFence) ==> r == Ok(Strip(text))
    ensures r.Err? <==> Contains(text, JsonFence) && !Contains(text, JsonFenceLine)
    ensures r.Err? ==> r.error == OtherError(IndexErrorMessage)
    ensures Contains(text, JsonFenceLine) ==>
      var start := FindFrom(text, JsonFenceLine, 0).value + |JsonFenceLine|;
      r == Ok(Strip(SplitHead(SplitHead(text[start..], JsonFenceLine), FenceClose)))
  {
    FenceLineHasFence(text);
    if !Contains(text, JsonFence) then Ok(Strip(text))
    else if !Contains(text, JsonFenceLine) then Err(OtherError(IndexErrorMessage))
    else Ok(Strip(SplitHead(SplitSecond(text, JsonFenceLine).value, FenceClose)))
  }

  /** `_clean_plan_details` applied to `data.get(key)`, whatever JSON value that is: a
      falsy value gives the placeholder, a `str` is cleaned, and any other truthy value
      raises inside the slice or the regex (texts as CPython 3.12 words them). */
  function CleanDetailsValue(v: Option<Value>): (r: Result<string, Exception>)
    ensures r.Ok? ==> |r.value| <= MaxLength && Stripped(r.value) && NoAdjacentSpecials(r.value)
    ensures v.None? || !Truthy(v.value) ==> r == Ok(Placeholder)
    ensures v.Some? && v.value.Str? ==> r == Ok(CleanPlanDetails(Some(v.value.s)))
    ensures r.Err? <==> v.Some? && Truthy(v.value) && !v.value.Str?
    ensures r.Err? ==> r.error.OtherError?
  {
    match v
    case None => Ok(CleanPlanDetails(None))
    case Some(x) =>
      if x.Str? then Ok(CleanPlanDetails(Some(x.s)))
      else if !Truthy(x) then Ok(CleanPlanDetails(None))
      else Err(NotStringError(x))
  }

  const RegexOnListMessage: string := "expected string or bytes-like object, got 'list'"
  const SliceKeyMessage: string := "slice(None, 50, None)"

  /** What `details[:50]` or the regex raises on a value that is not a `str`: a list
      slices fine and fails in `re.sub`, a dict fails on the slice key, anything else is
      not subscriptable. */
  function NotStringError(x: Value): (e: Exception)
    ensures e.OtherError?
  {
    match x
    case List(_) => OtherError(RegexOnListMessage)
    case Dict(_) => OtherError(SliceKeyMessage)
    case _ => OtherError("'" + TypeName(x) + "' object is not subscriptable")
  }

  /** The names in `fields` that are not keys of `data`, in order. */
  function MissingFrom(fields: seq<string>, data: map<string, Value>): (m: seq<string>)
    ensures forall f :: f in m <==> f in fields && f !in data
  {
    if fields == [] then []
    else (if fields[0] in data then [] else [fields[0]]) + MissingFrom(fields[1..], data)
  }

  function MissingFields(data: map<string, Value>): (m: seq<string>)
    ensures forall f :: f in m <==> f in RequiredFields && f !in data
    ensures m == [] <==> forall f :: f in RequiredFields ==> f in data
  {
    var m := MissingFrom(RequiredFields, data);
    assert m != [] ==> m[0] in m;
    m
  }

  /** The VALIDATION_ERROR message names every required key the data lacks. */
  lemma MissingMessageNamesEveryKey(data: map<string, Value>, f: string)
    requires f in RequiredFields && f !in data
    ensures exists j :: OccursAt(MissingPrefix + Join(MissingFields(data), ", "), f, j)
  {
    var m := MissingFields(data);
    var i :| 0 <= i < |m| && m[i] == f;
    JoinPlacesParts(m, ", ", i);
    OccursAfter(MissingPrefix, Join(m, ", "), f, PartOffset(m, ", ", i));
  }

  /** The missing-key list depends only on which of the listed names are keys. */
  lemma {:induction false} MissingFromAgrees(fields: seq<string>, d1: map<string, Value>, d2: map<string, Value>)
    requires forall f :: f in fields ==> (f in d1 <==> f in d2)
    ensures MissingFrom(fields, d1) == MissingFrom(fields, d2)
  {
    if fields != [] {
      MissingFromAgrees(fields[1..], d1, d2);
    }
  }

  /** `float(v)`: numbers and booleans convert, a `str` goes through the library parser
      and raises ValueError when that fails, anything else raises TypeError. */
  function ToFloat(lib: Library, v: Value): (r: Result<real, Exception>)
    ensures r.Err? <==> v.Null? || v.List? || v.Dict? || (v.Str? && lib.parseFloat(v.s).None?)
    ensures r.Err? && r.error.ValueError? <==> v.Str? && lib.parseFloat(v.s).None?
    ensures r.Err? ==> !r.error.JsonDecodeError?
    ensures v.Float? ==> r == Ok(v.f)
    ensures v.Int? ==> r == Ok(v.i as real)
    ensures v.Bool? ==> r == Ok(if v.b then 1.0 else 0.0)
    ensures v.Str? && lib.parseFloat(v.s).Some? ==> r == Ok(lib.parseFloat(v.s).value)
  {
    match v
    case Null => Err(OtherError(FloatArgumentPrefix + "'" + TypeName(v) + "'"))
    case Bool(b) => Ok(if b then 1.0 else 0.0)
    case Int(i) => Ok(i as real)
    case Float(f) => Ok(f)
    case Str(s) =>
      (match lib.parseFloat(s)
       case None => Err(ValueError("could not convert string to float: '" + s + "'"))
       case Some(x) => Ok(x))
    case List(_) => Err(OtherError(FloatArgumentPrefix + "'" + TypeName(v) + "'"))
    case Dict(_) => Err(OtherError(FloatArgumentPrefix + "'" + TypeName(v) + "'"))
  }

  /** `float(data['price']) if data['price'] is not None else None` */
  function PriceOf(lib: Library, v: Value): (r: Result<Option<real>, Exception>)
    ensures r == Ok(None) <==> v == Null
    ensures v != Null ==> (r.Ok? <==> ToFloat(lib, v).Ok?)
    ensures r.Ok? && v != Null ==> r.value == Some(ToFloat(lib, v).value)
    ensures r.Err? ==> r.error == ToFloat(lib, v).error
  {
    if v == Null then Ok(None)
    else
      match ToFloat(lib, v)
      case Err(e) => Err(e)
      case Ok(x) => Ok(Some(x))
  }

  /** The threshold check: a verified record below 0.8 is demoted. */
  function EnforceThreshold(r: Record): (t: Record)
    ensures ThresholdInvariant(t) || r.errorType != None
    ensures t.verified <==> r.verified && r.confidenceScore >= ConfidenceThreshold
    ensures r.verified && r.confidenceScore < ConfidenceThreshold ==>
              t == r.(verified := false, errorType := Some(LowConfidence), error := Some(LowConfidenceMessage))
    ensures !(r.verified && r.confidenceScore < ConfidenceThreshold) ==> t == r
  {
    if r.verified && r.confidenceScore < ConfidenceThreshold then
      r.(verified := false, errorType := Some(LowConfidence), error := Some(LowConfidenceMessage))
    else r
  }

  /** The coercions and the threshold, from the values of `verified`, `confidence`,
      `price`, `promo` and `match_criteria`; `float(confidence)` is evaluated before
      `float(price)`, so its exception wins. */
  function CoerceFields(lib: Library, verified: Value, confidence: Value, price: Value, promo: Option<Value>,
                        matchCriteria: Value, plan: string, at: real): (b: Result<Record, Exception>)
    ensures b.Ok? <==> ToFloat(lib, confidence).Ok? && PriceOf(lib, price).Ok?
    ensures ToFloat(lib, confidence).Err? ==> b == Err(ToFloat(lib, confidence).error)
    ensures ToFloat(lib, confidence).Ok? && PriceOf(lib, price).Err? ==> b == Err(PriceOf(lib, price).error)
    ensures b.Ok? ==> ThresholdInvariant(b.value) && b.value.verificationDate == at
    ensures b.Ok? ==> ToFloat(lib, confidence) == Ok(b.value.confidenceScore)
    ensures b.Ok? ==> PriceOf(lib, price) == Ok(b.value.currentPrice)
    ensures b.Ok? ==> (b.value.verified <==> Truthy(verified) && b.value.confidenceScore >= ConfidenceThreshold)
    ensures b.Ok? ==>
      (b.value.errorType == Some(LowConfidence) <==> Truthy(verified) && b.value.confidenceScore < ConfidenceThreshold)
    ensures b.Ok? ==> b.value.errorType == None || b.value.errorType == Some(LowConfidence)
    ensures b.Ok? && b.value.errorType == None ==> b.value.error == None
    ensures b.Ok? && b.value.errorType == Some(LowConfidence) ==> b.value.error == Some(LowConfidenceMessage)
    ensures b.Ok? ==> b.value.promoDetails == promo && b.value.matchDetails == matchCriteria
    ensures b.Ok? ==> b.value.planDetails == Some(plan)
    ensures b.Err? ==> !b.error.JsonDecodeError?
  {
    match ToFloat(lib, confidence)
    case Err(e) => Err(e)
    case Ok(c) =>
      match PriceOf(lib, price)
      case Err(e) => Err(e)
      case Ok(p) =>
        Ok(EnforceThreshold(Record(Truthy(verified), c, p, promo, Some(plan), at, None, None, matchCriteria)))
  }

  /** The required-key check, then the coercions, on the dictionary as it stands after
      the cleanings; `plan` is the cleaned `plan_details` written into it. */
  function CoerceRecord(lib: Library, data: map<string, Value>, plan: string, at: real): (b: Result<Record, Exception>)
    ensures b.Ok? ==> forall f :: f in RequiredFields ==> f in data
    ensures MissingFields(data) != [] ==> b == Err(ValueError(MissingPrefix + Join(MissingFields(data), ", ")))
    ensures MissingFields(data) == [] ==>
      b == CoerceFields(lib, data["verified"], data["confidence"], data["price"], Get(data, "promo"),
                        data["match_criteria"], plan, at)
    ensures b.Err? ==> !b.error.JsonDecodeError?
  {
    var missing := MissingFields(data);
    if missing != [] then Err(ValueError(MissingPrefix + Join(missing, ", ")))
    else CoerceFields(lib, data["verified"], data["confidence"], data["price"], Get(data, "promo"),
                      data["match_criteria"], plan, at)
  }

  /** Everything after `json.loads` for a decoded dictionary: the two cleanings, whose
      results are written back into the dictionary (so `data.get('plan_details')` is the
      cleaned string afterwards), then CoerceRecord. */
  function BuildRecord(lib: Library, decoded: map<string, Value>, at: real): (b: Result<Record, Exception>)
    ensures CleanDetailsValue(Get(decoded, "plan_details")).Err? ==>
              b == Err(CleanDetailsValue(Get(decoded, "plan_details")).error)
    ensures CleanDetailsValue(Get(decoded, "plan_details")).Ok?
            && CleanDetailsValue(Get(decoded, "promotion_details")).Err? ==>
              b == Err(CleanDetailsValue(Get(decoded, "promotion_details")).error)
    ensures b.Ok? ==> CleanDetailsValue(Get(decoded, "plan_details")).Ok?
    ensures b.Ok? ==> CleanDetailsValue(Get(decoded, "promotion_details")).Ok?
    ensures b.Ok? ==> b.value.planDetails == Some(CleanDetailsValue(Get(decoded, "plan_details")).value)
    ensures (CleanDetailsValue(Get(decoded, "plan_details")).Ok?
             && CleanDetailsValue(Get(decoded, "promotion_details")).Ok?) ==>
           b == CoerceRecord(lib, decoded, CleanDetailsValue(Get(decoded, "plan_details")).value, at)
    ensures b.Err? ==> !b.error.JsonDecodeError?
  {
    match CleanDetailsValue(Get(decoded, "plan_details"))
    case Err(e) => Err(e)
    case Ok(plan) =>
      match CleanDetailsValue(Get(decoded, "promotion_details"))
      case Err(e) => Err(e)
      case Ok(promotion) =>
        var data := decoded["plan_details" := Str(plan)]["promotion_details" := Str(promotion)];
        CoerceIgnoresDetails(lib, decoded, plan, promotion, at);
        CoerceRecord(lib, data, plan, at)
  }

  /** Overwriting `plan_details` and `promotion_details` leaves what CoerceRecord reads
      unchanged. */
  lemma CoerceIgnoresDetails(lib: Library, decoded: map<string, Value>, plan: string, promotion: string, at: real)
    ensures var data := decoded["plan_details" := Str(plan)]["promotion_details" := Str(promotion)];
      CoerceRecord(lib, data, plan, at) == CoerceRecord(lib, decoded, plan, at)
  {
    var data := decoded["plan_details" := Str(plan)]["promotion_details" := Str(promotion)];
    MissingFromAgrees(RequiredFields, data, decoded);
    assert Get(data, "promo") == Get(decoded, "promo");
  }

  /** From the raw text to a record or the exception the source would raise. */
  function Decode(lib: Library, text: string, at: real): (d: Result<Record, Exception>)
    ensures d.Ok? ==> ThresholdInvariant(d.value) && d.value.verificationDate == at
    ensures d.Ok? ==> d.value.errorType == None || d.value.errorType == Some(LowConfidence)
  {
    match ExtractJsonText(text)
    case Err(e) => Err(e)
    case Ok(body) =>
      match lib.jsonLoads(body)
      case None => Err(JsonDecodeError)
      case Some(data) =>
        if data.Dict? then BuildRecord(lib, data.fields, at)
        else Err(OtherError("'" + TypeName(data) + "' object has no attribute 'get'"))
  }

  /** `_parse_verification_response`: never raises. Every record it returns keeps the
      threshold invariant; every failure record has the fixed failure shape; the
      orchestrator's error type never comes out of it. */
  function ParseVerificationResponse(lib: Library, text: string, at: real): (r: Record)
    ensures ThresholdInvariant(r)
    ensures r.verificationDate == at
    ensures r.errorType != Some(VerificationFailed)
    ensures (r.errorType == Some(InvalidJson) || r.errorType == Some(ValidationError)
             || r.errorType == Some(ProcessingError)) ==> FailureShaped(r)
  {
    match Decode(lib, text, at)
    case Ok(record) => record
    case Err(JsonDecodeError) => FailedRecord(InvalidJson, Some(InvalidJsonMessage), at)
    case Err(ValueError(m)) => FailedRecord(ValidationError, Some(m), at)
    case Err(OtherError(m)) => FailedRecord(ProcessingError, Some(ProcessingPrefix + m), at)
  }

  /** The text reaches `json.loads` and decodes to the dictionary `decoded`. */
  predicate DecodesTo(lib: Library, text: string, decoded: map<string, Value>) {
    ExtractJsonText(text).Ok? && lib.jsonLoads(ExtractJsonText(text).value) == Some(Dict(decoded))
  }

  /** Once the text decodes to a dictionary, the parser's result is what BuildRecord
      gives, or the failure record for the exception it raised. */
  lemma DecodedParse(lib: Library, text: string, at: real, decoded: map<string, Value>)
    requires DecodesTo(lib, text, decoded)
    ensures Decode(lib, text, at) == BuildRecord(lib, decoded, at)
    ensures BuildRecord(lib, decoded, at).Ok? ==>
      ParseVerificationResponse(lib, text, at) == BuildRecord(lib, decoded, at).value
  {
  }

  /** A text that does not decode gives INVALID_JSON. */
  lemma UndecodableIsInvalidJson(lib: Library, text: string, at: real)
    requires ExtractJsonText(text).Ok? && lib.jsonLoads(ExtractJsonText(text).value).None?
    ensures ParseVerificationResponse(lib, text, at)
         == FailedRecord(InvalidJson, Some(InvalidJsonMessage), at)
  {
  }

  /** A ```` ```json ```` fence not followed by a newline makes `split(...)[1]` fail with
      IndexError, which the catch-all clause turns into PROCESSING_ERROR. */
  lemma UnterminatedFenceIsProcessingError(lib: Library, text: string, at: real)
    requires Contains(text, JsonFence) && !Contains(text, JsonFenceLine)
    ensures ParseVerificationResponse(lib, text, at)
         == FailedRecord(ProcessingError, Some(ProcessingPrefix + IndexErrorMessage), at)
  {
  }

  /** Decoded JSON that is not an object fails at `data.get` with AttributeError. */
  lemma NonObjectIsProcessingError(lib: Library, text: string, at: real)
    requires ExtractJsonText(text).Ok?
    requires var v := lib.jsonLoads(ExtractJsonText(text).value); v.Some? && !v.value.Dict?
    ensures ParseVerificationResponse(lib, text, at).errorType == Some(ProcessingError)
  {
  }

  /** A decoded object without some required key gives VALIDATION_ERROR naming every
      missing key (once the two cleanings, which run first, have succeeded). */
  lemma MissingKeysIsValidationError(lib: Library, text: string, at: real, decoded: map<string, Value>)
    requires DecodesTo(lib, text, decoded)
    requires CleanDetailsValue(Get(decoded, "plan_details")).Ok?
    requires CleanDetailsValue(Get(decoded, "promotion_details")).Ok?
    requires exists f :: f in RequiredFields && f !in decoded
    ensures var r := ParseVerificationResponse(lib, text, at);
      r.errorType == Some(ValidationError) && FailureShaped(r)
      && r.error == Some(MissingPrefix + Join(MissingFields(decoded), ", "))
    ensures forall f :: f in RequiredFields && f !in decoded <==> f in MissingFields(decoded)
  {
    DecodedParse(lib, text, at, decoded);
  }

  /** A truthy `plan_details` that is not a string makes the cleaning raise, and the
      catch-all clause turns that into PROCESSING_ERROR. */
  lemma NonStringDetailsIsProcessingError(lib: Library, text: string, at: real, decoded: map<string, Value>)
    requires DecodesTo(lib, text, decoded)
    requires "plan_details" in decoded
    requires Truthy(decoded["plan_details"]) && !decoded["plan_details"].Str?
    ensures ParseVerificationResponse(lib, text, at)
         == FailedRecord(ProcessingError, Some(ProcessingPrefix + NotStringError(decoded["plan_details"]).message), at)
  {
    DecodedParse(lib, text, at, decoded);
  }

  /** With the required keys present and the confidence accepted, a price `float()`
      rejects gives VALIDATION_ERROR when it is an unparsable string (ValueError) and
      PROCESSING_ERROR otherwise (TypeError). */
  lemma RejectedPriceErrors(lib: Library, text: string, at: real, decoded: map<string, Value>)
    requires DecodesTo(lib, text, decoded)
    requires CleanDetailsValue(Get(decoded, "plan_details")).Ok?
    requires CleanDetailsValue(Get(decoded, "promotion_details")).Ok?
    requires "price" in decoded && "verified" in decoded && "confidence" in decoded && "match_criteria" in decoded
    requires ToFloat(lib, decoded["confidence"]).Ok? && PriceOf(lib, decoded["price"]).Err?
    ensures var r := ParseVerificationResponse(lib, text, at);
      FailureShaped(r) && r.errorType == Some(if decoded["price"].Str? then ValidationError else ProcessingError)
  {
    DecodedParse(lib, text, at, decoded);
    var plan := CleanDetailsValue(Get(decoded, "plan_details")).value;
    var b := CoerceRecord(lib, decoded, plan, at);
    assert BuildRecord(lib, decoded, at) == b;
    assert MissingFields(decoded) == [];
    assert b == Err(PriceOf(lib, decoded["price"]).error);
  }

  /** A claim of verification below 0.8 is demoted to LOW_CONFIDENCE; the confidence,
      price and match details are kept. */
  lemma LowConfidenceIsDemoted(lib: Library, text: string, at: real, decoded: map<string, Value>, c: real)
    requires DecodesTo(lib, text, decoded)
    requires BuildRecord(lib, decoded, at).Ok?
    requires "verified" in decoded && "confidence" in decoded && "match_criteria" in decoded
    requires Truthy(decoded["verified"]) && ToFloat(lib, decoded["confidence"]) == Ok(c) && c < ConfidenceThreshold
    ensures var r := ParseVerificationResponse(lib, text, at);
      !r.verified && r.errorType == Some(LowConfidence) && r.error == Some(LowConfidenceMessage)
      && r.confidenceScore == c && r.matchDetails == decoded["match_criteria"]
  {
    DecodedParse(lib, text, at, decoded);
    var plan := CleanDetailsValue(Get(decoded, "plan_details")).value;
    var b := CoerceRecord(lib, decoded, plan, at);
    assert BuildRecord(lib, decoded, at) == b;
    assert MissingFields(decoded) == [];
    assert b == CoerceFields(lib, decoded["verified"], decoded["confidence"], decoded["price"],
                             Get(decoded, "promo"), decoded["match_criteria"], plan, at);
  }

  /** The `promo_details` quirk: the field is read from the key `promo`, which the schema
      never produces, so an answer that keeps to the schema never has promotion details;
      the cleaned `promotion_details` is computed and dropped. */
  lemma SchemaAnswerHasNoPromo(lib: Library, text: string, at: real, decoded: map<string, Value>)
    requires DecodesTo(lib, text, decoded)
    requires forall k :: k in decoded ==> k in SchemaKeys
    ensures ParseVerificationResponse(lib, text, at).promoDetails == None
  {
    assert "promo" !in SchemaKeys;
    assert Get(decoded, "promo") == None;
    DecodedParse(lib, text, at, decoded);
    var b := BuildRecord(lib, decoded, at);
    if b.Ok? {
      var plan := CleanDetailsValue(Get(decoded, "plan_details")).value;
      assert b == CoerceRecord(lib, decoded, plan, at);
      assert MissingFields(decoded) == [];
    }
  }

  /** The text `not json`, which `json.loads` rejects, gives INVALID_JSON. */
  lemma MalformedJsonExample(lib: Library, at: real)
    requires lib.jsonLoads("not json").None?
    ensures ParseVerificationResponse(lib, "not json", at) == FailedRecord(InvalidJson, Some(InvalidJsonMessage), at)
  {
    assert FindFrom("not json", JsonFence, 2) == None;
    var text := "not json";
    assert text[1..8][0] == 'o' && JsonFence[0] == '`';
    assert FindFrom(text, JsonFence, 1) == None;
    assert text[0..7][0] == 'n';
    assert FindFrom(text, JsonFence, 0) == None;
    StripKeepsStripped("not json");
  }
}
