/** The records the service exchanges: the plan a caller asks about and the verification
    record every path of `verify_price` returns. Times are seconds, as reals. */
module Records {
  import opened Wrappers
  import opened Values

  /** The caller's `plan_details` dictionary; `None` where a key is missing. */
  datatype PlanDescriptor = PlanDescriptor(
    planName: Option<string>,
    downloadSpeed: Option<int>,
    uploadSpeed: Option<int>,
    price: Option<real>)

  datatype ErrorType =
    | InvalidJson
    | ValidationError
    | ProcessingError
    | LowConfidence
    | VerificationFailed

  /** A verification record. `planDetails` is None where the record has no `plan_details`
      key at all (the error records); `promoDetails` is whatever `data.get('promo')` gave. */
  datatype Record = Record(
    verified: bool,
    confidenceScore: real,
    currentPrice: Option<real>,
    promoDetails: Option<Value>,
    planDetails: Option<string>,
    verificationDate: real,
    error: Option<string>,
    errorType: Option<ErrorType>,
    matchDetails: Value)

  const ConfidenceThreshold: real := 0.8

  /** The record invariant: a verified record is confident enough and carries no error type. */
  predicate ThresholdInvariant(r: Record) {
    r.verified ==> r.confidenceScore >= ConfidenceThreshold && r.errorType == None
  }

  /** The cache-population rule of `verify_price`; the comparison is strict. */
  predicate Cacheable(r: Record) {
    r.verified && r.confidenceScore > ConfidenceThreshold
  }

  /** The fixed part of every failure record: not verified, zero confidence, no price, no
      promotion, no plan details, empty match details. */
  predicate FailureShaped(r: Record) {
    !r.verified && r.confidenceScore == 0.0 && r.currentPrice == None && r.promoDetails == None
    && r.planDetails == None && r.matchDetails == Dict(map[])
  }

  /** The failure record of `_create_error_response`, and the one `verify_price` builds
      when its retries run out (whose error may be None). */
  function FailedRecord(errorType: ErrorType, error: Option<string>, at: real): (r: Record)
    ensures FailureShaped(r) && ThresholdInvariant(r) && !Cacheable(r)
    ensures r.errorType == Some(errorType) && r.error == error && r.verificationDate == at
  {
    Record(false, 0.0, None, None, None, at, error, Some(errorType), Dict(map[]))
  }
}
