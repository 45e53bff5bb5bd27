/** One attempt of `verify_price`: both models answer, both answers are parsed, the two
    records are compared, and either one of them is chosen, one model is asked again and
    the best of three is chosen, or the whole attempt is given up for a full retry. */
module Reconciliation {
  import opened Wrappers
  import opened Values
  import opened Records
  import opened ResponseParser

  /** `self.model` and `self.model2` */
  datatype Model = Primary | Secondary

  /** What comparing the two parsed answers decides. */
  datatype Decision = Agree(chosen: Record) | Requery(model: Model) | NeedsFullRetry

  /** What a model call gives: the response text, or the text of the exception raised by
      the call or by reading the response's text. */
  datatype Reply = Answer(text: string) | Raised(message: string)

  /** The oracle for one attempt: the time the answers are parsed at, the two answers,
      and what each model answers if it is the one asked again. */
  datatype AttemptScript = AttemptScript(at: real, primary: Reply, secondary: Reply,
                                         requeryPrimary: Reply, requerySecondary: Reply)

  /** The reply of `lower_confidence_model` when it is asked again. */
  function RequeryReply(s: AttemptScript, m: Model): Reply {
    match m
    case Primary => s.requeryPrimary
    case Secondary => s.requerySecondary
  }

  datatype AttemptOutcome = Succeeded(record: Record) | Failed(message: string)

  const FullRetryMessage: string := "Equal confidence with unclear match quality requires full retry"

  /** `original_price is not None and result['current_price'] == original_price` */
  predicate MatchesOriginal(r: Record, original: Option<real>) {
    original.Some? && r.currentPrice == Some(original.value)
  }

  /** The comparison of the two parsed answers. Equal prices (both absent included):
      the more confident record, the first on a tie. Different prices and different
      confidence: ask the less confident model again. Different prices, equal
      confidence: ask again the model whose price misses the advertised one when exactly
      one of them hits it; otherwise give up the attempt. */
  function Decide(r1: Record, r2: Record, original: Option<real>): (d: Decision)
    ensures d.Agree? <==> r1.currentPrice == r2.currentPrice
    ensures d.Agree? ==> (d.chosen == r1 || d.chosen == r2)
    ensures d.Agree? ==>
              d.chosen.confidenceScore >= r1.confidenceScore && d.chosen.confidenceScore >= r2.confidenceScore
    ensures d.Agree? && r1.confidenceScore >= r2.confidenceScore ==> d.chosen == r1
    ensures d.Requery? && r1.confidenceScore != r2.confidenceScore ==>
              (d.model == Primary <==> r1.confidenceScore < r2.confidenceScore)
    ensures d.Requery? && r1.confidenceScore == r2.confidenceScore ==>
              MatchesOriginal(r1, original) != MatchesOriginal(r2, original)
              && (d.model == Primary <==> MatchesOriginal(r2, original))
    ensures d.NeedsFullRetry? <==>
              r1.currentPrice != r2.currentPrice && r1.confidenceScore == r2.confidenceScore
              && MatchesOriginal(r1, original) == MatchesOriginal(r2, original)
  {
    if r1.currentPrice != r2.currentPrice then
      if r1.confidenceScore == r2.confidenceScore then
        var m1 := MatchesOriginal(r1, original);
        var m2 := MatchesOriginal(r2, original);
        if m1 && !m2 then Requery(Secondary)
        else if m2 && !m1 then Requery(Primary)
        else NeedsFullRetry
      else
        Requery(if r1.confidenceScore > r2.confidenceScore then Secondary else Primary)
    else
      Agree(if r1.confidenceScore >= r2.confidenceScore then r1 else r2)
  }

  /** `max(rs, key=confidence_score)` as Python computes it: scan left to right and
      replace the best only on a strictly higher score, so the result is the FIRST
      record of maximal confidence. */
  function FirstMaxIndex(rs: seq<Record>): (k: nat)
    requires |rs| > 0
    ensures k < |rs|
    ensures forall j :: 0 <= j < |rs| ==> rs[j].confidenceScore <= rs[k].confidenceScore
    ensures forall j :: 0 <= j < k ==> rs[j].confidenceScore < rs[k].confidenceScore
  {
    if |rs| == 1 then 0
    else
      var k := FirstMaxIndex(rs[..|rs| - 1]);
      if rs[|rs| - 1].confidenceScore > rs[k].confidenceScore then |rs| - 1 else k
  }

  /** The selection after a re-query, over `[result1, result2, retry_result]`. */
  function SelectAfterRequery(r1: Record, r2: Record, retry: Record): (r: Record)
    ensures r == r1 || r == r2 || r == retry
    ensures r.confidenceScore >= r1.confidenceScore && r.confidenceScore >= r2.confidenceScore
         && r.confidenceScore >= retry.confidenceScore
    ensures r1.confidenceScore >= r2.confidenceScore && r1.confidenceScore >= retry.confidenceScore ==> r == r1
    ensures r1.confidenceScore < r2.confidenceScore && r2.confidenceScore >= retry.confidenceScore ==> r == r2
    ensures retry.confidenceScore > r1.confidenceScore && retry.confidenceScore > r2.confidenceScore ==> r == retry
  {
    var rs := [r1, r2, retry];
    var k := FirstMaxIndex(rs);
    assert rs[0] == r1 && rs[1] == r2 && rs[2] == retry;
    rs[k]
  }

  /** The re-queried answer wins exactly when it is strictly more confident than both
      first answers; the first answer wins every tie it is part of. */
  lemma RequeryWinsOnlyIfStrictlyBetter(r1: Record, r2: Record, retry: Record)
    ensures FirstMaxIndex([r1, r2, retry]) == 2 <==>
              retry.confidenceScore > r1.confidenceScore && retry.confidenceScore > r2.confidenceScore
    ensures FirstMaxIndex([r1, r2, retry]) == 0 <==>
              r1.confidenceScore >= r2.confidenceScore && r1.confidenceScore >= retry.confidenceScore
  {
    var rs := [r1, r2, retry];
    assert rs[0] == r1 && rs[1] == r2 && rs[2] == retry;
  }

  /** One pass through the body of the `try` in `verify_price`'s loop. The two model
      calls are joined before either answer is read; the primary's failure is reported
      first. */
  function Attempt(lib: Library, original: Option<real>, s: AttemptScript): (o: AttemptOutcome)
    ensures o.Succeeded? ==> ThresholdInvariant(o.record)
    ensures o.Succeeded? ==> o.record.errorType != Some(VerificationFailed)
    ensures o.Succeeded? ==> o.record.verificationDate == s.at
    ensures s.primary.Raised? ==> o == Failed(s.primary.message)
    ensures s.primary.Answer? && s.secondary.Raised? ==> o == Failed(s.secondary.message)
    ensures s.primary.Answer? && s.secondary.Answer? ==>
      var r1 := ParseVerificationResponse(lib, s.primary.text, s.at);
      var r2 := ParseVerificationResponse(lib, s.secondary.text, s.at);
      var d := Decide(r1, r2, original);
      (d.Agree? ==> o == Succeeded(d.chosen))
      && (d.NeedsFullRetry? ==> o == Failed(FullRetryMessage))
      && (d.Requery? && RequeryReply(s, d.model).Raised? ==> o == Failed(RequeryReply(s, d.model).message))
      && (d.Requery? && RequeryReply(s, d.model).Answer? ==>
            o == Succeeded(SelectAfterRequery(r1, r2,
                   ParseVerificationResponse(lib, RequeryReply(s, d.model).text, s.at))))
  {
    if s.primary.Raised? then Failed(s.primary.message)
    else if s.secondary.Raised? then Failed(s.secondary.message)
    else
      var r1 := ParseVerificationResponse(lib, s.primary.text, s.at);
      var r2 := ParseVerificationResponse(lib, s.secondary.text, s.at);
      match Decide(r1, r2, original)
      case Agree(r) => Succeeded(r)
      case NeedsFullRetry => Failed(FullRetryMessage)
      case Requery(m) =>
        match RequeryReply(s, m)
        case Raised(message) => Failed(message)
        case Answer(text) => Succeeded(SelectAfterRequery(r1, r2, ParseVerificationResponse(lib, text, s.at)))
  }

  /** A parsed answer with the given price and confidence that claimed verification,
      after the threshold check: verified only from 0.8 on. */
  function Answered(price: real, confidence: real): (r: Record)
    ensures r.currentPrice == Some(price) && r.confidenceScore == confidence
    ensures r.verified <==> confidence >= ConfidenceThreshold
    ensures ThresholdInvariant(r)
  {
    EnforceThreshold(Record(true, confidence, Some(price), None, Some("No details available"), 0.0,
                            None, None, Dict(map[])))
  }

  /** Agreement at 89.0 with confidences 0.85 and 0.90 keeps the 0.90 answer; a 0.8
      answer is not cached, a 0.85 one is. */
  lemma AgreementExample()
    ensures Decide(Answered(89.0, 0.85), Answered(89.0, 0.90), None) == Agree(Answered(89.0, 0.90))
    ensures !Cacheable(Answered(89.0, 0.8)) && Cacheable(Answered(89.0, 0.85))
  {
  }

  /** 89.0 at 0.7 against 95.0 at 0.9: the less confident primary is asked again. Equal
      confidence with the advertised price 89.0: the model that said 95.0 is asked again;
      neither or both matching: the attempt is given up. */
  lemma DisagreementExamples()
    ensures Decide(Answered(89.0, 0.7), Answered(95.0, 0.9), Some(89.0)) == Requery(Primary)
    ensures Decide(Answered(89.0, 0.85), Answered(95.0, 0.85), Some(89.0)) == Requery(Secondary)
    ensures Decide(Answered(95.0, 0.85), Answered(89.0, 0.85), Some(89.0)) == Requery(Primary)
    ensures Decide(Answered(89.0, 0.85), Answered(95.0, 0.85), Some(70.0)) == NeedsFullRetry
    ensures Decide(Answered(89.0, 0.85), Answered(95.0, 0.85), None) == NeedsFullRetry
  {
  }
}
