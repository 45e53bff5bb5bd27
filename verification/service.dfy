/** `GeminiService`: the cache table it owns and updates in place, and `verify_price`,
    which checks the cache, then runs at most `retry_count` attempts, sleeping after each
    failure, and caches a qualifying result. The model answers, the clock readings and
    the library functions are inputs; the sleeps are returned as the list of delays. */
module Service {
  import opened Wrappers
  import opened Sequences
  import opened Records
  import opened ResponseParser
  import opened Reconciliation
  import opened ResultCache
  import opened Backoff

  const DefaultCacheTimeout: real := 3600.0
  const DefaultRetryCount: int := 2

  /** What the retry loop produces: the record returned, the delays slept, the number of
      attempts made, and the time a qualifying result was cached at. */
  datatype RunResult = RunResult(record: Record, delays: seq<nat>, attempts: nat, storedAt: Option<real>)

  /** The outcome of every scripted attempt, in order. */
  function Outcomes(lib: Library, original: Option<real>, script: seq<AttemptScript>): (os: seq<AttemptOutcome>)
    ensures |os| == |script|
    ensures SuccessesWellFormed(os)
  {
    seq(|script|, i requires 0 <= i < |script| => Attempt(lib, original, script[i]))
  }

  /** What every attempt guarantees of the record it succeeds with. */
  predicate SuccessesWellFormed(os: seq<AttemptOutcome>) {
    forall i :: 0 <= i < |os| && os[i].Succeeded? ==>
      ThresholdInvariant(os[i].record) && os[i].record.errorType != Some(VerificationFailed)
  }

  /** The retry loop from attempt `k` on, given each attempt's outcome and the time it
      finished, `lastError` being the last failure so far. A successful attempt ends the
      loop with its record; a failed one records its message, counts, and sleeps
      `RetryDelay(count)`, the last failure included; once the budget is spent the result
      is a VERIFICATION_FAILED record carrying the last failure. */
  function RunFrom(os: seq<AttemptOutcome>, script: seq<AttemptScript>, retryCount: int,
                   k: nat, lastError: Option<string>, finishedAt: real): (res: RunResult)
    requires retryCount <= |os| == |script|
    ensures res.storedAt.Some? ==> Cacheable(res.record)
    ensures res.attempts == |res.delays| || res.attempts == |res.delays| + 1
    decreases retryCount - k
  {
    if k >= retryCount then RunResult(FailedRecord(VerificationFailed, lastError, finishedAt), [], 0, None)
    else
      match os[k]
      case Succeeded(r) => RunResult(r, [], 1, if Cacheable(r) then Some(script[k].at) else None)
      case Failed(message) =>
        var rest := RunFrom(os, script, retryCount, k + 1, Some(message), finishedAt);
        RunResult(rest.record, [RetryDelay(k + 1)] + rest.delays, rest.attempts + 1, rest.storedAt)
  }

  /** What the retry loop guarantees from attempt `k` on: the record keeps the threshold
      invariant; at most the remaining budget is spent; the i-th sleep is the delay for
      failure number k+i+1 and follows a failed attempt; the run either ends in a
      VERIFICATION_FAILED record after spending the whole budget on failures, carrying the
      last failure's message, or returns the record of the first successful attempt,
      stamped for the cache exactly when that record qualifies. */
  lemma {:induction false} RunFromFacts(os: seq<AttemptOutcome>, script: seq<AttemptScript>, retryCount: int,
                                        k: nat, lastError: Option<string>, finishedAt: real)
    requires retryCount <= |os| == |script|
    requires SuccessesWellFormed(os)
    ensures var res := RunFrom(os, script, retryCount, k, lastError, finishedAt);
      ThresholdInvariant(res.record)
      && k + res.attempts <= (if retryCount > k then retryCount else k)
      && (forall i :: 0 <= i < |res.delays| ==> res.delays[i] == RetryDelay(k + i + 1))
      && (|res.delays| > 0 ==> k + |res.delays| <= retryCount)
      && (forall j :: k <= j < k + |res.delays| ==> os[j].Failed?)
    ensures var res := RunFrom(os, script, retryCount, k, lastError, finishedAt);
      res.record.errorType == Some(VerificationFailed) ==>
        res.attempts == |res.delays| && res.storedAt == None
        && k + res.attempts == (if retryCount > k then retryCount else k)
        && res.record == FailedRecord(VerificationFailed,
             if res.attempts == 0 then lastError else Some(os[k + res.attempts - 1].message), finishedAt)
    ensures var res := RunFrom(os, script, retryCount, k, lastError, finishedAt);
      res.record.errorType != Some(VerificationFailed) ==>
        res.attempts == |res.delays| + 1 && k + |res.delays| < retryCount
        && os[k + |res.delays|] == Succeeded(res.record)
        && res.storedAt == (if Cacheable(res.record) then Some(script[k + |res.delays|].at) else None)
    decreases retryCount - k
  {
    if k < retryCount && os[k].Failed? {
      RunFromFacts(os, script, retryCount, k + 1, Some(os[k].message), finishedAt);
    }
  }

  /** The record the loop returns keeps the threshold invariant, and it is stamped for
      the cache only if it qualifies. */
  lemma RunRecordQualifies(os: seq<AttemptOutcome>, script: seq<AttemptScript>, retryCount: int, finishedAt: real)
    requires retryCount <= |os| == |script| && SuccessesWellFormed(os)
    ensures var res := RunFrom(os, script, retryCount, 0, None, finishedAt);
      ThresholdInvariant(res.record) && (res.storedAt.Some? ==> Cacheable(res.record))
  {
    RunFromFacts(os, script, retryCount, 0, None, finishedAt);
  }

  /** A failed attempt within the budget adds one sleep in front of the rest of the run
      and hands its message on as the last failure. */
  lemma RunFromFailedStep(os: seq<AttemptOutcome>, script: seq<AttemptScript>, retryCount: int,
                          k: nat, lastError: Option<string>, finishedAt: real)
    requires retryCount <= |os| == |script| && k < retryCount && os[k].Failed?
    ensures var here := RunFrom(os, script, retryCount, k, lastError, finishedAt);
      var rest := RunFrom(os, script, retryCount, k + 1, Some(os[k].message), finishedAt);
      here.record == rest.record && here.delays == [RetryDelay(k + 1)] + rest.delays
      && here.storedAt == rest.storedAt && here.attempts == rest.attempts + 1
  {
  }

  /** The whole retry loop of `verify_price`: its record keeps the threshold invariant
      and is stamped for the cache only if it qualifies. */
  function Run(lib: Library, original: Option<real>, script: seq<AttemptScript>, retryCount: int,
               finishedAt: real): (res: RunResult)
    requires retryCount <= |script|
    ensures ThresholdInvariant(res.record)
  {
    RunRecordQualifies(Outcomes(lib, original, script), script, retryCount, finishedAt);
    RunFrom(Outcomes(lib, original, script), script, retryCount, 0, None, finishedAt)
  }

  /** When every attempt fails, the loop makes exactly `retry_count` attempts, sleeps
      after each of them (the last included), and returns one VERIFICATION_FAILED record
      whose error is the last failure's message; nothing is cached. */
  lemma RunExhausted(os: seq<AttemptOutcome>, script: seq<AttemptScript>, retryCount: int, finishedAt: real)
    requires 0 < retryCount <= |os| == |script| && SuccessesWellFormed(os)
    requires forall i :: 0 <= i < retryCount ==> os[i].Failed?
    ensures var res := RunFrom(os, script, retryCount, 0, None, finishedAt);
      res.attempts == retryCount && res.storedAt == None
      && res.record == FailedRecord(VerificationFailed, Some(os[retryCount - 1].message), finishedAt)
      && |res.delays| == retryCount
      && forall i :: 0 <= i < retryCount ==> res.delays[i] == RetryDelay(i + 1)
  {
    var res := RunFrom(os, script, retryCount, 0, None, finishedAt);
    RunFromFacts(os, script, retryCount, 0, None, finishedAt);
    if res.record.errorType != Some(VerificationFailed) {
      assert false;
    }
  }

  /** With no budget (`retry_count <= 0`) no attempt is made, nothing is slept, and the
      VERIFICATION_FAILED record has no error message. */
  lemma RunWithoutBudget(os: seq<AttemptOutcome>, script: seq<AttemptScript>, retryCount: int, finishedAt: real)
    requires retryCount <= 0 && |os| == |script|
    ensures var res := RunFrom(os, script, retryCount, 0, None, finishedAt);
      res.attempts == 0 && res.delays == [] && res.storedAt == None
      && res.record == FailedRecord(VerificationFailed, None, finishedAt)
  {
  }

  /** When attempts 0..k-1 fail and attempt k succeeds within the budget, the loop returns
      that attempt's record after k sleeps of 60, 120, ... seconds, and caches it, stamped
      with that attempt's time, exactly when it is verified with confidence above 0.8. */
  lemma RunSucceedsAt(os: seq<AttemptOutcome>, script: seq<AttemptScript>, retryCount: int, finishedAt: real,
                      k: nat, r: Record)
    requires k < retryCount <= |os| == |script| && SuccessesWellFormed(os)
    requires forall i :: 0 <= i < k ==> os[i].Failed?
    requires os[k] == Succeeded(r)
    ensures var res := RunFrom(os, script, retryCount, 0, None, finishedAt);
      res.record == r && res.attempts == k + 1 && |res.delays| == k
      && (forall i :: 0 <= i < k ==> res.delays[i] == RetryDelay(i + 1))
      && res.storedAt == (if r.verified && r.confidenceScore > ConfidenceThreshold then Some(script[k].at) else None)
  {
    var res := RunFrom(os, script, retryCount, 0, None, finishedAt);
    RunFromFacts(os, script, retryCount, 0, None, finishedAt);
    if res.record.errorType == Some(VerificationFailed) {
      assert false;
    }
    if |res.delays| < k {
      assert false;
    }
    if |res.delays| > k {
      assert false;
    }
  }

  /** The default budget of two attempts, both failing: sleeps of 60 then 120 seconds. */
  lemma DefaultBudgetExhausted(os: seq<AttemptOutcome>, script: seq<AttemptScript>, finishedAt: real)
    requires DefaultRetryCount <= |os| == |script| && SuccessesWellFormed(os)
    requires os[0].Failed? && os[1].Failed?
    ensures RunFrom(os, script, DefaultRetryCount, 0, None, finishedAt).delays == [60, 120]
    ensures RunFrom(os, script, DefaultRetryCount, 0, None, finishedAt).record.errorType == Some(VerificationFailed)
  {
    RunExhausted(os, script, DefaultRetryCount, finishedAt);
    RetryDelaySchedule(1);
  }

  /** The attempt numbered `i`, one of the outcomes the loop is specified over. */
  method AttemptAt(lib: Library, original: Option<real>, script: seq<AttemptScript>, i: nat)
    returns (o: AttemptOutcome)
    requires i < |script|
    ensures o == Outcomes(lib, original, script)[i]
  {
    o := Attempt(lib, original, script[i]);
  }

  /** The retry loop of `verify_price`: attempt after attempt until one succeeds or the
      budget is spent, sleeping after each failure. `storedAt` is the time a qualifying
      result is to be cached at. */
  method RunAttempts(lib: Library, original: Option<real>, script: seq<AttemptScript>, retryCount: int,
                     finishedAt: real)
    returns (result: Record, delays: seq<nat>, storedAt: Option<real>)
    requires retryCount <= |script|
    ensures ThresholdInvariant(result)
    ensures storedAt.Some? ==> Cacheable(result)
    ensures var run := Run(lib, original, script, retryCount, finishedAt);
      result == run.record && delays == run.delays && storedAt == run.storedAt
  {
    ghost var os := Outcomes(lib, original, script);
    ghost var run := Run(lib, original, script, retryCount, finishedAt);
    var attempt: nat := 0;
    var lastError: Option<string> := None;
    delays := [];
    while attempt < retryCount
      invariant var rest := RunFrom(os, script, retryCount, attempt, lastError, finishedAt);
        run.record == rest.record && run.delays == delays + rest.delays && run.storedAt == rest.storedAt
      decreases retryCount - attempt
    {
      var outcome := AttemptAt(lib, original, script, attempt);
      match outcome
      case Succeeded(r) =>
        result := r;
        storedAt := if Cacheable(r) then Some(script[attempt].at) else None;
        assert delays + [] == delays;
        RunRecordQualifies(os, script, retryCount, finishedAt);
        return;
      case Failed(message) =>
        ghost var rest := RunFrom(os, script, retryCount, attempt + 1, Some(message), finishedAt);
        RunFromFailedStep(os, script, retryCount, attempt, lastError, finishedAt);
        AppendAssociates(delays, [RetryDelay(attempt + 1)], rest.delays);
        lastError := Some(message);
        attempt := attempt + 1;
        delays := delays + [RetryDelay(attempt)];
    }
    result, storedAt := FailedRecord(VerificationFailed, lastError, finishedAt), None;
    assert delays + [] == delays;
    RunRecordQualifies(os, script, retryCount, finishedAt);
  }

  /** The two kinds of time value the cache-hit log line mixes: `time.time()` gives
      seconds as a float; every record's `verification_date` is a `datetime`. */
  datatype Clock = Seconds(value: real) | DateTime(value: real)

  /** Python's `x - y` for a float `x`: a float with a float, a TypeError (None) with a
      `datetime`. */
  function FloatMinus(x: real, y: Clock): (r: Option<real>)
    ensures r.Some? <==> y.Seconds?
  {
    match y
    case Seconds(v) => Some(x - v)
    case DateTime(_) => None
  }

  /** The cache-hit branch of `verify_price` as written: before returning the cached
      record it computes `time.time() - cached_result.get('verification_date', 0)` for
      the log line. None stands for the exception that escapes `verify_price`. */
  function CacheHitAsWritten(clock: real, cached: Record): (r: Option<Record>)
    ensures r.Some? ==> r.value == cached
  {
    match FloatMinus(clock, DateTime(cached.verificationDate))
    case None => None
    case Some(_) => Some(cached)
  }

  /** Every cache hit, as written, raises TypeError instead of returning the record. */
  lemma CacheHitAlwaysRaises(clock: real, cached: Record)
    ensures CacheHitAsWritten(clock, cached) == None
  {
  }

  class GeminiService {
    const cacheTimeout: real
    var cache: Table

    /** Only results that passed the cache-population rule are in the table. */
    ghost predicate Valid()
      reads this
    {
      forall key :: key in cache ==> Cacheable(cache[key].record) && ThresholdInvariant(cache[key].record)
    }

    /** The caching part of `__init__`: an empty table and its timeout. */
    constructor (cacheTimeout: real)
      ensures this.cacheTimeout == cacheTimeout && cache == map[] && Valid()
    {
      this.cacheTimeout := cacheTimeout;
      cache := map[];
    }

    /** `__init__` without an argument: an hour's timeout. */
    constructor WithDefaultTimeout()
      ensures cacheTimeout == DefaultCacheTimeout && cache == map[] && Valid()
    {
      cacheTimeout := DefaultCacheTimeout;
      cache := map[];
    }

    /** `_get_cached_result`: the live record for the key, deleting the entry if it has
        expired. */
    method GetCachedResult(key: string, now: real) returns (r: Option<Record>)
      requires Valid()
      modifies this
      ensures Valid()
      ensures r == Lookup(old(cache), key, now, cacheTimeout)
      ensures cache == AfterLookup(old(cache), key, now, cacheTimeout)
    {
      if key in cache {
        var entry := cache[key];
        if now - entry.storedAt < cacheTimeout {
          return Some(entry.record);
        }
        cache := cache - {key};
      }
      return None;
    }

    /** `_cache_result`: store the record with the current time, replacing any entry. */
    method CacheResult(key: string, record: Record, now: real)
      requires Valid() && Cacheable(record) && ThresholdInvariant(record)
      modifies this
      ensures Valid()
      ensures cache == old(cache)[key := Entry(record, now)]
    {
      cache := cache[key := Entry(record, now)];
    }

    /** `verify_price`, with the cache hit returning the cached record. `now` is the time
        of the cache check, `script[i]` the oracle for attempt i, `finishedAt` the time the
        failure record is made; `delays` lists the sleeps in order. */
    method VerifyPrice(lib: Library, providerUrl: string, plan: PlanDescriptor, retryCount: int,
                       now: real, script: seq<AttemptScript>, finishedAt: real)
      returns (result: Record, delays: seq<nat>)
      requires Valid()
      requires retryCount <= |script|
      modifies this
      ensures Valid()
      ensures ThresholdInvariant(result)
      ensures var hit := Lookup(old(cache), CacheKey(providerUrl, plan), now, cacheTimeout);
        hit.Some? ==> result == hit.value && Cacheable(result) && delays == [] && cache == old(cache)
      ensures var key := CacheKey(providerUrl, plan);
        var run := Run(lib, plan.price, script, retryCount, finishedAt);
        var evicted := AfterLookup(old(cache), key, now, cacheTimeout);
        Lookup(old(cache), key, now, cacheTimeout).None? ==>
          result == run.record && delays == run.delays
          && cache == (if run.storedAt.Some? then evicted[key := Entry(result, run.storedAt.value)] else evicted)
    {
      var key := CacheKey(providerUrl, plan);
      var cached := GetCachedResult(key, now);
      if cached.Some? {
        result, delays := cached.value, [];
        return;
      }
      var storedAt;
      result, delays, storedAt := RunAttempts(lib, plan.price, script, retryCount, finishedAt);
      if storedAt.Some? {
        CacheResult(key, result, storedAt.value);
      }
    }
  }
}
