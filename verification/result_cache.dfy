/** The verification cache: `_generate_cache_key`, and the meaning of a lookup with lazy
    eviction (`_get_cached_result`) over a table of (record, time stored) entries. The
    table itself is a field of the service class, which updates it in place. */
module ResultCache {
  import opened Wrappers
  import opened Text
  import opened Records

  datatype Entry = Entry(record: Record, storedAt: real)

  type Table = map<string, Entry>

  /** `str(x)` of a plan field; a missing field renders as `None`. */
  function RenderName(name: Option<string>): string {
    match name
    case None => "None"
    case Some(s) => s
  }

  function RenderSpeed(speed: Option<int>): string {
    match speed
    case None => "None"
    case Some(i) => IntToString(i)
  }

  /** Distinct speeds, a missing one included, render differently. */
  lemma RenderSpeedInjective(a: Option<int>, b: Option<int>)
    requires RenderSpeed(a) == RenderSpeed(b)
    ensures a == b
  {
    if a.Some? && b.Some? {
      IntToStringInjective(a.value, b.value);
    }
  }

  /** `_generate_cache_key`: the URL, the plan name and the two speeds, joined by `_`. */
  function CacheKey(providerUrl: string, plan: PlanDescriptor): (k: string)
    ensures k == providerUrl + "_" + RenderName(plan.planName) + "_" + RenderSpeed(plan.downloadSpeed)
                 + "_" + RenderSpeed(plan.uploadSpeed)
  {
    JoinFour(providerUrl, RenderName(plan.planName), RenderSpeed(plan.downloadSpeed),
             RenderSpeed(plan.uploadSpeed), "_");
    Join([providerUrl, RenderName(plan.planName), RenderSpeed(plan.downloadSpeed),
          RenderSpeed(plan.uploadSpeed)], "_")
  }

  /** The advertised price plays no part in the key. */
  lemma CacheKeyIgnoresPrice(providerUrl: string, plan: PlanDescriptor)
    ensures forall p :: CacheKey(providerUrl, plan) == CacheKey(providerUrl, plan.(price := p))
  {
  }

  /** The key is not injective: an underscore inside a field and a missing name both
      produce keys that other requests share. */
  lemma CacheKeyNotInjective()
    ensures CacheKey("a_b", PlanDescriptor(Some("c"), None, None, None))
         == CacheKey("a", PlanDescriptor(Some("b_c"), None, None, None))
    ensures CacheKey("u", PlanDescriptor(None, Some(100), Some(20), None))
         == CacheKey("u", PlanDescriptor(Some("None"), Some(100), Some(20), None))
  {
    assert "a_b" + "_" + "c" == "a" + "_" + "b_c";
    assert RenderName(None) == RenderName(Some("None"));
  }

  /** An entry is served while its age is below the timeout (`age_seconds <
      self.cache_timeout`). */
  predicate Live(e: Entry, now: real, timeout: real) {
    now - e.storedAt < timeout
  }

  /** What a lookup returns: the stored record exactly when the key is present and its
      entry is still live. */
  function Lookup(t: Table, key: string, now: real, timeout: real): (r: Option<Record>)
    ensures r.Some? <==> key in t && Live(t[key], now, timeout)
    ensures r.Some? ==> r.value == t[key].record
  {
    if key in t && Live(t[key], now, timeout) then Some(t[key].record) else None
  }

  /** The table after a lookup: an expired entry for the key is deleted; every other
      entry is untouched. */
  function AfterLookup(t: Table, key: string, now: real, timeout: real): (t': Table)
    ensures key in t' <==> key in t && Live(t[key], now, timeout)
    ensures key in t' ==> t'[key] == t[key]
    ensures forall k :: k != key ==> (k in t' <==> k in t)
    ensures forall k :: k != key && k in t ==> t'[k] == t[k]
  {
    if key in t && !Live(t[key], now, timeout) then t - {key} else t
  }

  /** Time-to-live: a record stored at `storedAt` is returned unchanged by every lookup
      less than `timeout` later; a later lookup misses and removes the entry, and only
      that entry. */
  lemma StoredRecordExpires(t: Table, key: string, r: Record, storedAt: real, now: real, timeout: real)
    ensures var t1 := t[key := Entry(r, storedAt)];
      now - storedAt < timeout ==>
        Lookup(t1, key, now, timeout) == Some(r) && AfterLookup(t1, key, now, timeout) == t1
    ensures var t1 := t[key := Entry(r, storedAt)];
      now - storedAt >= timeout ==>
        Lookup(t1, key, now, timeout) == None && AfterLookup(t1, key, now, timeout) == t - {key}
  {
    var t1 := t[key := Entry(r, storedAt)];
    if now - storedAt >= timeout {
      assert AfterLookup(t1, key, now, timeout) == t1 - {key};
      assert t1 - {key} == t - {key};
    }
  }
}
