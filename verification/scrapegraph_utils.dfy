/** `get_total_result_metrics`: the execution-info entry of a ScrapeGraph run whose node
    is named "TOTAL RESULT". */
module ScrapeGraphUtils {
  import opened Wrappers
  import opened Values

  const TotalResultNode: string := "TOTAL RESULT"

  /** `info.get("node_name") == "TOTAL RESULT"` */
  predicate IsTotalResult(info: map<string, Value>) {
    Get(info, "node_name") == Some(Str(TotalResultNode))
  }

  /** The first entry, in execution order, whose node name is "TOTAL RESULT"; None when
      there is none (the empty list included). */
  function GetTotalResultMetrics(infos: seq<map<string, Value>>): (r: Option<map<string, Value>>)
    ensures r.Some? ==> r.value in infos && IsTotalResult(r.value)
    ensures r.None? <==> forall i :: 0 <= i < |infos| ==> !IsTotalResult(infos[i])
  {
    if |infos| == 0 then None
    else if IsTotalResult(infos[0]) then Some(infos[0])
    else GetTotalResultMetrics(infos[1..])
  }

  /** The entry returned is the earliest match: every entry before it has another name. */
  lemma {:induction false} TotalResultIsFirstMatch(infos: seq<map<string, Value>>)
    requires GetTotalResultMetrics(infos).Some?
    ensures exists k :: 0 <= k < |infos| && infos[k] == GetTotalResultMetrics(infos).value
              && forall j :: 0 <= j < k ==> !IsTotalResult(infos[j])
  {
    if IsTotalResult(infos[0]) {
      assert infos[0] == GetTotalResultMetrics(infos).value;
    } else {
      TotalResultIsFirstMatch(infos[1..]);
      var k :| 0 <= k < |infos[1..]| && infos[1..][k] == GetTotalResultMetrics(infos[1..]).value
               && forall j :: 0 <= j < k ==> !IsTotalResult(infos[1..][j]);
      assert infos[k + 1] == GetTotalResultMetrics(infos).value;
      assert forall j :: 0 <= j < k + 1 ==> !IsTotalResult(infos[j]) by {
        forall j | 0 <= j < k + 1
          ensures !IsTotalResult(infos[j])
        {
          if j > 0 {
            assert infos[j] == infos[1..][j - 1];
          }
        }
      }
    }
  }
}
