/** `retrieve_top_risks`: two searches without forced inclusion, deduplicated, at most 20 records. */
module TopRisksPlan {
  import opened Wrappers
  import opened Retriever
  import opened ResearchUtils
  import opened TaskPlans

  const TopRiskCalls: seq<SearchCall> := [
    SearchCall(None, 12, "", 80),
    SearchCall(Some("risk blocker mitigation risks register"), 10, "", 80)
  ]

  const TopRiskCap: nat := 20

  /** Only the first call uses the caller's query, and neither forces a file. */
  lemma TopRiskCallsShape()
    ensures |TopRiskCalls| == 2 && TopRiskCalls[0].fixedQuery == None && TopRiskCalls[1].fixedQuery.Some?
    ensures forall i :: 0 <= i < |TopRiskCalls| ==> TopRiskCalls[i].mustInclude == ""
  {
  }

  /** `retrieve_top_risks(query)`. */
  method RetrieveTopRisks(index: Index, query: string) returns (r: Result<seq<Record>>)
    ensures r == Boost(index, query, TopRiskCalls, TopRiskCap)
    ensures r.Ok? ==> |r.value| <= 20 && DistinctKeys(r.value, DedupeKey)
  {
    r := RunBoosted(index, query, TopRiskCalls, TopRiskCap);
  }
}
