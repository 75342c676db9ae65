/** `retrieve_deadlines`: three searches without forced inclusion, deduplicated, at most 25 records. */
module DeadlinesPlan {
  import opened Wrappers
  import opened Retriever
  import opened ResearchUtils
  import opened TaskPlans

  const DeadlineCalls: seq<SearchCall> := [
    SearchCall(None, 12, "", 80),
    SearchCall(Some("Owner Due Date Week action item status"), 12, "", 80),
    SearchCall(Some("deadline due by responsible owner"), 10, "", 80)
  ]

  const DeadlineCap: nat := 25

  /** Only the first call uses the caller's query, and none forces a file. */
  lemma DeadlineCallsShape()
    ensures |DeadlineCalls| == 3 && DeadlineCalls[0].fixedQuery == None
    ensures forall i :: 1 <= i < |DeadlineCalls| ==> DeadlineCalls[i].fixedQuery.Some?
    ensures forall i :: 0 <= i < |DeadlineCalls| ==> DeadlineCalls[i].mustInclude == ""
  {
  }

  /** `retrieve_deadlines(query)`. */
  method RetrieveDeadlines(index: Index, query: string) returns (r: Result<seq<Record>>)
    ensures r == Boost(index, query, DeadlineCalls, DeadlineCap)
    ensures r.Ok? ==> |r.value| <= 25 && DistinctKeys(r.value, DedupeKey)
  {
    r := RunBoosted(index, query, DeadlineCalls, DeadlineCap);
  }
}
