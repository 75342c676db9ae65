/** `retrieve_top5_risks`: five searches boosted towards risks.md, deduplicated, at most 30 records. */
module Top5RisksPlan {
  import opened Wrappers
  import opened PyStr
  import opened Retriever
  import opened ResearchUtils
  import opened TaskPlans

  const Top5Calls: seq<SearchCall> := [
    SearchCall(None, 18, "risks.md", 120),
    SearchCall(Some("Risks Register Severity Probability Impact Mitigation risks.md"), 12, "risks.md", 120),
    SearchCall(Some("DB Migration Delay Vendor Credential Delay Security Review risks.md"), 12, "risks.md", 120),
    SearchCall(Some("Onboarding Documentation Gaps Pricing Sensitivity Churn risks.md"), 12, "risks.md", 120),
    SearchCall(Some("risk blocked vendor access integration tests security checklist"), 10, "", 80)
  ]

  const Top5Cap: nat := 30

  /** The plan's calls: only the first uses the caller's query; the first four force risks.md with overfetch 120, the fifth forces nothing. */
  lemma Top5CallsShape()
    ensures |Top5Calls| == 5
    ensures Top5Calls[0].fixedQuery == None
    ensures forall i :: 1 <= i < 5 ==> Top5Calls[i].fixedQuery.Some?
    ensures forall i :: 0 <= i < 4 ==> Top5Calls[i].mustInclude == "risks.md" && Top5Calls[i].overfetch == 120
    ensures Top5Calls[4].mustInclude == ""
  {
  }

  /** `retrieve_top5_risks(query)`. */
  method RetrieveTop5Risks(index: Index, query: string) returns (r: Result<seq<Record>>)
    ensures r == Boost(index, query, Top5Calls, Top5Cap)
    ensures r.Ok? ==> |r.value| <= 30 && DistinctKeys(r.value, DedupeKey)
  {
    r := RunBoosted(index, query, Top5Calls, Top5Cap);
  }
}
