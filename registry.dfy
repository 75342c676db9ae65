/** `get_research_plan`: the closed mapping from a task key to its retrieval and post-processing. */
module Registry {
  import opened Wrappers
  import opened PyStr
  import opened Retriever
  import opened TaskPlans
  import opened CompareApproachesPlan
  import opened Top5RisksPlan
  import opened DeadlinesPlan
  import opened TopRisksPlan

  /** The `retrieve` callables a plan can hold; `Single` is a plain pass-through `search_docs` call. */
  datatype Retrieval = Compare | Top5Risks | Deadlines | TopRisks | Single(call: SearchCall)

  /** The `postprocess` callables a plan can hold. */
  datatype Hook = InjectOptionsAnchor

  datatype ResearchPlan = ResearchPlan(taskKey: string, actionLabel: string, retrieve: Retrieval, postprocess: Option<Hook>)

  const KnownKeys: set<string> := {
    "compare_approaches", "top5_risks_mitigations_strict", "client_update_email",
    "top_risks_mitigations", "extract_deadlines_and_owners", "draft_confluence_page"
  }

  /** `retrieve_default`, `retrieve_client_update_email` and `retrieve_confluence`. */
  const DefaultCall: SearchCall := SearchCall(None, 8, "", 40)
  const ClientEmailCall: SearchCall := SearchCall(None, 10, "", 60)
  const ConfluenceCall: SearchCall := SearchCall(None, 14, "", 100)

  const DefaultPlan: ResearchPlan := ResearchPlan("default", "FAISS retrieval", Single(DefaultCall), None)

  /** The plan for an already stripped key. */
  function PlanFor(key: string): (p: ResearchPlan)
    ensures key in KnownKeys ==> p.taskKey == key
    ensures key !in KnownKeys ==> p == DefaultPlan
    ensures p.postprocess.Some? <==> key == "compare_approaches"
    ensures p.taskKey in KnownKeys || p.taskKey == "default"
  {
    if key == "compare_approaches" then
      ResearchPlan(key, "FAISS retrieval (+forced technical_decisions.md + injected Option A/B anchor)",
                   Compare, Some(InjectOptionsAnchor))
    else if key == "top5_risks_mitigations_strict" then
      ResearchPlan(key, "FAISS retrieval (boosted for risks.md)", Top5Risks, None)
    else if key == "client_update_email" then
      ResearchPlan(key, "FAISS retrieval (client update email)", Single(ClientEmailCall), None)
    else if key == "top_risks_mitigations" then
      ResearchPlan(key, "FAISS retrieval (top risks + mitigations)", TopRisks, None)
    else if key == "extract_deadlines_and_owners" then
      ResearchPlan(key, "FAISS retrieval (deadlines + owners)", Deadlines, None)
    else if key == "draft_confluence_page" then
      ResearchPlan(key, "FAISS retrieval (confluence page)", Single(ConfluenceCall), None)
    else DefaultPlan
  }

  /**
   * `get_research_plan(task_key)`: the key is stripped (None counts as ""); each known key gets a
   * plan carrying that key, anything else the default plan; only compare_approaches has a hook.
   */
  function GetResearchPlan(taskKey: Option<string>): (p: ResearchPlan)
    ensures var key := Strip(taskKey.GetOr(""));
            (key in KnownKeys ==> p.taskKey == key) &&
            (key !in KnownKeys ==> p == DefaultPlan) &&
            (p.postprocess.Some? <==> key == "compare_approaches") &&
            (p.taskKey in KnownKeys || p.taskKey == "default")
  {
    PlanFor(Strip(taskKey.GetOr("")))
  }

  /** Keys that differ only in surrounding whitespace select the same plan. */
  lemma GetResearchPlanStrips(s: string)
    ensures GetResearchPlan(Some(s)) == GetResearchPlan(Some(Strip(s)))
  {
    StripIdempotent(s);
    var k := Strip(s);
    assert Some(k).GetOr("") == k;
    assert Some(s).GetOr("") == s;
  }

  /** A missing key, an empty key and a blank key all select the default plan. */
  lemma GetResearchPlanBlank(s: string)
    requires IsBlank(s)
    ensures GetResearchPlan(None) == GetResearchPlan(Some(s)) == DefaultPlan
  {
    assert Strip(s) == "";
    assert Strip("") == "";
    EmptyKeyIsDefault();
  }

  /** The empty key falls through every branch to the default plan (a proof step for `GetResearchPlanBlank`). */
  lemma EmptyKeyIsDefault()
    ensures PlanFor("") == DefaultPlan
  {
  }

  /** Distinct known keys select distinct plans, so no task is silently served by another's plan. */
  lemma KnownKeysDistinctPlans(a: string, b: string)
    requires a in KnownKeys && b in KnownKeys && a != b
    ensures PlanFor(a) != PlanFor(b)
  {
  }

  /** What calling `plan.retrieve(query)` returns. */
  function Retrieve(index: Index, retrieval: Retrieval, query: string): Result<seq<Record>> {
    match retrieval
    case Compare => RetrieveCompare(index, query)
    case Top5Risks => Boost(index, query, Top5Calls, Top5Cap)
    case Deadlines => Boost(index, query, DeadlineCalls, DeadlineCap)
    case TopRisks => Boost(index, query, TopRiskCalls, TopRiskCap)
    case Single(c) => RunCall(index, query, c)
  }

  /** `plan.retrieve(query)`, dispatched to the task's own retrieval. */
  method RunRetrieve(index: Index, retrieval: Retrieval, query: string) returns (r: Result<seq<Record>>)
    ensures r == Retrieve(index, retrieval, query)
  {
    match retrieval
    case Compare => r := RetrieveCompare(index, query);
    case Top5Risks => r := RetrieveTop5Risks(index, query);
    case Deadlines => r := RetrieveDeadlines(index, query);
    case TopRisks => r := RetrieveTopRisks(index, query);
    case Single(c) => r := RunSearchCall(index, query, c);
  }
}
