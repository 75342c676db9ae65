/** `planner_agent`: replaces the plan with the fixed four steps and logs one trace row. */
module Planner {
  import opened PyStr
  import opened SharedState

  const PlanSteps: seq<string> := [
    "Clarify the user goal + required outputs (deliverable package).",
    "Retrieve relevant evidence from provided documents.",
    "Draft deliverables strictly from evidence.",
    "Verify: check citations, missing evidence, contradictions. Enforce 'Not found in sources'."
  ]

  /** The trace row the planner appends; its outcome reports the plan's length. */
  function PlanRow(plan: seq<string>): TraceRow {
    TraceRow("plan", "planner", "Created execution plan for multi-agent workflow",
             "Plan created with " + NatToString(|plan|) + " steps")
  }

  /** The planner's row always reports four steps. */
  lemma PlanRowReportsFour()
    ensures |PlanSteps| == 4
    ensures PlanRow(PlanSteps).outcome == "Plan created with 4 steps"
  {
    assert NatToString(4) == "4";
  }

  /** `planner_agent(state)`: the plan becomes the fixed steps and one row is appended; nothing else changes. */
  method PlannerAgent(state: State)
    modifies state`plan, state`trace
    ensures state.plan == PlanSteps
    ensures state.trace == old(state.trace) + [PlanRow(PlanSteps)]
  {
    state.plan := PlanSteps;
    state.trace := state.trace + [PlanRow(state.plan)];
  }
}
