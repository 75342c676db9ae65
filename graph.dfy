/**
 * `run_task`: a fresh state for the task runs through the planner, the researcher, the writer
 * and the verifier, in that order, each exactly once.
 */
module Graph {
  import opened Wrappers
  import opened PyStr
  import opened SharedState
  import opened Retriever
  import Planner
  import Researcher
  import Writer
  import Verifier

  /**
   * The writer node: `writer_agent` appends one "draft" row by "writer", keeps the rows before it,
   * and touches neither the notes nor the verifier's fields.
   */
  method WriterNode(state: State, llm: Writer.Llm) returns (row: TraceRow)
    modifies state`draft, state`trace
    ensures state.trace == old(state.trace) + [row]
    ensures row.agent == "writer" && row.step == "draft"
  {
    Writer.WriterAgent(state, llm);
    Writer.WriterRowShape(old(state.researchNotes), Strip(old(state.taskKey).GetOr("")), old(state.task), llm);
    row := state.trace[|state.trace| - 1];
  }

  /**
   * The researcher node: `researcher_agent` appends one "research" row by "researcher", keeps the
   * rows before it, and touches only the notes, the trace and `meta`.
   */
  method ResearcherNode(state: State, index: Index, raw: string) returns (row: TraceRow)
    modifies state`researchNotes, state`trace, state`meta
    ensures state.trace == old(state.trace) + [row]
    ensures row.agent == "researcher" && row.step == "research"
  {
    Researcher.ResearcherAgent(state, index, raw);
    Researcher.ResearchRowShape(old(state.task), old(state.taskKey), old(state.taskText), Researcher.FetchFrom(index), raw);
    row := state.trace[|state.trace| - 1];
  }

  /**
   * The verifier node: `verifier_agent` appends its one row, keeps the rows before it, and sets the
   * verification notes and the final output from the notes and the draft, which it leaves alone.
   */
  method VerifierNode(state: State) returns (row: TraceRow)
    modifies state`verificationNotes, state`finalOutput, state`trace
    ensures state.trace == old(state.trace) + [row]
    ensures row == Verifier.VerifyRow(state.verificationNotes)
    ensures state.verificationNotes == Verifier.Problems(state.researchNotes)
    ensures state.finalOutput == Some(Verifier.FinalText(state.verificationNotes, state.draft))
  {
    Verifier.VerifierAgent(state);
    row := state.trace[|state.trace| - 1];
  }

  /**
   * `run_task(task, task_key)`, with the index, the hook's file text and the model as parameters:
   * a fresh state with `task_text` set to the task; the plan is the fixed four steps, the verdict
   * is the verifier's on the notes and the draft it receives, and the trace holds exactly one row
   * per agent, in the wired order.
   */
  method RunTask(task: string, taskKey: Option<string>, index: Index, raw: string, llm: Writer.Llm)
    returns (state: State)
    ensures fresh(state)
    ensures state.task == task && state.taskKey == taskKey && state.taskText == Some(task)
    ensures state.plan == Planner.PlanSteps
    ensures |state.trace| == 4 && state.trace[0] == Planner.PlanRow(Planner.PlanSteps)
    ensures state.verificationNotes == Verifier.Problems(state.researchNotes)
    ensures state.finalOutput == Some(Verifier.FinalText(state.verificationNotes, state.draft))
    ensures state.trace[1].agent == "researcher" && state.trace[1].step == "research"
    ensures state.trace[2].agent == "writer" && state.trace[2].step == "draft"
    ensures state.trace[3] == Verifier.VerifyRow(state.verificationNotes)
  {
    state := new State(task, taskKey, Some(task));
    Planner.PlannerAgent(state);
    var researched := ResearcherNode(state, index, raw);
    var drafted := WriterNode(state, llm);
    var verified := VerifierNode(state);
  }

  /**
   * End to end: without a cited note the writer's draft is the fixed "Not found" package and the
   * final output is the blocked template, whatever the task key and the model; with one, the
   * final output is the writer's draft followed by the approval footer.
   */
  lemma RunGrounding(notes: seq<ResearchNote>, key: string, task: string, llm: Writer.Llm)
    ensures var d := Writer.WriterStep(notes, key, task, llm);
            var out := Verifier.FinalText(Verifier.Problems(notes), d.draft);
            (!Cited(notes) ==> d.draft == Some(Writer.NotFoundDraft) && StartsWith(out, Verifier.BlockedHeader)) &&
            (Cited(notes) ==> StartsWith(out, d.draft.GetOr("")) && EndsWith(out, Verifier.ApprovedFooter))
  {
    var d := Writer.WriterStep(notes, key, task, llm);
    Verifier.VerifierVerdict(notes, d.draft);
  }
}
