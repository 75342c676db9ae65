/**
 * The record threaded through the four agents: citations, research notes, trace rows and
 * the mutable state object itself, with the defaults a freshly built state starts from.
 */
module SharedState {
  import opened Wrappers

  /** A pointer from a claim to its evidence. */
  datatype Citation = Citation(sourceId: string, quote: string, location: string)

  /** A claim and the citations that support it; no citation means "no evidence". */
  datatype ResearchNote = ResearchNote(claim: string, citations: seq<Citation>)

  /** One row of the append-only trace log. */
  datatype TraceRow = TraceRow(step: string, agent: string, action: string, outcome: string)

  /** The only value the pipeline writes into `meta`: the researcher's "retrieval_debug" record. */
  datatype MetaValue = RetrievalDebug(
    taskKey: Option<string>, query: string, retrievedCount: nat, actionLabel: string, hasPostprocess: bool)

  const NotFoundClaim: string := "Not found in the sources."

  /** The "no evidence" note: the fixed claim and no citation. */
  const SentinelNote: ResearchNote := ResearchNote(NotFoundClaim, [])

  /** Some note carries at least one citation: the evidence test of both the writer and the verifier. */
  predicate Cited(notes: seq<ResearchNote>) {
    exists k :: 0 <= k < |notes| && notes[k].citations != []
  }

  /**
   * The early-return scan both the writer (`_has_citations`) and the verifier
   * (`_has_any_citations`) run: is there a note with a non-empty citation list?
   */
  method HasCitations(notes: seq<ResearchNote>) returns (found: bool)
    ensures found <==> Cited(notes)
  {
    for i := 0 to |notes|
      invariant forall k :: 0 <= k < i ==> notes[k].citations == []
    {
      if |notes[i].citations| > 0 {
        return true;
      }
    }
    return false;
  }

  class State {
    var task: string
    var taskKey: Option<string>
    var taskText: Option<string>
    var plan: seq<string>
    var researchNotes: seq<ResearchNote>
    var draft: Option<string>
    var verificationNotes: seq<string>
    var finalOutput: Option<string>
    var trace: seq<TraceRow>
    var meta: map<string, MetaValue>

    /** A new state: the three given fields, every list and map empty, no draft and no final output. */
    constructor (task: string, taskKey: Option<string>, taskText: Option<string>)
      ensures this.task == task && this.taskKey == taskKey && this.taskText == taskText
      ensures plan == [] && researchNotes == [] && verificationNotes == [] && trace == [] && meta == map[]
      ensures draft == None && finalOutput == None
    {
      this.task := task;
      this.taskKey := taskKey;
      this.taskText := taskText;
      plan := [];
      researchNotes := [];
      draft := None;
      verificationNotes := [];
      finalOutput := None;
      trace := [];
      meta := map[];
    }
  }
}
