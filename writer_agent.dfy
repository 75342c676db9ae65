/**
 * `writer_agent`: turns the research notes into a draft. Without a cited note the draft is the
 * fixed "Not found" package; the three locked task keys go to their deterministic builders;
 * every other task goes to the language model with a numbered evidence block, unless that
 * block is blank. The language model is a parameter: a function from the system and user
 * prompts to the message content, which may be absent.
 */
module Writer {
  import opened Wrappers
  import opened PyStr
  import opened Seqs
  import opened SharedState
  import DeterministicCompare
  import DeterministicDeadlines
  import DeterministicTop5

  const NotFoundDraft: string := "## Deliverable Package\n\n### Executive Summary\n- Not found in the sources.\n"

  const CompareKey: string := "compare_approaches"
  const DeadlinesKey: string := "extract_deadlines_and_owners"
  const Top5Key: string := "top5_risks_mitigations_strict"

  const SystemPrompt: string :=
    "You are a grounded business analyst.\n" +
    "You MUST use ONLY the provided evidence.\n" +
    "If evidence is missing, write: 'Not found in sources'.\n" +
    "Do NOT invent facts.\n" +
    "Every claim must be supported by the evidence.\n"

  const OutputRules: string :=
    "Output rules:\n" +
    "- Use clear headings\n" +
    "- Keep it concise and client-ready\n" +
    "- Include inline citations like (doc:file.md#chunk_0)\n" +
    "- End with a Citations list of the source_ids you used\n"

  /** The user prompt: the task, then the evidence block, then the output rules. */
  function UserPrompt(task: string, evidence: string): string {
    TaskHead + task + EvidenceHead + evidence + RulesTail
  }

  const TaskHead: string := "Task:\n"
  const EvidenceHead: string := "\n\nEvidence:\n"
  const RulesTail: string := "\n\n" + OutputRules

  /** The language model: system prompt, user prompt, and the message content it returns. */
  type Llm = (string, string) -> Option<string>

  // ---------------------------------------------------------------------------
  // Evidence text of a note
  // ---------------------------------------------------------------------------

  /** A citation's quote, stripped, when it is not blank. */
  function QuoteOf(c: Citation): (q: Option<string>)
    ensures q.Some? ==> q.value == Strip(c.quote) && IsEvidenceText(q.value)
  {
    if IsBlank(c.quote) then None else Some(Strip(c.quote))
  }

  /** Text that can stand as evidence: non-empty, with no whitespace at either end. */
  predicate IsEvidenceText(s: string) {
    s != [] && IsStripped(s)
  }

  /**
   * `_note_text(n)`: the stripped claim when it is not blank, else the non-blank quotes of the
   * citations, stripped and joined by newlines (`""` when there is none).
   */
  function NoteText(n: ResearchNote): string {
    if !IsBlank(n.claim) then Strip(n.claim) else Join("\n", FilterMap(n.citations, QuoteOf))
  }

  /** `_note_text` as the loop over the citations that collects the quotes. */
  method NoteTextOf(n: ResearchNote) returns (text: string)
    ensures text == NoteText(n)
  {
    var claim := Strip(n.claim);
    if claim != "" {
      return claim;
    }
    var parts: seq<string> := [];
    for j := 0 to |n.citations|
      invariant parts == FilterMap(n.citations[..j], QuoteOf)
    {
      FilterMapSnoc(n.citations, QuoteOf, j);
      var q := Strip(n.citations[j].quote);
      if q != "" {
        parts := parts + [q];
      }
    }
    assert n.citations[..|n.citations|] == n.citations;
    if |parts| > 0 {
      return Join("\n", parts);
    }
    return "";
  }

  /** The evidence text is empty exactly when the claim and every quote are blank. */
  lemma NoteTextEmpty(n: ResearchNote)
    ensures NoteText(n) == "" <==> IsBlank(n.claim) && forall j :: 0 <= j < |n.citations| ==> IsBlank(n.citations[j].quote)
  {
    FilterMapEmpty(n.citations, QuoteOf);
    if IsBlank(n.claim) && FilterMap(n.citations, QuoteOf) != [] {
      var parts := FilterMap(n.citations, QuoteOf);
      FilterMapExact(n.citations, QuoteOf);
      var a :| 0 <= a < |n.citations| && QuoteOf(n.citations[a]) == Some(parts[0]);
      JoinStartsWith("\n", parts);
    }
  }

  /** The evidence text never starts or ends with whitespace. */
  lemma NoteTextStripped(n: ResearchNote)
    ensures IsStripped(NoteText(n))
  {
    var parts := FilterMap(n.citations, QuoteOf);
    if IsBlank(n.claim) && parts != [] {
      FilterMapAll(n.citations, QuoteOf, IsEvidenceText);
      JoinStartsWith("\n", parts);
      JoinEndsWith("\n", parts);
      var first := parts[0];
      var last := parts[|parts| - 1];
      assert IsEvidenceText(first) && IsEvidenceText(last);
      FramedStripped(Join("\n", parts), first, last);
    }
  }

  /** With a blank claim, every non-blank quote occurs, stripped, in the evidence text. */
  lemma NoteTextHoldsQuotes(n: ResearchNote)
    ensures IsBlank(n.claim) ==>
              forall j :: 0 <= j < |n.citations| && !IsBlank(n.citations[j].quote) ==>
                Contains(NoteText(n), Strip(n.citations[j].quote))
  {
    var parts := FilterMap(n.citations, QuoteOf);
    FilterMapExact(n.citations, QuoteOf);
    forall j | 0 <= j < |n.citations| && !IsBlank(n.citations[j].quote)
      ensures Contains(Join("\n", parts), Strip(n.citations[j].quote))
    {
      var q := Strip(n.citations[j].quote);
      assert QuoteOf(n.citations[j]) == Some(q);
      var k :| 0 <= k < |parts| && parts[k] == q;
      JoinContains("\n", parts, k);
    }
  }

  // ---------------------------------------------------------------------------
  // The evidence block
  // ---------------------------------------------------------------------------

  /** A note together with its position in the note list. */
  datatype Entry = Entry(pos: nat, note: ResearchNote)

  function Entries(notes: seq<ResearchNote>): (es: seq<Entry>)
    ensures |es| == |notes|
    ensures forall i :: 0 <= i < |notes| ==> es[i] == Entry(i, notes[i])
  {
    seq(|notes|, i requires 0 <= i < |notes| => Entry(i, notes[i]))
  }

  /** A note contributes a block when it has a citation and some evidence text. */
  predicate Usable(n: ResearchNote) {
    n.citations != [] && NoteText(n) != ""
  }

  /** The 1-based number that opens the block of the note at position `pos`. */
  function Label(pos: nat): string {
    "[" + NatToString(pos + 1) + "] "
  }

  /** The block's text: the evidence, then the first citation's source id and location. */
  function Body(n: ResearchNote): string
    requires n.citations != []
  {
    NoteText(n) + "\n(Source: " + n.citations[0].sourceId + " | " + n.citations[0].location + ")"
  }

  /** The block for the note at position `pos`. */
  function Block(pos: nat, n: ResearchNote): string
    requires n.citations != []
  {
    Label(pos) + Body(n)
  }

  function BlockOf(e: Entry): Option<string> {
    if Usable(e.note) then Some(Block(e.pos, e.note)) else None
  }

  function ContextParts(notes: seq<ResearchNote>): seq<string> {
    FilterMap(Entries(notes), BlockOf)
  }

  /** `_build_context(notes)`: the blocks of the usable notes, in order, separated by blank lines. */
  function BuildContext(notes: seq<ResearchNote>): string {
    Join("\n\n", ContextParts(notes))
  }

  /** `_build_context` as the loop over the notes that collects the blocks. */
  method BuildContextOf(notes: seq<ResearchNote>) returns (block: string)
    ensures block == BuildContext(notes)
  {
    ghost var es := Entries(notes);
    var parts: seq<string> := [];
    for i := 0 to |notes|
      invariant parts == FilterMap(es[..i], BlockOf)
    {
      FilterMapSnoc(es, BlockOf, i);
      var evidence := NoteTextOf(notes[i]);
      var citations := notes[i].citations;
      if |citations| == 0 || evidence == "" {
        continue;
      }
      var first := citations[0];
      var number := "[" + NatToString(i + 1) + "] ";
      parts := parts + [number + (evidence + "\n(Source: " + first.sourceId + " | " + first.location + ")")];
    }
    assert es[..|notes|] == es;
    return Join("\n\n", parts);
  }

  /**
   * The blocks are exactly those of the usable notes: each usable note at position `i` gives the
   * block numbered `i + 1`, and every block is one of these.
   */
  lemma ContextPartsExact(notes: seq<ResearchNote>)
    ensures forall i :: 0 <= i < |notes| && Usable(notes[i]) ==> Block(i, notes[i]) in ContextParts(notes)
    ensures forall p :: p in ContextParts(notes) ==>
              exists i :: 0 <= i < |notes| && Usable(notes[i]) && p == Block(i, notes[i])
  {
    var es := Entries(notes);
    FilterMapExact(es, BlockOf);
    forall i | 0 <= i < |notes| && Usable(notes[i]) ensures Block(i, notes[i]) in ContextParts(notes) {
      assert BlockOf(es[i]) == Some(Block(i, notes[i]));
    }
    forall p | p in ContextParts(notes)
      ensures exists i :: 0 <= i < |notes| && Usable(notes[i]) && p == Block(i, notes[i])
    {
      var k :| 0 <= k < |ContextParts(notes)| && ContextParts(notes)[k] == p;
      var i :| 0 <= i < |es| && BlockOf(es[i]) == Some(p);
      assert es[i] == Entry(i, notes[i]);
    }
  }

  /** Two texts opened by labels can only be equal when the labels are. */
  lemma LabelsDistinct(i: nat, x: string, j: nat, y: string)
    ensures Label(i) + x == Label(j) + y ==> i == j
  {
    var sa := NatToString(i + 1);
    var sb := NatToString(j + 1);
    var u := Label(i) + x;
    var v := Label(j) + y;
    if u == v {
      assert forall k :: 0 <= k < |sa| ==> u[1 + k] == sa[k];
      assert forall k :: 0 <= k < |sb| ==> v[1 + k] == sb[k];
      assert u[1 + |sa|] == ']' && v[1 + |sb|] == ']';
      assert |sa| == |sb|;
      assert sa == u[1..1 + |sa|] && sb == v[1..1 + |sb|];
      NatToStringInjective(i + 1, j + 1);
    }
  }

  /** Two blocks with the same text come from the same position: the numbers never collide. */
  lemma BlockNumbersDistinct(i: nat, a: ResearchNote, j: nat, b: ResearchNote)
    requires a.citations != [] && b.citations != []
    ensures Block(i, a) == Block(j, b) ==> i == j
  {
    LabelsDistinct(i, Body(a), j, Body(b));
  }

  /** The evidence block is blank exactly when no note is usable. */
  lemma BlankContext(notes: seq<ResearchNote>)
    ensures IsBlank(BuildContext(notes)) <==> forall i :: 0 <= i < |notes| ==> !Usable(notes[i])
  {
    var es := Entries(notes);
    var parts := ContextParts(notes);
    FilterMapEmpty(es, BlockOf);
    assert forall i :: 0 <= i < |notes| ==> (BlockOf(es[i]).None? <==> !Usable(notes[i]));
    if parts != [] {
      FilterMapExact(es, BlockOf);
      var i :| 0 <= i < |es| && BlockOf(es[i]) == Some(parts[0]);
      assert parts[0][0] == '[';
      JoinStartsWith("\n\n", parts);
      assert BuildContext(notes)[0] == '[';
    }
  }

  // ---------------------------------------------------------------------------
  // The agent
  // ---------------------------------------------------------------------------

  /** What the writer sets: the draft and the trace row it appends. */
  datatype Draft = Draft(draft: Option<string>, row: TraceRow)

  function DraftRow(action: string, outcome: string): TraceRow {
    TraceRow("draft", "writer", action, outcome)
  }

  const NoCitationsRow: TraceRow := DraftRow("Draft generation", "No citations available")
  const CompareRow: TraceRow := DraftRow("Deterministic comparison (Option A vs Option B)",
                                         "Produced 2–4 bullets per option + exactly 3 grounded reasons")
  const DeadlinesRow: TraceRow := DraftRow("Deterministic extraction (deadlines + owners)",
                                           "Extracted rows only from explicit evidence (no invented items)")
  const Top5Row: TraceRow := DraftRow("Deterministic extraction (top5 strict risks)",
                                      "Extracted risks from evidence (+optional pricing support when found)")
  const BlankEvidenceRow: TraceRow := DraftRow("Draft generation", "Evidence block empty after filtering")
  const LlmRow: TraceRow := DraftRow("LLM grounded generation", "Draft created using evidence")

  /** The stripped task keys whose drafts are built without the model. */
  const LockedKeys: set<string> := {CompareKey, DeadlinesKey, Top5Key}

  /** The draft of a locked key: its deterministic builder's output and its row. */
  function LockedDraft(notes: seq<ResearchNote>, key: string): Draft
    requires key in LockedKeys
  {
    if key == CompareKey then Draft(Some(DeterministicCompare.CompareMarkdown(notes)), CompareRow)
    else if key == DeadlinesKey then Draft(Some(DeterministicDeadlines.DeadlinesMarkdown(notes)), DeadlinesRow)
    else Draft(Some(DeterministicTop5.Top5Markdown(notes)), Top5Row)
  }

  /** The draft of any other key: the fixed package for a blank evidence block, else the model's answer. */
  function ModelDraft(notes: seq<ResearchNote>, task: string, llm: Llm): Draft {
    var evidence := BuildContext(notes);
    if IsBlank(evidence) then Draft(Some(NotFoundDraft), BlankEvidenceRow)
    else Draft(llm(SystemPrompt, UserPrompt(task, evidence)), LlmRow)
  }

  /** The writer's decision for these notes, the stripped task key, the task and the model. */
  function WriterStep(notes: seq<ResearchNote>, key: string, task: string, llm: Llm): Draft {
    if !Cited(notes) then Draft(Some(NotFoundDraft), NoCitationsRow)
    else if key in LockedKeys then LockedDraft(notes, key)
    else ModelDraft(notes, task, llm)
  }

  /** The locked branches of `writer_agent`: each key calls its builder. */
  method BuildLockedDraft(notes: seq<ResearchNote>, key: string) returns (d: Draft)
    requires key in LockedKeys
    ensures d == LockedDraft(notes, key)
  {
    if key == CompareKey {
      var md := DeterministicCompare.BuildCompareMarkdown(notes);
      return Draft(Some(md), CompareRow);
    }
    if key == DeadlinesKey {
      var md := DeterministicDeadlines.BuildDeadlinesMarkdown(notes);
      return Draft(Some(md), DeadlinesRow);
    }
    var md := DeterministicTop5.BuildTop5StrictRisksMarkdown(notes);
    return Draft(Some(md), Top5Row);
  }

  /** The model branch of `writer_agent`: build the evidence block, then ask the model unless it is blank. */
  method BuildModelDraft(notes: seq<ResearchNote>, task: string, llm: Llm) returns (d: Draft)
    ensures d == ModelDraft(notes, task, llm)
  {
    var evidenceBlock := BuildContextOf(notes);
    if Strip(evidenceBlock) == "" {
      return Draft(Some(NotFoundDraft), BlankEvidenceRow);
    }
    var content := llm(SystemPrompt, UserPrompt(task, evidenceBlock));
    return Draft(content, LlmRow);
  }

  /**
   * `writer_agent(state)`: sets the draft and appends exactly one trace row; the research notes,
   * the task and every other field are left as they were.
   */
  method WriterAgent(state: State, llm: Llm)
    modifies state`draft, state`trace
    ensures var d := WriterStep(old(state.researchNotes), Strip(old(state.taskKey).GetOr("")), old(state.task), llm);
            state.draft == d.draft && state.trace == old(state.trace) + [d.row]
  {
    var d := DecideDraft(state.researchNotes, Strip(state.taskKey.GetOr("")), state.task, llm);
    state.draft := d.draft;
    state.trace := state.trace + [d.row];
  }

  /** The branches of `writer_agent`, in the order it tests them. */
  method DecideDraft(notes: seq<ResearchNote>, taskKey: string, task: string, llm: Llm) returns (d: Draft)
    ensures d == WriterStep(notes, taskKey, task, llm)
  {
    var cited := HasCitations(notes);
    if !cited {
      return Draft(Some(NotFoundDraft), NoCitationsRow);
    }
    if taskKey in LockedKeys {
      d := BuildLockedDraft(notes, taskKey);
    } else {
      d := BuildModelDraft(notes, task, llm);
    }
  }

  /** Every row the writer appends has step "draft" and agent "writer". */
  lemma WriterRowShape(notes: seq<ResearchNote>, key: string, task: string, llm: Llm)
    ensures WriterStep(notes, key, task, llm).row.step == "draft"
    ensures WriterStep(notes, key, task, llm).row.agent == "writer"
  {
  }

  /**
   * Without a cited note the draft is the fixed "Not found in the sources." package, whatever the
   * task key, the task and the model: nothing is generated.
   */
  lemma WriterNoCitations(notes: seq<ResearchNote>, key: string, task: string, llm: Llm,
                          key2: string, task2: string, llm2: Llm)
    ensures !Cited(notes) ==>
              WriterStep(notes, key, task, llm).draft == Some(NotFoundDraft) &&
              WriterStep(notes, key, task, llm) == WriterStep(notes, key2, task2, llm2)
  {
  }

  /**
   * A locked key with cited notes gives its deterministic builder's output, the same for any task
   * text and any model: the model is never consulted.
   */
  lemma WriterLocked(notes: seq<ResearchNote>, key: string, task: string, llm: Llm, task2: string, llm2: Llm)
    ensures Cited(notes) && key in LockedKeys ==>
              WriterStep(notes, key, task, llm) == WriterStep(notes, key, task2, llm2) &&
              WriterStep(notes, key, task, llm).draft ==
                Some(if key == CompareKey then DeterministicCompare.CompareMarkdown(notes)
                     else if key == DeadlinesKey then DeterministicDeadlines.DeadlinesMarkdown(notes)
                     else DeterministicTop5.Top5Markdown(notes))
  {
  }

  /**
   * Any other key with cited notes but no usable note gives the fixed package and the
   * "Evidence block empty after filtering" row, whatever the model.
   */
  lemma WriterBlankEvidence(notes: seq<ResearchNote>, key: string, task: string, llm: Llm, llm2: Llm)
    ensures Cited(notes) && key !in LockedKeys && (forall i :: 0 <= i < |notes| ==> !Usable(notes[i])) ==>
              WriterStep(notes, key, task, llm) == Draft(Some(NotFoundDraft), BlankEvidenceRow) &&
              WriterStep(notes, key, task, llm) == WriterStep(notes, key, task, llm2)
  {
    BlankContext(notes);
  }

  /**
   * Any other key with cited notes and some usable note gives the model's answer to the fixed
   * system prompt and the user prompt built on the evidence block.
   */
  lemma WriterCallsModel(notes: seq<ResearchNote>, key: string, task: string, llm: Llm)
    ensures Cited(notes) && key !in LockedKeys && (exists i :: 0 <= i < |notes| && Usable(notes[i])) ==>
              WriterStep(notes, key, task, llm) ==
                Draft(llm(SystemPrompt, UserPrompt(task, BuildContext(notes))), LlmRow)
  {
    BlankContext(notes);
  }

  /** The user prompt holds the task and the evidence block. */
  lemma PromptHolds(task: string, evidence: string)
    ensures Contains(UserPrompt(task, evidence), task)
    ensures forall sub :: Contains(evidence, sub) ==> Contains(UserPrompt(task, evidence), sub)
  {
    var withTask := TaskHead + task;
    var withHead := withTask + EvidenceHead;
    ContainsAt(task, task, 0);
    ContainsSuffix(TaskHead, task, task);
    ContainsPrefix(withTask, EvidenceHead, task);
    ContainsPrefix(withHead, evidence, task);
    ContainsPrefix(withHead + evidence, RulesTail, task);
    forall sub | Contains(evidence, sub) ensures Contains(UserPrompt(task, evidence), sub) {
      ContainsSuffix(withHead, evidence, sub);
      ContainsPrefix(withHead + evidence, RulesTail, sub);
    }
  }

  /** The evidence block holds the block of every usable note. */
  lemma ContextHoldsBlocks(notes: seq<ResearchNote>)
    ensures forall i :: 0 <= i < |notes| && Usable(notes[i]) ==> Contains(BuildContext(notes), Block(i, notes[i]))
  {
    ContextPartsExact(notes);
    forall i | 0 <= i < |notes| && Usable(notes[i]) ensures Contains(BuildContext(notes), Block(i, notes[i])) {
      var parts := ContextParts(notes);
      var k :| 0 <= k < |parts| && parts[k] == Block(i, notes[i]);
      JoinContains("\n\n", parts, k);
    }
  }

  /** The user prompt holds the task and the block of every usable note. */
  lemma PromptHoldsEvidence(notes: seq<ResearchNote>, task: string)
    ensures Contains(UserPrompt(task, BuildContext(notes)), task)
    ensures forall i :: 0 <= i < |notes| && Usable(notes[i]) ==>
              Contains(UserPrompt(task, BuildContext(notes)), Block(i, notes[i]))
  {
    PromptHolds(task, BuildContext(notes));
    ContextHoldsBlocks(notes);
  }
}
