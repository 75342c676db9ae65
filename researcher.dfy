/**
 * `researcher_agent`: derives the query, runs the task's retrieval plan, turns the records into
 * research notes (or the "not found" sentinel), runs the plan's postprocess hook and records
 * the retrieval debug entry and one trace row.
 */
module Researcher {
  import opened Wrappers
  import opened PyStr
  import opened Seqs
  import opened SharedState
  import opened Retriever
  import opened Registry
  import opened CompareApproachesPlan

  const QuoteLimit: nat := 260
  const RetrievalDebugKey: string := "retrieval_debug"

  /** `_extract_query`: the stripped task text when it is non-blank, else the stripped task. */
  function ExtractQuery(taskText: Option<string>, task: string): (q: string)
    ensures IsStripped(q)
    ensures q == "" <==> (taskText.None? || IsBlank(taskText.value)) && IsBlank(task)
    ensures taskText.Some? && !IsBlank(taskText.value) ==> q == Strip(taskText.value)
    ensures (taskText.None? || IsBlank(taskText.value)) ==> q == Strip(task)
  {
    if taskText.Some? && Strip(taskText.value) != "" then Strip(taskText.value) else Strip(task)
  }

  /** The content on one line: every newline replaced by a space, then stripped. */
  function OneLine(content: string): (flat: string)
    ensures forall j :: 0 <= j < |flat| ==> flat[j] != '\n'
    ensures IsStripped(flat)
  {
    StripKeepsAbsent(ReplaceChar(content, '\n', ' '), '\n');
    Strip(ReplaceChar(content, '\n', ' '))
  }

  /** The quote of a note: the content on one line, cut to 260 characters plus "..." when longer. */
  function QuoteOf(content: string): (q: string)
    ensures forall j :: 0 <= j < |q| ==> q[j] != '\n'
    ensures |q| <= QuoteLimit + 3
    ensures var flat := OneLine(content);
            (|flat| <= QuoteLimit ==> q == flat) &&
            (|flat| > QuoteLimit ==> q == flat[..QuoteLimit] + "..." && StartsWith(q, flat[..QuoteLimit]))
  {
    var flat := OneLine(content);
    if |flat| > QuoteLimit then CutStaysOneLine(flat); flat[..QuoteLimit] + "..." else flat
  }

  /**
   * Cutting a line without newlines and marking the cut gives 263 characters, no newline, and
   * the first 260 characters of the line in front.
   */
  lemma CutStaysOneLine(flat: string)
    requires |flat| > QuoteLimit
    requires forall j :: 0 <= j < |flat| ==> flat[j] != '\n'
    ensures var q := flat[..QuoteLimit] + "...";
            |q| == QuoteLimit + 3 && StartsWith(q, flat[..QuoteLimit]) &&
            forall j :: 0 <= j < |q| ==> q[j] != '\n'
  {
    var q := flat[..QuoteLimit] + "...";
    assert q[..QuoteLimit] == flat[..QuoteLimit];
    forall j | 0 <= j < |q| ensures q[j] != '\n' {
      if j < QuoteLimit {
        assert q[j] == flat[j];
      } else {
        assert q[j] == "..."[j - QuoteLimit];
      }
    }
  }

  /** The note one retrieval record becomes, or none when its content is blank. */
  function NoteOf(r: Record): (n: Option<ResearchNote>)
    ensures n.Some? <==> !IsBlank(r.content)
    ensures n.Some? ==>
              n.value.claim == Strip(r.content) && IsStripped(n.value.claim) && n.value.claim != "" &&
              |n.value.citations| == 1 &&
              n.value.citations[0] == Citation(Strip(Or(r.sourceId, "unknown_source")), QuoteOf(n.value.claim),
                                               Strip(Or(r.locator, "unknown location")))
  {
    var content := Strip(r.content);
    if content == "" then None
    else Some(ResearchNote(content, [Citation(Strip(Or(r.sourceId, "unknown_source")), QuoteOf(content),
                                              Strip(Or(r.locator, "unknown location")))]))
  }

  /** The notes `_normalize_results_to_notes` builds, in record order. */
  function Normalize(results: seq<Record>): seq<ResearchNote> {
    FilterMap(results, NoteOf)
  }

  /** The body of the loop of `_normalize_results_to_notes` for one record. */
  method NormalizeOne(r: Record) returns (n: Option<ResearchNote>)
    ensures n == NoteOf(r)
  {
    var content := Strip(r.content);
    if content == "" {
      return None;
    }
    var quote := OneLine(content);
    if |quote| > QuoteLimit {
      quote := quote[..QuoteLimit] + "...";
    }
    var citation := Citation(Strip(Or(r.sourceId, "unknown_source")), quote, Strip(Or(r.locator, "unknown location")));
    return Some(ResearchNote(content, [citation]));
  }

  /** `_normalize_results_to_notes(results)`. */
  method NormalizeResultsToNotes(results: seq<Record>) returns (notes: seq<ResearchNote>)
    ensures notes == Normalize(results)
  {
    notes := [];
    for i := 0 to |results|
      invariant notes == FilterMap(results[..i], NoteOf)
    {
      var n := NormalizeOne(results[i]);
      FilterMapSnoc(results, NoteOf, i);
      if n.Some? {
        notes := notes + [n.value];
      }
    }
    assert results[..|results|] == results;
  }

  /**
   * Every note has a non-blank stripped claim and exactly one citation, whose quote is a single
   * line of at most 263 characters.
   */
  lemma NormalizedNotesWellFormed(rs: seq<Record>)
    ensures forall k :: 0 <= k < |Normalize(rs)| ==>
              var n := Normalize(rs)[k];
              n.claim != "" && IsStripped(n.claim) && |n.citations| == 1 &&
              |n.citations[0].quote| <= QuoteLimit + 3 &&
              forall j :: 0 <= j < |n.citations[0].quote| ==> n.citations[0].quote[j] != '\n'
  {
    FilterMapExact(rs, NoteOf);
    forall k | 0 <= k < |Normalize(rs)|
      ensures var n := Normalize(rs)[k];
              n.claim != "" && IsStripped(n.claim) && |n.citations| == 1 &&
              |n.citations[0].quote| <= QuoteLimit + 3 &&
              forall j :: 0 <= j < |n.citations[0].quote| ==> n.citations[0].quote[j] != '\n'
    {
      var j :| 0 <= j < |rs| && NoteOf(rs[j]) == Some(Normalize(rs)[k]);
    }
  }

  /**
   * Normalisation drops exactly the blank records and keeps the others in order: there are no
   * more notes than records, nothing comes out exactly when every record is blank, every
   * non-blank record's note is among the notes, and normalising a concatenation normalises each
   * part in turn.
   */
  lemma NormalizeShape(a: seq<Record>, b: seq<Record>)
    ensures |Normalize(a)| <= |a|
    ensures Normalize(a) == [] <==> forall j :: 0 <= j < |a| ==> IsBlank(a[j].content)
    ensures forall j :: 0 <= j < |a| && !IsBlank(a[j].content) ==> NoteOf(a[j]).value in Normalize(a)
    ensures Normalize(a + b) == Normalize(a) + Normalize(b)
  {
    FilterMapLength(a, NoteOf);
    FilterMapEmpty(a, NoteOf);
    FilterMapAppend(a, b, NoteOf);
    FilterMapExact(a, NoteOf);
  }

  /** The notes written when retrieval succeeds with `results`, before the postprocess hook. */
  function NotesFor(results: seq<Record>): seq<ResearchNote> {
    if results == [] then [SentinelNote]
    else if Normalize(results) != [] then Normalize(results)
    else [SentinelNote]
  }

  /** The outcome logged when retrieval succeeds with `results`. */
  function OutcomeFor(results: seq<Record>): string {
    if results == [] then "No relevant documents retrieved"
    else if Normalize(results) != [] then "Retrieved " + NatToString(|Normalize(results)|) + " chunks"
    else "Retrieved chunks but all were empty after normalization"
  }

  /** The outcome logged when retrieval raises. */
  function ErrorOutcome(e: Raised): string {
    "Retrieval error: " + e.typeName + ": " + Take(e.message, 160)
  }

  /** The plan's postprocess hook applied to the notes; `raw` is the text the hook reads. */
  function Postprocess(hook: Option<Hook>, notes: seq<ResearchNote>, raw: string): seq<ResearchNote> {
    match hook
    case None => notes
    case Some(InjectOptionsAnchor) => InjectAnchor(notes, raw)
  }

  /** What one researcher step writes: the notes, the trace row, and the debug entry if any. */
  datatype ResearchEffect = ResearchEffect(notes: seq<ResearchNote>, row: TraceRow, debug: Option<MetaValue>)

  /** What the researcher writes once the plan `plan` has run on the non-blank `query` and produced `got`. */
  function AfterRetrieval(taskKey: Option<string>, query: string, plan: ResearchPlan, got: Result<seq<Record>>, raw: string): ResearchEffect {
    match got
    case Err(e) =>
      ResearchEffect([SentinelNote], TraceRow("research", "researcher", plan.actionLabel, ErrorOutcome(e)), None)
    case Ok(results) =>
      var notes := Postprocess(plan.postprocess, NotesFor(results), raw);
      ResearchEffect(notes, TraceRow("research", "researcher", plan.actionLabel, OutcomeFor(results)),
                     Some(RetrievalDebug(taskKey, query, |notes|, plan.actionLabel, plan.postprocess.Some?)))
  }

  /** What running a plan's retrieval on a query gives: its records, or the error it raised. */
  type Fetch = (Retrieval, string) -> Result<seq<Record>>

  /** The retrievals of `get_research_plan`'s plans, run against the FAISS index `index`. */
  function FetchFrom(index: Index): Fetch {
    (retrieval: Retrieval, query: string) => Retrieve(index, retrieval, query)
  }

  /** Unfolds `AfterRetrieval` for a retrieval that returned `results` (a proof step for `StoreResults`). */
  lemma AfterRetrievalOk(taskKey: Option<string>, query: string, plan: ResearchPlan, results: seq<Record>, raw: string,
                         notes: seq<ResearchNote>, outcome: string)
    requires notes == Postprocess(plan.postprocess, NotesFor(results), raw) && outcome == OutcomeFor(results)
    ensures AfterRetrieval(taskKey, query, plan, Ok(results), raw) ==
            ResearchEffect(notes, TraceRow("research", "researcher", plan.actionLabel, outcome),
                           Some(RetrievalDebug(taskKey, query, |notes|, plan.actionLabel, plan.postprocess.Some?)))
  {
  }

  /** The researcher step on a state with these three fields, each plan's retrieval run by `fetch`. */
  function Research(task: string, taskKey: Option<string>, taskText: Option<string>, fetch: Fetch, raw: string): ResearchEffect {
    var query := ExtractQuery(taskText, task);
    if query == "" then BlankQueryEffect
    else
      var plan := GetResearchPlan(taskKey);
      AfterRetrieval(taskKey, query, plan, fetch(plan.retrieve, query), raw)
  }

  /** Unfolds `Research` (a proof step for `ResearcherAgent`). */
  lemma ResearchSteps(task: string, taskKey: Option<string>, taskText: Option<string>, fetch: Fetch, raw: string)
    ensures var query := ExtractQuery(taskText, task);
            var plan := GetResearchPlan(taskKey);
            Research(task, taskKey, taskText, fetch, raw) ==
              if query == "" then BlankQueryEffect else AfterRetrieval(taskKey, query, plan, fetch(plan.retrieve, query), raw)
  {
  }

  /** Writes what `effect` says into the state. */
  predicate Applied(state: State, effect: ResearchEffect, oldTrace: seq<TraceRow>, oldMeta: map<string, MetaValue>)
    reads state
  {
    state.researchNotes == effect.notes &&
    state.trace == oldTrace + [effect.row] &&
    state.meta == (if effect.debug.Some? then oldMeta[RetrievalDebugKey := effect.debug.value] else oldMeta)
  }

  /** The notes `researcher_agent` writes for the records `results`, and the outcome it will log. */
  method WriteNotes(state: State, results: seq<Record>) returns (outcome: string)
    modifies state`researchNotes
    ensures state.researchNotes == NotesFor(results) && outcome == OutcomeFor(results)
  {
    if results == [] {
      state.researchNotes := [SentinelNote];
      outcome := "No relevant documents retrieved";
    } else {
      var notes := NormalizeResultsToNotes(results);
      if notes != [] {
        state.researchNotes := notes;
        outcome := "Retrieved " + NatToString(|notes|) + " chunks";
      } else {
        state.researchNotes := [SentinelNote];
        outcome := "Retrieved chunks but all were empty after normalization";
      }
    }
  }

  /** The notes step of `researcher_agent` after a successful retrieval: the records' notes, then the hook if the plan has one. */
  method WriteAndPostprocess(state: State, plan: ResearchPlan, results: seq<Record>, raw: string) returns (outcome: string)
    modifies state`researchNotes
    ensures state.researchNotes == Postprocess(plan.postprocess, NotesFor(results), raw) && outcome == OutcomeFor(results)
  {
    outcome := WriteNotes(state, results);
    if plan.postprocess.Some? {
      PostprocessCompare(state, raw);
    }
  }

  /** The part of `researcher_agent` after a successful retrieval: notes, postprocess, debug entry, trace row. */
  method StoreResults(state: State, query: string, plan: ResearchPlan, results: seq<Record>, raw: string)
    modifies state`researchNotes, state`trace, state`meta
    ensures Applied(state, AfterRetrieval(state.taskKey, query, plan, Ok(results), raw), old(state.trace), old(state.meta))
  {
    var outcome := WriteAndPostprocess(state, plan, results, raw);
    var notes := state.researchNotes;
    var debug := RetrievalDebug(state.taskKey, query, |notes|, plan.actionLabel, plan.postprocess.Some?);
    var row := TraceRow("research", "researcher", plan.actionLabel, outcome);
    AfterRetrievalOk(state.taskKey, query, plan, results, raw, notes, outcome);
    state.meta := state.meta[RetrievalDebugKey := debug];
    state.trace := state.trace + [row];
  }

  /**
   * `researcher_agent(state)`, the FAISS index given as `index` and the hook's file text as `raw`:
   * the notes, the trace and the "retrieval_debug" entry change as `Research` says, nothing else.
   */
  method ResearcherAgent(state: State, index: Index, raw: string)
    modifies state`researchNotes, state`trace, state`meta
    ensures Applied(state, Research(state.task, state.taskKey, state.taskText, FetchFrom(index), raw), old(state.trace), old(state.meta))
  {
    var query := ExtractQuery(state.taskText, state.task);
    ResearchSteps(state.task, state.taskKey, state.taskText, FetchFrom(index), raw);
    if query == "" {
      StoreFailure(state, TraceRow("research", "researcher", "FAISS document retrieval", "Failed: empty query"));
      return;
    }
    RetrieveAndStore(state, query, index, raw);
  }

  /** The researcher step once the query is known not to be blank: retrieval, then the notes it gives. */
  method RetrieveAndStore(state: State, query: string, index: Index, raw: string)
    modifies state`researchNotes, state`trace, state`meta
    ensures var plan := GetResearchPlan(state.taskKey);
            Applied(state, AfterRetrieval(state.taskKey, query, plan, FetchFrom(index)(plan.retrieve, query), raw),
                    old(state.trace), old(state.meta))
  {
    var plan := GetResearchPlan(state.taskKey);
    var got := RunRetrieve(index, plan.retrieve, query);
    assert got == FetchFrom(index)(plan.retrieve, query);
    StoreOutcome(state, query, plan, got, raw);
  }

  /** What the researcher stores once the plan's retrieval returned `got`: its notes, or the sentinel after an error. */
  method StoreOutcome(state: State, query: string, plan: ResearchPlan, got: Result<seq<Record>>, raw: string)
    modifies state`researchNotes, state`trace, state`meta
    ensures Applied(state, AfterRetrieval(state.taskKey, query, plan, got, raw), old(state.trace), old(state.meta))
  {
    if got.Err? {
      StoreFailure(state, TraceRow("research", "researcher", plan.actionLabel, ErrorOutcome(got.error)));
      return;
    }
    assert got == Ok(got.value);
    StoreResults(state, query, plan, got.value, raw);
  }

  /** A researcher step that stops early: the sentinel note, one trace row, no debug entry. */
  method StoreFailure(state: State, row: TraceRow)
    modifies state`researchNotes, state`trace
    ensures Applied(state, ResearchEffect([SentinelNote], row, None), old(state.trace), state.meta)
  {
    state.researchNotes := [SentinelNote];
    state.trace := state.trace + [row];
  }

  /**
   * The researcher step `e`, for the extracted query `query` and the retrieval result `got`, logs
   * one "research" row by "researcher" and leaves at least one note. A blank query gives the
   * sentinel note and "Failed: empty query"; a retrieval that raises gives the sentinel note and
   * an outcome starting "Retrieval error: "; neither writes the debug entry. Otherwise the debug
   * entry is written, its `retrieved_count` is the number of notes left after the postprocess
   * hook, and its query is the extracted query.
   */
  predicate OutcomeShape(e: ResearchEffect, query: string, got: Result<seq<Record>>, taskKey: Option<string>) {
    e.row.step == "research" && e.row.agent == "researcher" && e.notes != [] &&
    (query == "" ==> e.notes == [SentinelNote] && e.row.outcome == "Failed: empty query" && e.debug == None) &&
    (query != "" && got.Err? ==>
       e.notes == [SentinelNote] && StartsWith(e.row.outcome, "Retrieval error: ") && e.debug == None) &&
    (e.debug.Some? <==> query != "" && got.Ok?) &&
    (e.debug.Some? ==> e.debug.value.retrievedCount == |e.notes| && e.debug.value.query == query &&
                       e.debug.value.taskKey == taskKey)
  }

  /** The step after retrieval on a non-blank query has the shape `OutcomeShape` describes, whatever the retrieval returned. */
  lemma AfterRetrievalFacts(taskKey: Option<string>, query: string, plan: ResearchPlan, got: Result<seq<Record>>, raw: string)
    requires query != ""
    ensures OutcomeShape(AfterRetrieval(taskKey, query, plan, got, raw), query, got, taskKey)
  {
    if got.Err? {
      var e := got.error;
      assert ErrorOutcome(e) == "Retrieval error: " + (e.typeName + ": " + Take(e.message, 160));
    } else {
      var notes := NotesFor(got.value);
      assert notes != [];
      if plan.postprocess.Some? {
        assert |InjectAnchor(notes, raw)| >= |notes|;
      }
    }
  }

  /** The effect of a blank query. */
  const BlankQueryEffect: ResearchEffect :=
    ResearchEffect([SentinelNote], TraceRow("research", "researcher", "FAISS document retrieval", "Failed: empty query"), None)

  /** A blank query has the shape `OutcomeShape` describes, whatever retrieval would have returned. */
  lemma BlankQueryFacts(taskKey: Option<string>, got: Result<seq<Record>>)
    ensures OutcomeShape(BlankQueryEffect, "", got, taskKey)
  {
  }

  /** Every researcher step has the shape `OutcomeShape` describes, for its own query and retrieval. */
  lemma ResearchOutcomes(task: string, taskKey: Option<string>, taskText: Option<string>, fetch: Fetch, raw: string)
    ensures var query := ExtractQuery(taskText, task);
            OutcomeShape(Research(task, taskKey, taskText, fetch, raw), query,
                         fetch(GetResearchPlan(taskKey).retrieve, query), taskKey)
  {
    var query := ExtractQuery(taskText, task);
    var plan := GetResearchPlan(taskKey);
    var got := fetch(plan.retrieve, query);
    var e := Research(task, taskKey, taskText, fetch, raw);
    if query == "" {
      BlankQueryFacts(taskKey, got);
      assert e == BlankQueryEffect;
    } else {
      AfterRetrievalFacts(taskKey, query, plan, got, raw);
      assert e == AfterRetrieval(taskKey, query, plan, got, raw);
    }
  }

  /** Whatever the retrieval gives, the researcher's row is the "research" row by "researcher". */
  lemma ResearchRowShape(task: string, taskKey: Option<string>, taskText: Option<string>, fetch: Fetch, raw: string)
    ensures var e := Research(task, taskKey, taskText, fetch, raw);
            e.row.step == "research" && e.row.agent == "researcher"
  {
    ResearchOutcomes(task, taskKey, taskText, fetch, raw);
  }

  /**
   * A retrieval with at least one non-blank record writes exactly the normalised notes and logs
   * "Retrieved <n> chunks" for their number; one with only blank records, or none at all, writes
   * the sentinel note alone.
   */
  lemma NotesForRecords(rs: seq<Record>)
    ensures (exists j :: 0 <= j < |rs| && !IsBlank(rs[j].content)) ==>
              NotesFor(rs) == Normalize(rs) && OutcomeFor(rs) == "Retrieved " + NatToString(|NotesFor(rs)|) + " chunks"
    ensures (forall j :: 0 <= j < |rs| ==> IsBlank(rs[j].content)) ==> NotesFor(rs) == [SentinelNote]
  {
    NormalizeShape(rs, []);
  }

  /**
   * Without a postprocess hook, a retrieval with at least one non-blank record leaves exactly
   * the normalised notes and logs "Retrieved <n> chunks" for their number; with only blank
   * records or none at all it leaves the sentinel note alone.
   */
  lemma ResearchKeepsNormalizedNotes(taskKey: Option<string>, query: string, plan: ResearchPlan, rs: seq<Record>, raw: string)
    requires plan.postprocess.None?
    ensures var e := AfterRetrieval(taskKey, query, plan, Ok(rs), raw);
            ((exists j :: 0 <= j < |rs| && !IsBlank(rs[j].content)) ==>
               e.notes == Normalize(rs) && e.row.outcome == "Retrieved " + NatToString(|e.notes|) + " chunks") &&
            ((forall j :: 0 <= j < |rs| ==> IsBlank(rs[j].content)) ==> e.notes == [SentinelNote])
  {
    NotesForRecords(rs);
  }

  /**
   * The postprocess hook runs even after the sentinel note: for the `compare_approaches` plan, a
   * retrieval that returns nothing, and a file whose options block is non-empty, the notes are
   * the injected anchor note followed by the sentinel note, and the debug entry counts both.
   */
  lemma ResearchPostprocessAfterSentinel(taskKey: Option<string>, query: string, raw: string)
    requires !IsBlank(raw) && ExtractBetween(raw, OptionsStart, OptionsEnd) != ""
    ensures var e := AfterRetrieval(taskKey, query, PlanFor("compare_approaches"), Ok([]), raw);
            |e.notes| == 2 && e.notes[1] == SentinelNote &&
            e.notes[0].claim == OptionsStart + "\n" + ExtractBetween(raw, OptionsStart, OptionsEnd) &&
            e.row.outcome == "No relevant documents retrieved" &&
            e.debug.Some? && e.debug.value.retrievedCount == 2
  {
  }

  /**
   * A blank query stops the step before any plan is looked up or any retrieval runs: the effect
   * is the sentinel note and the "Failed: empty query" row, whatever the task key and the index.
   */
  lemma BlankQueryNeverRetrieves(task: string, taskKey: Option<string>, otherKey: Option<string>,
                                 taskText: Option<string>, fetch: Fetch, otherFetch: Fetch, raw: string)
    ensures ExtractQuery(taskText, task) == "" ==>
              Research(task, taskKey, taskText, fetch, raw) == Research(task, otherKey, taskText, otherFetch, raw) &&
              Research(task, taskKey, taskText, fetch, raw).notes == [SentinelNote] &&
              Research(task, taskKey, taskText, fetch, raw).row.action == "FAISS document retrieval" &&
              Research(task, taskKey, taskText, fetch, raw).row.outcome == "Failed: empty query" &&
              Research(task, taskKey, taskText, fetch, raw).debug.None?
  {
  }
}
