# Grounding pipeline of the agentic research assistant, in Dafny

This project models the grounding pipeline of a small multi-agent research assistant. A
task (a free-text request plus an optional task key) runs through four agents over one shared
state object:

- the **planner** writes a fixed four-step plan;
- the **researcher** derives a query, runs the retrieval plan that the task key selects, and
  turns the retrieved records into research notes, each citing its chunk;
- the **writer** turns the notes into a draft:
  - with no cited note, it writes a fixed "Not found" package;
  - for three locked task keys, it calls a deterministic Markdown builder;
  - otherwise, it calls a language model on a numbered evidence block;
- the **verifier** checks that some note carries a citation and either approves the draft with
  a footer or blocks it.

Around this core the model also covers:

- document loading and chunk metadata;
- the vector search with forced inclusion;
- order-preserving deduplication;
- the per-task retrieval plans;
- the three deterministic writers;
- the evaluation runner;
- the citation and scoring helpers of the web front end.

Each source file is one module.

- **Pure code** is modelled with datatypes, functions and lemmas.
- **Loops** become methods proved against those functions.
- **The shared state** is a class whose fields the agents update in place.
- **Helper modules** (`PyStr`, `Seqs`, `Wrappers`) hold Python string semantics and generic
  sequence lemmas.
  - `strip` uses Python's whitespace set.
  - `splitlines` uses Python's line boundaries.

The outside world is passed in as parameters:

- the vector index (a ranking oracle plus the metadata rows);
- the text splitter;
- the language model;
- the text of files read from disk;
- the clock.

## Model

| member | source | states |
|---|---|---|
| SharedState.HasCitations | agents/writer.py:12-17 | the scan returns true exactly when some note has a non-empty citation list (also `_has_any_citations`, agents/verifier.py:6-11) |
| SharedState.State.constructor | shared_state.py:25-43 | a new state holds the given task, key and text, empty plan, notes, verification notes, trace and meta, and no draft or final output |
| Planner.PlannerAgent | agents/planner.py:6-21 | the plan becomes the four fixed steps and exactly one row is appended to the trace; nothing else changes |
| Planner.PlanRowReportsFour | agents/planner.py:14-20 | the planner's row reports "Plan created with 4 steps" |
| ResearchUtils.DedupeKey | retrieval/research_utils.py:15-18 | the key is the stripped source id, or, when that is blank, the stripped first 80 characters of the stripped content |
| ResearchUtils.DedupeResultsKeepOrder | retrieval/research_utils.py:6-26 | the loop returns exactly the records of the deduplication specification |
| ResearchUtils.KeepFirstByKey | retrieval/research_utils.py:11-26 | the `seen`/`merged` loop, for any key function, skips blank and already seen keys and keeps the rest in order |
| ResearchUtils.DedupeFromSound | retrieval/research_utils.py:20-24 | the output is an order-preserving subsequence whose keys are non-blank, unseen and pairwise distinct |
| ResearchUtils.DedupeFromKeepsFirst | retrieval/research_utils.py:20-24 | an item with a fresh non-blank key that no earlier item shares is kept |
| ResearchUtils.DedupeFromKeys | retrieval/research_utils.py:20-24 | the output's keys are exactly the input's non-blank keys minus those already seen |
| ResearchUtils.DedupeFromFixed | retrieval/research_utils.py:20-24 | a list with non-blank, distinct, unseen keys passes through unchanged |
| ResearchUtils.DedupeFromAppend | retrieval/research_utils.py:14-24 | deduplicating `a + b` keeps what `a` keeps, then what `b` keeps among the keys `a` did not use |
| ResearchUtils.DedupeIdempotent | retrieval/research_utils.py:6-26 | deduplicating twice is deduplicating once |
| ResearchUtils.DedupeProperties | retrieval/research_utils.py:6-26 | the result is in input order, with non-blank pairwise-distinct keys, and covers every non-blank key of the input |
| ResearchUtils.DedupeKeepsFirst | retrieval/research_utils.py:20-24 | the first record carrying each non-blank key is the one kept |
| ResearchUtils.DedupeAppend | retrieval/research_utils.py:6-26 | merging two result lists and deduplicating is deduplicating the first, then appending what is new in the second |
| Registry.PlanFor | tasks/registry.py:20-74 | a known key gets a plan carrying that key; anything else gets the default plan; only compare_approaches has a postprocess hook |
| Registry.GetResearchPlan | tasks/registry.py:17-74 | the key is stripped (None counts as "") before the known keys are matched |
| Registry.GetResearchPlanStrips | tasks/registry.py:18 | keys differing only in surrounding whitespace select the same plan |
| Registry.GetResearchPlanBlank | tasks/registry.py:17-74 | a missing, empty or blank key selects the default plan |
| Registry.KnownKeysDistinctPlans | tasks/registry.py:20-67 | distinct known keys select distinct plans |
| Registry.RunRetrieve | tasks/registry.py:13 | calling `plan.retrieve(query)` dispatches to the task's own retrieval function |
| TaskPlans.Outcomes | tasks/top_risks_mitigations/research_plan.py:6-10 | one outcome per search call of a plan, each the call run on its own |
| TaskPlans.RunSearchCall | tasks/extract_deadlines_and_owners/research_plan.py:8 | one `search_docs` call with the plan's arguments; it returns at most `top_k` records |
| TaskPlans.GatherResults | tasks/extract_deadlines_and_owners/research_plan.py:7-10 | `results += search_docs(...)` for each call in order; the first search that raises propagates |
| TaskPlans.RunBoosted | tasks/extract_deadlines_and_owners/research_plan.py:6-11 | gather, deduplicate, cut to the cap: at most `cap` records with distinct dedupe keys |
| TaskPlans.ConcatFails | tasks/top5_risks_mitigations_strict/research_plan.py:7-36 | the concatenation fails exactly when some call fails, and then with the first failure; otherwise it is the results joined in order |
| TaskPlans.GatherFails | tasks/top5_risks_mitigations_strict/research_plan.py:7-36 | a plan raises exactly when one of its searches raises, with the error of the first such search |
| TaskPlans.CappedDedupe | tasks/top5_risks_mitigations_strict/research_plan.py:38 | the deduplicated list cut to the cap keeps order, non-blank distinct keys and a bounded length |
| TaskPlans.BoostProperties | tasks/top5_risks_mitigations_strict/research_plan.py:6-38 | a boosted plan returns at most `cap` records from the concatenated searches in order, with distinct non-blank keys, and covers every key when the deduplicated list fits under the cap |
| Top5RisksPlan.Top5CallsShape | tasks/top5_risks_mitigations_strict/research_plan.py:9-36 | five calls; only the first uses the caller's query; the first four force risks.md with overfetch 120; the fifth forces nothing |
| Top5RisksPlan.RetrieveTop5Risks | tasks/top5_risks_mitigations_strict/research_plan.py:6-38 | the plan's boosted result: at most 30 records with distinct dedupe keys |
| DeadlinesPlan.DeadlineCallsShape | tasks/extract_deadlines_and_owners/research_plan.py:8-10 | three calls; only the first uses the caller's query; none forces a file |
| DeadlinesPlan.RetrieveDeadlines | tasks/extract_deadlines_and_owners/research_plan.py:6-11 | the plan's boosted result: at most 25 records with distinct dedupe keys |
| TopRisksPlan.TopRiskCallsShape | tasks/top_risks_mitigations/research_plan.py:8-9 | two calls; only the first uses the caller's query; neither forces a file |
| TopRisksPlan.RetrieveTopRisks | tasks/top_risks_mitigations/research_plan.py:6-10 | the plan's boosted result: at most 20 records with distinct dedupe keys |
| CompareApproachesPlan.RetrieveCompare | tasks/compare_approaches/research_plan.py:13-23 | both searches force technical_decisions.md; the result is cut to 12 with distinct keys; the first search's records come first, and the second adds only records with unused keys |
| CompareApproachesPlan.CappedDedupeKeys | tasks/compare_approaches/research_plan.py:23 | the cut deduplicated list keeps non-blank pairwise-distinct keys |
| CompareApproachesPlan.BlockBounds | tasks/compare_approaches/research_plan.py:38-44 | the block lies inside the text, after the first start marker |
| CompareApproachesPlan.ExtractBetween | tasks/compare_approaches/research_plan.py:35-45 | the block is stripped; it is empty for empty text or when the start marker is absent |
| CompareApproachesPlan.ExtractBetweenFound | tasks/compare_approaches/research_plan.py:38-45 | with the first start marker and the first end marker after it, the block is the stripped text between them |
| CompareApproachesPlan.ExtractBetweenNoEnd | tasks/compare_approaches/research_plan.py:42-44 | with no end marker after the start marker, the block is empty |
| CompareApproachesPlan.AnchorQuote | tasks/compare_approaches/research_plan.py:67 | the quote has no newline, keeps the first 260 characters with newlines turned into spaces, and gets "..." only when the text is longer |
| CompareApproachesPlan.InjectAnchor | tasks/compare_approaches/research_plan.py:54-74 | a blank file or an empty block leaves the notes alone; otherwise the anchor note is put first |
| CompareApproachesPlan.PostprocessCompare | tasks/compare_approaches/research_plan.py:48-74 | only `research_notes` changes, as the injection says |
| CompareApproachesPlan.InjectKeepsNotes | tasks/compare_approaches/research_plan.py:74 | the old notes are the tail of the new list: nothing is dropped or reordered |
| CompareApproachesPlan.InjectedNoteIsCited | tasks/compare_approaches/research_plan.py:63-71 | with a block found, the first note opens with "### Option A:\n" and cites the anchor once, with a bounded quote |
| Loader.HeadingText | retrieval/loader.py:17-21 | a heading line starts with `#` after leading whitespace and yields non-empty stripped text |
| Loader.ExtractMdHeadings | retrieval/loader.py:13-22 | the loop returns exactly the heading lines with their 1-based numbers |
| Loader.MarkedLinesSound | retrieval/loader.py:16-21 | each entry names a line that carries that heading; line numbers strictly increase |
| Loader.MarkedLinesComplete | retrieval/loader.py:16-21 | every heading line has its entry |
| Loader.MarkedLinesNonEmpty | retrieval/loader.py:20 | every entry's text is non-empty |
| Loader.HeadingsExact | retrieval/loader.py:13-22 | the headings are exactly the heading lines, ascending, each with its text |
| Loader.ExtractMdTitle | retrieval/loader.py:25-31 | the loop returns the title of the first stripped line starting "# " |
| Loader.TitleFromFirstHashLine | retrieval/loader.py:27-31 | no "# " line gives no title; otherwise the first such line decides: its stripped rest, or none when that is blank |
| Loader.FileName | retrieval/loader.py:54 | `path.name` is a `/`-free suffix of the path |
| Loader.Suffix | retrieval/loader.py:42 | the suffix is empty or a dot-led, dot-free ending of the name |
| Loader.DocumentOf | retrieval/loader.py:42-60 | a listed file becomes a document exactly when it is a regular file with a lower-cased `.txt`/`.md` suffix and non-blank text; the document carries the stripped text and the metadata |
| Loader.LoadRawDocuments | retrieval/loader.py:34-62 | a missing folder raises FileNotFoundError with the folder in the message; otherwise the documents of the listing come back in listing order |
| Loader.LoadOne | retrieval/loader.py:42-60 | one pass of the loop yields the listed file's document, or nothing when the file is skipped |
| Loader.RawDocumentsExact | retrieval/loader.py:41-60 | every accepted file's document is loaded; every loaded document has a supported extension, non-blank text and `doc_id` "doc:" + name |
| Loader.SameNameSameDocId | retrieval/loader.py:57 | two files with the same name get the same `doc_id`, wherever they sit |
| Loader.LineNumber | retrieval/loader.py:98-103 | a line number lies between 1 and the length of the text plus one |
| Loader.NearestHeading | retrieval/loader.py:109-116 | the heading loop with `break` returns the scan specification's heading |
| Loader.NearestIsLastBefore | retrieval/loader.py:111-116 | on ascending headings, the scan finds the last heading at or before the chunk's first line, or none |
| Loader.ChunksOfDoc | retrieval/loader.py:90-140 | one chunk per split |
| Loader.ChunkMetadata | retrieval/loader.py:91-138 | the metadata step returns the chunk specification for split `i` |
| Loader.ChunksOfDocSnoc | retrieval/loader.py:90-140 | each split adds its own chunk at the end |
| Loader.ChunkOneDocument | retrieval/loader.py:90-140 | the inner loop returns the document's chunks in split order |
| Loader.ChunkDocuments | retrieval/loader.py:65-142 | the whole loop returns the chunks of all documents, document by document |
| Loader.ChunkIdsDistinct | retrieval/loader.py:93-94 | split `i` becomes chunk `i` with source id "<doc_id>#chunk_<i>" and its text unchanged; no two chunks of a document share a source id |
| Loader.LineRangeOrdered | retrieval/loader.py:96-106 | with a non-negative start offset, 1 <= line_start <= line_end |
| Loader.NegativeStartInverts | retrieval/loader.py:96-103 | a negative offset counts from the end and can invert the range (lines 2 to 1 for "b" at -1 in "a\nb") |
| Loader.DocHeadingsWellFormed | retrieval/loader.py:85 | a document's headings ascend and have non-empty text |
| Loader.SectionForIsNearest | retrieval/loader.py:108-120 | the section is the last heading at or before the line, and exists exactly when some heading is there |
| Loader.ChunkSectionIsNearest | retrieval/loader.py:85-120 | a chunk's section is the nearest preceding heading of its `.md` document; `.txt` chunks never get one |
| Loader.LocatorShape | retrieval/loader.py:127-138 | the locator starts "chunk <i>" and, with a start offset, ends with "lines <start>–<end>"; without one it is "chunk <i>" alone |
| Retriever.RowToResult | retrieval/retriever.py:53-66 | stripped content and the score; source id, source and locator are the metadata values or their fallbacks, never empty |
| Retriever.PyRow | retrieval/retriever.py:92 | `meta[idx]` exists exactly for -len <= idx < len, and a non-negative index reads that row |
| Retriever.Collect | retrieval/retriever.py:88-96 | skipped hits and blank rows drop out; kept records have non-empty content and source id; an out-of-range position raises |
| Retriever.CollectStep | retrieval/retriever.py:89-96 | one iteration appends at most one record, or propagates the error |
| Retriever.CollectErrPersists | retrieval/retriever.py:92 | once a prefix of the hits raises, collecting the whole list raises too |
| Retriever.CollectResults | retrieval/retriever.py:88-96 | the first loop returns the collection specification |
| Retriever.Forced | retrieval/retriever.py:100 | the matches, in order: empty exactly when nothing matches, and opening with the first record when it matches |
| Retriever.Backfill | retrieval/retriever.py:105-113 | the backfill only appends to the forced records |
| Retriever.FetchCount | retrieval/retriever.py:85 | `top_k` without `must_include`, else the larger of `overfetch` and `top_k` |
| Retriever.BackfillLoop | retrieval/retriever.py:104-113 | the loop with its early `break` returns the backfill specification |
| Retriever.SearchDocs | retrieval/retriever.py:69-116 | the search returns the specification's result and never more than `top_k` records |
| Retriever.AssembleBounded | retrieval/retriever.py:98-116 | at most `top_k` records, each a filtered ranked record |
| Retriever.BackfillFrom | retrieval/retriever.py:105-114 | the backfill adds only ranked records and never exceeds `top_k` |
| Retriever.PlainSearch | retrieval/retriever.py:98-116 | with no `must_include`, or no match, the result is the first `top_k` ranked records |
| Retriever.ForcedInclusion | retrieval/retriever.py:98-114 | when some record matches, the result opens with the first one or two matches and, for `top_k >= 1`, holds a match |
| Retriever.BackfillSkipsTaken | retrieval/retriever.py:104-113 | a backfilled record's non-empty source id was not taken by any earlier record |
| Researcher.ExtractQuery | agents/researcher.py:34-38 | the stripped task text when not blank, else the stripped task; blank exactly when both are blank |
| Researcher.QuoteOf | agents/researcher.py:19-21 | the quote is the flattened, stripped content, cut to 260 characters plus "..." when longer |
| Researcher.NoteOf | agents/researcher.py:15-29 | a record gives a note exactly when its content is not blank: the stripped claim and one citation with the stripped source id and location |
| Researcher.NormalizeOne | agents/researcher.py:15-29 | the loop body returns the record's note |
| Researcher.NormalizeResultsToNotes | agents/researcher.py:7-31 | the loop returns the notes of the non-blank records in order |
| Researcher.NormalizedNotesWellFormed | agents/researcher.py:15-29 | each note has a non-blank stripped claim and one single-line citation quote of at most 263 characters |
| Researcher.NormalizeShape | agents/researcher.py:14-29 | exactly the blank records drop out, order is kept, and normalisation distributes over concatenation |
| Researcher.WriteNotes | agents/researcher.py:74-90 | writes the notes (or the sentinel note) and returns the matching outcome |
| Researcher.WriteAndPostprocess | agents/researcher.py:74-98 | the notes become the records' notes (or the sentinel), then pass through the plan's hook when it has one; the outcome string matches the records |
| Researcher.StoreResults | agents/researcher.py:74-113 | after a successful retrieval the notes are those of the records (or the sentinel) after the hook, `retrieval_debug` records the task key, query, note count, action label and whether a hook ran, and one research row with the matching outcome is appended |
| Researcher.ResearcherAgent | agents/researcher.py:41-114 | the step's notes, appended trace row and `retrieval_debug` entry are those of the researcher step run on the task, task key and task text, with the index's retrieval; no other field changes |
| Researcher.RetrieveAndStore | agents/researcher.py:57-113 | with a non-blank query, the task key's plan runs its retrieval on the query and its result or error is stored |
| Researcher.StoreOutcome | agents/researcher.py:59-113 | a raised retrieval stores the sentinel and the "Retrieval error" row without a debug entry; a result is stored as after a successful retrieval |
| Researcher.BlankQueryNeverRetrieves | agents/researcher.py:41-55 | a blank query stops the step before any plan is looked up or retrieval runs: the sentinel note, the "FAISS document retrieval" / "Failed: empty query" row and no debug entry, the same whatever the task key and the index |
| Researcher.NotesForRecords | agents/researcher.py:74-90 | records with some non-blank content give exactly their notes and "Retrieved <n> chunks"; only blank records, or none, give the sentinel note alone |
| Researcher.StoreFailure | agents/researcher.py:44-72 | an early stop writes the sentinel note and one row, and no debug entry |
| Researcher.AfterRetrievalFacts | agents/researcher.py:59-113 | after retrieval, the row is the research row; an error gives the sentinel and "Retrieval error: ..." |
| Researcher.ResearchOutcomes | agents/researcher.py:41-114 | each step logs one research row and leaves a note; blank query and raised retrieval give the sentinel without debug; otherwise the debug entry counts the notes after the hook |
| Researcher.ResearchRowShape | agents/researcher.py:41-114 | every row is step "research", agent "researcher" |
| Researcher.ResearchKeepsNormalizedNotes | agents/researcher.py:74-113 | for a plan without a hook, once retrieval succeeds, records with some non-blank content leave exactly their notes and log "Retrieved <n> chunks"; only blank records, or none, leave the sentinel note alone |
| Researcher.ResearchPostprocessAfterSentinel | agents/researcher.py:74-106 | the hook runs even after the sentinel: for the compare_approaches plan, an empty retrieval and a non-empty options block, the notes are the anchor note then the sentinel, the row says "No relevant documents retrieved" and the debug entry counts two notes |
| Writer.NoteTextOf | agents/writer.py:20-44 | the loop returns the note's evidence text |
| Writer.NoteTextEmpty | agents/writer.py:25-44 | the evidence text is empty exactly when the claim and every quote are blank |
| Writer.NoteTextStripped | agents/writer.py:27-42 | the evidence text never starts or ends with whitespace |
| Writer.NoteTextHoldsQuotes | agents/writer.py:31-42 | with a blank claim, every non-blank quote occurs in the evidence text |
| Writer.Entries | agents/writer.py:54 | `enumerate`: each note is paired with its position |
| Writer.BuildContextOf | agents/writer.py:47-69 | the loop returns the blocks of the usable notes joined by blank lines |
| Writer.ContextPartsExact | agents/writer.py:54-67 | each usable note at position `i` gives block `i + 1`, and every block is one of these |
| Writer.BlockNumbersDistinct | agents/writer.py:67 | two equal blocks come from the same position |
| Writer.BlankContext | agents/writer.py:127-141 | the evidence block is blank exactly when no note is usable |
| Writer.BuildLockedDraft | agents/writer.py:94-122 | each locked key calls its deterministic builder |
| Writer.BuildModelDraft | agents/writer.py:127-178 | the fixed package for a blank evidence block, else the model's answer to the two prompts |
| Writer.WriterAgent | agents/writer.py:72-179 | sets the draft and appends exactly one row, as the writer's decision says; nothing else changes |
| Writer.DecideDraft | agents/writer.py:73-178 | the branches in source order return the writer's decision |
| Writer.WriterRowShape | agents/writer.py:77-178 | every writer row is step "draft", agent "writer" |
| Writer.WriterNoCitations | agents/writer.py:77-89 | without a cited note, the draft is the fixed "Not found in the sources." package, whatever the key, task and model |
| Writer.WriterLocked | agents/writer.py:94-122 | a locked key with cited notes gives its builder's output, independent of the task text and the model |
| Writer.WriterBlankEvidence | agents/writer.py:127-141 | another key with cited notes but no usable note gives the fixed package and "Evidence block empty after filtering" |
| Writer.WriterCallsModel | agents/writer.py:143-178 | another key with a usable note gives the model's answer to the fixed system prompt and the user prompt on the evidence block |
| Writer.PromptHolds | agents/writer.py:151-159 | the user prompt holds the task and all of the evidence block |
| Writer.ContextHoldsBlocks | agents/writer.py:67-69 | the evidence block holds the block of every usable note |
| Writer.PromptHoldsEvidence | agents/writer.py:127-159 | the user prompt holds the task and the block of every usable note |
| Verifier.VerifierAgent | agents/verifier.py:14-52 | verification notes are the problems, the final output is set, one row is appended; the draft and the notes are untouched |
| Verifier.VerifierVerdict | agents/verifier.py:19-43 | one problem exactly when no note is cited; blocked gives the template ending in that bullet and "Blocked final: 1 issue(s)"; approved gives the draft plus the footer and "Final approved" |
| Verifier.VerifierApproved | agents/verifier.py:34-43 | cited notes: no problem, the draft then the footer |
| Verifier.VerifierBlocked | agents/verifier.py:19-33 | no cited note: one bullet and the template, whatever the draft |
| DeterministicCompare.PickSourceId | writer/deterministic_compare.py:6-12 | the first citation's stripped source id, present exactly when it exists and is not blank |
| DeterministicCompare.FindAnchor | writer/deterministic_compare.py:22-25 | the first loop finds the first anchor note |
| DeterministicCompare.TdParts | writer/deterministic_compare.py:28-34 | the fallback loop collects the non-blank claims of technical_decisions.md notes |
| DeterministicCompare.CollectTdTextScan | writer/deterministic_compare.py:15-35 | both loops together return the collected text |
| DeterministicCompare.CollectTdTextPrefersAnchor | writer/deterministic_compare.py:22-25 | the first anchor note's stripped claim is used alone |
| DeterministicCompare.CollectTdTextFallback | writer/deterministic_compare.py:28-35 | without an anchor, the text joins exactly the non-blank claims of technical_decisions.md notes in order |
| DeterministicCompare.SectionBounds | writer/deterministic_compare.py:41-48 | the section lies inside the text |
| DeterministicCompare.ExtractSection | writer/deterministic_compare.py:38-48 | the section is stripped, and empty for empty text or a missing start marker |
| DeterministicCompare.ExtractSectionFound | writer/deterministic_compare.py:41-48 | between the first start marker and the next end marker |
| DeterministicCompare.ExtractSectionToEnd | writer/deterministic_compare.py:45-47 | with no end marker after it, the section runs to the end of the text |
| DeterministicCompare.SectionOfBounds | writer/deterministic_compare.py:44-48 | the section is the stripped text within its bounds |
| DeterministicCompare.BulletItemFacts | writer/deterministic_compare.py:58-75 | a line contributes exactly when, stripped, it is a "- "/"* " line whose item has at least 4 characters and is not a pros/cons label |
| DeterministicCompare.ItemOfLine | writer/deterministic_compare.py:58-75 | the loop body returns the line's item |
| DeterministicCompare.ListItems | writer/deterministic_compare.py:56-75 | the first loop returns the kept items in order |
| DeterministicCompare.DropRepeats | writer/deterministic_compare.py:78-84 | the second loop drops later duplicates |
| DeterministicCompare.ExtractBulletsScan | writer/deterministic_compare.py:51-85 | both loops return the extracted bullets |
| DeterministicCompare.FilterDistinct | writer/deterministic_compare.py:56-85 | filtered and deduplicated items are accepted values, in order, without repeats, and every accepted value is present |
| DeterministicCompare.ExtractBulletsMeaning | writer/deterministic_compare.py:51-85 | bullets are list items of the section of at least 4 characters, not pros/cons labels, distinct, in line order, and none is lost |
| DeterministicCompare.Clamp | writer/deterministic_compare.py:112-116 | the first four items, padded with "Not stated in sources" up to two |
| DeterministicCompare.ClampTwoFour | writer/deterministic_compare.py:112-116 | the slice and padding loop return the clamped list |
| DeterministicCompare.OptionBulletsShape | writer/deterministic_compare.py:102-119 | two to four bullets, each an extracted bullet at its own position or the filler |
| DeterministicCompare.BulletLines | writer/deterministic_compare.py:143-151 | one line per bullet |
| DeterministicCompare.AppendBullets | writer/deterministic_compare.py:143-151 | the loop appends one cited line per bullet |
| DeterministicCompare.OptionBulletsOf | writer/deterministic_compare.py:102-119 | extracted, "Not stated" when none, clamped |
| DeterministicCompare.BuildCompareMarkdown | writer/deterministic_compare.py:88-163 | appending the lines step by step gives the specified Markdown |
| DeterministicCompare.BulletLineNotNumbered | writer/deterministic_compare.py:143-151 | a bullet line is never numbered |
| DeterministicCompare.ReasonLinesShape | writer/deterministic_compare.py:129-157 | the three reason lines are numbered and end with their citation |
| DeterministicCompare.LayoutBullets | writer/deterministic_compare.py:140-151 | the layout has eleven lines besides the bullets; each Option A bullet line sits right after the two title lines and each Option B bullet line right after the Option B heading, in bullet order |
| DeterministicCompare.LayoutReasons | writer/deterministic_compare.py:153-161 | the only numbered lines are the three reasons, each ending with the reason citation; the Citations section comes last |
| DeterministicCompare.CompareLayout | writer/deterministic_compare.py:96-161 | two to four bullets per option, each line `- <bullet> (<cite>)` citing the anchor for "Not stated" and otherwise chunk_0 or chunk_1; exactly three reasons, citing chunk_0 exactly when some note's first source id is chunk_0 and the anchor otherwise |
| DeterministicCompare.LayoutText | writer/deterministic_compare.py:140-163 | the joined text opens with the title and ends with the Citations section |
| DeterministicCompare.CompareMarkdownEnds | writer/deterministic_compare.py:140-163 | the output opens with "# Comparison of Option A vs Option B" and ends listing chunk_0 then chunk_1 |
| DeterministicDeadlines.FirstSourceId | writer/deterministic_deadlines.py:6-12 | present exactly when the note has a citation whose source id is not blank, and then that id stripped (non-empty); the same rule as the compare writer's `_pick_source_id` |
| DeterministicDeadlines.CiteOf | writer/deterministic_deadlines.py:65 | a row's citation is never empty and is stripped |
| DeterministicDeadlines.Cells | writer/deterministic_deadlines.py:49 | the cells are the `|`-split parts of the line with its outer bars removed, each stripped and free of `|` |
| DeterministicDeadlines.RowOfLine | writer/deterministic_deadlines.py:49-66 | the inner loop body returns the line's row |
| DeterministicDeadlines.DataLineRows | writer/deterministic_deadlines.py:46-66 | the inner loop returns the rows of the data lines in order |
| DeterministicDeadlines.NoteRowsOf | writer/deterministic_deadlines.py:30-66 | the outer loop body returns the note's rows |
| DeterministicDeadlines.CollectRows | writer/deterministic_deadlines.py:26-66 | the outer loop returns every note's rows in turn |
| DeterministicDeadlines.DedupeRows | writer/deterministic_deadlines.py:68-78 | the deduplication loop keeps the first row of each (priority, item, owner, due date) key |
| DeterministicDeadlines.ParseActionItemsTable | writer/deterministic_deadlines.py:15-78 | the parse returns the specified rows |
| DeterministicDeadlines.RowOfMeaning | writer/deterministic_deadlines.py:49-66 | a data line gives a row exactly when it has at least five cells and a non-empty owner and due date; the fields are stripped, free of `|`, and carry the citation |
| DeterministicDeadlines.NoteRowsOnlyWhen | writer/deterministic_deadlines.py:30-43 | only an action_items.md note with a non-blank claim and at least three table lines gives rows |
| DeterministicDeadlines.NoteRowsOrigin | writer/deterministic_deadlines.py:39-66 | every row of a note comes from one of its data lines (third table line or later) with the note's citation, and every parsing data line gives its row |
| DeterministicDeadlines.TableLinesShape | writer/deterministic_deadlines.py:39-40 | table lines are stripped and open and close with `|`, and every such line of the text is one |
| DeterministicDeadlines.RowsOrigin | writer/deterministic_deadlines.py:29-66 | every collected row belongs to an action_items.md note and carries its citation |
| DeterministicDeadlines.RowsComplete | writer/deterministic_deadlines.py:29-66 | every row of every note is collected |
| DeterministicDeadlines.ParseActionItemsFacts | writer/deterministic_deadlines.py:15-78 | each parsed row names an owner and a due date, comes from an action_items.md note with its citation; no two share a key; order is kept; every collected key survives with its first row |
| DeterministicDeadlines.ParseKeepsFirst | writer/deterministic_deadlines.py:71-76 | of the collected rows sharing a key, the first is kept |
| DeterministicDeadlines.AppendRowLines | writer/deterministic_deadlines.py:101-104 | the loop appends one table line per row |
| DeterministicDeadlines.BuildDeadlinesMarkdown | writer/deterministic_deadlines.py:81-109 | building step by step gives the specified Markdown |
| DeterministicDeadlines.RowLineCites | writer/deterministic_deadlines.py:103 | a row's table line ends with its status and citation in parentheses, then " |" |
| DeterministicDeadlines.RowLineParses | writer/deterministic_deadlines.py:49-103 | reading a rendered table line back gives the row's key and passes the owner and due date filter |
| DeterministicDeadlines.DeadlinesLinesShape | writer/deterministic_deadlines.py:93-107 | six header lines, one line per row, then the Citations heading and the first row's citation |
| DeterministicDeadlines.RenderFound | writer/deterministic_deadlines.py:91-109 | with rows, the final strip leaves the joined lines unchanged |
| DeterministicDeadlines.DeadlinesOutput | writer/deterministic_deadlines.py:81-109 | no row gives exactly the fixed "Not found in sources." package; with rows, the header, row `i`'s line at position 6 + i, and the first row's citation last |
| Top5Fields.DropStarPairs | writer/deterministic_top5_strict_risks.py:26 | `replace("**", "")` never lengthens the text |
| Top5Fields.DropStarPairsFacts | writer/deterministic_top5_strict_risks.py:26 | no "**" is left behind, and text without one is unchanged |
| Top5Fields.CleanFacts | writer/deterministic_top5_strict_risks.py:20-27 | a cleaned value is stripped and holds no "**"; blank text cleans to "" |
| Top5Fields.CleanKeepsClean | writer/deterministic_top5_strict_risks.py:24-27 | stripped text without a leading bullet mark or "**" is left alone |
| Top5Fields.SkipSpace | writer/deterministic_top5_strict_risks.py:7 | the greedy `\s*` stops at the first non-space character or the end |
| Top5Fields.TailGroup | writer/deterministic_top5_strict_risks.py:7 | the captured title lies after the match start and holds no line break |
| Top5Fields.RiskAt | writer/deterministic_top5_strict_risks.py:7 | a match at `p` has a word boundary, "R-" and three digits, and a non-empty line-break-free title after them |
| Top5Fields.RiskMatchesFrom | writer/deterministic_top5_strict_risks.py:130 | `finditer` yields ids of five characters at increasing positions inside the text |
| Top5Fields.RiskMatchesSound | writer/deterministic_top5_strict_risks.py:130-132 | each match's id is "R-" and three digits read at its start, after no word character, and its title is a non-empty stretch after it |
| Top5Fields.LabelAt | writer/deterministic_top5_strict_risks.py:8-16 | a label match at `p` reads the label case-insensitively and captures a value up to the end of the line |
| Top5Fields.SearchLabel | writer/deterministic_top5_strict_risks.py:61-86 | `search` returns a non-empty, single-line value or none |
| Top5Fields.SearchLabelLeftmost | writer/deterministic_top5_strict_risks.py:61-86 | the leftmost match is the one returned |
| Top5Fields.SearchLabelAbsent | writer/deterministic_top5_strict_risks.py:61-86 | a label that occurs nowhere is not found |
| Top5Fields.FieldOf | writer/deterministic_top5_strict_risks.py:61-86 | a field is stripped and holds no "**" |
| Top5Fields.SearchAndClean | writer/deterministic_top5_strict_risks.py:61-63 | the search result is found exactly when the label matches, cleaned |
| Top5Fields.ExtractFieldsFromWindow | writer/deterministic_top5_strict_risks.py:53-88 | the three locals, updated step by step, are the window's specified fields |
| Top5Fields.FieldOfPrefersPlain | writer/deterministic_top5_strict_risks.py:61-86 | the plain label's non-empty value wins; the bold label is consulted only when that is empty; neither label gives "" |
| Top5Fields.Window | writer/deterministic_top5_strict_risks.py:134-135 | the window is the text from the match start, 600 characters or up to the end |
| Top5Fields.OrderKeyFrom | writer/deterministic_top5_strict_risks.py:91-93 | the order key lies between 0 and 9999 |
| Top5Fields.OrderKeyOfRiskId | writer/deterministic_top5_strict_risks.py:91-93 | a scanned id's key is its three-digit number, below 1000, and different ids have different keys |
| DeterministicTop5.RawSourceId | writer/deterministic_top5_strict_risks.py:30-34 | the first citation's source id, unstripped, or "" without citations |
| DeterministicTop5.PickText | writer/deterministic_top5_strict_risks.py:37-42 | the stripped claim, empty exactly when the claim is blank |
| DeterministicTop5.OrNotFound | writer/deterministic_top5_strict_risks.py:142-144 | `value or "Not found in sources"` is never empty |
| DeterministicTop5.FoundsOf | writer/deterministic_top5_strict_risks.py:130-137 | one read match per regex match |
| DeterministicTop5.AddFoundNew | writer/deterministic_top5_strict_risks.py:139-146 | a first occurrence appends its id, stores every field (missing ones as not found), and cites its source alone |
| DeterministicTop5.AddFoundExisting | writer/deterministic_top5_strict_risks.py:147-158 | a later occurrence keeps the ids, fills only missing fields, and appends its source if new |
| DeterministicTop5.AddFoundOthers | writer/deterministic_top5_strict_risks.py:139-158 | other ids are untouched |
| DeterministicTop5.CollectValid | writer/deterministic_top5_strict_risks.py:121-158 | each id is a key once, and every citation list holds distinct non-empty ids |
| DeterministicTop5.CollectGrows | writer/deterministic_top5_strict_risks.py:124-158 | whatever earlier notes established (an id, a found field, a citation) is never overwritten |
| DeterministicTop5.MergeMatch | writer/deterministic_top5_strict_risks.py:139-158 | merging in place gives the specified merge |
| DeterministicTop5.MergeNoteMatches | writer/deterministic_top5_strict_risks.py:130-158 | the inner loop merges every match of the note in order |
| DeterministicTop5.CollectRisks | writer/deterministic_top5_strict_risks.py:124-158 | the outer loop merges every risks note in order |
| DeterministicTop5.InsertByKey | writer/deterministic_top5_strict_risks.py:160 | insertion adds exactly one element |
| DeterministicTop5.SortByKey | writer/deterministic_top5_strict_risks.py:160 | the sort keeps length and elements |
| DeterministicTop5.SortByKeyFacts | writer/deterministic_top5_strict_risks.py:160 | the sort orders by key, and keeps distinct ids distinct |
| DeterministicTop5.RiskIdsFacts | writer/deterministic_top5_strict_risks.py:160 | at most five ids (all of them when there are at most five), in key order, distinct, each a collected risk |
| DeterministicTop5.RiskIdsLowest | writer/deterministic_top5_strict_risks.py:160 | no left-out id has a smaller key than a listed one |
| DeterministicTop5.PricingSourceId | writer/deterministic_top5_strict_risks.py:165-169 | a pricing note contributes its non-empty raw source id |
| DeterministicTop5.PricingSourceIds | writer/deterministic_top5_strict_risks.py:163-169 | the loop collects the pricing sources in order |
| DeterministicTop5.WithPricingSupportFrame | writer/deterministic_top5_strict_risks.py:162-174 | only R-004's citations can change, and nothing changes when R-004 is not listed |
| DeterministicTop5.WithPricingSupportValid | writer/deterministic_top5_strict_risks.py:171-174 | the added source is non-empty and new, so the table stays valid |
| DeterministicTop5.WithPricingSupportEffect | writer/deterministic_top5_strict_risks.py:162-174 | R-004 gains at most the first pricing source mentioning a pricing word, and has it when listed and such a note exists |
| DeterministicTop5.Blocks | writer/deterministic_top5_strict_risks.py:184-204 | five lines per listed risk |
| DeterministicTop5.AddNewCitations | writer/deterministic_top5_strict_risks.py:196-198 | the loop adds the risk's new citations |
| DeterministicTop5.RiskBlock | writer/deterministic_top5_strict_risks.py:185-204 | a listed risk's citations with the fallback, and its five lines |
| DeterministicTop5.RenderRisks | writer/deterministic_top5_strict_risks.py:182-204 | the loop returns the blocks and `all_citations` |
| DeterministicTop5.BuildTop5StrictRisksMarkdown | writer/deterministic_top5_strict_risks.py:96-211 | the builder returns the specified Markdown |
| DeterministicTop5.AddNewFacts | writer/deterministic_top5_strict_risks.py:196-198 | earlier citations stay in front, exactly the new ones are added, none repeats |
| DeterministicTop5.AllCitationsFacts | writer/deterministic_top5_strict_risks.py:182-208 | the Citations section lists each id once, exactly those some listed risk cites, in order of first use |
| DeterministicTop5.RiskCitationsFacts | writer/deterministic_top5_strict_risks.py:190-194 | each listed risk has at least one citation: its own, or the first risks note's source; none is empty or repeated |
| DeterministicTop5.RisksNotesCited | writer/deterministic_top5_strict_risks.py:107 | a risks note's source id is non-empty, so the fallback is never "" |
| DeterministicTop5.BlocksAt | writer/deterministic_top5_strict_risks.py:184-204 | block `i` holds the `(i + 1)`-th listed risk's five lines |
| DeterministicTop5.Top5LinesFrame | writer/deterministic_top5_strict_risks.py:176-211 | four intro lines, five per risk, the Citations heading, one line per cited id, and a final empty line |
| DeterministicTop5.Top5LinesRisk | writer/deterministic_top5_strict_risks.py:200-204 | the `i`-th block is "### i. R-###: title", the three fields and the citation line |
| DeterministicTop5.Top5LinesCitation | writer/deterministic_top5_strict_risks.py:206-208 | each cited id has its own "- (id)" line, in first-use order |
| DeterministicTop5.Top5NotFound | writer/deterministic_top5_strict_risks.py:107-119 | the not-found package comes out exactly when no note cites a risks document |
| DeterministicTop5.ListedRisksCited | writer/deterministic_top5_strict_risks.py:160-204 | every listed risk cites at least one source id, none empty or repeated |
| Graph.ResearcherNode | orchestration/graph.py:22-27 | the researcher node appends one "research" row by "researcher" and keeps the earlier rows |
| Graph.WriterNode | orchestration/graph.py:23-28 | the writer node appends one "draft" row by "writer" and keeps the earlier rows |
| Graph.VerifierNode | orchestration/graph.py:24-29 | the verifier node appends its row and sets the verification notes and the final output from the notes and the draft |
| Graph.RunTask | orchestration/graph.py:35-44 | a fresh state with `task_text` = task runs planner, researcher, writer, verifier once each: exactly four rows in that order, the fixed plan, and the verifier's verdict on the notes and the draft |
| Graph.RunGrounding | orchestration/graph.py:26-30 | end to end: without a cited note, the draft is the fixed package and the final output the blocked template whatever the key and model; with one, the final output is the draft followed by the approval footer |
| RunEval.OutputText | eval/run_eval.py:48-56 | the first of final_output, draft, output, result holding a non-blank string, else the JSON text |
| RunEval.OutputPreference | eval/run_eval.py:51-56 | final_output wins over draft, draft over output, output over result, and the JSON text is the last resort |
| RunEval.JudgesFinalOutput | eval/run_eval.py:52-55 | on a finished run, the verifier's final output is never blank, so it is the text judged |
| RunEval.FinalTextNotBlank | eval/run_eval.py:54 | a text opening with the blocked template or ending with the approval footer is not blank |
| RunEval.NeedleFailuresExact | eval/run_eval.py:74-80 | one labelled failure per needle whose presence is as tested, in needle order, and nothing else |
| RunEval.CaseVerdict | eval/run_eval.py:82 | a case passes exactly when every required needle is present and every forbidden one absent |
| RunEval.CaseFailuresExact | eval/run_eval.py:72-82 | "Missing required text" failures for the absent required needles, then "Found forbidden text" failures for the present forbidden ones |
| RunEval.CheckNeedles | eval/run_eval.py:74-80 | one loop over the needles collects a labelled failure for each needle whose presence is as tested, in needle order |
| RunEval.RunCase | eval/run_eval.py:68-82 | the two loops record the case's failures on the judged text, and `ok` is true exactly when there are none |
| RunEval.CountWhereAll | eval/run_eval.py:95-107 | every case passes exactly when all are counted as passed |
| RunEval.Evaluate | eval/run_eval.py:90-115 | passed counts the passing cases, passed + failed is the number of cases, and the run exits with failure exactly when some case failed |
| App.BulletText | app/app.py:83 | a bullet's citation is stripped and no longer than the line |
| App.KindOfMeaning | app/app.py:76-83 | each line is classified by exactly the tests the loop makes: citations heading, other "## " heading, "-" bullet with its text, or plain |
| App.Kinds | app/app.py:72-83 | each line's kind, in order |
| App.StrippedLines | app/app.py:72 | one stripped line per line of the text |
| App.ExtractCitations | app/app.py:69-90 | the pass over the stripped lines and the dedupe loop return the specified citations |
| App.CollectBullets | app/app.py:73-83 | the loop with the `in_citations` flag and its `break` returns the collected bullets |
| App.CollectBeforeHeading | app/app.py:76-78 | nothing is collected before the first citations heading |
| App.CollectInside | app/app.py:79-83 | inside the section, up to the heading that ends it, every bullet is kept in order |
| App.CollectWindow | app/app.py:75-83 | the collected bullets are exactly the bullet lines between the first citations heading and the next other "## " heading |
| App.CollectNoHeading | app/app.py:74-79 | without a citations heading nothing is collected |
| App.NoHeadingNoCitations | app/app.py:70-83 | a text without a citations heading, the empty text included, yields no citations |
| App.CitationsClean | app/app.py:84-90 | no empty string and no duplicate, first-collection order, and every non-empty collected bullet present |
| App.ScoreEvalCase | app/app.py:174-198 | the two loops return the specified `(passed, missing, forbidden_found)` |
| App.ReportNeedles | app/app.py:182-190 | one loop reports the non-blank needles whose lower-cased presence is as tested, in order |
| App.ScoreVerdict | app/app.py:180-192 | a case passes exactly when every non-blank required needle occurs and no non-blank forbidden needle does, ignoring ASCII case |
| App.ScoreReports | app/app.py:182-190 | the reported needles are exactly the non-blank ones with the tested presence; a blank needle is never reported |
| App.ScoreIgnoresCase | app/app.py:180 | the score is the same when the draft is lower-cased first |
| App.RunStatus | app/app.py:122-125 | "ok" for a non-blank draft, "empty" otherwise; a scored eval run reports "pass" or "fail" instead |
| App.Preview | app/app.py:137 | at most 80 characters, no newline, stripped |
| App.RunHistory.constructor | app/app.py:93-95 | the history starts empty |
| App.RunHistory.LogRun | app/app.py:98-139 | the new entry, with the draft's citation count, the status and the preview, goes in front of the history |

## Left out

- Foreign services are not modelled; they are parameters instead.
  - The embedding call, the FAISS search and the metadata file become `Index`: a ranking function from query and count to hits (or a raised error), plus the metadata rows.
  - The text splitter becomes a function from a document to its splits.
  - The language model becomes a function from the two prompts to the message content; `None` content is modelled as an absent draft.
  - A model call that raises is not modelled.
- The index cache of retrieval/retriever.py:14-15,38-43 and the file loading of `_load_meta`/`_load_index` are left out. A missing index file is not modelled.
- Floating-point scores are carried as `real` and never inspected.
- `rglob` and `read_text` are replaced by a listing of files given as `SourceFile` values.
  - Undecodable bytes are not modelled.
  - Loader.FileName splits paths on `/` only.
- `_read_text_file` (tasks/compare_approaches/research_plan.py:26-32) becomes the `raw` parameter. A failed read is `""`.
- Research notes are typed records (claim plus citations). So:
  - the other keys `_note_text` and `_pick_text` try (`content`, `text`, `snippet`, ...) never exist;
  - the defaults "unknown_source" and "unknown location" of `_build_context` (agents/writer.py:64-65) never apply;
  - non-dict notes and citations are not modelled.
- A postprocess hook that raises is not modelled. The only hook, `postprocess_compare`, reads a file whose errors it already turns into `""`.
- Text handling is approximate:
  - `str.lower` and IGNORECASE are modelled on ASCII letters only;
  - `\w` and `\b` in the risk id pattern use ASCII word characters;
  - `\d` is ASCII digits.
- Loader.LineRangeOrdered assumes a non-negative start offset. Loader.NegativeStartInverts shows what a negative one does.
- Loader.RawDocumentsExact: states that every accepted file is loaded and that every loaded document is well formed, but not that each loaded document comes from a particular file of the listing.
- DeterministicTop5.SortByKey: states ordering, length and membership, and that distinct ids stay distinct (a permutation on distinct ids), but not the stability of Python's sort. Collected ids are distinct and have distinct keys (Top5Fields.OrderKeyOfRiskId), so stability never matters here.
- Shared lemmas:
  - DeterministicDeadlines.FirstSourceId is the same rule as DeterministicCompare.PickSourceId: it carries the same contract and is proved equal to it.
  - `_has_citations` and `_has_any_citations` are one method, SharedState.HasCitations.
- The evaluation runner is only partly modelled:
  - `_contains`' `unicode_escape` decoding is the `norm` parameter;
  - `_read_jsonl` and `_to_case` are not modelled;
  - `main`'s printing and `SystemExit(1)` become the `exitFailure` result;
  - RunEval.EvalCase and App.EvalCase are distinct, as in the two source files.
- The web front end is only partly modelled:
  - the Streamlit page, `_init_run_history`'s session storage, `_load_eval_cases`, `_pretty_trace` and `_render_run_history` are not modelled;
  - in `_log_run`, the retrieved-chunk scan over the trace (app/app.py:111-119) is the `chunks` parameter, and `datetime.now()` is the `time` parameter;
  - App.CollectBullets loops over the lines once `KindOf` has classified them, instead of testing the strings inside the loop.
- `run_task` has gaps:
  - its conversion of the final state to a dictionary (orchestration/graph.py:46-52) is not modelled;
  - the langgraph engine is replaced by calling the four agents in the wired order.
- The plans for client_update_email, draft_confluence_page and default are single pass-through `search_docs` calls. They are modelled as `Single` retrievals of the registry; their source files are not part of this model.
- `run_local.py`, `retrieval/index_store.py` and `tasks/examples.py` are not part of this model.
- Where the written description and the code differ, the model follows the code:
  - the verifier checks only that some note has a citation; it neither inspects the draft for citation markers nor clears the draft;
  - the researcher runs the postprocess hook even after writing the "not found" sentinel note (Researcher.ResearchPostprocessAfterSentinel).
