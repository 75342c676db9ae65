/**
 * The compare-approaches task plan: two searches forced towards technical_decisions.md, and a
 * post-processing hook that injects the Option A/Option B section of that file as the first note.
 */
module CompareApproachesPlan {
  import opened Wrappers
  import opened PyStr
  import opened Retriever
  import opened ResearchUtils
  import opened SharedState

  const TechnicalDecisions: string := "technical_decisions.md"
  const ForcedQuery: string := "Current Recommendation Week 12 Option A In-House contingency Week 16 technical_decisions.md"
  const CompareCap: nat := 12

  /**
   * `retrieve_compare(query)`: the caller's search and the fixed anchor search, both forcing
   * technical_decisions.md, deduplicated and cut to 12. The first search's records come first;
   * the second contributes only records whose keys the first did not use.
   */
  function RetrieveCompare(index: Index, query: string): (r: Result<seq<Record>>)
    ensures var a := Search(index, query, 8, TechnicalDecisions, 40);
            var b := Search(index, ForcedQuery, 3, TechnicalDecisions, 20);
            (r.Ok? <==> a.Ok? && b.Ok?) &&
            (a.Err? ==> r == Err(a.error)) &&
            (a.Ok? && b.Err? ==> r == Err(b.error)) &&
            (r.Ok? ==> r.value == Take(Dedupe(a.value) + DedupeFrom(b.value, DedupeKey, KeySet(a.value, DedupeKey)), CompareCap))
    ensures r.Ok? ==> |r.value| <= CompareCap && DistinctKeys(r.value, DedupeKey) &&
                      forall k :: 0 <= k < |r.value| ==> DedupeKey(r.value[k]) != ""
  {
    var results :- Search(index, query, 8, TechnicalDecisions, 40);
    var forced :- Search(index, ForcedQuery, 3, TechnicalDecisions, 20);
    DedupeAppend(results, forced);
    CappedDedupeKeys(results + forced);
    Ok(Take(Dedupe(results + forced), CompareCap))
  }

  /** The cut deduplicated list keeps non-blank, pairwise-distinct keys. */
  lemma CappedDedupeKeys(all: seq<Record>)
    ensures var out := Take(Dedupe(all), CompareCap);
            DistinctKeys(out, DedupeKey) && forall k :: 0 <= k < |out| ==> DedupeKey(out[k]) != ""
  {
    var d := Dedupe(all);
    DedupeFromSound(all, DedupeKey, {});
    var out := Take(d, CompareCap);
    forall k | 0 <= k < |out| ensures DedupeKey(out[k]) != "" {
      assert out[k] == d[k];
    }
    forall i, j | 0 <= i < j < |out| ensures DedupeKey(out[i]) != DedupeKey(out[j]) {
      assert out[i] == d[i] && out[j] == d[j];
    }
  }

  /** Where the block of `_extract_between` lies: after the first start marker, up to the first end marker after it. */
  function BlockBounds(text: string, startMarker: string, endMarker: string): (b: Option<(int, int)>)
    ensures b.Some? ==> 0 <= b.value.0 <= b.value.1 <= |text|
  {
    if text == "" then None
    else
      var startIdx := Find(text, startMarker);
      if startIdx == -1 then None
      else
        var from := startIdx + |startMarker|;
        var endIdx := FindFrom(text, endMarker, from);
        if endIdx == -1 then None else Some((from, endIdx))
  }

  /** `_extract_between(text, start, end)`; its meaning is stated by the two lemmas below. */
  function ExtractBetween(text: string, startMarker: string, endMarker: string): (r: string)
    ensures IsStripped(r)
    ensures text == "" || (forall i :: !IsAt(text, startMarker, i)) ==> r == ""
  {
    var b := BlockBounds(text, startMarker, endMarker);
    if b.None? then "" else Strip(text[b.value.0..b.value.1])
  }

  /**
   * With `i` the first occurrence of the start marker and `j` the first occurrence of the end
   * marker after it, the block is the stripped text strictly between them.
   */
  lemma ExtractBetweenFound(text: string, startMarker: string, endMarker: string, i: int, j: int)
    requires text != ""
    requires IsAt(text, startMarker, i) && forall i' :: 0 <= i' < i ==> !IsAt(text, startMarker, i')
    requires i + |startMarker| <= j && IsAt(text, endMarker, j)
    requires forall j' :: i + |startMarker| <= j' < j ==> !IsAt(text, endMarker, j')
    ensures ExtractBetween(text, startMarker, endMarker) == Strip(text[i + |startMarker|..j])
  {
    FindIsFirst(text, startMarker, i);
    var from := i + |startMarker|;
    var e := FindFrom(text, endMarker, from);
    assert e == j;
    assert BlockBounds(text, startMarker, endMarker) == Some((from, j));
  }

  /** When no end marker follows the first start marker, the block is empty. */
  lemma ExtractBetweenNoEnd(text: string, startMarker: string, endMarker: string, i: int)
    requires IsAt(text, startMarker, i) && forall i' :: 0 <= i' < i ==> !IsAt(text, startMarker, i')
    requires forall j :: i + |startMarker| <= j ==> !IsAt(text, endMarker, j)
    ensures ExtractBetween(text, startMarker, endMarker) == ""
  {
    FindIsFirst(text, startMarker, i);
    assert BlockBounds(text, startMarker, endMarker) == None;
  }

  const AnchorSourceId: string := "doc:technical_decisions.md#anchor_options"
  /** The anchor's location text, kept byte for byte as the source spells it (a mis-decoded em dash). */
  const AnchorLocation: string :=
    "anchor \U{00E2}\U{20AC}\U{201D} Option A/Option B section (between '### Option A:' and '## Current Recommendation')"
  const OptionsStart: string := "### Option A:"
  const OptionsEnd: string := "## Current Recommendation"

  /** The injected quote: newlines flattened to spaces, cut to 260 characters, "..." when cut. */
  function AnchorQuote(text: string): (q: string)
    ensures '\n' !in q
    ensures |text| <= 260 ==> |q| == |text|
    ensures |text| > 260 ==> |q| == 263 && EndsWith(q, "...")
    ensures forall k :: 0 <= k < |q| && k < 260 && k < |text| ==> q[k] == (if text[k] == '\n' then ' ' else text[k])
  {
    var flat := ReplaceChar(text, '\n', ' ');
    assert forall k :: 0 <= k < |flat| ==> flat[k] != '\n';
    Take(flat, 260) + (if |text| > 260 then "..." else "")
  }

  /** The note list after `postprocess_compare` read `raw` as the content of technical_decisions.md. */
  function InjectAnchor(notes: seq<ResearchNote>, raw: string): (r: seq<ResearchNote>)
    ensures var block := ExtractBetween(raw, OptionsStart, OptionsEnd);
            (IsBlank(raw) || block == "" ==> r == notes) &&
            (!IsBlank(raw) && block != "" ==>
               |r| == |notes| + 1 && r[1..] == notes &&
               r[0].claim == OptionsStart + "\n" + block &&
               r[0].citations == [Citation(AnchorSourceId, AnchorQuote(OptionsStart + "\n" + block), AnchorLocation)])
  {
    if Strip(raw) == "" then notes
    else
      var block := ExtractBetween(raw, OptionsStart, OptionsEnd);
      if block == "" then notes
      else
        var injected := OptionsStart + "\n" + block;
        [ResearchNote(injected, [Citation(AnchorSourceId, AnchorQuote(injected), AnchorLocation)])] + notes
  }

  /** `postprocess_compare(state)`: only `research_notes` changes. */
  method PostprocessCompare(state: State, raw: string)
    modifies state`researchNotes
    ensures state.researchNotes == InjectAnchor(old(state.researchNotes), raw)
  {
    if Strip(raw) == "" {
      return;
    }
    var block := ExtractBetween(raw, OptionsStart, OptionsEnd);
    if block == "" {
      return;
    }
    var injected := OptionsStart + "\n" + block;
    var citation := Citation(AnchorSourceId, AnchorQuote(injected), AnchorLocation);
    state.researchNotes := [ResearchNote(injected, [citation])] + state.researchNotes;
  }

  /** The injection never drops or reorders a note: the old notes are the tail of the new list. */
  lemma InjectKeepsNotes(notes: seq<ResearchNote>, raw: string)
    ensures var r := InjectAnchor(notes, raw);
            |notes| <= |r| <= |notes| + 1 && r[|r| - |notes|..] == notes
  {
  }

  /** When a block was found, the first note cites the anchor once, opens with the start marker and has a bounded quote. */
  lemma InjectedNoteIsCited(notes: seq<ResearchNote>, raw: string)
    requires !IsBlank(raw) && ExtractBetween(raw, OptionsStart, OptionsEnd) != ""
    ensures var r := InjectAnchor(notes, raw);
            r != [] && |r[0].citations| == 1 && r[0].citations[0].sourceId == AnchorSourceId &&
            StartsWith(r[0].claim, OptionsStart) && |r[0].citations[0].quote| <= 263
  {
    var injected := OptionsStart + "\n" + ExtractBetween(raw, OptionsStart, OptionsEnd);
    var r := InjectAnchor(notes, raw);
    assert r[0].claim == injected;
    assert injected[..|OptionsStart|] == OptionsStart;
    var q := AnchorQuote(injected);
    assert r[0].citations == [Citation(AnchorSourceId, q, AnchorLocation)];
    assert |q| <= 263;
  }
}
