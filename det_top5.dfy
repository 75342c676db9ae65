/**
 * The strict top-5 risks writer (`build_top5_strict_risks_markdown`): every `R-###: title`
 * line of a risks.md note is a risk, its Severity / Impact / Mitigation come from the 600
 * characters after it, repeated ids only fill fields still missing, the five lowest ids are
 * listed with their citations, and R-004 may gain a pricing_and_packaging.md citation.
 */
module DeterministicTop5 {
  import opened Wrappers
  import opened PyStr
  import opened Seqs
  import opened SharedState
  import opened Top5Fields

  /** `_pick_source_id`: the first citation's source id as it is, unstripped, or "". */
  function RawSourceId(n: ResearchNote): (r: string)
    ensures n.citations == [] ==> r == ""
  {
    if n.citations != [] then n.citations[0].sourceId else ""
  }

  /** `_pick_text`: of a note's text keys only the claim exists here; its stripped value, "" when blank. */
  function PickText(n: ResearchNote): (r: string)
    ensures r == "" <==> IsBlank(n.claim)
    ensures IsStripped(r)
  {
    Strip(n.claim)
  }

  predicate IsRisksDoc(sourceId: string) {
    Contains(Lower(sourceId), "risks.md")
  }

  predicate IsPricingDoc(sourceId: string) {
    Contains(Lower(sourceId), "pricing_and_packaging.md")
  }

  function RisksNote(n: ResearchNote): Option<ResearchNote> {
    if IsRisksDoc(RawSourceId(n)) then Some(n) else None
  }

  function PricingNote(n: ResearchNote): Option<ResearchNote> {
    if IsPricingDoc(RawSourceId(n)) then Some(n) else None
  }

  /** The notes citing a risks document, in order. */
  function RisksNotes(notes: seq<ResearchNote>): seq<ResearchNote> {
    FilterMap(notes, RisksNote)
  }

  /** The notes citing the pricing document, in order. */
  function PricingNotes(notes: seq<ResearchNote>): seq<ResearchNote> {
    FilterMap(notes, PricingNote)
  }

  /** A risk's four text fields, as `extracted[rid]` holds them. */
  datatype Risk = Risk(title: string, severity: string, impact: string, mitigation: string)

  /** What one id match yields: the id, the cleaned title and the fields of its window. */
  datatype Found = Found(rid: string, title: string, fields: Fields)

  /**
   * The two dictionaries the builder fills, `extracted` and `risk_citations`, with the order in
   * which their keys were first inserted.
   */
  datatype Table = Table(ids: seq<string>, risks: map<string, Risk>, cites: map<string, seq<string>>)

  const EmptyTable: Table := Table([], map[], map[])

  /** `value or "Not found in sources"`. */
  function OrNotFound(s: string): (r: string)
    ensures r != ""
  {
    if s == "" then NotFound else s
  }

  /** The match at `m.start` of `text`, read: cleaned title, fields of the 600-character window. */
  function FoundOf(text: string, m: RiskMatch): Found
    requires 0 <= m.start <= |text|
  {
    Found(m.rid, Clean(m.title), WindowFields(Window(text, m.start)))
  }

  /** What `RISK_ID_RE.finditer(text)` yields, each match read. */
  function FoundsOf(text: string): (fs: seq<Found>)
    ensures |fs| == |RiskMatches(text)|
  {
    var ms := RiskMatches(text);
    seq(|ms|, k requires 0 <= k < |ms| => FoundOf(text, ms[k]))
  }

  /** The record a first occurrence stores: every missing field becomes "Not found in sources". */
  function NewRisk(f: Found): Risk {
    Risk(f.title, OrNotFound(f.fields.severity), OrNotFound(f.fields.impact), OrNotFound(f.fields.mitigation))
  }

  /** A later occurrence: a title still "" or not found, and a field still not found, take its non-empty value. */
  function FillRisk(r: Risk, f: Found): Risk {
    Risk(
      if (r.title == "" || r.title == NotFound) && f.title != "" then f.title else r.title,
      if r.severity == NotFound && f.fields.severity != "" then f.fields.severity else r.severity,
      if r.impact == NotFound && f.fields.impact != "" then f.fields.impact else r.impact,
      if r.mitigation == NotFound && f.fields.mitigation != "" then f.fields.mitigation else r.mitigation)
  }

  /** `risk_citations.get(rid, [])`. */
  function CitesOf(t: Table, rid: string): seq<string> {
    if rid in t.cites then t.cites[rid] else []
  }

  /** `if source_id and source_id not in cits: cits.append(source_id)`. */
  function AddCite(cs: seq<string>, sid: string): seq<string> {
    if sid != "" && sid !in cs then cs + [sid] else cs
  }

  /** One match merged into the two dictionaries. */
  function AddFound(t: Table, sid: string, f: Found): Table {
    if f.rid !in t.risks then
      Table(t.ids + [f.rid], t.risks[f.rid := NewRisk(f)], t.cites[f.rid := if sid != "" then [sid] else []])
    else
      Table(t.ids, t.risks[f.rid := FillRisk(t.risks[f.rid], f)], t.cites[f.rid := AddCite(CitesOf(t, f.rid), sid)])
  }

  /** The matches of one note merged in order. */
  function AddAll(t: Table, sid: string, fs: seq<Found>): Table
    decreases |fs|
  {
    if fs == [] then t else AddFound(AddAll(t, sid, fs[..|fs| - 1]), sid, fs[|fs| - 1])
  }

  /** One risks note merged: a note with no text is skipped. */
  function AddNote(t: Table, n: ResearchNote): Table {
    var text := PickText(n);
    if text == "" then t else AddAll(t, RawSourceId(n), FoundsOf(text))
  }

  /** The dictionaries after the loop over the risks notes. */
  function Collect(notes: seq<ResearchNote>): Table
    decreases |notes|
  {
    if notes == [] then EmptyTable else AddNote(Collect(notes[..|notes| - 1]), notes[|notes| - 1])
  }

  /** A citation list: no empty id, no id twice. */
  predicate CitesOk(cs: seq<string>) {
    "" !in cs && forall i, j :: 0 <= i < j < |cs| ==> cs[i] != cs[j]
  }

  /** The keys of both dictionaries are the inserted ids, each once, and every citation list is clean. */
  ghost predicate TableValid(t: Table) {
    (forall i, j :: 0 <= i < j < |t.ids| ==> t.ids[i] != t.ids[j]) &&
    (forall rid :: rid in t.risks <==> rid in t.ids) &&
    (forall rid :: rid in t.cites <==> rid in t.ids) &&
    (forall rid :: rid in t.cites ==> CitesOk(t.cites[rid]))
  }

  lemma AddCiteOk(cs: seq<string>, sid: string)
    requires CitesOk(cs)
    ensures CitesOk(AddCite(cs, sid))
    ensures IsPrefix(cs, AddCite(cs, sid))
    ensures sid != "" ==> sid in AddCite(cs, sid)
  {
  }

  predicate IsPrefix<T(==)>(a: seq<T>, b: seq<T>) {
    |a| <= |b| && b[..|a|] == a
  }

  /** Merging one match keeps the dictionaries valid. */
  lemma AddFoundValid(t: Table, sid: string, f: Found)
    requires TableValid(t)
    ensures TableValid(AddFound(t, sid, f))
  {
    if f.rid in t.risks {
      AddCiteOk(CitesOf(t, f.rid), sid);
    }
  }

  lemma {:induction false} AddAllValid(t: Table, sid: string, fs: seq<Found>)
    requires TableValid(t)
    ensures TableValid(AddAll(t, sid, fs))
    decreases |fs|
  {
    if fs != [] {
      AddAllValid(t, sid, fs[..|fs| - 1]);
      AddFoundValid(AddAll(t, sid, fs[..|fs| - 1]), sid, fs[|fs| - 1]);
    }
  }

  /** After any number of risks notes, each id is a key once and every risk's citations are distinct non-empty ids. */
  lemma {:induction false} CollectValid(notes: seq<ResearchNote>)
    ensures TableValid(Collect(notes))
    decreases |notes|
  {
    if notes != [] {
      CollectValid(notes[..|notes| - 1]);
      var n := notes[|notes| - 1];
      if PickText(n) != "" {
        AddAllValid(Collect(notes[..|notes| - 1]), RawSourceId(n), FoundsOf(PickText(n)));
      }
    }
  }

  /**
   * `later` keeps every field `earlier` already has: a title that is neither "" nor not-found,
   * and any other field that is not not-found.
   */
  predicate Keeps(earlier: Risk, later: Risk) {
    (earlier.title != "" && earlier.title != NotFound ==> later.title == earlier.title) &&
    (earlier.severity != NotFound ==> later.severity == earlier.severity) &&
    (earlier.impact != NotFound ==> later.impact == earlier.impact) &&
    (earlier.mitigation != NotFound ==> later.mitigation == earlier.mitigation)
  }

  /** Table `b` grew from `a`: ids extended, every risk keeps its found fields, every citation list extended. */
  predicate Grows(a: Table, b: Table) {
    IsPrefix(a.ids, b.ids) &&
    (forall rid :: rid in a.risks ==> rid in b.risks && Keeps(a.risks[rid], b.risks[rid])) &&
    (forall rid :: rid in a.cites ==> IsPrefix(a.cites[rid], CitesOf(b, rid)))
  }

  lemma GrowsTrans(a: Table, b: Table, c: Table)
    requires Grows(a, b) && Grows(b, c)
    ensures Grows(a, c)
  {
    forall rid | rid in a.cites ensures IsPrefix(a.cites[rid], CitesOf(c, rid)) {
      assert IsPrefix(CitesOf(b, rid), CitesOf(c, rid));
      assert CitesOf(c, rid)[..|CitesOf(b, rid)|][..|a.cites[rid]|] == CitesOf(c, rid)[..|a.cites[rid]|];
    }
  }

  lemma GrowsRefl(t: Table)
    ensures Grows(t, t)
  {
    forall rid | rid in t.cites ensures IsPrefix(t.cites[rid], CitesOf(t, rid)) { }
  }

  /** The first occurrence of an id appends it to the ids, stores all its fields (missing ones as not-found) and its source as the only citation. */
  lemma AddFoundNew(t: Table, sid: string, f: Found)
    requires f.rid !in t.risks
    ensures AddFound(t, sid, f).ids == t.ids + [f.rid]
    ensures AddFound(t, sid, f).risks[f.rid] == NewRisk(f)
    ensures CitesOf(AddFound(t, sid, f), f.rid) == (if sid != "" then [sid] else [])
  {
  }

  /** A later occurrence keeps the ids, only fills fields still missing, and appends its source if new. */
  lemma AddFoundExisting(t: Table, sid: string, f: Found)
    requires f.rid in t.risks
    ensures AddFound(t, sid, f).ids == t.ids
    ensures AddFound(t, sid, f).risks[f.rid] == FillRisk(t.risks[f.rid], f)
    ensures Keeps(t.risks[f.rid], AddFound(t, sid, f).risks[f.rid])
    ensures CitesOf(AddFound(t, sid, f), f.rid) == AddCite(CitesOf(t, f.rid), sid)
  {
  }

  /** Other ids are untouched. */
  lemma AddFoundOthers(t: Table, sid: string, f: Found, rid: string)
    requires rid != f.rid && rid in t.risks
    ensures AddFound(t, sid, f).risks[rid] == t.risks[rid]
    ensures CitesOf(AddFound(t, sid, f), rid) == CitesOf(t, rid)
  {
  }

  /** The table only grows. */
  lemma AddFoundGrows(t: Table, sid: string, f: Found)
    requires TableValid(t)
    ensures Grows(t, AddFound(t, sid, f))
  {
    var u := AddFound(t, sid, f);
    if f.rid in t.risks {
      AddCiteOk(CitesOf(t, f.rid), sid);
      AddFoundExisting(t, sid, f);
      assert IsPrefix(t.cites[f.rid], CitesOf(u, f.rid));
    } else {
      assert f.rid !in t.cites;
      assert u.ids[..|t.ids|] == t.ids;
    }
    assert IsPrefix(t.ids, u.ids);
    forall rid | rid in t.risks ensures rid in u.risks && Keeps(t.risks[rid], u.risks[rid]) {
      if rid != f.rid {
        AddFoundOthers(t, sid, f, rid);
      }
    }
    forall rid | rid in t.cites ensures IsPrefix(t.cites[rid], CitesOf(u, rid)) {
      if rid != f.rid {
        AddFoundOthers(t, sid, f, rid);
      }
    }
  }

  lemma AddAllSnoc(t: Table, sid: string, fs: seq<Found>, k: nat)
    requires k < |fs|
    ensures AddAll(t, sid, fs[..k + 1]) == AddFound(AddAll(t, sid, fs[..k]), sid, fs[k])
  {
    assert fs[..k + 1][..k] == fs[..k];
  }

  lemma {:induction false} AddAllGrows(t: Table, sid: string, fs: seq<Found>)
    requires TableValid(t)
    ensures Grows(t, AddAll(t, sid, fs))
    decreases |fs|
  {
    if fs == [] {
      GrowsRefl(t);
    } else {
      var mid := AddAll(t, sid, fs[..|fs| - 1]);
      AddAllGrows(t, sid, fs[..|fs| - 1]);
      AddAllValid(t, sid, fs[..|fs| - 1]);
      AddFoundGrows(mid, sid, fs[|fs| - 1]);
      GrowsTrans(t, mid, AddAll(t, sid, fs));
    }
  }

  lemma AddNoteGrows(t: Table, n: ResearchNote)
    requires TableValid(t)
    ensures Grows(t, AddNote(t, n))
  {
    if PickText(n) == "" {
      GrowsRefl(t);
    } else {
      AddAllGrows(t, RawSourceId(n), FoundsOf(PickText(n)));
    }
  }

  /**
   * Never overwritten: whatever the first `k` risks notes established (an id, a found title or
   * field, a citation) is still there, unchanged, after all of them.
   */
  lemma {:induction false} CollectGrows(notes: seq<ResearchNote>, k: nat)
    requires k <= |notes|
    ensures Grows(Collect(notes[..k]), Collect(notes))
    decreases |notes| - k
  {
    if k == |notes| {
      assert notes[..k] == notes;
      GrowsRefl(Collect(notes));
    } else {
      var init := notes[..|notes| - 1];
      assert init[..k] == notes[..k];
      CollectGrows(init, k);
      CollectValid(init);
      AddNoteGrows(Collect(init), notes[|notes| - 1]);
      GrowsTrans(Collect(notes[..k]), Collect(init), Collect(notes));
    }
  }

  /** One match merged into the dictionaries in place: the `if rid not in extracted` branch and its `else`. */
  method MergeMatch(ids: seq<string>, risks: map<string, Risk>, cites: map<string, seq<string>>, sourceId: string, f: Found)
    returns (ids': seq<string>, risks': map<string, Risk>, cites': map<string, seq<string>>)
    ensures Table(ids', risks', cites') == AddFound(Table(ids, risks, cites), sourceId, f)
  {
    ids', risks', cites' := ids, risks, cites;
    if f.rid !in risks {
      ids' := ids + [f.rid];
      risks' := risks[f.rid := NewRisk(f)];
      cites' := cites[f.rid := if sourceId != "" then [sourceId] else []];
    } else {
      var r := risks[f.rid];
      if (r.title == "" || r.title == NotFound) && f.title != "" {
        r := r.(title := f.title);
      }
      if r.severity == NotFound && f.fields.severity != "" {
        r := r.(severity := f.fields.severity);
      }
      if r.impact == NotFound && f.fields.impact != "" {
        r := r.(impact := f.fields.impact);
      }
      if r.mitigation == NotFound && f.fields.mitigation != "" {
        r := r.(mitigation := f.fields.mitigation);
      }
      risks' := risks[f.rid := r];
      var cs := if f.rid in cites then cites[f.rid] else [];
      if sourceId != "" && sourceId !in cs {
        cs := cs + [sourceId];
      }
      cites' := cites[f.rid := cs];
    }
  }

  /** The inner loop over `RISK_ID_RE.finditer(text)`: each match read and merged. */
  method MergeNoteMatches(t0: Table, sourceId: string, text: string) returns (t: Table)
    ensures t == AddAll(t0, sourceId, FoundsOf(text))
  {
    var ms := RiskMatches(text);
    ghost var fs := FoundsOf(text);
    var ids, risks, cites := t0.ids, t0.risks, t0.cites;
    var k := 0;
    while k < |ms|
      invariant 0 <= k <= |ms|
      invariant Table(ids, risks, cites) == AddAll(t0, sourceId, fs[..k])
    {
      var m := ms[k];
      var title := Clean(m.title);
      var window := Window(text, m.start);
      var severity, impact, mitigation := ExtractFieldsFromWindow(window);
      var f := Found(m.rid, title, Fields(severity, impact, mitigation));
      assert f == fs[k];
      AddAllSnoc(t0, sourceId, fs, k);
      ids, risks, cites := MergeMatch(ids, risks, cites, sourceId, f);
      k := k + 1;
    }
    assert fs[..k] == fs;
    t := Table(ids, risks, cites);
  }

  /** The outer loop over the risks notes. */
  method CollectRisks(risksNotes: seq<ResearchNote>) returns (t: Table)
    ensures t == Collect(risksNotes)
  {
    t := EmptyTable;
    var i := 0;
    while i < |risksNotes|
      invariant 0 <= i <= |risksNotes|
      invariant t == Collect(risksNotes[..i])
    {
      var n := risksNotes[i];
      var sourceId := RawSourceId(n);
      var text := PickText(n);
      assert risksNotes[..i + 1][..i] == risksNotes[..i];
      if text != "" {
        t := MergeNoteMatches(t, sourceId, text);
      }
      i := i + 1;
    }
    assert risksNotes[..i] == risksNotes;
  }

  /** Python's stable sort step: `x` goes after every element whose key is not greater. */
  function InsertByKey(x: string, s: seq<string>): (r: seq<string>)
    ensures |r| == |s| + 1
    ensures forall y :: y in r <==> y == x || y in s
    decreases |s|
  {
    if s == [] then [x]
    else if OrderKey(x) < OrderKey(s[0]) then [x] + s
    else [s[0]] + InsertByKey(x, s[1..])
  }

  /** `sorted(ids, key=_risk_order_key)`: a stable insertion sort on the order key. */
  function SortByKey(xs: seq<string>): (r: seq<string>)
    ensures |r| == |xs|
    ensures forall y :: y in r <==> y in xs
    decreases |xs|
  {
    if xs == [] then [] else InsertByKey(xs[|xs| - 1], SortByKey(xs[..|xs| - 1]))
  }

  predicate SortedByKey(s: seq<string>) {
    forall i, j :: 0 <= i < j < |s| ==> OrderKey(s[i]) <= OrderKey(s[j])
  }

  predicate Distinct(s: seq<string>) {
    forall i, j :: 0 <= i < j < |s| ==> s[i] != s[j]
  }

  lemma {:induction false} InsertByKeySorted(x: string, s: seq<string>)
    requires SortedByKey(s)
    ensures SortedByKey(InsertByKey(x, s))
    decreases |s|
  {
    if s != [] && OrderKey(x) >= OrderKey(s[0]) {
      InsertByKeySorted(x, s[1..]);
      var tail := InsertByKey(x, s[1..]);
      var r := [s[0]] + tail;
      forall i, j | 0 <= i < j < |r| ensures OrderKey(r[i]) <= OrderKey(r[j]) {
        if i == 0 {
          assert r[j] in tail;
        } else {
          assert r[i] == tail[i - 1] && r[j] == tail[j - 1];
        }
      }
    }
  }

  lemma {:induction false} InsertByKeyDistinct(x: string, s: seq<string>)
    requires x !in s && Distinct(s)
    ensures Distinct(InsertByKey(x, s))
    decreases |s|
  {
    if s != [] && OrderKey(x) >= OrderKey(s[0]) {
      InsertByKeyDistinct(x, s[1..]);
      var tail := InsertByKey(x, s[1..]);
      var r := [s[0]] + tail;
      forall i, j | 0 <= i < j < |r| ensures r[i] != r[j] {
        if i == 0 {
          assert r[j] in tail;
        } else {
          assert r[i] == tail[i - 1] && r[j] == tail[j - 1];
        }
      }
    }
  }

  /** The sort orders by key, and on distinct ids it is a permutation: same length, same ids, each once. */
  lemma {:induction false} SortByKeyFacts(xs: seq<string>)
    ensures SortedByKey(SortByKey(xs))
    ensures Distinct(xs) ==> Distinct(SortByKey(xs))
    decreases |xs|
  {
    if xs != [] {
      var init := xs[..|xs| - 1];
      SortByKeyFacts(init);
      if Distinct(xs) {
        assert xs[|xs| - 1] !in init;
      }
      InsertByKeySorted(xs[|xs| - 1], SortByKey(init));
      if Distinct(xs) {
        InsertByKeyDistinct(xs[|xs| - 1], SortByKey(init));
      }
    }
  }

  /** `sorted(extracted.keys(), key=_risk_order_key)[:5]`. */
  function RiskIds(t: Table): seq<string> {
    Take(SortByKey(t.ids), 5)
  }

  /** The listed ids: at most five, all of them when there are at most five, in key order, each a collected risk and each once. */
  lemma RiskIdsFacts(t: Table)
    requires TableValid(t)
    ensures |RiskIds(t)| == if |t.ids| < 5 then |t.ids| else 5
    ensures SortedByKey(RiskIds(t)) && Distinct(RiskIds(t))
    ensures forall rid :: rid in RiskIds(t) ==> rid in t.risks
    ensures |t.ids| <= 5 ==> forall rid :: rid in t.risks ==> rid in RiskIds(t)
  {
    var sorted := SortByKey(t.ids);
    SortByKeyFacts(t.ids);
    assert Distinct(t.ids);
    var ids := RiskIds(t);
    assert ids == sorted[..|ids|];
    assert forall i, j :: 0 <= i < j < |ids| ==> ids[i] == sorted[i] && ids[j] == sorted[j];
  }

  /** No collected id left out has a smaller key than one listed: the five listed are the lowest. */
  lemma RiskIdsLowest(t: Table, rid: string, sel: string)
    requires rid in t.ids && rid !in RiskIds(t) && sel in RiskIds(t)
    ensures OrderKey(sel) <= OrderKey(rid)
  {
    var sorted := SortByKey(t.ids);
    SortByKeyFacts(t.ids);
    var ids := RiskIds(t);
    var p :| 0 <= p < |sorted| && sorted[p] == rid;
    var i :| 0 <= i < |ids| && ids[i] == sel;
    assert ids[i] == sorted[i];
    assert p >= |ids|;
  }

  const PricingRisk: string := "R-004"

  /** The lowered text holds one of "pricing", "discount", "churn", "sensitivity". */
  predicate MentionsPricing(text: string) {
    var low := Lower(text);
    Contains(low, "pricing") || Contains(low, "discount") || Contains(low, "churn") || Contains(low, "sensitivity")
  }

  /** A pricing note's contribution to `pricing_source_ids`. */
  function PricingSourceId(n: ResearchNote): (r: Option<string>)
    ensures r.Some? ==> r.value != "" && r.value == RawSourceId(n)
  {
    if MentionsPricing(PickText(n)) && RawSourceId(n) != "" then Some(RawSourceId(n)) else None
  }

  /** The loop collecting `pricing_source_ids`. */
  method PricingSourceIds(pricingNotes: seq<ResearchNote>) returns (ids: seq<string>)
    ensures ids == FilterMap(pricingNotes, PricingSourceId)
  {
    ids := [];
    var i := 0;
    while i < |pricingNotes|
      invariant 0 <= i <= |pricingNotes|
      invariant ids == FilterMap(pricingNotes[..i], PricingSourceId)
    {
      FilterMapSnoc(pricingNotes, PricingSourceId, i);
      var n := pricingNotes[i];
      var sid := RawSourceId(n);
      if MentionsPricing(PickText(n)) && sid != "" {
        ids := ids + [sid];
      }
      i := i + 1;
    }
    assert pricingNotes[..i] == pricingNotes;
  }

  /** The R-004 rule: a listed R-004 gains the first pricing source mentioning pricing, unless it already cites it. */
  function WithPricingSupport(t: Table, riskIds: seq<string>, pricingNotes: seq<ResearchNote>): Table {
    if PricingRisk in riskIds && pricingNotes != [] then
      var pids := FilterMap(pricingNotes, PricingSourceId);
      if pids != [] && pids[0] !in CitesOf(t, PricingRisk) then
        t.(cites := t.cites[PricingRisk := CitesOf(t, PricingRisk) + [pids[0]]])
      else t
    else t
  }

  /** The rule touches only R-004's citations, and changes nothing when R-004 is not listed. */
  lemma WithPricingSupportFrame(t: Table, riskIds: seq<string>, pricingNotes: seq<ResearchNote>)
    ensures WithPricingSupport(t, riskIds, pricingNotes).ids == t.ids
    ensures WithPricingSupport(t, riskIds, pricingNotes).risks == t.risks
    ensures forall rid :: rid != PricingRisk ==> CitesOf(WithPricingSupport(t, riskIds, pricingNotes), rid) == CitesOf(t, rid)
    ensures PricingRisk !in riskIds ==> WithPricingSupport(t, riskIds, pricingNotes) == t
  {
  }

  /** The rule keeps the table valid: the source it adds is non-empty and new. */
  lemma WithPricingSupportValid(t: Table, riskIds: seq<string>, pricingNotes: seq<ResearchNote>)
    requires TableValid(t) && forall rid :: rid in riskIds ==> rid in t.risks
    ensures TableValid(WithPricingSupport(t, riskIds, pricingNotes))
  {
    var pids := FilterMap(pricingNotes, PricingSourceId);
    if PricingRisk in riskIds && pricingNotes != [] && pids != [] && pids[0] !in CitesOf(t, PricingRisk) {
      FilterMapFirst(pricingNotes, PricingSourceId);
      var cs := CitesOf(t, PricingRisk);
      assert pids[0] != "";
      AddCiteOk(cs, pids[0]);
      var u := WithPricingSupport(t, riskIds, pricingNotes);
      assert u.cites == t.cites[PricingRisk := AddCite(cs, pids[0])];
    }
  }

  /**
   * R-004 gains at most one source, that of the first pricing note mentioning a pricing word;
   * when R-004 is listed and such a note exists, its source is among R-004's citations afterwards.
   */
  lemma WithPricingSupportEffect(t: Table, riskIds: seq<string>, pricingNotes: seq<ResearchNote>)
    ensures CitesOf(WithPricingSupport(t, riskIds, pricingNotes), PricingRisk) == CitesOf(t, PricingRisk) ||
            exists k :: 0 <= k < |pricingNotes| && PricingSourceId(pricingNotes[k]).Some? &&
                        (forall j :: 0 <= j < k ==> PricingSourceId(pricingNotes[j]).None?) &&
                        CitesOf(WithPricingSupport(t, riskIds, pricingNotes), PricingRisk) ==
                          CitesOf(t, PricingRisk) + [PricingSourceId(pricingNotes[k]).value]
    ensures PricingRisk in riskIds && FilterMap(pricingNotes, PricingSourceId) != [] ==>
            FilterMap(pricingNotes, PricingSourceId)[0] in CitesOf(WithPricingSupport(t, riskIds, pricingNotes), PricingRisk)
  {
    var pids := FilterMap(pricingNotes, PricingSourceId);
    if pids != [] {
      FilterMapFirst(pricingNotes, PricingSourceId);
    }
  }

  /** The fixed package returned when no note cites a risks document. */
  const NotFoundPackage: string :=
    "## Deliverable Package: Top 5 Risks\n\n" + "### Executive Summary\n" + "- Not found in sources.\n\n" +
    "### Top 5 Risks\n" + "- Not found in sources.\n\n" + "## Citations\n" + "- Not found in sources\n"

  const Top5Heading: string := "# Deliverable Package: Top 5 Risks\n"
  const SummaryHeading: string := "## Executive Summary"
  const SummaryText: string :=
    "This document outlines the top five risks identified in the project documents, including severity, impact, mitigation, and citations.\n"
  const RisksHeading: string := "## Top 5 Risks\n"
  const CitationsHeading: string := "## Citations"

  /** The opening lines of every risks package. */
  const IntroLines: seq<string> := [Top5Heading, SummaryHeading, SummaryText, RisksHeading]

  function KeepNonEmpty(c: string): Option<string> {
    if c != "" then Some(c) else None
  }

  /** `extracted[rid]`. */
  function RiskOf(t: Table, rid: string): Risk {
    if rid in t.risks then t.risks[rid] else Risk("", "", "", "")
  }

  /** A listed risk's citations: its non-empty ones, or the first risks note's source when it has none. */
  function RiskCitations(t: Table, rid: string, fallback: string): seq<string> {
    var cs := FilterMap(CitesOf(t, rid), KeepNonEmpty);
    if cs == [] then [fallback] else cs
  }

  /** The five lines of the `i`-th listed risk. */
  function RiskLines(i: nat, rid: string, r: Risk, cits: seq<string>): (ls: seq<string>)
    ensures |ls| == 5
  {
    ["### " + NatToString(i) + ". " + rid + ": " + OrNotFound(r.title),
     "- **Severity:** " + OrNotFound(r.severity),
     "- **Impact:** " + OrNotFound(r.impact),
     "- **Mitigation:** " + OrNotFound(r.mitigation),
     "- **Citation:** (" + Join("; ", cits) + ")\n"]
  }

  /** The blocks of the listed risks, numbered from 1. */
  function Blocks(t: Table, ids: seq<string>, fallback: string): (ls: seq<string>)
    ensures |ls| == 5 * |ids|
    decreases |ids|
  {
    if ids == [] then []
    else
      var rid := ids[|ids| - 1];
      Blocks(t, ids[..|ids| - 1], fallback) + RiskLines(|ids|, rid, RiskOf(t, rid), RiskCitations(t, rid, fallback))
  }

  /** `for c in cits: if c not in all_citations: all_citations.append(c)`. */
  function AddNew(acc: seq<string>, cs: seq<string>): seq<string>
    decreases |cs|
  {
    if cs == [] then acc
    else
      var a := AddNew(acc, cs[..|cs| - 1]);
      if cs[|cs| - 1] in a then a else a + [cs[|cs| - 1]]
  }

  /** `all_citations` after the listed risks. */
  function AllCitations(t: Table, ids: seq<string>, fallback: string): seq<string>
    decreases |ids|
  {
    if ids == [] then []
    else AddNew(AllCitations(t, ids[..|ids| - 1], fallback), RiskCitations(t, ids[|ids| - 1], fallback))
  }

  function CitationLines(cs: seq<string>): (ls: seq<string>)
    ensures |ls| == |cs|
  {
    seq(|cs|, k requires 0 <= k < |cs| => "- (" + cs[k] + ")")
  }

  /** The lines of a risks package, before they are joined. */
  function Top5Lines(t: Table, ids: seq<string>, fallback: string): seq<string> {
    IntroLines + Blocks(t, ids, fallback) + [CitationsHeading] + CitationLines(AllCitations(t, ids, fallback)) + [""]
  }

  /** `build_top5_strict_risks_markdown(notes)`. */
  function Top5Markdown(notes: seq<ResearchNote>): string {
    var risksNotes := RisksNotes(notes);
    if risksNotes == [] then NotFoundPackage
    else Join("\n", Top5Lines(FinalTable(notes), RiskIds(Collect(risksNotes)), RawSourceId(risksNotes[0])))
  }

  /** The inner loop adding a risk's citations to `all_citations`. */
  method AddNewCitations(acc: seq<string>, cs: seq<string>) returns (all: seq<string>)
    ensures all == AddNew(acc, cs)
  {
    all := acc;
    var i := 0;
    while i < |cs|
      invariant 0 <= i <= |cs|
      invariant all == AddNew(acc, cs[..i])
    {
      assert cs[..i + 1][..i] == cs[..i];
      if cs[i] !in all {
        all := all + [cs[i]];
      }
      i := i + 1;
    }
    assert cs[..i] == cs;
  }

  /** One listed risk: its citations with the fallback, and its five lines. */
  method RiskBlock(t: Table, rid: string, i: nat, fallback: string) returns (block: seq<string>, cits: seq<string>)
    ensures cits == RiskCitations(t, rid, fallback)
    ensures block == RiskLines(i, rid, RiskOf(t, rid), cits)
  {
    var r := RiskOf(t, rid);
    cits := FilterMap(CitesOf(t, rid), KeepNonEmpty);
    if cits == [] {
      cits := [fallback];
    }
    block := RiskLines(i, rid, r, cits);
  }

  lemma RenderStep(t: Table, ids: seq<string>, fallback: string, i: nat)
    requires i < |ids|
    ensures Blocks(t, ids[..i + 1], fallback) ==
            Blocks(t, ids[..i], fallback) + RiskLines(i + 1, ids[i], RiskOf(t, ids[i]), RiskCitations(t, ids[i], fallback))
    ensures AllCitations(t, ids[..i + 1], fallback) == AddNew(AllCitations(t, ids[..i], fallback), RiskCitations(t, ids[i], fallback))
  {
    assert ids[..i + 1][..i] == ids[..i];
  }

  /** The loop over the listed risks: their lines, and `all_citations`. */
  method RenderRisks(t: Table, ids: seq<string>, fallback: string) returns (lines: seq<string>, all: seq<string>)
    ensures lines == Blocks(t, ids, fallback)
    ensures all == AllCitations(t, ids, fallback)
  {
    lines, all := [], [];
    var i := 0;
    while i < |ids|
      invariant 0 <= i <= |ids|
      invariant lines == Blocks(t, ids[..i], fallback)
      invariant all == AllCitations(t, ids[..i], fallback)
    {
      var block, cits := RiskBlock(t, ids[i], i + 1, fallback);
      RenderStep(t, ids, fallback, i);
      all := AddNewCitations(all, cits);
      lines := lines + block;
      i := i + 1;
    }
    assert ids[..i] == ids;
  }

  /** `build_top5_strict_risks_markdown`. */
  method BuildTop5StrictRisksMarkdown(notes: seq<ResearchNote>) returns (md: string)
    ensures md == Top5Markdown(notes)
  {
    var risksNotes := RisksNotes(notes);
    var pricingNotes := PricingNotes(notes);
    if risksNotes == [] {
      return NotFoundPackage;
    }
    var t := CollectRisks(risksNotes);
    var ids := RiskIds(t);
    if PricingRisk in ids && pricingNotes != [] {
      var pids := PricingSourceIds(pricingNotes);
      if pids != [] && pids[0] !in CitesOf(t, PricingRisk) {
        t := t.(cites := t.cites[PricingRisk := CitesOf(t, PricingRisk) + [pids[0]]]);
      }
    }
    var blocks, all := RenderRisks(t, ids, RawSourceId(risksNotes[0]));
    md := Join("\n", IntroLines + blocks + [CitationsHeading] + CitationLines(all) + [""]);
  }

  /** Adding citations keeps the earlier ones in front, adds exactly the new ones, and never repeats one. */
  lemma {:induction false} AddNewFacts(acc: seq<string>, cs: seq<string>)
    ensures IsPrefix(acc, AddNew(acc, cs))
    ensures forall y :: y in AddNew(acc, cs) <==> y in acc || y in cs
    ensures Distinct(acc) ==> Distinct(AddNew(acc, cs))
    decreases |cs|
  {
    if cs != [] {
      var init := cs[..|cs| - 1];
      AddNewFacts(acc, init);
      assert forall y :: y in cs <==> y in init || y == cs[|cs| - 1];
      var a := AddNew(acc, init);
      assert (a + [cs[|cs| - 1]])[..|acc|] == a[..|acc|];
    }
  }

  /**
   * The Citations section: each id once, exactly the ids some listed risk cites, and in order of
   * first use: the ids the first `k` risks cite come first.
   */
  lemma AllCitationsFacts(t: Table, ids: seq<string>, fallback: string, k: nat)
    requires k <= |ids|
    ensures Distinct(AllCitations(t, ids, fallback))
    ensures forall c :: c in AllCitations(t, ids, fallback) <==> exists i :: 0 <= i < |ids| && c in RiskCitations(t, ids[i], fallback)
    ensures IsPrefix(AllCitations(t, ids[..k], fallback), AllCitations(t, ids, fallback))
  {
    AllCitationsDistinct(t, ids, fallback);
    AllCitationsMembers(t, ids, fallback);
    AllCitationsPrefix(t, ids, fallback, k);
  }

  /** `AllCitations` on a non-empty list adds the last risk's citations to those of the others. */
  lemma AllCitationsLast(t: Table, ids: seq<string>, fallback: string)
    requires ids != []
    ensures AllCitations(t, ids, fallback) ==
            AddNew(AllCitations(t, ids[..|ids| - 1], fallback), RiskCitations(t, ids[|ids| - 1], fallback))
  {
  }

  /** No id is listed twice. */
  lemma {:induction false} AllCitationsDistinct(t: Table, ids: seq<string>, fallback: string)
    ensures Distinct(AllCitations(t, ids, fallback))
    decreases |ids|
  {
    if ids != [] {
      var init := ids[..|ids| - 1];
      AllCitationsDistinct(t, init, fallback);
      AddNewFacts(AllCitations(t, init, fallback), RiskCitations(t, ids[|ids| - 1], fallback));
      AllCitationsLast(t, ids, fallback);
    }
  }

  /** The listed ids are exactly those some listed risk cites. */
  lemma AllCitationsMembers(t: Table, ids: seq<string>, fallback: string)
    ensures forall c :: c in AllCitations(t, ids, fallback) <==> exists i :: 0 <= i < |ids| && c in RiskCitations(t, ids[i], fallback)
  {
    var f := rid => RiskCitations(t, rid, fallback);
    AllCitationsIsFold(t, ids, fallback, f);
    FoldNewMembers(ids, f);
    assert forall i :: 0 <= i < |ids| ==> f(ids[i]) == RiskCitations(t, ids[i], fallback);
  }

  /** `all_citations` built from any per-risk citation lists `f`, one risk after another. */
  function FoldNew(ids: seq<string>, f: string -> seq<string>): seq<string>
    decreases |ids|
  {
    if ids == [] then [] else AddNew(FoldNew(ids[..|ids| - 1], f), f(ids[|ids| - 1]))
  }

  /** `AllCitations` is that fold over the risks' own citation lists. */
  lemma {:induction false} AllCitationsIsFold(t: Table, ids: seq<string>, fallback: string, f: string -> seq<string>)
    requires forall rid :: f(rid) == RiskCitations(t, rid, fallback)
    ensures AllCitations(t, ids, fallback) == FoldNew(ids, f)
    decreases |ids|
  {
    if ids != [] {
      AllCitationsIsFold(t, ids[..|ids| - 1], fallback, f);
    }
  }

  /** The fold lists exactly the ids some risk's list holds. */
  lemma {:induction false} FoldNewMembers(ids: seq<string>, f: string -> seq<string>)
    ensures forall c :: c in FoldNew(ids, f) <==> exists i :: 0 <= i < |ids| && c in f(ids[i])
    decreases |ids|
  {
    if ids != [] {
      var init := ids[..|ids| - 1];
      var before := FoldNew(init, f);
      FoldNewMembers(init, f);
      AddNewFacts(before, f(ids[|ids| - 1]));
      forall c ensures c in FoldNew(ids, f) <==> exists i :: 0 <= i < |ids| && c in f(ids[i]) {
        if c in before {
          var i :| 0 <= i < |init| && c in f(init[i]);
          assert ids[i] == init[i];
        }
        if exists i :: 0 <= i < |ids| && c in f(ids[i]) {
          var i :| 0 <= i < |ids| && c in f(ids[i]);
          if i < |init| {
            assert ids[i] == init[i];
          }
        }
      }
    }
  }

  /** The ids the first `k` risks cite come first. */
  lemma {:induction false} AllCitationsPrefix(t: Table, ids: seq<string>, fallback: string, k: nat)
    requires k <= |ids|
    ensures IsPrefix(AllCitations(t, ids[..k], fallback), AllCitations(t, ids, fallback))
    decreases |ids|
  {
    if k == |ids| {
      assert ids[..k] == ids;
    } else {
      var init := ids[..|ids| - 1];
      var before := AllCitations(t, init, fallback);
      var all := AllCitations(t, ids, fallback);
      AllCitationsPrefix(t, init, fallback, k);
      assert init[..k] == ids[..k];
      AddNewFacts(before, RiskCitations(t, ids[|ids| - 1], fallback));
      AllCitationsLast(t, ids, fallback);
      var p := AllCitations(t, ids[..k], fallback);
      assert all[..|before|][..|p|] == all[..|p|];
    }
  }

  /** Keeping the non-empty ids of a list without "" keeps the whole list. */
  lemma {:induction false} KeepNonEmptyAll(cs: seq<string>)
    requires "" !in cs
    ensures FilterMap(cs, KeepNonEmpty) == cs
    decreases |cs|
  {
    if cs != [] {
      KeepNonEmptyAll(cs[..|cs| - 1]);
      assert cs[..|cs| - 1] + [cs[|cs| - 1]] == cs;
    }
  }

  /**
   * Every listed risk has at least one citation: its own, in the order they were collected, or
   * else the fallback; with a clean list and a non-empty fallback none of them is "" or repeated.
   */
  lemma RiskCitationsFacts(t: Table, rid: string, fallback: string)
    requires CitesOk(CitesOf(t, rid))
    ensures RiskCitations(t, rid, fallback) != []
    ensures CitesOf(t, rid) != [] ==> RiskCitations(t, rid, fallback) == CitesOf(t, rid)
    ensures CitesOf(t, rid) == [] ==> RiskCitations(t, rid, fallback) == [fallback]
    ensures fallback != "" ==> CitesOk(RiskCitations(t, rid, fallback))
  {
    KeepNonEmptyAll(CitesOf(t, rid));
  }

  /** A note kept as a risks note has a non-empty source id, so the fallback citation is never "". */
  lemma RisksNotesCited(notes: seq<ResearchNote>)
    ensures forall n :: n in RisksNotes(notes) ==> IsRisksDoc(RawSourceId(n)) && RawSourceId(n) != ""
  {
    FilterMapExact(notes, RisksNote);
    forall n | n in RisksNotes(notes) ensures IsRisksDoc(RawSourceId(n)) && RawSourceId(n) != "" {
      var k :| 0 <= k < |RisksNotes(notes)| && RisksNotes(notes)[k] == n;
      var j :| 0 <= j < |notes| && RisksNote(notes[j]) == Some(n);
      assert IsAt(Lower(RawSourceId(n)), "risks.md", Find(Lower(RawSourceId(n)), "risks.md"));
    }
  }

  /** The five lines of the risk `rid` listed at position `j`. */
  function BlockOf(t: Table, fallback: string): (nat, string) -> seq<string> {
    (j: nat, rid: string) => RiskLines(j, rid, RiskOf(t, rid), RiskCitations(t, rid, fallback))
  }

  /** `Blocks` is the concatenation of the listed risks' blocks. */
  lemma {:induction false} BlocksIsFive(t: Table, ids: seq<string>, fallback: string)
    ensures Blocks(t, ids, fallback) == FiveBlocks(ids, BlockOf(t, fallback))
    decreases |ids|
  {
    if ids != [] {
      BlocksIsFive(t, ids[..|ids| - 1], fallback);
    }
  }

  /** The `i`-th block holds the `(i + 1)`-th listed risk's five lines. */
  lemma BlocksAt(t: Table, ids: seq<string>, fallback: string, i: nat)
    requires i < |ids|
    ensures Blocks(t, ids, fallback)[5 * i..5 * i + 5] ==
            RiskLines(i + 1, ids[i], RiskOf(t, ids[i]), RiskCitations(t, ids[i], fallback))
  {
    var f := BlockOf(t, fallback);
    BlocksIsFive(t, ids, fallback);
    FiveBlocksAt(ids, f, i);
    assert f(i + 1, ids[i]) == RiskLines(i + 1, ids[i], RiskOf(t, ids[i]), RiskCitations(t, ids[i], fallback));
  }

  /**
   * The package's frame: the four intro lines, five lines per listed risk, the Citations heading,
   * one line per cited id, and a final empty line.
   */
  lemma Top5LinesFrame(t: Table, ids: seq<string>, fallback: string)
    ensures |Top5Lines(t, ids, fallback)| == 4 + 5 * |ids| + 2 + |AllCitations(t, ids, fallback)|
    ensures Top5Lines(t, ids, fallback)[..4] == IntroLines
    ensures Top5Lines(t, ids, fallback)[4..4 + 5 * |ids|] == Blocks(t, ids, fallback)
    ensures Top5Lines(t, ids, fallback)[4 + 5 * |ids|] == CitationsHeading
    ensures Top5Lines(t, ids, fallback)[5 + 5 * |ids|..|Top5Lines(t, ids, fallback)| - 1] ==
            CitationLines(AllCitations(t, ids, fallback))
    ensures Top5Lines(t, ids, fallback)[|Top5Lines(t, ids, fallback)| - 1] == ""
  {
    var b := Blocks(t, ids, fallback);
    var cl := CitationLines(AllCitations(t, ids, fallback));
    var lines := Top5Lines(t, ids, fallback);
    assert lines == (IntroLines + b) + ([CitationsHeading] + cl + [""]);
  }

  /** After the intro, the `i`-th five lines are the `(i + 1)`-th listed risk's: heading "### i. R-###: title", fields, citation line. */
  lemma Top5LinesRisk(t: Table, ids: seq<string>, fallback: string, i: nat)
    requires i < |ids|
    ensures Top5Lines(t, ids, fallback)[4 + 5 * i..9 + 5 * i] ==
            RiskLines(i + 1, ids[i], RiskOf(t, ids[i]), RiskCitations(t, ids[i], fallback))
  {
    Top5LinesFrame(t, ids, fallback);
    BlocksAt(t, ids, fallback, i);
    SliceOfSlice(Top5Lines(t, ids, fallback), 4, 4 + 5 * |ids|, 5 * i, 5 * i + 5);
  }

  /** The Citations section lists each cited id on its own "- (id)" line, in `all_citations` order. */
  lemma Top5LinesCitation(t: Table, ids: seq<string>, fallback: string, k: nat)
    requires k < |AllCitations(t, ids, fallback)|
    ensures Top5Lines(t, ids, fallback)[5 + 5 * |ids| + k] == "- (" + AllCitations(t, ids, fallback)[k] + ")"
  {
    Top5LinesFrame(t, ids, fallback);
    var lines := Top5Lines(t, ids, fallback);
    assert lines[5 + 5 * |ids| + k] == lines[5 + 5 * |ids|..|lines| - 1][k];
  }

  /** A joined package that opens with the top-5 heading is not the not-found package. */
  lemma HeadingNotNotFound(lines: seq<string>)
    requires lines != [] && lines[0] == Top5Heading
    ensures Join("\n", lines) != NotFoundPackage
  {
    JoinStartsWith("\n", lines);
    assert Join("\n", lines)[1] == Top5Heading[1] == ' ';
    assert NotFoundPackage[1] == '#';
  }

  /** The fixed not-found package comes out exactly when no note cites a risks document. */
  lemma Top5NotFound(notes: seq<ResearchNote>)
    ensures Top5Markdown(notes) == NotFoundPackage <==> RisksNotes(notes) == []
  {
    var risksNotes := RisksNotes(notes);
    if risksNotes != [] {
      var lines := Top5Lines(FinalTable(notes), RiskIds(Collect(risksNotes)), RawSourceId(risksNotes[0]));
      assert lines[0] == Top5Heading;
      HeadingNotNotFound(lines);
    }
  }

  /** The table the package is rendered from: the collected risks with the R-004 rule applied. */
  function FinalTable(notes: seq<ResearchNote>): Table {
    var t := Collect(RisksNotes(notes));
    WithPricingSupport(t, RiskIds(t), PricingNotes(notes))
  }

  /**
   * Every risk in the package is cited: its citation line lists at least one source id, none of
   * them empty or repeated.
   */
  lemma ListedRisksCited(notes: seq<ResearchNote>, rid: string)
    ensures RisksNotes(notes) != [] && rid in RiskIds(Collect(RisksNotes(notes))) ==>
            var cits := RiskCitations(FinalTable(notes), rid, RawSourceId(RisksNotes(notes)[0]));
            cits != [] && CitesOk(cits)
  {
    var rn := RisksNotes(notes);
    if rn != [] && rid in RiskIds(Collect(rn)) {
      var t := Collect(rn);
      CollectValid(rn);
      RiskIdsFacts(t);
      WithPricingSupportValid(t, RiskIds(t), PricingNotes(notes));
      var u := FinalTable(notes);
      assert CitesOk(CitesOf(u, rid));
      RisksNotesCited(notes);
      assert rn[0] in rn;
      RiskCitationsFacts(u, rid, RawSourceId(rn[0]));
    }
  }
}
