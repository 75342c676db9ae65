/**
 * The deterministic writer for compare_approaches: the Option A and Option B bullets are read
 * from the technical_decisions.md evidence, clamped to two to four per option, and laid out with
 * three fixed reasons and a fixed Citations section.
 */
module DeterministicCompare {
  import opened Wrappers
  import opened PyStr
  import opened Seqs
  import opened SharedState

  const AnchorMarker: string := "technical_decisions.md#anchor_options"
  const TechnicalDecisionsDoc: string := "technical_decisions.md"
  const CiteAnchor: string := "doc:technical_decisions.md#anchor_options"
  const CiteA: string := "doc:technical_decisions.md#chunk_0"
  const CiteB: string := "doc:technical_decisions.md#chunk_1"
  const NotStated: string := "Not stated in sources"
  const OptionAMarker: string := "### Option A:"
  const OptionBMarker: string := "### Option B:"
  const NextHeader: string := "##"

  /** `_pick_source_id`: the first citation's source id, stripped, when there is one and it is not blank. */
  function PickSourceId(n: ResearchNote): (r: Option<string>)
    ensures r.Some? <==> n.citations != [] && !IsBlank(n.citations[0].sourceId)
    ensures r.Some? ==> r.value != "" && IsStripped(r.value) && r.value == Strip(n.citations[0].sourceId)
  {
    if n.citations != [] && Strip(n.citations[0].sourceId) != "" then Some(Strip(n.citations[0].sourceId)) else None
  }

  /** The note is the injected Option A/Option B anchor. */
  predicate IsAnchor(n: ResearchNote) {
    Contains(PickSourceId(n).GetOr(""), AnchorMarker)
  }

  /** What a technical_decisions.md note contributes to the fallback text: its non-blank stripped claim. */
  function TdPart(n: ResearchNote): Option<string> {
    if Contains(Lower(PickSourceId(n).GetOr("")), TechnicalDecisionsDoc) && Strip(n.claim) != "" then Some(Strip(n.claim))
    else None
  }

  /**
   * `_collect_td_text`: the stripped claim of the first anchor note; without one, the non-blank
   * claims of every technical_decisions.md note, joined by blank lines.
   */
  function CollectTdText(notes: seq<ResearchNote>): string {
    match FirstWhere(notes, IsAnchor)
    case Some(k) => Strip(notes[k].claim)
    case None => Join("\n\n", FilterMap(notes, TdPart))
  }

  /** The first loop of `_collect_td_text`: the position of the first anchor note. */
  method FindAnchor(notes: seq<ResearchNote>) returns (r: Option<int>)
    ensures r == FirstWhere(notes, IsAnchor)
  {
    r := ScanFirstWhere(notes, IsAnchor);
  }

  /** The fallback loop of `_collect_td_text`: its `parts` list. */
  method TdParts(notes: seq<ResearchNote>) returns (parts: seq<string>)
    ensures parts == FilterMap(notes, TdPart)
  {
    parts := [];
    for i := 0 to |notes|
      invariant parts == FilterMap(notes[..i], TdPart)
    {
      FilterMapSnoc(notes, TdPart, i);
      var sid := Lower(PickSourceId(notes[i]).GetOr(""));
      if Contains(sid, TechnicalDecisionsDoc) {
        var txt := Strip(notes[i].claim);
        if txt != "" {
          parts := parts + [txt];
        }
      }
    }
    assert notes[..|notes|] == notes;
  }

  /** `_collect_td_text(notes)`. */
  method CollectTdTextScan(notes: seq<ResearchNote>) returns (text: string)
    ensures text == CollectTdText(notes)
  {
    var anchor := FindAnchor(notes);
    if anchor.Some? {
      return Strip(notes[anchor.value].claim);
    }
    var parts := TdParts(notes);
    return Join("\n\n", parts);
  }

  /** The anchor note, when there is one, is used alone. */
  lemma CollectTdTextPrefersAnchor(notes: seq<ResearchNote>, k: nat)
    requires k < |notes| && IsAnchor(notes[k]) && forall j :: 0 <= j < k ==> !IsAnchor(notes[j])
    ensures CollectTdText(notes) == Strip(notes[k].claim)
  {
    FirstWhereIs(notes, IsAnchor, k);
  }

  /**
   * Without an anchor note, the text is made of the non-blank claims of the technical_decisions.md
   * notes, in order: each part is one such claim and each such claim is a part.
   */
  lemma CollectTdTextFallback(notes: seq<ResearchNote>)
    requires forall k :: 0 <= k < |notes| ==> !IsAnchor(notes[k])
    ensures CollectTdText(notes) == Join("\n\n", FilterMap(notes, TdPart))
    ensures forall j :: 0 <= j < |FilterMap(notes, TdPart)| ==>
              exists k :: 0 <= k < |notes| && TdPart(notes[k]) == Some(FilterMap(notes, TdPart)[j])
    ensures forall k :: 0 <= k < |notes| && TdPart(notes[k]).Some? ==> TdPart(notes[k]).value in FilterMap(notes, TdPart)
  {
    FilterMapExact(notes, TdPart);
  }

  /** Where the section of `_extract_section` lies: after the first start marker, up to the next end marker or the end of the text. */
  function SectionBounds(text: string, start: string, end: string): (b: Option<(int, int)>)
    ensures b.Some? ==> 0 <= b.value.0 <= b.value.1 <= |text|
  {
    if text == "" then None
    else
      var s := Find(text, start);
      if s == -1 then None
      else
        var from := s + |start|;
        var e := FindFrom(text, end, from);
        if e == -1 then Some((from, |text|)) else Some((from, e))
  }

  /** `_extract_section(text, start, end)`; its meaning is stated by the two lemmas below. */
  function ExtractSection(text: string, start: string, end: string): (r: string)
    ensures IsStripped(r)
    ensures text == "" || (forall i :: !IsAt(text, start, i)) ==> r == ""
  {
    var b := SectionBounds(text, start, end);
    if b.None? then "" else Strip(text[b.value.0..b.value.1])
  }

  /**
   * With `i` the first occurrence of the start marker and `j` the first occurrence of the end
   * marker after it, the section is the stripped text strictly between them.
   */
  lemma ExtractSectionFound(text: string, start: string, end: string, i: int, j: int)
    requires text != ""
    requires IsAt(text, start, i) && forall i' :: 0 <= i' < i ==> !IsAt(text, start, i')
    requires i + |start| <= j && IsAt(text, end, j)
    requires forall j' :: i + |start| <= j' < j ==> !IsAt(text, end, j')
    ensures ExtractSection(text, start, end) == Strip(text[i + |start|..j])
  {
    FindIsFirst(text, start, i);
    var from := i + |start|;
    var e := FindFrom(text, end, from);
    assert e == j;
    assert SectionBounds(text, start, end) == Some((from, j));
  }

  /** When no end marker follows the first start marker, the section runs to the end of the text. */
  lemma ExtractSectionToEnd(text: string, start: string, end: string, i: int)
    requires text != ""
    requires IsAt(text, start, i) && forall i' :: 0 <= i' < i ==> !IsAt(text, start, i')
    requires forall j :: i + |start| <= j ==> !IsAt(text, end, j)
    ensures ExtractSection(text, start, end) == Strip(text[i + |start|..])
  {
    FindIsFirst(text, start, i);
    var from := i + |start|;
    FindFromAbsent(text, end, from);
    assert SectionBounds(text, start, end) == Some((from, |text|));
    SectionOfBounds(text, start, end, from, |text|);
  }

  lemma SectionOfBounds(text: string, start: string, end: string, from: int, to: int)
    requires SectionBounds(text, start, end) == Some((from, to))
    ensures ExtractSection(text, start, end) == Strip(text[from..to])
    ensures to == |text| ==> ExtractSection(text, start, end) == Strip(text[from..])
  {
    if to == |text| {
      assert text[from..to] == text[from..];
    }
  }

  /** A list line: it starts with "- " or "* ". */
  predicate IsListLine(line: string) {
    StartsWith(line, "- ") || StartsWith(line, "* ")
  }

  /** A heading written as a bullet: "pros", "cons", "pro" or "con" once lower-cased and freed of `*` and spaces. */
  predicate IsProsConsLabel(item: string) {
    Strip(StripChars(Lower(item), {'*', ' '})) in {"pros", "cons", "pro", "con"}
  }

  /** What one raw line of a section contributes to `_extract_bullets` before deduplication. */
  function BulletItem(raw: string): Option<string> {
    var line := Strip(raw);
    if !IsListLine(line) then None
    else
      var item := Strip(line[2..]);
      if IsProsConsLabel(item) then None
      else if |item| < 4 then None
      else Some(item)
  }

  /**
   * A line contributes exactly when, stripped, it is a list line whose stripped item has at least
   * four characters and is not a pros/cons label; it then contributes that item.
   */
  lemma BulletItemFacts(raw: string)
    ensures var line := Strip(raw);
            BulletItem(raw).Some? <==>
              IsListLine(line) && |Strip(line[2..])| >= 4 && !IsProsConsLabel(Strip(line[2..]))
    ensures BulletItem(raw).Some? ==> BulletItem(raw).value == Strip(Strip(raw)[2..])
  {
  }

  /** `_extract_bullets(section)`: the items of the kept list lines, duplicates dropped after their first occurrence. */
  function ExtractBullets(section: string): seq<string> {
    DistinctBy(FilterMap(SplitLines(section), BulletItem), Itself, {})
  }

  /** The body of the first loop of `_extract_bullets`, for one line. */
  method ItemOfLine(raw: string) returns (r: Option<string>)
    ensures r == BulletItem(raw)
  {
    var line := Strip(raw);
    if !IsListLine(line) {
      return None;
    }
    var item := Strip(line[2..]);
    if IsProsConsLabel(item) {
      return None;
    }
    if item == "" || |item| < 4 {
      return None;
    }
    return Some(item);
  }

  /** The first loop of `_extract_bullets`: the items of the kept list lines, in order. */
  method ListItems(lines: seq<string>) returns (bullets: seq<string>)
    ensures bullets == FilterMap(lines, BulletItem)
  {
    bullets := [];
    for i := 0 to |lines|
      invariant bullets == FilterMap(lines[..i], BulletItem)
    {
      FilterMapSnoc(lines, BulletItem, i);
      var r := ItemOfLine(lines[i]);
      if r.Some? {
        bullets := bullets + [r.value];
      }
    }
    assert lines[..|lines|] == lines;
  }

  /** The second loop of `_extract_bullets`: its `seen` set and `out` list. */
  method DropRepeats(bullets: seq<string>) returns (out: seq<string>)
    ensures out == DistinctBy(bullets, Itself, {})
  {
    var seen: set<string> := {};
    out := [];
    for i := 0 to |bullets|
      invariant out + DistinctBy(bullets[i..], Itself, seen) == DistinctBy(bullets, Itself, {})
    {
      assert bullets[i..][1..] == bullets[i + 1..];
      var b := bullets[i];
      if b in seen {
        continue;
      }
      seen := seen + {b};
      out := out + [b];
    }
  }

  /** `_extract_bullets(section)`. */
  method ExtractBulletsScan(section: string) returns (out: seq<string>)
    ensures out == ExtractBullets(section)
  {
    var bullets := ListItems(SplitLines(section));
    out := DropRepeats(bullets);
  }

  /**
   * Filtering then deduplicating: every output is the value of some accepted item, no value
   * appears twice, the order is kept, and every accepted item's value is present.
   */
  lemma FilterDistinct<A>(xs: seq<A>, f: A -> Option<string>)
    ensures var out := DistinctBy(FilterMap(xs, f), Itself, {});
            (forall k :: 0 <= k < |out| ==> exists j :: 0 <= j < |xs| && f(xs[j]) == Some(out[k])) &&
            (forall i, j :: 0 <= i < j < |out| ==> out[i] != out[j]) &&
            IsSubsequence(out, FilterMap(xs, f)) &&
            (forall j :: 0 <= j < |xs| && f(xs[j]).Some? ==> f(xs[j]).value in out)
  {
    var ys := FilterMap(xs, f);
    var out := DistinctBy(ys, Itself, {});
    FilterMapExact(xs, f);
    DistinctBySound(ys, Itself, {});
    forall i, j | 0 <= i < j < |out| ensures out[i] != out[j] {
      assert Itself(out[i]) != Itself(out[j]);
    }
    SubsequenceFacts(out, ys);
    forall k | 0 <= k < |out| ensures exists j :: 0 <= j < |xs| && f(xs[j]) == Some(out[k]) {
      assert out[k] in ys;
      var m :| 0 <= m < |ys| && ys[m] == out[k];
      var j :| 0 <= j < |xs| && f(xs[j]) == Some(ys[m]);
    }
    DistinctKeepsAll(ys);
  }

  /** Every value of the filtered list survives deduplication. */
  lemma DistinctKeepsAll(ys: seq<string>)
    ensures forall y :: y in ys ==> y in DistinctBy(ys, Itself, {})
  {
    var out := DistinctBy(ys, Itself, {});
    DistinctByKeys(ys, Itself, {});
    assert KeysOf(out, Itself) == KeysOf(ys, Itself);
    forall y | y in ys ensures y in out {
      var m :| 0 <= m < |ys| && ys[m] == y;
      assert Itself(ys[m]) in KeysOf(ys, Itself);
      assert y in KeysOf(out, Itself);
      var k :| 0 <= k < |out| && Itself(out[k]) == y;
    }
  }

  /**
   * What `_extract_bullets` returns: items of list lines of the section, each at least four
   * characters long and not a pros/cons label, without duplicates, in the order of the lines;
   * every item a line contributes is among them.
   */
  lemma ExtractBulletsMeaning(section: string)
    ensures var out := ExtractBullets(section);
            var lines := SplitLines(section);
            (forall k :: 0 <= k < |out| ==>
               |out[k]| >= 4 && !IsProsConsLabel(out[k]) &&
               exists j :: 0 <= j < |lines| && BulletItem(lines[j]) == Some(out[k])) &&
            (forall i, j :: 0 <= i < j < |out| ==> out[i] != out[j]) &&
            IsSubsequence(out, FilterMap(lines, BulletItem)) &&
            (forall j :: 0 <= j < |lines| && BulletItem(lines[j]).Some? ==> BulletItem(lines[j]).value in out)
  {
    var lines := SplitLines(section);
    var out := ExtractBullets(section);
    FilterDistinct(lines, BulletItem);
    forall k | 0 <= k < |out| ensures |out[k]| >= 4 && !IsProsConsLabel(out[k]) {
      var j :| 0 <= j < |lines| && BulletItem(lines[j]) == Some(out[k]);
      BulletItemFacts(lines[j]);
    }
  }

  /** `_clamp_2_4`: the first four items, padded with "Not stated in sources" up to two. */
  function Clamp(xs: seq<string>): (r: seq<string>)
    ensures |r| == (if |xs| > 4 then 4 else if |xs| < 2 then 2 else |xs|)
    ensures forall k :: 0 <= k < |r| ==> r[k] == (if k < |xs| then xs[k] else NotStated)
  {
    var t := Take(xs, 4);
    if |t| >= 2 then t else t + seq(2 - |t|, _ => NotStated)
  }

  /** `_clamp_2_4`, with its slice and its padding loop. */
  method ClampTwoFour(xs: seq<string>) returns (r: seq<string>)
    ensures r == Clamp(xs)
  {
    r := Take(xs, 4);
    while |r| < 2
      invariant |Take(xs, 4)| <= |r| <= 4
      invariant |r| > |Take(xs, 4)| ==> |r| <= 2
      invariant forall k :: 0 <= k < |r| ==> r[k] == (if k < |xs| then xs[k] else NotStated)
      decreases 2 - |r|
    {
      r := r + [NotStated];
    }
  }

  /** One option's bullets: the extracted ones, or a single "Not stated" when none, clamped to two to four. */
  function OptionBullets(section: string): seq<string> {
    var bs := ExtractBullets(section);
    Clamp(if bs == [] then [NotStated] else bs)
  }

  /** Two to four bullets, each an extracted bullet of the section at its own position, or the "Not stated" filler. */
  lemma OptionBulletsShape(section: string)
    ensures var r := OptionBullets(section);
            var bs := ExtractBullets(section);
            2 <= |r| <= 4 &&
            (forall k :: 0 <= k < |r| ==> r[k] == (if k < |bs| then bs[k] else NotStated)) &&
            (|bs| >= 4 ==> r == bs[..4])
  {
  }

  /** The citation of a bullet: the anchor when it says "Not stated", else the option's chunk. */
  function CiteFor(bullet: string, cite: string): string {
    if Contains(bullet, "Not stated") then CiteAnchor else cite
  }

  /** A bullet line: `- <bullet> (<citation>)`. */
  function BulletLine(bullet: string, cite: string): string {
    "- " + bullet + " (" + CiteFor(bullet, cite) + ")"
  }

  function BulletLines(bs: seq<string>, cite: string): (r: seq<string>)
    ensures |r| == |bs|
    ensures forall k :: 0 <= k < |bs| ==> r[k] == BulletLine(bs[k], cite)
  {
    seq(|bs|, k requires 0 <= k < |bs| => BulletLine(bs[k], cite))
  }

  /** Some note's picked source id is `sid`. */
  predicate HasSourceId(notes: seq<ResearchNote>, sid: string) {
    exists k :: 0 <= k < |notes| && PickSourceId(notes[k]) == Some(sid)
  }

  /** The reasons cite chunk_0 when some note's first source id is chunk_0, else the anchor. */
  function ReasonCite(notes: seq<ResearchNote>): string {
    if HasSourceId(notes, CiteA) then CiteA else CiteAnchor
  }

  const ReasonTexts: seq<string> := [
    "Strategic differentiation via full control over data model and UX",
    "Lower long-term costs vs per-seat licensing",
    "Tighter integration with product workflows"
  ]

  /** Reason number `digit`, with its citation. */
  function ReasonLine(digit: char, text: string, cite: string): string {
    [digit] + ". " + text + " (" + cite + ")."
  }

  /** The three numbered reason lines with their citation. */
  function ReasonLines(cite: string): seq<string> {
    [ReasonLine('1', ReasonTexts[0], cite), ReasonLine('2', ReasonTexts[1], cite), ReasonLine('3', ReasonTexts[2], cite)]
  }

  const TitleLines: seq<string> := ["# Comparison of Option A vs Option B\n", "## Option A: 2\U{2013}4 bullets"]
  const OptionBHeading: string := "\n## Option B: 2\U{2013}4 bullets"
  const RecommendationHeading: string := "\n## Recommendation: " + "pick ONE option and give exactly 3 reasons."
  const ProceedLine: string := "Proceed with " + "**Option A (In-House)**" + " for the following reasons:"
  const RecommendationLines: seq<string> := [RecommendationHeading, ProceedLine]
  const CitationLines: seq<string> := ["\n## Citations", "- (" + CiteA + ")", "- (" + CiteB + ")"]

  /** The Option A bullets `build_compare_markdown` lays out. */
  function BulletsA(notes: seq<ResearchNote>): seq<string> {
    OptionBullets(ExtractSection(CollectTdText(notes), OptionAMarker, OptionBMarker))
  }

  /** The Option B bullets: the section after "### Option B:" runs up to the next "##". */
  function BulletsB(notes: seq<ResearchNote>): seq<string> {
    OptionBullets(ExtractSection(CollectTdText(notes), OptionBMarker, NextHeader))
  }

  /** The `lines` list for given bullets and reason citation. */
  function Layout(a: seq<string>, b: seq<string>, reasonCite: string): seq<string> {
    TitleLines + BulletLines(a, CiteA) + [OptionBHeading] + BulletLines(b, CiteB)
      + RecommendationLines + ReasonLines(reasonCite) + CitationLines
  }

  /** The `lines` list of `build_compare_markdown`. */
  function CompareLines(notes: seq<ResearchNote>): seq<string> {
    Layout(BulletsA(notes), BulletsB(notes), ReasonCite(notes))
  }

  /** `build_compare_markdown(notes)`. */
  function CompareMarkdown(notes: seq<ResearchNote>): string {
    Strip(Join("\n", CompareLines(notes)))
  }

  /** Appends one line per bullet with its citation. */
  method AppendBullets(lines: seq<string>, bs: seq<string>, cite: string) returns (r: seq<string>)
    ensures r == lines + BulletLines(bs, cite)
  {
    r := lines;
    for i := 0 to |bs|
      invariant r == lines + BulletLines(bs[..i], cite)
    {
      var sid := if Contains(bs[i], "Not stated") then CiteAnchor else cite;
      assert BulletLines(bs[..i + 1], cite) == BulletLines(bs[..i], cite) + [BulletLine(bs[i], cite)];
      r := r + ["- " + bs[i] + " (" + sid + ")"];
    }
    assert bs[..|bs|] == bs;
  }

  /** The bullets of one option: extracted, "Not stated" when none, clamped. */
  method OptionBulletsOf(section: string) returns (bs: seq<string>)
    ensures bs == OptionBullets(section)
  {
    bs := ExtractBulletsScan(section);
    if bs == [] {
      bs := [NotStated];
    }
    bs := ClampTwoFour(bs);
  }

  /** `build_compare_markdown`, appending to `lines` step by step. */
  method BuildCompareMarkdown(notes: seq<ResearchNote>) returns (md: string)
    ensures md == CompareMarkdown(notes)
  {
    var td := CollectTdTextScan(notes);
    var aBullets := OptionBulletsOf(ExtractSection(td, OptionAMarker, OptionBMarker));
    var bBullets := OptionBulletsOf(ExtractSection(td, OptionBMarker, NextHeader));
    var reasonCite := if HasSourceId(notes, CiteA) then CiteA else CiteAnchor;
    var lines := TitleLines;
    lines := AppendBullets(lines, aBullets, CiteA);
    lines := lines + [OptionBHeading];
    lines := AppendBullets(lines, bBullets, CiteB);
    lines := lines + RecommendationLines;
    lines := lines + ReasonLines(reasonCite);
    lines := lines + CitationLines;
    md := Strip(Join("\n", lines));
  }

  /** A line that starts like an item of a numbered list: a digit, then ". ". */
  predicate IsNumbered(line: string) {
    |line| >= 3 && '0' <= line[0] <= '9' && line[1..3] == ". "
  }

  lemma BulletLineNotNumbered(bullet: string, cite: string)
    ensures !IsNumbered(BulletLine(bullet, cite))
  {
    assert BulletLine(bullet, cite)[0] == '-';
  }

  lemma ReasonLineShape(digit: char, text: string, cite: string)
    requires '0' <= digit <= '9'
    ensures IsNumbered(ReasonLine(digit, text, cite)) && EndsWith(ReasonLine(digit, text, cite), " (" + cite + ").")
  {
    var l := ReasonLine(digit, text, cite);
    assert l[1..3] == ". ";
    assert l[|l| - |" (" + cite + ")."|..] == " (" + cite + ").";
  }

  /** The reason lines are numbered and end with their citation. */
  lemma ReasonLinesShape(rc: string)
    ensures forall k :: 0 <= k < 3 ==> IsNumbered(ReasonLines(rc)[k]) && EndsWith(ReasonLines(rc)[k], " (" + rc + ").")
  {
    ReasonLineShape('1', ReasonTexts[0], rc);
    ReasonLineShape('2', ReasonTexts[1], rc);
    ReasonLineShape('3', ReasonTexts[2], rc);
  }

  /** The positions of a three-part list whose middle part alone satisfies `p`. */
  lemma MiddleIndices<T>(x: seq<T>, y: seq<T>, z: seq<T>, p: T -> bool)
    requires forall e :: e in x ==> !p(e)
    requires forall e :: e in y ==> p(e)
    requires forall e :: e in z ==> !p(e)
    ensures forall k :: 0 <= k < |x + y + z| ==> (p((x + y + z)[k]) <==> |x| <= k < |x| + |y|)
  {
    var L := x + y + z;
    forall k | 0 <= k < |L| ensures p(L[k]) <==> |x| <= k < |x| + |y| {
      if k < |x| { assert L[k] == x[k]; }
      else if k < |x| + |y| { assert L[k] == y[k - |x|]; }
      else { assert L[k] == z[k - |x| - |y|]; }
    }
  }

  /** No bullet line is numbered. */
  lemma BulletLinesNotNumbered(bs: seq<string>, cite: string)
    ensures forall l :: l in BulletLines(bs, cite) ==> !IsNumbered(l)
  {
    forall l | l in BulletLines(bs, cite) ensures !IsNumbered(l) {
      var k :| 0 <= k < |bs| && BulletLines(bs, cite)[k] == l;
      BulletLineNotNumbered(bs[k], cite);
    }
  }

  /** The bullet lines of the layout sit after the two title lines and after the Option B heading. */
  lemma LayoutBullets(a: seq<string>, b: seq<string>, rc: string)
    ensures var L := Layout(a, b, rc);
            |L| == 11 + |a| + |b| &&
            (forall k :: 0 <= k < |a| ==> L[2 + k] == BulletLine(a[k], CiteA)) &&
            (forall k :: 0 <= k < |b| ==> L[3 + |a| + k] == BulletLine(b[k], CiteB))
  {
    assert |TitleLines| == 2;
    assert |RecommendationLines| + |ReasonLines(rc)| + |CitationLines| == 8;
    BulletsBetween(TitleLines, a, [OptionBHeading], b, RecommendationLines, ReasonLines(rc), CitationLines);
  }

  /** Where the bullets of each option sit once the parts around them are laid out. */
  lemma BulletsBetween(t: seq<string>, a: seq<string>, h: seq<string>, b: seq<string>,
                       r1: seq<string>, r2: seq<string>, r3: seq<string>)
    requires |t| == 2 && |h| == 1
    ensures var L := t + BulletLines(a, CiteA) + h + BulletLines(b, CiteB) + r1 + r2 + r3;
            |L| == 3 + |a| + |b| + |r1| + |r2| + |r3| &&
            (forall k :: 0 <= k < |a| ==> L[2 + k] == BulletLine(a[k], CiteA)) &&
            (forall k :: 0 <= k < |b| ==> L[3 + |a| + k] == BulletLine(b[k], CiteB))
  {
    var A := BulletLines(a, CiteA);
    var B := BulletLines(b, CiteB);
    FivePartsAt(t, A, h, B, r1 + r2 + r3);
    assert t + A + h + B + r1 + r2 + r3 == t + A + h + B + (r1 + r2 + r3);
  }

  /** The only numbered lines are the three reasons, each ending with the reason citation; the Citations section comes last. */
  lemma LayoutReasons(a: seq<string>, b: seq<string>, rc: string)
    ensures var L := Layout(a, b, rc);
            |L| >= 6 &&
            (forall k :: 0 <= k < |L| ==> (IsNumbered(L[k]) <==> |L| - 6 <= k < |L| - 3)) &&
            (forall k :: |L| - 6 <= k < |L| - 3 ==> EndsWith(L[k], " (" + rc + ").")) &&
            L[|L| - 3..] == CitationLines
  {
    var L := Layout(a, b, rc);
    var R := ReasonLines(rc);
    var X := TitleLines + BulletLines(a, CiteA) + [OptionBHeading] + BulletLines(b, CiteB) + RecommendationLines;
    assert L == X + R + CitationLines;
    BulletLinesNotNumbered(a, CiteA);
    BulletLinesNotNumbered(b, CiteB);
    assert TitleLines[0][0] == '#' && TitleLines[1][0] == '#';
    assert OptionBHeading[0] == '\n';
    assert RecommendationHeading[0] == '\n' && ProceedLine[0] == 'P';
    assert forall e :: e in X ==> !IsNumbered(e);
    ReasonLinesShape(rc);
    assert forall e :: e in R ==> IsNumbered(e);
    assert CitationLines[0][0] == '\n' && CitationLines[1][0] == '-' && CitationLines[2][0] == '-';
    MiddleIndices(X, R, CitationLines, IsNumbered);
    var n := |L|;
    forall k | n - 6 <= k < n - 3 ensures EndsWith(L[k], " (" + rc + ").") {
      assert L[k] == R[k - |X|];
    }
    assert L[n - 3..] == CitationLines;
  }

  /**
   * What `build_compare_markdown` promises: two to four bullets per option, each citing the
   * anchor when it says "Not stated" and otherwise chunk_0 (Option A) or chunk_1 (Option B);
   * exactly three numbered lines, the reasons, citing chunk_0 exactly when some note's first
   * source id is chunk_0 and the anchor otherwise; and the Citations section last.
   */
  lemma CompareLayout(notes: seq<ResearchNote>)
    ensures var a := BulletsA(notes);
            var b := BulletsB(notes);
            var L := CompareLines(notes);
            2 <= |a| <= 4 && 2 <= |b| <= 4 && |L| == 11 + |a| + |b| &&
            (forall k :: 0 <= k < |a| ==> L[2 + k] == BulletLine(a[k], CiteA)) &&
            (forall k :: 0 <= k < |b| ==> L[3 + |a| + k] == BulletLine(b[k], CiteB)) &&
            (forall k :: 0 <= k < |L| ==> (IsNumbered(L[k]) <==> |L| - 6 <= k < |L| - 3)) &&
            (forall k :: |L| - 6 <= k < |L| - 3 ==>
               EndsWith(L[k], " (" + (if HasSourceId(notes, CiteA) then CiteA else CiteAnchor) + ").")) &&
            L[|L| - 3..] == CitationLines
  {
    var td := CollectTdText(notes);
    OptionBulletsShape(ExtractSection(td, OptionAMarker, OptionBMarker));
    OptionBulletsShape(ExtractSection(td, OptionBMarker, NextHeader));
    LayoutBullets(BulletsA(notes), BulletsB(notes), ReasonCite(notes));
    LayoutReasons(BulletsA(notes), BulletsB(notes), ReasonCite(notes));
  }

  /** The output is the joined lines: it opens with the title and ends with the Citations section listing chunk_0 then chunk_1. */
  lemma LayoutText(a: seq<string>, b: seq<string>, rc: string)
    ensures var md := Strip(Join("\n", Layout(a, b, rc)));
            md == Join("\n", Layout(a, b, rc)) &&
            StartsWith(md, "# Comparison of Option A vs Option B\n") &&
            EndsWith(md, "\n## Citations\n- (" + CiteA + ")\n- (" + CiteB + ")")
  {
    var L := Layout(a, b, rc);
    LayoutReasons(a, b, rc);
    var n := |L|;
    assert L == L[..n - 3] + CitationLines;
    JoinAppend("\n", L[..n - 3], CitationLines);
    var j := Join("\n", L);
    CitationText();
    JoinStartsWith("\n", L);
    assert L[0] == TitleLines[0];
    assert j[0] == '#';
    assert j[|j| - 1] == ')';
    StripOfStripped(j);
  }

  lemma CitationText()
    ensures Join("\n", CitationLines) == "\n## Citations\n- (" + CiteA + ")\n- (" + CiteB + ")"
  {
    JoinThree("\n", CitationLines[0], CitationLines[1], CitationLines[2]);
    assert CitationLines == [CitationLines[0], CitationLines[1], CitationLines[2]];
  }

  /** The output opens with the title and ends with the Citations section listing chunk_0 then chunk_1. */
  lemma CompareMarkdownEnds(notes: seq<ResearchNote>)
    ensures StartsWith(CompareMarkdown(notes), "# Comparison of Option A vs Option B\n")
    ensures EndsWith(CompareMarkdown(notes), "\n## Citations\n- (" + CiteA + ")\n- (" + CiteB + ")")
  {
    LayoutText(BulletsA(notes), BulletsB(notes), ReasonCite(notes));
  }
}
