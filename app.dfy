/**
 * The helpers of the web front end that decide something: the citation list read back from a
 * draft, the case-insensitive scoring of an evaluation case, and the run-history entry with its
 * status and prompt preview.
 */
module App {
  import opened Wrappers
  import opened PyStr
  import opened Seqs
  import ResearchUtils

  /** One evaluation case of the front end (its own `EvalCase`, distinct from the runner's). */
  datatype EvalCase = EvalCase(caseId: string, taskKey: string, prompt: string,
                               mustInclude: seq<string>, mustNotInclude: seq<string>)

  // ---------------------------------------------------------------------------------------------
  // `_extract_citations_from_text`
  // ---------------------------------------------------------------------------------------------

  /** A line that opens the citations section: "## citations" or "### citations", in any case. */
  predicate IsCitationsHeading(line: string) {
    StartsWith(Lower(line), "## citations") || StartsWith(Lower(line), "### citations")
  }

  /** A line that ends the citations section: any other second-level heading. */
  predicate EndsSection(line: string) {
    !IsCitationsHeading(line) && StartsWith(line, "## ")
  }

  /** The citation a bullet line gives: leading dashes dropped, then surrounding whitespace. */
  function BulletText(line: string): (c: string)
    ensures IsStripped(c) && |c| <= |line|
  {
    Strip(LStripChars(line, {'-'}))
  }

  /** How the collecting pass treats a stripped line. */
  datatype LineKind = CitationsHeading | OtherHeading | Bullet(text: string) | Plain

  /** The kind of a line, tested in the order the pass tests it. */
  function KindOf(line: string): LineKind {
    if IsCitationsHeading(line) then CitationsHeading
    else if StartsWith(line, "## ") then OtherHeading
    else if StartsWith(line, "-") then Bullet(BulletText(line))
    else Plain
  }

  /** A line is classified by exactly the tests the pass makes on it. */
  lemma KindOfMeaning(line: string)
    ensures KindOf(line) == CitationsHeading <==> IsCitationsHeading(line)
    ensures KindOf(line) == OtherHeading <==> EndsSection(line)
    ensures KindOf(line).Bullet? <==> !IsCitationsHeading(line) && !StartsWith(line, "## ") && StartsWith(line, "-")
    ensures KindOf(line).Bullet? ==> KindOf(line).text == BulletText(line)
  {
  }

  function Kinds(lines: seq<string>): (ks: seq<LineKind>)
    ensures |ks| == |lines| && forall i :: 0 <= i < |lines| ==> ks[i] == KindOf(lines[i])
  {
    seq(|lines|, i requires 0 <= i < |lines| => KindOf(lines[i]))
  }

  /** What a line inside the citations section contributes: its text if it is a bullet, else nothing. */
  function BulletOf(k: LineKind): Option<string> {
    if k.Bullet? then Some(k.text) else None
  }

  /** The lines of the text, each stripped. */
  function StrippedLines(text: string): (lines: seq<string>)
    ensures |lines| == |SplitLines(text)|
    ensures forall i :: 0 <= i < |lines| ==> lines[i] == Strip(SplitLines(text)[i])
  {
    var raw := SplitLines(text);
    seq(|raw|, i requires 0 <= i < |raw| => Strip(raw[i]))
  }

  /** The bullets the first loop collects from the lines of kinds `ks` on, with the section flag `inCitations`. */
  function Collect(ks: seq<LineKind>, inCitations: bool): seq<string>
    decreases |ks|
  {
    if ks == [] then []
    else match ks[0]
      case CitationsHeading => Collect(ks[1..], true)
      case OtherHeading => if inCitations then [] else Collect(ks[1..], false)
      case Bullet(t) => if inCitations then [t] + Collect(ks[1..], true) else Collect(ks[1..], false)
      case Plain => Collect(ks[1..], inCitations)
  }

  /** The bullets of the citations section of the text, before deduplication. */
  function Collected(text: string): seq<string> {
    if text == "" then [] else Collect(Kinds(StrippedLines(text)), false)
  }

  /** The citations `_extract_citations_from_text` returns. */
  function Citations(text: string): seq<string> {
    ResearchUtils.DedupeFrom(Collected(text), Itself, {})
  }

  /**
   * `_extract_citations_from_text`: one pass over the stripped lines with the `in_citations` flag,
   * then the first-occurrence deduplication that also drops empty entries.
   */
  method ExtractCitations(text: string) returns (uniq: seq<string>)
    ensures uniq == Citations(text)
  {
    if text == "" {
      return [];
    }
    var out := CollectBullets(Kinds(StrippedLines(text)));
    uniq := ResearchUtils.KeepFirstByKey(out, Itself);
  }

  /**
   * The first loop of `_extract_citations_from_text`, over the stripped lines as classified by
   * `KindOf`: the bullets of the citations section, in order.
   */
  method CollectBullets(ks: seq<LineKind>) returns (out: seq<string>)
    ensures out == Collect(ks, false)
  {
    out := [];
    var inCitations := false;
    var i := 0;
    while i < |ks|
      invariant 0 <= i <= |ks|
      invariant out + Collect(ks[i..], inCitations) == Collect(ks, false)
    {
      CollectStep(ks, i, inCitations);
      match ks[i] {
        case CitationsHeading =>
          inCitations := true;
        case OtherHeading =>
          if inCitations {
            break;
          }
        case Bullet(t) =>
          if inCitations {
            out := out + [t];
          }
        case Plain =>
      }
      i := i + 1;
    }
  }

  /** One line of the collecting pass. */
  lemma CollectStep(ks: seq<LineKind>, i: nat, inCitations: bool)
    requires i < |ks|
    ensures Collect(ks[i..], inCitations) ==
              match ks[i]
              case CitationsHeading => Collect(ks[i + 1..], true)
              case OtherHeading => if inCitations then [] else Collect(ks[i + 1..], false)
              case Bullet(t) => if inCitations then [t] + Collect(ks[i + 1..], true) else Collect(ks[i + 1..], false)
              case Plain => Collect(ks[i + 1..], inCitations)
  {
    assert ks[i..][0] == ks[i] && ks[i..][1..] == ks[i + 1..];
  }

  /** Before the first citations heading nothing is collected. */
  lemma {:induction false} CollectBeforeHeading(ks: seq<LineKind>, h: nat)
    requires h < |ks| && ks[h] == CitationsHeading
    requires forall j :: 0 <= j < h ==> ks[j] != CitationsHeading
    ensures Collect(ks, false) == Collect(ks[h + 1..], true)
    decreases h
  {
    if h > 0 {
      assert forall j :: 0 <= j < h - 1 ==> ks[1..][j] == ks[j + 1];
      CollectBeforeHeading(ks[1..], h - 1);
      assert ks[1..][h..] == ks[h + 1..];
    }
  }

  /** Inside the section, up to the line that ends it (or the end of the text), every bullet is kept in order. */
  lemma {:induction false} CollectInside(ks: seq<LineKind>, e: nat)
    requires e <= |ks|
    requires forall j :: 0 <= j < e ==> ks[j] != OtherHeading
    requires e < |ks| ==> ks[e] == OtherHeading
    ensures Collect(ks, true) == FilterMap(ks[..e], BulletOf)
    decreases e
  {
    if e == 0 {
      assert ks[..e] == [];
    } else {
      var rest := ks[1..];
      assert forall j :: 0 <= j < e - 1 ==> rest[j] == ks[j + 1];
      assert e - 1 < |rest| ==> rest[e - 1] == ks[e];
      CollectInside(rest, e - 1);
      assert ks[..e] == [ks[0]] + rest[..e - 1];
      FilterMapAppend([ks[0]], rest[..e - 1], BulletOf);
      assert [ks[0]][..0] == [];
      assert FilterMap([ks[0]], BulletOf) == (if ks[0].Bullet? then [ks[0].text] else []);
    }
  }

  /**
   * The collected bullets are exactly the bullet lines after the first citations heading and
   * before the next other second-level heading, in order.
   */
  lemma CollectWindow(ks: seq<LineKind>, h: nat, e: nat)
    requires h < e <= |ks| && ks[h] == CitationsHeading
    requires forall j :: 0 <= j < h ==> ks[j] != CitationsHeading
    requires forall j :: h < j < e ==> ks[j] != OtherHeading
    requires e < |ks| ==> ks[e] == OtherHeading
    ensures Collect(ks, false) == FilterMap(ks[h + 1..e], BulletOf)
  {
    CollectBeforeHeading(ks, h);
    var rest := ks[h + 1..];
    assert forall j :: 0 <= j < e - h - 1 ==> rest[j] == ks[h + 1 + j];
    assert e - h - 1 < |rest| ==> rest[e - h - 1] == ks[e];
    CollectInside(rest, e - h - 1);
    assert rest[..e - h - 1] == ks[h + 1..e];
  }

  /** Without a citations heading the text yields no citations. */
  lemma {:induction false} CollectNoHeading(ks: seq<LineKind>)
    requires forall j :: 0 <= j < |ks| ==> ks[j] != CitationsHeading
    ensures Collect(ks, false) == []
    decreases |ks|
  {
    if ks != [] {
      assert forall j :: 0 <= j < |ks| - 1 ==> ks[1..][j] == ks[j + 1];
      CollectNoHeading(ks[1..]);
    }
  }

  /** A text without a citations heading (an empty text included) yields no citations. */
  lemma NoHeadingNoCitations(text: string)
    ensures (forall j :: 0 <= j < |StrippedLines(text)| ==> !IsCitationsHeading(StrippedLines(text)[j])) ==>
              Citations(text) == []
  {
    var lines := StrippedLines(text);
    if forall j :: 0 <= j < |lines| ==> !IsCitationsHeading(lines[j]) {
      forall j | 0 <= j < |lines| ensures Kinds(lines)[j] != CitationsHeading {
        KindOfMeaning(lines[j]);
      }
      CollectNoHeading(Kinds(lines));
    }
  }

  /**
   * The citations hold no empty string and no duplicate, appear in the order of their first
   * collection, and every non-empty collected bullet is among them.
   */
  lemma CitationsClean(text: string)
    ensures var collected := Collected(text);
            var cs := Citations(text);
            IsSubsequence(cs, collected) &&
            (forall k :: 0 <= k < |cs| ==> cs[k] != "") &&
            (forall i, j :: 0 <= i < j < |cs| ==> cs[i] != cs[j]) &&
            (forall k :: 0 <= k < |collected| && collected[k] != "" ==> collected[k] in cs)
  {
    var collected := Collected(text);
    var cs := Citations(text);
    ResearchUtils.DedupeFromSound(collected, Itself, {});
    ResearchUtils.DedupeFromKeys(collected, Itself, {});
    assert ResearchUtils.KeySet(cs, Itself) == ResearchUtils.KeySet(collected, Itself);
    forall k | 0 <= k < |collected| && collected[k] != "" ensures collected[k] in cs {
      assert Itself(collected[k]) == collected[k];
      assert collected[k] in ResearchUtils.KeySet(cs, Itself);
      var m :| 0 <= m < |cs| && Itself(cs[m]) != "" && Itself(cs[m]) == collected[k];
      assert cs[m] == collected[k];
    }
  }

  // ---------------------------------------------------------------------------------------------
  // `_score_eval_case`
  // ---------------------------------------------------------------------------------------------

  /** The filter that keeps exactly the items satisfying `p`. */
  function KeepIf<T>(p: T -> bool): T -> Option<T> {
    x => if p(x) then Some(x) else None
  }

  /** Keeping the items that satisfy `p` keeps every one of them, nothing else, and nothing when none does. */
  lemma KeepIfExact<T>(xs: seq<T>, p: T -> bool)
    ensures var rs := FilterMap(xs, KeepIf(p));
            (forall i :: 0 <= i < |xs| && p(xs[i]) ==> xs[i] in rs) &&
            (forall k :: 0 <= k < |rs| ==> p(rs[k]) && rs[k] in xs) &&
            (rs == [] <==> forall i :: 0 <= i < |xs| ==> !p(xs[i]))
  {
    var rs := FilterMap(xs, KeepIf(p));
    FilterMapExact(xs, KeepIf(p));
    FilterMapEmpty(xs, KeepIf(p));
    forall k | 0 <= k < |rs| ensures p(rs[k]) && rs[k] in xs {
      var i :| 0 <= i < |xs| && KeepIf(p)(xs[i]) == Some(rs[k]);
    }
  }

  /**
   * Whether a needle is reported against the lower-cased text: it is not blank and whether its
   * lower-cased form is in the text is `present` (false for `missing`, true for `forbidden_found`).
   */
  function ReportTest(text: string, present: bool): string -> bool {
    s => Strip(s) != "" && Contains(text, Lower(s)) == present
  }

  /** The `(passed, missing, forbidden_found)` of `_score_eval_case`. */
  datatype Score = Score(passed: bool, missing: seq<string>, forbiddenFound: seq<string>)

  function ScoreOf(c: EvalCase, draft: Option<string>): Score {
    var text := Lower(draft.GetOr(""));
    var missing := FilterMap(c.mustInclude, KeepIf(ReportTest(text, false)));
    var found := FilterMap(c.mustNotInclude, KeepIf(ReportTest(text, true)));
    Score(missing == [] && found == [], missing, found)
  }

  /** `_score_eval_case`: the two loops over the needles against the lower-cased draft (`None` read as ""). */
  method ScoreEvalCase(c: EvalCase, draft: Option<string>) returns (passed: bool, missing: seq<string>, forbiddenFound: seq<string>)
    ensures Score(passed, missing, forbiddenFound) == ScoreOf(c, draft)
  {
    var text := Lower(draft.GetOr(""));
    missing := ReportNeedles(text, c.mustInclude, false);
    forbiddenFound := ReportNeedles(text, c.mustNotInclude, true);
    passed := |missing| == 0 && |forbiddenFound| == 0;
  }

  /**
   * One loop of `_score_eval_case`: the non-blank needles whose lower-cased form is in the text
   * (`present`) or is not (`!present`), in order.
   */
  method ReportNeedles(text: string, needles: seq<string>, present: bool) returns (rs: seq<string>)
    ensures rs == FilterMap(needles, KeepIf(ReportTest(text, present)))
  {
    rs := [];
    for i := 0 to |needles|
      invariant rs == FilterMap(needles[..i], KeepIf(ReportTest(text, present)))
    {
      FilterMapSnoc(needles, KeepIf(ReportTest(text, present)), i);
      var s := needles[i];
      if Strip(s) != "" && Contains(text, Lower(s)) == present {
        rs := rs + [s];
      }
    }
    assert needles[..|needles|] == needles;
  }

  /**
   * A case passes exactly when every non-blank required needle occurs in the draft and no
   * non-blank forbidden needle does, ignoring ASCII case.
   */
  lemma ScoreVerdict(c: EvalCase, draft: Option<string>)
    ensures var text := Lower(draft.GetOr(""));
            ScoreOf(c, draft).passed <==>
              (forall i :: 0 <= i < |c.mustInclude| && Strip(c.mustInclude[i]) != "" ==> Contains(text, Lower(c.mustInclude[i]))) &&
              (forall i :: 0 <= i < |c.mustNotInclude| && Strip(c.mustNotInclude[i]) != "" ==> !Contains(text, Lower(c.mustNotInclude[i])))
  {
    var text := Lower(draft.GetOr(""));
    KeepIfExact(c.mustInclude, ReportTest(text, false));
    KeepIfExact(c.mustNotInclude, ReportTest(text, true));
  }

  /**
   * The needles a loop reports (`missing` with `present` false, `forbidden_found` with it true) are
   * exactly the non-blank ones whose lower-cased form is in the text as `present` says: a blank
   * needle is never reported.
   */
  lemma ScoreReports(text: string, needles: seq<string>, present: bool)
    ensures var rs := FilterMap(needles, KeepIf(ReportTest(text, present)));
            (forall k :: 0 <= k < |rs| ==> Strip(rs[k]) != "" && Contains(text, Lower(rs[k])) == present && rs[k] in needles) &&
            (forall i :: 0 <= i < |needles| && Strip(needles[i]) != "" && Contains(text, Lower(needles[i])) == present ==>
               needles[i] in rs)
  {
    KeepIfExact(needles, ReportTest(text, present));
  }

  /** Lower-casing twice is lower-casing once. */
  lemma LowerIdempotent(s: string)
    ensures Lower(Lower(s)) == Lower(s)
  {
  }

  /** The score does not change when the draft is lower-cased first: the comparison ignores case. */
  lemma ScoreIgnoresCase(c: EvalCase, draft: string)
    ensures ScoreOf(c, Some(Lower(draft))) == ScoreOf(c, Some(draft))
  {
    LowerIdempotent(draft);
  }

  // ---------------------------------------------------------------------------------------------
  // `_log_run`
  // ---------------------------------------------------------------------------------------------

  /**
   * The status of a run: "ok" for a non-blank draft and "empty" otherwise; a scored evaluation run
   * reports "pass" or "fail" instead.
   */
  function RunStatus(kind: string, draft: string, evalPass: Option<bool>): (status: string)
    ensures kind == "eval" && evalPass.Some? ==> (status == "pass" <==> evalPass.value) && (status == "fail" <==> !evalPass.value)
    ensures !(kind == "eval" && evalPass.Some?) ==> (status == "ok" <==> !IsBlank(draft)) && (status == "empty" <==> IsBlank(draft))
  {
    var base := if Strip(draft) != "" then "ok" else "empty";
    if kind == "eval" && evalPass.Some? then (if evalPass.value then "pass" else "fail") else base
  }

  /** The preview of the prompt: its first 80 characters, newlines turned into spaces, stripped. */
  function Preview(prompt: string): (p: string)
    ensures |p| <= 80 && |p| <= |prompt|
    ensures forall j :: 0 <= j < |p| ==> p[j] != '\n'
    ensures IsStripped(p)
  {
    var flat := ReplaceChar(Take(prompt, 80), '\n', ' ');
    StripKeepsAbsent(flat, '\n');
    Strip(flat)
  }

  /** One row of the run history. */
  datatype RunEntry = RunEntry(time: string, kind: string, taskKey: string, latencyMs: int, chunks: nat,
                               citations: nat, status: string, promptPreview: string)

  /** The run history of the session, newest first. */
  class RunHistory {
    var entries: seq<RunEntry>

    constructor ()
      ensures entries == []
    {
      entries := [];
    }

    /**
     * `_log_run`: puts the entry for this run at the front of the history. The clock reading and the
     * retrieved-chunk count are given; the draft is the result's `draft` (`None` read as "").
     */
    method LogRun(kind: string, taskKey: string, promptPreview: string, draft: Option<string>,
                  elapsedMs: int, evalPass: Option<bool>, time: string, chunks: nat)
      modifies this
      ensures entries == [RunEntry(time, kind, taskKey, elapsedMs, chunks, |Citations(draft.GetOr(""))|,
                                   RunStatus(kind, draft.GetOr(""), evalPass), Preview(promptPreview))] + old(entries)
    {
      var text := draft.GetOr("");
      var citations := ExtractCitations(text);
      var status := if Strip(text) != "" then "ok" else "empty";
      if kind == "eval" && evalPass.Some? {
        status := if evalPass.value then "pass" else "fail";
      }
      entries := [RunEntry(time, kind, taskKey, elapsedMs, chunks, |citations|, status, Preview(promptPreview))] + entries;
    }
  }
}
