/**
 * The offline evaluation runner: every case runs the pipeline, picks the text to judge from the
 * returned dictionary, and records one failure per required needle that is absent and one per
 * forbidden needle that is present; a case passes when it records none.
 */
module RunEval {
  import opened Wrappers
  import opened PyStr
  import opened Seqs
  import opened SharedState
  import Verifier

  /** A value of the dictionary `run_task` returns: a string, or anything else (None, a list, a dict). */
  datatype Value = Str(s: string) | Other

  /** What `run_task` returns, as the runner sees it: the dictionary, and the text `json.dumps` makes of it. */
  datatype RunResult = RunResult(fields: map<string, Value>, json: string)

  /** One line of `questions.jsonl`. */
  datatype EvalCase = EvalCase(id: string, taskKey: string, taskText: string,
                               mustContain: seq<string>, mustNotContain: seq<string>)

  /** The keys `_get_output_text` tries, in this order. */
  const OutputKeys: seq<string> := ["final_output", "draft", "output", "result"]

  /** The key holds a string that is not blank. */
  predicate Judgeable(fields: map<string, Value>, key: string) {
    key in fields && fields[key].Str? && Strip(fields[key].s) != ""
  }

  /** Which of the keys `_get_output_text` tries hold a non-blank string. */
  function JudgeableIn(fields: map<string, Value>): string -> bool {
    key => Judgeable(fields, key)
  }

  /**
   * `_get_output_text`: the first of `final_output`, `draft`, `output` and `result` that holds a
   * non-blank string, and otherwise the JSON text of the whole dictionary.
   */
  function OutputText(result: RunResult): (out: string)
    ensures (exists i :: 0 <= i < |OutputKeys| && Judgeable(result.fields, OutputKeys[i]) &&
                         out == result.fields[OutputKeys[i]].s &&
                         forall j :: 0 <= j < i ==> !Judgeable(result.fields, OutputKeys[j])) ||
            ((forall i :: 0 <= i < |OutputKeys| ==> !Judgeable(result.fields, OutputKeys[i])) && out == result.json)
  {
    match FirstWhere(OutputKeys, JudgeableIn(result.fields))
    case Some(i) => result.fields[OutputKeys[i]].s
    case None => result.json
  }

  /** The preference order: the final output wins over the draft, the draft over `output`, `output` over `result`. */
  lemma OutputPreference(result: RunResult)
    ensures Judgeable(result.fields, "final_output") ==> OutputText(result) == result.fields["final_output"].s
    ensures !Judgeable(result.fields, "final_output") && Judgeable(result.fields, "draft") ==>
              OutputText(result) == result.fields["draft"].s
    ensures !Judgeable(result.fields, "final_output") && !Judgeable(result.fields, "draft") &&
            Judgeable(result.fields, "output") ==>
              OutputText(result) == result.fields["output"].s
    ensures !Judgeable(result.fields, "final_output") && !Judgeable(result.fields, "draft") &&
            !Judgeable(result.fields, "output") && Judgeable(result.fields, "result") ==>
              OutputText(result) == result.fields["result"].s
    ensures !Judgeable(result.fields, "final_output") && !Judgeable(result.fields, "draft") &&
            !Judgeable(result.fields, "output") && !Judgeable(result.fields, "result") ==>
              OutputText(result) == result.json
  {
    var keys := OutputKeys;
    assert keys[0] == "final_output" && keys[1] == "draft" && keys[2] == "output" && keys[3] == "result";
  }

  /**
   * On the dictionary of a finished run the runner judges the verifier's final output: that text is
   * never blank, whatever the notes and the draft.
   */
  lemma JudgesFinalOutput(notes: seq<ResearchNote>, draft: Option<string>, result: RunResult)
    ensures var text := Verifier.FinalText(Verifier.Problems(notes), draft);
            "final_output" in result.fields && result.fields["final_output"] == Str(text) ==>
              OutputText(result) == text
  {
    var text := Verifier.FinalText(Verifier.Problems(notes), draft);
    Verifier.VerifierVerdict(notes, draft);
    FinalTextNotBlank(text, Cited(notes));
    OutputPreference(result);
  }

  /** A text that begins with the blocked template or ends with the approval footer is not blank. */
  lemma FinalTextNotBlank(text: string, approved: bool)
    requires !approved ==> StartsWith(text, Verifier.BlockedHeader)
    requires approved ==> EndsWith(text, Verifier.ApprovedFooter)
    ensures Strip(text) != ""
  {
    var footer := Verifier.ApprovedFooter;
    if approved {
      assert footer[|footer| - 2] == '.';
      assert text[|text| - 2] == footer[|footer| - 2];
    } else {
      assert Verifier.BlockedHeader[0] == '#';
      assert text[0] == Verifier.BlockedHeader[0];
    }
  }

  const MissingLabel: string := "Missing required text: "
  const ForbiddenLabel: string := "Found forbidden text: "

  /**
   * `_contains(text, needle)`: the needle, after the escape decoding `norm` stands for, is a
   * substring of the text.
   */
  predicate Holds(text: string, needle: string, norm: string -> string) {
    Contains(text, norm(needle))
  }

  /**
   * The failure a needle records under `tag`: one exactly when whether it holds is `present`
   * (false for a required needle, true for a forbidden one).
   */
  function NeedleFilter(out: string, norm: string -> string, tag: string, present: bool): string -> Option<string> {
    s => if Holds(out, s, norm) == present then Some(tag + s) else None
  }

  function MissingFilter(out: string, norm: string -> string): string -> Option<string> {
    NeedleFilter(out, norm, MissingLabel, false)
  }

  function ForbiddenFilter(out: string, norm: string -> string): string -> Option<string> {
    NeedleFilter(out, norm, ForbiddenLabel, true)
  }

  /** The failure list of `run_case` for the judged text: the missing needles first, then the forbidden ones. */
  function CaseFailures(out: string, c: EvalCase, norm: string -> string): seq<string> {
    FilterMap(c.mustContain, MissingFilter(out, norm)) + FilterMap(c.mustNotContain, ForbiddenFilter(out, norm))
  }

  /** One labelled entry for every needle whose holding is `present`, and no other entry. */
  lemma NeedleFailuresExact(out: string, needles: seq<string>, norm: string -> string, tag: string, present: bool)
    ensures var fs := FilterMap(needles, NeedleFilter(out, norm, tag, present));
            (forall i :: 0 <= i < |needles| && Holds(out, needles[i], norm) == present ==> tag + needles[i] in fs) &&
            (forall k :: 0 <= k < |fs| ==>
               exists i :: 0 <= i < |needles| && Holds(out, needles[i], norm) == present && fs[k] == tag + needles[i])
  {
    var f := NeedleFilter(out, norm, tag, present);
    var fs := FilterMap(needles, f);
    FilterMapExact(needles, f);
    forall k | 0 <= k < |fs|
      ensures exists i :: 0 <= i < |needles| && Holds(out, needles[i], norm) == present && fs[k] == tag + needles[i]
    {
      var i :| 0 <= i < |needles| && f(needles[i]) == Some(fs[k]);
      assert Holds(out, needles[i], norm) == present && fs[k] == tag + needles[i];
    }
  }

  /** A case passes exactly when every required needle is present and every forbidden one absent. */
  lemma CaseVerdict(out: string, c: EvalCase, norm: string -> string)
    ensures CaseFailures(out, c, norm) == [] <==>
              (forall i :: 0 <= i < |c.mustContain| ==> Holds(out, c.mustContain[i], norm)) &&
              (forall i :: 0 <= i < |c.mustNotContain| ==> !Holds(out, c.mustNotContain[i], norm))
  {
    FilterMapEmpty(c.mustContain, MissingFilter(out, norm));
    FilterMapEmpty(c.mustNotContain, ForbiddenFilter(out, norm));
  }

  /**
   * The failure list holds one "Missing required text" entry for every absent required needle and
   * nothing else before the forbidden part, which holds one "Found forbidden text" entry for every
   * present forbidden needle and nothing else.
   */
  lemma CaseFailuresExact(out: string, c: EvalCase, norm: string -> string)
    ensures var missing := FilterMap(c.mustContain, MissingFilter(out, norm));
            var found := FilterMap(c.mustNotContain, ForbiddenFilter(out, norm));
            CaseFailures(out, c, norm) == missing + found &&
            (forall i :: 0 <= i < |c.mustContain| && !Holds(out, c.mustContain[i], norm) ==>
               MissingLabel + c.mustContain[i] in missing) &&
            (forall k :: 0 <= k < |missing| ==>
               exists i :: 0 <= i < |c.mustContain| && !Holds(out, c.mustContain[i], norm) &&
                           missing[k] == MissingLabel + c.mustContain[i]) &&
            (forall i :: 0 <= i < |c.mustNotContain| && Holds(out, c.mustNotContain[i], norm) ==>
               ForbiddenLabel + c.mustNotContain[i] in found) &&
            (forall k :: 0 <= k < |found| ==>
               exists i :: 0 <= i < |c.mustNotContain| && Holds(out, c.mustNotContain[i], norm) &&
                           found[k] == ForbiddenLabel + c.mustNotContain[i])
  {
    NeedleFailuresExact(out, c.mustContain, norm, MissingLabel, false);
    NeedleFailuresExact(out, c.mustNotContain, norm, ForbiddenLabel, true);
  }

  /**
   * `run_case`, with `run_task` as the parameter `runTask`: the failures recorded for the text
   * judged on its result, and whether there were none.
   */
  method RunCase(c: EvalCase, runTask: (string, string) -> RunResult, norm: string -> string)
    returns (ok: bool, failures: seq<string>)
    ensures failures == CaseFailures(OutputText(runTask(c.taskText, c.taskKey)), c, norm)
    ensures ok <==> failures == []
  {
    var out := OutputText(runTask(c.taskText, c.taskKey));
    var missing := CheckNeedles(out, c.mustContain, norm, MissingLabel, false);
    var found := CheckNeedles(out, c.mustNotContain, norm, ForbiddenLabel, true);
    failures := missing + found;
    ok := |failures| == 0;
  }

  /**
   * One loop of `run_case`: a `tag` entry for each needle whose holding in `out` is `present`
   * (the "missing" loop over `must_contain`, the "forbidden" loop over `must_not_contain`).
   */
  method CheckNeedles(out: string, needles: seq<string>, norm: string -> string, tag: string, present: bool)
    returns (failures: seq<string>)
    ensures failures == FilterMap(needles, NeedleFilter(out, norm, tag, present))
  {
    failures := [];
    for i := 0 to |needles|
      invariant failures == FilterMap(needles[..i], NeedleFilter(out, norm, tag, present))
    {
      FilterMapSnoc(needles, NeedleFilter(out, norm, tag, present), i);
      if Holds(out, needles[i], norm) == present {
        failures := failures + [tag + needles[i]];
      }
    }
    assert needles[..|needles|] == needles;
  }

  /** The case passes on the result `runTask` gives for it. */
  predicate Passes(c: EvalCase, runTask: (string, string) -> RunResult, norm: string -> string) {
    CaseFailures(OutputText(runTask(c.taskText, c.taskKey)), c, norm) == []
  }

  function PassTest(runTask: (string, string) -> RunResult, norm: string -> string): EvalCase -> bool {
    c => Passes(c, runTask, norm)
  }

  /** How many items satisfy `p`. */
  function CountWhere<T>(xs: seq<T>, p: T -> bool): (n: nat)
    ensures n <= |xs|
    decreases |xs|
  {
    if xs == [] then 0 else CountWhere(xs[..|xs| - 1], p) + (if p(xs[|xs| - 1]) then 1 else 0)
  }

  /** Every item satisfies `p` exactly when all of them are counted. */
  lemma {:induction false} CountWhereAll<T>(xs: seq<T>, p: T -> bool)
    ensures CountWhere(xs, p) == |xs| <==> forall i :: 0 <= i < |xs| ==> p(xs[i])
    decreases |xs|
  {
    if xs != [] {
      var init := xs[..|xs| - 1];
      CountWhereAll(init, p);
      assert forall i :: 0 <= i < |init| ==> init[i] == xs[i];
    }
  }

  /**
   * The tally of `main`: every case is run once and counted as passed or failed, and the runner
   * exits with a failure status exactly when a case failed.
   */
  method Evaluate(cases: seq<EvalCase>, runTask: (string, string) -> RunResult, norm: string -> string)
    returns (passed: nat, failed: nat, exitFailure: bool)
    ensures passed == CountWhere(cases, PassTest(runTask, norm))
    ensures passed + failed == |cases|
    ensures exitFailure <==> failed > 0
    ensures !exitFailure <==> forall i :: 0 <= i < |cases| ==> Passes(cases[i], runTask, norm)
  {
    passed, failed := 0, 0;
    for i := 0 to |cases|
      invariant passed == CountWhere(cases[..i], PassTest(runTask, norm))
      invariant passed + failed == i
    {
      assert cases[..i + 1][..i] == cases[..i];
      var ok, _ := RunCase(cases[i], runTask, norm);
      if ok {
        passed := passed + 1;
      } else {
        failed := failed + 1;
      }
    }
    assert cases[..|cases|] == cases;
    exitFailure := failed > 0;
    CountWhereAll(cases, PassTest(runTask, norm));
  }
}
