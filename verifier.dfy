/**
 * `verifier_agent`: the minimum-grounding check. It looks only at whether some research note
 * has a citation; the draft's text is not inspected and the draft is left in place.
 */
module Verifier {
  import opened Wrappers
  import opened PyStr
  import opened SharedState

  const NoCitationsProblem: string := "No citations found in research_notes. Output must be 'Not found in sources'."

  const BlockedHeader: string :=
    "## Deliverable Package\n\n" + "### Executive Summary\n- Not found in sources.\n\n---\n## Verification\n"

  const ApprovedFooter: string :=
    "\n\n---\n## Verification\n- Checked that at least one citation exists in " + "retrieved evidence.\n"

  /** The problems the verifier reports for these notes. */
  function Problems(notes: seq<ResearchNote>): seq<string> {
    if Cited(notes) then [] else [NoCitationsProblem]
  }

  /** `"\n".join(f"- {p}" for p in problems)`. */
  function Bullets(problems: seq<string>): string {
    Join("\n", seq(|problems|, i requires 0 <= i < |problems| => "- " + problems[i]))
  }

  /** The final output: the blocked template with the problems as bullets, or the draft plus the footer. */
  function FinalText(problems: seq<string>, draft: Option<string>): string {
    if problems != [] then BlockedHeader + Bullets(problems)
    else draft.GetOr("") + ApprovedFooter
  }

  function VerifyRow(problems: seq<string>): TraceRow {
    TraceRow("verify", "verifier", "Checked minimum grounding (citations present) and enforced no-evidence rule",
             if problems != [] then "Blocked final: " + NatToString(|problems|) + " issue(s)" else "Final approved")
  }

  /**
   * `verifier_agent(state)`: the verification notes become the problem list, the final output is
   * set, one row is appended; the draft and the notes are not touched.
   */
  method VerifierAgent(state: State)
    modifies state`verificationNotes, state`finalOutput, state`trace
    ensures state.verificationNotes == Problems(state.researchNotes)
    ensures state.finalOutput == Some(FinalText(state.verificationNotes, state.draft))
    ensures state.trace == old(state.trace) + [VerifyRow(state.verificationNotes)]
  {
    var problems: seq<string> := [];
    var cited := HasCitations(state.researchNotes);
    if !cited {
      problems := problems + [NoCitationsProblem];
    }
    state.verificationNotes := problems;
    var outcome: string;
    if |problems| > 0 {
      state.finalOutput := Some(BlockedHeader + Bullets(problems));
      outcome := "Blocked final: " + NatToString(|problems|) + " issue(s)";
    } else {
      var text := state.draft.GetOr("");
      text := text + ApprovedFooter;
      state.finalOutput := Some(text);
      outcome := "Final approved";
    }
    state.trace := state.trace + [TraceRow("verify", "verifier", "Checked minimum grounding (citations present) and enforced no-evidence rule", outcome)];
  }

  /**
   * Exactly one problem when no note has a citation, none otherwise. Blocked, the final output
   * is the "Not found in sources." template ending in that problem as a bullet, whatever the
   * draft says, and the outcome is "Blocked final: 1 issue(s)". Approved, the draft (or "") is
   * a prefix of the final output, which ends with the footer, and the outcome is "Final approved".
   */
  lemma VerifierVerdict(notes: seq<ResearchNote>, draft: Option<string>)
    ensures var ps := Problems(notes);
            var out := FinalText(ps, draft);
            (|ps| == 1 <==> !Cited(notes)) && (ps == [] <==> Cited(notes)) &&
            (!Cited(notes) ==>
               StartsWith(out, BlockedHeader) && EndsWith(out, "- " + NoCitationsProblem) &&
               out == FinalText(ps, None) &&
               VerifyRow(ps).outcome == "Blocked final: 1 issue(s)") &&
            (Cited(notes) ==>
               StartsWith(out, draft.GetOr("")) && EndsWith(out, ApprovedFooter) &&
               VerifyRow(ps).outcome == "Final approved")
  {
    if !Cited(notes) {
      VerifierBlocked(notes, draft);
    } else {
      VerifierApproved(notes, draft);
    }
  }

  /** Approved: no problem, the draft then the footer, and the outcome "Final approved". */
  lemma VerifierApproved(notes: seq<ResearchNote>, draft: Option<string>)
    requires Cited(notes)
    ensures var ps := Problems(notes);
            var out := FinalText(ps, draft);
            ps == [] && StartsWith(out, draft.GetOr("")) && EndsWith(out, ApprovedFooter) &&
            VerifyRow(ps).outcome == "Final approved"
  {
    ConcatEnds(draft.GetOr(""), ApprovedFooter);
  }

  /** Blocked: one bullet, the count 1, and the template whatever the draft. */
  lemma VerifierBlocked(notes: seq<ResearchNote>, draft: Option<string>)
    requires !Cited(notes)
    ensures var ps := Problems(notes);
            var out := FinalText(ps, draft);
            StartsWith(out, BlockedHeader) && EndsWith(out, "- " + NoCitationsProblem) &&
            out == FinalText(ps, None) && VerifyRow(ps).outcome == "Blocked final: 1 issue(s)"
  {
    var ps := Problems(notes);
    assert ps == [NoCitationsProblem];
    var bullets := seq(|ps|, i requires 0 <= i < |ps| => "- " + ps[i]);
    assert bullets == ["- " + NoCitationsProblem];
    assert Bullets(ps) == "- " + NoCitationsProblem;
    assert NatToString(1) == "1";
    ConcatEnds(BlockedHeader, Bullets(ps));
  }
}
