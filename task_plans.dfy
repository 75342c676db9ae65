/**
 * The shape shared by the boosted task plans: a fixed list of `search_docs` calls whose
 * results are concatenated with `+=`, deduplicated in first-seen order and cut to a cap.
 */
module TaskPlans {
  import opened Wrappers
  import opened PyStr
  import opened Seqs
  import opened Retriever
  import opened ResearchUtils

  /** One `search_docs` call of a plan; `fixedQuery == None` stands for the caller's query. */
  datatype SearchCall = SearchCall(fixedQuery: Option<string>, topK: nat, mustInclude: string, overfetch: int)

  function QueryOf(c: SearchCall, query: string): string {
    c.fixedQuery.GetOr(query)
  }

  function RunCall(index: Index, query: string, c: SearchCall): Result<seq<Record>> {
    Search(index, QueryOf(c, query), c.topK, c.mustInclude, c.overfetch)
  }

  /** What each call of the plan returns (or raises) when run on its own. */
  function Outcomes(index: Index, query: string, calls: seq<SearchCall>): (outs: seq<Result<seq<Record>>>)
    ensures |outs| == |calls|
  {
    seq(|calls|, k requires 0 <= k < |calls| => RunCall(index, query, calls[k]))
  }

  /** `acc + <rest>`, or the error the rest raised. */
  function Prefixed<T>(acc: seq<T>, g: Result<seq<T>>): Result<seq<T>> {
    match g
    case Err(e) => Err(e)
    case Ok(b) => Ok(acc + b)
  }

  /** Outcomes concatenated in order; the first error ends the concatenation. */
  function Concat<T>(outs: seq<Result<seq<T>>>): Result<seq<T>>
    decreases |outs|
  {
    if outs == [] then Ok([])
    else
      match outs[0]
      case Err(e) => Err(e)
      case Ok(a) => Prefixed(a, Concat(outs[1..]))
  }

  /** The calls run in order and their results are concatenated; the first one that raises ends the plan. */
  function Gather(index: Index, query: string, calls: seq<SearchCall>): Result<seq<Record>> {
    Concat(Outcomes(index, query, calls))
  }

  /** `dedupe_results_keep_order(<concatenation>)[:cap]`. */
  function Boost(index: Index, query: string, calls: seq<SearchCall>, cap: nat): Result<seq<Record>> {
    match Gather(index, query, calls)
    case Err(e) => Err(e)
    case Ok(all) => Ok(Take(Dedupe(all), cap))
  }

  /** One `+=` step whose search succeeds: its records move into the accumulator. */
  lemma ConcatStepOk<T>(acc: seq<T>, outs: seq<Result<seq<T>>>)
    requires outs != [] && outs[0].Ok?
    ensures Prefixed(acc, Concat(outs)) == Prefixed(acc + outs[0].value, Concat(outs[1..]))
  {
    var a := outs[0].value;
    match Concat(outs[1..])
    case Err(e) =>
    case Ok(b) => assert acc + (a + b) == (acc + a) + b;
  }

  /** `search_docs(...)` with the arguments of one call of the plan. */
  method RunSearchCall(index: Index, query: string, c: SearchCall) returns (r: Result<seq<Record>>)
    ensures r == RunCall(index, query, c)
    ensures r.Ok? ==> |r.value| <= c.topK
  {
    r := SearchDocs(index, QueryOf(c, query), c.topK, c.mustInclude, c.overfetch);
  }

  lemma OutcomeAt(index: Index, query: string, calls: seq<SearchCall>, i: nat)
    requires i < |calls|
    ensures Outcomes(index, query, calls)[i] == RunCall(index, query, calls[i])
  {
  }

  /** `results += search_docs(...)` for each call in order; the first search that raises propagates. */
  method GatherResults(index: Index, query: string, calls: seq<SearchCall>) returns (r: Result<seq<Record>>)
    ensures r == Gather(index, query, calls)
  {
    ghost var outs := Outcomes(index, query, calls);
    var results: seq<Record> := [];
    assert outs[0..] == outs;
    assert Concat(outs).Ok? ==> [] + Concat(outs).value == Concat(outs).value;
    for i := 0 to |calls|
      invariant Prefixed(results, Concat(outs[i..])) == Concat(outs)
    {
      var c := calls[i];
      var found := RunSearchCall(index, query, c);
      OutcomeAt(index, query, calls, i);
      assert outs[i..][0] == outs[i];
      if found.Err? {
        return found;
      }
      ConcatStepOk(results, outs[i..]);
      assert outs[i..][1..] == outs[i + 1..];
      results := results + found.value;
    }
    assert outs[|calls|..] == [];
    assert results + [] == results;
    return Ok(results);
  }

  /** A boosted plan as the task modules run it: gather, then `dedupe_results_keep_order(results)[:cap]`. */
  method RunBoosted(index: Index, query: string, calls: seq<SearchCall>, cap: nat) returns (r: Result<seq<Record>>)
    ensures r == Boost(index, query, calls, cap)
    ensures r.Ok? ==> |r.value| <= cap && DistinctKeys(r.value, DedupeKey)
  {
    var results :- GatherResults(index, query, calls);
    var merged := DedupeResultsKeepOrder(results);
    CappedDedupe(results, DedupeKey, cap);
    return Ok(Take(merged, cap));
  }

  /**
   * A concatenation fails exactly when one of the outcomes is an error, and then with the first
   * error; otherwise it is the outcomes' lists joined in order.
   */
  lemma {:induction false} ConcatFails<T>(outs: seq<Result<seq<T>>>)
    ensures Concat(outs).Err? <==> exists i :: 0 <= i < |outs| && outs[i].Err?
    ensures Concat(outs).Err? ==>
              exists i :: 0 <= i < |outs| && outs[i] == Concat(outs) && forall j :: 0 <= j < i ==> outs[j].Ok?
    decreases |outs|
  {
    if outs != [] {
      ConcatFails(outs[1..]);
      var g := Concat(outs);
      if outs[0].Ok? {
        if g.Err? {
          var i :| 0 <= i < |outs[1..]| && outs[1..][i] == Concat(outs[1..]) &&
                   forall j :: 0 <= j < i ==> outs[1..][j].Ok?;
          assert outs[i + 1] == g;
          forall j | 0 <= j < i + 1 ensures outs[j].Ok? {
            if j > 0 { assert outs[j] == outs[1..][j - 1]; }
          }
        } else {
          forall i | 0 <= i < |outs| ensures outs[i].Ok? {
            if i > 0 { assert outs[i] == outs[1..][i - 1]; }
          }
        }
      }
    }
  }

  /** A plan fails exactly when one of its searches raises, and then with the error of the first such search. */
  lemma GatherFails(index: Index, query: string, calls: seq<SearchCall>)
    ensures Gather(index, query, calls).Err? <==> exists i :: 0 <= i < |calls| && RunCall(index, query, calls[i]).Err?
    ensures Gather(index, query, calls).Err? ==>
              exists i :: 0 <= i < |calls| && RunCall(index, query, calls[i]) == Gather(index, query, calls) &&
                forall j :: 0 <= j < i ==> RunCall(index, query, calls[j]).Ok?
  {
    var outs := Outcomes(index, query, calls);
    ConcatFails(outs);
    assert forall i :: 0 <= i < |calls| ==> outs[i] == RunCall(index, query, calls[i]);
  }

  /** The deduplicated concatenation cut to `cap`, as a boosted plan returns it. */
  lemma CappedDedupe<T>(all: seq<T>, key: T -> string, cap: nat)
    ensures var out := Take(DedupeFrom(all, key, {}), cap);
            |out| <= cap && IsSubsequence(out, all) &&
            (forall k :: 0 <= k < |out| ==> key(out[k]) != "") &&
            DistinctKeys(out, key) &&
            (|DedupeFrom(all, key, {})| <= cap ==> KeySet(out, key) == KeySet(all, key))
  {
    var d := DedupeFrom(all, key, {});
    var out := Take(d, cap);
    DedupeFromSound(all, key, {});
    DedupeFromKeys(all, key, {});
    SubsequencePrefix(d, |out|);
    SubsequenceTrans(out, d, all);
    if |d| <= cap {
      assert out == d;
      assert KeySet(all, key) - {} == KeySet(all, key);
    }
    forall k | 0 <= k < |out| ensures key(out[k]) != "" {
      assert out[k] == d[k];
    }
    forall i, j | 0 <= i < j < |out| ensures key(out[i]) != key(out[j]) {
      assert out[i] == d[i] && out[j] == d[j];
    }
  }

  /**
   * What a boosted plan returns: at most `cap` records, taken in order from the concatenated
   * search results, each with a non-blank dedupe key that no other returned record shares; when
   * the deduplicated list fits under the cap every key of the concatenation is represented.
   */
  lemma BoostProperties(index: Index, query: string, calls: seq<SearchCall>, cap: nat)
    ensures Boost(index, query, calls, cap).Ok? <==> Gather(index, query, calls).Ok?
    ensures Boost(index, query, calls, cap).Ok? ==>
              var out := Boost(index, query, calls, cap).value;
              var all := Gather(index, query, calls).value;
              |out| <= cap && IsSubsequence(out, all) &&
              (forall k :: 0 <= k < |out| ==> DedupeKey(out[k]) != "") &&
              DistinctKeys(out, DedupeKey) &&
              (|Dedupe(all)| <= cap ==> KeySet(out, DedupeKey) == KeySet(all, DedupeKey))
  {
    if Gather(index, query, calls).Ok? {
      CappedDedupe(Gather(index, query, calls).value, DedupeKey, cap);
    }
  }
}
