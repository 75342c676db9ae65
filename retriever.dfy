/**
 * Retrieval result assembly: what `search_docs` does with the ranked rows the vector index
 * returns. The embedding call and the nearest-neighbour search are one oracle, `Index.nn`,
 * which yields the ranked hits or the exception either of them raised; `Index.rows` is the
 * metadata sidecar, in the same row order as the vector index.
 */
module Retriever {
  import opened Wrappers
  import opened PyStr

  /** One line of the metadata sidecar; "" stands for a missing, null or empty value. */
  datatype MetaRow = MetaRow(
    pageContent: string, sourceId: string, sourceName: string, sourcePath: string, locator: string)

  /** One nearest-neighbour hit: a row position (-1 is the index's "no result") and its distance. */
  datatype Hit = Hit(idx: int, score: real)

  /** The loaded index: the search oracle (query, number of rows to fetch) and the metadata rows. */
  datatype Index = Index(nn: (string, int) -> Result<seq<Hit>>, rows: seq<MetaRow>)

  /** An evidence record as `search_docs` returns it; the score is carried and never inspected. */
  datatype Record = Record(content: string, sourceId: string, source: string, locator: string, score: real)

  /** Python's `a or b` on strings. */
  function Or(a: string, b: string): string {
    if a != "" then a else b
  }

  /** `_row_to_result`: the stripped content and the three metadata fields with their fallbacks. */
  function RowToResult(row: MetaRow, score: real): (r: Record)
    ensures r.content == Strip(row.pageContent) && r.score == score
    ensures r.sourceId != "" && r.source != "" && r.locator != ""
    ensures row.sourceId != "" ==> r.sourceId == row.sourceId
    ensures row.sourceId == "" ==> r.sourceId == "unknown_source"
    ensures r.source == (if row.sourceName != "" then row.sourceName
                         else if row.sourcePath != "" then row.sourcePath else "unknown")
    ensures r.locator == (if row.locator != "" then row.locator else "unknown location")
  {
    Record(Strip(row.pageContent), Or(row.sourceId, "unknown_source"),
           Or(row.sourceName, Or(row.sourcePath, "unknown")), Or(row.locator, "unknown location"), score)
  }

  /** Python's `meta[idx]`: a negative position counts from the end; out of range raises. */
  function PyRow(rows: seq<MetaRow>, idx: int): (r: Option<MetaRow>)
    ensures r.Some? <==> -|rows| <= idx < |rows|
    ensures 0 <= idx < |rows| ==> r == Some(rows[idx])
  {
    if 0 <= idx < |rows| then Some(rows[idx])
    else if -|rows| <= idx < 0 then Some(rows[|rows| + idx])
    else None
  }

  const IndexOutOfRange: Raised := Raised("IndexError", "list index out of range")

  /**
   * The records made from a prefix of the hits: -1 positions and rows whose stripped
   * content is empty are skipped, the rest keep rank order; a position outside the
   * metadata raises.
   */
  function Collect(hits: seq<Hit>, rows: seq<MetaRow>): (r: Result<seq<Record>>)
    ensures r.Ok? ==> |r.value| <= |hits|
    ensures r.Ok? ==> forall k :: 0 <= k < |r.value| ==> r.value[k].content != "" && r.value[k].sourceId != ""
    ensures r.Err? ==> r.error == IndexOutOfRange
    ensures (forall k :: 0 <= k < |hits| ==> hits[k].idx == -1) ==> r == Ok([])
    decreases |hits|
  {
    if hits == [] then Ok([]) else CollectStep(Collect(hits[..|hits| - 1], rows), hits[|hits| - 1], rows)
  }

  /** One iteration of the first loop of `search_docs`. */
  function CollectStep(acc: Result<seq<Record>>, h: Hit, rows: seq<MetaRow>): (r: Result<seq<Record>>)
    ensures acc.Err? ==> r == acc
    ensures acc.Ok? ==> r == AddHit(acc.value, h, rows)
  {
    match acc
    case Err(e) => Err(e)
    case Ok(a) => AddHit(a, h, rows)
  }

  /**
   * One hit added to the records so far: a -1 position or a blank row adds nothing, another
   * row adds its record at the end, a position outside the metadata raises.
   */
  function AddHit(a: seq<Record>, h: Hit, rows: seq<MetaRow>): (r: Result<seq<Record>>)
    ensures r.Err? ==> r.error == IndexOutOfRange
    ensures r.Ok? ==> r.value == a || exists x :: r.value == a + [x] && x.content != "" && x.sourceId != ""
    ensures h.idx == -1 ==> r == Ok(a)
  {
    if h.idx == -1 then Ok(a)
    else
      match PyRow(rows, h.idx)
      case None => Err(IndexOutOfRange)
      case Some(row) =>
        if Strip(row.pageContent) == "" then Ok(a)
        else
          var x := RowToResult(row, h.score);
          assert Ok(a + [x]).value == a + [x];
          Ok(a + [x])
  }

  /** Once a prefix of the hits raises, the whole list raises. */
  lemma {:induction false} CollectErrPersists(hits: seq<Hit>, rows: seq<MetaRow>, i: nat)
    requires i <= |hits|
    ensures Collect(hits[..i], rows).Err? ==> Collect(hits, rows).Err?
    decreases |hits|
  {
    if i < |hits| {
      var init := hits[..|hits| - 1];
      CollectErrPersists(init, rows, i);
      assert init[..i] == hits[..i];
      CollectLast(hits, rows);
    } else {
      assert hits[..i] == hits;
    }
  }

  /** `Collect` on a non-empty prefix is one step after the shorter prefix. */
  lemma CollectLast(p: seq<Hit>, rows: seq<MetaRow>)
    requires p != []
    ensures Collect(p, rows) == CollectStep(Collect(p[..|p| - 1], rows), p[|p| - 1], rows)
  {
  }

  /** The first loop of `search_docs`. */
  method CollectResults(hits: seq<Hit>, rows: seq<MetaRow>) returns (r: Result<seq<Record>>)
    ensures r == Collect(hits, rows)
  {
    var results: seq<Record> := [];
    for i := 0 to |hits|
      invariant Collect(hits[..i], rows) == Ok(results)
    {
      ghost var p := hits[..i + 1];
      assert p[..i] == hits[..i];
      assert Collect(p, rows) == CollectStep(Ok(results), hits[i], rows);
      var h := hits[i];
      if h.idx == -1 {
        continue;
      }
      var row := PyRow(rows, h.idx);
      if row.None? {
        CollectErrPersists(hits, rows, i + 1);
        return Err(IndexOutOfRange);
      }
      var content := Strip(row.value.pageContent);
      if content == "" {
        continue;
      }
      results := results + [RowToResult(row.value, h.score)];
    }
    assert hits[..|hits|] == hits;
    return Ok(results);
  }

  /** `needle in source_id.lower() or needle in source.lower()`. */
  predicate Matches(r: Record, needle: string) {
    Contains(Lower(r.sourceId), needle) || Contains(Lower(r.source), needle)
  }

  /** The list comprehension `forced = [r for r in results if ...]`. */
  function Forced(results: seq<Record>, needle: string): (f: seq<Record>)
    ensures |f| <= |results|
    ensures forall k :: 0 <= k < |f| ==> Matches(f[k], needle) && f[k] in results
    ensures f == [] <==> forall k :: 0 <= k < |results| ==> !Matches(results[k], needle)
    ensures results != [] && Matches(results[0], needle) ==> f[0] == results[0]
    decreases |results|
  {
    if results == [] then []
    else if Matches(results[0], needle) then [results[0]] + Forced(results[1..], needle)
    else
      assert forall k :: 1 <= k < |results| ==> results[k] == results[1..][k - 1];
      Forced(results[1..], needle)
  }

  /** The non-empty source ids among some records: `{r["source_id"] for r in rs if r.get("source_id")}`. */
  function SidSet(rs: seq<Record>): set<string> {
    set k | 0 <= k < |rs| && rs[k].sourceId != "" :: rs[k].sourceId
  }

  /**
   * The backfill loop: walk the ranked records, stop once `acc` holds `topK` records, skip a
   * record whose source id was already taken, append the others.
   */
  function Backfill(results: seq<Record>, acc: seq<Record>, seen: set<string>, topK: nat): (r: seq<Record>)
    ensures |acc| <= |r|
    ensures r[..|acc|] == acc
    decreases |results|
  {
    if results == [] || |acc| >= topK then acc
    else
      var sid := results[0].sourceId;
      if sid != "" && sid in seen then Backfill(results[1..], acc, seen, topK)
      else Backfill(results[1..], acc + [results[0]], if sid != "" then seen + {sid} else seen, topK)
  }

  /** Python's `max(overfetch, top_k) if must_include else top_k`. */
  function FetchCount(topK: nat, mustInclude: string, overfetch: int): (n: int)
    ensures mustInclude == "" ==> n == topK
    ensures mustInclude != "" ==> n >= topK && n >= overfetch && (n == topK || n == overfetch)
  {
    if mustInclude != "" then (if overfetch > topK then overfetch else topK) else topK
  }

  /** What `search_docs` returns from the filtered ranked records. */
  function Assemble(results: seq<Record>, topK: nat, mustInclude: string): seq<Record> {
    if mustInclude == "" then Take(results, topK)
    else
      var forced := Forced(results, Lower(mustInclude));
      if forced == [] then Take(results, topK)
      else
        var first := Take(forced, 2);
        Take(Backfill(results, first, SidSet(first), topK), topK)
  }

  /** `search_docs(query, top_k, must_include, overfetch)`; "" stands for no `must_include`. */
  function Search(index: Index, query: string, topK: nat, mustInclude: string, overfetch: int): Result<seq<Record>> {
    match index.nn(query, FetchCount(topK, mustInclude, overfetch))
    case Err(e) => Err(e)
    case Ok(hits) =>
      match Collect(hits, index.rows)
      case Err(e) => Err(e)
      case Ok(results) => Ok(Assemble(results, topK, mustInclude))
  }

  /** The backfill loop of `search_docs`, with its early `break` at `topK`. */
  method BackfillLoop(results: seq<Record>, first: seq<Record>, topK: nat) returns (forced: seq<Record>)
    ensures forced == Backfill(results, first, SidSet(first), topK)
  {
    forced := first;
    var seen := SidSet(first);
    var i := 0;
    while i < |results|
      invariant 0 <= i <= |results|
      invariant Backfill(results, first, SidSet(first), topK) == Backfill(results[i..], forced, seen, topK)
    {
      if |forced| >= topK {
        break;
      }
      assert results[i..][1..] == results[i + 1..];
      var sid := results[i].sourceId;
      if sid != "" && sid in seen {
        i := i + 1;
        continue;
      }
      forced := forced + [results[i]];
      if sid != "" {
        seen := seen + {sid};
      }
      i := i + 1;
    }
  }

  /** `search_docs`, step by step as the source runs it. */
  method SearchDocs(index: Index, query: string, topK: nat, mustInclude: string, overfetch: int)
    returns (r: Result<seq<Record>>)
    ensures r == Search(index, query, topK, mustInclude, overfetch)
    ensures r.Ok? ==> |r.value| <= topK
  {
    var nFetch := FetchCount(topK, mustInclude, overfetch);
    var hits :- index.nn(query, nFetch);
    var results :- CollectResults(hits, index.rows);
    assert Search(index, query, topK, mustInclude, overfetch) == Ok(Assemble(results, topK, mustInclude));
    if mustInclude != "" {
      var needle := Lower(mustInclude);
      var forced := Forced(results, needle);
      if forced != [] {
        forced := Take(forced, 2);
        forced := BackfillLoop(results, forced, topK);
        return Ok(Take(forced, topK));
      }
    }
    return Ok(Take(results, topK));
  }

  /** The result never holds more than `topK` records, and each of them is a filtered ranked record. */
  lemma {:induction false} AssembleBounded(results: seq<Record>, topK: nat, mustInclude: string)
    ensures |Assemble(results, topK, mustInclude)| <= topK
    ensures forall k :: 0 <= k < |Assemble(results, topK, mustInclude)| ==>
              Assemble(results, topK, mustInclude)[k] in results
  {
    var out := Assemble(results, topK, mustInclude);
    if mustInclude != "" && Forced(results, Lower(mustInclude)) != [] {
      var first := Take(Forced(results, Lower(mustInclude)), 2);
      BackfillFrom(results, first, SidSet(first), topK);
    }
  }

  /** Everything the backfill adds comes from the ranked records, and it never exceeds `topK` unless `acc` did. */
  lemma {:induction false} BackfillFrom(results: seq<Record>, acc: seq<Record>, seen: set<string>, topK: nat)
    ensures forall k :: |acc| <= k < |Backfill(results, acc, seen, topK)| ==>
              Backfill(results, acc, seen, topK)[k] in results
    ensures |acc| <= topK ==> |Backfill(results, acc, seen, topK)| <= topK
    ensures (forall k :: 0 <= k < |acc| ==> acc[k] in results) ==>
              forall k :: 0 <= k < |Backfill(results, acc, seen, topK)| ==> Backfill(results, acc, seen, topK)[k] in results
    decreases |results|
  {
    if results == [] || |acc| >= topK {
    } else {
      var sid := results[0].sourceId;
      var tail := results[1..];
      assert forall x :: x in tail ==> x in results;
      if sid != "" && sid in seen {
        BackfillFrom(tail, acc, seen, topK);
      } else {
        BackfillFrom(tail, acc + [results[0]], if sid != "" then seen + {sid} else seen, topK);
      }
    }
  }

  /** Without `must_include`, or when no record matches it, the result is the first `topK` ranked records. */
  lemma PlainSearch(results: seq<Record>, topK: nat, mustInclude: string)
    requires mustInclude == "" || forall k :: 0 <= k < |results| ==> !Matches(results[k], Lower(mustInclude))
    ensures Assemble(results, topK, mustInclude) == Take(results, topK)
  {
  }

  /**
   * Forced inclusion: when some ranked record matches `must_include`, the result opens with the
   * first one or two matches in rank order, so for `topK >= 1` it holds a match.
   */
  lemma ForcedInclusion(results: seq<Record>, topK: nat, mustInclude: string, j: nat)
    requires mustInclude != "" && j < |results| && Matches(results[j], Lower(mustInclude))
    ensures var forced := Forced(results, Lower(mustInclude));
            var n := if |forced| < 2 then |forced| else 2;
            var n' := if n < topK then n else topK;
            Assemble(results, topK, mustInclude)[..n'] == forced[..n']
    ensures topK >= 1 ==> |Assemble(results, topK, mustInclude)| >= 1 &&
                          Matches(Assemble(results, topK, mustInclude)[0], Lower(mustInclude))
  {
    var needle := Lower(mustInclude);
    var forced := Forced(results, needle);
    assert forced != [] by { assert !(forall k :: 0 <= k < |results| ==> !Matches(results[k], needle)); }
    var first := Take(forced, 2);
    var b := Backfill(results, first, SidSet(first), topK);
    assert b[..|first|] == first;
    var out := Take(b, topK);
    assert Assemble(results, topK, mustInclude) == out;
    if topK >= 1 {
      assert out[0] == b[0] == first[0] == forced[0];
    }
  }

  /**
   * What the backfill appends after the forced records: ranked records in rank order whose
   * non-empty source id was not taken by any record before them.
   */
  lemma {:induction false} BackfillSkipsTaken(results: seq<Record>, acc: seq<Record>, seen: set<string>, topK: nat)
    requires SidSet(acc) <= seen
    ensures var b := Backfill(results, acc, seen, topK);
            forall k :: |acc| <= k < |b| ==> b[k].sourceId == "" || b[k].sourceId !in SidSet(b[..k])
    decreases |results|
  {
    if results == [] || |acc| >= topK {
    } else {
      var sid := results[0].sourceId;
      if sid != "" && sid in seen {
        BackfillSkipsTaken(results[1..], acc, seen, topK);
        assert Backfill(results, acc, seen, topK) == Backfill(results[1..], acc, seen, topK);
      } else {
        var acc' := acc + [results[0]];
        var seen' := if sid != "" then seen + {sid} else seen;
        assert SidSet(acc') <= seen' by {
          forall x | x in SidSet(acc') ensures x in seen' {
            var k :| 0 <= k < |acc'| && acc'[k].sourceId != "" && acc'[k].sourceId == x;
            if k < |acc| { assert x in SidSet(acc); }
          }
        }
        BackfillSkipsTaken(results[1..], acc', seen', topK);
        var b := Backfill(results, acc, seen, topK);
        assert b == Backfill(results[1..], acc', seen', topK);
        assert b[..|acc'|] == acc';
        if sid != "" {
          assert sid !in SidSet(acc);
          assert b[..|acc|] == acc;
        }
      }
    }
  }
}
