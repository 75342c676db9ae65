/** `dedupe_results_keep_order`: order-preserving deduplication of retrieval records. */
module ResearchUtils {
  import opened PyStr
  import opened Seqs
  import opened Retriever

  /** The dedupe key: the stripped source id, else the stripped first 80 characters of the stripped content. */
  function DedupeKey(r: Record): (k: string)
    ensures IsStripped(k)
    ensures !IsBlank(r.sourceId) ==> k == Strip(r.sourceId)
    ensures IsBlank(r.sourceId) ==> k == Strip(Take(Strip(r.content), 80))
  {
    var sid := Strip(r.sourceId);
    var content := Strip(r.content);
    var key := if sid != "" then sid else Take(content, 80);
    StripIdempotent(r.sourceId);
    Strip(key)
  }

  /** The non-blank keys of some items under `key`. */
  function KeySet<T>(xs: seq<T>, key: T -> string): set<string> {
    set k | 0 <= k < |xs| && key(xs[k]) != "" :: key(xs[k])
  }

  /** No two items share a key. */
  predicate DistinctKeys<T>(xs: seq<T>, key: T -> string) {
    forall i, j :: 0 <= i < j < |xs| ==> key(xs[i]) != key(xs[j])
  }

  /** The loop of the source with `seen` already holding `seen`: skip blank or seen keys, keep the rest. */
  function DedupeFrom<T>(xs: seq<T>, key: T -> string, seen: set<string>): seq<T>
    decreases |xs|
  {
    if xs == [] then []
    else
      var k := key(xs[0]);
      if k == "" || k in seen then DedupeFrom(xs[1..], key, seen)
      else [xs[0]] + DedupeFrom(xs[1..], key, seen + {k})
  }

  /** One step of `DedupeFrom` at position `i`. */
  lemma DedupeFromStep<T>(xs: seq<T>, key: T -> string, seen: set<string>, i: int)
    requires 0 <= i < |xs|
    ensures var k := key(xs[i]);
            DedupeFrom(xs[i..], key, seen) ==
              if k == "" || k in seen then DedupeFrom(xs[i + 1..], key, seen)
              else [xs[i]] + DedupeFrom(xs[i + 1..], key, seen + {k})
  {
    assert xs[i..][1..] == xs[i + 1..];
  }

  /** The records `dedupe_results_keep_order` keeps. */
  function Dedupe(rs: seq<Record>): seq<Record> {
    DedupeFrom(rs, DedupeKey, {})
  }

  /** `dedupe_results_keep_order`: its loop, run with the key of `DedupeKey`. */
  method DedupeResultsKeepOrder(results: seq<Record>) returns (merged: seq<Record>)
    ensures merged == Dedupe(results)
  {
    merged := KeepFirstByKey(results, DedupeKey);
  }

  /** The loop of `dedupe_results_keep_order`, with its `seen` set and `merged` list, for any key. */
  method KeepFirstByKey<T>(results: seq<T>, key: T -> string) returns (merged: seq<T>)
    ensures merged == DedupeFrom(results, key, {})
  {
    merged := [];
    var seen: set<string> := {};
    for i := 0 to |results|
      invariant merged + DedupeFrom(results[i..], key, seen) == DedupeFrom(results, key, {})
    {
      DedupeFromStep(results, key, seen, i);
      var k := key(results[i]);
      if k == "" || k in seen {
        continue;
      }
      seen := seen + {k};
      merged := merged + [results[i]];
    }
  }

  /**
   * The output is an order-preserving subsequence of the input; every kept key is non-blank and
   * was not seen before, and no two kept items share a key.
   */
  lemma {:induction false} DedupeFromSound<T>(xs: seq<T>, key: T -> string, seen: set<string>)
    ensures IsSubsequence(DedupeFrom(xs, key, seen), xs)
    ensures forall k :: 0 <= k < |DedupeFrom(xs, key, seen)| ==>
              key(DedupeFrom(xs, key, seen)[k]) != "" && key(DedupeFrom(xs, key, seen)[k]) !in seen
    ensures DistinctKeys(DedupeFrom(xs, key, seen), key)
    decreases |xs|
  {
    if xs != [] {
      var k0 := key(xs[0]);
      assert [xs[0]] + xs[1..] == xs;
      if k0 == "" || k0 in seen {
        DedupeFromSound(xs[1..], key, seen);
        SubsequenceSkip(xs[0], DedupeFrom(xs[1..], key, seen), xs[1..]);
      } else {
        var tail := DedupeFrom(xs[1..], key, seen + {k0});
        DedupeFromSound(xs[1..], key, seen + {k0});
        SubsequenceCons(xs[0], tail, xs[1..]);
        var out := [xs[0]] + tail;
        forall i, j | 0 <= i < j < |out| ensures key(out[i]) != key(out[j]) {
          if i == 0 { assert out[j] == tail[j - 1]; }
          else { assert out[i] == tail[i - 1] && out[j] == tail[j - 1]; }
        }
      }
    }
  }

  /**
   * First occurrence is kept: an item with a non-blank, not yet seen key that no earlier
   * item shares is in the output.
   */
  lemma {:induction false} DedupeFromKeepsFirst<T>(xs: seq<T>, key: T -> string, seen: set<string>, i: nat)
    requires i < |xs| && key(xs[i]) != "" && key(xs[i]) !in seen
    requires forall j :: 0 <= j < i ==> key(xs[j]) != key(xs[i])
    ensures xs[i] in DedupeFrom(xs, key, seen)
    decreases |xs|
  {
    var k0 := key(xs[0]);
    if i > 0 {
      assert xs[1..][i - 1] == xs[i];
      var seen' := if k0 == "" || k0 in seen then seen else seen + {k0};
      forall j | 0 <= j < i - 1 ensures key(xs[1..][j]) != key(xs[1..][i - 1]) {
        assert xs[1..][j] == xs[j + 1];
      }
      DedupeFromKeepsFirst(xs[1..], key, seen', i - 1);
    }
  }

  /** The key set of a non-empty list: its head's key (when non-blank) and its tail's keys. */
  lemma KeySetCons<T>(xs: seq<T>, key: T -> string)
    requires xs != []
    ensures KeySet(xs, key) == KeySet(xs[1..], key) + (if key(xs[0]) == "" then {} else {key(xs[0])})
  {
    forall x | x in KeySet(xs, key) ensures x in KeySet(xs[1..], key) + (if key(xs[0]) == "" then {} else {key(xs[0])}) {
      var k :| 0 <= k < |xs| && key(xs[k]) != "" && key(xs[k]) == x;
      if k > 0 { assert xs[1..][k - 1] == xs[k]; }
    }
    forall x | x in KeySet(xs[1..], key) ensures x in KeySet(xs, key) {
      var k :| 0 <= k < |xs[1..]| && key(xs[1..][k]) != "" && key(xs[1..][k]) == x;
      assert xs[k + 1] == xs[1..][k];
    }
  }

  /** The output uses exactly the non-blank keys of the input that were not seen before. */
  lemma {:induction false} DedupeFromKeys<T>(xs: seq<T>, key: T -> string, seen: set<string>)
    ensures KeySet(DedupeFrom(xs, key, seen), key) == KeySet(xs, key) - seen
    decreases |xs|
  {
    if xs == [] {
      assert KeySet(xs, key) == {};
    } else {
      var k0 := key(xs[0]);
      var seen' := if k0 == "" || k0 in seen then seen else seen + {k0};
      DedupeFromKeys(xs[1..], key, seen');
      KeySetCons(xs, key);
      if k0 != "" && k0 !in seen {
        var out := [xs[0]] + DedupeFrom(xs[1..], key, seen');
        KeySetCons(out, key);
        assert out[1..] == DedupeFrom(xs[1..], key, seen');
      }
    }
  }

  /** A list whose keys are non-blank, distinct and unseen comes through unchanged. */
  lemma {:induction false} DedupeFromFixed<T>(xs: seq<T>, key: T -> string, seen: set<string>)
    requires forall k :: 0 <= k < |xs| ==> key(xs[k]) != "" && key(xs[k]) !in seen
    requires DistinctKeys(xs, key)
    ensures DedupeFrom(xs, key, seen) == xs
    decreases |xs|
  {
    if xs != [] {
      var k0 := key(xs[0]);
      forall k | 0 <= k < |xs[1..]| ensures key(xs[1..][k]) != "" && key(xs[1..][k]) !in seen + {k0} {
        assert xs[1..][k] == xs[k + 1];
      }
      forall i, j | 0 <= i < j < |xs[1..]| ensures key(xs[1..][i]) != key(xs[1..][j]) {
        assert xs[1..][i] == xs[i + 1] && xs[1..][j] == xs[j + 1];
      }
      DedupeFromFixed(xs[1..], key, seen + {k0});
      assert [xs[0]] + xs[1..] == xs;
    }
  }

  /** Deduplicating a concatenation: what `a` keeps, then what `b` keeps of the keys `a` did not use. */
  lemma {:induction false} DedupeFromAppend<T>(a: seq<T>, b: seq<T>, key: T -> string, seen: set<string>)
    ensures DedupeFrom(a + b, key, seen) == DedupeFrom(a, key, seen) + DedupeFrom(b, key, seen + KeySet(a, key))
    decreases |a|
  {
    if a == [] {
      assert a + b == b;
      assert KeySet(a, key) == {};
      assert seen + KeySet(a, key) == seen;
    } else {
      var k0 := key(a[0]);
      assert (a + b)[0] == a[0];
      assert (a + b)[1..] == a[1..] + b;
      var seen' := if k0 == "" || k0 in seen then seen else seen + {k0};
      DedupeFromAppend(a[1..], b, key, seen');
      KeySetCons(a, key);
      assert seen' + KeySet(a[1..], key) == seen + KeySet(a, key);
    }
  }

  /** Deduplicating twice is deduplicating once. */
  lemma DedupeIdempotent(rs: seq<Record>)
    ensures Dedupe(Dedupe(rs)) == Dedupe(rs)
  {
    DedupeFromSound(rs, DedupeKey, {});
    DedupeFromFixed(Dedupe(rs), DedupeKey, {});
  }

  /**
   * What `dedupe_results_keep_order` promises: the kept records appear in input order, carry
   * non-blank pairwise-distinct keys, and cover every non-blank key of the input.
   */
  lemma DedupeProperties(rs: seq<Record>)
    ensures IsSubsequence(Dedupe(rs), rs)
    ensures forall k :: 0 <= k < |Dedupe(rs)| ==> DedupeKey(Dedupe(rs)[k]) != ""
    ensures DistinctKeys(Dedupe(rs), DedupeKey)
    ensures KeySet(Dedupe(rs), DedupeKey) == KeySet(rs, DedupeKey)
  {
    DedupeFromSound(rs, DedupeKey, {});
    DedupeFromKeys(rs, DedupeKey, {});
  }

  /** The first record carrying each non-blank key is the one kept. */
  lemma DedupeKeepsFirst(rs: seq<Record>, i: nat)
    requires i < |rs| && DedupeKey(rs[i]) != ""
    requires forall j :: 0 <= j < i ==> DedupeKey(rs[j]) != DedupeKey(rs[i])
    ensures rs[i] in Dedupe(rs)
  {
    DedupeFromKeepsFirst(rs, DedupeKey, {}, i);
  }

  /** Merging two result lists and deduplicating equals deduplicating the first, then appending what is new in the second. */
  lemma DedupeAppend(a: seq<Record>, b: seq<Record>)
    ensures Dedupe(a + b) == Dedupe(a) + DedupeFrom(b, DedupeKey, KeySet(a, DedupeKey))
  {
    DedupeFromAppend(a, b, DedupeKey, {});
    assert {} + KeySet(a, DedupeKey) == KeySet(a, DedupeKey);
  }
}
