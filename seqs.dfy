/** Order-preserving subsequences, the shape every filter and dedupe in the pipeline produces. */
module Seqs {
  import opened Wrappers


  /** `a` is `b` with some elements left out, the rest in the same order. */
  predicate IsSubsequence<T(==)>(a: seq<T>, b: seq<T>)
    decreases |b|
  {
    a == [] || (b != [] && (if a[0] == b[0] then IsSubsequence(a[1..], b[1..]) else IsSubsequence(a, b[1..])))
  }

  lemma {:induction false} SubsequenceFacts<T>(a: seq<T>, b: seq<T>)
    requires IsSubsequence(a, b)
    ensures |a| <= |b|
    ensures forall x :: x in a ==> x in b
    decreases |b|
  {
    if a != [] {
      if a[0] == b[0] {
        SubsequenceFacts(a[1..], b[1..]);
        forall x | x in a ensures x in b {
          if x != a[0] { assert x in a[1..]; }
        }
      } else {
        SubsequenceFacts(a, b[1..]);
      }
    }
  }

  lemma {:induction false} SubsequenceCons<T>(x: T, a: seq<T>, b: seq<T>)
    requires IsSubsequence(a, b)
    ensures IsSubsequence([x] + a, [x] + b)
  {
    assert ([x] + a)[1..] == a;
    assert ([x] + b)[1..] == b;
  }

  lemma {:induction false} SubsequenceSkip<T>(x: T, a: seq<T>, b: seq<T>)
    requires IsSubsequence(a, b)
    ensures IsSubsequence(a, [x] + b)
    decreases |b|, 1
  {
    assert ([x] + b)[1..] == b;
    if a != [] && a[0] == x {
      // Matching `x` against `a[0]` must still leave a subsequence.
      SubsequenceDropHead(a, b);
    }
  }

  /** Dropping the head of a subsequence keeps it a subsequence. */
  lemma {:induction false} SubsequenceDropHead<T>(a: seq<T>, b: seq<T>)
    requires a != [] && IsSubsequence(a, b)
    ensures IsSubsequence(a[1..], b)
    decreases |b|, 0
  {
    if a[0] == b[0] {
      SubsequenceSkip(b[0], a[1..], b[1..]);
    } else {
      SubsequenceDropHead(a, b[1..]);
      SubsequenceSkip(b[0], a[1..], b[1..]);
    }
  }

  lemma {:induction false} SubsequenceRefl<T>(a: seq<T>)
    ensures IsSubsequence(a, a)
    decreases |a|
  {
    if a != [] { SubsequenceRefl(a[1..]); }
  }

  lemma {:induction false} SubsequencePrefix<T>(a: seq<T>, n: nat)
    requires n <= |a|
    ensures IsSubsequence(a[..n], a)
    decreases |a|
  {
    if n > 0 {
      SubsequencePrefix(a[1..], n - 1);
      assert a[..n][1..] == a[1..][..n - 1];
    }
  }

  lemma {:induction false} SubsequenceTrans<T>(a: seq<T>, b: seq<T>, c: seq<T>)
    requires IsSubsequence(a, b) && IsSubsequence(b, c)
    ensures IsSubsequence(a, c)
    decreases |c|
  {
    if a == [] {
    } else if b[0] == c[0] {
      if a[0] == b[0] {
        SubsequenceTrans(a[1..], b[1..], c[1..]);
      } else {
        SubsequenceTrans(a, b[1..], c[1..]);
      }
    } else {
      SubsequenceTrans(a, b, c[1..]);
      if a[0] == c[0] { SubsequenceDropHead(a, c[1..]); }
    }
  }

  /** The values `f` yields for the items it accepts, in order. */
  function FilterMap<A, B>(xs: seq<A>, f: A -> Option<B>): seq<B>
    decreases |xs|
  {
    if xs == [] then []
    else
      var before := FilterMap(xs[..|xs| - 1], f);
      match f(xs[|xs| - 1])
      case None => before
      case Some(y) => before + [y]
  }

  /** Every output comes from an accepted item, and every accepted item's value is in the output. */
  lemma {:induction false} FilterMapExact<A, B>(xs: seq<A>, f: A -> Option<B>)
    ensures forall k :: 0 <= k < |FilterMap(xs, f)| ==> exists j :: 0 <= j < |xs| && f(xs[j]) == Some(FilterMap(xs, f)[k])
    ensures forall j :: 0 <= j < |xs| && f(xs[j]).Some? ==> f(xs[j]).value in FilterMap(xs, f)
    decreases |xs|
  {
    if xs != [] {
      var init := xs[..|xs| - 1];
      FilterMapExact(init, f);
      assert forall j :: 0 <= j < |init| ==> init[j] == xs[j];
      var out := FilterMap(xs, f);
      var before := FilterMap(init, f);
      forall k | 0 <= k < |out| ensures exists j :: 0 <= j < |xs| && f(xs[j]) == Some(out[k]) {
        if k < |before| {
          assert out[k] == before[k];
          var j :| 0 <= j < |init| && f(init[j]) == Some(before[k]);
          assert f(xs[j]) == Some(out[k]);
        } else {
          assert f(xs[|xs| - 1]) == Some(out[k]);
        }
      }
    } else {
      assert FilterMap(xs, f) == [];
    }
  }

  /** When every value `f` yields satisfies `p`, every output does. */
  lemma FilterMapAll<A, B>(xs: seq<A>, f: A -> Option<B>, p: B -> bool)
    requires forall x :: f(x).Some? ==> p(f(x).value)
    ensures forall k :: 0 <= k < |FilterMap(xs, f)| ==> p(FilterMap(xs, f)[k])
  {
    FilterMapExact(xs, f);
    forall k | 0 <= k < |FilterMap(xs, f)| ensures p(FilterMap(xs, f)[k]) {
      var j :| 0 <= j < |xs| && f(xs[j]) == Some(FilterMap(xs, f)[k]);
    }
  }

  /** Where the second and fourth parts of a five-part concatenation sit. */
  lemma FivePartsAt<T>(t: seq<T>, x: seq<T>, h: seq<T>, y: seq<T>, r: seq<T>)
    ensures var s := t + x + h + y + r;
            |s| == |t| + |x| + |h| + |y| + |r| &&
            (forall k :: 0 <= k < |x| ==> s[|t| + k] == x[k]) &&
            (forall k :: 0 <= k < |y| ==> s[|t| + |x| + |h| + k] == y[k])
  {
  }

  /** Filtering a concatenation filters each part in turn, so the output keeps the input's order. */
  lemma {:induction false} FilterMapAppend<A, B>(a: seq<A>, b: seq<A>, f: A -> Option<B>)
    ensures FilterMap(a + b, f) == FilterMap(a, f) + FilterMap(b, f)
    decreases |b|
  {
    if b == [] {
      assert a + b == a;
    } else {
      var init := b[..|b| - 1];
      FilterMapAppend(a, init, f);
      assert (a + b)[..|a + b| - 1] == a + init;
      assert (a + b)[|a + b| - 1] == b[|b| - 1];
    }
  }

  /** Nothing comes out exactly when `f` accepts no item. */
  lemma {:induction false} FilterMapEmpty<A, B>(xs: seq<A>, f: A -> Option<B>)
    ensures FilterMap(xs, f) == [] <==> forall j :: 0 <= j < |xs| ==> f(xs[j]).None?
    decreases |xs|
  {
    if xs != [] {
      var init := xs[..|xs| - 1];
      FilterMapEmpty(init, f);
      assert forall j :: 0 <= j < |init| ==> init[j] == xs[j];
    }
  }

  lemma {:induction false} FilterMapLength<A, B>(xs: seq<A>, f: A -> Option<B>)
    ensures |FilterMap(xs, f)| <= |xs|
    decreases |xs|
  {
    if xs != [] {
      FilterMapLength(xs[..|xs| - 1], f);
    }
  }

  /** Filtering a suffix: the outputs are exactly the values of the accepted items from position `d` on. */
  lemma FilterMapFrom<A, B>(xs: seq<A>, d: nat, f: A -> Option<B>)
    requires d <= |xs|
    ensures forall y :: y in FilterMap(xs[d..], f) ==> exists j :: d <= j < |xs| && f(xs[j]) == Some(y)
    ensures forall j :: d <= j < |xs| && f(xs[j]).Some? ==> f(xs[j]).value in FilterMap(xs[d..], f)
  {
    var tail := xs[d..];
    FilterMapExact(tail, f);
    forall y | y in FilterMap(tail, f) ensures exists j :: d <= j < |xs| && f(xs[j]) == Some(y) {
      var k :| 0 <= k < |FilterMap(tail, f)| && FilterMap(tail, f)[k] == y;
      var j :| 0 <= j < |tail| && f(tail[j]) == Some(y);
      assert xs[d + j] == tail[j];
    }
    forall j | d <= j < |xs| && f(xs[j]).Some? ensures f(xs[j]).value in FilterMap(tail, f) {
      assert tail[j - d] == xs[j];
    }
  }

  /** One more item: its value, if `f` accepts it, goes at the end. */
  lemma FilterMapSnoc<A, B>(xs: seq<A>, f: A -> Option<B>, i: nat)
    requires i < |xs|
    ensures FilterMap(xs[..i + 1], f) == FilterMap(xs[..i], f) + (if f(xs[i]).Some? then [f(xs[i]).value] else [])
  {
    assert xs[..i + 1][..i] == xs[..i];
  }

  /** A slice of a slice is a slice. */
  lemma SliceOfSlice<T>(s: seq<T>, a: int, b: int, c: int, d: int)
    requires 0 <= a <= b <= |s| && 0 <= c <= d <= b - a
    ensures s[a..b][c..d] == s[a + c..a + d]
  {
    forall k | 0 <= k < d - c ensures s[a..b][c..d][k] == s[a + c..a + d][k] {
      assert s[a..b][c..d][k] == s[a..b][c + k];
      assert s[a..b][c + k] == s[a + c + k];
    }
  }

  /** The first output comes from the first accepted item. */
  lemma {:induction false} FilterMapFirst<A, B>(xs: seq<A>, f: A -> Option<B>)
    requires FilterMap(xs, f) != []
    ensures exists k :: 0 <= k < |xs| && f(xs[k]) == Some(FilterMap(xs, f)[0]) && forall j :: 0 <= j < k ==> f(xs[j]).None?
    decreases |xs|
  {
    var init := xs[..|xs| - 1];
    assert forall j :: 0 <= j < |init| ==> xs[j] == init[j];
    if FilterMap(init, f) != [] {
      FilterMapFirst(init, f);
    } else {
      FilterMapEmpty(init, f);
      assert f(xs[|xs| - 1]).Some?;
    }
  }

  /** The items whose key is not in `seen` and not carried by an earlier item: first occurrence kept, order kept. */
  function DistinctBy<T, K(==)>(xs: seq<T>, key: T -> K, seen: set<K>): seq<T>
    decreases |xs|
  {
    if xs == [] then []
    else if key(xs[0]) in seen then DistinctBy(xs[1..], key, seen)
    else [xs[0]] + DistinctBy(xs[1..], key, seen + {key(xs[0])})
  }

  /** No two items share a key. */
  predicate UniqueKeys<T, K(==)>(xs: seq<T>, key: T -> K) {
    forall i, j :: 0 <= i < j < |xs| ==> key(xs[i]) != key(xs[j])
  }

  /** The keys the items carry. */
  function KeysOf<T, K>(xs: seq<T>, key: T -> K): set<K> {
    set i | 0 <= i < |xs| :: key(xs[i])
  }

  /** The output is an order-preserving subsequence whose keys are unseen and pairwise distinct. */
  lemma {:induction false} DistinctBySound<T, K>(xs: seq<T>, key: T -> K, seen: set<K>)
    ensures IsSubsequence(DistinctBy(xs, key, seen), xs)
    ensures forall k :: 0 <= k < |DistinctBy(xs, key, seen)| ==> key(DistinctBy(xs, key, seen)[k]) !in seen
    ensures UniqueKeys(DistinctBy(xs, key, seen), key)
    decreases |xs|
  {
    if xs != [] {
      var k0 := key(xs[0]);
      assert [xs[0]] + xs[1..] == xs;
      if k0 in seen {
        DistinctBySound(xs[1..], key, seen);
        SubsequenceSkip(xs[0], DistinctBy(xs[1..], key, seen), xs[1..]);
      } else {
        var tail := DistinctBy(xs[1..], key, seen + {k0});
        DistinctBySound(xs[1..], key, seen + {k0});
        SubsequenceCons(xs[0], tail, xs[1..]);
        var out := [xs[0]] + tail;
        forall i, j | 0 <= i < j < |out| ensures key(out[i]) != key(out[j]) {
          if i == 0 { assert out[j] == tail[j - 1]; }
          else { assert out[i] == tail[i - 1] && out[j] == tail[j - 1]; }
        }
      }
    }
  }

  lemma KeysOfCons<T, K>(xs: seq<T>, key: T -> K)
    requires xs != []
    ensures KeysOf(xs, key) == KeysOf(xs[1..], key) + {key(xs[0])}
  {
    forall x | x in KeysOf(xs, key) ensures x in KeysOf(xs[1..], key) + {key(xs[0])} {
      var k :| 0 <= k < |xs| && key(xs[k]) == x;
      if k > 0 { assert xs[1..][k - 1] == xs[k]; }
    }
    forall x | x in KeysOf(xs[1..], key) ensures x in KeysOf(xs, key) {
      var k :| 0 <= k < |xs[1..]| && key(xs[1..][k]) == x;
      assert xs[k + 1] == xs[1..][k];
    }
  }

  /** Every key of the input that was not seen before is carried by exactly the output. */
  lemma {:induction false} DistinctByKeys<T, K>(xs: seq<T>, key: T -> K, seen: set<K>)
    ensures KeysOf(DistinctBy(xs, key, seen), key) == KeysOf(xs, key) - seen
    decreases |xs|
  {
    if xs == [] {
      assert KeysOf(xs, key) == {};
    } else {
      var k0 := key(xs[0]);
      var seen' := if k0 in seen then seen else seen + {k0};
      DistinctByKeys(xs[1..], key, seen');
      KeysOfCons(xs, key);
      if k0 !in seen {
        var out := [xs[0]] + DistinctBy(xs[1..], key, seen');
        KeysOfCons(out, key);
        assert out[1..] == DistinctBy(xs[1..], key, seen');
      }
    }
  }

  /** The first item carrying an unseen key is the one kept. */
  lemma {:induction false} DistinctByKeepsFirst<T, K>(xs: seq<T>, key: T -> K, seen: set<K>, i: nat)
    requires i < |xs| && key(xs[i]) !in seen
    requires forall j :: 0 <= j < i ==> key(xs[j]) != key(xs[i])
    ensures xs[i] in DistinctBy(xs, key, seen)
    decreases |xs|
  {
    if i > 0 {
      var k0 := key(xs[0]);
      assert xs[1..][i - 1] == xs[i];
      var seen' := if k0 in seen then seen else seen + {k0};
      forall j | 0 <= j < i - 1 ensures key(xs[1..][j]) != key(xs[1..][i - 1]) {
        assert xs[1..][j] == xs[j + 1];
      }
      DistinctByKeepsFirst(xs[1..], key, seen', i - 1);
    }
  }

  /** The position of the first item satisfying `p`, if any. */
  function FirstWhere<T>(xs: seq<T>, p: T -> bool): (r: Option<int>)
    ensures r.Some? ==> 0 <= r.value < |xs| && p(xs[r.value]) && forall k :: 0 <= k < r.value ==> !p(xs[k])
    ensures r.None? ==> forall k :: 0 <= k < |xs| ==> !p(xs[k])
    decreases |xs|
  {
    if xs == [] then None
    else if p(xs[0]) then Some(0)
    else
      match FirstWhere(xs[1..], p)
      case None => None
      case Some(k) => Some(k + 1)
  }

  /** An item satisfying `p` after only items that do not is the one found. */
  lemma FirstWhereIs<T>(xs: seq<T>, p: T -> bool, i: nat)
    requires i < |xs| && p(xs[i]) && forall k :: 0 <= k < i ==> !p(xs[k])
    ensures FirstWhere(xs, p) == Some(i)
  {
    var r := FirstWhere(xs, p);
    assert r.Some?;
    assert !(r.value < i) && !(i < r.value);
  }

  /** A slice that lies within the left operand of a concatenation. */
  lemma AppendSliceLeft<T>(a: seq<T>, b: seq<T>, lo: int, hi: int)
    requires 0 <= lo <= hi <= |a|
    ensures (a + b)[lo..hi] == a[lo..hi]
  {
  }

  /** The right operand of a concatenation, as a slice of it. */
  lemma AppendSliceRight<T>(a: seq<T>, b: seq<T>)
    ensures (a + b)[|a|..|a| + |b|] == b
  {
  }

  /** The five-item blocks `f(1, xs[0])`, `f(2, xs[1])`, ... one after another. */
  function FiveBlocks<A, B>(xs: seq<A>, f: (nat, A) -> seq<B>): seq<B>
    decreases |xs|
  {
    if xs == [] then [] else FiveBlocks(xs[..|xs| - 1], f) + f(|xs|, xs[|xs| - 1])
  }

  /** With every block five items long, items `5 * i` to `5 * i + 5` are the block of `xs[i]`. */
  lemma {:induction false} FiveBlocksAt<A, B>(xs: seq<A>, f: (nat, A) -> seq<B>, i: nat)
    requires i < |xs|
    requires forall j, x :: |f(j, x)| == 5
    ensures |FiveBlocks(xs, f)| == 5 * |xs|
    ensures FiveBlocks(xs, f)[5 * i..5 * i + 5] == f(i + 1, xs[i])
    decreases |xs|
  {
    var init := xs[..|xs| - 1];
    var b := FiveBlocks(init, f);
    var last := f(|xs|, xs[|xs| - 1]);
    if i < |init| {
      FiveBlocksAt(init, f, i);
      assert init[i] == xs[i];
      AppendSliceLeft(b, last, 5 * i, 5 * i + 5);
    } else {
      FiveBlocksLength(init, f);
      AppendSliceRight(b, last);
    }
  }

  /** With every block five items long, the blocks hold five items per element. */
  lemma {:induction false} FiveBlocksLength<A, B>(xs: seq<A>, f: (nat, A) -> seq<B>)
    requires forall j, x :: |f(j, x)| == 5
    ensures |FiveBlocks(xs, f)| == 5 * |xs|
    decreases |xs|
  {
    if xs != [] {
      FiveBlocksLength(xs[..|xs| - 1], f);
    }
  }

  /** The scan for the first item satisfying `p`, stopping there. */
  method ScanFirstWhere<T>(xs: seq<T>, p: T -> bool) returns (r: Option<int>)
    ensures r == FirstWhere(xs, p)
  {
    for i := 0 to |xs|
      invariant forall k :: 0 <= k < i ==> !p(xs[k])
    {
      if p(xs[i]) {
        FirstWhereIs(xs, p, i);
        return Some(i);
      }
    }
    FirstWhereNone(xs, p);
    return None;
  }

  /** No item satisfies `p`: nothing is found. */
  lemma FirstWhereNone<T>(xs: seq<T>, p: T -> bool)
    requires forall k :: 0 <= k < |xs| ==> !p(xs[k])
    ensures FirstWhere(xs, p) == None
  {
  }
}
