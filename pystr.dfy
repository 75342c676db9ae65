/**
 * The parts of Python's `str` that the pipeline relies on, stated over `seq<char>`:
 * `isspace`/`strip`, `startswith`/`endswith`, `find` and `in`, `lower` (ASCII letters),
 * `splitlines`, `split` on one character, `join`, `replace`, `count` and slicing.
 */
module PyStr {

  /** The characters for which Python's `str.isspace()` holds. */
  predicate IsSpace(c: char) {
    c == ' ' || c == '\t' || c == '\n' || c == '\r' || c == '\U{000B}' || c == '\U{000C}'
    || ('\U{001C}' <= c <= '\U{001F}') || c == '\U{0085}' || c == '\U{00A0}' || c == '\U{1680}'
    || ('\U{2000}' <= c <= '\U{200A}') || c == '\U{2028}' || c == '\U{2029}' || c == '\U{202F}'
    || c == '\U{205F}' || c == '\U{3000}'
  }

  /** The identity key: strings deduplicated on their own text. */
  function Itself(s: string): string { s }

  /** `not s.strip()`: the string is empty or all whitespace. */
  predicate IsBlank(s: string) {
    forall i :: 0 <= i < |s| ==> IsSpace(s[i])
  }

  /** No whitespace at either end: what `strip()` returns. */
  predicate IsStripped(s: string) {
    s == [] || (!IsSpace(s[0]) && !IsSpace(s[|s| - 1]))
  }

  function LStrip(s: string): (r: string)
    ensures |r| <= |s| && r == s[|s| - |r|..]
    ensures r == [] || !IsSpace(r[0])
    ensures forall i :: 0 <= i < |s| - |r| ==> IsSpace(s[i])
    decreases |s|
  {
    if s != [] && IsSpace(s[0]) then LStrip(s[1..]) else s
  }

  function RStrip(s: string): (r: string)
    ensures |r| <= |s| && r == s[..|r|]
    ensures r == [] || !IsSpace(r[|r| - 1])
    ensures forall i :: |r| <= i < |s| ==> IsSpace(s[i])
    decreases |s|
  {
    if s != [] && IsSpace(s[|s| - 1]) then RStrip(s[..|s| - 1]) else s
  }

  /** Python's `s.strip()`. */
  function Strip(s: string): (r: string)
    ensures IsStripped(r)
    ensures r == [] <==> IsBlank(s)
    ensures |r| <= |s|
  {
    StripBlank(s);
    RStrip(LStrip(s))
  }

  lemma StripBlank(s: string)
    ensures RStrip(LStrip(s)) == [] <==> IsBlank(s)
  {
    var l := LStrip(s);
    if RStrip(l) == [] {
      assert l == [];
    } else {
      assert !IsSpace(l[0]);
      assert s[|s| - |l|] == l[0];
    }
  }

  lemma StripOfStripped(s: string)
    requires IsStripped(s)
    ensures Strip(s) == s
  {
  }

  lemma StripIdempotent(s: string)
    ensures Strip(Strip(s)) == Strip(s)
  {
    StripOfStripped(Strip(s));
  }

  /** Stripping only removes characters: a character absent from `s` is absent from `strip(s)`. */
  lemma StripKeepsAbsent(s: string, c: char)
    requires forall j :: 0 <= j < |s| ==> s[j] != c
    ensures forall j :: 0 <= j < |Strip(s)| ==> Strip(s)[j] != c
  {
    var l := LStrip(s);
    var r := RStrip(l);
    forall j | 0 <= j < |r| ensures r[j] != c {
      assert r[j] == l[j] == s[|s| - |l| + j];
    }
  }

  /** Python's `s.lstrip(chars)` / `s.rstrip(chars)` / `s.strip(chars)` for an explicit set. */
  function LStripChars(s: string, chars: set<char>): (r: string)
    ensures |r| <= |s| && r == s[|s| - |r|..]
    ensures r == [] || r[0] !in chars
    decreases |s|
  {
    if s != [] && s[0] in chars then LStripChars(s[1..], chars) else s
  }

  function RStripChars(s: string, chars: set<char>): (r: string)
    ensures |r| <= |s| && r == s[..|r|]
    ensures r == [] || r[|r| - 1] !in chars
    decreases |s|
  {
    if s != [] && s[|s| - 1] in chars then RStripChars(s[..|s| - 1], chars) else s
  }

  function StripChars(s: string, chars: set<char>): (r: string)
    ensures |r| <= |s|
  {
    RStripChars(LStripChars(s, chars), chars)
  }

  /** Stripping `c` from a string framed by `c` on both sides, when the inside does not begin or end with `c`. */
  lemma StripCharsFramed(x: string, c: char)
    requires x != [] && x[0] != c && x[|x| - 1] != c
    ensures StripChars([c] + x + [c], {c}) == x
  {
    var s := [c] + x + [c];
    assert s[1..] == x + [c];
    assert LStripChars(s, {c}) == LStripChars(x + [c], {c}) == x + [c];
    assert (x + [c])[..|x|] == x;
    assert RStripChars(x + [c], {c}) == RStripChars(x, {c}) == x;
  }

  /** Text after a non-blank string survives `lstrip()` untouched. */
  lemma {:induction false} LStripAppend(x: string, t: string)
    requires !IsBlank(x)
    ensures LStrip(x + t) == LStrip(x) + t
    decreases |x|
  {
    if IsSpace(x[0]) {
      assert (x + t)[1..] == x[1..] + t;
      LStripAppend(x[1..], t);
    }
  }

  /** Padding with spaces does not change what `strip()` returns. */
  lemma StripPaddedAny(x: string)
    ensures Strip(" " + x + " ") == Strip(x)
  {
    var s := " " + x + " ";
    if IsBlank(x) {
      BlankConcat(" ", x);
      BlankConcat(" " + x, " ");
    } else {
      calc {
        Strip(s);
        RStrip(LStrip(s));
        { assert s[1..] == x + " "; }
        RStrip(LStrip(x + " "));
        { LStripAppend(x, " "); }
        RStrip(LStrip(x) + " ");
        { RStripSpace(LStrip(x)); }
        RStrip(LStrip(x));
      }
    }
  }

  /** Two blank strings make a blank string. */
  lemma BlankConcat(a: string, b: string)
    requires IsBlank(a) && IsBlank(b)
    ensures IsBlank(a + b)
  {
    forall i | 0 <= i < |a + b| ensures IsSpace((a + b)[i]) {
      if i >= |a| { assert (a + b)[i] == b[i - |a|]; }
    }
  }

  /** A trailing space is dropped by `rstrip()`. */
  lemma RStripSpace(y: string)
    ensures RStrip(y + " ") == RStrip(y)
  {
    assert (y + " ")[..|y|] == y;
  }

  /** Stripping a stripped string padded with one space on each side gives it back. */
  lemma StripPadded(x: string)
    requires IsStripped(x)
    ensures Strip(" " + x + " ") == x
  {
    var s := " " + x + " ";
    assert s[1..] == x + " ";
    if x == [] {
      assert LStrip(x + " ") == [];
    } else {
      assert LStrip(x + " ") == x + " ";
      assert (x + " ")[..|x|] == x;
    }
  }

  predicate StartsWith(s: string, p: string) {
    |p| <= |s| && s[..|p|] == p
  }

  predicate EndsWith(s: string, p: string) {
    |p| <= |s| && s[|s| - |p|..] == p
  }

  /** A string that opens with one non-empty stripped string and closes with another is stripped. */
  lemma FramedStripped(s: string, first: string, last: string)
    requires first != [] && IsStripped(first) && last != [] && IsStripped(last)
    requires StartsWith(s, first) && EndsWith(s, last)
    ensures IsStripped(s)
  {
    assert s[0] == s[..|first|][0] == first[0];
    assert s[|s| - 1] == s[|s| - |last|..][|last| - 1] == last[|last| - 1];
  }

  /** What a string ends with, followed by `t`, ends the string framed by `a` and `t`. */
  lemma EndsWithFrame(a: string, s: string, p: string, t: string)
    requires EndsWith(s, p)
    ensures EndsWith(a + s + t, p + t)
  {
    assert (a + s + t)[|a + s + t| - |p + t|..] == s[|s| - |p|..] + t;
  }

  /** A concatenation starts with its left part and ends with its right part. */
  lemma ConcatEnds(a: string, b: string)
    ensures StartsWith(a + b, a) && EndsWith(a + b, b)
  {
    assert (a + b)[..|a|] == a;
    assert (a + b)[|a + b| - |b|..] == b;
  }

  /** `sub` occurs in `s` at index `i`. */
  predicate IsAt(s: string, sub: string, i: int) {
    0 <= i && i + |sub| <= |s| && s[i..i + |sub|] == sub
  }

  /** Python's `s.find(sub, from)`: the least index at or after `from` where `sub` occurs, or -1. */
  function FindFrom(s: string, sub: string, from: nat): (r: int)
    ensures r == -1 || (from <= r && IsAt(s, sub, r))
    ensures r == -1 ==> forall i :: from <= i ==> !IsAt(s, sub, i)
    ensures r != -1 ==> forall i :: from <= i < r ==> !IsAt(s, sub, i)
    decreases |s| - from
  {
    if from + |sub| > |s| then -1
    else if s[from..from + |sub|] == sub then from
    else FindFrom(s, sub, from + 1)
  }

  function Find(s: string, sub: string): (r: int)
    ensures r == -1 || IsAt(s, sub, r)
    ensures r == -1 <==> forall i :: !IsAt(s, sub, i)
    ensures r != -1 ==> forall i :: 0 <= i < r ==> !IsAt(s, sub, i)
  {
    var r := FindFrom(s, sub, 0);
    assert forall i :: IsAt(s, sub, i) ==> 0 <= i;
    r
  }

  /** `find` returns the first occurrence. */
  lemma FindIsFirst(text: string, sub: string, i: int)
    requires IsAt(text, sub, i) && forall i' :: 0 <= i' < i ==> !IsAt(text, sub, i')
    ensures Find(text, sub) == i
  {
  }

  /** `find` from `from` gives -1 when nothing occurs at or after `from`. */
  lemma FindFromAbsent(s: string, sub: string, from: int)
    requires 0 <= from <= |s|
    requires forall j :: from <= j ==> !IsAt(s, sub, j)
    ensures FindFrom(s, sub, from) == -1
  {
  }

  /** Python's `sub in s`. */
  predicate Contains(s: string, sub: string) {
    Find(s, sub) != -1
  }

  lemma ContainsAt(s: string, sub: string, i: int)
    requires IsAt(s, sub, i)
    ensures Contains(s, sub)
  {
  }

  lemma ContainsPrefix(s: string, t: string, sub: string)
    requires Contains(s, sub)
    ensures Contains(s + t, sub)
  {
    var i := Find(s, sub);
    assert (s + t)[i..i + |sub|] == s[i..i + |sub|];
    ContainsAt(s + t, sub, i);
  }

  lemma ContainsSuffix(s: string, t: string, sub: string)
    requires Contains(t, sub)
    ensures Contains(s + t, sub)
  {
    var i := Find(t, sub);
    assert (s + t)[|s| + i..|s| + i + |sub|] == t[i..i + |sub|];
    ContainsAt(s + t, sub, |s| + i);
  }

  function LowerChar(c: char): char {
    if 'A' <= c <= 'Z' then (c as int + 32) as char else c
  }

  /** Python's `s.lower()` on ASCII letters. */
  function Lower(s: string): (r: string)
    ensures |r| == |s|
    ensures forall i :: 0 <= i < |s| ==> r[i] == LowerChar(s[i])
  {
    seq(|s|, i requires 0 <= i < |s| => LowerChar(s[i]))
  }

  /** The line boundaries of Python's `str.splitlines()` (`\r\n` counts as one). */
  predicate IsLineBreak(c: char) {
    c == '\n' || c == '\r' || c == '\U{000B}' || c == '\U{000C}' || c == '\U{001C}'
    || c == '\U{001D}' || c == '\U{001E}' || c == '\U{0085}' || c == '\U{2028}' || c == '\U{2029}'
  }

  /** The first line boundary at or after `from`, or `|s|`. */
  function LineEnd(s: string, from: nat): (r: nat)
    requires from <= |s|
    ensures from <= r <= |s|
    ensures r < |s| ==> IsLineBreak(s[r])
    ensures forall j :: from <= j < r ==> !IsLineBreak(s[j])
    decreases |s| - from
  {
    if from == |s| || IsLineBreak(s[from]) then from else LineEnd(s, from + 1)
  }

  predicate NoLineBreak(line: string) {
    forall j :: 0 <= j < |line| ==> !IsLineBreak(line[j])
  }

  /** Python's `s.splitlines()`: no trailing empty line, `""` gives no lines. */
  function SplitLines(s: string): (lines: seq<string>)
    ensures forall k :: 0 <= k < |lines| ==> NoLineBreak(lines[k])
    ensures |lines| <= |s|
    decreases |s|
  {
    if s == [] then []
    else
      var i := LineEnd(s, 0);
      if i == |s| then [s]
      else
        var next := if s[i] == '\r' && i + 1 < |s| && s[i + 1] == '\n' then i + 2 else i + 1;
        [s[..i]] + SplitLines(s[next..])
  }

  /** Python's `sep.join(parts)`. */
  function Join(sep: string, parts: seq<string>): (r: string)
    decreases |parts|
  {
    if |parts| == 0 then ""
    else if |parts| == 1 then parts[0]
    else parts[0] + sep + Join(sep, parts[1..])
  }

  lemma JoinThree(sep: string, x: string, y: string, z: string)
    ensures Join(sep, [x, y, z]) == x + sep + y + sep + z
  {
    assert [x, y, z][1..] == [y, z];
    assert [y, z][1..] == [z];
    assert Join(sep, [y, z]) == y + sep + z;
  }

  lemma JoinStartsWith(sep: string, parts: seq<string>)
    requires |parts| > 0
    ensures StartsWith(Join(sep, parts), parts[0])
  {
  }

  lemma {:induction false} JoinEndsWith(sep: string, parts: seq<string>)
    requires |parts| > 0
    ensures EndsWith(Join(sep, parts), parts[|parts| - 1])
    decreases |parts|
  {
    if |parts| > 1 {
      JoinEndsWith(sep, parts[1..]);
      var t := Join(sep, parts[1..]);
      assert Join(sep, parts) == (parts[0] + sep) + t;
    }
  }

  /** Joining a split-off tail: `join(a + b) == join(a) + sep + join(b)` for non-empty parts lists. */
  lemma {:induction false} JoinAppend(sep: string, a: seq<string>, b: seq<string>)
    requires |a| > 0 && |b| > 0
    ensures Join(sep, a + b) == Join(sep, a) + sep + Join(sep, b)
    decreases |a|
  {
    if |a| == 1 {
      assert (a + b)[1..] == b;
    } else {
      assert (a + b)[1..] == a[1..] + b;
      JoinAppend(sep, a[1..], b);
    }
  }

  /** Every part occurs in the joined string. */
  lemma {:induction false} JoinContains(sep: string, parts: seq<string>, k: nat)
    requires k < |parts|
    ensures Contains(Join(sep, parts), parts[k])
    decreases k
  {
    if k == 0 {
      JoinStartsWith(sep, parts);
      ContainsAt(Join(sep, parts), parts[0], 0);
    } else {
      JoinContains(sep, parts[1..], k - 1);
      assert Join(sep, parts) == (parts[0] + sep) + Join(sep, parts[1..]);
      ContainsSuffix(parts[0] + sep, Join(sep, parts[1..]), parts[k]);
    }
  }

  /** Python's `s.replace(a, b)` for single characters. */
  function ReplaceChar(s: string, a: char, b: char): (r: string)
    ensures |r| == |s|
    ensures forall i :: 0 <= i < |s| ==> r[i] == (if s[i] == a then b else s[i])
  {
    seq(|s|, i requires 0 <= i < |s| => if s[i] == a then b else s[i])
  }

  /** Python's `s.count(c)` for one character. */
  function Count(s: string, c: char): (n: nat)
    ensures n <= |s|
    decreases |s|
  {
    if s == [] then 0 else Count(s[..|s| - 1], c) + (if s[|s| - 1] == c then 1 else 0)
  }

  lemma {:induction false} CountMonotone(s: string, c: char, i: nat, j: nat)
    requires i <= j <= |s|
    ensures Count(s[..i], c) <= Count(s[..j], c)
    decreases j - i
  {
    if i < j {
      CountMonotone(s, c, i, j - 1);
      assert s[..j][..j - 1] == s[..j - 1];
    }
  }

  /** Python's `s[:n]` for `n >= 0`. */
  function Take<T>(s: seq<T>, n: nat): (r: seq<T>)
    ensures |r| <= n && |r| <= |s|
    ensures r == s[..|r|]
    ensures |r| == n || r == s
  {
    if n <= |s| then s[..n] else s
  }

  /** Python's `s[:i]` for any integer `i` (a negative `i` counts from the end). */
  function SliceTo<T>(s: seq<T>, i: int): (r: seq<T>)
    ensures |r| <= |s| && r == s[..|r|]
  {
    if i >= 0 then Take(s, i) else if -i <= |s| then s[..|s| + i] else []
  }

  /** Python's `s.split(c)` for one separator character. */
  function SplitOn(s: string, c: char): (parts: seq<string>)
    ensures |parts| >= 1
    ensures forall k :: 0 <= k < |parts| ==> c !in parts[k]
    decreases |s|
  {
    if c in s then
      var i := IndexOfChar(s, c);
      [s[..i]] + SplitOn(s[i + 1..], c)
    else [s]
  }

  /** Splitting at the first separator: the part before it, then the split of the rest. */
  lemma SplitOnFirst(a: string, c: char, b: string)
    requires c !in a
    ensures SplitOn(a + [c] + b, c) == [a] + SplitOn(b, c)
  {
    var s := a + [c] + b;
    assert s[|a|] == c;
    assert s[..|a|] == a && s[|a| + 1..] == b;
  }

  function IndexOfChar(s: string, c: char): (i: nat)
    requires c in s
    ensures i < |s| && s[i] == c && c !in s[..i]
  {
    if s[0] == c then 0 else
      assert c in s[1..] by { var k :| 0 <= k < |s| && s[k] == c; assert s[1..][k - 1] == c; }
      1 + IndexOfChar(s[1..], c)
  }

  /** Python's `s.rfind(c)` for one character: the last index holding `c`, or -1. */
  function RFindChar(s: string, c: char): (i: int)
    ensures -1 <= i < |s|
    ensures i >= 0 ==> s[i] == c
    ensures forall j :: i < j < |s| ==> s[j] != c
    decreases |s|
  {
    if s == [] then -1
    else if s[|s| - 1] == c then |s| - 1
    else RFindChar(s[..|s| - 1], c)
  }

  function DigitChar(d: nat): char
    requires d < 10
  {
    (48 + d) as char
  }

  /** Python's `str(n)` for a natural number. */
  function NatToString(n: nat): (r: string)
    ensures r != []
    ensures forall i :: 0 <= i < |r| ==> '0' <= r[i] <= '9'
    decreases n
  {
    if n < 10 then [DigitChar(n)] else NatToString(n / 10) + [DigitChar(n % 10)]
  }

  lemma NatToStringOneDigit(n: nat)
    ensures |NatToString(n)| == 1 <==> n < 10
  {
    if n >= 10 { assert |NatToString(n / 10)| >= 1; }
  }

  lemma {:induction false} NatToStringInjective(a: nat, b: nat)
    requires NatToString(a) == NatToString(b)
    ensures a == b
    decreases a
  {
    NatToStringOneDigit(a);
    NatToStringOneDigit(b);
    var s := NatToString(a);
    if a >= 10 {
      assert NatToString(a / 10) == s[..|s| - 1] == NatToString(b / 10);
      NatToStringInjective(a / 10, b / 10);
      assert DigitChar(a % 10) == s[|s| - 1] == DigitChar(b % 10);
    }
  }
}
