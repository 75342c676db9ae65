/**
 * The text side of the strict top-5 risks writer: `_clean`, the `R-###: title` scanner, the
 * Severity / Impact / Mitigation label matchers tried inside a 600-character window, and
 * `_risk_order_key`. The regular expressions are hand-coded for their fixed patterns, with
 * Python's `re` semantics for greedy `\s*` and the backtracking of the captured group.
 */
module Top5Fields {
  import opened Wrappers
  import opened PyStr

  const NotFound: string := "Not found in sources"

  /** Characters after the start of an id match in which the fields are searched. */
  const WindowSize: int := 600

  /**
   * The class `[-â€¢]` of `_clean` as the source file spells it: "-", and the three characters
   * U+00E2, U+20AC, U+00A2 that the UTF-8 bytes of a bullet become when read as cp1252.
   */
  predicate IsBulletMark(c: char) {
    c == '-' || c == '\U{00E2}' || c == '\U{20AC}' || c == '\U{00A2}'
  }

  /** A `*` at `i` followed by another. */
  predicate StarPairAt(s: string, i: int)
    requires 0 <= i < |s| - 1
  {
    s[i] == '*' && s[i + 1] == '*'
  }

  /** No two adjacent `*` anywhere in `s`. */
  predicate NoStarPair(s: string) {
    forall i :: 0 <= i < |s| - 1 ==> !StarPairAt(s, i)
  }

  /** `s.replace("**", "")`: pairs of stars removed left to right. */
  function DropStarPairs(s: string): (r: string)
    ensures |r| <= |s|
    decreases |s|
  {
    if |s| >= 2 && s[0] == '*' && s[1] == '*' then DropStarPairs(s[2..])
    else if s == [] then []
    else [s[0]] + DropStarPairs(s[1..])
  }

  /** `replace("**", "")` leaves no pair of stars behind, and changes nothing in a string without one. */
  lemma {:induction false} DropStarPairsFacts(s: string)
    ensures NoStarPair(DropStarPairs(s))
    ensures NoStarPair(s) ==> DropStarPairs(s) == s
    decreases |s|
  {
    if |s| >= 2 && s[0] == '*' && s[1] == '*' {
      DropStarPairsFacts(s[2..]);
      assert StarPairAt(s, 0);
    } else if s != [] {
      var rest := DropStarPairs(s[1..]);
      DropStarPairsFacts(s[1..]);
      var r := [s[0]] + rest;
      forall i | 0 <= i < |r| - 1 ensures !StarPairAt(r, i) {
        if i == 0 {
          assert r[0] == s[0] && r[1] == rest[0];
          if s[0] == '*' {
            assert rest == [s[1]] + DropStarPairs(s[2..]);
          }
        } else {
          assert !StarPairAt(rest, i - 1);
          assert r[i] == rest[i - 1] && r[i + 1] == rest[i];
        }
      }
      if NoStarPair(s) {
        assert NoStarPair(s[1..]) by {
          forall i | 0 <= i < |s[1..]| - 1 ensures !StarPairAt(s[1..], i) {
            assert !StarPairAt(s, i + 1);
            assert s[1..][i] == s[i + 1] && s[1..][i + 1] == s[i + 2];
          }
        }
      }
    }
  }

  /**
   * `_clean(s)`: "" for "", otherwise stripped, one leading bullet mark and the whitespace after
   * it removed, every "**" removed, stripped again.
   */
  function Clean(s: string): string {
    if s == "" then ""
    else
      var t := Strip(s);
      var u := if t != "" && IsBulletMark(t[0]) then LStrip(t[1..]) else t;
      Strip(DropStarPairs(u))
  }

  /** Stripping keeps a string free of "**". */
  lemma StripNoStarPair(d: string)
    requires NoStarPair(d)
    ensures NoStarPair(Strip(d))
  {
    var l := LStrip(d);
    SliceNoStarPair(d, |d| - |l|, |d|);
    assert l == d[|d| - |l|..|d|];
    SliceNoStarPair(l, 0, |RStrip(l)|);
    assert Strip(d) == RStrip(l) == l[..|RStrip(l)|];
  }

  /** A slice of a string free of "**" is free of it too. */
  lemma SliceNoStarPair(d: string, a: int, b: int)
    requires 0 <= a <= b <= |d| && NoStarPair(d)
    ensures NoStarPair(d[a..b])
  {
    var r := d[a..b];
    forall i | 0 <= i < |r| - 1 ensures !StarPairAt(r, i) {
      assert !StarPairAt(d, a + i);
      assert r[i] == d[a + i] && r[i + 1] == d[a + i + 1];
    }
  }

  /** A cleaned string is stripped and holds no "**"; blank text cleans to "". */
  lemma CleanFacts(s: string)
    ensures IsStripped(Clean(s)) && NoStarPair(Clean(s))
    ensures IsBlank(s) ==> Clean(s) == ""
  {
    if s != "" {
      var t := Strip(s);
      var u := if t != "" && IsBulletMark(t[0]) then LStrip(t[1..]) else t;
      DropStarPairsFacts(u);
      StripNoStarPair(DropStarPairs(u));
    }
  }

  /** Stripped text that neither opens with a bullet mark nor holds "**" is left as it is. */
  lemma CleanKeepsClean(s: string)
    requires IsStripped(s) && NoStarPair(s)
    requires s == "" || !IsBulletMark(s[0])
    ensures Clean(s) == s
  {
    if s != "" {
      StripOfStripped(s);
      DropStarPairsFacts(s);
    }
  }

  predicate IsDigit(c: char) {
    '0' <= c <= '9'
  }

  /** A character of `\w`, on ASCII. */
  predicate IsWordChar(c: char) {
    'a' <= c <= 'z' || 'A' <= c <= 'Z' || IsDigit(c) || c == '_'
  }

  /** Where the greedy `\s*` starting at `i` stops. */
  function SkipSpace(text: string, i: int): (j: int)
    requires 0 <= i <= |text|
    ensures i <= j <= |text|
    ensures forall k :: i <= k < j ==> IsSpace(text[k])
    ensures j == |text| || !IsSpace(text[j])
    decreases |text| - i
  {
    if i < |text| && IsSpace(text[i]) then SkipSpace(text, i + 1) else i
  }

  /** Where a greedy run of characters outside `stops` starting at `i` stops. */
  function RunEnd(text: string, i: int, stops: set<char>): (j: int)
    requires 0 <= i <= |text|
    ensures i <= j <= |text|
    ensures forall k :: i <= k < j ==> text[k] !in stops
    ensures j == |text| || text[j] in stops
    decreases |text| - i
  {
    if i < |text| && text[i] !in stops then RunEnd(text, i + 1, stops) else i
  }

  /** The last position in `[lo, hi)` whose character is outside `stops`, or -1. */
  function LastOutside(text: string, lo: int, hi: int, stops: set<char>): (k: int)
    requires 0 <= lo <= hi <= |text|
    ensures k == -1 || (lo <= k < hi && text[k] !in stops)
    ensures forall j :: k < j < hi && lo <= j ==> text[j] in stops
    decreases hi - lo
  {
    if lo == hi then -1 else if text[hi - 1] !in stops then hi - 1 else LastOutside(text, lo, hi - 1, stops)
  }

  /**
   * The span captured by `\s*([^stops]+)` from position `q` (`stops` are line breaks, so
   * whitespace): after the longest whitespace run when a character follows it; when the run
   * reaches the end of the text, the backtracking leaves the run's last character outside
   * `stops` alone in the group; none when there is no such character.
   */
  function TailGroup(text: string, q: int, stops: set<char>): (g: Option<(int, int)>)
    requires 0 <= q <= |text|
    requires forall c :: c in stops ==> IsSpace(c)
    ensures g.Some? ==> q <= g.value.0 < g.value.1 <= |text|
    ensures g.Some? ==> forall k :: g.value.0 <= k < g.value.1 ==> text[k] !in stops
  {
    var r := SkipSpace(text, q);
    if r < |text| then Some((r, RunEnd(text, r, stops)))
    else
      var k := LastOutside(text, q, r, stops);
      if k < 0 then None else Some((k, k + 1))
  }

  const LineBreaks: set<char> := {'\n', '\r'}
  const NewLine: set<char> := {'\n'}

  /**
   * `RISK_ID_RE` tried at position `p`: a word boundary, "R-" and three digits, `\s*:`, then the
   * title group up to the next line break. The span of the title.
   */
  function RiskAt(text: string, p: int): (g: Option<(int, int)>)
    requires 0 <= p <= |text|
    ensures g.Some? ==> p + 6 <= g.value.0 < g.value.1 <= |text|
    ensures g.Some? ==> text[p] == 'R' && text[p + 1] == '-' && IsDigit(text[p + 2]) && IsDigit(text[p + 3]) && IsDigit(text[p + 4])
    ensures g.Some? ==> p == 0 || !IsWordChar(text[p - 1])
    ensures g.Some? ==> forall k :: g.value.0 <= k < g.value.1 ==> text[k] != '\n' && text[k] != '\r'
  {
    if p + 5 <= |text| && (p == 0 || !IsWordChar(text[p - 1])) && text[p] == 'R' && text[p + 1] == '-' &&
       IsDigit(text[p + 2]) && IsDigit(text[p + 3]) && IsDigit(text[p + 4])
    then
      var c := SkipSpace(text, p + 5);
      if c < |text| && text[c] == ':' then TailGroup(text, c + 1, LineBreaks) else None
    else None
  }

  /** One match of `RISK_ID_RE`: where it starts, the id, and the raw title group. */
  datatype RiskMatch = RiskMatch(start: int, rid: string, title: string)

  /** `RISK_ID_RE.finditer(text)` from position `from`: matches never overlap, the scan resumes where a match ends. */
  function RiskMatchesFrom(text: string, from: int): (ms: seq<RiskMatch>)
    requires 0 <= from <= |text|
    ensures forall k :: 0 <= k < |ms| ==> from <= ms[k].start < |text| && |ms[k].rid| == 5
    decreases |text| - from
  {
    if from == |text| then []
    else
      match RiskAt(text, from)
      case Some(span) => [RiskMatch(from, text[from..from + 5], text[span.0..span.1])] + RiskMatchesFrom(text, span.1)
      case None => RiskMatchesFrom(text, from + 1)
  }

  function RiskMatches(text: string): seq<RiskMatch> {
    RiskMatchesFrom(text, 0)
  }

  /**
   * What every match satisfies: its id is "R-" and three digits read at its start, preceded by
   * no word character, and its title is a non-empty line-break-free stretch of the text after it.
   */
  predicate SoundMatch(text: string, m: RiskMatch) {
    0 <= m.start && m.start + 5 <= |text| && m.rid == text[m.start..m.start + 5] &&
    m.rid[0] == 'R' && m.rid[1] == '-' && IsDigit(m.rid[2]) && IsDigit(m.rid[3]) && IsDigit(m.rid[4]) &&
    (m.start == 0 || !IsWordChar(text[m.start - 1])) &&
    m.title != "" && '\n' !in m.title && '\r' !in m.title
  }

  /** Every match `RISK_ID_RE.finditer` reports is sound. */
  lemma {:induction false} RiskMatchesSound(text: string, from: int)
    requires 0 <= from <= |text|
    ensures forall m :: m in RiskMatchesFrom(text, from) ==> SoundMatch(text, m)
    decreases |text| - from
  {
    if from < |text| {
      match RiskAt(text, from)
      case Some(span) =>
        RiskMatchesSound(text, span.1);
        HeadMatchSound(text, from, span);
      case None =>
        RiskMatchesSound(text, from + 1);
    }
  }

  /** The match found at `from` is sound. */
  lemma HeadMatchSound(text: string, from: int, span: (int, int))
    requires 0 <= from <= |text| && RiskAt(text, from) == Some(span)
    ensures SoundMatch(text, RiskMatch(from, text[from..from + 5], text[span.0..span.1]))
  {
    var t := text[span.0..span.1];
    assert forall k :: 0 <= k < |t| ==> t[k] == text[span.0 + k];
  }

  /**
   * A label regex (`(?:Severity|SEVERITY)\s*[:\-]\s*(.+)` with IGNORECASE, or its `\*\*Severity\*\*`
   * form) tried at position `p`, its name given lower-case: the span of the value group, which
   * runs to the end of the line.
   */
  function LabelAt(text: string, p: int, name: string): (g: Option<(int, int)>)
    requires 0 <= p <= |text|
    ensures g.Some? ==> p + |name| < g.value.0 < g.value.1 <= |text|
    ensures g.Some? ==> Lower(text[p..p + |name|]) == name
    ensures g.Some? ==> forall k :: g.value.0 <= k < g.value.1 ==> text[k] != '\n'
  {
    if p + |name| <= |text| && Lower(text[p..p + |name|]) == name then
      var c := SkipSpace(text, p + |name|);
      if c < |text| && (text[c] == ':' || text[c] == '-') then TailGroup(text, c + 1, NewLine) else None
    else None
  }

  /** `regex.search(text)` for a label regex, from position `from`: the value group of the leftmost match. */
  function SearchLabel(text: string, name: string, from: int): (g: Option<string>)
    requires 0 <= from <= |text|
    ensures g.Some? ==> g.value != "" && '\n' !in g.value
    decreases |text| - from
  {
    if from == |text| then None
    else
      match LabelAt(text, from, name)
      case Some(span) =>
        var v := text[span.0..span.1];
        assert forall k :: 0 <= k < |v| ==> v[k] == text[span.0 + k];
        Some(v)
      case None => SearchLabel(text, name, from + 1)
  }

  /** The leftmost match is the one found: no earlier position matches. */
  lemma {:induction false} SearchLabelLeftmost(text: string, name: string, from: int, p: int)
    requires 0 <= from <= p < |text| && LabelAt(text, p, name).Some?
    requires forall j :: from <= j < p ==> LabelAt(text, j, name).None?
    ensures SearchLabel(text, name, from) == Some(text[LabelAt(text, p, name).value.0..LabelAt(text, p, name).value.1])
    decreases p - from
  {
    if from < p {
      SearchLabelLeftmost(text, name, from + 1, p);
    }
  }

  /** A label that occurs nowhere is not found. */
  lemma {:induction false} SearchLabelAbsent(text: string, name: string, from: int)
    requires 0 <= from <= |text|
    requires forall j :: from <= j < |text| ==> LabelAt(text, j, name).None?
    ensures SearchLabel(text, name, from) == None
    decreases |text| - from
  {
    if from < |text| {
      SearchLabelAbsent(text, name, from + 1);
    }
  }

  /** The three labels, lower-case, each with its bold `**label**` form. */
  const SeverityLabel: string := "severity"
  const ImpactLabel: string := "impact"
  const MitigationLabel: string := "mitigation"

  function Bold(name: string): string {
    "**" + name + "**"
  }

  /** The cleaned value group of a label regex's first match in the window, or "" when it does not match. */
  function CleanedMatch(window: string, name: string): string {
    match SearchLabel(window, name, 0)
    case Some(v) => Clean(v)
    case None => ""
  }

  /** One field of `_extract_fields_from_window`: the plain label's value, or, when that is "", the bold label's. */
  function FieldOf(window: string, name: string): (f: string)
    ensures IsStripped(f) && NoStarPair(f)
  {
    var plain := CleanedMatch(window, name);
    CleanedMatchFacts(window, name);
    CleanedMatchFacts(window, Bold(name));
    if plain != "" then plain else CleanedMatch(window, Bold(name))
  }

  lemma CleanedMatchFacts(window: string, name: string)
    ensures IsStripped(CleanedMatch(window, name)) && NoStarPair(CleanedMatch(window, name))
  {
    match SearchLabel(window, name, 0)
    case Some(v) => CleanFacts(v);
    case None =>
  }

  datatype Fields = Fields(severity: string, impact: string, mitigation: string)

  /** `_extract_fields_from_window(window)`. */
  function WindowFields(window: string): Fields {
    Fields(FieldOf(window, SeverityLabel), FieldOf(window, ImpactLabel), FieldOf(window, MitigationLabel))
  }

  /** One `regex.search(window)` and, when it matches, `_clean` of its group. */
  method SearchAndClean(window: string, name: string) returns (v: string, found: bool)
    ensures found <==> SearchLabel(window, name, 0).Some?
    ensures v == CleanedMatch(window, name)
  {
    var m := SearchLabel(window, name, 0);
    found := m.Some?;
    v := if found then Clean(m.value) else "";
  }

  /** `_extract_fields_from_window`, its three locals updated step by step. */
  method ExtractFieldsFromWindow(window: string) returns (severity: string, impact: string, mitigation: string)
    ensures Fields(severity, impact, mitigation) == WindowFields(window)
  {
    severity, impact, mitigation := "", "", "";
    var v, found := SearchAndClean(window, SeverityLabel);
    if found {
      severity := v;
    }
    v, found := SearchAndClean(window, ImpactLabel);
    if found {
      impact := v;
    }
    v, found := SearchAndClean(window, MitigationLabel);
    if found {
      mitigation := v;
    }
    if severity == "" {
      v, found := SearchAndClean(window, Bold(SeverityLabel));
      if found {
        severity := v;
      }
    }
    if impact == "" {
      v, found := SearchAndClean(window, Bold(ImpactLabel));
      if found {
        impact := v;
      }
    }
    if mitigation == "" {
      v, found := SearchAndClean(window, Bold(MitigationLabel));
      if found {
        mitigation := v;
      }
    }
  }

  /**
   * A field is the plain label's cleaned value whenever that is not empty, and the bold label's
   * only when it is; either way it is stripped and free of "**", and it is "" when neither
   * label occurs in the window.
   */
  lemma FieldOfPrefersPlain(window: string, name: string)
    ensures CleanedMatch(window, name) != "" ==> FieldOf(window, name) == CleanedMatch(window, name)
    ensures CleanedMatch(window, name) == "" ==> FieldOf(window, name) == CleanedMatch(window, Bold(name))
    ensures SearchLabel(window, name, 0).None? && SearchLabel(window, Bold(name), 0).None? ==> FieldOf(window, name) == ""
  {
  }

  /** The window of a match at `start`: `text[start:start + 600]`. */
  function Window(text: string, start: int): (w: string)
    requires 0 <= start <= |text|
    ensures start + |w| <= |text| && |w| <= WindowSize && w == text[start..start + |w|]
    ensures |w| == WindowSize || start + |w| == |text|
  {
    if start + WindowSize <= |text| then text[start..start + WindowSize] else text[start..]
  }

  /** The value of three decimal digits. */
  function DigitsValue(a: char, b: char, c: char): int
    requires IsDigit(a) && IsDigit(b) && IsDigit(c)
  {
    (a as int - '0' as int) * 100 + (b as int - '0' as int) * 10 + (c as int - '0' as int)
  }

  /** `re.search(r"R-(\d{3})", rid)` from position `p`: the first "R-" and three digits. */
  function OrderKeyFrom(rid: string, p: int): (k: int)
    requires 0 <= p <= |rid|
    ensures 0 <= k <= 9999
    decreases |rid| - p
  {
    if p + 5 > |rid| then 9999
    else if rid[p] == 'R' && rid[p + 1] == '-' && IsDigit(rid[p + 2]) && IsDigit(rid[p + 3]) && IsDigit(rid[p + 4]) then
      DigitsValue(rid[p + 2], rid[p + 3], rid[p + 4])
    else OrderKeyFrom(rid, p + 1)
  }

  /** `_risk_order_key(rid)`: the number after the first "R-" with three digits, or 9999. */
  function OrderKey(rid: string): int {
    OrderKeyFrom(rid, 0)
  }

  /** An id as the scanner reads it, "R-" and three digits. */
  predicate IsRiskId(rid: string) {
    |rid| == 5 && rid[0] == 'R' && rid[1] == '-' && IsDigit(rid[2]) && IsDigit(rid[3]) && IsDigit(rid[4])
  }

  /** The order key of a scanned id is its number, below 1000, and different ids have different keys. */
  lemma OrderKeyOfRiskId(a: string, b: string)
    requires IsRiskId(a) && IsRiskId(b)
    ensures OrderKey(a) == DigitsValue(a[2], a[3], a[4]) && 0 <= OrderKey(a) < 1000
    ensures OrderKey(a) == OrderKey(b) ==> a == b
  {
    assert OrderKey(a) == DigitsValue(a[2], a[3], a[4]);
    assert OrderKey(b) == DigitsValue(b[2], b[3], b[4]);
    if OrderKey(a) == OrderKey(b) {
      DigitsValueInjective(a[2], a[3], a[4], b[2], b[3], b[4]);
      assert a == [a[0], a[1], a[2], a[3], a[4]];
      assert b == [b[0], b[1], b[2], b[3], b[4]];
    }
  }

  /** Three digits are read back from their value. */
  lemma DigitsValueInjective(a1: char, b1: char, c1: char, a2: char, b2: char, c2: char)
    requires IsDigit(a1) && IsDigit(b1) && IsDigit(c1) && IsDigit(a2) && IsDigit(b2) && IsDigit(c2)
    requires DigitsValue(a1, b1, c1) == DigitsValue(a2, b2, c2)
    ensures a1 == a2 && b1 == b2 && c1 == c2
  {
    var x1, y1, z1 := a1 as int - '0' as int, b1 as int - '0' as int, c1 as int - '0' as int;
    var x2, y2, z2 := a2 as int - '0' as int, b2 as int - '0' as int, c2 as int - '0' as int;
    assert 100 * x1 + 10 * y1 + z1 == 100 * x2 + 10 * y2 + z2;
    assert x1 == x2;
    assert y1 == y2;
  }
}
