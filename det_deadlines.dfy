/**
 * The deterministic writer for extract_deadlines_and_owners: the rows of the Markdown action
 * items table found in action_items.md evidence that name an owner and a due date, deduplicated,
 * laid out as a table with a Citations section.
 */
module DeterministicDeadlines {
  import opened Wrappers
  import opened PyStr
  import opened Seqs
  import opened SharedState
  import DeterministicCompare

  const ActionItemsDoc: string := "doc:action_items.md"

  /** One parsed table row and the citation it is rendered with. */
  datatype ActionRow = ActionRow(priority: string, item: string, owner: string, dueDate: string, status: string,
                                 cite: string)

  /** The deduplication key `(priority, item, owner, due_date)`. */
  function RowKey(r: ActionRow): (string, string, string, string) {
    (r.priority, r.item, r.owner, r.dueDate)
  }

  /**
   * `_first_source_id(note)`: the same rule as `_pick_source_id` of the compare writer, the first
   * citation's stripped source id when it is not blank.
   */
  function FirstSourceId(n: ResearchNote): (r: Option<string>)
    ensures r.Some? <==> n.citations != [] && !IsBlank(n.citations[0].sourceId)
    ensures r.Some? ==> r.value != "" && IsStripped(r.value) && r.value == Strip(n.citations[0].sourceId)
    ensures r == DeterministicCompare.PickSourceId(n)
  {
    DeterministicCompare.PickSourceId(n)
  }

  /** The note's first source id, lower-cased, names action_items.md. */
  predicate FromActionItems(n: ResearchNote) {
    Contains(Lower(FirstSourceId(n).GetOr("")), ActionItemsDoc)
  }

  /** The citation every row of the note carries: its first source id, or "doc:action_items.md". */
  function CiteOf(n: ResearchNote): (c: string)
    ensures c != "" && IsStripped(c)
  {
    assert ActionItemsDoc[0] == 'd' && ActionItemsDoc[|ActionItemsDoc| - 1] == 'd';
    FirstSourceId(n).GetOr(ActionItemsDoc)
  }

  /** What one line of the claim contributes to `table_lines`: itself stripped, when it starts and ends with "|". */
  function TableLine(raw: string): (t: Option<string>)
    ensures t.Some? ==> t.value == Strip(raw) && IsTableText(t.value)
  {
    var ln := Strip(raw);
    if ln != "" && StartsWith(ln, "|") && EndsWith(ln, "|") then Some(ln) else None
  }

  /** A table line: non-empty, stripped, opening and closing with "|". */
  predicate IsTableText(ln: string) {
    ln != "" && IsStripped(ln) && ln[0] == '|' && ln[|ln| - 1] == '|'
  }

  /** `table_lines`: the stripped non-blank lines that start and end with "|", in order. */
  function TableLines(text: string): seq<string> {
    FilterMap(SplitLines(text), TableLine)
  }

  /** `[c.strip() for c in ln.strip("|").split("|")]`. */
  function Cells(ln: string): (cols: seq<string>)
    ensures |cols| >= 1
    ensures var parts := SplitOn(StripChars(ln, {'|'}), '|');
            |cols| == |parts| && forall k :: 0 <= k < |cols| ==> cols[k] == Strip(parts[k])
    ensures forall k :: 0 <= k < |cols| ==> IsStripped(cols[k]) && '|' !in cols[k]
  {
    var parts := SplitOn(StripChars(ln, {'|'}), '|');
    var cols := StripEach(parts);
    forall k | 0 <= k < |cols| ensures '|' !in cols[k] {
      StripKeepsAbsent(parts[k], '|');
    }
    cols
  }

  /** Every part stripped, in order. */
  function StripEach(parts: seq<string>): (cols: seq<string>)
    ensures |cols| == |parts| && forall k :: 0 <= k < |cols| ==> cols[k] == Strip(parts[k])
  {
    seq(|parts|, i requires 0 <= i < |parts| => Strip(parts[i]))
  }

  /** The row a data line gives: its first five cells and `cite`, when it has five cells and names an owner and a due date. */
  function RowOf(ln: string, cite: string): Option<ActionRow> {
    var cols := Cells(ln);
    if |cols| < 5 then None
    else if cols[2] == "" || cols[3] == "" then None
    else Some(ActionRow(cols[0], cols[1], cols[2], cols[3], cols[4], cite))
  }

  /** `RowOf` with its citation fixed, as the function the data lines are filtered through. */
  function RowParser(cite: string): string -> Option<ActionRow> {
    ln => RowOf(ln, cite)
  }

  /** The rows of a table's data lines, after the header and the separator; none with fewer than three lines. */
  function DataRows(table: seq<string>, cite: string): seq<ActionRow> {
    if |table| < 3 then [] else FilterMap(table[2..], RowParser(cite))
  }

  /** The rows one note contributes: those of its table when it is an action_items.md note with a non-blank claim. */
  function NoteRows(n: ResearchNote): seq<ActionRow> {
    if !FromActionItems(n) then []
    else
      var text := Strip(n.claim);
      if text == "" then [] else DataRows(TableLines(text), CiteOf(n))
  }

  /** `rows` after the loop over the notes: each note's rows in turn. */
  function Rows(notes: seq<ResearchNote>): seq<ActionRow>
    decreases |notes|
  {
    if notes == [] then [] else Rows(notes[..|notes| - 1]) + NoteRows(notes[|notes| - 1])
  }

  /** `_parse_action_items_table_from_action_items_md`: the rows, first occurrence of each key kept. */
  function ParseActionItems(notes: seq<ResearchNote>): seq<ActionRow> {
    DistinctBy(Rows(notes), RowKey, {})
  }

  /** The body of the inner loop for one data line. */
  method RowOfLine(ln: string, cite: string) returns (r: Option<ActionRow>)
    ensures r == RowOf(ln, cite)
  {
    var cols := Cells(ln);
    if |cols| < 5 {
      return None;
    }
    var priority, item, owner, dueDate, status := cols[0], cols[1], cols[2], cols[3], cols[4];
    if owner == "" || dueDate == "" {
      return None;
    }
    return Some(ActionRow(priority, item, owner, dueDate, status, cite));
  }

  /** The inner loop: the rows of the data lines, in order. */
  method DataLineRows(dataLines: seq<string>, cite: string) returns (rows: seq<ActionRow>)
    ensures rows == FilterMap(dataLines, RowParser(cite))
  {
    rows := [];
    for i := 0 to |dataLines|
      invariant rows == FilterMap(dataLines[..i], RowParser(cite))
    {
      FilterMapSnoc(dataLines, RowParser(cite), i);
      var r := RowOfLine(dataLines[i], cite);
      if r.Some? {
        rows := rows + [r.value];
      }
    }
    assert dataLines[..|dataLines|] == dataLines;
  }

  /** The body of the outer loop for one note. */
  method NoteRowsOf(n: ResearchNote) returns (rows: seq<ActionRow>)
    ensures rows == NoteRows(n)
  {
    if !FromActionItems(n) {
      return [];
    }
    var text := Strip(n.claim);
    if text == "" {
      return [];
    }
    rows := TableRows(TableLines(text), CiteOf(n));
  }

  /** The part of the outer loop body after `table_lines` is known: nothing below three lines, else the data rows. */
  method TableRows(tableLines: seq<string>, cite: string) returns (rows: seq<ActionRow>)
    ensures rows == DataRows(tableLines, cite)
  {
    if |tableLines| < 3 {
      return [];
    }
    rows := DataLineRows(tableLines[2..], cite);
  }

  /** The outer loop: `rows` over all the notes. */
  method CollectRows(notes: seq<ResearchNote>) returns (rows: seq<ActionRow>)
    ensures rows == Rows(notes)
  {
    rows := [];
    for i := 0 to |notes|
      invariant rows == Rows(notes[..i])
    {
      assert notes[..i + 1][..i] == notes[..i];
      var more := NoteRowsOf(notes[i]);
      rows := rows + more;
    }
    assert notes[..|notes|] == notes;
  }

  /** The deduplication loop, with its `seen` set of keys and its `out` list. */
  method DedupeRows(rows: seq<ActionRow>) returns (out: seq<ActionRow>)
    ensures out == DistinctBy(rows, RowKey, {})
  {
    var seen: set<(string, string, string, string)> := {};
    out := [];
    for i := 0 to |rows|
      invariant out + DistinctBy(rows[i..], RowKey, seen) == DistinctBy(rows, RowKey, {})
    {
      assert rows[i..][1..] == rows[i + 1..];
      var key := RowKey(rows[i]);
      if key in seen {
        continue;
      }
      seen := seen + {key};
      out := out + [rows[i]];
    }
  }

  /** `_parse_action_items_table_from_action_items_md(notes)`. */
  method ParseActionItemsTable(notes: seq<ResearchNote>) returns (out: seq<ActionRow>)
    ensures out == ParseActionItems(notes)
  {
    var rows := CollectRows(notes);
    out := DedupeRows(rows);
  }

  /**
   * A data line gives a row exactly when it has at least five cells and the third and fourth
   * (owner and due date) are not empty; the row's fields are then stripped, free of "|", and
   * carry `cite`.
   */
  lemma RowOfMeaning(ln: string, cite: string)
    ensures RowOf(ln, cite).Some? <==> |Cells(ln)| >= 5 && Cells(ln)[2] != "" && Cells(ln)[3] != ""
    ensures RowOf(ln, cite).Some? ==>
              var r := RowOf(ln, cite).value;
              r.priority == Cells(ln)[0] && r.item == Cells(ln)[1] && r.owner == Cells(ln)[2] &&
              r.dueDate == Cells(ln)[3] && r.status == Cells(ln)[4] && r.cite == cite &&
              r.owner != "" && r.dueDate != "" && IsStripped(r.owner) && IsStripped(r.dueDate) &&
              '|' !in r.priority && '|' !in r.item && '|' !in r.owner && '|' !in r.dueDate && '|' !in r.status
  {
  }

  /** Only an action_items.md note with a non-blank claim and at least three table lines contributes rows. */
  lemma NoteRowsOnlyWhen(n: ResearchNote)
    ensures NoteRows(n) != [] ==> FromActionItems(n) && !IsBlank(n.claim) && |TableLines(Strip(n.claim))| >= 3
  {
    if NoteRows(n) != [] {
      assert FromActionItems(n) && Strip(n.claim) != "";
      var table := TableLines(Strip(n.claim));
      assert DataRows(table, CiteOf(n)) != [];
    }
  }

  /**
   * Every row of a note comes from one of its data lines (the third table line or later) and
   * carries the note's citation, and every data line that parses contributes its row.
   */
  lemma NoteRowsOrigin(n: ResearchNote)
    ensures var table := TableLines(Strip(n.claim));
            forall r :: r in NoteRows(n) ==>
              r.cite == CiteOf(n) && exists j :: 2 <= j < |table| && RowOf(table[j], CiteOf(n)) == Some(r)
    ensures var table := TableLines(Strip(n.claim));
            FromActionItems(n) && !IsBlank(n.claim) ==>
              forall j :: 2 <= j < |table| && RowOf(table[j], CiteOf(n)).Some? ==> RowOf(table[j], CiteOf(n)).value in NoteRows(n)
  {
    var table := TableLines(Strip(n.claim));
    if FromActionItems(n) && Strip(n.claim) != "" {
      DataRowsOrigin(table, CiteOf(n));
    }
  }

  /** Every data row comes from a data line and carries `cite`; every data line that parses gives its row. */
  lemma DataRowsOrigin(table: seq<string>, cite: string)
    ensures forall r :: r in DataRows(table, cite) ==>
              r.cite == cite && exists j :: 2 <= j < |table| && RowOf(table[j], cite) == Some(r)
    ensures |table| >= 3 ==>
              forall j :: 2 <= j < |table| && RowOf(table[j], cite).Some? ==> RowOf(table[j], cite).value in DataRows(table, cite)
  {
    if |table| >= 3 {
      var f := RowParser(cite);
      FilterMapFrom(table, 2, f);
      forall r | r in DataRows(table, cite)
        ensures r.cite == cite && exists j :: 2 <= j < |table| && RowOf(table[j], cite) == Some(r)
      {
        var j :| 2 <= j < |table| && f(table[j]) == Some(r);
        assert RowOf(table[j], cite) == Some(r);
      }
      forall j | 2 <= j < |table| && RowOf(table[j], cite).Some? ensures RowOf(table[j], cite).value in DataRows(table, cite) {
        assert f(table[j]) == RowOf(table[j], cite);
      }
    }
  }

  /** The table lines of a text are stripped and open and close with "|"; every such line of the text is one of them. */
  lemma TableLinesShape(text: string)
    ensures forall k :: 0 <= k < |TableLines(text)| ==>
              var ln := TableLines(text)[k];
              ln != "" && IsStripped(ln) && ln[0] == '|' && ln[|ln| - 1] == '|'
    ensures forall j :: 0 <= j < |SplitLines(text)| && TableLine(SplitLines(text)[j]).Some? ==>
              Strip(SplitLines(text)[j]) in TableLines(text)
  {
    var lines := SplitLines(text);
    FilterMapAll(lines, TableLine, IsTableText);
    FilterMapExact(lines, TableLine);
  }

  /** Every collected row belongs to some action_items.md note whose citation it carries. */
  lemma {:induction false} RowsOrigin(notes: seq<ResearchNote>)
    ensures forall r :: r in Rows(notes) ==>
              exists k :: 0 <= k < |notes| && FromActionItems(notes[k]) && r in NoteRows(notes[k]) && r.cite == CiteOf(notes[k])
    decreases |notes|
  {
    if notes != [] {
      var init := notes[..|notes| - 1];
      var last := notes[|notes| - 1];
      RowsOrigin(init);
      NoteRowsOrigin(last);
      forall r | r in Rows(notes)
        ensures exists k :: 0 <= k < |notes| && FromActionItems(notes[k]) && r in NoteRows(notes[k]) && r.cite == CiteOf(notes[k])
      {
        if r in Rows(init) {
          var k :| 0 <= k < |init| && FromActionItems(init[k]) && r in NoteRows(init[k]) && r.cite == CiteOf(init[k]);
          assert notes[k] == init[k];
        } else {
          assert r in NoteRows(last);
          NoteRowsOrigin(last);
          assert notes[|notes| - 1] == last;
        }
      }
    }
  }

  /** Every row of every note is collected. */
  lemma {:induction false} RowsComplete(notes: seq<ResearchNote>, k: int)
    requires 0 <= k < |notes|
    ensures forall r :: r in NoteRows(notes[k]) ==> r in Rows(notes)
    decreases |notes|
  {
    if k < |notes| - 1 {
      RowsComplete(notes[..|notes| - 1], k);
      assert notes[..|notes| - 1][k] == notes[k];
    }
  }

  /**
   * The parsed rows: each names an owner and a due date, comes from an action_items.md note and
   * carries its citation; no two share `(priority, item, owner, due_date)`; they keep the
   * collected order; every collected key survives, carried by its first row.
   */
  lemma ParseActionItemsFacts(notes: seq<ResearchNote>)
    ensures var out := ParseActionItems(notes);
            (forall r :: r in out ==>
               r.owner != "" && r.dueDate != "" &&
               (exists k :: 0 <= k < |notes| && FromActionItems(notes[k]) && r in NoteRows(notes[k]) && r.cite == CiteOf(notes[k]))) &&
            UniqueKeys(out, RowKey) &&
            IsSubsequence(out, Rows(notes)) &&
            KeysOf(out, RowKey) == KeysOf(Rows(notes), RowKey)
  {
    var rows := Rows(notes);
    var out := ParseActionItems(notes);
    DistinctBySound(rows, RowKey, {});
    DistinctByKeys(rows, RowKey, {});
    SubsequenceFacts(out, rows);
    RowsOrigin(notes);
    forall r | r in out ensures r.owner != "" && r.dueDate != "" {
      var k :| 0 <= k < |notes| && FromActionItems(notes[k]) && r in NoteRows(notes[k]) && r.cite == CiteOf(notes[k]);
      NoteRowsOrigin(notes[k]);
      var table := TableLines(Strip(notes[k].claim));
      var j :| 2 <= j < |table| && RowOf(table[j], CiteOf(notes[k])) == Some(r);
      RowOfMeaning(table[j], CiteOf(notes[k]));
    }
  }

  /** Of the collected rows sharing a key, the first is the one kept. */
  lemma ParseKeepsFirst(notes: seq<ResearchNote>, i: nat)
    requires i < |Rows(notes)|
    requires forall j :: 0 <= j < i ==> RowKey(Rows(notes)[j]) != RowKey(Rows(notes)[i])
    ensures Rows(notes)[i] in ParseActionItems(notes)
  {
    DistinctByKeepsFirst(Rows(notes), RowKey, {}, i);
  }

  const NotFoundPackage: string := "## Deliverable Package\n\n### Executive Summary\n" + "- Not found in sources." + "\n"

  const HeaderLines: seq<string> := [
    "## Deliverable Package\n",
    "### Executive Summary",
    "- Action items extracted that explicitly include Owner and Due Date.\n",
    "### Action Items",
    "| Priority | Item | Owner | Due Date | Status |",
    "|---|---|---|---|---|"
  ]

  const CitationsHeading: string := "\n### Citations"

  /** The table line of one row, its status followed by its citation in parentheses. */
  function RowLine(r: ActionRow): string {
    "| " + Join(" | ", RowCells(r)) + " |"
  }

  /** The five cells of a row's table line: the four key fields, then the status with the citation in parentheses. */
  function RowCells(r: ActionRow): seq<string> {
    [r.priority, r.item, r.owner, r.dueDate, r.status + " (" + r.cite + ")"]
  }

  function RowLines(rows: seq<ActionRow>): seq<string> {
    seq(|rows|, k requires 0 <= k < |rows| => RowLine(rows[k]))
  }

  /** `lines` before the final join: the header, one line per row, the Citations section naming the first row's citation. */
  function DeadlinesLines(rows: seq<ActionRow>): seq<string>
    requires rows != []
  {
    HeaderLines + RowLines(rows) + [CitationsHeading] + ["- " + rows[0].cite]
  }

  /** The text `build_deadlines_markdown` writes for these parsed rows. */
  function RenderDeadlines(rows: seq<ActionRow>): string {
    if rows == [] then NotFoundPackage else Strip(Join("\n", DeadlinesLines(rows)))
  }

  /** `build_deadlines_markdown(notes)`. */
  function DeadlinesMarkdown(notes: seq<ResearchNote>): string {
    RenderDeadlines(ParseActionItems(notes))
  }

  /** The loop of `build_deadlines_markdown` that appends one table line per row. */
  method AppendRowLines(lines: seq<string>, rows: seq<ActionRow>) returns (r: seq<string>)
    ensures r == lines + RowLines(rows)
  {
    r := lines;
    for i := 0 to |rows|
      invariant r == lines + RowLines(rows[..i])
    {
      assert RowLines(rows[..i + 1]) == RowLines(rows[..i]) + [RowLine(rows[i])];
      r := r + [RowLine(rows[i])];
    }
    assert rows[..|rows|] == rows;
  }

  /** `build_deadlines_markdown`, appending to `lines` step by step. */
  method BuildDeadlinesMarkdown(notes: seq<ResearchNote>) returns (md: string)
    ensures md == DeadlinesMarkdown(notes)
  {
    var rows := ParseActionItemsTable(notes);
    if |rows| == 0 {
      return NotFoundPackage;
    }
    var cite := rows[0].cite;
    var lines := AppendRowLines(HeaderLines, rows);
    lines := lines + [CitationsHeading];
    lines := lines + ["- " + cite];
    md := Strip(Join("\n", lines));
  }

  /** A row's table line ends with its status and citation in parentheses, then the closing "|". */
  lemma RowLineCites(r: ActionRow)
    ensures EndsWith(RowLine(r), r.status + " (" + r.cite + ")" + " |")
  {
    var cells := RowCells(r);
    var j := Join(" | ", cells);
    JoinEndsWith(" | ", cells);
    EndsWithFrame("| ", j, cells[4], " |");
  }

  /** The fields a rendered row can be read back from: stripped, free of "|", with an owner and a due date. */
  predicate Renderable(r: ActionRow) {
    IsStripped(r.priority) && IsStripped(r.item) && IsStripped(r.owner) && IsStripped(r.dueDate) &&
    r.owner != "" && r.dueDate != "" &&
    '|' !in r.priority && '|' !in r.item && '|' !in r.owner && '|' !in r.dueDate && '|' !in r.status && '|' !in r.cite
  }

  /** Splitting cells joined by " | " and padded with a space at each end gives each cell padded. */
  lemma {:induction false} SplitPaddedJoin(fs: seq<string>)
    requires |fs| >= 1 && forall k :: 0 <= k < |fs| ==> '|' !in fs[k]
    ensures SplitOn(" " + Join(" | ", fs) + " ", '|') == seq(|fs|, k requires 0 <= k < |fs| => " " + fs[k] + " ")
    decreases |fs|
  {
    var padded := seq(|fs|, k requires 0 <= k < |fs| => " " + fs[k] + " ");
    if |fs| == 1 {
      assert '|' !in " " + fs[0] + " ";
    } else {
      var rest := Join(" | ", fs[1..]);
      SplitPaddedJoin(fs[1..]);
      var head := " " + fs[0] + " ";
      var tail := " " + rest + " ";
      assert " " + Join(" | ", fs) + " " == head + ['|'] + tail;
      assert '|' !in head;
      SplitOnFirst(head, '|', tail);
      assert padded == [head] + padded[1..];
    }
  }

  /** Stripping the outer "|" of a row's table line leaves its cells joined by " | ", padded with spaces. */
  lemma RowLineInner(r: ActionRow)
    ensures StripChars(RowLine(r), {'|'}) == " " + Join(" | ", RowCells(r)) + " "
  {
    var inner := " " + Join(" | ", RowCells(r)) + " ";
    assert RowLine(r) == ['|'] + inner + ['|'];
    StripCharsFramed(inner, '|');
  }

  /** The parts a row's table line splits into at "|": each cell padded with spaces. */
  lemma RowLineParts(r: ActionRow)
    requires Renderable(r)
    ensures var parts := SplitOn(StripChars(RowLine(r), {'|'}), '|');
            |parts| == 5 && parts[0] == " " + r.priority + " " && parts[1] == " " + r.item + " " &&
            parts[2] == " " + r.owner + " " && parts[3] == " " + r.dueDate + " " &&
            parts[4] == " " + RowCells(r)[4] + " "
  {
    var cells := RowCells(r);
    RowCellsNoBar(r);
    RowLineInner(r);
    SplitPaddedJoin(cells);
    var parts := SplitOn(StripChars(RowLine(r), {'|'}), '|');
    assert parts == seq(|cells|, k requires 0 <= k < |cells| => " " + cells[k] + " ");
  }

  /** No cell of a renderable row holds a "|". */
  lemma RowCellsNoBar(r: ActionRow)
    requires Renderable(r)
    ensures |RowCells(r)| == 5 && forall k :: 0 <= k < 5 ==> '|' !in RowCells(r)[k]
  {
    var tail := r.status + " (" + r.cite + ")";
    assert '|' !in tail;
  }

  /** The cells of a row's table line are the row's cells. */
  lemma RowLineCells(r: ActionRow)
    requires Renderable(r)
    ensures var cols := Cells(RowLine(r));
            |cols| == 5 && cols[0] == r.priority && cols[1] == r.item && cols[2] == r.owner &&
            cols[3] == r.dueDate && cols[4] == Strip(r.status + " (" + r.cite + ")")
  {
    RowLineParts(r);
    StripPadded(r.priority);
    StripPadded(r.item);
    StripPadded(r.owner);
    StripPadded(r.dueDate);
    StripPaddedAny(RowCells(r)[4]);
  }

  /**
   * Reading a rendered table line back gives the row's key: the line has five cells whose first
   * four are its priority, item, owner and due date, so it passes the owner and due date filter.
   */
  lemma RowLineParses(r: ActionRow, cite: string)
    requires Renderable(r)
    ensures RowOf(RowLine(r), cite).Some? && RowKey(RowOf(RowLine(r), cite).value) == RowKey(r)
  {
    RowLineCells(r);
  }

  /** The lines: six header lines, one line per row, then the Citations heading and the first row's citation. */
  lemma DeadlinesLinesShape(rows: seq<ActionRow>)
    requires rows != []
    ensures var lines := DeadlinesLines(rows);
            |lines| == |rows| + 8 && lines[0] == "## Deliverable Package\n" &&
            (forall k :: 0 <= k < |rows| ==> lines[6 + k] == RowLine(rows[k])) &&
            lines[|lines| - 2] == CitationsHeading && lines[|lines| - 1] == "- " + rows[0].cite
  {
  }

  /** The joined lines open with "#" and close with the last character of the first row's citation, so the strip keeps them. */
  lemma DeadlinesJoinStripped(rows: seq<ActionRow>)
    requires rows != [] && rows[0].cite != "" && IsStripped(rows[0].cite)
    ensures var j := Join("\n", DeadlinesLines(rows));
            Strip(j) == j && StartsWith(j, "## Deliverable Package\n") && EndsWith(j, "- " + rows[0].cite) &&
            j != [] && !IsSpace(j[|j| - 1])
  {
    var lines := DeadlinesLines(rows);
    DeadlinesLinesShape(rows);
    var j := Join("\n", lines);
    JoinStartsWith("\n", lines);
    JoinEndsWith("\n", lines);
    var head := "## Deliverable Package\n";
    assert head[0] == '#';
    assert j[0] == '#';
    var last := "- " + rows[0].cite;
    var c := rows[0].cite;
    assert j[|j| - 1] == last[|last| - 1] == c[|c| - 1];
    StripOfStripped(j);
  }

  /** Rendering rows whose first citation is a non-blank stripped string. */
  lemma RenderFound(rows: seq<ActionRow>)
    requires rows != [] && rows[0].cite != "" && IsStripped(rows[0].cite)
    ensures var md := RenderDeadlines(rows);
            md == Join("\n", DeadlinesLines(rows)) &&
            StartsWith(md, "## Deliverable Package\n") && EndsWith(md, "- " + rows[0].cite) &&
            md != NotFoundPackage
  {
    var j := Join("\n", DeadlinesLines(rows));
    DeadlinesJoinStripped(rows);
    assert RenderDeadlines(rows) == j;
    NotFoundPackageEnd();
  }

  /** The fixed package ends with a newline. */
  lemma NotFoundPackageEnd()
    ensures NotFoundPackage != [] && NotFoundPackage[|NotFoundPackage| - 1] == '\n'
  {
  }

  /**
   * No parsed row gives exactly the fixed "Not found in sources." package. With rows, the output
   * is the joined lines unchanged by the final strip: the header, then the i-th row's table line
   * at position 6 + i, then "### Citations" and the first row's citation as its last line.
   */
  lemma DeadlinesOutput(notes: seq<ResearchNote>)
    ensures var rows := ParseActionItems(notes);
            var md := DeadlinesMarkdown(notes);
            (md == NotFoundPackage <==> rows == []) &&
            (rows != [] ==>
               var lines := DeadlinesLines(rows);
               md == Join("\n", lines) &&
               |lines| == |rows| + 8 &&
               (forall k :: 0 <= k < |rows| ==> lines[6 + k] == RowLine(rows[k])) &&
               StartsWith(md, "## Deliverable Package\n") &&
               EndsWith(md, "- " + rows[0].cite))
  {
    var rows := ParseActionItems(notes);
    if rows != [] {
      ParseActionItemsFacts(notes);
      assert rows[0] in rows;
      DeadlinesLinesShape(rows);
      RenderFound(rows);
    }
  }
}
