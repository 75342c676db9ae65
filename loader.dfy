/**
 * Document loading and chunk metadata: which files become documents, the Markdown headings
 * and title of a document, and the metadata (`chunk_id`, `source_id`, line range, nearest
 * heading, locator) attached to each split the text splitter returns.
 */
module Loader {
  import opened Wrappers
  import opened PyStr
  import opened Retriever
  import opened Seqs

  const SupportedExts: set<string> := {".txt", ".md"}

  /** A Markdown heading: its 1-based line number and its text. */
  datatype Heading = Heading(line: nat, text: string)

  /** The heading a line carries, if any: after leading whitespace it starts with `#`, and text is left once the `#`s are gone. */
  function HeadingText(line: string): (h: Option<string>)
    ensures h.Some? ==> h.value != "" && IsStripped(h.value)
    ensures h.Some? ==> StartsWith(LStrip(line), "#")
  {
    var stripped := LStrip(line);
    if StartsWith(stripped, "#") then
      var t := Strip(LStripChars(stripped, {'#'}));
      if t != "" then Some(t) else None
    else None
  }

  /** The lines that `f` marks, with their 1-based line numbers, in line order. */
  function MarkedLines(lines: seq<string>, f: string -> Option<string>): seq<Heading>
    decreases |lines|
  {
    if lines == [] then []
    else
      var before := MarkedLines(lines[..|lines| - 1], f);
      match f(lines[|lines| - 1])
      case None => before
      case Some(t) => before + [Heading(|lines|, t)]
  }

  /** The headings of a list of lines, in line order. */
  function HeadingsOf(lines: seq<string>): seq<Heading> {
    MarkedLines(lines, HeadingText)
  }

  /** Line numbers strictly increase. */
  predicate Ascending(hs: seq<Heading>) {
    forall a, b :: 0 <= a < b < |hs| ==> hs[a].line < hs[b].line
  }

  /** `_extract_md_headings(text)`. */
  method ExtractMdHeadings(text: string) returns (headings: seq<Heading>)
    ensures headings == HeadingsOf(SplitLines(text))
  {
    var lines := SplitLines(text);
    headings := [];
    for i := 0 to |lines|
      invariant headings == MarkedLines(lines[..i], HeadingText)
    {
      assert lines[..i + 1][..i] == lines[..i];
      var h := HeadingText(lines[i]);
      if h.Some? {
        headings := headings + [Heading(i + 1, h.value)];
      }
    }
    assert lines[..|lines|] == lines;
  }

  /** Each entry names a line (1-based) that `f` marks with the entry's text, and line numbers strictly increase. */
  lemma {:induction false} MarkedLinesSound(lines: seq<string>, f: string -> Option<string>)
    ensures var hs := MarkedLines(lines, f);
            Ascending(hs) &&
            forall k :: 0 <= k < |hs| ==> 1 <= hs[k].line <= |lines| && f(lines[hs[k].line - 1]) == Some(hs[k].text)
    decreases |lines|
  {
    if lines != [] {
      var init := lines[..|lines| - 1];
      var before := MarkedLines(init, f);
      MarkedLinesSound(init, f);
      var hs := MarkedLines(lines, f);
      assert hs == before || hs == before + [Heading(|lines|, f(lines[|lines| - 1]).value)];
      forall k | 0 <= k < |hs|
        ensures 1 <= hs[k].line <= |lines| && f(lines[hs[k].line - 1]) == Some(hs[k].text)
      {
        if k < |before| {
          assert hs[k] == before[k];
          assert lines[hs[k].line - 1] == init[hs[k].line - 1];
        }
      }
      forall a, b | 0 <= a < b < |hs| ensures hs[a].line < hs[b].line {
        assert hs[a] == before[a];
        if b < |before| {
          assert hs[b] == before[b];
        }
      }
    }
  }

  /** Every line `f` marks has an entry. */
  lemma {:induction false} MarkedLinesComplete(lines: seq<string>, f: string -> Option<string>, i: nat)
    requires i < |lines| && f(lines[i]).Some?
    ensures Heading(i + 1, f(lines[i]).value) in MarkedLines(lines, f)
    decreases |lines|
  {
    var init := lines[..|lines| - 1];
    if i < |init| {
      MarkedLinesComplete(init, f, i);
      assert init[i] == lines[i];
    }
  }

  /** When `f` only yields non-empty text, every entry's text is non-empty. */
  lemma {:induction false} MarkedLinesNonEmpty(lines: seq<string>, f: string -> Option<string>)
    requires forall x :: f(x).Some? ==> f(x).value != ""
    ensures forall k :: 0 <= k < |MarkedLines(lines, f)| ==> MarkedLines(lines, f)[k].text != ""
    decreases |lines|
  {
    if lines != [] {
      MarkedLinesNonEmpty(lines[..|lines| - 1], f);
    }
  }

  /**
   * The headings are exactly the heading lines: each entry holds the heading text of the line it
   * names, line numbers strictly increase, and every line that carries a heading has its entry.
   */
  lemma HeadingsExact(lines: seq<string>)
    ensures var hs := HeadingsOf(lines);
            Ascending(hs) &&
            (forall k :: 0 <= k < |hs| ==> 1 <= hs[k].line <= |lines| && HeadingText(lines[hs[k].line - 1]) == Some(hs[k].text)) &&
            (forall i :: 0 <= i < |lines| && HeadingText(lines[i]).Some? ==> Heading(i + 1, HeadingText(lines[i]).value) in hs)
  {
    MarkedLinesSound(lines, HeadingText);
    forall i | 0 <= i < |lines| && HeadingText(lines[i]).Some?
      ensures Heading(i + 1, HeadingText(lines[i]).value) in HeadingsOf(lines)
    {
      MarkedLinesComplete(lines, HeadingText, i);
    }
  }

  /** A line that decides the title: stripped, it starts with "# ". */
  predicate IsTitleLine(line: string) {
    StartsWith(Strip(line), "# ")
  }

  /** The title a deciding line gives: the stripped rest after "# ", or none when that is blank. */
  function TitleText(line: string): Option<string>
    requires IsTitleLine(line)
  {
    var t := Strip(Strip(line)[2..]);
    if t != "" then Some(t) else None
  }

  /** The title of a list of lines: scanning stops at the first stripped line starting "# ". */
  function TitleOf(lines: seq<string>): Option<string> {
    match FirstWhere(lines, IsTitleLine)
    case None => None
    case Some(i) => TitleText(lines[i])
  }

  /** `_extract_md_title(text)`. */
  method ExtractMdTitle(text: string) returns (title: Option<string>)
    ensures title == TitleOf(SplitLines(text))
  {
    var lines := SplitLines(text);
    var found := ScanFirstWhere(lines, IsTitleLine);
    if found.None? {
      return None;
    }
    var stripped := Strip(lines[found.value]);
    var t := Strip(stripped[2..]);
    if t != "" {
      return Some(t);
    }
    return None;
  }

  /**
   * The title comes from the first line whose stripped form starts "# ": it is the stripped rest
   * of that line, or none when that rest is blank, whatever later lines hold; with no such line
   * there is no title.
   */
  lemma TitleFromFirstHashLine(lines: seq<string>)
    ensures (forall i :: 0 <= i < |lines| ==> !IsTitleLine(lines[i])) ==> TitleOf(lines) == None
    ensures forall i :: 0 <= i < |lines| && IsTitleLine(lines[i]) && (forall j :: 0 <= j < i ==> !IsTitleLine(lines[j])) ==>
              TitleOf(lines) == TitleText(lines[i])
  {
    if forall i :: 0 <= i < |lines| ==> !IsTitleLine(lines[i]) {
      FirstWhereNone(lines, IsTitleLine);
    }
    forall i | 0 <= i < |lines| && IsTitleLine(lines[i]) && (forall j :: 0 <= j < i ==> !IsTitleLine(lines[j]))
      ensures TitleOf(lines) == TitleText(lines[i])
    {
      FirstWhereIs(lines, IsTitleLine, i);
    }
  }

  // ---------------------------------------------------------------------------------------
  // load_raw_documents

  /** One entry of the recursive listing of the docs folder: its path, whether it is a regular file, and its text. */
  datatype SourceFile = SourceFile(path: string, isFile: bool, raw: string)

  /** A loaded document with the metadata `load_raw_documents` attaches. */
  datatype Document = Document(pageContent: string, sourcePath: string, sourceName: string, fileExt: string,
                               sourceTitle: Option<string>, docId: string)

  /** `path.name`: the last component of a `/`-separated path. */
  function FileName(path: string): (name: string)
    ensures forall j :: 0 <= j < |name| ==> name[j] != '/'
    ensures EndsWith(path, name)
  {
    path[RFindChar(path, '/') + 1..]
  }

  /** `PurePath.suffix` of a file name: from the last dot on, unless that dot leads the name or ends it. */
  function Suffix(name: string): (x: string)
    ensures x == "" || (2 <= |x| < |name| && x[0] == '.' && EndsWith(name, x) && forall j :: 1 <= j < |x| ==> x[j] != '.')
  {
    var i := RFindChar(name, '.');
    if 0 < i < |name| - 1 then name[i..] else ""
  }

  /** The document a listed file becomes, if any. */
  function DocumentOf(f: SourceFile): (d: Option<Document>)
    ensures d.Some? <==> f.isFile && Lower(Suffix(FileName(f.path))) in SupportedExts && !IsBlank(f.raw)
    ensures d.Some? ==>
              d.value.pageContent == Strip(f.raw) && d.value.pageContent != "" &&
              d.value.sourceName == FileName(f.path) &&
              d.value.fileExt in SupportedExts && d.value.fileExt == Lower(Suffix(FileName(f.path))) &&
              d.value.docId == "doc:" + d.value.sourceName &&
              d.value.sourceTitle == (if d.value.fileExt == ".md" then TitleOf(SplitLines(d.value.pageContent)) else None)
  {
    if !f.isFile then None
    else
      var name := FileName(f.path);
      var ext := Lower(Suffix(name));
      if ext !in SupportedExts then None
      else
        var text := Strip(f.raw);
        if text == "" then None
        else
          var title := if ext == ".md" then TitleOf(SplitLines(text)) else None;
          Some(Document(text, ReplaceChar(f.path, '\\', '/'), name, ext, title, "doc:" + name))
  }

  /** The documents of a listing, in listing order. */
  function RawDocuments(files: seq<SourceFile>): seq<Document> {
    FilterMap(files, DocumentOf)
  }

  /** The body of the loop of `load_raw_documents` for one listed file. */
  method LoadOne(f: SourceFile) returns (d: Option<Document>)
    ensures d == DocumentOf(f)
  {
    if !(f.isFile && Lower(Suffix(FileName(f.path))) in SupportedExts) {
      return None;
    }
    var text := Strip(f.raw);
    if text == "" {
      return None;
    }
    var title: Option<string> := None;
    if Lower(Suffix(FileName(f.path))) == ".md" {
      title := ExtractMdTitle(text);
    }
    var name := FileName(f.path);
    return Some(Document(text, ReplaceChar(f.path, '\\', '/'), name, Lower(Suffix(name)), title, "doc:" + name));
  }

  /** `load_raw_documents(docs_dir)`, the listing of `docs_dir` given as `files`. */
  method LoadRawDocuments(baseExists: bool, docsDir: string, files: seq<SourceFile>) returns (r: Result<seq<Document>>)
    ensures !baseExists ==> r == Err(Raised("FileNotFoundError", "Docs folder not found: " + docsDir))
    ensures baseExists ==> r == Ok(RawDocuments(files))
  {
    if !baseExists {
      return Err(Raised("FileNotFoundError", "Docs folder not found: " + docsDir));
    }
    var docs: seq<Document> := [];
    for i := 0 to |files|
      invariant docs == FilterMap(files[..i], DocumentOf)
    {
      var d := LoadOne(files[i]);
      FilterMapSnoc(files, DocumentOf, i);
      if d.Some? {
        docs := docs + [d.value];
      }
    }
    assert files[..|files|] == files;
    return Ok(docs);
  }

  /**
   * Every accepted file (a regular `.txt`/`.md` file, suffix compared in lower case, with
   * non-blank text) has its document loaded, and every loaded document has a supported
   * extension, non-blank stripped text and `doc_id` "doc:" + its file name.
   */
  lemma RawDocumentsExact(files: seq<SourceFile>)
    ensures forall j :: 0 <= j < |files| && DocumentOf(files[j]).Some? ==> DocumentOf(files[j]).value in RawDocuments(files)
    ensures forall k :: 0 <= k < |RawDocuments(files)| ==>
              var d := RawDocuments(files)[k];
              d.fileExt in SupportedExts && d.pageContent != "" && IsStripped(d.pageContent) && d.docId == "doc:" + d.sourceName
  {
    FilterMapExact(files, DocumentOf);
    forall k | 0 <= k < |RawDocuments(files)|
      ensures var d := RawDocuments(files)[k];
              d.fileExt in SupportedExts && d.pageContent != "" && IsStripped(d.pageContent) && d.docId == "doc:" + d.sourceName
    {
      var j :| 0 <= j < |files| && DocumentOf(files[j]) == Some(RawDocuments(files)[k]);
    }
  }

  /** Two files with the same name give documents with the same `doc_id`, wherever they sit in the tree. */
  lemma SameNameSameDocId(f: SourceFile, g: SourceFile)
    requires DocumentOf(f).Some? && DocumentOf(g).Some?
    requires FileName(f.path) == FileName(g.path)
    ensures DocumentOf(f).value.docId == DocumentOf(g).value.docId
  {
  }

  // ---------------------------------------------------------------------------------------
  // chunk_documents

  /** What the text splitter returns for one piece: its text and, with `add_start_index`, its offset in the document. */
  datatype Split = Split(content: string, startIndex: Option<int>)

  /** A split with the chunk metadata `chunk_documents` attaches; `doc` carries the document's own metadata. */
  datatype Chunk = Chunk(content: string, doc: Document, chunkId: nat, sourceId: string,
                         lineStart: Option<nat>, lineEnd: Option<nat>, section: Option<Heading>, locator: string)

  /** `full_text[:idx].count("\n") + 1`. */
  function LineNumber(full: string, idx: int): (n: nat)
    ensures 1 <= n <= |full| + 1
  {
    Count(SliceTo(full, idx), '\n') + 1
  }

  /** The heading scan with `break`: the last of the leading headings whose line is at most `ls`. */
  function NearestFrom(hs: seq<Heading>, ls: int, acc: Option<Heading>): Option<Heading>
    decreases |hs|
  {
    if hs == [] then acc
    else if hs[0].line <= ls then NearestFrom(hs[1..], ls, Some(hs[0]))
    else acc
  }

  /** The `for ln, heading in md_headings` loop of `chunk_documents`. */
  method NearestHeading(hs: seq<Heading>, ls: int) returns (nearest: Option<Heading>)
    ensures nearest == NearestFrom(hs, ls, None)
  {
    nearest := None;
    var i := 0;
    while i < |hs|
      invariant 0 <= i <= |hs|
      invariant NearestFrom(hs[i..], ls, nearest) == NearestFrom(hs, ls, None)
    {
      assert hs[i..][1..] == hs[i + 1..];
      if hs[i].line <= ls {
        nearest := Some(hs[i]);
      } else {
        break;
      }
      i := i + 1;
    }
  }

  /**
   * On ascending headings the scan finds the last heading at or before line `ls`: none when every
   * heading comes later, otherwise a heading at or before `ls` that no other such heading follows.
   */
  lemma {:induction false} NearestIsLastBefore(hs: seq<Heading>, ls: int, acc: Option<Heading>)
    requires Ascending(hs)
    ensures var n := NearestFrom(hs, ls, acc);
            ((forall k :: 0 <= k < |hs| ==> hs[k].line > ls) ==> n == acc) &&
            (forall k :: 0 <= k < |hs| && hs[k].line <= ls ==>
               n.Some? && n.value in hs && n.value.line <= ls && hs[k].line <= n.value.line)
    decreases |hs|
  {
    if hs != [] && hs[0].line <= ls {
      var tail := hs[1..];
      assert forall k :: 0 <= k < |tail| ==> tail[k] == hs[k + 1];
      NearestIsLastBefore(tail, ls, Some(hs[0]));
    }
  }

  /** `md_headings` of a document: scanned only for `.md` files. */
  function DocHeadings(doc: Document): seq<Heading> {
    if doc.fileExt == ".md" then HeadingsOf(SplitLines(doc.pageContent)) else []
  }

  /** The `doc_id` a document's chunks are named after, falling back to "doc:" + its name. */
  function ChunkDocId(doc: Document): string {
    Or(doc.docId, "doc:" + doc.sourceName)
  }

  /** `" — ".join(locator_parts)`. */
  function Locator(chunkId: nat, fileExt: string, section: Option<Heading>, lineStart: Option<nat>, lineEnd: Option<nat>): string {
    var parts := ["chunk " + NatToString(chunkId)]
      + (if fileExt == ".md" && section.Some? && section.value.text != "" then ["## " + section.value.text] else [])
      + (if lineStart.Some? && lineEnd.Some? then ["lines " + NatToString(lineStart.value) + "\U{2013}" + NatToString(lineEnd.value)] else []);
    Join(" \U{2014} ", parts)
  }

  /** `section_heading` for a chunk starting on line `ls`: the scan's heading, kept only when its text is non-empty. */
  function SectionFor(hs: seq<Heading>, ls: int): Option<Heading> {
    var n := if hs != [] then NearestFrom(hs, ls, None) else None;
    if n.Some? && n.value.text != "" then n else None
  }

  /** The metadata of split `i` of `doc`, given the document's headings `hs`. */
  function ChunkOf(doc: Document, hs: seq<Heading>, i: nat, sp: Split): Chunk {
    var sid := ChunkDocId(doc) + "#chunk_" + NatToString(i);
    match sp.startIndex
    case None => Chunk(sp.content, doc, i, sid, None, None, None, Locator(i, doc.fileExt, None, None, None))
    case Some(st) =>
      var ls := LineNumber(doc.pageContent, st);
      var le := LineNumber(doc.pageContent, st + |sp.content|);
      var section := SectionFor(hs, ls);
      Chunk(sp.content, doc, i, sid, Some(ls), Some(le), section, Locator(i, doc.fileExt, section, Some(ls), Some(le)))
  }

  /** The chunks of one document, split `i` numbered `i`. */
  function ChunksOfDoc(doc: Document, splits: seq<Split>): (cs: seq<Chunk>)
    ensures |cs| == |splits|
  {
    var hs := DocHeadings(doc);
    seq(|splits|, i requires 0 <= i < |splits| => ChunkOf(doc, hs, i, splits[i]))
  }

  /** The chunks of all documents, document by document. */
  function ChunkAll(docs: seq<Document>, splitter: Document -> seq<Split>): seq<Chunk>
    decreases |docs|
  {
    if docs == [] then []
    else ChunkAll(docs[..|docs| - 1], splitter) + ChunksOfDoc(docs[|docs| - 1], splitter(docs[|docs| - 1]))
  }

  /** The body of the inner loop of `chunk_documents` for split `i`. */
  method ChunkMetadata(doc: Document, hs: seq<Heading>, i: nat, sp: Split) returns (c: Chunk)
    ensures c == ChunkOf(doc, hs, i, sp)
  {
    var sid := ChunkDocId(doc) + "#chunk_" + NatToString(i);
    if sp.startIndex.None? {
      return Chunk(sp.content, doc, i, sid, None, None, None, Locator(i, doc.fileExt, None, None, None));
    }
    var st := sp.startIndex.value;
    var ls := LineNumber(doc.pageContent, st);
    var le := LineNumber(doc.pageContent, st + |sp.content|);
    var section: Option<Heading> := None;
    if hs != [] {
      var n := NearestHeading(hs, ls);
      if n.Some? && n.value.text != "" {
        section := n;
      }
    }
    return Chunk(sp.content, doc, i, sid, Some(ls), Some(le), section, Locator(i, doc.fileExt, section, Some(ls), Some(le)));
  }

  lemma ChunksOfDocSnoc(doc: Document, splits: seq<Split>, i: nat)
    requires i < |splits|
    ensures ChunksOfDoc(doc, splits[..i + 1]) == ChunksOfDoc(doc, splits[..i]) + [ChunkOf(doc, DocHeadings(doc), i, splits[i])]
  {
    var a := ChunksOfDoc(doc, splits[..i + 1]);
    var b := ChunksOfDoc(doc, splits[..i]) + [ChunkOf(doc, DocHeadings(doc), i, splits[i])];
    assert forall k :: 0 <= k < i + 1 ==> a[k] == b[k];
  }

  /** The inner loop of `chunk_documents`: the chunks of one document, in split order. */
  method ChunkOneDocument(doc: Document, splits: seq<Split>) returns (cs: seq<Chunk>)
    ensures cs == ChunksOfDoc(doc, splits)
  {
    var hs: seq<Heading> := [];
    if doc.fileExt == ".md" {
      hs := ExtractMdHeadings(doc.pageContent);
    }
    assert hs == DocHeadings(doc);
    cs := [];
    for i := 0 to |splits|
      invariant cs == ChunksOfDoc(doc, splits[..i])
    {
      var c := ChunkMetadata(doc, hs, i, splits[i]);
      ChunksOfDocSnoc(doc, splits, i);
      cs := cs + [c];
    }
    assert splits[..|splits|] == splits;
  }

  /** `chunk_documents(docs)`, the text splitter given as `splitter`. */
  method ChunkDocuments(docs: seq<Document>, splitter: Document -> seq<Split>) returns (chunked: seq<Chunk>)
    ensures chunked == ChunkAll(docs, splitter)
  {
    chunked := [];
    for d := 0 to |docs|
      invariant chunked == ChunkAll(docs[..d], splitter)
    {
      assert docs[..d + 1][..d] == docs[..d];
      var cs := ChunkOneDocument(docs[d], splitter(docs[d]));
      chunked := chunked + cs;
    }
    assert docs[..|docs|] == docs;
  }

  /**
   * Split `i` of a document becomes chunk `i` with its text unchanged and `source_id`
   * "<doc_id>#chunk_<i>", so no two chunks of one document share a `source_id`.
   */
  lemma ChunkIdsDistinct(doc: Document, splits: seq<Split>)
    ensures var cs := ChunksOfDoc(doc, splits);
            (forall i :: 0 <= i < |cs| ==>
               cs[i].chunkId == i && cs[i].content == splits[i].content && cs[i].doc == doc &&
               cs[i].sourceId == ChunkDocId(doc) + "#chunk_" + NatToString(i)) &&
            (forall i, j :: 0 <= i < j < |cs| ==> cs[i].sourceId != cs[j].sourceId)
  {
    var cs := ChunksOfDoc(doc, splits);
    var p := ChunkDocId(doc) + "#chunk_";
    forall i, j | 0 <= i < j < |cs| ensures cs[i].sourceId != cs[j].sourceId {
      if cs[i].sourceId == cs[j].sourceId {
        assert (p + NatToString(i))[|p|..] == NatToString(i);
        assert (p + NatToString(j))[|p|..] == NatToString(j);
        NatToStringInjective(i, j);
      }
    }
  }

  /** With a non-negative start offset the line range is well ordered and starts at line 1 or later. */
  lemma LineRangeOrdered(doc: Document, hs: seq<Heading>, i: nat, sp: Split)
    requires sp.startIndex.Some? && sp.startIndex.value >= 0
    ensures var c := ChunkOf(doc, hs, i, sp);
            c.lineStart.Some? && c.lineEnd.Some? && 1 <= c.lineStart.value <= c.lineEnd.value
  {
    var full := doc.pageContent;
    var st := sp.startIndex.value;
    var a := if st <= |full| then st else |full|;
    var b := if st + |sp.content| <= |full| then st + |sp.content| else |full|;
    assert SliceTo(full, st) == full[..a];
    assert SliceTo(full, st + |sp.content|) == full[..b];
    CountMonotone(full, '\n', a, b);
  }

  /**
   * A negative start offset counts from the end of the text (Python slicing), and then the
   * range can come out inverted: in "a\nb" a split "b" at offset -1 gets lines 2 to 1.
   */
  lemma NegativeStartInverts()
    ensures var doc := Document("a\nb", "a.txt", "a.txt", ".txt", None, "doc:a.txt");
            var c := ChunkOf(doc, [], 0, Split("b", Some(-1)));
            c.lineStart == Some(2) && c.lineEnd == Some(1)
  {
    var full := "a\nb";
    assert SliceTo(full, -1) == "a\n";
    assert SliceTo(full, 0) == "";
    assert Count("a\n", '\n') == 1 by { assert "a\n"[..1] == "a"; }
  }

  /** The headings of a document ascend and carry non-empty text. */
  lemma DocHeadingsWellFormed(doc: Document)
    ensures Ascending(DocHeadings(doc))
    ensures forall k :: 0 <= k < |DocHeadings(doc)| ==> DocHeadings(doc)[k].text != ""
  {
    if doc.fileExt == ".md" {
      var lines := SplitLines(doc.pageContent);
      MarkedLinesSound(lines, HeadingText);
      MarkedLinesNonEmpty(lines, HeadingText);
    }
  }

  /**
   * On ascending headings with non-empty text, the section for line `ls` is the last heading at
   * or before `ls`, and there is one exactly when some heading is at or before `ls`.
   */
  lemma SectionForIsNearest(hs: seq<Heading>, ls: int)
    requires Ascending(hs) && forall k :: 0 <= k < |hs| ==> hs[k].text != ""
    ensures var sec := SectionFor(hs, ls);
            (sec.Some? <==> exists k :: 0 <= k < |hs| && hs[k].line <= ls) &&
            (sec.Some? ==>
               sec.value in hs && sec.value.line <= ls &&
               forall k :: 0 <= k < |hs| && hs[k].line <= ls ==> hs[k].line <= sec.value.line)
  {
    NearestIsLastBefore(hs, ls, None);
    var n := NearestFrom(hs, ls, None);
    if n.Some? {
      assert n.value in hs;
      var k :| 0 <= k < |hs| && hs[k] == n.value;
    } else if hs != [] {
      assert forall k :: 0 <= k < |hs| ==> hs[k].line > ls;
    }
  }

  /**
   * The section heading of a chunk is the last heading of its `.md` document at or before the
   * chunk's first line, and a chunk gets one exactly when it has a start line that some heading
   * precedes; `.txt` chunks never get one.
   */
  lemma ChunkSectionIsNearest(doc: Document, i: nat, sp: Split)
    ensures var c := ChunkOf(doc, DocHeadings(doc), i, sp);
            var hs := DocHeadings(doc);
            (doc.fileExt != ".md" ==> c.section == None) &&
            (c.section.Some? <==> c.lineStart.Some? && exists k :: 0 <= k < |hs| && hs[k].line <= c.lineStart.value) &&
            (c.section.Some? ==>
               c.section.value in hs && c.section.value.line <= c.lineStart.value &&
               forall k :: 0 <= k < |hs| && hs[k].line <= c.lineStart.value ==> hs[k].line <= c.section.value.line)
  {
    DocHeadingsWellFormed(doc);
    if sp.startIndex.Some? {
      SectionForIsNearest(DocHeadings(doc), LineNumber(doc.pageContent, sp.startIndex.value));
    }
  }

  /**
   * The locator always starts with "chunk <i>"; with a start offset it ends with the line range
   * "lines <start>–<end>", and without one it is "chunk <i>" alone.
   */
  lemma LocatorShape(doc: Document, hs: seq<Heading>, i: nat, sp: Split)
    ensures var c := ChunkOf(doc, hs, i, sp);
            StartsWith(c.locator, "chunk " + NatToString(i)) &&
            (c.lineStart.Some? ==>
               EndsWith(c.locator, "lines " + NatToString(c.lineStart.value) + "\U{2013}" + NatToString(c.lineEnd.value))) &&
            (sp.startIndex.None? ==> c.locator == "chunk " + NatToString(i))
  {
    var c := ChunkOf(doc, hs, i, sp);
    var parts := ["chunk " + NatToString(i)]
      + (if doc.fileExt == ".md" && c.section.Some? && c.section.value.text != "" then ["## " + c.section.value.text] else [])
      + (if c.lineStart.Some? && c.lineEnd.Some? then ["lines " + NatToString(c.lineStart.value) + "\U{2013}" + NatToString(c.lineEnd.value)] else []);
    assert c.locator == Join(" \U{2014} ", parts);
    JoinStartsWith(" \U{2014} ", parts);
    JoinEndsWith(" \U{2014} ", parts);
  }
}
