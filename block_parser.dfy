/**
 * The line classifier of the document exporter, as a specification: one
 * `Step` per source line over the loop's state (blocks written so far, the
 * pending table rows, and the two flags), then the final table flush.
 */
module BlockParser {
  import opened Strings
  import opened DocxStyles

  /** One unit of the exported document, before it is styled. */
  datatype Block =
    | Heading(level: HeadingLevel, text: string)
    | Paragraph(text: string)
    | Annotation(text: string)
    | Table(rows: seq<seq<string>>)
    | Rule

  /** The loop's variables: `sections`, `tableRows`, `inTable`, `inMultilineNote`, `noteContent`. */
  datatype State = State(
    blocks: seq<Block>,
    tableRows: seq<seq<string>>,
    inTable: bool,
    inNote: bool,
    noteContent: seq<string>)

  const Initial: State := State([], [], false, false, [])

  /** The trimmed, non-blank pieces of `split('|')`, in order. */
  function CellsOf(pieces: seq<string>): (r: seq<string>)
    decreases |pieces|
  {
    if pieces == [] then []
    else (if Trim(pieces[0]) != "" then [Trim(pieces[0])] else []) + CellsOf(pieces[1..])
  }

  /** The cells of a table-row line. */
  function Cells(line: string): seq<string> {
    CellsOf(Split(line, '|'))
  }

  predicate IsHeadingLine(line: string) {
    StartsWith(line, "# ") || StartsWith(line, "## ") || StartsWith(line, "### ")
  }

  /** What the first characters of a line decide about the branches it can take. */
  lemma LineHead(line: string)
    ensures IsHeadingLine(line) ==> |line| > 1 && line[0] == '#'
    ensures StartsWith(line, ">>") ==> |line| > 1 && line[0] == '>' && line[1] == '>'
    ensures StartsWith(line, "|") ==> |line| > 0 && line[0] == '|'
    ensures StartsWith(line, "## ") || StartsWith(line, "### ") || StartsWith(line, "####") ==> !StartsWith(line, "# ")
    ensures StartsWith(line, "### ") || StartsWith(line, "####") ==> !StartsWith(line, "## ")
    ensures StartsWith(line, "####") ==> !StartsWith(line, "### ")
  {
    if StartsWith(line, "# ") { StartsWithAt(line, "# ", 0); StartsWithAt(line, "# ", 1); }
    if StartsWith(line, "## ") { StartsWithAt(line, "## ", 0); StartsWithAt(line, "## ", 1); StartsWithAt(line, "## ", 2); }
    if StartsWith(line, "### ") { StartsWithAt(line, "### ", 0); StartsWithAt(line, "### ", 1); StartsWithAt(line, "### ", 2); StartsWithAt(line, "### ", 3); }
    if StartsWith(line, "####") { StartsWithAt(line, "####", 1); StartsWithAt(line, "####", 2); StartsWithAt(line, "####", 3); }
    if StartsWith(line, ">>") { StartsWithAt(line, ">>", 0); StartsWithAt(line, ">>", 1); }
    if StartsWith(line, "|") { StartsWithAt(line, "|", 0); }
  }

  /** Write the pending rows as a table, if there are any, and leave the table. */
  function FlushTable(st: State): State {
    st.(blocks := if |st.tableRows| > 0 then st.blocks + [Table(st.tableRows)] else st.blocks,
        tableRows := [],
        inTable := false)
  }

  /** One iteration of the loop over lines; it only ever appends to the blocks. */
  function Step(st: State, line: string): (r: State)
    ensures |st.blocks| <= |r.blocks| <= |st.blocks| + 2
    ensures r.blocks[..|st.blocks|] == st.blocks
  {
    if StartsWith(line, "# ") then
      st.(blocks := st.blocks + [Heading(H1, line[2..])])
    else if StartsWith(line, "## ") then
      st.(blocks := st.blocks + [Heading(H2, line[3..])])
    else if StartsWith(line, "### ") then
      st.(blocks := st.blocks + [Heading(H3, line[4..])])
    else if StartsWith(line, ">>") then
      st.(inNote := true, noteContent := [line[2..]])
    else if EndsWith(line, "<<") && st.inNote then
      var content := st.noteContent + [line[..|line| - 2]];
      st.(inNote := false, noteContent := content,
          blocks := st.blocks + [Annotation(Join(content, "\n"))])
    else if st.inNote then
      st.(noteContent := st.noteContent + [line])
    else if StartsWith(line, "|") then
      if Contains(line, "---") then st.(inTable := true)
      else st.(inTable := true, tableRows := st.tableRows + [Cells(line)])
    else if st.inTable then
      var flushed := FlushTable(st);
      if Trim(line) != "" then flushed.(blocks := flushed.blocks + [Paragraph(line)]) else flushed
    else if Trim(line) == "---" then
      st.(blocks := st.blocks + [Rule])
    else if !st.inTable && Trim(line) != "" then
      st.(blocks := st.blocks + [Paragraph(line)])
    else
      st
  }

  /** The loop run over `lines` from state `st`. */
  function Feed(st: State, lines: seq<string>): State
    decreases |lines|
  {
    if lines == [] then st else Feed(Step(st, lines[0]), lines[1..])
  }

  /** The flush after the loop. */
  function Finish(st: State): seq<Block> {
    if |st.tableRows| > 0 then st.blocks + [Table(st.tableRows)] else st.blocks
  }

  /** The blocks `exportToDocx` writes for a markdown source. */
  function Blocks(markdown: string): seq<Block> {
    Finish(Feed(Initial, Split(markdown, '\n')))
  }

  // ---------------------------------------------------------------------------
  // Running the loop piecewise

  lemma {:induction false} FeedAppend(st: State, a: seq<string>, b: seq<string>)
    ensures Feed(st, a + b) == Feed(Feed(st, a), b)
    decreases |a|
  {
    if a == [] {
      assert a + b == b;
    } else {
      assert (a + b)[1..] == a[1..] + b;
      FeedAppend(Step(st, a[0]), a[1..], b);
    }
  }

  lemma FeedSnoc(st: State, a: seq<string>, line: string)
    ensures Feed(st, a + [line]) == Step(Feed(st, a), line)
  {
    FeedAppend(st, a, [line]);
  }

  /** Blocks are only ever appended: whatever was written stays as it was. */
  lemma {:induction false} FeedAppendOnly(st: State, lines: seq<string>)
    ensures |st.blocks| <= |Feed(st, lines).blocks|
    ensures Feed(st, lines).blocks[..|st.blocks|] == st.blocks
    decreases |lines|
  {
    if lines != [] {
      var next := Step(st, lines[0]);
      FeedAppendOnly(next, lines[1..]);
      assert Feed(st, lines).blocks[..|next.blocks|] == next.blocks;
      assert next.blocks[..|st.blocks|] == st.blocks;
    }
  }

  // ---------------------------------------------------------------------------
  // The invariant over the loop's state

  predicate CellOk(c: string) {
    c != "" && Trim(c) == c
  }

  predicate RowOk(row: seq<string>) {
    forall c :: c in row ==> CellOk(c)
  }

  /** Tables have rows, and no cell is blank or has white space around it. */
  predicate BlockOk(b: Block) {
    b.Table? ==> |b.rows| > 0 && forall row :: row in b.rows ==> RowOk(row)
  }

  predicate Inv(st: State) {
    && (forall b :: b in st.blocks ==> BlockOk(b))
    && (forall row :: row in st.tableRows ==> RowOk(row))
    && (!st.inTable ==> st.tableRows == [])
    && (st.inNote ==> |st.noteContent| > 0)
  }

  /** Blank pieces are dropped, interior ones too, and each kept piece is trimmed. */
  lemma {:induction false} CellsOfOk(pieces: seq<string>)
    ensures RowOk(CellsOf(pieces))
    ensures |CellsOf(pieces)| <= |pieces|
    decreases |pieces|
  {
    if pieces != [] {
      CellsOfOk(pieces[1..]);
      TrimIdempotent(pieces[0]);
    }
  }

  /** Writing the pending rows keeps the invariant. */
  lemma FlushInv(st: State)
    requires Inv(st)
    ensures Inv(FlushTable(st))
  {
    if |st.tableRows| > 0 {
      assert BlockOk(Table(st.tableRows));
    }
  }

  /** Headings and note lines leave the table state alone and write no table. */
  lemma StepInvNote(st: State, line: string)
    requires Inv(st)
    requires IsHeadingLine(line) || StartsWith(line, ">>") || st.inNote
    ensures Inv(Step(st, line))
  {
    var r := Step(st, line);
    assert r.tableRows == st.tableRows && r.inTable == st.inTable;
    assert forall b :: b in r.blocks ==> b in st.blocks || !b.Table?;
  }

  /** A `|` line adds a row of trimmed, non-blank cells. */
  lemma StepInvRow(st: State, line: string)
    requires Inv(st)
    requires !IsHeadingLine(line) && !StartsWith(line, ">>") && !st.inNote && StartsWith(line, "|")
    ensures Inv(Step(st, line))
  {
    CellsOfOk(Split(line, '|'));
    assert Step(st, line).blocks == st.blocks;
  }

  /** The first other line below a table writes the pending rows, which are well formed. */
  lemma StepInvFlush(st: State, line: string)
    requires Inv(st)
    requires !IsHeadingLine(line) && !StartsWith(line, ">>") && !st.inNote && !StartsWith(line, "|") && st.inTable
    ensures Inv(Step(st, line))
  {
    FlushInv(st);
    var r := Step(st, line);
    assert forall b :: b in r.blocks ==> b in FlushTable(st).blocks || b == Paragraph(line);
  }

  /** Outside notes and tables a line writes at most a rule or a paragraph. */
  lemma StepInvPlain(st: State, line: string)
    requires Inv(st)
    requires !IsHeadingLine(line) && !StartsWith(line, ">>") && !st.inNote && !StartsWith(line, "|") && !st.inTable
    ensures Inv(Step(st, line))
  {
    var r := Step(st, line);
    assert r.tableRows == st.tableRows && r.inTable == st.inTable;
    assert forall b :: b in r.blocks ==> b in st.blocks || !b.Table?;
  }

  lemma StepInv(st: State, line: string)
    requires Inv(st)
    ensures Inv(Step(st, line))
  {
    if IsHeadingLine(line) || StartsWith(line, ">>") || st.inNote {
      StepInvNote(st, line);
    } else if StartsWith(line, "|") {
      StepInvRow(st, line);
    } else if st.inTable {
      StepInvFlush(st, line);
    } else {
      StepInvPlain(st, line);
    }
  }

  lemma {:induction false} FeedInv(st: State, lines: seq<string>)
    requires Inv(st)
    ensures Inv(Feed(st, lines))
    decreases |lines|
  {
    if lines != [] {
      StepInv(st, lines[0]);
      FeedInv(Step(st, lines[0]), lines[1..]);
    }
  }

  /**
   * Whatever the source, no table is written without rows, and no table cell
   * is blank or surrounded by white space.
   */
  lemma BlocksWellFormed(markdown: string)
    ensures forall b :: b in Blocks(markdown) ==> BlockOk(b)
  {
    FeedInv(Initial, Split(markdown, '\n'));
  }

  // ---------------------------------------------------------------------------
  // Headings

  /** A `# ` line is a level-1 heading without its prefix, even inside a note or below a table. */
  lemma HeadingOne(st: State, line: string)
    requires StartsWith(line, "# ")
    ensures Step(st, line) == st.(blocks := st.blocks + [Heading(H1, line[2..])])
  {
  }

  lemma HeadingTwo(st: State, line: string)
    requires StartsWith(line, "## ")
    ensures Step(st, line) == st.(blocks := st.blocks + [Heading(H2, line[3..])])
  {
    LineHead(line);
  }

  lemma HeadingThree(st: State, line: string)
    requires StartsWith(line, "### ")
    ensures Step(st, line) == st.(blocks := st.blocks + [Heading(H3, line[4..])])
  {
    LineHead(line);
  }

  /** A `####` line is never a heading; outside a note and a table it is a paragraph. */
  lemma DeepHeadingIsParagraph(st: State, line: string)
    requires StartsWith(line, "####")
    requires !st.inNote && !st.inTable
    ensures !IsHeadingLine(line)
    ensures Step(st, line) == st.(blocks := st.blocks + [Paragraph(line)])
  {
    LineHead(line);
    StartsWithAt(line, "####", 0);
    TrimEmptyIff(line);
    assert Trim(line) != [];
    TrimHead(line);
  }

  // ---------------------------------------------------------------------------
  // Notes (`>>` ... `<<`)

  /** A line that neither is a heading nor opens nor closes a note. */
  predicate NoteInterior(line: string) {
    !IsHeadingLine(line) && !StartsWith(line, ">>") && !EndsWith(line, "<<")
  }

  /** A `>>` line starts a note afresh, discarding what was buffered, and never closes it. */
  lemma OpeningLineNeverCloses(st: State, line: string)
    requires StartsWith(line, ">>")
    ensures Step(st, line) == st.(inNote := true, noteContent := [line[2..]])
  {
  }

  /** Inside a note, interior lines are buffered verbatim and write nothing. */
  lemma {:induction false} NoteInteriorBuffered(st: State, lines: seq<string>)
    requires st.inNote
    requires forall i :: 0 <= i < |lines| ==> NoteInterior(lines[i])
    ensures Feed(st, lines) == st.(noteContent := st.noteContent + lines)
    decreases |lines|
  {
    if lines == [] {
      assert st.noteContent + lines == st.noteContent;
    } else {
      var next := Step(st, lines[0]);
      assert next == st.(noteContent := st.noteContent + [lines[0]]);
      NoteInteriorBuffered(next, lines[1..]);
      assert st.noteContent + [lines[0]] + lines[1..] == st.noteContent + lines;
    }
  }

  /**
   * A note spanning an opening line, interior lines and a closing line writes
   * one annotation: the opening line without `>>`, the interior lines, and the
   * closing line without `<<`, joined by line breaks.
   */
  lemma NoteSpan(st: State, open: string, interior: seq<string>, close: string)
    requires StartsWith(open, ">>")
    requires forall i :: 0 <= i < |interior| ==> NoteInterior(interior[i])
    requires EndsWith(close, "<<") && !IsHeadingLine(close) && !StartsWith(close, ">>")
    ensures var content := [open[2..]] + interior + [close[..|close| - 2]];
            Feed(st, [open] + interior + [close])
            == st.(blocks := st.blocks + [Annotation(Join(content, "\n"))], inNote := false, noteContent := content)
  {
    OpeningLineNeverCloses(st, open);
    var afterOpen := Step(st, open);
    FeedAppend(st, [open], interior + [close]);
    assert [open] + interior + [close] == [open] + (interior + [close]);
    FeedOne(st, open);
    FeedAppend(afterOpen, interior, [close]);
    NoteInteriorBuffered(afterOpen, interior);
    var buffered := afterOpen.(noteContent := afterOpen.noteContent + interior);
    FeedOne(buffered, close);
    NoteClose(buffered, close);
  }

  lemma FeedOne(st: State, line: string)
    ensures Feed(st, [line]) == Step(st, line)
  {
    assert [line][1..] == [];
  }

  /** Inside a note, a line ending in `<<` that is no heading and opens no note closes it. */
  lemma NoteClose(st: State, close: string)
    requires st.inNote
    requires EndsWith(close, "<<") && !IsHeadingLine(close) && !StartsWith(close, ">>")
    ensures var content := st.noteContent + [close[..|close| - 2]];
            Step(st, close) == st.(blocks := st.blocks + [Annotation(Join(content, "\n"))], inNote := false, noteContent := content)
  {
  }

  /** A note still open at the end of the input writes nothing: only a pending table is flushed. */
  lemma UnclosedNoteWritesNothing(st: State, open: string, rest: seq<string>)
    requires StartsWith(open, ">>")
    requires forall i :: 0 <= i < |rest| ==> NoteInterior(rest[i])
    ensures Finish(Feed(st, [open] + rest)) == Finish(st)
  {
    var afterOpen := Step(st, open);
    OpeningLineNeverCloses(st, open);
    FeedAppend(st, [open], rest);
    assert Feed(st, [open]) == afterOpen;
    NoteInteriorBuffered(afterOpen, rest);
    var last := afterOpen.(noteContent := afterOpen.noteContent + rest);
    assert Feed(st, [open] + rest) == last;
    assert last.blocks == st.blocks && last.tableRows == st.tableRows;
  }

  // ---------------------------------------------------------------------------
  // Tables

  /** The rows a run of `|` lines contributes: separators (any `---`) add none. */
  function RowsOf(lines: seq<string>): seq<seq<string>>
    decreases |lines|
  {
    if lines == [] then []
    else (if Contains(lines[0], "---") then [] else [Cells(lines[0])]) + RowsOf(lines[1..])
  }

  /** Outside a note, `|` lines only accumulate rows and write nothing. */
  lemma {:induction false} TableLines(st: State, lines: seq<string>)
    requires !st.inNote
    requires forall line :: line in lines ==> StartsWith(line, "|")
    ensures Feed(st, lines)
            == st.(inTable := st.inTable || lines != [], tableRows := st.tableRows + RowsOf(lines))
    decreases |lines|
  {
    if lines == [] {
      assert st.tableRows + [] == st.tableRows;
    } else {
      var row := if Contains(lines[0], "---") then [] else [Cells(lines[0])];
      var next := st.(inTable := true, tableRows := st.tableRows + row);
      assert Feed(st, lines) == Feed(next, lines[1..]) by {
        PipeLine(st, lines[0]);
      }
      assert Feed(next, lines[1..]) == next.(tableRows := next.tableRows + RowsOf(lines[1..])) by {
        TableLines(next, lines[1..]);
      }
      assert next.tableRows + RowsOf(lines[1..]) == st.tableRows + RowsOf(lines) by {
        assert RowsOf(lines) == row + RowsOf(lines[1..]);
      }
    }
  }

  /** Outside a note, a `|` line enters the table and adds its cells unless it is a separator. */
  lemma PipeLine(st: State, line: string)
    requires !st.inNote && StartsWith(line, "|")
    ensures Step(st, line)
            == st.(inTable := true, tableRows := st.tableRows + if Contains(line, "---") then [] else [Cells(line)])
  {
    LineHead(line);
    assert !IsHeadingLine(line) && !StartsWith(line, ">>");
  }

  /**
   * Below a table, the first line that is not a `|` line (nor a heading nor a
   * `>>` line) writes the pending rows as exactly one table, and then itself as
   * a paragraph unless it is blank; the table state is cleared.
   */
  lemma TableFlush(st: State, line: string)
    requires st.inTable && !st.inNote
    requires !IsHeadingLine(line) && !StartsWith(line, ">>") && !StartsWith(line, "|")
    ensures var r := Step(st, line);
            && r.blocks == st.blocks
                 + (if |st.tableRows| > 0 then [Table(st.tableRows)] else [])
                 + (if Trim(line) != "" then [Paragraph(line)] else [])
            && r.tableRows == [] && !r.inTable && !r.inNote
  {
    assert !StartsWith(line, "# ") && !StartsWith(line, "## ") && !StartsWith(line, "### ");
    var flushed := FlushTable(st);
    assert Step(st, line) == if Trim(line) != "" then flushed.(blocks := flushed.blocks + [Paragraph(line)]) else flushed;
  }

  /** A `|` line without `---` outside a note adds one row: its trimmed, non-blank cells. */
  lemma TableRowLine(st: State, line: string)
    requires !st.inNote && StartsWith(line, "|") && !Contains(line, "---")
    ensures Step(st, line) == st.(inTable := true, tableRows := st.tableRows + [Cells(line)])
    ensures RowOk(Cells(line))
  {
    LineHead(line);
    assert !IsHeadingLine(line) && !StartsWith(line, ">>");
    assert Step(st, line) == st.(inTable := true, tableRows := st.tableRows + [Cells(line)]);
    CellsOfOk(Split(line, '|'));
  }

  /**
   * Table lines at the end of the input, joining whatever rows are already
   * buffered, become one table block holding all of those rows.
   */
  lemma TableAtEnd(st: State, lines: seq<string>)
    requires !st.inNote
    requires forall line :: line in lines ==> StartsWith(line, "|")
    requires st.tableRows + RowsOf(lines) != []
    ensures Finish(Feed(st, lines)) == st.blocks + [Table(st.tableRows + RowsOf(lines))]
  {
    TableLines(st, lines);
  }

  // ---------------------------------------------------------------------------
  // Blank lines and rules

  /** A blank line or a `---` line is no heading, opens no note and is no `|` line. */
  lemma PlainLine(line: string)
    requires Trim(line) == "" || Trim(line) == "---"
    ensures !IsHeadingLine(line) && !StartsWith(line, ">>") && !StartsWith(line, "|")
  {
    LineHead(line);
    if Trim(line) == "" {
      TrimEmptyIff(line);
    } else {
      TrimHead(line);
    }
    assert |line| > 0 ==> IsWhitespace(line[0]) || line[0] == '-';
  }

  /** Outside a note a blank line never writes a paragraph; it only ends a pending table. */
  lemma BlankLine(st: State, line: string)
    requires !st.inNote && Trim(line) == ""
    ensures Step(st, line).blocks
            == st.blocks + (if st.inTable && |st.tableRows| > 0 then [Table(st.tableRows)] else [])
  {
    PlainLine(line);
    if st.inTable {
      TableFlush(st, line);
    }
  }

  /** Outside a note and a table, a line whose trim is `---` writes one rule. */
  lemma RuleLine(st: State, line: string)
    requires !st.inNote && !st.inTable && Trim(line) == "---"
    ensures Step(st, line) == st.(blocks := st.blocks + [Rule])
  {
    PlainLine(line);
  }

  /** Directly below a table, a `---` line writes the table and then a paragraph, not a rule. */
  lemma RuleBelowTableIsParagraph(st: State, line: string)
    requires !st.inNote && st.inTable && |st.tableRows| > 0 && Trim(line) == "---"
    ensures Step(st, line).blocks == st.blocks + [Table(st.tableRows), Paragraph(line)]
  {
    PlainLine(line);
    TableFlush(st, line);
  }

  // ---------------------------------------------------------------------------
  // Worked inputs

  /** A source without line breaks is one line. */
  lemma OneLine(line: string)
    requires '\n' !in line
    ensures Blocks(line) == Finish(Step(Initial, line))
  {
    SplitNoSeparator(line, '\n');
    assert [line][1..] == [];
    assert Feed(Initial, [line]) == Feed(Step(Initial, line), []);
  }

  /** The line `| x | y |`. */
  function PaddedRowLine(x: char, y: char): string {
    ['|', ' ', x, ' ', '|', ' ', y, ' ', '|']
  }

  lemma PaddedRowSplit(x: char, y: char)
    requires x != '|' && y != '|'
    ensures Split(PaddedRowLine(x, y), '|') == ["", [' ', x, ' '], [' ', y, ' '], ""]
  {
    var pieces := ["", [' ', x, ' '], [' ', y, ' '], ""];
    assert Join(pieces[2..], "|") == [' ', y, ' '] + "|" + "";
    assert Join(pieces[1..], "|") == [' ', x, ' '] + "|" + Join(pieces[2..], "|");
    assert Join(pieces, "|") == "" + "|" + Join(pieces[1..], "|");
    assert Join(pieces, "|") == PaddedRowLine(x, y);
    SplitJoin(pieces, '|');
  }

  lemma PaddedRow(x: char, y: char)
    requires !IsWhitespace(x) && !IsWhitespace(y) && x != '|' && y != '|' && x != '-' && y != '-'
    ensures Cells(PaddedRowLine(x, y)) == [[x], [y]]
    ensures !Contains(PaddedRowLine(x, y), "---")
  {
    var pieces := ["", [' ', x, ' '], [' ', y, ' '], ""];
    PaddedRowSplit(x, y);
    TrimPadded(x);
    TrimPadded(y);
    assert CellsOf(pieces[3..]) == [];
    assert CellsOf(pieces[2..]) == [[y]];
    assert CellsOf(pieces[1..]) == [[x], [y]];
    assert Trim(pieces[0]) == "";
    PaddedRowNoSeparator(x, y);
  }

  lemma PaddedRowNoSeparator(x: char, y: char)
    requires x != '-' && y != '-'
    ensures !Contains(PaddedRowLine(x, y), "---")
  {
    if Contains(PaddedRowLine(x, y), "---") {
      ContainsHead(PaddedRowLine(x, y), "---");
    }
  }

  lemma ExampleTableLines()
    ensures Split("| A | B |\n|---|---|\n| 1 | 2 |", '\n') == ["| A | B |", "|---|---|", "| 1 | 2 |"]
  {
    var lines := ["| A | B |", "|---|---|", "| 1 | 2 |"];
    assert '\n' !in lines[0] && '\n' !in lines[1] && '\n' !in lines[2];
    assert lines[1..][1..] == ["| 1 | 2 |"];
    assert Join(lines, "\n") == "| A | B |\n|---|---|\n| 1 | 2 |";
    SplitJoin(lines, '\n');
  }

  lemma {:induction false} RowsOfAppend(a: seq<string>, b: seq<string>)
    ensures RowsOf(a + b) == RowsOf(a) + RowsOf(b)
    decreases |a|
  {
    if a == [] {
      assert a + b == b;
    } else {
      assert (a + b)[0] == a[0] && (a + b)[1..] == a[1..] + b;
      RowsOfAppend(a[1..], b);
      var row := if Contains(a[0], "---") then [] else [Cells(a[0])];
      assert RowsOf(a + b) == row + RowsOf(a[1..] + b);
    }
  }

  lemma RowsOfCons(line: string, rest: seq<string>)
    ensures RowsOf([line] + rest) == (if Contains(line, "---") then [] else [Cells(line)]) + RowsOf(rest)
  {
    assert ([line] + rest)[1..] == rest;
  }

  /** A header row, a separator and one body row give two rows. */
  lemma RowsOfThree(header: string, separator: string, body: string)
    requires !Contains(header, "---") && Contains(separator, "---") && !Contains(body, "---")
    ensures RowsOf([header, separator, body]) == [Cells(header), Cells(body)]
  {
    RowsOfCons(body, []);
    assert [body] + [] == [body];
    RowsOfCons(separator, [body]);
    assert [separator] + [body] == [separator, body];
    RowsOfCons(header, [separator, body]);
    assert [header] + [separator, body] == [header, separator, body];
  }

  lemma ExampleHeaderRow()
    ensures Cells("| A | B |") == ["A", "B"] && !Contains("| A | B |", "---")
  {
    assert "| A | B |" == PaddedRowLine('A', 'B');
    PaddedRow('A', 'B');
  }

  lemma ExampleBodyRow()
    ensures Cells("| 1 | 2 |") == ["1", "2"] && !Contains("| 1 | 2 |", "---")
  {
    assert "| 1 | 2 |" == PaddedRowLine('1', '2');
    PaddedRow('1', '2');
  }

  lemma ExampleSeparator()
    ensures Contains("|---|---|", "---")
  {
    assert StartsWith("|---|---|"[1..], "---");
  }

  lemma ExampleTableRows()
    ensures RowsOf(["| A | B |", "|---|---|", "| 1 | 2 |"]) == [["A", "B"], ["1", "2"]]
  {
    ExampleHeaderRow();
    ExampleBodyRow();
    ExampleSeparator();
    RowsOfThree("| A | B |", "|---|---|", "| 1 | 2 |");
  }

  /** A source whose lines are all `|` lines is one table of their rows. */
  lemma TableSource(markdown: string)
    requires forall i :: 0 <= i < |Split(markdown, '\n')| ==> StartsWith(Split(markdown, '\n')[i], "|")
    requires RowsOf(Split(markdown, '\n')) != []
    ensures Blocks(markdown) == [Table(RowsOf(Split(markdown, '\n')))]
  {
    TableAtEnd(Initial, Split(markdown, '\n'));
    assert Initial.tableRows + RowsOf(Split(markdown, '\n')) == RowsOf(Split(markdown, '\n'));
  }

  lemma ExampleTable()
    ensures Blocks("| A | B |\n|---|---|\n| 1 | 2 |") == [Table([["A", "B"], ["1", "2"]])]
  {
    ExampleTableLines();
    ExampleTableRows();
    ExampleBarLines();
    TableSource("| A | B |\n|---|---|\n| 1 | 2 |");
  }

  lemma ExampleBarLines()
    ensures var lines := ["| A | B |", "|---|---|", "| 1 | 2 |"];
            forall line :: line in lines ==> StartsWith(line, "|")
  {
  }

  lemma ExampleNoteLines()
    ensures Split(">>line one\nline two<<", '\n') == [">>line one", "line two<<"]
  {
    var lines := [">>line one", "line two<<"];
    assert '\n' !in lines[0];
    assert '\n' !in lines[1];
    assert lines[1..] == ["line two<<"];
    assert Join(lines, "\n") == ">>line one\nline two<<";
    SplitJoin(lines, '\n');
  }

  lemma ExampleNoteFeed()
    ensures Feed(Initial, [">>line one", "line two<<"]).blocks == [Annotation(Join(["line one", "line two"], "\n"))]
    ensures Feed(Initial, [">>line one", "line two<<"]).tableRows == []
  {
    var open, close := ">>line one", "line two<<";
    LineHead(close);
    assert EndsWith(close, "<<") && StartsWith(open, ">>");
    NoteSpan(Initial, open, [], close);
    assert open[2..] == "line one" && close[..|close| - 2] == "line two";
    assert [open[2..]] + [] + [close[..|close| - 2]] == ["line one", "line two"];
    assert [open] + [] + [close] == [open, close];
  }

  lemma ExampleNote()
    ensures Blocks(">>line one\nline two<<") == [Annotation("line one\nline two")]
  {
    ExampleNoteLines();
    ExampleNoteFeed();
    ExampleNoteText();
    var st := Feed(Initial, [">>line one", "line two<<"]);
    assert Finish(st) == st.blocks;
  }

  lemma ExampleNoteText()
    ensures Join(["line one", "line two"], "\n") == "line one\nline two"
  {
    assert ["line one", "line two"][1..] == ["line two"];
  }

  lemma ExampleHeadingOne()
    ensures Blocks("# Title") == [Heading(H1, "Title")]
  {
    OneLine("# Title");
    HeadingOne(Initial, "# Title");
  }

  lemma ExampleHeadingTwo()
    ensures Blocks("## Title") == [Heading(H2, "Title")]
  {
    OneLine("## Title");
    HeadingTwo(Initial, "## Title");
  }

  lemma ExampleHeadingFour()
    ensures Blocks("#### Title") == [Paragraph("#### Title")]
  {
    OneLine("#### Title");
    DeepHeadingIsParagraph(Initial, "#### Title");
  }

  /** `>>x<<` on one line opens a note that is never closed: nothing is written. */
  lemma ExampleOneLineNote()
    ensures Blocks(">>x<<") == []
  {
    OneLine(">>x<<");
    OpeningLineNeverCloses(Initial, ">>x<<");
  }
}
