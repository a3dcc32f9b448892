/**
 * `exportToDocx`: the loop over the lines of the markdown source that writes
 * the document's paragraphs and tables, and the page it puts them on. The
 * loop is proved to compute the blocks of the line classifier, each styled
 * by `Render`.
 */
module DocxExport {
  import opened Wrappers
  import opened Strings
  import opened Themes
  import opened InlineStyles
  import opened DocxStyles
  import opened BlockParser

  /** What the exporter pushes onto `sections`. */
  datatype Element =
    | HeadingParagraph(options: HeadingOptions)
    | TextParagraph(children: seq<Run>, spacing: Spacing)
    | NoteParagraph(children: seq<Run>, spacing: Spacing, indentLeft: nat, shading: Shading)
    | TableElement(table: TableLayout)

  /** `convertInchesToTwip(0.5)`: a note is indented half an inch. */
  const NOTE_INDENT: nat := 720
  const NOTE_SHADING: Shading := Shading("F3F4F6", "F3F4F6")

  /**
   * The divider character as the source file spells it: the three characters
   * U+00E2, U+017D, U+00AF.
   */
  const DIVIDER_GLYPH: string := "\U{00E2}\U{017D}\U{00AF}"
  const RULE_COLOR: string := "666666"
  /** The single run of a horizontal rule: the divider fifty times, grey, 12 point. */
  const RULE_RUN: Run := Run(Repeat(DIVIDER_GLYPH, 50), RUN_SIZE, false, false, false, None, Some(RULE_COLOR))

  /** Twips: one inch on every side of the page. */
  const PAGE_MARGIN: nat := 1440

  datatype Margins = Margins(top: nat, right: nat, bottom: nat, left: nat)
  /** The single section of the document: its page margins and its children. */
  datatype Document = Document(margins: Margins, children: seq<Element>)

  /** The element the exporter writes for one block. */
  function Render(b: Block, theme: Theme, lex: string -> seq<Token>): (e: Element)
    ensures e.HeadingParagraph? <==> b.Heading?
    ensures e.NoteParagraph? <==> b.Annotation?
    ensures e.TableElement? <==> b.Table?
    ensures e.TextParagraph? <==> b.Paragraph? || b.Rule?
    ensures b.Heading? ==> e.options == CreateHeading(InlineRuns(lex(b.text)), b.level, theme)
    ensures b.Heading? ==> e.options.heading == b.level && e.options.children == InlineRuns(lex(b.text))
    ensures b.Paragraph? ==> e.children == InlineRuns(lex(b.text))
    ensures b.Annotation? ==> e.children == InlineRuns(lex(b.text))
    ensures e.TextParagraph? || e.NoteParagraph? ==> e.spacing == BODY_SPACING
    ensures e.NoteParagraph? ==> e.indentLeft == NOTE_INDENT && e.shading == NOTE_SHADING
    ensures b.Rule? ==> e.children == [RULE_RUN] && |RULE_RUN.text| == 150
    ensures b.Table? ==> e.table == CreateTable(b.rows, theme, lex)
  {
    match b
    case Heading(level, text) => HeadingParagraph(CreateHeading(InlineRuns(lex(text)), level, theme))
    case Paragraph(text) => TextParagraph(InlineRuns(lex(text)), BODY_SPACING)
    case Annotation(text) => NoteParagraph(InlineRuns(lex(text)), BODY_SPACING, NOTE_INDENT, NOTE_SHADING)
    case Table(rows) => TableElement(CreateTable(rows, theme, lex))
    case Rule => TextParagraph([RULE_RUN], BODY_SPACING)
  }

  function RenderAll(blocks: seq<Block>, theme: Theme, lex: string -> seq<Token>): seq<Element> {
    seq(|blocks|, k requires 0 <= k < |blocks| => Render(blocks[k], theme, lex))
  }

  lemma RenderAllSnoc(blocks: seq<Block>, b: Block, theme: Theme, lex: string -> seq<Token>)
    ensures RenderAll(blocks + [b], theme, lex) == RenderAll(blocks, theme, lex) + [Render(b, theme, lex)]
  {
  }

  /** The document for a sequence of blocks: one element per block, in order, on one-inch margins. */
  function DocumentOf(blocks: seq<Block>, theme: Theme, lex: string -> seq<Token>): (d: Document)
    ensures d.margins == Margins(PAGE_MARGIN, PAGE_MARGIN, PAGE_MARGIN, PAGE_MARGIN)
    ensures |d.children| == |blocks|
    ensures forall k :: 0 <= k < |blocks| ==> d.children[k] == Render(blocks[k], theme, lex)
  {
    Document(Margins(PAGE_MARGIN, PAGE_MARGIN, PAGE_MARGIN, PAGE_MARGIN), RenderAll(blocks, theme, lex))
  }

  /** The loop's variables hold the classifier state `st`, with `sections` the rendering of its blocks. */
  predicate Mirrors(st: State, theme: Theme, lex: string -> seq<Token>,
                    sections: seq<Element>, tableRows: seq<seq<string>>,
                    inTable: bool, inMultilineNote: bool, noteContent: seq<string>) {
    && sections == RenderAll(st.blocks, theme, lex)
    && tableRows == st.tableRows && inTable == st.inTable
    && inMultilineNote == st.inNote && noteContent == st.noteContent
  }

  /**
   * One of the heading branches of the loop: the text's runs are resolved and
   * the heading paragraph built from them is appended, which is the rendering
   * of the heading block.
   */
  method PushHeading(sections0: seq<Element>, text: string, level: HeadingLevel, theme: Theme,
                     lex: string -> seq<Token>) returns (sections: seq<Element>)
    ensures sections == sections0 + [Render(Heading(level, text), theme, lex)]
  {
    var runs := ParseInlineStyles(lex(text));
    sections := sections0 + [HeadingParagraph(CreateHeading(runs, level, theme))];
  }

  /**
   * The body of the loop of `exportToDocx` for one line: the variables move
   * exactly as `Step` moves the classifier state.
   */
  method ExportLine(line: string, theme: Theme, lex: string -> seq<Token>, ghost st: State,
                    sections0: seq<Element>, tableRows0: seq<seq<string>>,
                    inTable0: bool, inMultilineNote0: bool, noteContent0: seq<string>)
    returns (sections: seq<Element>, tableRows: seq<seq<string>>,
             inTable: bool, inMultilineNote: bool, noteContent: seq<string>)
    requires Mirrors(st, theme, lex, sections0, tableRows0, inTable0, inMultilineNote0, noteContent0)
    ensures Mirrors(Step(st, line), theme, lex, sections, tableRows, inTable, inMultilineNote, noteContent)
  {
    sections, tableRows, inTable, inMultilineNote, noteContent :=
      sections0, tableRows0, inTable0, inMultilineNote0, noteContent0;
    if StartsWith(line, "# ") {
      sections := PushHeading(sections, line[2..], H1, theme, lex);
      RenderAllSnoc(st.blocks, Heading(H1, line[2..]), theme, lex);
    } else if StartsWith(line, "## ") {
      sections := PushHeading(sections, line[3..], H2, theme, lex);
      RenderAllSnoc(st.blocks, Heading(H2, line[3..]), theme, lex);
    } else if StartsWith(line, "### ") {
      sections := PushHeading(sections, line[4..], H3, theme, lex);
      RenderAllSnoc(st.blocks, Heading(H3, line[4..]), theme, lex);
    } else if StartsWith(line, ">>") {
      inMultilineNote := true;
      noteContent := [line[2..]];
    } else if EndsWith(line, "<<") && inMultilineNote {
      inMultilineNote := false;
      noteContent := noteContent + [line[..|line| - 2]];
      var runs := ParseInlineStyles(lex(Join(noteContent, "\n")));
      sections := sections + [NoteParagraph(runs, BODY_SPACING, NOTE_INDENT, NOTE_SHADING)];
      RenderAllSnoc(st.blocks, Annotation(Join(noteContent, "\n")), theme, lex);
    } else if inMultilineNote {
      noteContent := noteContent + [line];
    } else if StartsWith(line, "|") {
      inTable := true;
      if !Contains(line, "---") {
        tableRows := tableRows + [Cells(line)];
      }
    } else if inTable {
      ghost var blocks := st.blocks;
      if |tableRows| > 0 {
        sections := sections + [TableElement(CreateTable(tableRows, theme, lex))];
        RenderAllSnoc(blocks, Table(tableRows), theme, lex);
        blocks := blocks + [Table(tableRows)];
        tableRows := [];
      }
      inTable := false;
      if Trim(line) != "" {
        var runs := ParseInlineStyles(lex(line));
        sections := sections + [TextParagraph(runs, BODY_SPACING)];
        RenderAllSnoc(blocks, Paragraph(line), theme, lex);
      }
    } else if Trim(line) == "---" {
      sections := sections + [TextParagraph([RULE_RUN], BODY_SPACING)];
      RenderAllSnoc(st.blocks, Rule, theme, lex);
    } else if !inTable && Trim(line) != "" {
      var runs := ParseInlineStyles(lex(line));
      sections := sections + [TextParagraph(runs, BODY_SPACING)];
      RenderAllSnoc(st.blocks, Paragraph(line), theme, lex);
    }
  }

  /**
   * `exportToDocx` up to building the `Document`. The loop's variables hold a
   * classifier state `st` from which feeding the lines still to be read ends
   * where feeding every line from the initial state does; after the loop the
   * pending rows are flushed.
   */
  method ExportToDocx(markdown: string, theme: Theme, lex: string -> seq<Token>) returns (doc: Document)
    ensures doc == DocumentOf(Blocks(markdown), theme, lex)
  {
    var sections: seq<Element> := [];
    var lines := Split(markdown, '\n');
    var tableRows: seq<seq<string>> := [];
    var inTable := false;
    var inMultilineNote := false;
    var noteContent: seq<string> := [];
    ghost var st := Initial;

    for i := 0 to |lines|
      invariant Feed(st, lines[i..]) == Feed(Initial, lines)
      invariant Mirrors(st, theme, lex, sections, tableRows, inTable, inMultilineNote, noteContent)
    {
      sections, tableRows, inTable, inMultilineNote, noteContent :=
        ExportLine(lines[i], theme, lex, st, sections, tableRows, inTable, inMultilineNote, noteContent);
      assert lines[i..][1..] == lines[i + 1..];
      st := Step(st, lines[i]);
    }
    assert lines[|lines|..] == [];

    if |tableRows| > 0 {
      sections := sections + [TableElement(CreateTable(tableRows, theme, lex))];
      RenderAllSnoc(st.blocks, Table(tableRows), theme, lex);
    }
    doc := Document(Margins(PAGE_MARGIN, PAGE_MARGIN, PAGE_MARGIN, PAGE_MARGIN), sections);
  }

  // ---------------------------------------------------------------------------
  // Properties of the exported document

  predicate AllSized(runs: seq<Run>) {
    forall r :: r in runs ==> r.size == RUN_SIZE
  }

  /** Every run an element carries, in a paragraph or in any table cell, is 12 point. */
  predicate ElementSized(e: Element) {
    match e
    case HeadingParagraph(o) => AllSized(o.children)
    case TextParagraph(children, _) => AllSized(children)
    case NoteParagraph(children, _, _, _) => AllSized(children)
    case TableElement(t) =>
      forall i, j :: 0 <= i < |t.rows| && 0 <= j < |t.rows[i].cells| ==> AllSized(t.rows[i].cells[j].children)
  }

  /** Whatever the blocks and the lexer, all text of the document is set in 12 point. */
  lemma DocumentSized(blocks: seq<Block>, theme: Theme, lex: string -> seq<Token>)
    ensures forall e :: e in DocumentOf(blocks, theme, lex).children ==> ElementSized(e)
  {
    var d := DocumentOf(blocks, theme, lex);
    forall k | 0 <= k < |d.children| ensures ElementSized(d.children[k]) {
      var b := blocks[k];
      var e := d.children[k];
      match b
      case Heading(_, text) => AllRunsSized(lex(text));
      case Paragraph(text) => AllRunsSized(lex(text));
      case Annotation(text) => AllRunsSized(lex(text));
      case Table(rows) =>
        forall i, j | 0 <= i < |e.table.rows| && 0 <= j < |e.table.rows[i].cells|
          ensures AllSized(e.table.rows[i].cells[j].children)
        {
          AllRunsSized(lex(rows[i][j]));
        }
      case Rule =>
    }
  }

  /**
   * Every table of an exported document has rows, and its first row alone is
   * the repeated header, every cell of it shaded.
   */
  lemma ExportedTables(markdown: string, theme: Theme, lex: string -> seq<Token>)
    ensures forall e :: e in DocumentOf(Blocks(markdown), theme, lex).children && e.TableElement? ==>
              && |e.table.rows| > 0
              && e.table.rows[0].tableHeader
              && (forall i :: 0 < i < |e.table.rows| ==> !e.table.rows[i].tableHeader)
              && (forall j :: 0 <= j < |e.table.rows[0].cells| ==> e.table.rows[0].cells[j].shading.Some?)
  {
    var blocks := Blocks(markdown);
    BlocksWellFormed(markdown);
    var d := DocumentOf(blocks, theme, lex);
    forall e | e in d.children && e.TableElement?
      ensures |e.table.rows| > 0 && e.table.rows[0].tableHeader
    {
      var k :| 0 <= k < |d.children| && d.children[k] == e;
      assert blocks[k] in blocks;
    }
  }

  /** An empty source exports an empty document. */
  lemma ExportEmpty(theme: Theme, lex: string -> seq<Token>)
    ensures DocumentOf(Blocks(""), theme, lex).children == []
  {
    OneLine("");
    assert Step(Initial, "") == Initial;
  }

  /** A one-line `# ` source exports one level-1 heading holding the runs of the rest of the line. */
  lemma ExportTitle(title: string, theme: Theme, lex: string -> seq<Token>)
    requires '\n' !in title
    ensures DocumentOf(Blocks("# " + title), theme, lex).children
            == [HeadingParagraph(CreateHeading(InlineRuns(lex(title)), H1, theme))]
  {
    var line := "# " + title;
    assert '\n' !in line;
    OneLine(line);
    assert line[..2] == "# ";
    HeadingOne(Initial, line);
    assert line[2..] == title;
  }
}
