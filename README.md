# Markdown to document export, and the live-preview rewrites

This project models the core of a markdown editor that has two outputs. The
first is a word-processor document export, `exportToDocx`. The second is a
live preview. The model covers:

- **The exporter's line classifier.** The markdown source is split on line
  breaks, and each line goes through a fixed chain of `if / else if`
  branches over four variables: `tableRows`, `inTable`, `inMultilineNote`
  and `noteContent`. The branches, in order: heading 1/2/3, note open, note
  close, note continue, table row, table flush, rule, paragraph. A final
  flush writes any rows still pending. `BlockParser.Step` states one
  iteration over a `State` value. `BlockParser.Feed` runs the loop, and
  `BlockParser.Blocks` adds the flush. The result is a sequence of `Block`s:
  `Heading`, `Paragraph`, `Annotation` (a note), `Table` or `Rule`.
- **The exporter, as the source writes it.** The `exportToDocx` loop is the
  imperative method `DocxExport.ExportToDocx`. Its body, `DocxExport.ExportLine`,
  updates the loop's variables and pushes the styled paragraphs and tables
  onto `sections`. Both are proved to compute `DocumentOf(Blocks(markdown))`:
  one rendered element per block, in order, on one-inch margins.
- **The styling helpers.** These are the per-theme style table
  `themeStyles`, the heading options of `createHeading`, and the rows,
  shading and borders of `createTable`.
- **The inline resolver.** `processToken` maps a lexer token to a text run.
  `parseInlineStyles` walks the lexer's tokens in a loop, flattening
  paragraph tokens into their inline children. Tokens are an abstract
  datatype. The lexer itself is a parameter, `lex`.
- **The preview.** This covers:
  - the global rewrite of each note (`>>`, non-empty text free of `<`, `<<`) into `> `-quoted lines;
  - the h1 badge character;
  - the preview's per-theme class table.

The modules follow the source files:

| file | module | source |
|---|---|---|
| `wrappers.dfy` | `Wrappers` | the optional value behind `?.` and `\|\|` defaults |
| `strings.dfy` | `Strings` | the JavaScript string built-ins the code uses |
| `themes.dfy` | `Themes` | the theme enumeration of `ThemeSelector` |
| `inline_styles.dfy` | `InlineStyles` | `processToken` / `parseInlineStyles` |
| `docx_styles.dfy` | `DocxStyles` | `themeStyles`, `createHeading`, `createTable` |
| `block_parser.dfy` | `BlockParser` | the classifier behind the `exportToDocx` loop |
| `docx_export.dfy` | `DocxExport` | `exportToDocx` itself |
| `preview.dfy` | `Preview` | `MarkdownRenderer` |

The model follows the code where it departs from the simpler rules one might
expect:

- **Blank cells.** Every blank cell of a table row is dropped, interior
  ones included, not only the leading and trailing ones.
- **Separator rows.** Any `|` line containing `---` anywhere is a
  separator, not only a line of dashes.
- **Rules.** A rule is any line whose `trim()` is `---`, not only a line
  that is exactly `---`.
- **`---` below a table.** A `---` line directly below a table does not
  vanish as a divider. The flush branch comes first, so it writes the table
  and then the line as a paragraph (`BlockParser.RuleBelowTableIsParagraph`).
- **Headings do not flush.** A heading line below a table does not flush
  it. The exporter writes the heading, and the table follows later.

## Model

| member | source | states |
|---|---|---|
| DocxStyles.ThemeStyle | src/utils/docxExport.ts:5-58 | The table is total over the four themes. Every record has all ten colours set as six hexadecimal digits. Sizes are 48/36/30 and spacings 480/360/240 for h1/h2/h3, strictly decreasing by level. |
| DocxStyles.ModernStyle | src/utils/docxExport.ts:6-18 | The `modern` record is well formed: ten hex colours, sizes 48/36/30, spacings 480/360/240. |
| DocxStyles.VintageStyle | src/utils/docxExport.ts:19-31 | The `vintage` record is well formed. |
| DocxStyles.MinimalStyle | src/utils/docxExport.ts:32-44 | The `minimal` record is well formed. |
| DocxStyles.NatureStyle | src/utils/docxExport.ts:45-57 | The `nature` record is well formed. |
| DocxStyles.CreateHeading | src/utils/docxExport.ts:97-143 | The children and level are kept. Spacing before is the level's spacing, and spacing after is exactly half of it. H1 gets background shading and a size-6 left border in `gradientFrom`. H2 gets shading only. H3 gets only a size-4 left border in `borderColor`. |
| DocxStyles.HeadingSpacingDecreases | src/utils/docxExport.ts:107-110 | In every theme, heading spacing strictly decreases from level 1 to 2 to 3. |
| DocxStyles.CreateTable | src/utils/docxExport.ts:145-182 | One row per input row and one cell per input cell. Each cell holds the inline runs of its text with 120/120 spacing. Row 0, and only row 0, is the header and has shaded cells, in the theme's header colour. All six borders are single, size 1, in the theme's border colour. The width is 100 percent. |
| InlineStyles.ProcessToken | src/utils/docxExport.ts:64-82 | Each token gives exactly one run of size 24 with the token's text. Bold holds exactly for strong, italics exactly for em, strike exactly for del. Font and colour are set exactly for codespan, as Consolas and 6B7280. Any other token gives its raw text, unstyled. |
| InlineStyles.InlineRuns | src/utils/docxExport.ts:84-92 | The runs of the lexer's tokens: a paragraph token gives the runs of its children, any other token its own run. It is the definition `InlineRunsAreUnitRuns`, `InlineRunsAppend` and `ParseInlineStyles` are about. |
| InlineStyles.InlineRunsAreUnitRuns | src/utils/docxExport.ts:84-92 | Flattening: the runs are those of the inline units in order (each paragraph token replaced by its children). There is one run per unit, and run i is the run of unit i. |
| InlineStyles.AllRunsSized | src/utils/docxExport.ts:64-82 | Every run the resolver produces is size 24. |
| InlineStyles.InlineRunsAppend | src/utils/docxExport.ts:84-92 | The runs of a concatenation of token sequences are the concatenation of their runs. |
| InlineStyles.ChildRunsAt | src/utils/docxExport.ts:86-88 | The children of a paragraph give one run each, in order. |
| InlineStyles.ParseInlineStyles | src/utils/docxExport.ts:60-95 | The `forEach` loop over the lexer's tokens returns exactly `InlineRuns(tokens)`. |
| InlineStyles.PushChildRuns | src/utils/docxExport.ts:86-88 | The inner `forEach` appends exactly the runs of the paragraph's children to the runs so far. |
| BlockParser.Feed | src/utils/docxExport.ts:194-252 | The loop over the lines: `Step` applied to each line in order. It is the definition `FeedAppend`, `FeedInv` and `ExportToDocx` are about. |
| BlockParser.Finish | src/utils/docxExport.ts:254-256 | The final flush: the blocks written, plus one table of the pending rows when there are any. It is the definition `TableAtEnd` and `BlocksWellFormed` are about. |
| BlockParser.Blocks | src/utils/docxExport.ts:184-256 | The blocks of a whole source: split on `\n`, the loop, then the flush. It is the definition the `Example` lemmas, `BlocksWellFormed` and `ExportToDocx` are about. |
| BlockParser.FlushTable | src/utils/docxExport.ts:229-233 | Writing the pending rows as one table when there are any, then leaving the table. It is the definition `TableFlush` and `FlushInv` are about. |
| BlockParser.CellsOf | src/utils/docxExport.ts:222-225 | The trimmed, non-blank pieces, in order. It is the definition `CellsOfOk` is about. |
| BlockParser.Cells | src/utils/docxExport.ts:222-225 | `CellsOf` of the pieces of `split('\|')`. It is the definition `TableRowLine`, `PaddedRow` and `ExampleHeaderRow` are about. |
| BlockParser.Step | src/utils/docxExport.ts:195-251 | One iteration appends zero, one or two blocks and never changes the blocks written before. |
| BlockParser.FeedAppendOnly | src/utils/docxExport.ts:194-252 | Over any run of lines, blocks are only ever appended; earlier blocks are unchanged. |
| BlockParser.FeedAppend | src/utils/docxExport.ts:194-252 | Running the loop over `a + b` is running it over `a`, then over `b`. |
| BlockParser.HeadingOne | src/utils/docxExport.ts:195-196 | A `# ` line, in any state (inside a note, below a table), appends `Heading(H1, line[2..])` and changes nothing else. |
| BlockParser.HeadingTwo | src/utils/docxExport.ts:197-198 | A `## ` line appends `Heading(H2, line[3..])` and changes nothing else. |
| BlockParser.HeadingThree | src/utils/docxExport.ts:199-200 | A `### ` line appends `Heading(H3, line[4..])` and changes nothing else. |
| BlockParser.DeepHeadingIsParagraph | src/utils/docxExport.ts:195-250 | A `####` line is no heading. Outside a note and a table it becomes exactly one paragraph of the whole line. |
| BlockParser.OpeningLineNeverCloses | src/utils/docxExport.ts:201-204 | A `>>` line starts a note afresh with `[line[2..]]`, discarding what was buffered. It writes nothing, even when it also ends in `<<`. |
| BlockParser.NoteInteriorBuffered | src/utils/docxExport.ts:217-218 | Inside a note, lines that neither are headings nor open or close a note are buffered verbatim, whatever they are (blank, `\|`, `---`). Nothing else changes. |
| BlockParser.NoteClose | src/utils/docxExport.ts:204-216 | Inside a note, a closing line buffers its text without `<<`. It writes one annotation, the buffer joined by line breaks, and the note is closed. |
| BlockParser.NoteSpan | src/utils/docxExport.ts:201-218 | An opening line, interior lines and a closing line write exactly one annotation: the opening line without `>>`, the interior lines, and the closing line without `<<`, joined by `\n`. |
| BlockParser.UnclosedNoteWritesNothing | src/utils/docxExport.ts:201-256 | A note still open at the end of the input contributes no block. |
| BlockParser.TableRowLine | src/utils/docxExport.ts:219-227 | Outside a note, a `\|` line without `---` adds one row: the trimmed, non-blank pieces of `split('\|')`. No cell of it is blank or has surrounding white space. |
| BlockParser.PipeLine | src/utils/docxExport.ts:219-227 | Outside a note, a `\|` line enters the table. It adds a row exactly when it contains no `---`, and writes nothing. |
| BlockParser.TableLines | src/utils/docxExport.ts:219-227 | A run of `\|` lines outside a note writes nothing; it accumulates exactly the rows of its non-separator lines. |
| BlockParser.TableFlush | src/utils/docxExport.ts:228-240 | Below a table, the first other line writes the pending rows as exactly one table (none if there are none), and then a paragraph if the line is not blank. Afterwards `tableRows` is empty and the state is outside the table. |
| BlockParser.TableAtEnd | src/utils/docxExport.ts:219-256 | Outside a note, `\|` lines running to the end of the input write nothing until the final flush. That flush writes exactly one table: the rows already pending followed by the rows of those lines. |
| BlockParser.BlocksWellFormed | src/utils/docxExport.ts:219-256 | For every source, no table is written without rows, and no cell is blank or has surrounding white space. |
| BlockParser.FeedInv | src/utils/docxExport.ts:194-252 | The loop keeps its invariant: well-formed blocks and rows, no rows pending outside a table, a non-empty buffer inside a note. |
| BlockParser.StepInv | src/utils/docxExport.ts:195-251 | Every branch of one iteration keeps that invariant. |
| BlockParser.CellsOfOk | src/utils/docxExport.ts:222-225 | `filter(trim() !== '')` then `map(trim)` yields at most as many cells as pieces, none blank and each equal to its own trim. |
| BlockParser.BlankLine | src/utils/docxExport.ts:228-246 | Outside a note, a blank line writes no block; it only writes a pending table. |
| BlockParser.RuleLine | src/utils/docxExport.ts:241-245 | Outside a note and a table, a line whose trim is `---` writes exactly one rule. |
| BlockParser.RuleBelowTableIsParagraph | src/utils/docxExport.ts:228-239 | A `---` line directly below a table writes the table and then a paragraph, not a rule. |
| BlockParser.RowsOfThree | src/utils/docxExport.ts:219-227 | A header row, a separator line and a body row give exactly two rows. |
| BlockParser.ExampleTable | src/utils/docxExport.ts:219-256 | `\| A \| B \|`, `\|---\|---\|`, `\| 1 \| 2 \|` exports one table with rows `[A, B]` and `[1, 2]`. |
| BlockParser.ExampleNote | src/utils/docxExport.ts:201-216 | `>>line one` then `line two<<` exports one annotation `line one\nline two`. |
| BlockParser.ExampleOneLineNote | src/utils/docxExport.ts:201-206 | `>>x<<` on a single line opens a note and never closes it; the export is empty. |
| BlockParser.ExampleHeadingFour | src/utils/docxExport.ts:199-250 | `#### Title` exports a paragraph, not a heading. |
| DocxExport.Render | src/utils/docxExport.ts:195-251 | Each element kind matches its block kind. A heading is exactly `createHeading` of the inline runs of its text, at its level, in the theme, so it holds that level and those runs. Paragraphs and notes hold the runs of their text, with 120/120 spacing. Notes are indented 720 twips and shaded F3F4F6. A rule is one grey 666666 run of the divider fifty times (150 characters). Tables are `createTable` of their rows. |
| DocxExport.DocumentOf | src/utils/docxExport.ts:258-262 | Margins are 1440 on all four sides, with one element per block, in order. |
| DocxExport.PushHeading | src/utils/docxExport.ts:195-200 | A heading branch appends exactly the rendering of the heading block: `createHeading` of the runs `parseInlineStyles` gives for its text, at its level. |
| DocxExport.ExportLine | src/utils/docxExport.ts:195-251 | One iteration of the loop moves `sections`, `tableRows`, `inTable`, `inMultilineNote` and `noteContent` exactly as `Step` moves the classifier state, with `sections` the rendering of its blocks. |
| DocxExport.ExportToDocx | src/utils/docxExport.ts:184-263 | The loop and the final flush build exactly `DocumentOf(Blocks(markdown))`. |
| DocxExport.DocumentSized | src/utils/docxExport.ts:64-245 | Every run in the exported document, in paragraphs and in every table cell, is size 24. |
| DocxExport.ExportedTables | src/utils/docxExport.ts:155-256 | Every exported table has rows; its first row alone is the repeated header, and all of that row's cells are shaded. |
| DocxExport.ExportEmpty | src/utils/docxExport.ts:188-263 | An empty source exports a document without children. |
| DocxExport.ExportTitle | src/utils/docxExport.ts:195-196 | The one-line source `# title` exports exactly one level-1 heading holding the runs of `title`. |
| Strings.StartsWith | src/utils/docxExport.ts:195 | `prefix` is the front of `s`. It is the definition the heading, note and table branches test, and `StartsWithAt` is about. |
| Strings.EndsWith | src/utils/docxExport.ts:204 | `suffix` is the back of `s`. It is the definition the note-closing branch tests. |
| Strings.Contains | src/utils/docxExport.ts:221 | `sub` starts at some position of `s`. It is the definition `ContainsHead` and `Preview.RewriteNoMarker` are about. |
| Strings.Trim | src/utils/docxExport.ts:224-225 | The result is no longer than the input. It is the definition `TrimSpec`, `TrimIdempotent` and `TrimEmptyIff` are about. |
| Strings.Split | src/utils/docxExport.ts:188 | There is always at least one piece, and no piece holds the separator. |
| Strings.Join | src/utils/docxExport.ts:208 | The pieces with the separator between each two. It is the definition `JoinSplit` and `SplitJoin` are about. |
| Strings.TrimSpec | src/utils/docxExport.ts:224-225 | `trim()` keeps the slice left after removing white space at both ends. Everything removed is white space, and the slice neither starts nor ends with white space. |
| Strings.TrimEmptyIff | src/utils/docxExport.ts:235-246 | `trim() === ''` holds exactly when every character is white space. |
| Strings.TrimIdempotent | src/utils/docxExport.ts:224-225 | Trimming twice is trimming once. |
| Strings.JoinSplit | src/utils/docxExport.ts:188 | Joining the pieces of `split('\n')` with `\n` gives the source back. |
| Strings.SplitJoin | src/components/MarkdownRenderer.tsx:82 | Splitting a join of separator-free pieces gives the pieces back. |
| Strings.Repeat | src/utils/docxExport.ts:243 | `s.repeat(n)` has length `n` times that of `s`. |
| Preview.MatchAt | src/components/MarkdownRenderer.tsx:81 | A match at the front is `>>`, a non-empty run without `<`, and `<<`, at least five characters long. |
| Preview.MatchComplete | src/components/MarkdownRenderer.tsx:81 | `>>C<<` with C non-empty and free of `<` matches, the whole of it and no more. |
| Preview.NoMatchEmpty | src/components/MarkdownRenderer.tsx:81 | `>><<` is no match; the scan moves on by one character. |
| Preview.NoMatchAngle | src/components/MarkdownRenderer.tsx:81 | When the text between `>>` and the next `<<` contains a `<`, there is no match. |
| Preview.RewriteNoMarker | src/components/MarkdownRenderer.tsx:80-83 | A source without `>>` is returned unchanged. |
| Preview.RewriteKeepsPrefix | src/components/MarkdownRenderer.tsx:80-83 | Text in front of the rest where no match can start is kept, in order: it holds no `>>`, and it does not end in `>` where the rest begins with `>`. |
| Preview.RewriteSpan | src/components/MarkdownRenderer.tsx:80-83 | A note in the middle of text, after text holding no `>>` and not ending in `>`: what precedes it is kept, the note is replaced by its quoted lines, and the scan resumes after the closing `<<`. |
| Preview.Rewrite | src/components/MarkdownRenderer.tsx:80-83 | The global replace, scanning left to right: a match is replaced and the scan resumes after it; otherwise one character is kept. It is the definition `RewriteNoMarker`, `RewriteKeepsPrefix`, `RewriteSpan` and `NestedOpenSurvives` are about. |
| Preview.Quote | src/components/MarkdownRenderer.tsx:82 | The replacement of one match. It is the definition `QuoteSplit`, `UnquoteQuote`, `QuoteNoClose` and `QuoteNoOpen` are about. |
| Preview.QuoteLines | src/components/MarkdownRenderer.tsx:82 | One output line per line of the content, each `> ` followed by that line. |
| Preview.QuoteSplit | src/components/MarkdownRenderer.tsx:82 | The replacement has as many lines as the content, and line i is `> ` followed by line i of the content. |
| Preview.UnquoteQuote | src/components/MarkdownRenderer.tsx:82 | Stripping the `> ` prefixes and rejoining with `\n` gives the content back. |
| Preview.QuoteNoClose | src/components/MarkdownRenderer.tsx:81-82 | The replacement of a match contains no `<`, so no `<<`. |
| Preview.QuoteNoOpen | src/components/MarkdownRenderer.tsx:82 | The replacement contains `>>` only when the content does; the `> ` prefixes never form one. |
| Preview.NestedOpenSurvives | src/components/MarkdownRenderer.tsx:80-83 | `>>>>a<<` rewrites to `> >>a`: a content holding `>>` keeps it. |
| Preview.FirstAlnum | src/components/MarkdownRenderer.tsx:92 | The result is absent exactly when there is no ASCII letter or digit; when present, it is one. |
| Preview.BadgeChar | src/components/MarkdownRenderer.tsx:92 | The badge is a single character, `1` or an ASCII letter or digit. |
| Preview.BadgeIsFirstAlnum | src/components/MarkdownRenderer.tsx:92 | The badge is the first ASCII letter or digit of the heading text (the white space `trim` drops never is one). |
| Preview.BadgeDefault | src/components/MarkdownRenderer.tsx:92 | Without an ASCII letter or digit the badge is `1`. |
| Preview.PreviewStyles | src/components/MarkdownRenderer.tsx:15-76 | The class table, total over the four themes by an exhaustive match. It dispatches to the four entries below, where the contents are stated. |
| Preview.ModernPreview | src/components/MarkdownRenderer.tsx:16-30 | The `modern` class entry has every class string set. |
| Preview.VintagePreview | src/components/MarkdownRenderer.tsx:31-45 | The `vintage` class entry has every class string set. |
| Preview.MinimalPreview | src/components/MarkdownRenderer.tsx:46-60 | The `minimal` class entry has every class string set. |
| Preview.NaturePreview | src/components/MarkdownRenderer.tsx:61-75 | The `nature` class entry has every class string set. |

## Left out

- The markdown lexer (`marked.lexer`) is not part of this model. It is the parameter `lex`, and its tokens are the abstract datatype `InlineStyles.Token`. A paragraph token whose `tokens` field is absent is modelled with an empty child sequence.
- Building the document bytes is left out (`Packer.toBlob`), and so is the download (`saveAs`). Both are I/O. `DocxExport.ExportToDocx` stops at the `Document` value.
- The docx library's objects (`Paragraph`, `TextRun`, `Table`, ...) are records of the options the exporter passes to them. How the library lays them out is not modelled.
- The `color` and `size` fields of the heading styles are modelled and checked but never read by `createHeading`, like in the source. The style records carry them only for that reason.
- `createHeading` and `createTable` take the theme instead of the style record `themeStyles[theme]`, which is the only value the source passes them.
- `convertInchesToTwip(0.5)` is the constant 720. The divider glyph is the three characters the source file spells (U+00E2, U+017D, U+00AF). No text encoding is modelled.
- JavaScript strings are sequences of UTF-16 code units; here they are sequences of characters. The two differ only outside the Basic Multilingual Plane, which no literal of the core uses.
- The preview's ReactMarkdown rendering, its components and the syntax highlighter are left out. They are external rendering. The class strings are opaque constants.
- Preview.PreviewStyles: its totality over the four themes is the exhaustive match. The "every class string set" property is stated on the four per-theme entries rather than on the lookup itself.
- Preview.QuoteNoOpen: this is weaker than "the replacement has no `>>`". That stronger claim is false when the content itself holds `>>` (`Preview.NestedOpenSurvives`).
- Every other file of the repository (the PDF export, the application shell, the option pickers) is UI or I/O and not part of this model. Only the `Theme` enumeration is taken from the theme selector.
