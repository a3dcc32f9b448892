/**
 * The style side of the document exporter: the per-theme style records and
 * the options `createHeading` and `createTable` give the document library.
 */
module DocxStyles {
  import opened Wrappers
  import opened Themes
  import opened InlineStyles

  datatype H1Style = H1Style(color: string, size: nat, spacing: nat, background: string, gradientFrom: string, gradientTo: string)
  datatype H2Style = H2Style(color: string, size: nat, spacing: nat, background: string)
  datatype H3Style = H3Style(color: string, size: nat, spacing: nat, borderColor: string)
  datatype TableStyle = TableStyle(headerColor: string, borderColor: string)
  datatype StyleRecord = StyleRecord(h1: H1Style, h2: H2Style, h3: H3Style, table: TableStyle)

  /** Six upper-case hexadecimal digits, the colour format of the document library. */
  predicate IsHexColor(s: string) {
    |s| == 6 && forall i :: 0 <= i < 6 ==> s[i] in "0123456789ABCDEF"
  }

  /** Every colour of the record is set, and sizes and spacings follow the level. */
  predicate WellFormedStyle(s: StyleRecord) {
    && IsHexColor(s.h1.color) && IsHexColor(s.h1.background)
    && IsHexColor(s.h1.gradientFrom) && IsHexColor(s.h1.gradientTo)
    && IsHexColor(s.h2.color) && IsHexColor(s.h2.background)
    && IsHexColor(s.h3.color) && IsHexColor(s.h3.borderColor)
    && IsHexColor(s.table.headerColor) && IsHexColor(s.table.borderColor)
    && s.h1.size == 48 && s.h2.size == 36 && s.h3.size == 30
    && s.h1.spacing == 480 && s.h2.spacing == 360 && s.h3.spacing == 240
  }

  /** The exporter's `themeStyles` table, total over the themes. */
  function ThemeStyle(theme: Theme): (s: StyleRecord)
    ensures WellFormedStyle(s)
    ensures s.h1.size > s.h2.size > s.h3.size
    ensures s.h1.spacing > s.h2.spacing > s.h3.spacing
  {
    match theme
    case Modern => ModernStyle()
    case Vintage => VintageStyle()
    case Minimal => MinimalStyle()
    case Nature => NatureStyle()
  }

  /** The `modern` entry of the table. */
  function ModernStyle(): (s: StyleRecord)
    ensures WellFormedStyle(s)
  {
    StyleRecord(
      H1Style("6B46C1", 48, 480, "F3E8FF", "7C3AED", "9333EA"),
      H2Style("9333EA", 36, 360, "F3E8FF"),
      H3Style("7C3AED", 30, 240, "7C3AED"),
      TableStyle("F3E8FF", "E9D5FF"))
  }

  /** The `vintage` entry of the table. */
  function VintageStyle(): (s: StyleRecord)
    ensures WellFormedStyle(s)
  {
    StyleRecord(
      H1Style("92400E", 48, 480, "FEF3C7", "B45309", "D97706"),
      H2Style("B45309", 36, 360, "FEF3C7"),
      H3Style("D97706", 30, 240, "D97706"),
      TableStyle("FEF3C7", "FDE68A"))
  }

  /** The `minimal` entry of the table. */
  function MinimalStyle(): (s: StyleRecord)
    ensures WellFormedStyle(s)
  {
    StyleRecord(
      H1Style("111827", 48, 480, "F3F4F6", "374151", "4B5563"),
      H2Style("374151", 36, 360, "F3F4F6"),
      H3Style("4B5563", 30, 240, "4B5563"),
      TableStyle("F3F4F6", "E5E7EB"))
  }

  /** The `nature` entry of the table. */
  function NatureStyle(): (s: StyleRecord)
    ensures WellFormedStyle(s)
  {
    StyleRecord(
      H1Style("047857", 48, 480, "ECFDF5", "059669", "10B981"),
      H2Style("059669", 36, 360, "ECFDF5"),
      H3Style("10B981", 30, 240, "10B981"),
      TableStyle("ECFDF5", "A7F3D0"))
  }

  /** The document library's `HeadingLevel`, restricted to the three levels the exporter uses. */
  datatype HeadingLevel = H1 | H2 | H3

  /** Twips before and after a paragraph. */
  datatype Spacing = Spacing(before: nat, after: nat)
  /** A `ShadingType.CLEAR` shading. */
  datatype Shading = Shading(fill: string, color: string)
  /** A `BorderStyle.SINGLE` border. */
  datatype Border = Border(color: string, size: nat)

  /** The options object `createHeading` hands to `new Paragraph`. */
  datatype HeadingOptions = HeadingOptions(
    children: seq<Run>,
    heading: HeadingLevel,
    spacing: Spacing,
    shading: Option<Shading>,
    leftBorder: Option<Border>)

  /** The spacing of the style record a level selects. */
  function LevelSpacing(level: HeadingLevel, style: StyleRecord): nat {
    match level
    case H1 => style.h1.spacing
    case H2 => style.h2.spacing
    case H3 => style.h3.spacing
  }

  /**
   * `createHeading`: spacing from the level's record with half of it after;
   * level 1 shaded and bordered on the left in its gradient colour, level 2
   * shaded only, level 3 bordered only, in its border colour.
   */
  function CreateHeading(children: seq<Run>, level: HeadingLevel, theme: Theme): (o: HeadingOptions)
    ensures o.children == children && o.heading == level
    ensures o.spacing.after * 2 == o.spacing.before
    ensures o.spacing.before == LevelSpacing(level, ThemeStyle(theme))
    ensures o.shading.Some? <==> level != H3
    ensures o.leftBorder.Some? <==> level != H2
    ensures level == H1 ==>
              o.shading == Some(Shading(ThemeStyle(theme).h1.background, ThemeStyle(theme).h1.background))
              && o.leftBorder == Some(Border(ThemeStyle(theme).h1.gradientFrom, 6))
    ensures level == H2 ==>
              o.shading == Some(Shading(ThemeStyle(theme).h2.background, ThemeStyle(theme).h2.background))
    ensures level == H3 ==> o.leftBorder == Some(Border(ThemeStyle(theme).h3.borderColor, 4))
  {
    var style := ThemeStyle(theme);
    var spacing := LevelSpacing(level, style);
    var options := HeadingOptions(children, level, Spacing(spacing, spacing / 2), None, None);
    match level
    case H1 =>
      options.(shading := Some(Shading(style.h1.background, style.h1.background)),
               leftBorder := Some(Border(style.h1.gradientFrom, 6)))
    case H2 =>
      options.(shading := Some(Shading(style.h2.background, style.h2.background)))
    case H3 =>
      options.(leftBorder := Some(Border(style.h3.borderColor, 4)))
  }

  /** Spacing shrinks strictly from level 1 to level 3 in every theme. */
  lemma HeadingSpacingDecreases(children: seq<Run>, theme: Theme)
    ensures CreateHeading(children, H1, theme).spacing.before > CreateHeading(children, H2, theme).spacing.before
    ensures CreateHeading(children, H2, theme).spacing.before > CreateHeading(children, H3, theme).spacing.before
  {
  }

  /** Spacing of every paragraph, table cell, rule and note the exporter writes. */
  const BODY_SPACING: Spacing := Spacing(120, 120)

  datatype Cell = Cell(children: seq<Run>, spacing: Spacing, shading: Option<Shading>)
  datatype Row = Row(cells: seq<Cell>, tableHeader: bool)
  datatype TableBorders = TableBorders(
    top: Border, bottom: Border, left: Border, right: Border,
    insideHorizontal: Border, insideVertical: Border)
  /** A `Table` of the document library; its width is a percentage of the page. */
  datatype TableLayout = TableLayout(rows: seq<Row>, widthPercent: nat, borders: TableBorders)

  /** The cell of row `rowIndex` holding `text`; only header cells are shaded. */
  function CreateCell(text: string, rowIndex: nat, style: StyleRecord, lex: string -> seq<Token>): Cell {
    Cell(InlineRuns(lex(text)), BODY_SPACING,
         if rowIndex == 0 then Some(Shading(style.table.headerColor, style.table.headerColor)) else None)
  }

  /**
   * `createTable`: one table row per input row and one cell per input cell, in
   * order; row 0 alone is the shaded, repeated header; every border single,
   * size 1, in the theme's table border colour.
   */
  function CreateTable(rows: seq<seq<string>>, theme: Theme, lex: string -> seq<Token>): (t: TableLayout)
    ensures |t.rows| == |rows| && t.widthPercent == 100
    ensures forall i :: 0 <= i < |rows| ==>
              |t.rows[i].cells| == |rows[i]| && (t.rows[i].tableHeader <==> i == 0)
    ensures forall i, j :: 0 <= i < |rows| && 0 <= j < |rows[i]| ==>
              t.rows[i].cells[j].children == InlineRuns(lex(rows[i][j]))
              && t.rows[i].cells[j].spacing == BODY_SPACING
              && (t.rows[i].cells[j].shading.Some? <==> i == 0)
    ensures forall j :: 0 < |rows| && 0 <= j < |rows[0]| ==>
              t.rows[0].cells[j].shading == Some(Shading(ThemeStyle(theme).table.headerColor, ThemeStyle(theme).table.headerColor))
    ensures var b := Border(ThemeStyle(theme).table.borderColor, 1);
            t.borders == TableBorders(b, b, b, b, b, b)
  {
    var style := ThemeStyle(theme);
    var b := Border(style.table.borderColor, 1);
    var tableRows := seq(|rows|, i requires 0 <= i < |rows| =>
      Row(seq(|rows[i]|, j requires 0 <= j < |rows[i]| => CreateCell(rows[i][j], i, style, lex)), i == 0));
    TableLayout(tableRows, 100, TableBorders(b, b, b, b, b, b))
  }
}
