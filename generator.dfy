/** `PDFGenerator`: a drawing surface whose current fill colour, text
    colour and font are changed in place, and which records every
    operation it is asked to draw. `AddProductsTable` lays out a frame as
    a table by the same sequence of calls as `add_products_table`. */
module Generator {
  import opened Text
  import opened Drawing
  import opened TableLayout

  class PdfGenerator {
    /** The font family chosen when the generator was set up. */
    const fontName: string
    var fillColor: Color
    var textColor: Color
    var font: Font
    /** Everything drawn so far, in order. */
    var ops: seq<Op>

    constructor (family: string)
      ensures fontName == family
      ensures fillColor == Black && textColor == Black && font == NoFont && ops == []
    {
      fontName := family;
      fillColor := Black;
      textColor := Black;
      font := NoFont;
      ops := [];
    }

    function CurrentStyle(): Style
      reads this
    {
      Style(fillColor, textColor, font)
    }

    method SetFillColor(c: Color)
      modifies this
      ensures fillColor == c
      ensures textColor == old(textColor) && font == old(font) && ops == old(ops)
    {
      fillColor := c;
    }

    method SetTextColor(c: Color)
      modifies this
      ensures textColor == c
      ensures fillColor == old(fillColor) && font == old(font) && ops == old(ops)
    {
      textColor := c;
    }

    method SetFont(family: string, emphasis: Emphasis, size: nat)
      modifies this
      ensures font == Font(family, emphasis, size)
      ensures fillColor == old(fillColor) && textColor == old(textColor) && ops == old(ops)
    {
      font := Font(family, emphasis, size);
    }

    /** Draws one cell in the current style. */
    method Cell(w: real, h: real, text: string, border: bool, align: Align, fill: bool, next: NextPos)
      modifies this
      ensures ops == old(ops) + [Op.Cell(w, h, text, border, align, fill, next, old(CurrentStyle()))]
      ensures fillColor == old(fillColor) && textColor == old(textColor) && font == old(font)
    {
      ops := ops + [Op.Cell(w, h, text, border, align, fill, next, CurrentStyle())];
    }

    method Ln(h: Option<real>)
      modifies this
      ensures ops == old(ops) + [Op.Ln(h)]
      ensures fillColor == old(fillColor) && textColor == old(textColor) && font == old(font)
    {
      ops := ops + [Op.Ln(h)];
    }

    /** The title band drawn at the top of each page. */
    method Header()
      modifies this
      ensures ops == old(ops) + TitleBand(fontName, old(fillColor))
      ensures fillColor == old(fillColor) && textColor == TitleInk && font == Font(fontName, Bold, 16)
    {
      SetFont(fontName, Bold, 16);
      SetTextColor(TitleInk);
      Cell(0.0, TitleHeight, Title, false, Center, false, NextLine);
      Ln(Some(Gap));
    }

    /** Opens a page and draws its title band; the colours, and the font
        once one has been chosen, are the same afterwards as before. */
    method AddPage()
      modifies this
      ensures ops == old(ops) + PageOpening(fontName, old(fillColor))
      ensures fillColor == old(fillColor) && textColor == old(textColor)
      ensures font == if old(font) == NoFont then Font(fontName, Bold, 16) else old(font)
    {
      var savedFill, savedText, savedFont := fillColor, textColor, font;
      ops := ops + [Op.AddPage];
      Header();
      if savedFont != NoFont {
        font := savedFont;
      }
      fillColor, textColor := savedFill, savedText;
    }

    /** The table's header band: the `№` cell, then each column name cut
        to 15 characters, on the header colours. */
    method DrawHeaderBand(columns: seq<string>, colWidth: real)
      modifies this
      ensures ops == old(ops) + HeaderBand(columns, colWidth, fontName)
      ensures CurrentStyle() == HeaderStyle(fontName)
    {
      SetFillColor(HeaderFill);
      SetTextColor(White);
      SetFont(fontName, Bold, 8);
      ghost var start := ops;
      Cell(IndexColumnWidth, HeaderHeight, IndexMarker, true, Center, true, Right);
      for j := 0 to |columns|
        invariant ops == start + [IndexHeaderCell(fontName)] + HeaderCells(columns[..j], colWidth, fontName)
        invariant CurrentStyle() == HeaderStyle(fontName)
      {
        Cell(colWidth, HeaderHeight, Truncate(columns[j], HeaderMaxChars), true, Center, true, Right);
        assert columns[..j + 1][..j] == columns[..j];
      }
      Ln(None);
      assert columns[..|columns|] == columns;
    }

    /** Data row `i` (0-based): its number `i + 1`, then each value cut to
        20 characters, shaded when `i` is even. An odd row keeps the fill
        colour that the even row before it set. */
    method DrawRow(i: nat, row: seq<string>, colWidth: real)
      requires textColor == Black && font == Font(fontName, Regular, 7)
      requires i % 2 == 1 ==> fillColor == RowShade
      modifies this
      ensures ops == old(ops) + RowBand(i, row, colWidth, fontName)
      ensures CurrentStyle() == RowStyle(fontName)
    {
      var fill: bool;
      if i % 2 == 0 {
        SetFillColor(RowShade);
        fill := true;
      } else {
        fill := false;
      }
      ghost var start := ops;
      Cell(IndexColumnWidth, RowHeight, DecimalString(i + 1), true, Center, fill, Right);
      for j := 0 to |row|
        invariant ops == start + [IndexCell(i, fontName)] + ValueCells(row[..j], colWidth, fill, fontName)
        invariant CurrentStyle() == RowStyle(fontName)
      {
        Cell(colWidth, RowHeight, Truncate(row[j], ValueMaxChars), true, Left, fill, Right);
        assert row[..j + 1][..j] == row[..j];
      }
      Ln(None);
      assert row[..|row|] == row;
    }

    /** The data rows in input order, numbered from 1 and shaded on the
        even absolute row index. */
    method DrawRows(rows: seq<seq<string>>, colWidth: real)
      requires textColor == Black && font == Font(fontName, Regular, 7)
      modifies this
      ensures ops == old(ops) + RowBands(rows, colWidth, fontName)
      ensures fillColor == (if |rows| == 0 then old(fillColor) else RowShade)
      ensures textColor == Black && font == Font(fontName, Regular, 7)
    {
      ghost var start := ops;
      ghost var fill0 := fillColor;
      for i := 0 to |rows|
        invariant ops == start + RowBands(rows[..i], colWidth, fontName)
        invariant fillColor == (if i == 0 then fill0 else RowShade)
        invariant textColor == Black && font == Font(fontName, Regular, 7)
      {
        DrawRow(i, rows[i], colWidth);
        assert rows[..i + 1][..i] == rows[..i];
      }
      assert rows[..|rows|] == rows;
    }

    /** A gap, then the record count in the title colour. */
    method DrawSummary(count: nat)
      modifies this
      ensures ops == old(ops) + SummaryBand(count, fontName, old(fillColor))
      ensures fillColor == old(fillColor) && textColor == TitleInk && font == Font(fontName, Bold, 12)
    {
      Ln(Some(Gap));
      SetFont(fontName, Bold, 12);
      SetTextColor(TitleInk);
      Cell(0.0, SummaryHeight, CountLabel + DecimalString(count), false, Left, false, NextLine);
    }

    /** Lays out `frame` as a table: a page, the header band, one band per
        row, and the record count. A frame without columns fails after
        the page is opened, when the column width is divided by zero. */
    method AddProductsTable(frame: Frame) returns (ok: bool)
      requires frame.Rectangular()
      modifies this
      ensures ok <==> |frame.columns| >= 1
      ensures ok ==> ops == old(ops) + Table(fontName, old(fillColor), frame)
      ensures ok ==> fillColor == FillAfterRows(frame.rows) && textColor == TitleInk && font == Font(fontName, Bold, 12)
      ensures !ok ==> ops == old(ops) + PageOpening(fontName, old(fillColor))
      ensures !ok ==> fillColor == old(fillColor) && textColor == old(textColor)
      ensures !ok ==> font == if old(font) == NoFont then Font(fontName, Bold, 16) else old(font)
    {
      ghost var before := ops;
      ghost var fill0 := fillColor;
      AddPage();
      var columns := frame.columns;
      var numCols := |columns|;
      if numCols == 0 {
        return false;
      }
      var colWidth := ColumnWidth(numCols);
      DrawHeaderBand(columns, colWidth);
      SetTextColor(Black);
      SetFont(fontName, Regular, 7);
      DrawRows(frame.rows, colWidth);
      DrawSummary(|frame.rows|);
      ghost var opening := PageOpening(fontName, fill0);
      ghost var head := HeaderBand(columns, colWidth, fontName);
      ghost var body := RowBands(frame.rows, colWidth, fontName);
      ghost var tail := SummaryBand(|frame.rows|, fontName, FillAfterRows(frame.rows));
      assert ops == before + opening + head + body + tail;
      assert Table(fontName, fill0, frame) == opening + head + body + tail;
      ok := true;
    }
  }
}
