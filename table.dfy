/** What `PDFGenerator.add_products_table` draws, as specification
    functions over the drawing operations, and the properties of that
    layout: column widths, the header band, the numbered and shaded data
    rows, and the closing record count. */
module TableLayout {
  import opened Text
  import opened Drawing

  /** Content width of an A4 page between the margins, in millimetres. */
  const AvailableWidth: real := 190.0
  /** Width of the leading row-number column. */
  const IndexColumnWidth: real := 12.0
  const TitleHeight: real := 10.0
  const HeaderHeight: real := 10.0
  const RowHeight: real := 8.0
  const SummaryHeight: real := 10.0
  /** Vertical gap after the title band and before the record count. */
  const Gap: real := 5.0
  const HeaderMaxChars: nat := 15
  const ValueMaxChars: nat := 20

  const Title: string := "Каталог товаров"
  const IndexMarker: string := "№"
  const CountLabel: string := "Всего записей: "

  const Black: Color := Rgb(0, 0, 0)
  const White: Color := Rgb(255, 255, 255)
  const HeaderFill: Color := Rgb(52, 73, 94)
  const RowShade: Color := Rgb(245, 245, 245)
  const TitleInk: Color := Rgb(44, 62, 80)

  /** A data frame: column names in order, and rows of already
      stringified cell values aligned with the columns by position. */
  datatype Frame = Frame(columns: seq<string>, rows: seq<seq<string>>) {
    predicate Rectangular() {
      forall i :: 0 <= i < |rows| ==> |rows[i]| == |columns|
    }
  }

  /** `(190 - 12) / num_cols`: the data columns share what the index
      column leaves of the content width. */
  function ColumnWidth(numCols: nat): (w: real)
    requires numCols >= 1
    ensures w > 0.0
    ensures IndexColumnWidth + numCols as real * w == AvailableWidth
  {
    (AvailableWidth - IndexColumnWidth) / numCols as real
  }

  function TitleStyle(family: string, fill: Color): Style {
    Style(fill, TitleInk, Font(family, Bold, 16))
  }

  function HeaderStyle(family: string): Style {
    Style(HeaderFill, White, Font(family, Bold, 8))
  }

  function RowStyle(family: string): Style {
    Style(RowShade, Black, Font(family, Regular, 7))
  }

  function SummaryStyle(family: string, fill: Color): Style {
    Style(fill, TitleInk, Font(family, Bold, 12))
  }

  /** The page title that `header()` draws at the top of every page. */
  function TitleBand(family: string, fill: Color): seq<Op> {
    [Cell(0.0, TitleHeight, Title, false, Center, false, NextLine, TitleStyle(family, fill)),
     Ln(Some(Gap))]
  }

  function PageOpening(family: string, fill: Color): seq<Op> {
    [AddPage] + TitleBand(family, fill)
  }

  function IndexHeaderCell(family: string): Op {
    Cell(IndexColumnWidth, HeaderHeight, IndexMarker, true, Center, true, Right, HeaderStyle(family))
  }

  function HeaderCell(name: string, w: real, family: string): Op {
    Cell(w, HeaderHeight, Truncate(name, HeaderMaxChars), true, Center, true, Right, HeaderStyle(family))
  }

  function HeaderCells(columns: seq<string>, w: real, family: string): seq<Op>
    decreases |columns|
  {
    if columns == [] then []
    else HeaderCells(columns[..|columns| - 1], w, family) + [HeaderCell(columns[|columns| - 1], w, family)]
  }

  function HeaderBand(columns: seq<string>, w: real, family: string): seq<Op> {
    [IndexHeaderCell(family)] + HeaderCells(columns, w, family) + [Ln(None)]
  }

  /** Row `i` (0-based, counted over the whole table) is shaded when even. */
  predicate Shaded(i: nat) {
    i % 2 == 0
  }

  function IndexCell(i: nat, family: string): Op {
    Cell(IndexColumnWidth, RowHeight, DecimalString(i + 1), true, Center, Shaded(i), Right, RowStyle(family))
  }

  function ValueCell(value: string, w: real, fill: bool, family: string): Op {
    Cell(w, RowHeight, Truncate(value, ValueMaxChars), true, Left, fill, Right, RowStyle(family))
  }

  function ValueCells(row: seq<string>, w: real, fill: bool, family: string): seq<Op>
    decreases |row|
  {
    if row == [] then []
    else ValueCells(row[..|row| - 1], w, fill, family) + [ValueCell(row[|row| - 1], w, fill, family)]
  }

  function RowBand(i: nat, row: seq<string>, w: real, family: string): seq<Op> {
    [IndexCell(i, family)] + ValueCells(row, w, Shaded(i), family) + [Ln(None)]
  }

  /** The bands of `rows`, the `i`-th of them numbered and shaded as row `i`. */
  function RowBands(rows: seq<seq<string>>, w: real, family: string): seq<Op>
    decreases |rows|
  {
    if rows == [] then []
    else RowBands(rows[..|rows| - 1], w, family) + RowBand(|rows| - 1, rows[|rows| - 1], w, family)
  }

  function SummaryBand(count: nat, family: string, fill: Color): seq<Op> {
    [Ln(Some(Gap)),
     Cell(0.0, SummaryHeight, CountLabel + DecimalString(count), false, Left, false, NextLine,
          SummaryStyle(family, fill))]
  }

  /** The fill colour left in effect once the rows are drawn. */
  function FillAfterRows(rows: seq<seq<string>>): Color {
    if |rows| > 0 then RowShade else HeaderFill
  }

  /** Everything `add_products_table` draws when the frame has columns,
      on a surface whose fill colour was `fill` beforehand. */
  function Table(family: string, fill: Color, frame: Frame): seq<Op>
    requires |frame.columns| >= 1
  {
    var w := ColumnWidth(|frame.columns|);
    PageOpening(family, fill)
      + HeaderBand(frame.columns, w, family)
      + RowBands(frame.rows, w, family)
      + SummaryBand(|frame.rows|, family, FillAfterRows(frame.rows))
  }

  lemma CountStep(k: nat, j: nat, b: nat, prev: int, total: int)
    requires j == k + 1 && prev == k * b && total == prev + b
    ensures total == j * b
  {
  }

  // ---------------------------------------------------------------------
  // Header band

  lemma {:induction false} HeaderCellsShape(columns: seq<string>, w: real, family: string)
    ensures |HeaderCells(columns, w, family)| == |columns|
    ensures forall j :: 0 <= j < |columns| ==> HeaderCells(columns, w, family)[j] == HeaderCell(columns[j], w, family)
    ensures CellCount(HeaderCells(columns, w, family)) == |columns|
    decreases |columns|
  {
    if columns != [] {
      var init := columns[..|columns| - 1];
      var cells := HeaderCells(columns, w, family);
      HeaderCellsShape(init, w, family);
      assert cells[..|cells| - 1] == HeaderCells(init, w, family);
      assert forall j :: 0 <= j < |init| ==> columns[j] == init[j];
    }
  }

  /** One band: the `№` cell, one cell per column in order holding the
      name cut to 15 characters, then one line break; every cell framed,
      centred and filled. */
  lemma HeaderBandShape(columns: seq<string>, w: real, family: string)
    ensures var band := HeaderBand(columns, w, family);
      && |band| == |columns| + 2
      && band[0] == Cell(IndexColumnWidth, HeaderHeight, IndexMarker, true, Center, true, Right, HeaderStyle(family))
      && (forall j :: 1 <= j <= |columns| ==>
            band[j] == Cell(w, HeaderHeight, Truncate(columns[j - 1], HeaderMaxChars),
                            true, Center, true, Right, HeaderStyle(family)))
      && band[|columns| + 1] == Ln(None)
  {
    HeaderCellsShape(columns, w, family);
  }

  /** The header band draws `n + 1` cells, which together are as wide
      as the index column and `n` data columns. */
  lemma HeaderBandMeasure(columns: seq<string>, w: real, family: string)
    ensures CellCount(HeaderBand(columns, w, family)) == |columns| + 1
    ensures TotalWidth(HeaderBand(columns, w, family)) == IndexColumnWidth + Scale(|columns|, w)
  {
    var cells := HeaderCells(columns, w, family);
    assert CellCount(cells) == |columns| && TotalWidth(cells) == Scale(|columns|, w) by {
      HeaderCellsShape(columns, w, family);
      forall k | 0 <= k < |cells|
        ensures cells[k].Cell? && cells[k].width == w
      {
        assert cells[k] == HeaderCell(columns[k], w, family);
      }
      UniformWidth(cells, w);
    }
    BandMeasure(IndexHeaderCell(family), cells);
  }

  /** With the shared column width, the header band spans exactly the
      content width. */
  lemma HeaderBandSpansContentWidth(columns: seq<string>, family: string)
    requires |columns| >= 1
    ensures TotalWidth(HeaderBand(columns, ColumnWidth(|columns|), family)) == AvailableWidth
  {
    HeaderBandMeasure(columns, ColumnWidth(|columns|), family);
    ScaleIsProduct(|columns|, ColumnWidth(|columns|));
  }

  // ---------------------------------------------------------------------
  // Data rows

  lemma {:induction false} ValueCellsShape(row: seq<string>, w: real, fill: bool, family: string)
    ensures |ValueCells(row, w, fill, family)| == |row|
    ensures forall j :: 0 <= j < |row| ==> ValueCells(row, w, fill, family)[j] == ValueCell(row[j], w, fill, family)
    ensures CellCount(ValueCells(row, w, fill, family)) == |row|
    decreases |row|
  {
    if row != [] {
      var init := row[..|row| - 1];
      var cells := ValueCells(row, w, fill, family);
      ValueCellsShape(init, w, fill, family);
      assert cells[..|cells| - 1] == ValueCells(init, w, fill, family);
      assert forall j :: 0 <= j < |init| ==> row[j] == init[j];
    }
  }

  /** Row `i` draws `|row| + 1` framed cells of height 8: first the
      1-based number `i + 1`, then the values in column order cut to 20
      characters; all of them shaded exactly when `i` is even; then one
      line break. */
  lemma RowBandShape(i: nat, row: seq<string>, w: real, family: string)
    ensures var band := RowBand(i, row, w, family);
      && |band| == |row| + 2
      && band[0] == Cell(IndexColumnWidth, RowHeight, DecimalString(i + 1), true, Center, i % 2 == 0, Right, RowStyle(family))
      && (forall j :: 1 <= j <= |row| ==>
            band[j] == Cell(w, RowHeight, Truncate(row[j - 1], ValueMaxChars), true, Left, i % 2 == 0, Right, RowStyle(family)))
      && band[|row| + 1] == Ln(None)
  {
    ValueCellsShape(row, w, Shaded(i), family);
  }

  /** Every cell of row `i`'s band is shaded exactly when `i` is even. */
  lemma RowShading(i: nat, row: seq<string>, w: real, family: string)
    ensures forall k :: 0 <= k < |RowBand(i, row, w, family)| ==>
      RowBand(i, row, w, family)[k].Cell? ==> RowBand(i, row, w, family)[k].fill == (i % 2 == 0)
  {
    RowBandShape(i, row, w, family);
  }

  /** Row `i`'s band holds `|row| + 1` cells, which together are as wide
      as the index column and `|row|` data columns. */
  lemma RowBandMeasure(i: nat, row: seq<string>, w: real, family: string)
    ensures CellCount(RowBand(i, row, w, family)) == |row| + 1
    ensures TotalWidth(RowBand(i, row, w, family)) == IndexColumnWidth + Scale(|row|, w)
  {
    var cells := ValueCells(row, w, Shaded(i), family);
    assert CellCount(cells) == |row| && TotalWidth(cells) == Scale(|row|, w) by {
      ValueCellsShape(row, w, Shaded(i), family);
      forall k | 0 <= k < |cells|
        ensures cells[k].Cell? && cells[k].width == w
      {
        assert cells[k] == ValueCell(row[k], w, Shaded(i), family);
      }
      UniformWidth(cells, w);
    }
    BandMeasure(IndexCell(i, family), cells);
  }

  /** With the shared column width, every data band spans exactly the
      content width. */
  lemma RowBandSpansContentWidth(i: nat, row: seq<string>, family: string)
    requires |row| >= 1
    ensures TotalWidth(RowBand(i, row, ColumnWidth(|row|), family)) == AvailableWidth
  {
    RowBandMeasure(i, row, ColumnWidth(|row|), family);
    ScaleIsProduct(|row|, ColumnWidth(|row|));
  }

  /** The data section holds `|rows| * (n + 1)` cells in `|rows|` bands. */
  lemma {:induction false} RowBandsMeasure(rows: seq<seq<string>>, n: nat, w: real, family: string)
    requires forall k :: 0 <= k < |rows| ==> |rows[k]| == n
    ensures |RowBands(rows, w, family)| == |rows| * (n + 2)
    ensures CellCount(RowBands(rows, w, family)) == |rows| * (n + 1)
    decreases |rows|
  {
    if rows != [] {
      var m := |rows|;
      var init := rows[..m - 1];
      var last := RowBand(m - 1, rows[m - 1], w, family);
      RowBandsMeasure(init, n, w, family);
      assert |last| == n + 2 && CellCount(last) == n + 1 by {
        var cells := ValueCells(rows[m - 1], w, Shaded(m - 1), family);
        ValueCellsShape(rows[m - 1], w, Shaded(m - 1), family);
        BandMeasure(IndexCell(m - 1, family), cells);
      }
      var front := RowBands(init, w, family);
      assert RowBands(rows, w, family) == front + last;
      CountsAppend(front, last);
      CountStep(m - 1, m, n + 2, |front|, |RowBands(rows, w, family)|);
      CountStep(m - 1, m, n + 1, CellCount(front), CellCount(RowBands(rows, w, family)));
    }
  }

  /** The bands of the first `k` rows are a prefix of the bands of all rows. */
  lemma {:induction false} RowBandsPrefix(rows: seq<seq<string>>, k: nat, w: real, family: string)
    requires k <= |rows|
    ensures |RowBands(rows[..k], w, family)| <= |RowBands(rows, w, family)|
    ensures RowBands(rows, w, family)[..|RowBands(rows[..k], w, family)|] == RowBands(rows[..k], w, family)
    decreases |rows|
  {
    if k == |rows| {
      assert rows[..k] == rows;
    } else {
      var init := rows[..|rows| - 1];
      var front := RowBands(init, w, family);
      assert RowBands(rows, w, family) == front + RowBand(|rows| - 1, rows[|rows| - 1], w, family);
      assert init[..k] == rows[..k];
      RowBandsPrefix(init, k, w, family);
    }
  }

  /** Band `i` of the data section is row `i`'s band: the rows appear in
      input order, each numbered and shaded by its absolute position. */
  lemma RowBandsAt(rows: seq<seq<string>>, n: nat, w: real, family: string, i: nat)
    requires forall k :: 0 <= k < |rows| ==> |rows[k]| == n
    requires i < |rows|
    ensures |RowBands(rows, w, family)| == |rows| * (n + 2)
    ensures 0 <= i * (n + 2) <= (i + 1) * (n + 2) <= |rows| * (n + 2)
    ensures RowBands(rows, w, family)[i * (n + 2) .. (i + 1) * (n + 2)] == RowBand(i, rows[i], w, family)
  {
    var all := RowBands(rows, w, family);
    var before := RowBands(rows[..i], w, family);
    var upto := RowBands(rows[..i + 1], w, family);
    assert rows[..i + 1][..i] == rows[..i];
    assert upto == before + RowBand(i, rows[i], w, family);
    RowBandsPrefix(rows, i + 1, w, family);
    RowBandsMeasure(rows, n, w, family);
    RowBandsMeasure(rows[..i], n, w, family);
    RowBandsMeasure(rows[..i + 1], n, w, family);
    assert all[|before| .. |upto|] == RowBand(i, rows[i], w, family);
  }

  /** The `i`-th data row's first cell reads back as the number `i + 1`
      and is shaded exactly when `i` is even: numbering starts at 1, has
      no gaps and is never reset. */
  lemma RowNumbering(rows: seq<seq<string>>, n: nat, w: real, family: string, i: nat)
    requires forall k :: 0 <= k < |rows| ==> |rows[k]| == n
    requires i < |rows|
    ensures i * (n + 2) < |RowBands(rows, w, family)|
    ensures var op := RowBands(rows, w, family)[i * (n + 2)];
      && op.Cell? && op.text == DecimalString(i + 1) && DecimalValue(op.text) == i + 1
      && op.fill == (i % 2 == 0)
  {
    var bands := RowBands(rows, w, family);
    var lo, hi := i * (n + 2), (i + 1) * (n + 2);
    RowBandsAt(rows, n, w, family, i);
    assert bands[lo] == bands[lo .. hi][0];
    RowBandShape(i, rows[i], w, family);
    DecimalRoundTrip(i + 1);
  }

  // ---------------------------------------------------------------------
  // The whole table

  /** The order of emission: page opened (with its title band), then the
      header band, then the data section, then a gap and the single
      record-count cell. */
  lemma TableOrder(family: string, fill: Color, frame: Frame)
    requires |frame.columns| >= 1
    ensures var t := Table(family, fill, frame);
      var n := |frame.columns|;
      var w := ColumnWidth(n);
      && |t| == n + 7 + |RowBands(frame.rows, w, family)|
      && t[..3] == PageOpening(family, fill)
      && t[3 .. n + 5] == HeaderBand(frame.columns, w, family)
      && t[n + 5 .. |t| - 2] == RowBands(frame.rows, w, family)
      && t[|t| - 2] == Ln(Some(Gap))
      && t[|t| - 1].Cell? && t[|t| - 1].text == CountLabel + DecimalString(|frame.rows|)
  {
    var n := |frame.columns|;
    var w := ColumnWidth(n);
    var open := PageOpening(family, fill);
    var head := HeaderBand(frame.columns, w, family);
    var body := RowBands(frame.rows, w, family);
    var tail := SummaryBand(|frame.rows|, family, FillAfterRows(frame.rows));
    assert |open| == 3 && |tail| == 2;
    assert |head| == n + 2 by {
      HeaderBandShape(frame.columns, w, family);
    }
    assert Table(family, fill, frame) == open + head + body + tail;
    FourParts(open, head, body, tail);
  }

  /** Where each of four consecutive parts sits in their concatenation. */
  lemma FourParts(a: seq<Op>, b: seq<Op>, c: seq<Op>, d: seq<Op>)
    ensures var t := a + b + c + d;
      && t[..|a|] == a
      && t[|a| .. |a| + |b|] == b
      && t[|a| + |b| .. |t| - |d|] == c
      && t[|t| - |d| ..] == d
  {
  }

  /** Data row `i` is drawn as the `i`-th band after the header band, in
      input order. */
  lemma TableRowAt(family: string, fill: Color, frame: Frame, i: nat)
    requires |frame.columns| >= 1 && frame.Rectangular()
    requires i < |frame.rows|
    ensures var n := |frame.columns|;
      var t := Table(family, fill, frame);
      && 0 <= i * (n + 2) <= (i + 1) * (n + 2) <= |t| - n - 7
      && t[n + 5 + i * (n + 2) .. n + 5 + (i + 1) * (n + 2)] == RowBand(i, frame.rows[i], ColumnWidth(n), family)
  {
    var n := |frame.columns|;
    var w := ColumnWidth(n);
    var t := Table(family, fill, frame);
    var body := RowBands(frame.rows, w, family);
    var lo, hi := i * (n + 2), (i + 1) * (n + 2);
    assert |t| == n + 7 + |body| && t[n + 5 .. |t| - 2] == body by {
      TableOrder(family, fill, frame);
    }
    assert 0 <= lo <= hi <= |body| && body[lo .. hi] == RowBand(i, frame.rows[i], w, family) by {
      RowBandsAt(frame.rows, n, w, family, i);
    }
    SliceOfSlice(t, n + 5, |t| - 2, lo, hi);
  }

  /** A slice of a slice is a slice of the whole. */
  lemma SliceOfSlice(t: seq<Op>, a: nat, b: nat, lo: nat, hi: nat)
    requires a <= b <= |t| && lo <= hi <= b - a
    ensures t[a + lo .. a + hi] == t[a .. b][lo .. hi]
  {
    forall k | 0 <= k < hi - lo
      ensures t[a + lo .. a + hi][k] == t[a .. b][lo .. hi][k]
    {
      assert t[a .. b][lo .. hi][k] == t[a .. b][lo + k];
    }
  }

  /** The table draws `(|rows| + 1) * (n + 1) + 2` cells: the title, the
      header band, one band per row and the record count. */
  lemma TableCellCount(family: string, fill: Color, frame: Frame)
    requires |frame.columns| >= 1 && frame.Rectangular()
    ensures CellCount(Table(family, fill, frame)) == (|frame.rows| + 1) * (|frame.columns| + 1) + 2
  {
    var n := |frame.columns|;
    var r := |frame.rows|;
    var w := ColumnWidth(n);
    var open := PageOpening(family, fill);
    var head := HeaderBand(frame.columns, w, family);
    var body := RowBands(frame.rows, w, family);
    var tail := SummaryBand(r, family, FillAfterRows(frame.rows));
    assert CellCount(head) == n + 1 by {
      HeaderBandMeasure(frame.columns, w, family);
    }
    assert CellCount(body) == r * (n + 1) by {
      RowBandsMeasure(frame.rows, n, w, family);
    }
    assert CellCount(open) == 1 by {
      CountsSingle(AddPage);
      CountsSingle(open[1]);
      CountsSingle(open[2]);
      CountsAppend([AddPage], [open[1]]);
      CountsAppend([AddPage] + [open[1]], [open[2]]);
      assert open == [AddPage] + [open[1]] + [open[2]];
    }
    assert CellCount(tail) == 1 by {
      CountsSingle(tail[0]);
      CountsSingle(tail[1]);
      CountsAppend([tail[0]], [tail[1]]);
      assert tail == [tail[0]] + [tail[1]];
    }
    CountsAppend(open, head);
    CountsAppend(open + head, body);
    CountsAppend(open + head + body, tail);
    assert Table(family, fill, frame) == open + head + body + tail;
    CountStep(r, r + 1, n + 1, CellCount(body), CellCount(head) + CellCount(body));
  }
}
