# PDF table layout of the CSV-to-PDF generator

This project models the table layout of `PDFGenerator.add_products_table`
in `generate_pdf.py`. The routine takes a data frame (ordered column names
and rows of cell values) and draws it on an FPDF page:

- it opens a page, and the page header draws the title band;
- it gives a 12-unit index column and shares the remaining 178 of the
  190-unit content width equally among the data columns;
- it draws one header band: a `№` cell, then each column name cut to 15
  characters, framed, centred and filled in dark blue-grey with white bold
  text;
- it draws one band per data row: the 1-based row number, then each value
  cut to 20 characters. A row is shaded light grey when its 0-based index
  is even;
- it ends with a 5-unit gap and the cell `Всего записей: <row count>`.

The drawing surface is the class `Generator.PdfGenerator`. Its fields are
the current fill colour, text colour and font, and `ops`, the sequence of
drawing operations issued so far (`AddPage`, `Cell`, `Ln`). Each `Cell`
records the style in effect when it was drawn. So the colour switches the
source makes between `set_fill_color` and `cell` show up in the output.
`AddProductsTable` makes the same sequence of calls as the source. Its
postcondition ties the new `ops` to the specification function
`TableLayout.Table`. The lemmas in `TableLayout` prove what that table
contains. The column-width division and the `s[:n]` truncation are pure
functions (`TableLayout.ColumnWidth`, `Text.Truncate`).

Files: `text.dfy` (truncation and decimal numbers), `drawing.dfy` (the
drawing vocabulary, cell counts and width sums), `table.dfy` (constants,
the specification of every band, and the layout lemmas), `generator.dfy`
(the imperative drawing surface).

Behaviour of the code worth noting:

- Column widths are the quotient `(190 - 12) / n`; the code does not floor
  or truncate it. The model uses the exact quotient, so in the model the
  widths add up to exactly 190.
- A frame with no columns is not rejected before drawing. The page is
  opened first, and then the width division fails. `AddProductsTable`
  returns `false` with just the opened page drawn.
- The table header band is drawn once. It is not drawn again after an
  automatic page break.
- The summary label is the Russian `Всего записей: `.

Rows are matched to columns by position. `row[col]` looks a value up by
column name, and pandas' CSV reader makes duplicate column names distinct,
so lookup by name and by position agree.

## Model

| member | source | states |
|---|---|---|
| Text.Truncate | generate_pdf.py:188 | `s[:n]` is the prefix of `s` whose length is the smaller of `|s|` and `n` |
| Text.TruncateShortUnchanged | generate_pdf.py:207 | a value no longer than the limit is drawn unchanged |
| Text.TruncateIdempotent | generate_pdf.py:207 | cutting an already cut text again changes nothing |
| Text.TruncateTwice | generate_pdf.py:188 | cutting to `m` and then to `n` is cutting to `min(m, n)` |
| Text.DecimalString | generate_pdf.py:204 | `str(n)` is a non-empty string of decimal digits without a leading zero; it is one digit exactly when `n < 10` |
| Text.DecimalRoundTrip | generate_pdf.py:204 | reading `str(n)` back as a decimal number gives `n` |
| Text.DecimalStringInjective | generate_pdf.py:204 | different row numbers never render as the same text |
| TableLayout.ColumnWidth | generate_pdf.py:176-178 | for at least one column, the shared width is positive and `12 + n * width == 190` exactly |
| Drawing.ScaleIsProduct | generate_pdf.py:176-178 | `n` cells of width `w` side by side are `n * w` wide |
| TableLayout.HeaderBandShape | generate_pdf.py:181-190 | the header band is the `№` cell (width 12, height 10), then one cell per column in column order holding the name cut to 15 characters, then one line break; every cell is framed, centred, filled and in the header style |
| TableLayout.HeaderBandMeasure | generate_pdf.py:181-190 | for any column width `w`, the header band has `n + 1` cells whose widths add up to 12 plus `n` copies of `w` |
| TableLayout.HeaderBandSpansContentWidth | generate_pdf.py:176-190 | with the shared column width, the header band's cells add up to exactly the content width 190 |
| TableLayout.RowBandShape | generate_pdf.py:196-209 | row `i` draws its number `str(i + 1)` in a centred 12-wide cell, then each value in column order cut to 20 characters, every cell framed, 8 high, filled exactly when `i` is even; then one line break |
| TableLayout.RowShading | generate_pdf.py:198-202 | every cell of row `i` is shaded exactly when `i % 2 == 0`; the shading depends on `i` alone |
| TableLayout.RowBandMeasure | generate_pdf.py:204-209 | for any column width `w`, a row band has `n + 1` cells whose widths add up to 12 plus `n` copies of `w` |
| TableLayout.RowBandSpansContentWidth | generate_pdf.py:176-209 | with the shared column width, every data band's cells add up to exactly the content width 190, the same as the header band |
| TableLayout.RowBandsPrefix | generate_pdf.py:193-209 | the bands drawn for the first `k` rows are a prefix of the bands drawn for all rows: later rows only append |
| TableLayout.RowBandsMeasure | generate_pdf.py:196-209 | the data section of `r` rows has `r * (n + 2)` operations, of which `r * (n + 1)` are cells |
| TableLayout.RowBandsAt | generate_pdf.py:196-209 | the `i`-th band of the data section is row `i`'s band, so the rows appear in input order |
| TableLayout.RowNumbering | generate_pdf.py:196-204 | the first cell of the `i`-th data band reads back as the number `i + 1` and is shaded exactly when `i` is even; numbers start at 1, have no gaps and are never reset |
| TableLayout.TableOrder | generate_pdf.py:170-215 | the table is the opened page with its title, then the header band, then the data section, then `Ln(5)` and one cell reading `Всего записей: ` followed by the row count |
| TableLayout.TableRowAt | generate_pdf.py:193-209 | data row `i` occupies positions `n + 5 + i * (n + 2)` up to `n + 5 + (i + 1) * (n + 2)` of the table |
| TableLayout.TableCellCount | generate_pdf.py:170-215 | the table has `(r + 1) * (n + 1) + 2` cells: the title, the header band, `r` row bands and the record count |
| Generator.PdfGenerator.constructor | generate_pdf.py:106-109 | a fresh surface has black fill and text, no font, nothing drawn, and keeps the font family chosen at set-up |
| Generator.PdfGenerator.SetFillColor | generate_pdf.py:181 | sets the fill colour; the text colour, font and drawn operations are unchanged |
| Generator.PdfGenerator.SetTextColor | generate_pdf.py:182 | sets the text colour; the fill colour, font and drawn operations are unchanged |
| Generator.PdfGenerator.SetFont | generate_pdf.py:183 | sets the font family, emphasis and size; the colours and drawn operations are unchanged |
| Generator.PdfGenerator.Cell | generate_pdf.py:185 | appends one cell carrying its arguments and the style in effect; the style is unchanged |
| Generator.PdfGenerator.Ln | generate_pdf.py:190 | appends one line break with the given height, or none for `ln()`; the style is unchanged |
| Generator.PdfGenerator.Header | generate_pdf.py:147-152 | draws the title band (a full-width centred cell `Каталог товаров` in bold 16 on the title colour, then `Ln(5)`) and leaves the title font and colour set |
| Generator.PdfGenerator.AddPage | generate_pdf.py:170 | appends `AddPage` and the title band; the colours, and the font once one is set, are as they were before |
| Generator.PdfGenerator.DrawHeaderBand | generate_pdf.py:180-190 | appends exactly `HeaderBand` after setting the header fill, text colour and bold 8 font |
| Generator.PdfGenerator.DrawRow | generate_pdf.py:197-209 | appends exactly row `i`'s band; an even row first sets the grey fill, and an odd row relies on the grey fill the row before it set |
| Generator.PdfGenerator.DrawRows | generate_pdf.py:192-209 | appends the bands of all rows in input order; the fill is grey afterwards whenever there was a row |
| Generator.PdfGenerator.DrawSummary | generate_pdf.py:211-215 | appends `Ln(5)` and the record-count cell in bold 12 on the title colour |
| Generator.PdfGenerator.AddProductsTable | generate_pdf.py:162-215 | succeeds exactly when the frame has a column. It then appends exactly `Table(...)` and leaves the summary style set. Without columns it appends only the opened page and keeps the colours and the font `add_page` leaves. Only the generator's own fields change; the frame is a value and is never modified |

## Left out

- Pagination: page breaks happen inside FPDF (`set_auto_page_break`), whose code is not part of this model. An automatic break inside `cell()` runs `add_page`, which draws the footer and the title band of `header()` (generate_pdf.py:147-152) again, so a table longer than one page gets further `AddPage`, footer and title-band operations between data rows. The model records only the calls `add_products_table` makes itself; `TableOrder`, `TableRowAt` and `TableCellCount` describe the whole output only when the table fits on one page. The footer (timestamp and page number) depends on the clock.
- Font discovery (`_setup_font`, `_get_fonts_dir`): filesystem and platform probing. The chosen family is the constructor's parameter.
- CSV and template reading and validation (`validate_csv`, `validate_template`): pandas and file I/O. Cell values arrive already converted with `str`. How pandas formats its scalars is not modelled.
- Output directory, file name, `pdf.output`, `generate_pdf_from_data`, `generate_pdf_from_template`, `open_file`, `parse_arguments`, `main`: filesystem, clock, subprocess and console glue.
- What FPDF does with the operations (text measurement, cursor movement, a width-0 cell reaching the right margin, how far `Ln(None)` moves) is not modelled. `Ln(None)` records the `ln()` call without its argument.
- TableLayout.ColumnWidth: uses exact `real` division; the source's Python float may differ from it in the last bits, so its exact sum to 190 holds of the model, not necessarily of IEEE doubles.
- Generator.PdfGenerator.AddProductsTable: assumes the chosen font family has both a regular and a bold Unicode face. `_setup_font` registers the bold face only when its file exists (generate_pdf.py:129-130), and the fallback `Helvetica` (generate_pdf.py:137) cannot encode `Каталог товаров` or `№`; the errors FPDF raises in those cases are not modelled, so the method fails only for a frame without columns.
