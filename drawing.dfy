/** The drawing surface's vocabulary: colours, fonts, and the operations
    a page receives (`add_page`, `cell`, `ln`). A cell records the style
    that was in effect when it was drawn. */
module Drawing {

  datatype Option<T> = None | Some(value: T)

  type Channel = x: int | 0 <= x < 256

  datatype Color = Rgb(r: Channel, g: Channel, b: Channel)

  datatype Emphasis = Regular | Bold

  /** `NoFont` is the surface's state before the first `set_font`. */
  datatype Font = NoFont | Font(family: string, emphasis: Emphasis, size: nat)

  /** The current fill colour, text colour and font. */
  datatype Style = Style(fill: Color, text: Color, font: Font)

  datatype Align = Left | Center

  /** Where the cursor goes after a cell: to its right (the default), or to
      the left margin of the next line (`new_x='LMARGIN', new_y='NEXT'`). */
  datatype NextPos = Right | NextLine

  /** A cell of width 0 extends to the right margin. `Ln(None)` advances
      by the height of the last cell drawn. */
  datatype Op =
    | AddPage
    | Cell(width: real, height: real, text: string, border: bool, align: Align,
           fill: bool, next: NextPos, style: Style)
    | Ln(h: Option<real>)

  /** Number of cells among `ops`. */
  function CellCount(ops: seq<Op>): (n: nat)
    ensures n <= |ops|
  {
    if ops == [] then 0
    else CellCount(ops[..|ops| - 1]) + (if ops[|ops| - 1].Cell? then 1 else 0)
  }

  /** Sum of the widths of the cells among `ops`. */
  function TotalWidth(ops: seq<Op>): real {
    if ops == [] then 0.0
    else TotalWidth(ops[..|ops| - 1]) + (if ops[|ops| - 1].Cell? then ops[|ops| - 1].width else 0.0)
  }

  lemma CountsSingle(op: Op)
    ensures CellCount([op]) == if op.Cell? then 1 else 0
    ensures TotalWidth([op]) == if op.Cell? then op.width else 0.0
  {
    assert [op][..0] == [];
  }

  lemma {:induction false} CountsAppend(a: seq<Op>, b: seq<Op>)
    ensures CellCount(a + b) == CellCount(a) + CellCount(b)
    ensures TotalWidth(a + b) == TotalWidth(a) + TotalWidth(b)
    decreases |b|
  {
    if b == [] {
      assert a + b == a;
    } else {
      var b' := b[..|b| - 1];
      CountsAppend(a, b');
      assert (a + b)[..|a + b| - 1] == a + b';
    }
  }

  /** A band: a leading cell, the cells `cells`, and a line break. */
  lemma BandMeasure(first: Op, cells: seq<Op>)
    requires first.Cell?
    ensures CellCount([first] + cells + [Ln(None)]) == CellCount(cells) + 1
    ensures TotalWidth([first] + cells + [Ln(None)]) == first.width + TotalWidth(cells)
  {
    CountsSingle(first);
    CountsSingle(Ln(None));
    CountsAppend([first], cells);
    CountsAppend([first] + cells, [Ln(None)]);
  }

  /** The width of `k` cells of width `w` side by side. */
  function Scale(k: nat, w: real): real {
    if k == 0 then 0.0 else Scale(k - 1, w) + w
  }

  lemma {:induction false} ScaleIsProduct(k: nat, w: real)
    ensures Scale(k, w) == k as real * w
  {
    if k > 0 {
      ScaleIsProduct(k - 1, w);
    }
  }

  /** Cells that all have width `w` span `|ops|` times `w`. */
  lemma {:induction false} UniformWidth(ops: seq<Op>, w: real)
    requires forall k :: 0 <= k < |ops| ==> ops[k].Cell? && ops[k].width == w
    ensures TotalWidth(ops) == Scale(|ops|, w)
    decreases |ops|
  {
    if ops != [] {
      UniformWidth(ops[..|ops| - 1], w);
    }
  }
}
