/**
 * The product grid: an ordered list of product names tiled row by row into
 * a rectangle of the slide. Boxes have one uniform width, chosen so that
 * `cols` boxes and the gaps between them fill the rectangle's width, and one
 * uniform height, chosen the same way for the rows but never more than
 * 0.45 in.
 */
module ProductGrid {
  import opened Units
  import opened Spans

  /** Spacing between neighbouring boxes of a grid (0.05 in). */
  const GRID_GAP: real := Inches(0.05)

  /** The tallest box a grid draws (0.45 in). */
  const MAX_BOX_H: real := Inches(0.45)

  /** A rectangle on the slide: top-left corner, width and height. */
  datatype Rect = Rect(x: real, y: real, w: real, h: real) {
    function Right(): real { x + w }
    function Bottom(): real { y + h }
  }

  /** One drawn product box: where it goes and the name it shows. */
  datatype Placement = Placement(box: Rect, text: string)

  /** Why a grid cannot be laid out: a column count of zero divides by zero. */
  datatype GridError = ZeroColumns

  datatype Result<T> = Ok(value: T) | Err(error: GridError)

  /** The interiors of two rectangles share a point. */
  predicate Overlap(a: Rect, b: Rect) {
    a.x < b.Right() && b.x < a.Right() && a.y < b.Bottom() && b.y < a.Bottom()
  }

  /** The number of rows `n` boxes need in `cols` columns: the ceiling of n / cols. */
  function RowCount(n: nat, cols: nat): (rows: nat)
    requires cols >= 1
    ensures rows * cols >= n
    ensures (rows - 1) * cols < n
  {
    var rows := (n + cols - 1) / cols;
    var rem := (n + cols - 1) % cols;
    assert rows * cols == n + cols - 1 - rem;
    rows
  }

  /** The row and column of box `i` when boxes fill the grid row by row. */
  function CellOf(i: nat, cols: nat): (rc: (nat, nat))
    requires cols >= 1
    ensures rc.1 < cols
    ensures rc.0 * cols + rc.1 == i
  {
    (i / cols, i % cols)
  }

  /** The index of the box in row `row`, column `col`. */
  function IndexOf(row: nat, col: nat, cols: nat): nat {
    row * cols + col
  }

  /** The rows, stacked with the gap between them, need more height than `h` allows at full size. */
  predicate Capped(h: real, rows: nat) {
    h - GRID_GAP * ((rows - 1) as real) > (rows as real) * MAX_BOX_H
  }

  /**
   * The box height of a grid of `rows` rows in height `h`: the rows and
   * their gaps fill `h` exactly unless that would make boxes taller than
   * `MAX_BOX_H`, in which case boxes are `MAX_BOX_H` tall.
   */
  function BoxHeight(h: real, rows: nat): (bh: real)
    requires rows >= 1
    ensures bh <= MAX_BOX_H
    ensures Capped(h, rows) ==> bh == MAX_BOX_H
    ensures !Capped(h, rows) ==> (rows as real) * bh + ((rows - 1) as real) * GRID_GAP == h
    ensures (rows as real) * bh + ((rows - 1) as real) * GRID_GAP <= h
  {
    var raw := UniformSpan(h, GRID_GAP, rows);
    var n := rows as real;
    assert n * raw == h - GRID_GAP * ((rows - 1) as real);
    if raw > MAX_BOX_H then
      assert n * raw > n * MAX_BOX_H;
      MAX_BOX_H
    else
      assert n * raw <= n * MAX_BOX_H;
      raw
  }

  /**
   * The box in cell (row, col) of a grid anchored at (x, y) whose boxes are
   * boxW by boxH: each row and each column one box plus one gap further on.
   */
  function CellRect(x: real, y: real, boxW: real, boxH: real, row: nat, col: nat): Rect {
    Rect(x + Stride(col, boxW + GRID_GAP), y + Stride(row, boxH + GRID_GAP), boxW, boxH)
  }

  /** The cell in (row, col) sits `col` box-plus-gap strides right and `row` down from (x, y). */
  lemma CellRectClosedForm(x: real, y: real, boxW: real, boxH: real, row: nat, col: nat)
    ensures CellRect(x, y, boxW, boxH, row, col)
         == Rect(x + (col as real) * (boxW + GRID_GAP), y + (row as real) * (boxH + GRID_GAP), boxW, boxH)
  {
    StrideIsProduct(col, boxW + GRID_GAP);
    StrideIsProduct(row, boxH + GRID_GAP);
  }

  /**
   * The rectangle of box `i` of a grid of `n` boxes in `cols` columns inside
   * the rectangle at (x, y) of size w by h: row `i / cols`, column `i % cols`,
   * each step one box plus one gap.
   */
  function GridBox(x: real, y: real, w: real, h: real, n: nat, cols: nat, i: nat): (b: Rect)
    requires cols >= 1 && n >= 1
    ensures (cols as real) * b.w + ((cols - 1) as real) * GRID_GAP == w
    ensures b.h <= MAX_BOX_H
  {
    CellRect(x, y, UniformSpan(w, GRID_GAP, cols), BoxHeight(h, RowCount(n, cols)), i / cols, i % cols)
  }

  /**
   * The boxes of a grid of `products` in `cols` columns inside the rectangle
   * at (x, y) of size w by h: one box per product, in the products' order.
   */
  function GridLayout(x: real, y: real, w: real, h: real, products: seq<string>, cols: nat): (r: seq<Placement>)
    requires cols >= 1
    ensures |r| == |products|
    ensures forall i :: 0 <= i < |r| ==> r[i].text == products[i]
    ensures forall i :: 0 <= i < |r| ==> r[i].box == GridBox(x, y, w, h, |products|, cols, i)
  {
    if |products| == 0 then []
    else
      seq(|products|, i requires 0 <= i < |products| =>
        Placement(GridBox(x, y, w, h, |products|, cols, i), products[i]))
  }

  /**
   * Box `i` of the layout, written as the script computes it: column
   * `i % cols` and row `i / cols`, each a multiple of one box plus one gap.
   */
  lemma LayoutClosedForm(x: real, y: real, w: real, h: real, products: seq<string>, cols: nat, i: nat)
    requires cols >= 1 && i < |products|
    ensures GridLayout(x, y, w, h, products, cols)[i]
         == Placement(Rect(x + ((i % cols) as real) * (UniformSpan(w, GRID_GAP, cols) + GRID_GAP),
                           y + ((i / cols) as real) * (BoxHeight(h, RowCount(|products|, cols)) + GRID_GAP),
                           UniformSpan(w, GRID_GAP, cols),
                           BoxHeight(h, RowCount(|products|, cols))),
                      products[i])
  {
    var boxW := UniformSpan(w, GRID_GAP, cols);
    var boxH := BoxHeight(h, RowCount(|products|, cols));
    var p := GridLayout(x, y, w, h, products, cols)[i];
    assert p.box == CellRect(x, y, boxW, boxH, i / cols, i % cols);
    CellRectClosedForm(x, y, boxW, boxH, i / cols, i % cols);
    assert p == Placement(p.box, p.text);
  }

  /**
   * The grid as the slide script draws it: nothing for an empty list, a
   * division by zero for a non-empty list in zero columns, and otherwise
   * the grid layout.
   */
  function BuildProductGrid(x: real, y: real, w: real, h: real, products: seq<string>, cols: nat)
    : (r: Result<seq<Placement>>)
    ensures r.Err? <==> |products| > 0 && cols == 0
    ensures |products| == 0 ==> r == Ok([])
    ensures r.Ok? ==> |r.value| == |products|
    ensures r.Ok? ==> forall i :: 0 <= i < |products| ==> r.value[i].text == products[i]
  {
    if |products| == 0 then Ok([])
    else if cols == 0 then Err(ZeroColumns)
    else Ok(GridLayout(x, y, w, h, products, cols))
  }

  /**
   * The script's loop over the products: box `i` goes to row `i / cols`
   * and column `i % cols`, its corner one box-plus-gap stride per column
   * right and per row down from (x, y).
   */
  method EmitBoxes(x: real, y: real, boxW: real, boxH: real, products: seq<string>, cols: nat)
    returns (out: seq<Placement>)
    requires cols >= 1
    ensures |out| == |products|
    ensures forall i :: 0 <= i < |products| ==>
              out[i] == Placement(CellRect(x, y, boxW, boxH, i / cols, i % cols), products[i])
  {
    out := [];
    var i := 0;
    while i < |products|
      invariant 0 <= i <= |products|
      invariant |out| == i
      invariant forall k :: 0 <= k < i ==>
                  out[k] == Placement(CellRect(x, y, boxW, boxH, k / cols, k % cols), products[k])
    {
      var r := i / cols;
      var c := i % cols;
      var boxX := x + (c as real) * (boxW + GRID_GAP);
      var boxY := y + (r as real) * (boxH + GRID_GAP);
      CellRectClosedForm(x, y, boxW, boxH, r, c);
      out := out + [Placement(Rect(boxX, boxY, boxW, boxH), products[i])];
      i := i + 1;
    }
  }

  /**
   * The grid computed the way the script computes it: return early on an
   * empty list, compute the row count and box size once, then emit one box
   * per product in order.
   */
  method EmitGrid(x: real, y: real, w: real, h: real, products: seq<string>, cols: nat)
    returns (res: Result<seq<Placement>>)
    ensures res == BuildProductGrid(x, y, w, h, products, cols)
  {
    if |products| == 0 {
      return Ok([]);
    }
    if cols == 0 {
      return Err(ZeroColumns);
    }
    var rows := RowCount(|products|, cols);
    var boxW := UniformSpan(w, GRID_GAP, cols);
    var boxH := BoxHeight(h, rows);
    var out := EmitBoxes(x, y, boxW, boxH, products, cols);
    assert out == GridLayout(x, y, w, h, products, cols);
    return Ok(out);
  }

  /** The grid is well-formed: boxes come out with positive width and height. */
  predicate GridFits(w: real, h: real, n: nat, cols: nat) {
    && cols >= 1
    && w > GRID_GAP * ((cols - 1) as real)
    && (n >= 1 ==> h > GRID_GAP * ((RowCount(n, cols) - 1) as real))
  }
}
