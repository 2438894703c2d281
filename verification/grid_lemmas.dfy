/**
 * What the product grid guarantees about the boxes it places: their count
 * and order, their row-major cells, that they stay inside the rectangle,
 * fill its width, fill its height unless capped, and never overlap.
 */
module GridLemmas {
  import opened Spans
  import opened ProductGrid

  // ---------------------------------------------------------------------
  // Arithmetic steps the geometric proofs rely on.
  // ---------------------------------------------------------------------

  /** A larger multiple of a step exceeds a smaller one by at least one step. */
  lemma ScaledStep(a: nat, b: nat, d: real, len: real)
    requires a < b && 0.0 <= d && len <= d
    ensures (a as real) * d + len <= (b as real) * d
  {
    var k := (b - a - 1) as real;
    assert (b as real) * d == (a as real) * d + d + k * d;
    assert k * d >= 0.0;
  }

  lemma ScaledLe(a: nat, b: nat, d: real)
    requires a <= b && 0.0 <= d
    ensures (a as real) * d <= (b as real) * d
  {
    if a < b {
      ScaledStep(a, b, d, 0.0);
    }
  }

  lemma MulStep(a: nat, b: nat, c: nat)
    requires a < b
    ensures a * c + c <= b * c
  {
    var k := b - a - 1;
    assert b * c == a * c + c + k * c;
  }

  /** Division by `cols` is determined by quotient and remainder. */
  lemma DivUnique(i: nat, cols: nat, q: nat, rm: nat)
    requires cols >= 1 && rm < cols && i == q * cols + rm
    ensures i / cols == q && i % cols == rm
  {
    var rc := CellOf(i, cols);
    if rc.0 < q {
      MulStep(rc.0, q, cols);
      assert false;
    } else if rc.0 > q {
      MulStep(q, rc.0, cols);
      assert false;
    }
  }

  /** Earlier indices come earlier in reading order: an earlier row, or the same row and an earlier column. */
  lemma RowMajorOrder(i: nat, j: nat, cols: nat)
    requires cols >= 1 && i < j
    ensures i / cols < j / cols || (i / cols == j / cols && i % cols < j % cols)
  {
    var a := CellOf(i, cols);
    var b := CellOf(j, cols);
    if a.0 > b.0 {
      MulStep(b.0, a.0, cols);
      assert false;
    }
  }

  /** The last box sits in the last row; every box sits in a row before `rows`. */
  lemma LastRow(n: nat, cols: nat)
    requires cols >= 1 && n >= 1
    ensures RowCount(n, cols) >= 1
    ensures (n - 1) / cols == RowCount(n, cols) - 1
    ensures forall i :: 0 <= i < n ==> i / cols <= RowCount(n, cols) - 1
  {
    var rows := RowCount(n, cols);
    DivUnique(n - 1, cols, rows - 1, n - 1 - (rows - 1) * cols);
    forall i | 0 <= i < n
      ensures i / cols <= rows - 1
    {
      if i < n - 1 {
        RowMajorOrder(i, n - 1, cols);
      }
    }
  }

  /** A grid never needs more rows than it has boxes. */
  lemma RowsAtMostCount(n: nat, cols: nat)
    requires cols >= 1 && n >= 1
    ensures RowCount(n, cols) <= n
  {
    MulStep(0, cols, RowCount(n, cols) - 1);
  }

  /**
   * A grid fits when its width exceeds the gaps between its columns and its
   * height exceeds the gaps between as many rows as it has boxes.
   */
  lemma FitsByCount(w: real, h: real, n: nat, cols: nat)
    requires cols >= 1
    requires GRID_GAP * ((cols - 1) as real) < w
    requires GRID_GAP * ((n - 1) as real) < h
    ensures GridFits(w, h, n, cols)
  {
    if n >= 1 {
      RowsAtMostCount(n, cols);
      ScaledLe(RowCount(n, cols) - 1, n - 1, GRID_GAP);
    }
  }

  // ---------------------------------------------------------------------
  // Row-major indexing.
  // ---------------------------------------------------------------------

  /**
   * Index and cell are inverse: the cell of the box at (row, col) is
   * (row, col), and the index of the cell of box `i` is `i`. Hence distinct
   * boxes get distinct cells.
   */
  lemma CellIndexRoundTrip(row: nat, col: nat, i: nat, cols: nat)
    requires cols >= 1 && col < cols
    ensures CellOf(IndexOf(row, col, cols), cols) == (row, col)
    ensures IndexOf(CellOf(i, cols).0, CellOf(i, cols).1, cols) == i
  {
    DivUnique(IndexOf(row, col, cols), cols, row, col);
  }

  /** Distinct indices occupy distinct cells, all inside `rows` by `cols`. */
  lemma CellsDistinct(n: nat, cols: nat)
    requires cols >= 1 && n >= 1
    ensures forall i, j :: 0 <= i < j < n ==> CellOf(i, cols) != CellOf(j, cols)
    ensures forall i :: 0 <= i < n ==> CellOf(i, cols).0 < RowCount(n, cols)
  {
    LastRow(n, cols);
  }

  // ---------------------------------------------------------------------
  // Geometry of the placed boxes.
  // ---------------------------------------------------------------------

  /** In a grid that fits, the uniform box width and height are positive. */
  lemma FitsPositive(w: real, h: real, n: nat, cols: nat)
    requires GridFits(w, h, n, cols) && n >= 1
    ensures UniformSpan(w, GRID_GAP, cols) > 0.0
    ensures BoxHeight(h, RowCount(n, cols)) > 0.0
  {
    var bw := UniformSpan(w, GRID_GAP, cols);
    assert (cols as real) * bw > 0.0;
    var rows := RowCount(n, cols);
    var raw := UniformSpan(h, GRID_GAP, rows);
    assert (rows as real) * raw > 0.0;
  }

  /**
   * In a grid that fits, every box has positive width, and positive height
   * of at most `MAX_BOX_H`; when the cap applies, every box is exactly
   * `MAX_BOX_H` tall.
   */
  lemma GridBoxSizes(x: real, y: real, w: real, h: real, products: seq<string>, cols: nat)
    requires GridFits(w, h, |products|, cols)
    ensures forall p :: p in GridLayout(x, y, w, h, products, cols) ==>
              0.0 < p.box.w && 0.0 < p.box.h <= MAX_BOX_H
    ensures |products| >= 1 && Capped(h, RowCount(|products|, cols)) ==>
              forall p :: p in GridLayout(x, y, w, h, products, cols) ==> p.box.h == MAX_BOX_H
  {
    if |products| >= 1 {
      FitsPositive(w, h, |products|, cols);
    }
  }

  /** Column `c` of `cols`, stepping by a non-negative stride, stays within the span. */
  lemma StrideWithin(c: nat, cols: nat, unit: real, gap: real)
    requires c < cols && 0.0 <= unit && 0.0 <= gap
    ensures 0.0 <= (c as real) * (unit + gap)
    ensures (c as real) * (unit + gap) + unit <= (cols as real) * unit + ((cols - 1) as real) * gap
  {
    ScaledLe(0, c, unit + gap);
    ScaledLe(c, cols - 1, unit + gap);
    Spread(cols - 1, unit, gap);
  }

  /** The cell in column `col` occupies part `col` of the width `w` split into `cols` equal parts. */
  lemma CellInColumnPart(x: real, y: real, w: real, bh: real, row: nat, col: nat, cols: nat)
    requires col < cols
    ensures CellRect(x, y, UniformSpan(w, GRID_GAP, cols), bh, row, col).x == Partition(x, w, GRID_GAP, cols)[col].lo
    ensures CellRect(x, y, UniformSpan(w, GRID_GAP, cols), bh, row, col).w == Partition(x, w, GRID_GAP, cols)[col].len
  {
    var unit := UniformSpan(w, GRID_GAP, cols);
    PartitionLo(x, w, GRID_GAP, cols, col);
    CellRectClosedForm(x, y, unit, bh, row, col);
    assert CellRect(x, y, unit, bh, row, col).x == x + (col as real) * (unit + GRID_GAP);
  }

  /** Box `i` occupies part `i % cols` of the grid's width split into `cols` equal parts. */
  lemma BoxInColumnPart(x: real, y: real, w: real, h: real, n: nat, cols: nat, i: nat)
    requires cols >= 1 && n >= 1
    ensures GridBox(x, y, w, h, n, cols, i).x == Partition(x, w, GRID_GAP, cols)[i % cols].lo
    ensures GridBox(x, y, w, h, n, cols, i).w == Partition(x, w, GRID_GAP, cols)[i % cols].len
  {
    CellInColumnPart(x, y, w, BoxHeight(h, RowCount(n, cols)), i / cols, i % cols, cols);
  }

  /**
   * Box `i` lies in the column part `i % cols` of the rectangle's width
   * split into `cols` equal parts with gaps; so the boxes of the last column
   * end exactly at the rectangle's right edge.
   */
  lemma GridColumnsTileWidth(x: real, y: real, w: real, h: real, products: seq<string>, cols: nat)
    requires cols >= 1
    ensures forall i :: 0 <= i < |products| ==>
              GridLayout(x, y, w, h, products, cols)[i].box.x == Partition(x, w, GRID_GAP, cols)[i % cols].lo
              && GridLayout(x, y, w, h, products, cols)[i].box.w == Partition(x, w, GRID_GAP, cols)[i % cols].len
    ensures forall i :: 0 <= i < |products| && i % cols == cols - 1 ==>
              GridLayout(x, y, w, h, products, cols)[i].box.Right() == x + w
  {
    var grid := GridLayout(x, y, w, h, products, cols);
    var parts := Partition(x, w, GRID_GAP, cols);
    forall i | 0 <= i < |products|
      ensures grid[i].box.x == parts[i % cols].lo && grid[i].box.w == parts[i % cols].len
    {
      BoxInColumnPart(x, y, w, h, |products|, cols, i);
    }
  }

  /** The box in row `row` ends `row + 1` box heights and `row` gaps below the grid's top. */
  lemma CellBottom(x: real, y: real, bw: real, bh: real, row: nat, col: nat)
    ensures CellRect(x, y, bw, bh, row, col).Bottom() == y + ((row + 1) as real) * bh + (row as real) * GRID_GAP
  {
    StrideIsProduct(row, bh + GRID_GAP);
    Spread(row, bh, GRID_GAP);
  }

  /**
   * The last row of boxes ends exactly on the rectangle's bottom edge
   * precisely when the height cap did not apply; otherwise it ends above it.
   */
  lemma GridFillsHeight(x: real, y: real, w: real, h: real, products: seq<string>, cols: nat)
    requires cols >= 1 && |products| >= 1
    ensures GridLayout(x, y, w, h, products, cols)[|products| - 1].box.Bottom() <= y + h
    ensures GridLayout(x, y, w, h, products, cols)[|products| - 1].box.Bottom() == y + h
            <==> !Capped(h, RowCount(|products|, cols))
  {
    var n := |products|;
    var rows := RowCount(n, cols);
    LastRow(n, cols);
    CellBottom(x, y, UniformSpan(w, GRID_GAP, cols), BoxHeight(h, rows), rows - 1, (n - 1) % cols);
  }

  /** Box `i` of `n` sits in a row before the row count. */
  lemma RowBelowCount(n: nat, cols: nat, i: nat)
    requires cols >= 1 && i < n
    ensures i / cols < RowCount(n, cols)
  {
    LastRow(n, cols);
  }

  /**
   * With positive box sizes, an earlier row ends above a later one, and in
   * one row an earlier column ends left of a later one.
   */
  lemma CellsApart(x: real, y: real, bw: real, bh: real, ri: nat, ci: nat, rj: nat, cj: nat)
    requires ri < rj || (ri == rj && ci < cj)
    requires 0.0 < bw && 0.0 < bh
    ensures CellRect(x, y, bw, bh, ri, ci).Bottom() <= CellRect(x, y, bw, bh, rj, cj).y
         || (CellRect(x, y, bw, bh, ri, ci).y == CellRect(x, y, bw, bh, rj, cj).y
             && CellRect(x, y, bw, bh, ri, ci).Right() <= CellRect(x, y, bw, bh, rj, cj).x)
  {
    StrideIsProduct(ri, bh + GRID_GAP);
    StrideIsProduct(rj, bh + GRID_GAP);
    if ri < rj {
      ScaledStep(ri, rj, bh + GRID_GAP, bh);
    } else {
      StrideIsProduct(ci, bw + GRID_GAP);
      StrideIsProduct(cj, bw + GRID_GAP);
      ScaledStep(ci, cj, bw + GRID_GAP, bw);
    }
  }

  /** In a grid that fits, box `i`'s cell and the box sizes meet what `CellWithin` needs. */
  lemma FitsCell(w: real, h: real, n: nat, cols: nat, i: nat)
    requires GridFits(w, h, n, cols) && i < n
    ensures i / cols < RowCount(n, cols) && i % cols < cols
    ensures 0.0 <= UniformSpan(w, GRID_GAP, cols) && 0.0 <= BoxHeight(h, RowCount(n, cols))
    ensures (cols as real) * UniformSpan(w, GRID_GAP, cols) + ((cols - 1) as real) * GRID_GAP <= w
    ensures (RowCount(n, cols) as real) * BoxHeight(h, RowCount(n, cols))
            + ((RowCount(n, cols) - 1) as real) * GRID_GAP <= h
  {
    FitsPositive(w, h, n, cols);
    RowBelowCount(n, cols, i);
  }

  /**
   * A cell inside `rows` by `cols` of boxes whose columns fit in `w` and
   * whose rows fit in `h` lies inside the w by h rectangle at (x, y).
   */
  lemma CellWithin(x: real, y: real, w: real, h: real, bw: real, bh: real,
                   row: nat, col: nat, rows: nat, cols: nat)
    requires row < rows && col < cols && 0.0 <= bw && 0.0 <= bh
    requires (cols as real) * bw + ((cols - 1) as real) * GRID_GAP <= w
    requires (rows as real) * bh + ((rows - 1) as real) * GRID_GAP <= h
    ensures x <= CellRect(x, y, bw, bh, row, col).x
    ensures CellRect(x, y, bw, bh, row, col).Right() <= x + w
    ensures y <= CellRect(x, y, bw, bh, row, col).y
    ensures CellRect(x, y, bw, bh, row, col).Bottom() <= y + h
  {
    StrideIsProduct(col, bw + GRID_GAP);
    StrideIsProduct(row, bh + GRID_GAP);
    StrideWithin(col, cols, bw, GRID_GAP);
    StrideWithin(row, rows, bh, GRID_GAP);
  }

  /** In a grid that fits, box `i` lies inside the grid's rectangle. */
  lemma BoxInside(x: real, y: real, w: real, h: real, n: nat, cols: nat, i: nat)
    requires GridFits(w, h, n, cols) && i < n
    ensures x <= GridBox(x, y, w, h, n, cols, i).x
    ensures GridBox(x, y, w, h, n, cols, i).Right() <= x + w
    ensures y <= GridBox(x, y, w, h, n, cols, i).y
    ensures GridBox(x, y, w, h, n, cols, i).Bottom() <= y + h
  {
    var rows := RowCount(n, cols);
    FitsCell(w, h, n, cols, i);
    CellWithin(x, y, w, h, UniformSpan(w, GRID_GAP, cols), BoxHeight(h, rows), i / cols, i % cols, rows, cols);
  }

  /** In a grid that fits, every box lies inside the grid's rectangle. */
  lemma GridWithinBounds(x: real, y: real, w: real, h: real, products: seq<string>, cols: nat)
    requires GridFits(w, h, |products|, cols)
    ensures forall p :: p in GridLayout(x, y, w, h, products, cols) ==>
              x <= p.box.x && p.box.Right() <= x + w && y <= p.box.y && p.box.Bottom() <= y + h
  {
    var grid := GridLayout(x, y, w, h, products, cols);
    forall p | p in grid
      ensures x <= p.box.x && p.box.Right() <= x + w && y <= p.box.y && p.box.Bottom() <= y + h
    {
      var i :| 0 <= i < |grid| && grid[i] == p;
      BoxInside(x, y, w, h, |products|, cols, i);
    }
  }

  /**
   * In a grid that fits, an earlier box either ends above a later one or
   * sits in the same row and ends left of it.
   */
  lemma BoxesApart(x: real, y: real, w: real, h: real, n: nat, cols: nat, i: nat, j: nat)
    requires GridFits(w, h, n, cols) && i < j < n
    ensures GridBox(x, y, w, h, n, cols, i).Bottom() <= GridBox(x, y, w, h, n, cols, j).y
         || (GridBox(x, y, w, h, n, cols, i).y == GridBox(x, y, w, h, n, cols, j).y
             && GridBox(x, y, w, h, n, cols, i).Right() <= GridBox(x, y, w, h, n, cols, j).x)
  {
    var bw := UniformSpan(w, GRID_GAP, cols);
    var bh := BoxHeight(h, RowCount(n, cols));
    FitsPositive(w, h, n, cols);
    RowMajorOrder(i, j, cols);
    CellsApart(x, y, bw, bh, i / cols, i % cols, j / cols, j % cols);
  }

  /** In a grid that fits, no two boxes overlap. */
  lemma GridBoxesDisjoint(x: real, y: real, w: real, h: real, products: seq<string>, cols: nat)
    requires GridFits(w, h, |products|, cols)
    ensures forall i, j :: 0 <= i < |products| && 0 <= j < |products| && i != j ==>
              !Overlap(GridLayout(x, y, w, h, products, cols)[i].box,
                       GridLayout(x, y, w, h, products, cols)[j].box)
  {
    var n := |products|;
    forall i, j | 0 <= i < n && 0 <= j < n && i != j
      ensures !Overlap(GridBox(x, y, w, h, n, cols, i), GridBox(x, y, w, h, n, cols, j))
    {
      if i < j {
        BoxesApart(x, y, w, h, n, cols, i, j);
      } else {
        BoxesApart(x, y, w, h, n, cols, j, i);
      }
    }
  }

  /**
   * In a grid that fits, the boxes follow reading order: a later box is
   * further down, or in the same row and further right.
   */
  lemma GridReadingOrder(x: real, y: real, w: real, h: real, products: seq<string>, cols: nat)
    requires GridFits(w, h, |products|, cols)
    ensures forall i, j :: 0 <= i < j < |products| ==>
              var a := GridLayout(x, y, w, h, products, cols)[i].box;
              var b := GridLayout(x, y, w, h, products, cols)[j].box;
              a.y < b.y || (a.y == b.y && a.x < b.x)
  {
    var n := |products|;
    forall i, j | 0 <= i < j < n
      ensures var a := GridBox(x, y, w, h, n, cols, i);
              var b := GridBox(x, y, w, h, n, cols, j);
              a.y < b.y || (a.y == b.y && a.x < b.x)
    {
      FitsPositive(w, h, n, cols);
      BoxesApart(x, y, w, h, n, cols, i, j);
    }
  }
}
