/**
 * The product grids the slide draws: each call of the grid builder as the
 * rectangle it is given, the number of products in it and its column
 * count. Product names, colours and fonts play no part in the layout and
 * are not modelled; only the list lengths are.
 *
 * With the infrastructure row sized as `AlignedInfraRow` sizes it, every
 * grid on the slide fits (positive box sizes) and lies between the slide's
 * left and right margins. With the row as written, the last grid runs off
 * the slide.
 */
module SlideGrids {
  import opened Units
  import opened Spans
  import opened ProductGrid
  import opened GridLemmas
  import opened SlideLayout
  import opened InfraRow

  /** One call of the grid builder: its rectangle, how many products and how many columns. */
  datatype GridCall = GridCall(x: real, y: real, w: real, h: real, count: nat, cols: nat)

  /** The call draws positive boxes and stays between the slide's left and right margins. */
  predicate Sound(g: GridCall) {
    && GridFits(g.w, g.h, g.count, g.cols)
    && MARGIN_X <= g.x
    && g.x + g.w <= SLIDE_WIDTH - MARGIN_X
  }

  // ---------------------------------------------------------------------
  // Vertical positions of the blocks that hold grids.
  // ---------------------------------------------------------------------

  const DS_H: real := Inches(4.2)
  const ID_Y: real := TOP_Y + Inches(0.35) + DS_H + GAP
  const ID_H: real := Inches(4.5)
  const P6_Y: real := CenterStack(TOP_Y, CA_H, P6_H, AD_H, GAP)[1].lo
  const AD_Y: real := CenterStack(TOP_Y, CA_H, P6_H, AD_H, GAP)[2].lo
  const NET_H: real := NetworkHeight(CA_H, P6_H, AD_H, IT_H, GAP)
  const NET_Y: real := RightStack(TOP_Y, IT_H, NET_H, GAP)[1].lo
  const RH_Y: real := AD_Y + AD_H + Inches(0.1)
  const INFRA_Y: real := RH_Y + Inches(0.5)
  const INFRA_H: real := Inches(1.5)

  /** Product counts and column counts of the six centre pillars. */
  const PILLAR_COUNTS: seq<nat> := [16, 7, 14, 7, 7, 7]
  const PILLAR_COLS: seq<nat> := [2, 1, 2, 1, 1, 1]

  /** Product counts of the four infrastructure pillars. */
  const INFRA_COUNTS: seq<nat> := [15, 6, 6, 6]

  /** Grid `offset + i` lies over part `i`, for every part: the same start and the same width. */
  predicate Covers(gs: seq<GridCall>, offset: nat, parts: seq<Interval>) {
    && offset + |parts| <= |gs|
    && forall i :: 0 <= i < |parts| ==> gs[offset + i].x == parts[i].lo && gs[offset + i].w == parts[i].len
  }

  /** Grids over parts still lie over them with more grids before them. */
  lemma CoversAfter(a: seq<GridCall>, b: seq<GridCall>, offset: nat, parts: seq<Interval>)
    requires Covers(b, offset, parts)
    ensures Covers(a + b, |a| + offset, parts)
  {
    forall j | offset <= j < offset + |parts|
      ensures (a + b)[|a| + j] == b[j]
    {}
  }

  /** Grids over parts still lie over them with more grids after them. */
  lemma CoversBefore(a: seq<GridCall>, b: seq<GridCall>, offset: nat, parts: seq<Interval>)
    requires Covers(a, offset, parts)
    ensures Covers(a + b, offset, parts)
  {
    forall j | offset <= j < offset + |parts|
      ensures (a + b)[j] == a[j]
    {}
  }

  /** One grid per part, in the part's horizontal span, at a common height. */
  function ColumnGrids(parts: seq<Interval>, y: real, h: real, counts: seq<nat>, cols: seq<nat>)
    : (gs: seq<GridCall>)
    requires |counts| == |parts| && |cols| == |parts|
    ensures |gs| == |parts|
    ensures forall i :: 0 <= i < |parts| ==>
              gs[i] == GridCall(parts[i].lo, y, parts[i].len, h, counts[i], cols[i])
    ensures Covers(gs, 0, parts)
  {
    seq(|parts|, i requires 0 <= i < |parts| =>
      GridCall(parts[i].lo, y, parts[i].len, h, counts[i], cols[i]))
  }

  /** Data Security and Identity, one column each, in the security column. */
  function SecurityGrids(): (gs: seq<GridCall>)
    ensures |gs| == 2
    ensures forall g :: g in gs ==> g.x == X_SEC && g.w == SEC_W && g.cols == 1
  {
    [ GridCall(X_SEC, TOP_Y + Inches(0.75), SEC_W, DS_H - Inches(0.4), 5, 1),
      GridCall(X_SEC, ID_Y + Inches(0.4), SEC_W, ID_H - Inches(0.4), 7, 1) ]
  }

  /** One grid under each of the six centre pillars, with that pillar's products and columns. */
  function PillarGrids(): (gs: seq<GridCall>)
    ensures |gs| == 6
    ensures Covers(gs, 0, Pillars(X_CENTER, CENTER_W, GAP))
  {
    ColumnGrids(Pillars(X_CENTER, CENTER_W, GAP), P6_Y + Inches(0.4), P6_H - Inches(0.4),
                PILLAR_COUNTS, PILLAR_COLS)
  }

  /** Application Development and Application Integration, four columns each, under the two halves. */
  function HalfGrids(): (gs: seq<GridCall>)
    ensures |gs| == 2
    ensures Covers(gs, 0, Halves(X_CENTER, CENTER_W, GAP))
  {
    ColumnGrids(Halves(X_CENTER, CENTER_W, GAP), AD_Y + Inches(0.35), AD_H - Inches(0.35), [12, 12], [4, 4])
  }

  /** Client Applications, the six pillars, and the two application halves. */
  function CenterGrids(): (gs: seq<GridCall>)
    ensures |gs| == 9
    ensures gs[0] == GridCall(X_CENTER, TOP_Y + Inches(0.35), CENTER_W, CA_H - Inches(0.35), 16, 8)
    ensures Covers(gs, 1, Pillars(X_CENTER, CENTER_W, GAP))
    ensures Covers(gs, 7, Halves(X_CENTER, CENTER_W, GAP))
  {
    var ca := [GridCall(X_CENTER, TOP_Y + Inches(0.35), CENTER_W, CA_H - Inches(0.35), 16, 8)];
    CoversAfter(ca, PillarGrids(), 0, Pillars(X_CENTER, CENTER_W, GAP));
    CoversBefore(ca + PillarGrids(), HalfGrids(), 1, Pillars(X_CENTER, CENTER_W, GAP));
    CoversAfter(ca + PillarGrids(), HalfGrids(), 0, Halves(X_CENTER, CENTER_W, GAP));
    ca + PillarGrids() + HalfGrids()
  }

  /** IT Automation and Network Management, one column each, in the right column. */
  function RightGrids(): (gs: seq<GridCall>)
    ensures |gs| == 2
    ensures forall g :: g in gs ==> g.x == X_RIGHT && g.w == RIGHT_W && g.cols == 1
  {
    [ GridCall(X_RIGHT, TOP_Y + Inches(0.4), RIGHT_W, IT_H - Inches(0.4), 13, 1),
      GridCall(X_RIGHT, NET_Y + Inches(0.4), RIGHT_W, NET_H - Inches(0.4), 8, 1) ]
  }

  /**
   * Enterprise Storage under the security column, then one grid per
   * infrastructure pillar of `row`, as many columns as the pillar's
   * width multiplier.
   */
  function InfraGrids(row: seq<Interval>): (gs: seq<GridCall>)
    requires |row| == 4
    ensures |gs| == 5
    ensures gs[0] == GridCall(X_SEC, INFRA_Y + Inches(0.35), SEC_W, INFRA_H - Inches(0.35), 3, 1)
    ensures Covers(gs, 1, row)
  {
    var es := [GridCall(X_SEC, INFRA_Y + Inches(0.35), SEC_W, INFRA_H - Inches(0.35), 3, 1)];
    var cg := ColumnGrids(row, INFRA_Y + Inches(0.35), INFRA_H - Inches(0.35), INFRA_COUNTS, Multipliers(INFRA_TITLES));
    CoversAfter(es, cg, 0, row);
    es + cg
  }

  /** Every grid the slide draws, with the infrastructure pillars of `row`. */
  function SlideGridCalls(row: seq<Interval>): (gs: seq<GridCall>)
    requires |row| == 4
    ensures |gs| == 18
    ensures Covers(gs, 3, Pillars(X_CENTER, CENTER_W, GAP))
    ensures Covers(gs, 9, Halves(X_CENTER, CENTER_W, GAP))
    ensures Covers(gs, 14, row)
  {
    var sc := SecurityGrids() + CenterGrids();
    CoversAfter(SecurityGrids(), CenterGrids(), 1, Pillars(X_CENTER, CENTER_W, GAP));
    CoversAfter(SecurityGrids(), CenterGrids(), 7, Halves(X_CENTER, CENTER_W, GAP));
    CoversBefore(sc, RightGrids(), 3, Pillars(X_CENTER, CENTER_W, GAP));
    CoversBefore(sc, RightGrids(), 9, Halves(X_CENTER, CENTER_W, GAP));
    CoversBefore(sc + RightGrids(), InfraGrids(row), 3, Pillars(X_CENTER, CENTER_W, GAP));
    CoversBefore(sc + RightGrids(), InfraGrids(row), 9, Halves(X_CENTER, CENTER_W, GAP));
    CoversAfter(sc + RightGrids(), InfraGrids(row), 1, row);
    sc + RightGrids() + InfraGrids(row)
  }

  /** The infrastructure row with the unit that makes it end under the right column's edge. */
  function SlideInfraRow(): (row: seq<Interval>)
    ensures |row| == 4
  {
    SlideMultipliers();
    AlignedInfraRow(X_CENTER, AVAILABLE_INFRA_W, GAP, INFRA_TITLES)
  }

  // ---------------------------------------------------------------------
  // Every grid fits and stays between the margins.
  // ---------------------------------------------------------------------

  /**
   * Grids laid over chained parts that lie between the margins are sound
   * when every part is wide enough for the most columns and the height
   * holds the gaps of the longest list stacked one per row.
   */
  lemma ColumnGridsSound(parts: seq<Interval>, gap: real, y: real, h: real, counts: seq<nat>, cols: seq<nat>,
                         maxCount: nat, maxCols: nat)
    requires |counts| == |parts| && |cols| == |parts| && |parts| > 0
    requires Chained(parts, gap) && 0.0 <= gap
    requires MARGIN_X <= parts[0].lo && parts[|parts| - 1].Hi() <= SLIDE_WIDTH - MARGIN_X
    requires forall k :: k in cols ==> 1 <= k <= maxCols
    requires forall k :: k in counts ==> k <= maxCount
    requires forall i :: 0 <= i < |parts| ==> GRID_GAP * ((maxCols - 1) as real) < parts[i].len
    requires GRID_GAP * ((maxCount - 1) as real) < h
    ensures forall g :: g in ColumnGrids(parts, y, h, counts, cols) ==> Sound(g)
  {
    assert cols[0] in cols;
    ChainedWithin(parts, gap);
    var gs := ColumnGrids(parts, y, h, counts, cols);
    forall g | g in gs
      ensures Sound(g)
    {
      var i :| 0 <= i < |gs| && gs[i] == g;
      assert cols[i] in cols && counts[i] in counts;
      PartGridSound(parts[i], y, h, counts[i], cols[i], maxCount, maxCols);
    }
  }

  /** A grid over a part between the margins, wide and tall enough for its columns and products, is sound. */
  lemma PartGridSound(p: Interval, y: real, h: real, count: nat, cols: nat, maxCount: nat, maxCols: nat)
    requires 1 <= cols <= maxCols && count <= maxCount
    requires GRID_GAP * ((maxCols - 1) as real) < p.len
    requires GRID_GAP * ((maxCount - 1) as real) < h
    requires MARGIN_X <= p.lo && p.Hi() <= SLIDE_WIDTH - MARGIN_X
    ensures Sound(GridCall(p.lo, y, p.len, h, count, cols))
  {
    FitsByCount(p.len, h, count, cols);
  }

  lemma SecurityGridsSound()
    ensures forall g :: g in SecurityGrids() ==> Sound(g)
  {
    SlideColumns();
    FitsByCount(SEC_W, DS_H - Inches(0.4), 5, 1);
    FitsByCount(SEC_W, ID_H - Inches(0.4), 7, 1);
  }

  lemma PillarGridsSound()
    ensures forall g :: g in PillarGrids() ==> Sound(g)
  {
    SlideColumns();
    ColumnGridsSound(Pillars(X_CENTER, CENTER_W, GAP), GAP, P6_Y + Inches(0.4), P6_H - Inches(0.4),
                     PILLAR_COUNTS, PILLAR_COLS, 16, 2);
  }

  lemma HalfGridsSound()
    ensures forall g :: g in HalfGrids() ==> Sound(g)
  {
    SlideColumns();
    var hs := Halves(X_CENTER, CENTER_W, GAP);
    assert Chained(hs, GAP);
    ColumnGridsSound(hs, GAP, AD_Y + Inches(0.35), AD_H - Inches(0.35), [12, 12], [4, 4], 12, 4);
  }

  lemma CenterGridsSound()
    ensures forall g :: g in CenterGrids() ==> Sound(g)
  {
    SlideColumns();
    FitsByCount(CENTER_W, CA_H - Inches(0.35), 16, 8);
    PillarGridsSound();
    HalfGridsSound();
  }

  lemma RightGridsSound()
    ensures forall g :: g in RightGrids() ==> Sound(g)
  {
    SlideColumns();
    FitsByCount(RIGHT_W, IT_H - Inches(0.4), 13, 1);
    FitsByCount(RIGHT_W, NET_H - Inches(0.4), 8, 1);
  }

  /** The unit of the slide's aligned infrastructure row: 17.9 in shared by nine units. */
  lemma SlideInfraUnit()
    ensures UniformSpan(AVAILABLE_INFRA_W, GAP, 9) == Inches(17.9) / 9.0
  {
    SlideColumns();
    assert AVAILABLE_INFRA_W == Inches(18.7);
  }

  /** A pillar of at least two units, each wider than a grid gap, holds three grid columns. */
  lemma PillarWideEnough(unit: real, m: nat)
    requires GRID_GAP < unit && 2 <= m
    ensures GRID_GAP * 2.0 < PillarWidth(unit, GAP, m)
  {
    ScaledLe(2, m, unit);
  }

  /**
   * The slide's aligned infrastructure row: four chained pillars from the
   * centre column's start to the right column's end, each wide enough for
   * three grid columns.
   */
  lemma SlideInfraRowShape()
    ensures |SlideInfraRow()| == 4
    ensures SlideInfraRow()[0].lo == X_CENTER
    ensures Chained(SlideInfraRow(), GAP)
    ensures SlideInfraRow()[3].Hi() == X_RIGHT + RIGHT_W
    ensures forall i :: 0 <= i < 4 ==> GRID_GAP * 2.0 < SlideInfraRow()[i].len
  {
    SlideMultipliers();
    SlideAlignedInfraRowEnds();
    var row := SlideInfraRow();
    var unit := UniformSpan(AVAILABLE_INFRA_W, GAP, 9);
    assert row == RowWithUnit(X_CENTER, unit, GAP, INFRA_TITLES);
    SlideInfraUnit();
    forall i | 0 <= i < 4
      ensures GRID_GAP * 2.0 < row[i].len
    {
      PillarWideEnough(unit, WidthMultiplier(INFRA_TITLES[i]));
    }
  }

  lemma InfraGridsSound()
    ensures forall g :: g in InfraGrids(SlideInfraRow()) ==> Sound(g)
  {
    SlideColumns();
    SlideMultipliers();
    SlideInfraRowShape();
    FitsByCount(SEC_W, INFRA_H - Inches(0.35), 3, 1);
    ColumnGridsSound(SlideInfraRow(), GAP, INFRA_Y + Inches(0.35), INFRA_H - Inches(0.35), INFRA_COUNTS,
                     Multipliers(INFRA_TITLES), 15, 3);
  }

  /**
   * With the aligned infrastructure row, every grid on the slide draws
   * positive boxes and stays between the slide's left and right margins.
   */
  lemma SlideGridsSound()
    ensures |SlideGridCalls(SlideInfraRow())| == 18
    ensures forall g :: g in SlideGridCalls(SlideInfraRow()) ==> Sound(g)
  {
    SecurityGridsSound();
    CenterGridsSound();
    RightGridsSound();
    InfraGridsSound();
  }

  /** Every box a sound call draws, for any product list of the call's length, lies between the slide's margins. */
  lemma SoundGridBoxesWithinMargins(g: GridCall, products: seq<string>)
    requires Sound(g) && |products| == g.count
    ensures forall p :: p in GridLayout(g.x, g.y, g.w, g.h, products, g.cols) ==>
              MARGIN_X <= p.box.x && p.box.Right() <= SLIDE_WIDTH - MARGIN_X
  {
    GridWithinBounds(g.x, g.y, g.w, g.h, products, g.cols);
  }

  /**
   * With the aligned infrastructure row, every box of grid call `k` of the
   * slide, for any product list of the call's length, lies between the
   * slide's margins.
   */
  lemma SlideBoxesWithinMargins(k: nat, products: seq<string>)
    requires k < 18
    ensures SlideGridCalls(SlideInfraRow())[k].cols >= 1
    ensures var g := SlideGridCalls(SlideInfraRow())[k];
            |products| == g.count ==>
              forall p :: p in GridLayout(g.x, g.y, g.w, g.h, products, g.cols) ==>
                MARGIN_X <= p.box.x && p.box.Right() <= SLIDE_WIDTH - MARGIN_X
  {
    SlideGridsSound();
    var g := SlideGridCalls(SlideInfraRow())[k];
    assert g in SlideGridCalls(SlideInfraRow());
    if |products| == g.count {
      SoundGridBoxesWithinMargins(g, products);
    }
  }

  /**
   * With the infrastructure row as written, the Cloud pillar's grid, the
   * last grid the slide draws, ends 0.3 in past the slide's right edge.
   */
  lemma SlideGridsAsWrittenLeaveSlide()
    ensures |InfraRowAsWritten(X_CENTER, AVAILABLE_INFRA_W, GAP, INFRA_TITLES)| == 4
    ensures var gs := SlideGridCalls(InfraRowAsWritten(X_CENTER, AVAILABLE_INFRA_W, GAP, INFRA_TITLES));
            gs[|gs| - 1].x + gs[|gs| - 1].w == SLIDE_WIDTH + Inches(0.3)
  {
    SlideInfraRowOvershoots();
  }
}
