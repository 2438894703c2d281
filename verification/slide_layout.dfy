/**
 * The slide-level layout arithmetic of the placemat: the 22 in by 13 in
 * slide is split into four columns (Client Engineering, Security, Centre,
 * Right); the centre holds a row of six pillars and, below it, two
 * application halves; the right column stacks IT Automation over Network
 * Management; a two-box footer spans the slide.
 */
module SlideLayout {
  import opened Units
  import opened Spans

  const SLIDE_WIDTH: real := Inches(22.0)
  const MARGIN_X: real := Inches(0.2)
  const TOP_Y: real := Inches(1.2)

  /** Widths of the fixed columns and the gap between neighbouring blocks. */
  const CE_W: real := Inches(0.4)
  const SEC_W: real := Inches(2.3)
  const RIGHT_W: real := Inches(2.3)
  const GAP: real := Inches(0.1)

  /** Heights of the blocks stacked in the centre and in the right column. */
  const CA_H: real := Inches(1.4)
  const P6_H: real := Inches(5.0)
  const AD_H: real := Inches(1.8)
  const IT_H: real := Inches(5.4)

  /**
   * The centre column's width: the slide width less both margins, the three
   * fixed columns and the three gaps between the four columns.
   */
  function CenterWidth(slideW: real, margin: real, ceW: real, secW: real, rightW: real, gap: real): (w: real)
    ensures margin + ceW + gap + secW + gap + w + gap + rightW + margin == slideW
  {
    slideW - margin * 2.0 - ceW - secW - rightW - gap * 3.0
  }

  /**
   * The four columns, left to right: Client Engineering, Security, Centre
   * and Right, each x-coordinate one gap after the previous column ends.
   * Whatever the fixed widths, the right column ends at the right margin.
   */
  function Columns(slideW: real, margin: real, ceW: real, secW: real, rightW: real, gap: real)
    : (cols: seq<Interval>)
    ensures |cols| == 4
    ensures cols[0].lo == margin
    ensures Chained(cols, gap)
    ensures cols[0].len == ceW && cols[1].len == secW && cols[3].len == rightW
    ensures cols[3].Hi() == slideW - margin
  {
    var cols := Chain(margin, [ceW, secW, CenterWidth(slideW, margin, ceW, secW, rightW, gap), rightW], gap);
    assert Follows(cols, gap, 1);
    assert Follows(cols, gap, 2);
    assert Follows(cols, gap, 3);
    cols
  }

  const COLUMNS: seq<Interval> := Columns(SLIDE_WIDTH, MARGIN_X, CE_W, SEC_W, RIGHT_W, GAP)
  const X_SEC: real := COLUMNS[1].lo
  const X_CENTER: real := COLUMNS[2].lo
  const CENTER_W: real := COLUMNS[2].len
  const X_RIGHT: real := COLUMNS[3].lo

  /** The slide's columns at its actual sizes. */
  lemma SlideColumns()
    ensures X_SEC == Inches(0.7)
    ensures X_CENTER == Inches(3.1) && CENTER_W == Inches(16.3)
    ensures X_RIGHT == Inches(19.5)
    ensures X_RIGHT + RIGHT_W == SLIDE_WIDTH - MARGIN_X
  {
    assert Follows(COLUMNS, GAP, 1);
    assert Follows(COLUMNS, GAP, 2);
    assert Follows(COLUMNS, GAP, 3);
  }

  /**
   * The six pillars of the centre: equal widths `(centerW - 5 * gap) / 6`,
   * pillar `i` at `xCenter + i * (width + gap)`; together with their five
   * gaps they span the centre column exactly.
   */
  function Pillars(xCenter: real, centerW: real, gap: real): (ps: seq<Interval>)
    ensures |ps| == 6
    ensures forall i :: 0 <= i < 6 ==>
              ps[i].len == (centerW - gap * 5.0) / 6.0
              && ps[i].lo == xCenter + (i as real) * ((centerW - gap * 5.0) / 6.0 + gap)
    ensures Chained(ps, gap)
    ensures ps[0].lo == xCenter && ps[5].Hi() == xCenter + centerW
  {
    assert UniformSpan(centerW, gap, 6) == (centerW - gap * 5.0) / 6.0;
    Partition(xCenter, centerW, gap, 6)
  }

  /**
   * Two equal halves of `total` separated by one gap, as the application
   * development and integration blocks and the two footer boxes are laid
   * out: width `(total - gap) / 2`, the second starting at
   * `origin + width + gap`, ending exactly at `origin + total`.
   */
  function Halves(origin: real, total: real, gap: real): (hs: seq<Interval>)
    ensures |hs| == 2
    ensures hs[0] == Interval(origin, (total - gap) / 2.0)
    ensures hs[1] == Interval(origin + (total - gap) / 2.0 + gap, (total - gap) / 2.0)
    ensures hs[1].Hi() == origin + total
  {
    Partition(origin, total, gap, 2)
  }

  /** The slide's pillars end one gap before the right column starts. */
  lemma SlidePillarsSpanCenter()
    ensures Pillars(X_CENTER, CENTER_W, GAP)[0].lo == X_CENTER
    ensures Pillars(X_CENTER, CENTER_W, GAP)[5].Hi() + GAP == X_RIGHT
  {
    assert Follows(COLUMNS, GAP, 3);
  }

  /** The slide's application halves span the centre column, ending one gap before the right column. */
  lemma SlideAppHalvesSpan()
    ensures Halves(X_CENTER, CENTER_W, GAP)[0].lo == X_CENTER
    ensures Halves(X_CENTER, CENTER_W, GAP)[1].Hi() + GAP == X_RIGHT
  {
    assert Follows(COLUMNS, GAP, 3);
  }

  /** The slide's two footer boxes span the slide between the margins. */
  lemma SlideFooterSpan()
    ensures Halves(MARGIN_X, SLIDE_WIDTH - MARGIN_X * 2.0, GAP)[0].lo == MARGIN_X
    ensures Halves(MARGIN_X, SLIDE_WIDTH - MARGIN_X * 2.0, GAP)[1].Hi() == SLIDE_WIDTH - MARGIN_X
  {}

  /**
   * The centre column stacks Client Applications, the pillars and the
   * application blocks from `top`, one gap apart.
   */
  function CenterStack(top: real, caH: real, p6H: real, adH: real, gap: real): (s: seq<Interval>)
    ensures |s| == 3
    ensures s[1].lo == top + caH + gap
    ensures s[2].lo == s[1].lo + p6H + gap
    ensures s[2].Hi() == top + caH + gap + p6H + gap + adH
  {
    var s := Chain(top, [caH, p6H, adH], gap);
    assert Follows(s, gap, 1);
    assert Follows(s, gap, 2);
    s
  }

  /**
   * The Network block's height: the centre's total height less the IT
   * Automation block and the gap below it.
   */
  function NetworkHeight(caH: real, p6H: real, adH: real, itH: real, gap: real): (netH: real)
    ensures itH + gap + netH == caH + gap + p6H + gap + adH
  {
    (caH + gap + p6H + gap + adH) - itH - gap
  }

  /** The right column stacks IT Automation over Network Management from `top`, one gap apart. */
  function RightStack(top: real, itH: real, netH: real, gap: real): (s: seq<Interval>)
    ensures |s| == 2
    ensures s[1].lo == top + itH + gap
    ensures s[1].Hi() == top + itH + gap + netH
  {
    var s := Chain(top, [itH, netH], gap);
    assert Follows(s, gap, 1);
    s
  }

  /**
   * Whatever the block heights, the Network block ends exactly where the
   * centre column's application blocks end.
   */
  lemma NetworkMatchesCenterHeight(top: real, caH: real, p6H: real, adH: real, itH: real, gap: real)
    ensures RightStack(top, itH, NetworkHeight(caH, p6H, adH, itH, gap), gap)[1].Hi()
         == CenterStack(top, caH, p6H, adH, gap)[2].Hi()
  {}

  /** The Red Hat OpenShift banner spans the centre and right columns exactly. */
  lemma BannerSpansCenterAndRight()
    ensures X_CENTER + (CENTER_W + GAP + RIGHT_W) == X_RIGHT + RIGHT_W
  {
    assert Follows(COLUMNS, GAP, 3);
  }
}
