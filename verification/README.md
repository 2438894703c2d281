# IBM product placemat: grid and slide layout model

A Dafny model of the layout arithmetic in `create_editable_ibm_slide.py`.
This is the script that draws the IBM technology placemat as one 22 in by
13 in PowerPoint slide. It covers two things:

- **The product grid** (`build_product_grid`). An ordered list of product
  names is tiled row by row into a rectangle, in `cols` columns.
  - Box width: `cols` boxes plus the 0.05 in gaps between them fill the
    rectangle's width.
  - Box height: the rows plus their gaps fill the rectangle's height. The
    height is capped at 0.45 in.
  - Box `i` goes to row `i // cols` and column `i % cols`. Its corner is
    `x + c * (box_w + gap)`, `y + r * (box_h + gap)`.
  - An empty list draws nothing.
- **The slide layout** that places the grids:
  - four columns chained one gap apart from the left margin;
  - in the centre, six equal pillars and two equal application halves;
  - in the right column, IT Automation stacked over a Network block whose
    height is chosen to match the centre's height;
  - the Red Hat OpenShift banner;
  - the row of four infrastructure pillars, each `m` units plus the
    `m - 1` slide gaps (0.1 in) between them, with `m` 2 or 3;
  - the two-box footer.

All lengths are exact reals in EMU (914400 EMU to the inch).

Modules:

- `Units`, `Spans` (`spans.dfy`): inches to EMU, plus the one-dimensional
  building blocks.
  - `UniformSpan`: `n` equal parts and `n - 1` gaps fill a total.
  - `Partition`: the equal parts, placed by the closed form
    `origin + i * (unit + gap)`.
  - `Chain`: parts of given widths placed by a running offset, which
    advances by width plus gap.
  - `PartitionIsChain`: the two placements agree.
- `ProductGrid` (`product_grid.dfy`): `build_product_grid` as a pure
  function (`BuildProductGrid`, `GridLayout`) and as the script's loop
  (`EmitGrid`, `EmitBoxes`), and the proof that the two agree.
  - One box per product, in order.
- `GridLemmas` (`grid_lemmas.dfy`): what a grid guarantees.
  - Row-major cells.
  - Boxes inside the rectangle.
  - The columns tile the width exactly.
  - The last row reaches the bottom edge exactly when the height cap does
    not apply.
  - No two boxes overlap.
- `SlideLayout` (`slide_layout.dfy`): columns, pillars, halves, the centre
  and right stacks, the banner and the footer.
- `InfraRow` (`infra_row.dfy`): the infrastructure row as written and a
  corrected row (see Findings).
  - The test `"Resilience" in title` is `Contains`, a case-sensitive
    search for the pattern among the title's characters, as Python's `in`
    on strings is.
- `SlideGrids` (`slide_grids.dfy`): all 18 grid calls of the slide.
  - With the corrected infrastructure row, each call fits and stays
    between the slide's margins.
  - With the row as written, the last grid runs off the slide.

Facts about `build_product_grid` that shape the model:

- The grid's gap (0.05 in) and height cap (0.45 in) are fixed constants
  inside `build_product_grid`, not parameters.
- Nothing rejects a non-positive rectangle. Such a rectangle yields
  degenerate boxes, so the geometric lemmas assume `GridFits`.
- A column count of zero is not reported as an invalid argument.
  - With a non-empty list, it divides by zero: `Err(ZeroColumns)`.
  - With an empty list, the early return comes first and nothing is drawn.

## Model

| member | source | states |
|---|---|---|
| ProductGrid.RowCount | create_editable_ibm_slide.py:80 | the row count is the ceiling of n / cols: rows * cols >= n and (rows - 1) * cols < n |
| ProductGrid.CellOf | create_editable_ibm_slide.py:88-89 | box i's (row, col) has col < cols and row * cols + col == i |
| ProductGrid.BoxHeight | create_editable_ibm_slide.py:82-85 | box height never exceeds 0.45 in; when the rows would need taller boxes it is exactly 0.45 in, otherwise rows and gaps fill h exactly; rows and gaps never exceed h |
| ProductGrid.CellRectClosedForm | create_editable_ibm_slide.py:90-91 | stepping one box plus one gap per column and per row puts cell (r, c) at x + c * (box_w + gap), y + r * (box_h + gap) |
| ProductGrid.GridBox | create_editable_ibm_slide.py:81-91 | cols boxes of the returned width and cols - 1 gaps of 0.05 in fill the grid's width exactly; the box height never exceeds 0.45 in |
| ProductGrid.GridLayout | create_editable_ibm_slide.py:80-94 | one placement per product, in the products' order, each showing its product in the box of its index |
| ProductGrid.LayoutClosedForm | create_editable_ibm_slide.py:80-91 | placement i is the box at column i % cols and row i / cols with the uniform width and capped height, carrying product i |
| ProductGrid.BuildProductGrid | create_editable_ibm_slide.py:77-94 | fails exactly when the list is non-empty and cols is 0; empty list draws nothing; otherwise one placement per product, in order, with its name |
| ProductGrid.EmitBoxes | create_editable_ibm_slide.py:87-94 | the loop emits, for every product i, a box at cell (i / cols, i % cols) showing product i |
| ProductGrid.EmitGrid | create_editable_ibm_slide.py:77-94 | the procedural grid (early return, sizes computed once, loop) equals the functional layout on every input, including the empty and zero-column cases |
| Spans.UniformSpan | create_editable_ibm_slide.py:81 | n parts of the returned width and n - 1 gaps fill the total exactly |
| Spans.Partition | create_editable_ibm_slide.py:180-182 | n equal parts starting at origin, each one gap after the previous, the last ending exactly at origin + total |
| Spans.Chain | create_editable_ibm_slide.py:242-250 | running-offset placement keeps the given widths, starts at origin, chains parts one gap apart and ends at origin plus the widths-and-gaps extent |
| Spans.PartitionIsChain | create_editable_ibm_slide.py:180-182 | the closed-form placement x + i * (p_w + GAP) equals the running-offset placement of n parts of width p_w |
| GridLemmas.CellIndexRoundTrip | create_editable_ibm_slide.py:88-89 | index to cell and cell to index are inverse |
| GridLemmas.CellsDistinct | create_editable_ibm_slide.py:80-89 | distinct products get distinct cells, all in rows below the row count |
| GridLemmas.RowsAtMostCount | create_editable_ibm_slide.py:80 | a grid never has more rows than products |
| GridLemmas.FitsByCount | create_editable_ibm_slide.py:80-82 | a rectangle wider than its column gaps and taller than the gaps of one product per row gives positive boxes |
| GridLemmas.FitsPositive | create_editable_ibm_slide.py:81-85 | in a grid that fits, box width and height are positive |
| GridLemmas.GridBoxSizes | create_editable_ibm_slide.py:81-85 | every box has positive width and positive height of at most 0.45 in, and exactly 0.45 in when the cap applies |
| GridLemmas.GridColumnsTileWidth | create_editable_ibm_slide.py:81-90 | box i occupies column part i % cols of the width split into cols equal parts with gaps; last-column boxes end at x + w |
| GridLemmas.GridFillsHeight | create_editable_ibm_slide.py:80-91 | the last box ends at or above y + h, exactly at y + h if and only if the height cap did not apply |
| GridLemmas.BoxInside | create_editable_ibm_slide.py:80-91 | in a grid that fits, box i lies inside the grid's rectangle |
| GridLemmas.GridWithinBounds | create_editable_ibm_slide.py:80-91 | in a grid that fits, every placed box lies inside the grid's rectangle |
| GridLemmas.CellsApart | create_editable_ibm_slide.py:90-91 | with positive box sizes, an earlier row ends above a later row and, in one row, an earlier column ends left of a later one |
| GridLemmas.BoxesApart | create_editable_ibm_slide.py:87-91 | an earlier box ends above a later one, or shares its row and ends left of it |
| GridLemmas.GridBoxesDisjoint | create_editable_ibm_slide.py:87-91 | in a grid that fits, no two boxes overlap |
| GridLemmas.GridReadingOrder | create_editable_ibm_slide.py:87-91 | boxes follow reading order: a later box is lower, or in the same row and further right |
| SlideLayout.CenterWidth | create_editable_ibm_slide.py:129 | both margins, the three fixed columns, the three gaps and the centre width add up to the slide width |
| SlideLayout.Columns | create_editable_ibm_slide.py:129-135 | four columns chained one gap apart from the left margin, with the given fixed widths, the right column ending at the right margin for any widths |
| SlideLayout.SlideColumns | create_editable_ibm_slide.py:117-135 | on the slide X_SEC = 0.7 in, X_CENTER = 3.1 in, CENTER_W = 16.3 in, X_RIGHT = 19.5 in, and the right column ends at the right margin |
| SlideLayout.Pillars | create_editable_ibm_slide.py:180-182 | six pillars of width (CENTER_W - 5 * GAP) / 6 at X_CENTER + i * (p_w + GAP), chained, spanning the centre column exactly |
| SlideLayout.Halves | create_editable_ibm_slide.py:189-197 | two halves of width (total - GAP) / 2, the second at origin + width + GAP, ending at origin + total |
| SlideLayout.SlidePillarsSpanCenter | create_editable_ibm_slide.py:180-182 | the slide's pillars start at X_CENTER and end one gap before X_RIGHT |
| SlideLayout.SlideAppHalvesSpan | create_editable_ibm_slide.py:189-197 | the application halves start at X_CENTER and end one gap before X_RIGHT |
| SlideLayout.SlideFooterSpan | create_editable_ibm_slide.py:255-257 | the two footer boxes span the slide from the left margin to the right margin |
| SlideLayout.CenterStack | create_editable_ibm_slide.py:168-188 | the pillars start one gap below Client Applications, the application blocks one gap below the pillars |
| SlideLayout.NetworkHeight | create_editable_ibm_slide.py:209 | IT Automation, one gap and the Network block are as tall as Client Applications, the pillars, the application blocks and the two gaps between them |
| SlideLayout.RightStack | create_editable_ibm_slide.py:208-209 | the Network block starts one gap below IT Automation and ends its own height further down |
| SlideLayout.NetworkMatchesCenterHeight | create_editable_ibm_slide.py:207-209 | for any block heights, the Network block ends exactly where the centre's application blocks end |
| SlideLayout.BannerSpansCenterAndRight | create_editable_ibm_slide.py:217-219 | the banner starting at X_CENTER with width CENTER_W + GAP + RIGHT_W ends at the right column's edge |
| InfraRow.ContainsIffOccurs | create_editable_ibm_slide.py:244 | the left-to-right substring scan answers true exactly when the pattern occurs at some position of the title |
| InfraRow.WidthMultiplier | create_editable_ibm_slide.py:244 | every pillar is two or three units wide |
| InfraRow.WidthMultiplierRule | create_editable_ibm_slide.py:244 | the multiplier is 3 exactly when "Resilience" occurs in the title, and 2 exactly when it does not |
| InfraRow.Multipliers | create_editable_ibm_slide.py:243-244 | one multiplier per title, in the titles' order, each that title's multiplier |
| InfraRow.MultipliersSum | create_editable_ibm_slide.py:243-244 | every multiplier is 2 or 3, and the row's total multiplier is two per pillar plus one per title mentioning "Resilience" |
| InfraRow.PillarIsUnitsWithGaps | create_editable_ibm_slide.py:245 | a pillar m units wide is m units plus the m - 1 slide gaps between them, exactly as wide as m units chained one gap apart |
| InfraRow.PillarsExtent | create_editable_ibm_slide.py:245-250 | pillars of total multiplier S laid one gap apart span S units and S - 1 gaps |
| InfraRow.InfraUnitWidth | create_editable_ibm_slide.py:240 | nine units and three gaps fill the available width |
| InfraRow.PillarRow | create_editable_ibm_slide.py:242-250 | one pillar per multiplier, the first at the row's start, chained one gap apart, pillar i m_i units plus m_i - 1 gaps wide |
| InfraRow.PillarRowEnd | create_editable_ibm_slide.py:242-250 | a row of total multiplier S ends S units and S - 1 gaps past its start |
| InfraRow.RowWithUnit | create_editable_ibm_slide.py:242-250 | one pillar per title, the first at the row's start, chained one gap apart, each m units plus m - 1 gaps wide for its title's multiplier m |
| InfraRow.RowEnd | create_editable_ibm_slide.py:242-250 | the titles' row ends S units and S - 1 gaps past its start, S the titles' total multiplier |
| InfraRow.InfraRowAsWritten | create_editable_ibm_slide.py:239-250 | the script's row: one pillar per title, the first at the row's start, chained one gap apart |
| InfraRow.AsWrittenIsPillarRow | create_editable_ibm_slide.py:239-250 | the script's row is the pillar row of the titles' multipliers with the unit of line 240 |
| InfraRow.NinePillarRowOvershoots | create_editable_ibm_slide.py:240-250 | when nine units and three gaps fill the width, pillars of total multiplier nine end five gaps past it |
| InfraRow.AsWrittenPillarRowOvershoots | create_editable_ibm_slide.py:240-250 | with the unit of line 240, pillars of total multiplier nine end five gaps past the available width |
| InfraRow.InfraRowOvershoots | create_editable_ibm_slide.py:239-250 | when two per pillar plus one per "Resilience" title makes nine, the script's row ends five gaps past the available width |
| InfraRow.AlignedInfraRow | create_editable_ibm_slide.py:239-250 | the corrected row: one pillar per title, the first at the row's start, chained one gap apart, each pillar m units plus m - 1 gaps wide for its title's multiplier m, with the unit that S units and S - 1 gaps share |
| InfraRow.FilledPillarRowEnds | create_editable_ibm_slide.py:242-250 | pillars whose units and gaps together fill a width end exactly that width past the row's start |
| InfraRow.AlignedPillarRowEnds | create_editable_ibm_slide.py:239-250 | pillars of any multipliers, with the unit sized for all S - 1 gaps, end exactly at the available width |
| InfraRow.AlignedInfraRowEnds | create_editable_ibm_slide.py:239-250 | for any titles, the corrected row ends exactly at the available width |
| InfraRow.SlideMultipliers | create_editable_ibm_slide.py:232-244 | the slide's four titles get multipliers 3, 2, 2, 2, summing to nine |
| InfraRow.SlideInfraRowOvershoots | create_editable_ibm_slide.py:231-250 | on the slide the row as written ends 0.5 in past the right column, 0.3 in past the slide's edge |
| InfraRow.SlideAlignedInfraRowEnds | create_editable_ibm_slide.py:231-250 | on the slide the corrected row ends exactly under the right column's edge |
| SlideGrids.ColumnGrids | create_editable_ibm_slide.py:181-184 | one grid per part: grid i lies over part i's span, at the common height, with part i's product and column counts |
| SlideGrids.SecurityGrids | create_editable_ibm_slide.py:150-157 | two grids, both over the security column, one column each |
| SlideGrids.PillarGrids | create_editable_ibm_slide.py:180-184 | six grids, grid i lying over pillar i |
| SlideGrids.HalfGrids | create_editable_ibm_slide.py:189-197 | two grids, each lying over its application half |
| SlideGrids.CenterGrids | create_editable_ibm_slide.py:164-197 | nine grids: Client Applications, then grids 1-6 over the six pillars and grids 7-8 over the two halves |
| SlideGrids.RightGrids | create_editable_ibm_slide.py:204-212 | two grids, both over the right column, one column each |
| SlideGrids.InfraGrids | create_editable_ibm_slide.py:228-249 | five grids: Enterprise Storage, then grids 1-4 over the four infrastructure pillars |
| SlideGrids.SlideGridCalls | create_editable_ibm_slide.py:150-249 | eighteen grids in drawing order: 3-8 over the pillars, 9-10 over the application halves, 14-17 over the infrastructure pillars |
| SlideGrids.ColumnGridsSound | create_editable_ibm_slide.py:181-184 | grids laid over chained parts within the margins, wide and tall enough for their columns and products, all fit |
| SlideGrids.SecurityGridsSound | create_editable_ibm_slide.py:145-157 | the Data Security and Identity grids fit and stay within the margins |
| SlideGrids.PillarGridsSound | create_editable_ibm_slide.py:180-184 | the six pillar grids fit and stay within the margins |
| SlideGrids.HalfGridsSound | create_editable_ibm_slide.py:187-197 | the two application grids fit and stay within the margins |
| SlideGrids.CenterGridsSound | create_editable_ibm_slide.py:162-197 | every centre grid fits and stays within the margins |
| SlideGrids.RightGridsSound | create_editable_ibm_slide.py:202-212 | the IT Automation and Network grids fit and stay within the margins |
| SlideGrids.SlideInfraRowShape | create_editable_ibm_slide.py:239-250 | the corrected row has four chained pillars from X_CENTER to the right column's edge, each wide enough for three grid columns |
| SlideGrids.InfraGridsSound | create_editable_ibm_slide.py:223-250 | Enterprise Storage and the four infrastructure grids over the corrected row fit and stay within the margins |
| SlideGrids.SlideGridsSound | create_editable_ibm_slide.py:150-249 | all 18 grids of the slide, with the corrected row, draw positive boxes and stay between the slide's margins |
| SlideGrids.SoundGridBoxesWithinMargins | create_editable_ibm_slide.py:87-91 | for a grid call that fits between the margins, every box it draws lies between the slide's margins |
| SlideGrids.SlideBoxesWithinMargins | create_editable_ibm_slide.py:150-249 | for each of the slide's 18 calls, with the corrected row, every box drawn lies between the slide's margins |
| SlideGrids.SlideGridsAsWrittenLeaveSlide | create_editable_ibm_slide.py:239-250 | with the row as written, the slide's last grid ends 0.3 in past the slide's right edge |

## Left out

- Drawing: `create_box`, python-pptx shapes, colours, outlines, fonts and
  text frames are left out. A placement keeps only its rectangle and its
  product name, because none of the rest affects the layout.
- Product names in the slide-level model: `SlideGrids` keeps only each
  list's length and column count, which is all the layout depends on.
- The header, legend and ELA badge (lines 103-114), the section header
  boxes and the Client Engineering box: these are single `create_box`
  calls at fixed positions and are not grids.
- Saving the file and the final print (lines 259-260): file I/O.
- Floating point and integer EMU: python-pptx stores lengths as integer
  EMU and the script computes with floats. The model uses exact reals, so
  it does not model rounding.
- The default `cols=1` of `build_product_grid` (line 77): every call site
  passes `cols`, so the model takes it as an explicit argument.
- Negative column counts: the model takes `cols` as a natural number. No
  call site passes a negative count.
- Vertical fit of the slide's blocks against the slide height: the model
  proves horizontal placement and box fit only.

## Findings

| source | as written | input that shows it | evidently intended | confidence | as-written member | corrected member |
|---|---|---|---|---|---|---|
| create_editable_ibm_slide.py:240 | `infra_unit_w = (available_infra_w - GAP * 3) / 9` reserves three gaps, but the row uses eight (five inside the pillars, three between them). It therefore ends at X_CENTER + available_infra_w + 5 * GAP. | The slide's own four titles (multipliers 3, 2, 2, 2). The Cloud pillar and its grid end at 22.3 in, 0.5 in past the right column and 0.3 in past the 22 in slide, instead of "aligned under Center + Right" (line 231). | `(available_infra_w - GAP * 8) / 9`, i.e. S - 1 gaps for total multiplier S, so that the row ends at X_RIGHT + RIGHT_W | high; not executed | InfraRow.InfraRowOvershoots | InfraRow.AlignedInfraRowEnds |
