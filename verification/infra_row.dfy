/**
 * The infrastructure row under the centre and right columns: four pillars
 * laid left to right from the centre column's start. A pillar is `m` units
 * plus the `m - 1` slide gaps (0.1 in) between them, where `m` is 3 for the
 * pillar whose title mentions "Resilience" and 2 otherwise, and the running
 * x-offset advances by the pillar's width plus one gap.
 *
 * The row reserves too few gaps when it sizes its unit: see
 * `InfraRowOvershoots` (the row as written) and `AlignedInfraRowEnds`
 * (the unit that makes the row end where the right column ends).
 */
module InfraRow {
  import opened Units
  import opened Spans
  import opened SlideLayout

  /** `pat` occurs in `s` starting at position `k`. */
  predicate OccursAt(s: string, pat: string, k: nat) {
    k + |pat| <= |s| && s[k..k + |pat|] == pat
  }

  /** `pat` occurs in `s` at some position `k` or later, scanning left to right. */
  predicate ContainsFrom(s: string, pat: string, k: nat)
    decreases |s| - k
  {
    if k + |pat| > |s| then false
    else OccursAt(s, pat, k) || ContainsFrom(s, pat, k + 1)
  }

  /** `pat` occurs in `s` as a contiguous substring. */
  predicate Contains(s: string, pat: string) {
    ContainsFrom(s, pat, 0)
  }

  /** The scan from `k` finds `pat` exactly when it occurs at some position `k` or later. */
  lemma {:induction false} ContainsFromIffOccurs(s: string, pat: string, k: nat)
    ensures ContainsFrom(s, pat, k) <==> exists j: nat :: k <= j && OccursAt(s, pat, j)
    decreases |s| - k
  {
    if k + |pat| <= |s| {
      ContainsFromIffOccurs(s, pat, k + 1);
      if exists j: nat :: k <= j && OccursAt(s, pat, j) {
        var j: nat :| k <= j && OccursAt(s, pat, j);
        assert j == k || (k + 1 <= j && OccursAt(s, pat, j));
      }
    }
  }

  /** `Contains` holds exactly when `pat` occurs in `s` at some position. */
  lemma ContainsIffOccurs(s: string, pat: string)
    ensures Contains(s, pat) <==> exists j: nat :: OccursAt(s, pat, j)
  {
    ContainsFromIffOccurs(s, pat, 0);
  }

  /** A pillar whose title mentions "Resilience" is three units wide, any other two. */
  function WidthMultiplier(title: string): (m: nat)
    ensures m == 2 || m == 3
  {
    if Contains(title, "Resilience") then 3 else 2
  }

  /** The multiplier rule with the substring search spelled out: three exactly when "Resilience" occurs in the title. */
  lemma WidthMultiplierRule(title: string)
    ensures WidthMultiplier(title) == 3 <==> exists j: nat :: OccursAt(title, "Resilience", j)
    ensures WidthMultiplier(title) == 2 <==> !exists j: nat :: OccursAt(title, "Resilience", j)
  {
    ContainsIffOccurs(title, "Resilience");
  }

  /** The width multiplier of each title, in order. */
  function Multipliers(titles: seq<string>): (ms: seq<nat>)
    ensures |ms| == |titles|
    ensures forall i :: 0 <= i < |titles| ==> ms[i] == WidthMultiplier(titles[i])
  {
    seq(|titles|, i requires 0 <= i < |titles| => WidthMultiplier(titles[i]))
  }

  function NatSum(ms: seq<nat>): nat {
    if |ms| == 0 then 0 else ms[0] + NatSum(ms[1..])
  }

  /** How many of the titles mention "Resilience". */
  function ResilienceCount(titles: seq<string>): nat
    ensures ResilienceCount(titles) <= |titles|
  {
    if |titles| == 0 then 0
    else (if Contains(titles[0], "Resilience") then 1 else 0) + ResilienceCount(titles[1..])
  }

  /**
   * Every pillar is two or three units wide, and the row's total
   * multiplier is two per pillar plus one per title mentioning "Resilience".
   */
  lemma {:induction false} MultipliersSum(titles: seq<string>)
    ensures forall i :: 0 <= i < |titles| ==> 2 <= Multipliers(titles)[i] <= 3
    ensures NatSum(Multipliers(titles)) == 2 * |titles| + ResilienceCount(titles)
    decreases |titles|
  {
    if |titles| > 0 {
      MultipliersSum(titles[1..]);
      assert Multipliers(titles)[1..] == Multipliers(titles[1..]);
    }
  }

  /** A pillar `m` units wide: `m` units and the `m - 1` gaps between them. */
  function PillarWidth(unit: real, gap: real, m: nat): real {
    (m as real) * unit + ((m - 1) as real) * gap
  }

  /** A pillar `m` units wide spans `m` units laid one gap apart, as `Chain` would lay them. */
  lemma {:induction false} PillarIsUnitsWithGaps(unit: real, gap: real, m: nat)
    requires m >= 1
    ensures PillarWidth(unit, gap, m) == Extent(seq(m, _ => unit), gap)
    decreases m
  {
    var us := seq(m, _ => unit);
    if m > 1 {
      PillarIsUnitsWithGaps(unit, gap, m - 1);
      assert us[1..] == seq(m - 1, _ => unit);
      ExtentStep(unit, gap, 1.0, (m - 1) as real);
    }
  }

  function PillarWidths(unit: real, gap: real, ms: seq<nat>): (ws: seq<real>)
    ensures |ws| == |ms|
    ensures forall i :: 0 <= i < |ms| ==> ws[i] == PillarWidth(unit, gap, ms[i])
  {
    if |ms| == 0 then [] else [PillarWidth(unit, gap, ms[0])] + PillarWidths(unit, gap, ms[1..])
  }

  /** One pillar of multiplier `a` followed, one gap on, by pillars spanning `b` units and `b - 1` gaps. */
  lemma ExtentStep(unit: real, gap: real, a: real, b: real)
    ensures a * unit + (a - 1.0) * gap + gap + (b * unit + (b - 1.0) * gap)
         == (a + b) * unit + (a + b - 1.0) * gap
  {}

  /**
   * Pillars of total multiplier `S` laid one gap apart span `S` units and
   * `S - 1` gaps: the in-pillar gaps and the gaps between pillars together.
   */
  lemma {:induction false} PillarsExtent(unit: real, gap: real, ms: seq<nat>)
    requires |ms| > 0
    ensures Extent(PillarWidths(unit, gap, ms), gap)
         == (NatSum(ms) as real) * unit + ((NatSum(ms) - 1) as real) * gap
    decreases |ms|
  {
    var ws := PillarWidths(unit, gap, ms);
    if |ms| == 1 {
      assert NatSum(ms) == ms[0] + NatSum(ms[1..]);
    } else {
      PillarsExtent(unit, gap, ms[1..]);
      assert ws[1..] == PillarWidths(unit, gap, ms[1..]);
      ExtentStep(unit, gap, ms[0] as real, NatSum(ms[1..]) as real);
    }
  }

  /** The row's unit as the slide computes it: nine units and three gaps fill `avail`. */
  function InfraUnitWidth(avail: real, gap: real): (unit: real)
    ensures 9.0 * unit + 3.0 * gap == avail
  {
    (avail - gap * 3.0) / 9.0
  }

  /** Pillars with multipliers `ms`, sized with `unit`, laid from `xStart` one gap apart. */
  function PillarRow(xStart: real, unit: real, gap: real, ms: seq<nat>): (row: seq<Interval>)
    ensures |row| == |ms|
    ensures |row| > 0 ==> row[0].lo == xStart
    ensures Chained(row, gap)
    ensures forall i :: 0 <= i < |row| ==> row[i].len == PillarWidth(unit, gap, ms[i])
  {
    Chain(xStart, PillarWidths(unit, gap, ms), gap)
  }

  /** Where a row of pillars with total multiplier `S` ends: `S` units and `S - 1` gaps past its start. */
  lemma PillarRowEnd(xStart: real, unit: real, gap: real, ms: seq<nat>)
    requires |ms| > 0
    ensures End(PillarRow(xStart, unit, gap, ms))
         == xStart + (NatSum(ms) as real) * unit + ((NatSum(ms) - 1) as real) * gap
  {
    PillarsExtent(unit, gap, ms);
  }

  /** The pillars of the row, sized with `unit`, laid from `xStart` one gap apart. */
  function RowWithUnit(xStart: real, unit: real, gap: real, titles: seq<string>): (row: seq<Interval>)
    ensures |row| == |titles|
    ensures |row| > 0 ==> row[0].lo == xStart
    ensures Chained(row, gap)
    ensures forall i :: 0 <= i < |row| ==> row[i].len == PillarWidth(unit, gap, WidthMultiplier(titles[i]))
  {
    PillarRow(xStart, unit, gap, Multipliers(titles))
  }

  /** Where the row of the given titles ends: `S` units and `S - 1` gaps past its start. */
  lemma RowEnd(xStart: real, unit: real, gap: real, titles: seq<string>)
    requires |titles| > 0
    ensures End(RowWithUnit(xStart, unit, gap, titles))
         == xStart + (NatSum(Multipliers(titles)) as real) * unit
                   + ((NatSum(Multipliers(titles)) - 1) as real) * gap
  {
    PillarRowEnd(xStart, unit, gap, Multipliers(titles));
  }

  /** The infrastructure row as the slide lays it out, unit from `InfraUnitWidth`. */
  function InfraRowAsWritten(xStart: real, avail: real, gap: real, titles: seq<string>): (row: seq<Interval>)
    ensures |row| == |titles|
    ensures |row| > 0 ==> row[0].lo == xStart
    ensures Chained(row, gap)
  {
    RowWithUnit(xStart, InfraUnitWidth(avail, gap), gap, titles)
  }

  /**
   * Pillars of total multiplier nine, with a unit sized so that nine units
   * and three gaps fill `avail`, end five gaps past `xStart + avail`.
   */
  lemma NinePillarRowOvershoots(xStart: real, avail: real, unit: real, gap: real, ms: seq<nat>)
    requires |ms| > 0 && NatSum(ms) == 9
    requires 9.0 * unit + 3.0 * gap == avail
    ensures End(PillarRow(xStart, unit, gap, ms)) == xStart + avail + 5.0 * gap
  {
    NineUnitsEightGaps(NatSum(ms), unit, gap);
    FilledPillarRowEnds(xStart, avail + 5.0 * gap, unit, gap, ms);
  }

  /** A total multiplier of nine means nine units and eight gaps. */
  lemma NineUnitsEightGaps(n: nat, unit: real, gap: real)
    requires n == 9
    ensures (n as real) * unit + ((n - 1) as real) * gap == 9.0 * unit + 8.0 * gap
  {}

  /** Pillars of total multiplier nine, sized with the unit as the slide computes it, end five gaps past `xStart + avail`. */
  lemma AsWrittenPillarRowOvershoots(xStart: real, avail: real, gap: real, ms: seq<nat>)
    requires |ms| > 0 && NatSum(ms) == 9
    ensures End(PillarRow(xStart, InfraUnitWidth(avail, gap), gap, ms)) == xStart + avail + 5.0 * gap
  {
    NinePillarRowOvershoots(xStart, avail, InfraUnitWidth(avail, gap), gap, ms);
  }

  /** The row as written is the row of pillars with the titles' multipliers and the slide's unit. */
  lemma AsWrittenIsPillarRow(xStart: real, avail: real, gap: real, titles: seq<string>)
    ensures InfraRowAsWritten(xStart, avail, gap, titles)
         == PillarRow(xStart, InfraUnitWidth(avail, gap), gap, Multipliers(titles))
  {}

  /** When the titles' multipliers add up to nine, the row as written ends five gaps past `xStart + avail`. */
  lemma AsWrittenRowEnd(xStart: real, avail: real, gap: real, titles: seq<string>)
    requires |titles| > 0 && NatSum(Multipliers(titles)) == 9
    ensures End(InfraRowAsWritten(xStart, avail, gap, titles)) == xStart + avail + 5.0 * gap
  {
    AsWrittenPillarRowOvershoots(xStart, avail, gap, Multipliers(titles));
    AsWrittenIsPillarRow(xStart, avail, gap, titles);
  }

  /**
   * Whenever the multipliers add up to nine (two per pillar, one more per
   * "Resilience" title), the row as written ends five gaps past
   * `xStart + avail`: the unit reserves three gaps but the row uses
   * `9 - 1 = 8` (in-pillar gaps and gaps between pillars).
   */
  lemma InfraRowOvershoots(xStart: real, avail: real, gap: real, titles: seq<string>)
    requires |titles| > 0 && 2 * |titles| + ResilienceCount(titles) == 9
    ensures End(InfraRowAsWritten(xStart, avail, gap, titles)) == xStart + avail + 5.0 * gap
  {
    MultipliersSum(titles);
    AsWrittenRowEnd(xStart, avail, gap, titles);
  }

  /**
   * The infrastructure row with the unit sized so that all `S` units and
   * all `S - 1` gaps of the row fill `avail`.
   */
  function AlignedInfraRow(xStart: real, avail: real, gap: real, titles: seq<string>): (row: seq<Interval>)
    requires NatSum(Multipliers(titles)) >= 1
    ensures |row| == |titles|
    ensures |row| > 0 ==> row[0].lo == xStart
    ensures Chained(row, gap)
    ensures forall i :: 0 <= i < |row| ==>
              row[i].len == PillarWidth(UniformSpan(avail, gap, NatSum(Multipliers(titles))), gap, WidthMultiplier(titles[i]))
  {
    RowWithUnit(xStart, UniformSpan(avail, gap, NatSum(Multipliers(titles))), gap, titles)
  }

  /** Pillars whose units and gaps together fill `avail` end at `xStart + avail`. */
  lemma FilledPillarRowEnds(xStart: real, avail: real, unit: real, gap: real, ms: seq<nat>)
    requires |ms| > 0
    requires (NatSum(ms) as real) * unit + ((NatSum(ms) - 1) as real) * gap == avail
    ensures End(PillarRow(xStart, unit, gap, ms)) == xStart + avail
  {
    PillarRowEnd(xStart, unit, gap, ms);
  }

  /** Pillars of any multipliers, with the unit that shares `avail` among all their units and gaps, end at `xStart + avail`. */
  lemma AlignedPillarRowEnds(xStart: real, avail: real, gap: real, ms: seq<nat>)
    requires |ms| > 0 && NatSum(ms) >= 1
    ensures End(PillarRow(xStart, UniformSpan(avail, gap, NatSum(ms)), gap, ms)) == xStart + avail
  {
    var unit := UniformSpan(avail, gap, NatSum(ms));
    SharedUnitFills(avail, gap, NatSum(ms));
    FilledPillarRowEnds(xStart, avail, unit, gap, ms);
  }

  /** `n` units of the shared width and `n - 1` gaps fill `avail`. */
  lemma SharedUnitFills(avail: real, gap: real, n: nat)
    requires n >= 1
    ensures (n as real) * UniformSpan(avail, gap, n) + ((n - 1) as real) * gap == avail
  {}

  /** For any titles, the aligned row ends exactly at `xStart + avail`. */
  lemma AlignedInfraRowEnds(xStart: real, avail: real, gap: real, titles: seq<string>)
    requires |titles| > 0 && NatSum(Multipliers(titles)) >= 1
    ensures End(AlignedInfraRow(xStart, avail, gap, titles)) == xStart + avail
  {
    AlignedPillarRowEnds(xStart, avail, gap, Multipliers(titles));
  }

  // ---------------------------------------------------------------------
  // The slide's infrastructure row.
  // ---------------------------------------------------------------------

  const INFRA_TITLES: seq<string> := ["Data Resilience Storage", "Power", "Z System", "Cloud"]

  /** The width from the centre column's start to the right column's end. */
  const AVAILABLE_INFRA_W: real := CENTER_W + GAP + RIGHT_W

  /** Only "Data Resilience Storage" is three units wide. */
  lemma SlideMultipliers()
    ensures ResilienceCount(INFRA_TITLES) == 1
    ensures Multipliers(INFRA_TITLES) == [3, 2, 2, 2]
    ensures NatSum(Multipliers(INFRA_TITLES)) == 9
  {
    var t := INFRA_TITLES;
    assert OccursAt(t[0], "Resilience", 5);
    ContainsIffOccurs(t[0], "Resilience");
    assert !Contains(t[1], "Resilience");
    assert !Contains(t[2], "Resilience");
    assert !Contains(t[3], "Resilience");
    assert ResilienceCount(t[3..]) == 0;
    assert t[1..][1..][1..] == t[3..];
    var ms := Multipliers(t);
    assert ms == [3, 2, 2, 2];
    MultipliersSum(t);
  }

  /**
   * On the slide, the row as written ends 0.5 in past the right column's
   * edge and 0.3 in past the slide's right edge, not under the right column.
   */
  lemma SlideInfraRowOvershoots()
    ensures InfraRowAsWritten(X_CENTER, AVAILABLE_INFRA_W, GAP, INFRA_TITLES)[3].Hi()
         == X_RIGHT + RIGHT_W + Inches(0.5)
    ensures InfraRowAsWritten(X_CENTER, AVAILABLE_INFRA_W, GAP, INFRA_TITLES)[3].Hi()
         == SLIDE_WIDTH + Inches(0.3)
  {
    SlideMultipliers();
    InfraRowOvershoots(X_CENTER, AVAILABLE_INFRA_W, GAP, INFRA_TITLES);
    SlideColumns();
  }

  /** On the slide, the aligned row ends exactly at the right column's edge. */
  lemma SlideAlignedInfraRowEnds()
    ensures NatSum(Multipliers(INFRA_TITLES)) >= 1
    ensures AlignedInfraRow(X_CENTER, AVAILABLE_INFRA_W, GAP, INFRA_TITLES)[3].Hi()
         == X_RIGHT + RIGHT_W
  {
    SlideMultipliers();
    AlignedInfraRowEnds(X_CENTER, AVAILABLE_INFRA_W, GAP, INFRA_TITLES);
    SlideColumns();
  }
}
