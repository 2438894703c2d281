/**
 * Lengths on the slide, and the one-dimensional arithmetic the layout is
 * built from: splitting a span into equal parts separated by gaps, and
 * chaining parts of given widths one gap apart.
 *
 * All lengths are exact reals measured in EMU (English Metric Units), the
 * unit the presentation format uses: one inch is 914400 EMU.
 */
module Units {

  /** A length given in inches, as EMU: 914400 EMU to the inch. */
  function Inches(v: real): real {
    v * 914400.0
  }
}

module Spans {

  /** The closed interval [lo, lo + len] along one axis. */
  datatype Interval = Interval(lo: real, len: real) {
    function Hi(): real { lo + len }
  }

  /** The span covered by parts of the given widths with one gap between each two neighbours. */
  function Extent(widths: seq<real>, gap: real): real
    decreases |widths|
  {
    if |widths| == 0 then 0.0
    else if |widths| == 1 then widths[0]
    else widths[0] + gap + Extent(widths[1..], gap)
  }

  /** Interval `i` starts exactly one gap after interval `i - 1` ends. */
  predicate Follows(r: seq<Interval>, gap: real, i: nat) {
    0 < i < |r| && r[i].lo == r[i - 1].Hi() + gap
  }

  /** Each interval starts exactly one gap after the previous one ends. */
  ghost predicate Chained(r: seq<Interval>, gap: real) {
    forall i: nat :: 0 < i < |r| ==> Follows(r, gap, i)
  }

  /**
   * The width of each of `n` equal parts that, with `n - 1` gaps between
   * them, exactly fill `total`.
   */
  function UniformSpan(total: real, gap: real, n: nat): (unit: real)
    requires n >= 1
    ensures (n as real) * unit + ((n - 1) as real) * gap == total
  {
    (total - gap * ((n - 1) as real)) / (n as real)
  }

  /** One more step of a stride: `k + 1` steps are `k` steps and one more. */
  lemma StrideStep(k: nat, step: real)
    ensures ((k + 1) as real) * step == (k as real) * step + step
  {}

  /** The distance covered by `k` steps of length `step`, one step at a time. */
  function Stride(k: nat, step: real): real {
    if k == 0 then 0.0 else Stride(k - 1, step) + step
  }

  /** Stepping `k` times covers `k * step`. */
  lemma {:induction false} StrideIsProduct(k: nat, step: real)
    ensures Stride(k, step) == (k as real) * step
  {
    if k > 0 {
      StrideIsProduct(k - 1, step);
      StrideStep(k - 1, step);
    }
  }

  /** `k` steps of `a + g` followed by one `a`: `k + 1` parts and `k` gaps. */
  lemma Spread(k: nat, a: real, g: real)
    ensures (k as real) * (a + g) + a == ((k + 1) as real) * a + (k as real) * g
  {}

  /** Part `i` of equal parts of width `unit` from `origin`: `i` strides of `unit + gap` on. */
  function PartAt(origin: real, unit: real, gap: real, i: nat): Interval {
    Interval(origin + (i as real) * (unit + gap), unit)
  }

  /** Each part starts one gap after the previous part ends. */
  lemma PartAtStep(origin: real, unit: real, gap: real, i: nat)
    ensures PartAt(origin, unit, gap, i + 1).lo == PartAt(origin, unit, gap, i).Hi() + gap
  {
    StrideStep(i, unit + gap);
  }

  /** Part `k` ends `k + 1` units and `k` gaps past `origin`. */
  lemma PartAtEnd(origin: real, unit: real, gap: real, k: nat)
    ensures PartAt(origin, unit, gap, k).Hi() == origin + ((k + 1) as real) * unit + (k as real) * gap
  {
    Spread(k, unit, gap);
  }

  /**
   * Part `i` of `n` equal parts of `total` starting at `origin`, placed by the
   * closed form `origin + i * (unit + gap)`.
   */
  function Partition(origin: real, total: real, gap: real, n: nat): (r: seq<Interval>)
    requires n >= 1
    ensures |r| == n
    ensures r[0].lo == origin
    ensures Chained(r, gap)
    ensures forall i :: 0 <= i < n ==> r[i].len == UniformSpan(total, gap, n)
    ensures r[n - 1].Hi() == origin + total
  {
    var unit := UniformSpan(total, gap, n);
    var r := seq(n, i requires 0 <= i < n => PartAt(origin, unit, gap, i));
    forall i | 0 < i < n
      ensures Follows(r, gap, i)
    {
      PartAtStep(origin, unit, gap, i - 1);
    }
    PartAtEnd(origin, unit, gap, n - 1);
    r
  }

  /** The closed form of the start of part `k` of a partition. */
  lemma PartitionLo(origin: real, total: real, gap: real, n: nat, k: nat)
    requires n >= 1 && k < n
    ensures Partition(origin, total, gap, n)[k].lo
         == origin + (k as real) * (UniformSpan(total, gap, n) + gap)
  {}

  /** Where a non-empty layout ends: the end of its last part. */
  function End(r: seq<Interval>): real
    requires |r| > 0
  {
    r[|r| - 1].Hi()
  }

  /** Putting a part in front of a chained layout, one gap before its first part, keeps it chained. */
  lemma ConsChained(head: Interval, rest: seq<Interval>, gap: real)
    requires Chained(rest, gap)
    requires |rest| > 0 ==> rest[0].lo == head.Hi() + gap
    ensures Chained([head] + rest, gap)
  {
    var r := [head] + rest;
    forall i | 0 < i < |r|
      ensures Follows(r, gap, i)
    {
      if i > 1 {
        assert Follows(rest, gap, i - 1);
        assert r[i] == rest[i - 1] && r[i - 1] == rest[i - 2];
      }
    }
  }

  /**
   * Intervals of the given widths laid out from `origin`, each starting one
   * gap after the previous one ends (a running offset advanced by
   * `width + gap` after every part).
   */
  function Chain(origin: real, widths: seq<real>, gap: real): (r: seq<Interval>)
    ensures |r| == |widths|
    ensures forall i :: 0 <= i < |r| ==> r[i].len == widths[i]
    ensures |r| > 0 ==> r[0].lo == origin
    ensures Chained(r, gap)
    ensures |r| > 0 ==> r[|r| - 1].Hi() == origin + Extent(widths, gap)
    decreases |widths|
  {
    if |widths| == 0 then []
    else
      var head := Interval(origin, widths[0]);
      var rest := Chain(origin + widths[0] + gap, widths[1..], gap);
      var r := [head] + rest;
      assert forall i :: 1 <= i < |r| ==> r[i] == rest[i - 1];
      ConsChained(head, rest, gap);
      assert |rest| > 0 ==> r[|r| - 1] == rest[|rest| - 1];
      r
  }

  /**
   * In a chained layout with non-negative widths and gap, a later part
   * starts no earlier and ends no earlier than an earlier part.
   */
  lemma {:induction false} ChainedMonotone(r: seq<Interval>, gap: real, j: nat, k: nat)
    requires Chained(r, gap) && 0.0 <= gap && j <= k < |r|
    requires forall i :: 0 <= i < |r| ==> 0.0 <= r[i].len
    ensures r[j].lo <= r[k].lo && r[j].Hi() <= r[k].Hi()
    decreases k - j
  {
    if j < k {
      ChainedMonotone(r, gap, j, k - 1);
      assert Follows(r, gap, k);
    }
  }

  /** Every part of a chained layout with non-negative widths lies between the first start and the last end. */
  lemma ChainedWithin(r: seq<Interval>, gap: real)
    requires Chained(r, gap) && 0.0 <= gap && |r| > 0
    requires forall i :: 0 <= i < |r| ==> 0.0 <= r[i].len
    ensures forall i :: 0 <= i < |r| ==> r[0].lo <= r[i].lo && r[i].Hi() <= r[|r| - 1].Hi()
  {
    forall i | 0 <= i < |r|
      ensures r[0].lo <= r[i].lo && r[i].Hi() <= r[|r| - 1].Hi()
    {
      ChainedMonotone(r, gap, 0, i);
      ChainedMonotone(r, gap, i, |r| - 1);
    }
  }

  /** Two chained layouts with the same start and the same widths coincide. */
  lemma {:induction false} ChainedAgree(a: seq<Interval>, b: seq<Interval>, gap: real, k: nat)
    requires |a| == |b| && k < |a|
    requires a[0].lo == b[0].lo
    requires forall i :: 0 <= i < |a| ==> a[i].len == b[i].len
    requires Chained(a, gap) && Chained(b, gap)
    ensures a[k] == b[k]
  {
    if k > 0 {
      ChainedAgree(a, b, gap, k - 1);
      assert Follows(a, gap, k) && Follows(b, gap, k);
    }
  }

  /**
   * The closed-form placement of equal parts is the running-offset placement
   * of `n` copies of the part width.
   */
  lemma PartitionIsChain(origin: real, total: real, gap: real, n: nat)
    requires n >= 1
    ensures Partition(origin, total, gap, n)
         == Chain(origin, seq(n, _ => UniformSpan(total, gap, n)), gap)
  {
    var p := Partition(origin, total, gap, n);
    var c := Chain(origin, seq(n, _ => UniformSpan(total, gap, n)), gap);
    forall k | 0 <= k < n
      ensures p[k] == c[k]
    {
      ChainedAgree(p, c, gap, k);
    }
  }
}
