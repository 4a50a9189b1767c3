/**
 * The boundary partitioner behind every tile layout: `compute_boundaries`
 * splits a pixel span into `segments` contiguous integer segments by rounding
 * `i * total / segments` for every `i` in `0..segments`.
 *
 * Python's `round` rounds half to even.  The quotient is modelled exactly, as
 * the rational `(i * total) / segments`; this agrees with the source whenever
 * the float division is exact, which holds for pixel-sized operands.
 */
module Boundaries {

  /**
   * `p / q` rounded to the nearest integer, ties to the even neighbour.
   * The result is within half a unit of `p / q`, and it is even when `p / q`
   * lies exactly between two integers.
   */
  function RoundHalfEven(p: int, q: int): (r: int)
    requires q > 0
    ensures -q <= 2 * (q * r - p) <= q
    ensures 2 * (q * r - p) == q ==> r % 2 == 0
    ensures 2 * (q * r - p) == -q ==> r % 2 == 0
  {
    var f, m := p / q, p % q;
    assert q * f == p - m;
    assert q * (f + 1) == p - m + q;
    if 2 * m < q then f
    else if 2 * m > q then f + 1
    else if f % 2 == 0 then f
    else f + 1
  }

  /** The characterisation above determines the rounded value uniquely. */
  lemma RoundHalfEvenUnique(p: int, q: int, r': int)
    requires q > 0
    requires -q <= 2 * (q * r' - p) <= q
    requires 2 * (q * r' - p) == q ==> r' % 2 == 0
    requires 2 * (q * r' - p) == -q ==> r' % 2 == 0
    ensures r' == RoundHalfEven(p, q)
  {
    var r := RoundHalfEven(p, q);
    if r' < r {
      AdjacentRoundings(p, q, r', r);
    } else if r' > r {
      AdjacentRoundings(p, q, r, r');
    }
  }

  /**
   * Two integers below and above `p / q`, both within half a unit of it,
   * are neighbours and both sit on ties.
   */
  lemma AdjacentRoundings(p: int, q: int, lo: int, hi: int)
    requires q > 0 && lo < hi
    requires -q <= 2 * (q * lo - p) <= q
    requires -q <= 2 * (q * hi - p) <= q
    ensures hi == lo + 1
    ensures 2 * (q * lo - p) == -q && 2 * (q * hi - p) == q
  {
    MulMonotoneStep(q, lo, hi);
    assert q * (lo + 1) == q * lo + q;
    MulCancel(q, hi, lo + 1);
  }

  lemma MulCancel(q: int, a: int, b: int)
    requires q > 0
    ensures q * a == q * b ==> a == b
  {
    if a < b {
      MulMonotoneStep(q, a, b);
    } else if a > b {
      MulMonotoneStep(q, b, a);
    }
  }

  /** Rounding is monotone in the numerator. */
  lemma RoundHalfEvenMonotone(p1: int, p2: int, q: int)
    requires q > 0 && p1 <= p2
    ensures RoundHalfEven(p1, q) <= RoundHalfEven(p2, q)
  {
    var r1, r2 := RoundHalfEven(p1, q), RoundHalfEven(p2, q);
    if r1 > r2 {
      MulMonotoneStep(q, r2, r1);
    }
  }

  lemma MulMonotone(q: int, a: int, b: int)
    requires q > 0 && a <= b
    ensures q * a <= q * b
  {
    assert q * b - q * a == q * (b - a);
  }

  lemma MulMonotoneStep(q: int, a: int, b: int)
    requires q > 0 && a < b
    ensures q * a + q <= q * b
  {
    MulMonotone(q, a + 1, b);
    assert q * (a + 1) == q * a + q;
  }

  /**
   * The boundary list: `segments + 1` values from 0 up to `total`, each the
   * integer nearest to its ideal position `i * total / segments`.
   */
  function ComputeBoundaries(total: int, segments: int): (b: seq<int>)
    requires segments > 0
    ensures |b| == segments + 1
    ensures b[0] == 0 && b[segments] == total
    ensures forall i :: 0 <= i <= segments ==>
      -segments <= 2 * (segments * b[i] - i * total) <= segments
  {
    var b := seq(segments + 1, i requires 0 <= i <= segments => RoundHalfEven(i * total, segments));
    RoundHalfEvenUnique(0, segments, 0);
    RoundHalfEvenUnique(segments * total, segments, total);
    b
  }

  /**
   * Each boundary is its ideal position rounded half to even, so a position
   * exactly between two pixels goes to the even one.
   */
  lemma BoundariesAreRoundings(total: int, segments: int, i: int)
    requires segments > 0 && 0 <= i <= segments
    ensures ComputeBoundaries(total, segments)[i] == RoundHalfEven(i * total, segments)
  {
  }

  /** On a non-negative span the boundaries never decrease. */
  lemma BoundariesMonotone(total: int, segments: int, i: int, j: int)
    requires total >= 0 && segments > 0
    requires 0 <= i <= j <= segments
    ensures ComputeBoundaries(total, segments)[i] <= ComputeBoundaries(total, segments)[j]
  {
    MulMonotone(total + 1, i, j);
    assert i * total <= j * total by {
      if total > 0 { MulMonotone(total, i, j); }
    }
    RoundHalfEvenMonotone(i * total, j * total, segments);
  }

  /** The widths of consecutive segments. */
  function Widths(b: seq<int>): (w: seq<int>)
    requires |b| >= 1
    ensures |w| == |b| - 1
    ensures forall k :: 0 <= k < |w| ==> w[k] == b[k + 1] - b[k]
  {
    seq(|b| - 1, k requires 0 <= k < |b| - 1 => b[k + 1] - b[k])
  }

  function Sum(s: seq<int>): int {
    if s == [] then 0 else Sum(s[..|s| - 1]) + s[|s| - 1]
  }

  /** The widths of any boundary list telescope to last minus first. */
  lemma {:induction false} WidthsTelescope(b: seq<int>)
    requires |b| >= 1
    ensures Sum(Widths(b)) == b[|b| - 1] - b[0]
  {
    if |b| > 1 {
      var init := b[..|b| - 1];
      WidthsTelescope(init);
      var w, wi := Widths(b), Widths(init);
      assert w[..|w| - 1] == wi by {
        forall k | 0 <= k < |wi| ensures w[k] == wi[k] {
          assert init[k] == b[k] && init[k + 1] == b[k + 1];
        }
      }
      assert Sum(w) == Sum(wi) + (b[|b| - 1] - b[|b| - 2]);
    }
  }

  /** No rounding leak: the segment widths add up to the span exactly. */
  lemma BoundariesSumToSpan(total: int, segments: int)
    requires segments > 0
    ensures Sum(Widths(ComputeBoundaries(total, segments))) == total
  {
    WidthsTelescope(ComputeBoundaries(total, segments));
  }

  /**
   * Every segment is within one pixel of the ideal width `total / segments`:
   * `segments * w` differs from `total` by less than `segments`.
   */
  lemma SegmentWidthNearIdeal(total: int, segments: int, k: int)
    requires segments > 0 && 0 <= k < segments
    ensures var b := ComputeBoundaries(total, segments);
      total - segments < segments * (b[k + 1] - b[k]) < total + segments
  {
    var b := ComputeBoundaries(total, segments);
    NeighbourRoundings(segments, total, k, b[k], b[k + 1]);
  }

  /**
   * Two consecutive roundings `lo` of `k * t / q` and `hi` of `(k + 1) * t / q`
   * are `t / q` apart up to less than one.
   */
  lemma NeighbourRoundings(q: int, t: int, k: int, lo: int, hi: int)
    requires q > 0
    requires -q <= 2 * (q * lo - k * t) <= q
    requires -q <= 2 * (q * hi - (k + 1) * t) <= q
    ensures t - q < q * (hi - lo) < t + q
  {
    assert q * (hi - lo) == q * hi - q * lo;
    assert (k + 1) * t == k * t + t;
    // the width would be `t / q` plus or minus one only if both ends were
    // ties rounding in opposite directions, which needs `t` a multiple of `q`
    assert q * (hi - lo - 1) == q * hi - q * lo - q;
    assert q * (hi - lo + 1) == q * hi - q * lo + q;
    HalfTieNotAtMultiple(q, k, lo, hi - lo - 1, 1);
    HalfTieNotAtMultiple(q, k, lo, hi - lo + 1, -1);
  }

  /**
   * When the span is a multiple of `q`, every ideal position `k * t / q` is
   * an integer, so no position lies half-way between two integers.
   */
  lemma HalfTieNotAtMultiple(q: int, k: int, a: int, v: int, s: int)
    requires q > 0 && (s == 1 || s == -1)
    ensures 2 * (q * a - k * (q * v)) != -s * q
  {
    var x := a - k * v;
    assert k * (q * v) == q * (k * v);
    assert 2 * (q * a - k * (q * v)) == q * (2 * x);
    assert -s * q == q * (-s);
    MulCancel(q, 2 * x, -s);
  }

  /** Worked values: an even split, a split with rounding, and two ties. */
  lemma ComputeBoundariesExamples()
    ensures ComputeBoundaries(1536, 3) == [0, 512, 1024, 1536]
    ensures ComputeBoundaries(1535, 3) == [0, 512, 1023, 1535]
    ensures ComputeBoundaries(3, 2) == [0, 2, 3]
    ensures ComputeBoundaries(1, 2) == [0, 0, 1]
  {
    var b := ComputeBoundaries(1536, 3);
    assert b[1] == 512 && b[2] == 1024;
    var c := ComputeBoundaries(1535, 3);
    assert c[1] == 512 && c[2] == 1023;
    var d := ComputeBoundaries(3, 2);
    assert d[1] == 2;
    var e := ComputeBoundaries(1, 2);
    assert e[1] == 0;
  }
}
