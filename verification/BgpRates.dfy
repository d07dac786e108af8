/** The churn chart's resampler in `demos/bgp.py`: bins onto columns by differencing a prefix sum. */
module BgpRates {
  import opened RealSeq
  import opened Interpolation

  /** `np.concatenate(([0], np.cumsum(bins)))`. */
  function Cum(bins: seq<real>): (c: seq<real>)
    ensures |c| == |bins| + 1
  {
    seq(|bins| + 1, k requires 0 <= k <= |bins| => Sum(bins[..k]))
  }

  /** Where column edge `j` of `w` falls on the bin axis. */
  function ColumnEdge(n: nat, w: nat, j: int): real
    requires w > 0
  {
    j as real * (n as real / w as real)
  }

  function At(bins: seq<real>, x: real): real { Interp(Ramp(|bins| + 1, 0.0), Cum(bins), x) }

  function Width(n: nat, binSecs: real, w: nat, j: int): real
    requires w > 0
  {
    (ColumnEdge(n, w, j + 1) - ColumnEdge(n, w, j)) * binSecs
  }

  /** The width a rate is taken over: never quite zero. */
  function Secs(n: nat, binSecs: real, w: nat, j: int): (secs: real)
    requires w > 0
    ensures secs > 0.0
  {
    Max(Width(n, binSecs, w, j), 0.000000001)
  }

  /** The count differencing attributes to column `j`. */
  function Counted(bins: seq<real>, w: nat, j: int): real
    requires w > 0
  {
    At(bins, ColumnEdge(|bins|, w, j + 1)) - At(bins, ColumnEdge(|bins|, w, j))
  }

  function ColumnRates(bins: seq<real>, binSecs: real, w: nat): (r: seq<real>)
    requires w > 0
    ensures |r| == w
  {
    seq(w, j requires 0 <= j < w => Counted(bins, w, j) / Secs(|bins|, binSecs, w, j))
  }

  /** A rate back over the seconds of its column. */
  function CountOf(rate: real, secs: real): real { rate * secs }

  // ----- what a column ought to count

  /** The length of bin `k` that lies between `x` and `y`. */
  function Overlap(x: real, y: real, k: int): real {
    Max(0.0, Min(y, k as real + 1.0) - Max(x, k as real))
  }

  function Share(fraction: real, count: real): real { fraction * count }

  function OverlapShares(bins: seq<real>, x: real, y: real): (s: seq<real>)
    ensures |s| == |bins|
  {
    seq(|bins|, k requires 0 <= k < |bins| => Share(Overlap(x, y, k), bins[k]))
  }

  /** The length of bin `k` that lies before `x`. */
  function Before(x: real, k: int): real { Clip(x - k as real, 0.0, 1.0) }

  function BeforeShares(bins: seq<real>, x: real): (s: seq<real>)
    ensures |s| == |bins|
  {
    seq(|bins|, k requires 0 <= k < |bins| => Share(Before(x, k), bins[k]))
  }

  lemma {:induction false} SharesUpTo(bins: seq<real>, x: real, f: nat, m: nat)
    requires m <= |bins| && f as real <= x < f as real + 1.0
    ensures Sum(BeforeShares(bins, x)[..m]) ==
            if m <= f then Sum(bins[..m]) else Sum(bins[..f]) + Share(x - f as real, bins[f])
  {
    if m > 0 {
      SharesUpTo(bins, x, f, m - 1);
      SumPrefixStep(BeforeShares(bins, x), m - 1);
      SumPrefixStep(bins, m - 1);
      if m <= f {
        assert Share(1.0, bins[m - 1]) == bins[m - 1];
      } else if m - 1 > f {
        assert Share(0.0, bins[m - 1]) == 0.0;
      }
    }
  }

  /** The interpolated prefix sum at `x` is the count of the bins, and part bins, before `x`. */
  lemma AtIsBefore(bins: seq<real>, x: real)
    requires 0.0 <= x <= |bins| as real
    ensures At(bins, x) == Sum(BeforeShares(bins, x))
  {
    var n, s := |bins|, BeforeShares(bins, x);
    assert s[..n] == s && bins[..n] == bins;
    if x == n as real {
      SharesUpTo(bins, x, n, n);
    } else if x == 0.0 {
      SharesUpTo(bins, x, 0, n);
      assert Share(0.0, bins[0]) == 0.0;
    } else {
      AtInside(bins, x);
      SharesUpTo(bins, x, x.Floor, n);
    }
  }

  lemma AtInside(bins: seq<real>, x: real)
    requires 0.0 < x < |bins| as real
    ensures x.Floor < |bins| && At(bins, x) == Sum(bins[..x.Floor]) + Share(x - x.Floor as real, bins[x.Floor])
  {
    var xp, k := Ramp(|bins| + 1, 0.0), x.Floor;
    var j := Locate(xp, x);
    assert j != |bins|;
    assert j == k;
    SumPrefixStep(bins, k);
    assert Weight(xp, x) == x - k as real;
    MixOfStep(x - k as real, Sum(bins[..k]), bins[k]);
  }

  lemma MixOfStep(w: real, a: real, d: real)
    ensures Mix(w, a, a + d) == a + Share(w, d)
  {
    assert w * (a + d) == w * a + w * d;
  }

  /** Differencing between any two points counts every bin by its overlap with the gap between them. */
  lemma DifferenceIsOverlap(bins: seq<real>, x: real, y: real)
    requires 0.0 <= x <= y <= |bins| as real
    ensures At(bins, y) - At(bins, x) == Sum(OverlapShares(bins, x, y))
  {
    AtIsBefore(bins, x);
    AtIsBefore(bins, y);
    var a, b, c := BeforeShares(bins, x), OverlapShares(bins, x, y), BeforeShares(bins, y);
    forall k | 0 <= k < |bins| ensures c[k] == a[k] + b[k] {
      assert Before(y, k) == Before(x, k) + Overlap(x, y, k);
      ShareSplits(Before(x, k), Overlap(x, y, k), bins[k]);
    }
    SumPlus(a, b, c);
  }

  lemma ShareSplits(p: real, q: real, count: real)
    ensures Share(p + q, count) == Share(p, count) + Share(q, count)
  {
  }

  lemma ColumnEdges(n: nat, w: nat, j: int)
    requires 0 <= j < w
    ensures 0.0 <= ColumnEdge(n, w, j) <= ColumnEdge(n, w, j + 1) <= n as real
    ensures ColumnEdge(n, w, 0) == 0.0 && ColumnEdge(n, w, w) == n as real
  {
    var q, a, d := n as real / w as real, j as real, (w - 1 - j) as real;
    assert q * w as real == n as real;
    assert q >= 0.0;
    MulNonNeg(a, q);
    MulNonNeg(d, q);
    assert d * q == w as real * q - (j + 1) as real * q;
    assert (j + 1) as real * q == a * q + q;
  }

  lemma RateGivesCount(bins: seq<real>, binSecs: real, w: nat, j: nat)
    requires j < w
    ensures CountOf(ColumnRates(bins, binSecs, w)[j], Secs(|bins|, binSecs, w, j)) == Counted(bins, w, j)
  {
    Unquotient(Counted(bins, w, j), Secs(|bins|, binSecs, w, j));
  }

  lemma Unquotient(a: real, b: real)
    requires b > 0.0
    ensures CountOf(a / b, b) == a
  {
  }

  /** For any bin count and any panel width, a column's rate over its width is exactly the
      overlap-weighted sum of the bins under it. */
  lemma ColumnCountsItsBins(bins: seq<real>, binSecs: real, w: nat, j: nat)
    requires j < w
    ensures CountOf(ColumnRates(bins, binSecs, w)[j], Secs(|bins|, binSecs, w, j))
         == Sum(OverlapShares(bins, ColumnEdge(|bins|, w, j), ColumnEdge(|bins|, w, j + 1)))
  {
    ColumnEdges(|bins|, w, j);
    DifferenceIsOverlap(bins, ColumnEdge(|bins|, w, j), ColumnEdge(|bins|, w, j + 1));
    RateGivesCount(bins, binSecs, w, j);
  }

  function Counts(bins: seq<real>, w: nat): (c: seq<real>)
    requires w > 0
    ensures |c| == w
  {
    seq(w, j requires 0 <= j < w => Counted(bins, w, j))
  }

  function CountsOfRates(bins: seq<real>, binSecs: real, w: nat): (c: seq<real>)
    requires w > 0
    ensures |c| == w
  {
    seq(w, j requires 0 <= j < w => CountOf(ColumnRates(bins, binSecs, w)[j], Secs(|bins|, binSecs, w, j)))
  }

  /** No bin is lost: rate times column width sums, over the columns, to the total count. */
  lemma NothingIsLost(bins: seq<real>, binSecs: real, w: nat)
    requires w > 0
    ensures Sum(CountsOfRates(bins, binSecs, w)) == Sum(bins)
  {
    forall j | 0 <= j < w ensures CountsOfRates(bins, binSecs, w)[j] == Counts(bins, w)[j] {
      RateGivesCount(bins, binSecs, w, j);
    }
    assert CountsOfRates(bins, binSecs, w) == Counts(bins, w);
    CountsAddUp(bins, w);
  }

  lemma CountsAddUp(bins: seq<real>, w: nat)
    requires w > 0
    ensures Sum(Counts(bins, w)) == Sum(bins)
  {
    assert Counts(bins, w)[..w] == Counts(bins, w);
    Telescope(Counts(bins, w), j => At(bins, ColumnEdge(|bins|, w, j)), w);
    ColumnEdges(|bins|, w, 0);
    assert bins[..|bins|] == bins;
  }

  /** Counts are never negative, so neither are the rates the chart is drawn from. */
  lemma RatesNonNegative(bins: seq<real>, binSecs: real, w: nat, j: nat)
    requires j < w && forall k :: 0 <= k < |bins| ==> bins[k] >= 0.0
    ensures ColumnRates(bins, binSecs, w)[j] >= 0.0
  {
    ColumnEdges(|bins|, w, j);
    DifferenceIsOverlap(bins, ColumnEdge(|bins|, w, j), ColumnEdge(|bins|, w, j + 1));
    SharesNonNegative(bins, ColumnEdge(|bins|, w, j), ColumnEdge(|bins|, w, j + 1));
    QuotientNonNegative(Counted(bins, w, j), Secs(|bins|, binSecs, w, j));
  }

  lemma QuotientNonNegative(a: real, b: real)
    requires a >= 0.0 && b > 0.0
    ensures a / b >= 0.0
  {
  }

  lemma SharesNonNegative(bins: seq<real>, x: real, y: real)
    requires forall k :: 0 <= k < |bins| ==> bins[k] >= 0.0
    ensures Sum(OverlapShares(bins, x, y)) >= 0.0
  {
    var shares := OverlapShares(bins, x, y);
    var none := seq(|shares|, _ => 0.0);
    forall k | 0 <= k < |bins| ensures none[k] <= shares[k] {
      MulNonNeg(Overlap(x, y, k), bins[k]);
    }
    SumConst(none, 0.0);
    SumLe(none, shares);
  }
}
