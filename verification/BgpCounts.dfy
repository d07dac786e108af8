/** The churn chart's resampler in `demos/bgp.py` in plain arithmetic: each column's count and rate, in whole numbers. */
module BgpCounts {
  import opened RealSeq
  import opened BgpRates

  /** How much of bin `k` column `j` covers, when both bins and columns are cut into as many parts as the
      other has members: `n` bins of `w` parts each, against `w` columns of `n` parts each. */
  function WholeOverlap(n: nat, w: nat, j: nat, k: nat): (parts: nat) {
    var from := if j * n >= k * w then j * n else k * w;
    var upto := if (j + 1) * n <= (k + 1) * w then (j + 1) * n else (k + 1) * w;
    if upto > from then upto - from else 0
  }

  /** The bins under a column, each times its parts. */
  function PartsCounted(bins: seq<real>, w: nat, j: nat): (p: seq<real>)
    ensures |p| == |bins|
  {
    seq(|bins|, k requires 0 <= k < |bins| => Weighed(WholeOverlap(|bins|, w, j, k) as real, bins[k]))
  }

  lemma EdgeInParts(n: nat, w: nat, j: int)
    requires w > 0
    ensures Weighed(ColumnEdge(n, w, j), w as real) == (j * n) as real
  {
    var q := n as real / w as real;
    assert q * w as real == n as real;
    MulAssoc(j as real, q, w as real);
    assert (j * n) as real == j as real * n as real;
  }

  lemma WeighedMin(a: real, b: real, v: real)
    requires v > 0.0
    ensures Weighed(Min(a, b), v) == Min(Weighed(a, v), Weighed(b, v))
    ensures Weighed(Max(a, b), v) == Max(Weighed(a, v), Weighed(b, v))
  {
    if a <= b { MulLe(v, a, b); assert v * a <= v * b; } else { MulLt(v, b, a); assert v * b < v * a; }
  }

  lemma OverlapInParts(n: nat, w: nat, j: nat, k: nat)
    requires w > 0
    ensures Weighed(Overlap(ColumnEdge(n, w, j), ColumnEdge(n, w, j + 1), k), w as real) == WholeOverlap(n, w, j, k) as real
  {
    var x, y, v := ColumnEdge(n, w, j), ColumnEdge(n, w, j + 1), w as real;
    EdgeInParts(n, w, j);
    EdgeInParts(n, w, j + 1);
    CastOfProduct(k, w);
    CastOfProduct(k + 1, w);
    assert (k + 1) as real == k as real + 1.0;
    WeighedMin(y, k as real + 1.0, v);
    WeighedMin(x, k as real, v);
    var d := Min(y, k as real + 1.0) - Max(x, k as real);
    WeighedMinus(Min(y, k as real + 1.0), Max(x, k as real), v);
    WeighedMin(0.0, d, v);
    assert Weighed(0.0, v) == 0.0;
  }

  /** For any bins and any panel: a column's count is the bins under it by their parts, over the number of columns. */
  lemma CountInParts(bins: seq<real>, w: nat, j: nat)
    requires j < w
    ensures Weighed(Counted(bins, w, j), w as real) == Sum(PartsCounted(bins, w, j))
  {
    var n := |bins|;
    ColumnEdges(n, w, j);
    DifferenceIsOverlap(bins, ColumnEdge(n, w, j), ColumnEdge(n, w, j + 1));
    var shares := OverlapShares(bins, ColumnEdge(n, w, j), ColumnEdge(n, w, j + 1));
    forall k | 0 <= k < n ensures PartsCounted(bins, w, j)[k] == Weighed(w as real, shares[k]) {
      BinsPart(bins, w, j, k);
    }
    SumWeighed(shares, w as real, PartsCounted(bins, w, j));
    Commuted(w as real, Sum(shares));
  }

  lemma BinsPart(bins: seq<real>, w: nat, j: nat, k: nat)
    requires j < w && k < |bins|
    ensures PartsCounted(bins, w, j)[k]
         == Weighed(w as real, OverlapShares(bins, ColumnEdge(|bins|, w, j), ColumnEdge(|bins|, w, j + 1))[k])
  {
    OverlapInParts(|bins|, w, j, k);
    Regroup(Overlap(ColumnEdge(|bins|, w, j), ColumnEdge(|bins|, w, j + 1), k), bins[k], w as real);
  }

  lemma Commuted(a: real, b: real)
    ensures Weighed(a, b) == Weighed(b, a)
  {
  }

  lemma Regroup(part: real, count: real, v: real)
    ensures Weighed(Weighed(part, v), count) == Weighed(v, Share(part, count))
  {
    assert part * v * count == v * (part * count);
  }

  /** The seconds all the bins span, or what stands for them when that is next to nothing. */
  function Span(n: nat, binSecs: real, w: nat): real { Max(Weighed(n as real, binSecs), Weighed(0.000000001, w as real)) }

  lemma SecsInParts(n: nat, binSecs: real, w: nat, j: nat)
    requires w > 0
    ensures Weighed(Secs(n, binSecs, w, j), w as real) == Span(n, binSecs, w)
  {
    var v := w as real;
    EdgeInParts(n, w, j);
    EdgeInParts(n, w, j + 1);
    WeighedMinus(ColumnEdge(n, w, j + 1), ColumnEdge(n, w, j), v);
    assert (j + 1) * n == j * n + n;
    var wide := ColumnEdge(n, w, j + 1) - ColumnEdge(n, w, j);
    assert Weighed(wide, v) == n as real;
    assert wide * binSecs * v == wide * v * binSecs;
    WeighedMin(Width(n, binSecs, w, j), 0.000000001, v);
  }

  /** A column's rate over the seconds the bins span is the bins under it, each by its parts. */
  lemma RateInParts(bins: seq<real>, binSecs: real, w: nat, j: nat)
    requires j < w
    ensures Weighed(ColumnRates(bins, binSecs, w)[j], Span(|bins|, binSecs, w)) == Sum(PartsCounted(bins, w, j))
  {
    CountInParts(bins, w, j);
    SecsInParts(|bins|, binSecs, w, j);
    RateOverParts(Counted(bins, w, j), Secs(|bins|, binSecs, w, j), w as real);
  }

  lemma RateOverParts(count: real, secs: real, v: real)
    requires secs > 0.0
    ensures Weighed(count / secs, Weighed(secs, v)) == Weighed(count, v)
  {
    var rate := count / secs;
    assert rate * secs == count;
    MulAssoc(rate, secs, v);
  }
}
