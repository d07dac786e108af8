/** `np.interp`: piecewise-linear interpolation, held flat beyond the end knots. */
module Interpolation {
  import opened RealSeq

  ghost predicate Increasing(xp: seq<real>) {
    forall i, j :: 0 <= i < j < |xp| ==> xp[i] < xp[j]
  }

  /** The last knot at or before `x`. */
  function Locate(xp: seq<real>, x: real): (k: nat)
    requires |xp| > 0 && xp[0] <= x
    ensures k < |xp| && xp[k] <= x
    ensures k + 1 < |xp| ==> x < xp[k + 1]
  {
    if xp[|xp| - 1] <= x then |xp| - 1 else Locate(xp[..|xp| - 1], x)
  }

  lemma LocateMonotone(xp: seq<real>, x: real, y: real)
    requires |xp| > 0 && Increasing(xp) && xp[0] <= x <= y
    ensures Locate(xp, x) <= Locate(xp, y)
  {
    KnotIsBefore(xp, y, Locate(xp, x));
  }

  lemma KnotIsBefore(xp: seq<real>, x: real, i: nat)
    requires |xp| > 0 && Increasing(xp) && xp[0] <= x && i < |xp|
    ensures xp[i] <= x <==> i <= Locate(xp, x)
  {
    var k := Locate(xp, x);
    if i > k { assert xp[k + 1] <= xp[i]; }
  }

  /** How far `x` is from knot `k` towards the next one, as a fraction. */
  function Weight(xp: seq<real>, x: real): (w: real)
    requires Increasing(xp) && |xp| > 0
    requires xp[0] < x < xp[|xp| - 1]
    ensures 0.0 <= w < 1.0
  {
    var k := Locate(xp, x);
    assert k != |xp| - 1;
    var span := xp[k + 1] - xp[k];
    assert 0.0 <= x - xp[k] < span;
    FractionBounds(x - xp[k], span);
    (x - xp[k]) / span
  }

  lemma FractionBounds(a: real, b: real)
    requires 0.0 <= a < b
    ensures 0.0 <= a / b < 1.0
  {
  }

  /** The point a fraction `w` of the way from `a` to `b`. */
  function Mix(w: real, a: real, b: real): real { a - w * a + w * b }

  function Interp(xp: seq<real>, fp: seq<real>, x: real): real
    requires |xp| == |fp| > 0 && Increasing(xp)
  {
    if x <= xp[0] then fp[0]
    else if x >= xp[|xp| - 1] then fp[|xp| - 1]
    else
      var k := Locate(xp, x);
      assert k != |xp| - 1;
      Mix(Weight(xp, x), fp[k], fp[k + 1])
  }

  lemma MixBounds(w: real, a: real, b: real, lo: real, hi: real)
    requires 0.0 <= w <= 1.0
    requires lo <= a <= hi && lo <= b <= hi
    ensures lo <= Mix(w, a, b) <= hi
  {
    MixLe(w, lo, lo, a, b);
    MixLe(w, a, b, hi, hi);
  }

  lemma MixPlus(w: real, a0: real, a1: real, b0: real, b1: real)
    ensures Mix(w, a0 + b0, a1 + b1) == Mix(w, a0, a1) + Mix(w, b0, b1)
  {
    assert w * (a0 + b0) == w * a0 + w * b0;
    assert w * (a1 + b1) == w * a1 + w * b1;
  }

  lemma MixLe(w: real, a0: real, a1: real, b0: real, b1: real)
    requires 0.0 <= w <= 1.0 && a0 <= b0 && a1 <= b1
    ensures Mix(w, a0, a1) <= Mix(w, b0, b1)
  {
    var u, x, y := 1.0 - w, b0 - a0, b1 - a1;
    MulNonNeg(u, x);
    MulNonNeg(w, y);
    assert u * x == b0 - a0 + w * a0 - w * b0;
    assert w * y == w * b1 - w * a1;
  }

  lemma MixMonotone(w: real, v: real, a: real, b: real)
    requires w <= v && a <= b
    ensures Mix(w, a, b) <= Mix(v, a, b)
  {
    var d, e := v - w, b - a;
    MulNonNeg(d, e);
    assert d * e >= 0.0;
    assert d * e == v * b - w * b - v * a + w * a;
  }

  lemma MixScaled(w: real, a: real, b: real, c: real)
    ensures Mix(w, c * a, c * b) == c * Mix(w, a, b)
  {
    assert w * (c * a) == c * (w * a);
    assert w * (c * b) == c * (w * b);
  }

  /** Interpolation never leaves the range of its values. */
  lemma InterpBounds(xp: seq<real>, fp: seq<real>, x: real, lo: real, hi: real)
    requires |xp| == |fp| > 0 && Increasing(xp)
    requires forall i :: 0 <= i < |fp| ==> lo <= fp[i] <= hi
    ensures lo <= Interp(xp, fp, x) <= hi
  {
    if xp[0] < x < xp[|xp| - 1] {
      var k := Locate(xp, x);
      assert k != |xp| - 1;
      MixBounds(Weight(xp, x), fp[k], fp[k + 1], lo, hi);
    }
  }

  /** Interpolating a sum of two series is the sum of interpolating them. */
  lemma InterpPlus(xp: seq<real>, a: seq<real>, b: seq<real>, c: seq<real>, x: real)
    requires |xp| == |a| == |b| == |c| > 0 && Increasing(xp)
    requires forall i :: 0 <= i < |c| ==> c[i] == a[i] + b[i]
    ensures Interp(xp, c, x) == Interp(xp, a, x) + Interp(xp, b, x)
  {
    if xp[0] < x < xp[|xp| - 1] {
      var k := Locate(xp, x);
      assert k != |xp| - 1;
      MixPlus(Weight(xp, x), a[k], a[k + 1], b[k], b[k + 1]);
    }
  }

  /** A series that is nowhere above another interpolates to nowhere above it. */
  lemma InterpMonotone(xp: seq<real>, a: seq<real>, b: seq<real>, x: real)
    requires |xp| == |a| == |b| > 0 && Increasing(xp)
    requires forall i :: 0 <= i < |a| ==> a[i] <= b[i]
    ensures Interp(xp, a, x) <= Interp(xp, b, x)
  {
    if xp[0] < x < xp[|xp| - 1] {
      var k := Locate(xp, x);
      assert k != |xp| - 1;
      MixLe(Weight(xp, x), a[k], a[k + 1], b[k], b[k + 1]);
    }
  }

  ghost predicate NonDecreasing(s: seq<real>) {
    forall i, j :: 0 <= i <= j < |s| ==> s[i] <= s[j]
  }

  /** Inside a segment the interpolant of a non-decreasing series lies between the two knots. */
  lemma InterpSegment(xp: seq<real>, fp: seq<real>, x: real) returns (k: nat)
    requires |xp| == |fp| > 0 && Increasing(xp) && NonDecreasing(fp)
    requires xp[0] < x < xp[|xp| - 1]
    ensures k == Locate(xp, x) && k + 1 < |xp| && xp[k] <= x < xp[k + 1]
    ensures fp[k] <= Interp(xp, fp, x) <= fp[k + 1]
  {
    k := Locate(xp, x);
    assert k != |xp| - 1;
    MixBounds(Weight(xp, x), fp[k], fp[k + 1], fp[k], fp[k + 1]);
  }

  /** Interpolating a non-decreasing series gives a non-decreasing curve. */
  lemma InterpNonDecreasing(xp: seq<real>, fp: seq<real>, x: real, y: real)
    requires |xp| == |fp| > 0 && Increasing(xp) && NonDecreasing(fp)
    requires x <= y
    ensures Interp(xp, fp, x) <= Interp(xp, fp, y)
  {
    var last := |xp| - 1;
    if x <= xp[0] || y >= xp[last] {
      InterpBounds(xp, fp, x, fp[0], fp[last]);
      InterpBounds(xp, fp, y, fp[0], fp[last]);
    } else {
      var j := InterpSegment(xp, fp, x);
      var k := InterpSegment(xp, fp, y);
      if j == k {
        DivMonotone(x - xp[k], y - xp[k], xp[k + 1] - xp[k]);
        MixMonotone(Weight(xp, x), Weight(xp, y), fp[k], fp[k + 1]);
      } else {
        assert j < k by { LocateMonotone(xp, x, y); }
        assert fp[j + 1] <= fp[k];
      }
    }
  }

  /** At a knot the interpolant is the knot's own value. */
  lemma InterpAtKnot(xp: seq<real>, fp: seq<real>, k: nat)
    requires |xp| == |fp| > k && Increasing(xp)
    ensures Interp(xp, fp, xp[k]) == fp[k]
  {
    if 0 < k < |xp| - 1 {
      KnotIsBefore(xp, xp[k], k);
      KnotIsBefore(xp, xp[k], k + 1);
      assert Locate(xp, xp[k]) == k;
      assert Weight(xp, xp[k]) == 0.0;
    }
  }

  /** Knots one apart, starting at `from`: `np.arange(n) + from`. */
  function Ramp(n: nat, from: real): (xp: seq<real>)
    ensures |xp| == n && forall i :: 0 <= i < n ==> xp[i] == i as real + from
    ensures Increasing(xp)
  {
    seq(n, i => i as real + from)
  }

  /** The `k`-th value, and `part` of the step to the one after it, if there is one. */
  function PartWay(fp: seq<real>, k: nat, part: real): real
    requires k < |fp|
  {
    if k + 1 < |fp| then fp[k] + part * (fp[k + 1] - fp[k]) else fp[k]
  }

  /** Between two knots one apart: the earlier value, and as much of the step to the later one as the
      distance from it. */
  lemma InterpOnRamp(from: real, fp: seq<real>, x: real, k: nat)
    requires k < |fp| && k as real + from <= x < k as real + 1.0 + from
    ensures Interp(Ramp(|fp|, from), fp, x) == PartWay(fp, k, x - from - k as real)
  {
    if x == k as real + from {
      InterpAtKnot(Ramp(|fp|, from), fp, k);
      NoneOfTheWay(fp, k);
    } else if k + 1 < |fp| {
      InsideRamp(from, fp, x, k);
    }
  }

  lemma InsideRamp(from: real, fp: seq<real>, x: real, k: nat)
    requires k + 1 < |fp| && k as real + from < x < k as real + 1.0 + from
    ensures Interp(Ramp(|fp|, from), fp, x) == fp[k] + (x - from - k as real) * (fp[k + 1] - fp[k])
  {
    var xp := Ramp(|fp|, from);
    LocateOnRamp(from, |fp|, x, k);
    assert xp[0] < x < xp[|fp| - 1];
    WeightOnRamp(from, |fp|, x, k);
    MixIsStep(x - from - k as real, fp[k], fp[k + 1]);
  }

  lemma NoneOfTheWay(fp: seq<real>, k: nat)
    requires k < |fp|
    ensures PartWay(fp, k, 0.0) == fp[k]
  {
    if k + 1 < |fp| { assert 0.0 * (fp[k + 1] - fp[k]) == 0.0; }
  }

  lemma LocateOnRamp(from: real, n: nat, x: real, k: nat)
    requires k + 1 < n && k as real + from < x < k as real + 1.0 + from
    ensures Ramp(n, from)[0] <= x && Locate(Ramp(n, from), x) == k
  {
    var xp := Ramp(n, from);
    KnotIsBefore(xp, x, k);
    KnotIsBefore(xp, x, k + 1);
  }

  lemma WeightOnRamp(from: real, n: nat, x: real, k: nat)
    requires k + 1 < n && k as real + from < x < k as real + 1.0 + from && Locate(Ramp(n, from), x) == k
    ensures Weight(Ramp(n, from), x) == x - from - k as real
  {
    var xp := Ramp(n, from);
    assert xp[k + 1] - xp[k] == 1.0;
    assert (x - xp[k]) / 1.0 == x - xp[k];
  }

  lemma MixIsStep(w: real, a: real, b: real)
    ensures Mix(w, a, b) == a + w * (b - a)
  {
  }
}
