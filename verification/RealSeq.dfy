/** Finite sums of reals: what `np.sum` and `np.cumsum` compute in exact arithmetic. */
module RealSeq {

  function Max(a: real, b: real): real { if a >= b then a else b }

  function Min(a: real, b: real): real { if a <= b then a else b }

  function Abs(a: real): real { if a >= 0.0 then a else -a }

  /** `np.clip(x, lo, hi)`, which is the minimum of `hi` and the maximum of `lo` and `x`. */
  function Clip(x: real, lo: real, hi: real): real { Min(Max(x, lo), hi) }

  function Ceil(x: real): int { -((-x).Floor) }

  function Sum(xs: seq<real>): real {
    if xs == [] then 0.0 else Sum(xs[..|xs| - 1]) + xs[|xs| - 1]
  }

  /** A value taken with a weight. */
  function Weighed(x: real, v: real): real { x * v }

  lemma WeighedSplits(a: real, b: real, v: real)
    ensures Weighed(a + b, v) == Weighed(a, v) + Weighed(b, v)
  {
  }

  lemma WeighedMinus(a: real, b: real, v: real)
    ensures Weighed(a - b, v) == Weighed(a, v) - Weighed(b, v)
  {
  }

  lemma HalfAtMost(d: real, m: real)
    requires m > 0.0 && -0.5 <= d <= 0.5
    ensures Abs(Weighed(d, m)) <= 0.5 * m
  {
    MulLe(m, d, 0.5);
    MulLe(m, -0.5, d);
    assert m * -0.5 <= m * d <= m * 0.5;
  }

  /** `n` copies of one value. */
  function Level(n: nat, v: real): (row: seq<real>)
    ensures |row| == n && forall i :: 0 <= i < n ==> row[i] == v
  {
    seq(n, _ => v)
  }

  lemma MulNonNeg(a: real, b: real)
    requires a >= 0.0 && b >= 0.0
    ensures a * b >= 0.0
  {
  }

  lemma MulLe(k: real, a: real, b: real)
    requires k >= 0.0 && a <= b
    ensures k * a <= k * b
  {
    var d := b - a;
    MulNonNeg(k, d);
    assert k * d >= 0.0;
    assert k * d == k * b - k * a;
  }

  lemma MulLt(k: real, a: real, b: real)
    requires k > 0.0 && a < b
    ensures k * a < k * b
  {
    var d := b - a;
    assert k * d > 0.0;
    assert k * d == k * b - k * a;
  }

  lemma OrderWeighed(a: real, b: real, v: real)
    requires v > 0.0
    ensures a <= b <==> Weighed(a, v) <= Weighed(b, v)
  {
    if a <= b { MulLe(v, a, b); assert v * a <= v * b; } else { MulLt(v, b, a); assert v * b < v * a; }
  }

  lemma ScaledBack(v: real, scale: real, r: real)
    requires scale > 0.0
    ensures Weighed(v / scale * r, scale) == Weighed(v, r)
  {
    var q := v / scale;
    assert q * scale == v;
    assert q * r * scale == q * scale * r;
  }

  lemma CastOfProduct(k: nat, w: nat)
    ensures (k * w) as real == Weighed(k as real, w as real)
  {
  }

  /** Scaling by something positive keeps an order. */
  lemma Between(lo: real, q: real, hi: real, r: real)
    requires lo < q <= hi && r > 0.0
    ensures lo * r < q * r <= hi * r
  {
    MulLt(r, lo, q);
    MulLe(r, q, hi);
    assert r * lo < r * q <= r * hi;
  }

  lemma MulFraction(d: real, c: real)
    requires 0.0 <= d < 1.0 && c > 0.0
    ensures 0.0 <= d * c < c
  {
    MulNonNeg(d, c);
    var e := 1.0 - d;
    assert e * c > 0.0;
    assert e * c == c - d * c;
  }

  lemma QuotientOfProduct(n: real, c: real)
    requires c != 0.0
    ensures n * c / c == n
  {
  }

  lemma DivNonNeg(a: real, c: real)
    requires a >= 0.0 && c > 0.0
    ensures a / c >= 0.0
  {
  }

  lemma DivPos(a: real, c: real)
    requires a > 0.0 && c > 0.0
    ensures a / c > 0.0
  {
  }

  lemma WeighedReciprocal(a: real, n: real)
    requires n != 0.0
    ensures Weighed(a, 1.0 / n) == a / n
  {
  }

  lemma MulAssoc(a: real, b: real, c: real)
    ensures a * b * c == a * (b * c)
  {
  }

  lemma DivMonotone(a: real, b: real, c: real)
    requires a <= b && c > 0.0
    ensures a / c <= b / c
  {
  }

  /** A part of a whole is a fraction between nothing and one. */
  lemma PartOfWhole(a: real, b: real)
    requires 0.0 <= a <= b && b > 0.0
    ensures 0.0 <= a / b <= 1.0 && (a / b == 1.0 <==> a == b)
  {
  }

  /** `t % c` for a positive `c`. */
  function Mod(t: real, c: real): real
    requires c > 0.0
  {
    t - (t / c).Floor as real * c
  }

  lemma ModRange(t: real, c: real)
    requires c > 0.0
    ensures 0.0 <= Mod(t, c) < c
  {
    var q := t / c;
    var f := q.Floor as real;
    assert q * c == t;
    var d := q - f;
    MulFraction(d, c);
    assert 0.0 <= d * c < c;
    assert d * c == q * c - f * c;
    assert Mod(t, c) == t - f * c == d * c;
  }

  lemma ModOfSmall(t: real, c: real)
    requires 0.0 <= t < c
    ensures Mod(t, c) == t
  {
    assert 0.0 <= t / c < 1.0;
    assert (t / c).Floor == 0;
  }

  lemma QuotientShift(t: real, n: real, c: real)
    requires c > 0.0
    ensures (t + Weighed(n, c)) / c == t / c + n
  {
    var q := t / c;
    assert Weighed(q, c) == t;
    WeighedSplits(q, n, c);
    QuotientOfProduct(q + n, c);
  }

  /** Whole periods make no difference. */
  lemma ModShift(t: real, m: int, c: real)
    requires c > 0.0
    ensures Mod(t + Weighed(m as real, c), c) == Mod(t, c)
  {
    var x, f := t + Weighed(m as real, c), (t / c).Floor;
    QuotientShift(t, m as real, c);
    assert (x / c).Floor == f + m;
    ModAt(x, c, f + m);
    ModAt(t, c, f);
    assert (f + m) as real == f as real + m as real;
    WeighedSplits(f as real, m as real, c);
  }

  lemma ModAt(t: real, c: real, f: int)
    requires c > 0.0 && f == (t / c).Floor
    ensures Mod(t, c) == t - Weighed(f as real, c)
  {
  }

  /** `np.round` and `np.rint`: to the nearest integer, halves to the even one. */
  function RoundHalfEven(x: real): int {
    var f := x.Floor;
    var d := x - f as real;
    if d < 0.5 then f else if d > 0.5 then f + 1 else if f % 2 == 0 then f else f + 1
  }

  /** Rounding goes no further than half way, and from half way to the even side. */
  lemma RoundIsNearest(x: real)
    ensures Abs(RoundHalfEven(x) as real - x) <= 0.5
    ensures Abs(RoundHalfEven(x) as real - x) == 0.5 ==> RoundHalfEven(x) % 2 == 0
  {
  }

  lemma RoundMonotone(x: real, y: real)
    requires x <= y
    ensures RoundHalfEven(x) <= RoundHalfEven(y)
  {
    assert x.Floor <= y.Floor;
  }

  lemma RoundOfInt(n: int)
    ensures RoundHalfEven(n as real) == n
  {
    assert (n as real).Floor == n;
  }

  lemma {:induction false} SumConcat(a: seq<real>, b: seq<real>)
    ensures Sum(a + b) == Sum(a) + Sum(b)
  {
    if b == [] {
      assert a + b == a;
    } else {
      assert (a + b)[..|a + b| - 1] == a + b[..|b| - 1];
      SumConcat(a, b[..|b| - 1]);
    }
  }

  lemma {:induction false} SumPlus(a: seq<real>, b: seq<real>, c: seq<real>)
    requires |a| == |b| == |c|
    requires forall i :: 0 <= i < |c| ==> c[i] == a[i] + b[i]
    ensures Sum(c) == Sum(a) + Sum(b)
  {
    if c != [] {
      var n := |c| - 1;
      SumPlus(a[..n], b[..n], c[..n]);
    }
  }

  lemma {:induction false} SumScaled(a: seq<real>, k: real, c: seq<real>)
    requires |a| == |c|
    requires forall i :: 0 <= i < |c| ==> c[i] == k * a[i]
    ensures Sum(c) == k * Sum(a)
  {
    if c != [] {
      var n := |c| - 1;
      SumScaled(a[..n], k, c[..n]);
      assert c[n] == k * a[n];
      assert k * (Sum(a[..n]) + a[n]) == k * Sum(a[..n]) + k * a[n];
    }
  }

  lemma SumWeighed(a: seq<real>, b: real, c: seq<real>)
    requires |a| == |c| && forall i :: 0 <= i < |a| ==> c[i] == Weighed(b, a[i])
    ensures Sum(c) == Weighed(b, Sum(a))
  {
    SumScaled(a, b, c);
  }

  lemma {:induction false} SumLe(a: seq<real>, b: seq<real>)
    requires |a| == |b|
    requires forall i :: 0 <= i < |a| ==> a[i] <= b[i]
    ensures Sum(a) <= Sum(b)
  {
    if a != [] {
      var n := |a| - 1;
      SumLe(a[..n], b[..n]);
    }
  }

  lemma {:induction false} SumConst(a: seq<real>, v: real)
    requires forall i :: 0 <= i < |a| ==> a[i] == v
    ensures Sum(a) == |a| as real * v
  {
    if a != [] {
      var n := |a| - 1;
      SumConst(a[..n], v);
      assert |a| as real * v == n as real * v + v;
    }
  }

  lemma {:induction false} SumUpdate(a: seq<real>, k: nat, v: real)
    requires k < |a|
    ensures Sum(a[k := v]) == Sum(a) - a[k] + v
  {
    var n := |a| - 1;
    if k < n {
      assert a[k := v][..n] == a[..n][k := v];
      SumUpdate(a[..n], k, v);
    } else {
      assert a[k := v][..n] == a[..n];
    }
  }

  /** A sum that is pointwise below another and strictly below it somewhere is strictly smaller. */
  lemma SumLt(a: seq<real>, b: seq<real>, k: nat)
    requires |a| == |b| && k < |a|
    requires forall i :: 0 <= i < |a| ==> a[i] <= b[i]
    requires a[k] < b[k]
    ensures Sum(a) < Sum(b)
  {
    SumUpdate(a, k, b[k]);
    SumLe(a[k := b[k]], b);
  }

  /** `np.nanmax`, of values that are all there. */
  function Highest(xs: seq<real>): real
    requires |xs| > 0
  {
    if |xs| == 1 then xs[0] else Max(Highest(xs[..|xs| - 1]), xs[|xs| - 1])
  }

  lemma {:induction false} HighestIsMax(xs: seq<real>)
    requires |xs| > 0
    ensures Highest(xs) in xs && forall i :: 0 <= i < |xs| ==> xs[i] <= Highest(xs)
  {
    if |xs| > 1 { HighestIsMax(xs[..|xs| - 1]); }
  }

  /** Nothing after the first `n` elements leaves the sum to those. */
  lemma SumOfHead(a: seq<real>, n: nat)
    requires n <= |a| && forall i :: n <= i < |a| ==> a[i] == 0.0
    ensures Sum(a) == Sum(a[..n])
  {
    assert a == a[..n] + a[n..];
    SumConcat(a[..n], a[n..]);
    SumConst(a[n..], 0.0);
  }

  /** Differences between neighbours add up to the difference between the ends. */
  lemma {:induction false} Telescope(c: seq<real>, f: int -> real, m: nat)
    requires m <= |c| && forall j :: 0 <= j < |c| ==> c[j] == f(j + 1) - f(j)
    ensures Sum(c[..m]) == f(m) - f(0)
  {
    if m > 0 {
      Telescope(c, f, m - 1);
      SumPrefixStep(c, m - 1);
    }
  }

  /** A prefix sum grows by the next element. */
  lemma SumPrefixStep(a: seq<real>, n: nat)
    requires n < |a|
    ensures Sum(a[..n + 1]) == Sum(a[..n]) + a[n]
  {
    assert a[..n + 1][..n] == a[..n];
  }
}
