/** `np.percentile`: linear interpolation between the order statistics. */
module Percentiles {
  import opened RealSeq
  import opened Interpolation

  function Insert(x: real, s: seq<real>): (r: seq<real>)
    requires NonDecreasing(s)
    ensures |r| == |s| + 1 && NonDecreasing(r)
    ensures r[0] == if s == [] || x <= s[0] then x else s[0]
  {
    if s == [] then [x]
    else if x <= s[0] then [x] + s
    else
      var rest := Insert(x, s[1..]);
      assert s[0] <= rest[0];
      [s[0]] + rest
  }

  lemma {:induction false} InsertKeeps(x: real, s: seq<real>)
    requires NonDecreasing(s)
    ensures multiset(Insert(x, s)) == multiset(s) + multiset{x}
  {
    if s != [] && x > s[0] {
      InsertKeeps(x, s[1..]);
      assert s == [s[0]] + s[1..];
    }
  }

  /** The data in order. */
  function Sort(xs: seq<real>): (r: seq<real>)
    ensures |r| == |xs| && NonDecreasing(r)
  {
    if xs == [] then [] else Insert(xs[|xs| - 1], Sort(xs[..|xs| - 1]))
  }

  lemma {:induction false} SortKeeps(xs: seq<real>)
    ensures multiset(Sort(xs)) == multiset(xs)
  {
    if xs != [] {
      SortKeeps(xs[..|xs| - 1]);
      InsertKeeps(xs[|xs| - 1], Sort(xs[..|xs| - 1]));
      assert xs == xs[..|xs| - 1] + [xs[|xs| - 1]];
    }
  }

  /** Where the `q`-th percentile of `n` data falls among the order statistics. */
  function Rank(n: nat, q: real): real { q / 100.0 * (n - 1) as real }

  function Percentile(xs: seq<real>, q: real): real
    requires |xs| > 0 && 0.0 <= q <= 100.0
  {
    Interp(Ramp(|xs|, 0.0), Sort(xs), Rank(|xs|, q))
  }

  lemma RankMonotone(n: nat, p: real, q: real)
    requires n > 0 && p <= q
    ensures Rank(n, p) <= Rank(n, q)
  {
    var m := (n - 1) as real;
    assert Rank(n, q) - Rank(n, p) == (q / 100.0 - p / 100.0) * m;
  }

  /** A higher percentile of the same data is not lower. */
  lemma PercentileOrder(xs: seq<real>, p: real, q: real)
    requires |xs| > 0 && 0.0 <= p <= q <= 100.0
    ensures Percentile(xs, p) <= Percentile(xs, q)
  {
    RankMonotone(|xs|, p, q);
    InterpNonDecreasing(Ramp(|xs|, 0.0), Sort(xs), Rank(|xs|, p), Rank(|xs|, q));
  }

  lemma OrderedMembers(s: seq<real>, xs: seq<real>, i: nat)
    requires multiset(s) == multiset(xs) && |s| == |xs| > i && NonDecreasing(s)
    ensures s[0] <= xs[i] <= s[|s| - 1] && s[0] in xs && s[|s| - 1] in xs
  {
    assert s[0] in multiset(xs) && s[|s| - 1] in multiset(xs);
    assert xs[i] in multiset(s);
    var j :| 0 <= j < |s| && s[j] == xs[i];
  }

  lemma SortedMembers(xs: seq<real>, i: nat)
    requires i < |xs|
    ensures Sort(xs)[0] <= xs[i] <= Sort(xs)[|xs| - 1]
    ensures Sort(xs)[0] in xs && Sort(xs)[|xs| - 1] in xs
  {
    SortKeeps(xs);
    OrderedMembers(Sort(xs), xs, i);
  }

  lemma RankEnds(n: nat)
    requires n > 0
    ensures Rank(n, 0.0) == 0.0 && Rank(n, 100.0) == (n - 1) as real
  {
  }

  /** The ends of the scale are the least and greatest of the data. */
  lemma PercentileEnds(xs: seq<real>)
    requires |xs| > 0
    ensures Percentile(xs, 0.0) in xs && Percentile(xs, 100.0) in xs
    ensures forall i :: 0 <= i < |xs| ==> Percentile(xs, 0.0) <= xs[i] <= Percentile(xs, 100.0)
  {
    RankEnds(|xs|);
    forall i | 0 <= i < |xs|
      ensures Sort(xs)[0] <= xs[i] <= Sort(xs)[|xs| - 1]
    {
      SortedMembers(xs, i);
    }
    SortedMembers(xs, 0);
  }

  lemma HeadIsLeast(s: seq<real>, t: seq<real>)
    requires multiset(s) == multiset(t) && NonDecreasing(s) && NonDecreasing(t) && |s| == |t| > 0
    ensures s[0] == t[0]
  {
    OrderedMembers(s, t, 0);
    OrderedMembers(t, s, 0);
  }

  lemma TailsAgree(s: seq<real>, t: seq<real>)
    requires multiset(s) == multiset(t) && |s| > 0 && |t| > 0 && s[0] == t[0]
    ensures multiset(s[1..]) == multiset(t[1..])
  {
    assert s == [s[0]] + s[1..] && t == [t[0]] + t[1..];
    assert multiset(s[1..]) == multiset(s) - multiset{s[0]};
    assert multiset(t[1..]) == multiset(t) - multiset{t[0]};
  }

  lemma TailOrdered(s: seq<real>)
    requires NonDecreasing(s) && |s| > 0
    ensures NonDecreasing(s[1..])
  {
  }

  /** There is one way of putting data in order. */
  lemma {:induction false} OrderIsUnique(s: seq<real>, t: seq<real>)
    requires multiset(s) == multiset(t) && NonDecreasing(s) && NonDecreasing(t) && |s| == |t|
    ensures s == t
  {
    if s != [] {
      HeadIsLeast(s, t);
      TailsAgree(s, t);
      TailOrdered(s);
      TailOrdered(t);
      OrderIsUnique(s[1..], t[1..]);
      assert s == [s[0]] + s[1..] && t == [t[0]] + t[1..];
    }
  }

  lemma RankIs(n: nat, q: real, x: real)
    requires n > 0 && 100.0 * x == Weighed(q, (n - 1) as real)
    ensures Rank(n, q) == x
  {
    var m := (n - 1) as real;
    assert q / 100.0 * m == q * m / 100.0;
  }

  /** A percentile in plain arithmetic: `q` hundredths of the way from the first of the data in order to the
      last, and between two of them by the part of the way from one to the next. */
  lemma PercentileIs(xs: seq<real>, s: seq<real>, q: real, k: nat, x: real)
    requires 0.0 <= q <= 100.0 && |xs| == |s| > k && multiset(s) == multiset(xs) && NonDecreasing(s)
    requires 100.0 * x == Weighed(q, (|xs| - 1) as real) && k as real <= x < k as real + 1.0
    ensures Percentile(xs, q) == PartWay(s, k, x - k as real)
  {
    SortKeeps(xs);
    OrderIsUnique(s, Sort(xs));
    RankIs(|xs|, q, x);
    InterpOnRamp(0.0, s, x, k);
    assert x - 0.0 - k as real == x - k as real;
  }

  lemma PercentileOfConstant(xs: seq<real>, v: real, q: real)
    requires |xs| > 0 && 0.0 <= q <= 100.0 && forall i :: 0 <= i < |xs| ==> xs[i] == v
    ensures Percentile(xs, q) == v
  {
    PercentileEnds(xs);
    PercentileOrder(xs, 0.0, q);
    PercentileOrder(xs, q, 100.0);
  }

  ghost predicate Below(a: seq<real>, b: seq<real>) {
    |a| == |b| && forall i :: 0 <= i < |a| ==> a[i] <= b[i]
  }

  lemma BelowLonger(x: real, s: seq<real>, y: real, t: seq<real>)
    requires x <= y && Below(s, t)
    ensures Below([x] + s, [y] + t)
  {
  }

  lemma {:induction false} InsertBelow(x: real, s: seq<real>, y: real, t: seq<real>)
    requires NonDecreasing(s) && NonDecreasing(t) && Below(s, t) && x <= y
    ensures Below(Insert(x, s), Insert(y, t))
    decreases |s|
  {
    if s == [] {
    } else if x <= s[0] && y <= t[0] {
      BelowLonger(x, s, y, t);
    } else if x <= s[0] {
      InsertHead(s);
      InsertBelow(s[0], s[1..], y, t[1..]);
      BelowLonger(x, s, t[0], Insert(y, t[1..]));
    } else if y <= t[0] {
      InsertHead(t);
      InsertBelow(x, s[1..], t[0], t[1..]);
      BelowLonger(s[0], Insert(x, s[1..]), y, t);
    } else {
      InsertBelow(x, s[1..], y, t[1..]);
      BelowLonger(s[0], Insert(x, s[1..]), t[0], Insert(y, t[1..]));
    }
  }

  lemma InsertHead(s: seq<real>)
    requires s != [] && NonDecreasing(s)
    ensures NonDecreasing(s[1..]) && Insert(s[0], s[1..]) == s
  {
    assert s == [s[0]] + s[1..];
    assert |s| > 1 ==> s[0] <= s[1] == s[1..][0];
  }

  lemma {:induction false} SortBelow(a: seq<real>, b: seq<real>)
    requires Below(a, b)
    ensures Below(Sort(a), Sort(b))
  {
    if a != [] {
      var n := |a| - 1;
      SortBelow(a[..n], b[..n]);
      InsertBelow(a[n], Sort(a[..n]), b[n], Sort(b[..n]));
    }
  }

  /** Raising every datum never lowers a percentile. */
  lemma PercentileMonotone(a: seq<real>, b: seq<real>, q: real)
    requires Below(a, b) && |a| > 0 && 0.0 <= q <= 100.0
    ensures Percentile(a, q) <= Percentile(b, q)
  {
    SortBelow(a, b);
    InterpMonotone(Ramp(|a|, 0.0), Sort(a), Sort(b), Rank(|a|, q));
  }

  /** A map that neither collapses nor reverses the order. */
  ghost predicate OrderPreserving(f: real -> real) {
    forall x, y :: f(x) <= f(y) <==> x <= y
  }

  function Map(f: real -> real, s: seq<real>): (r: seq<real>)
    ensures |r| == |s| && forall i :: 0 <= i < |s| ==> r[i] == f(s[i])
  {
    seq(|s|, i requires 0 <= i < |s| => f(s[i]))
  }

  lemma {:induction false} InsertMap(f: real -> real, x: real, s: seq<real>)
    requires OrderPreserving(f) && NonDecreasing(s)
    ensures NonDecreasing(Map(f, s))
    ensures Map(f, Insert(x, s)) == Insert(f(x), Map(f, s))
  {
    if s != [] && x > s[0] {
      InsertMap(f, x, s[1..]);
      assert Map(f, s)[1..] == Map(f, s[1..]);
    }
  }

  lemma {:induction false} SortMap(f: real -> real, xs: seq<real>)
    requires OrderPreserving(f)
    ensures Map(f, Sort(xs)) == Sort(Map(f, xs))
  {
    if xs != [] {
      var n := |xs| - 1;
      SortMap(f, xs[..n]);
      InsertMap(f, xs[n], Sort(xs[..n]));
      assert Map(f, xs)[..n] == Map(f, xs[..n]);
    }
  }

  function Times(c: real): real -> real { x => c * x }

  lemma ScalingPreservesOrder(c: real)
    requires c > 0.0
    ensures OrderPreserving(Times(c))
  {
    var f := Times(c);
    forall x, y ensures f(x) <= f(y) <==> x <= y {
      if x <= y { MulLe(c, x, y); assert c * x <= c * y; } else { MulLt(c, y, x); assert c * y < c * x; }
    }
  }

  lemma InterpScaled(xp: seq<real>, a: seq<real>, c: real, x: real)
    requires |xp| == |a| > 0 && Increasing(xp)
    ensures Interp(xp, Map(Times(c), a), x) == Times(c)(Interp(xp, a, x))
  {
    if xp[0] < x < xp[|xp| - 1] {
      var k := Locate(xp, x);
      assert k != |xp| - 1;
      MixScaled(Weight(xp, x), a[k], a[k + 1], c);
    }
  }

  /** Scaling the data by a positive factor scales every percentile by it. */
  lemma PercentileScaled(a: seq<real>, c: real, q: real)
    requires c > 0.0 && |a| > 0 && 0.0 <= q <= 100.0
    ensures Percentile(Map(Times(c), a), q) == Times(c)(Percentile(a, q))
  {
    ScalingPreservesOrder(c);
    SortMap(Times(c), a);
    InterpScaled(Ramp(|a|, 0.0), Sort(a), c, Rank(|a|, q));
  }
}
