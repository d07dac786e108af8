/** Drawing the stacked area of `demos/caiso.py`: bands resampled one by one that must tile the column. */
module CaisoStack {
  import opened RealSeq
  import opened Interpolation
  import opened CaisoMix

  datatype Ink = Fuel(k: nat) | Skyline | Other(id: nat)

  /** The bands' series over the sample times, bottom band first, none of them negative. */
  datatype Mix = Mix(t: seq<real>, bands: seq<seq<real>>) {
    ghost predicate Valid() {
      && |t| > 0 && Increasing(t)
      && (forall k :: 0 <= k < |bands| ==> |bands[k]| == |t|)
      && forall k, i :: 0 <= k < |bands| && 0 <= i < |t| ==> bands[k][i] >= 0.0
    }

    function Resample(k: nat, x: real): real
      requires Valid() && k < |bands|
    {
      Interp(t, bands[k], x)
    }

    /** The running total of the first `k` bands at column time `x`. */
    function Cum(k: nat, x: real): real
      requires Valid() && k <= |bands|
    {
      if k == 0 then 0.0 else Cum(k - 1, x) + Resample(k - 1, x)
    }

    /** The sum of the first `k` bands, sample by sample. */
    function Total(k: nat): (s: seq<real>)
      requires Valid() && k <= |bands|
      ensures |s| == |t|
    {
      if k == 0 then seq(|t|, _ => 0.0)
      else
        var rest := Total(k - 1);
        seq(|t|, i requires 0 <= i < |t| => rest[i] + bands[k - 1][i])
    }

    /** Resampling the bands one by one and accumulating equals resampling their sum. */
    lemma {:induction false} CumIsResampledTotal(k: nat, x: real)
      requires Valid() && k <= |bands|
      ensures Cum(k, x) == Interp(t, Total(k), x)
    {
      if k == 0 {
        InterpBounds(t, Total(0), x, 0.0, 0.0);
      } else {
        CumIsResampledTotal(k - 1, x);
        InterpPlus(t, Total(k - 1), bands[k - 1], Total(k), x);
      }
    }

    lemma {:induction false} CumOrder(j: nat, k: nat, x: real)
      requires Valid() && j <= k <= |bands|
      ensures 0.0 <= Cum(j, x) <= Cum(k, x)
    {
      if j < k {
        CumOrder(j, k - 1, x);
        BandNonNegative(k - 1, x);
      } else if j > 0 {
        CumOrder(j - 1, j - 1, x);
        BandNonNegative(j - 1, x);
      }
    }

    lemma BandNonNegative(k: nat, x: real)
      requires Valid() && k < |bands|
      ensures Resample(k, x) >= 0.0
    {
      var zero := seq(|t|, _ => 0.0);
      InterpBounds(t, zero, x, 0.0, 0.0);
      InterpMonotone(t, zero, bands[k], x);
    }

    /** The total is highest at a sample, never between two. */
    lemma CumBelow(k: nat, x: real, top: real)
      requires Valid() && k <= |bands|
      requires forall i :: 0 <= i < |t| ==> Total(k)[i] <= top
      ensures Cum(k, x) <= top
    {
      CumIsResampledTotal(k, x);
      var lid := seq(|t|, _ => top);
      InterpBounds(t, lid, x, top, top);
      InterpMonotone(t, Total(k), lid, x);
    }
  }

  // ----- the stack of a day's record

  /** The bands of a record, one a group, in the order they are stacked. */
  function BandsOf(fuels: map<string, Series>, gs: seq<Group>, n: nat): (b: seq<seq<real>>)
    requires Aligned(fuels, n)
    ensures |b| == |gs| && forall k :: 0 <= k < |b| ==> |b[k]| == n
  {
    seq(|gs|, k requires 0 <= k < |gs| => GroupSeries(fuels, gs[k], n))
  }

  /** The groups as read are what is stacked: no band is negative, so the result can be drawn. */
  method ReadStack(fuels: map<string, Series>, t: seq<real>) returns (m: Mix)
    requires |t| > 0 && Increasing(t) && Aligned(fuels, |t|)
    ensures m == Mix(t, BandsOf(fuels, GROUPS, |t|)) && m.Valid()
  {
    var groups := ReadGroups(fuels, |t|);
    var bands := [];
    for k := 0 to |GROUPS|
      invariant bands == BandsOf(fuels, GROUPS, |t|)[..k]
    {
      bands := bands + [groups[GROUPS[k].name]];
    }
    m := Mix(t, bands);
  }

  lemma {:induction false} TotalIsStacked(fuels: map<string, Series>, gs: seq<Group>, t: seq<real>, k: nat, i: nat)
    requires |t| > 0 && Increasing(t) && Aligned(fuels, |t|) && k <= |gs| && i < |t|
    ensures Mix(t, BandsOf(fuels, gs, |t|)).Total(k)[i] == Stacked(fuels, gs[..k], |t|, i)
  {
    if k > 0 {
      TotalIsStacked(fuels, gs, t, k - 1, i);
      assert gs[..k][..k - 1] == gs[..k - 1];
    }
  }

  /** At a sample's own time the top of the stack is the sum of the published columns or above it, and
      exactly that sum when no group was clamped. */
  lemma DrawnTotalIsPublished(fuels: map<string, Series>, gs: seq<Group>, t: seq<real>, i: nat)
    requires |t| > 0 && Increasing(t) && Aligned(fuels, |t|) && i < |t|
    ensures var m, sum := Mix(t, BandsOf(fuels, gs, |t|)), Raw(fuels, AllMembers(gs), |t|, i);
      && m.Valid() && m.Cum(|gs|, t[i]) >= sum
      && (m.Cum(|gs|, t[i]) == sum <==> NothingClamped(fuels, gs, |t|, i))
  {
    var m := Mix(t, BandsOf(fuels, gs, |t|));
    m.CumIsResampledTotal(|gs|, t[i]);
    InterpAtKnot(t, m.Total(|gs|), i);
    TotalIsStacked(fuels, gs, t, |gs|, i);
    assert gs[..|gs|] == gs;
    StackIsPublished(fuels, gs, |t|, i);
  }

  // ----- rows

  /** How many rows a running total stands for. */
  function Rise(cum: real, scale: real, rows: nat): real
    requires scale > 0.0
  {
    cum / scale * rows as real
  }

  /** The upper boundary of a running total, in rows from the top of the chart. */
  function Upper(cum: real, scale: real, rows: nat): real
    requires scale > 0.0
  {
    Clip(rows as real - Rise(cum, scale, rows), 0.0, rows as real)
  }

  lemma RiseOrder(a: real, b: real, scale: real, rows: nat)
    requires scale > 0.0 && 0.0 <= a <= b
    ensures 0.0 <= Rise(a, scale, rows) <= Rise(b, scale, rows)
    ensures b <= scale ==> Rise(b, scale, rows) <= rows as real
  {
    DivMonotone(0.0, a, scale);
    DivMonotone(a, b, scale);
    var p, q, r := a / scale, b / scale, rows as real;
    MulNonNeg(p, r);
    var d := q - p;
    MulNonNeg(d, r);
    assert d * r == q * r - p * r;
    if b <= scale {
      DivMonotone(b, scale, scale);
      OneOfItself(scale);
      var e := 1.0 - q;
      MulNonNeg(e, r);
      assert e * r == r - q * r;
    }
  }

  lemma OneOfItself(c: real)
    requires c > 0.0
    ensures c / c == 1.0
  {
  }

  /** The lower boundary of band `k`: the top of the one under it, or the last row's upper side. */
  function Lower(m: Mix, k: nat, x: real, scale: real, rows: nat): real
    requires m.Valid() && k <= |m.bands| && scale > 0.0
  {
    if k == 0 then rows as real else Upper(m.Cum(k, x), scale, rows)
  }

  predicate InBand(m: Mix, k: nat, x: real, scale: real, rows: nat, y: int)
    requires m.Valid() && k < |m.bands| && scale > 0.0
  {
    Lower(m, k + 1, x, scale, rows) <= y as real < Lower(m, k, x, scale, rows)
  }

  /** Row `y` of a column after the first `k` bands. */
  function Filled(m: Mix, k: nat, x: real, scale: real, rows: nat, y: int, was: Ink): Ink
    requires m.Valid() && k <= |m.bands| && scale > 0.0
  {
    if k == 0 then was
    else if InBand(m, k - 1, x, scale, rows, y) then Fuel(k - 1)
    else Filled(m, k - 1, x, scale, rows, y, was)
  }

  function EdgeRow(lower: real, rows: nat): int {
    var r := RoundHalfEven(lower);
    if r < 0 then 0 else if r > rows then rows else r
  }

  function Pixel(m: Mix, x: real, scale: real, rows: nat, y: int, was: Ink): Ink
    requires m.Valid() && scale > 0.0
  {
    var k := |m.bands|;
    if m.Cum(k, x) > 0.0 && y == EdgeRow(Lower(m, k, x, scale, rows), rows) then Skyline
    else Filled(m, k, x, scale, rows, y, was)
  }

  /** `draw_stack`: every band in turn from the floor up, left of `nCols` only, and then the total's
      own row over them. */
  method DrawStack(dst: array2<Ink>, top: nat, bot: nat, m: Mix, scale: real, colT: seq<real>, nCols: nat)
    requires m.Valid() && scale > 0.0 && top <= bot < dst.Length0 && |colT| == dst.Length1
    modifies dst
    ensures forall y, c :: 0 <= y < dst.Length0 && 0 <= c < dst.Length1 ==>
      dst[y, c] == if top <= y <= bot && c < nCols
        then Pixel(m, colT[c], scale, bot - top, y - top, old(dst[y, c])) else old(dst[y, c])
  {
    var cum, lower := FillBands(dst, top, bot, m, scale, colT, nCols);
    DrawSkyline(dst, top, bot, nCols, cum, lower);
  }

  /** The band loop, and what it leaves of each column: the total, and the row it comes to. */
  method FillBands(dst: array2<Ink>, top: nat, bot: nat, m: Mix, scale: real, colT: seq<real>, nCols: nat)
    returns (cum: array<real>, lower: array<real>)
    requires m.Valid() && scale > 0.0 && top <= bot < dst.Length0 && |colT| == dst.Length1
    modifies dst
    ensures fresh(cum) && fresh(lower) && Totals(m, |m.bands|, scale, bot - top, colT, cum[..], lower[..])
    ensures forall y, c :: 0 <= y < dst.Length0 && 0 <= c < dst.Length1 ==>
      dst[y, c] == if top <= y <= bot && c < nCols
        then Filled(m, |m.bands|, colT[c], scale, bot - top, y - top, old(dst[y, c])) else old(dst[y, c])
  {
    var rows, w := bot - top, |colT|;
    cum := new real[w](_ => 0.0);
    lower := new real[w](_ => rows as real);
    for k := 0 to |m.bands|
      invariant Totals(m, k, scale, rows, colT, cum[..], lower[..])
      invariant forall y, c :: 0 <= y < dst.Length0 && 0 <= c < w ==>
        dst[y, c] == if top <= y <= bot && c < nCols
          then Filled(m, k, colT[c], scale, rows, y - top, old(dst[y, c])) else old(dst[y, c])
    {
      DrawBand(dst, top, bot, m, scale, colT, nCols, k, cum, lower);
    }
  }

  /** The total's own row, in the columns that have any. */
  method DrawSkyline(dst: array2<Ink>, top: nat, bot: nat, nCols: nat, cum: array<real>, lower: array<real>)
    requires top <= bot < dst.Length0 && cum.Length == lower.Length == dst.Length1
    modifies dst
    ensures forall y, c :: 0 <= y < dst.Length0 && 0 <= c < dst.Length1 ==>
      dst[y, c] == if top <= y <= bot && c < nCols && cum[c] > 0.0 && y - top == EdgeRow(lower[c], bot - top)
        then Skyline else old(dst[y, c])
  {
    forall y, c | top <= y <= bot && 0 <= c < dst.Length1 && c < nCols && cum[c] > 0.0
        && y - top == EdgeRow(lower[c], bot - top) {
      dst[y, c] := Skyline;
    }
  }

  /** The running totals and boundaries after `k` bands, column by column. */
  ghost predicate Totals(m: Mix, k: nat, scale: real, rows: nat, colT: seq<real>, cum: seq<real>, lower: seq<real>)
    requires m.Valid() && k <= |m.bands| && scale > 0.0
  {
    && |cum| == |lower| == |colT|
    && forall c :: 0 <= c < |colT| ==> cum[c] == m.Cum(k, colT[c]) && lower[c] == Lower(m, k, colT[c], scale, rows)
  }

  /** One turn of the band loop. */
  method DrawBand(dst: array2<Ink>, top: nat, bot: nat, m: Mix, scale: real, colT: seq<real>, nCols: nat,
                  k: nat, cum: array<real>, lower: array<real>)
    requires m.Valid() && k < |m.bands| && scale > 0.0 && top <= bot < dst.Length0 && |colT| == dst.Length1
    requires cum != lower && Totals(m, k, scale, bot - top, colT, cum[..], lower[..])
    modifies dst, cum, lower
    ensures Totals(m, k + 1, scale, bot - top, colT, cum[..], lower[..])
    ensures forall y, c :: 0 <= y < dst.Length0 && 0 <= c < |colT| ==>
      dst[y, c] == if top <= y <= bot && c < nCols && InBand(m, k, colT[c], scale, bot - top, y - top)
        then Fuel(k) else old(dst[y, c])
  {
    ghost var lower0 := lower[..];
    var upper := AddBand(m, k, scale, bot - top, colT, cum, lower0);
    PaintBand(dst, top, bot, nCols, k, upper, lower);
    forall c | 0 <= c < |colT| { lower[c] := upper[c]; }
    assert lower[..] == upper;
  }

  /** The running totals with one more band, and the boundary over it. */
  method AddBand(m: Mix, k: nat, scale: real, rows: nat, colT: seq<real>, cum: array<real>, ghost lower: seq<real>)
    returns (upper: seq<real>)
    requires m.Valid() && k < |m.bands| && scale > 0.0 && Totals(m, k, scale, rows, colT, cum[..], lower)
    modifies cum
    ensures Totals(m, k + 1, scale, rows, colT, cum[..], upper)
  {
    forall c | 0 <= c < |colT| { cum[c] := cum[c] + m.Resample(k, colT[c]); }
    upper := seq(|colT|, c requires 0 <= c < |colT| reads cum => Upper(cum[c], scale, rows));
  }

  method PaintBand(dst: array2<Ink>, top: nat, bot: nat, nCols: nat, k: nat, upper: seq<real>, lower: array<real>)
    requires top <= bot < dst.Length0 && |upper| == lower.Length == dst.Length1
    modifies dst
    ensures forall y, c :: 0 <= y < dst.Length0 && 0 <= c < dst.Length1 ==>
      dst[y, c] == if top <= y <= bot && c < nCols && upper[c] <= (y - top) as real < lower[c] then Fuel(k)
                   else old(dst[y, c])
  {
    forall y, c | top <= y <= bot && 0 <= c < dst.Length1 && upper[c] <= (y - top) as real < lower[c] && c < nCols {
      dst[y, c] := Fuel(k);
    }
  }

  // ----- the bands tile

  lemma LowerOrder(m: Mix, j: nat, k: nat, x: real, scale: real, rows: nat)
    requires m.Valid() && j <= k <= |m.bands| && scale > 0.0
    ensures 0.0 <= Lower(m, k, x, scale, rows) <= Lower(m, j, x, scale, rows) <= rows as real
  {
    m.CumOrder(j, k, x);
    RiseOrder(m.Cum(j, x), m.Cum(k, x), scale, rows);
  }

  /** The bands drawn are disjoint, in group order from the floor up, without gaps, and between them
      cover exactly the rows under the total. The fill stops one row short: row `rows`, the chart's
      last, is in no band. */
  lemma {:induction false} BandsTile(m: Mix, k: nat, x: real, scale: real, rows: nat, y: int)
    requires m.Valid() && k <= |m.bands| && scale > 0.0
    ensures (exists j :: 0 <= j < k && InBand(m, j, x, scale, rows, y))
        <==> Lower(m, k, x, scale, rows) <= y as real < rows as real
    ensures forall i, j :: 0 <= i < j < k && InBand(m, i, x, scale, rows, y) ==> !InBand(m, j, x, scale, rows, y)
  {
    if k > 0 {
      BandsTile(m, k - 1, x, scale, rows, y);
      LowerOrder(m, k - 1, k, x, scale, rows);
      forall i | 0 <= i < k - 1 && InBand(m, i, x, scale, rows, y)
        ensures !InBand(m, k - 1, x, scale, rows, y)
      {
        LowerOrder(m, i + 1, k - 1, x, scale, rows);
      }
      if InBand(m, k - 1, x, scale, rows, y) {
        assert 0 <= k - 1 < k;
      } else if j :| 0 <= j < k && InBand(m, j, x, scale, rows, y) {
        assert j < k - 1;
      }
    }
  }

  /** One steady band at half of full scale, on a chart of rows 0 to 4: it fills rows 2 and 3 and leaves
      row 4, its own floor, unpainted. */
  lemma TheFloorRowIsBare(was: Ink)
    ensures var m := Mix([0.0], [[10.0]]);
      && m.Valid()
      && (forall y: int :: 0 <= y <= 4 ==> (InBand(m, 0, 0.0, 20.0, 4, y) <==> y == 2 || y == 3))
      && Filled(m, 1, 0.0, 20.0, 4, 4, was) == was
  {
    var m := Mix([0.0], [[10.0]]);
    assert m.Valid();
    assert m.Cum(1, 0.0) == m.Cum(0, 0.0) + m.Resample(0, 0.0) == 10.0;
    assert Rise(10.0, 20.0, 4) == 2.0;
    assert Lower(m, 1, 0.0, 20.0, 4) == 2.0 && Lower(m, 0, 0.0, 20.0, 4) == 4.0;
  }

  /** Which rows a band has, by products: those whose height above the floor is over the total of the bands
      below it, and no more than its own total. */
  lemma InBandExactly(m: Mix, k: nat, x: real, scale: real, rows: nat, y: nat)
    requires m.Valid() && k < |m.bands| && scale > 0.0 && y < rows
    ensures InBand(m, k, x, scale, rows, y) <==>
      Weighed(m.Cum(k, x), rows as real) < Weighed((rows - y) as real, scale) <= Weighed(m.Cum(k + 1, x), rows as real)
  {
    m.CumOrder(k, k + 1, x);
    RiseIs(m.Cum(k, x), scale, rows, (rows - y) as real);
    RiseIs(m.Cum(k + 1, x), scale, rows, (rows - y) as real);
    RiseOrder(m.Cum(k, x), m.Cum(k + 1, x), scale, rows);
    if k == 0 { RiseOfNothing(scale, rows); }
  }

  lemma RiseIs(cum: real, scale: real, rows: nat, up: real)
    requires scale > 0.0
    ensures Rise(cum, scale, rows) < up <==> Weighed(cum, rows as real) < Weighed(up, scale)
  {
    ScaledBack(cum, scale, rows as real);
    OrderWeighed(up, Rise(cum, scale, rows), scale);
  }

  lemma RiseOfNothing(scale: real, rows: nat)
    requires scale > 0.0
    ensures Rise(0.0, scale, rows) == 0.0
  {
    assert 0.0 / scale == 0.0;
  }

  /** The silhouette is drawn in the row nearest to the total. */
  lemma EdgeIsNearest(m: Mix, x: real, scale: real, rows: nat)
    requires m.Valid() && scale > 0.0 && m.Cum(|m.bands|, x) <= scale && |m.bands| > 0
    ensures var up := rows - EdgeRow(Lower(m, |m.bands|, x, scale, rows), rows);
      Abs(Weighed(up as real, scale) - Weighed(m.Cum(|m.bands|, x), rows as real)) <= 0.5 * scale
  {
    var cum := m.Cum(|m.bands|, x);
    m.CumOrder(0, |m.bands|, x);
    RiseOrder(cum, cum, scale, rows);
    var lower := rows as real - Rise(cum, scale, rows);
    assert Lower(m, |m.bands|, x, scale, rows) == lower;
    RoundIsNearest(lower);
    RoundMonotone(0.0, lower);
    RoundMonotone(lower, rows as real);
    RoundOfInt(0);
    RoundOfInt(rows);
    var up := (rows - RoundHalfEven(lower)) as real;
    assert -0.5 <= up - Rise(cum, scale, rows) <= 0.5;
    NearlyRise(up, cum, scale, rows as real);
  }

  lemma NearlyRise(up: real, cum: real, scale: real, rows: real)
    requires scale > 0.0 && -0.5 <= up - cum / scale * rows <= 0.5
    ensures Abs(Weighed(up, scale) - Weighed(cum, rows)) <= 0.5 * scale
  {
    ScaledBack(cum, scale, rows);
    WeighedMinus(up, cum / scale * rows, scale);
    HalfAtMost(up - cum / scale * rows, scale);
  }

  /** Bands stand on one another in group order. */
  lemma BandsInOrder(m: Mix, i: nat, j: nat, x: real, scale: real, rows: nat, y: int, z: int)
    requires m.Valid() && i < j < |m.bands| && scale > 0.0
    requires InBand(m, i, x, scale, rows, y) && InBand(m, j, x, scale, rows, z)
    ensures z < y
  {
    LowerOrder(m, i + 1, j, x, scale, rows);
  }

  /** A row shows band `j` after the fill exactly when it is in band `j`, so overpainting never matters. */
  lemma {:induction false} FilledIsBand(m: Mix, k: nat, x: real, scale: real, rows: nat, y: int, was: Ink, j: nat)
    requires m.Valid() && j < k <= |m.bands| && scale > 0.0 && !was.Fuel?
    ensures Filled(m, k, x, scale, rows, y, was) == Fuel(j) <==> InBand(m, j, x, scale, rows, y)
  {
    BandsTile(m, k, x, scale, rows, y);
    if j < k - 1 {
      FilledIsBand(m, k - 1, x, scale, rows, y, was, j);
    } else {
      FilledBelow(m, k - 1, x, scale, rows, y, was);
    }
  }

  lemma {:induction false} FilledBelow(m: Mix, k: nat, x: real, scale: real, rows: nat, y: int, was: Ink)
    requires m.Valid() && k <= |m.bands| && scale > 0.0 && !was.Fuel?
    ensures Filled(m, k, x, scale, rows, y, was).Fuel? ==> Filled(m, k, x, scale, rows, y, was).k < k
  {
    if k > 0 { FilledBelow(m, k - 1, x, scale, rows, y, was); }
  }

  // ----- the scale

  /** `full_scale`: what was asked for, or the day's highest total or forecast up to a whole 5 GW. */
  function FullScale(m: Mix, forecast: seq<real>, peakGw: real): real
    requires m.Valid()
  {
    if peakGw > 0.0 then peakGw * 1000.0
    else
      var top := Highest(m.Total(|m.bands|));
      Max(20000.0, Round5000(Ceil((if forecast == [] then top else Max(top, Highest(forecast))) / 5000.0)))
  }

  function Round5000(n: int): real { n as real * 5000.0 }

  ghost predicate Clears(scale: real, m: Mix, forecast: seq<real>)
    requires m.Valid()
  {
    && scale >= 20000.0
    && (forall i :: 0 <= i < |m.t| ==> m.Total(|m.bands|)[i] <= scale)
    && forall i :: 0 <= i < |forecast| ==> forecast[i] <= scale
  }

  /** The fitted scale is the least whole number of five gigawatts, from twenty up, that neither the day's
      total nor its forecast ever exceeds; a scale asked for is taken as it is. */
  lemma FullScaleIsLeast(m: Mix, forecast: seq<real>, peakGw: real) returns (n: int)
    requires m.Valid()
    ensures peakGw > 0.0 ==> FullScale(m, forecast, peakGw) == peakGw * 1000.0
    ensures peakGw <= 0.0 ==> FullScale(m, forecast, peakGw) == Round5000(n) && Clears(Round5000(n), m, forecast)
    ensures peakGw <= 0.0 ==> forall k: int :: Clears(Round5000(k), m, forecast) ==> n <= k
  {
    var total := m.Total(|m.bands|);
    HighestIsMax(total);
    if forecast != [] { HighestIsMax(forecast); }
    var top := if forecast == [] then Highest(total) else Max(Highest(total), Highest(forecast));
    n := if Ceil(top / 5000.0) >= 4 then Ceil(top / 5000.0) else 4;
    if peakGw <= 0.0 {
      RoundedIs(top);
      forall k: int | Clears(Round5000(k), m, forecast) ensures n <= k {
        assert top <= Round5000(k);
        LeastFives(top, k);
      }
    }
  }

  lemma RoundedIs(top: real)
    ensures var n := if Ceil(top / 5000.0) >= 4 then Ceil(top / 5000.0) else 4;
      Max(20000.0, Round5000(Ceil(top / 5000.0))) == Round5000(n) && top <= Round5000(n) && Round5000(n) >= 20000.0
  {
  }

  lemma LeastFives(top: real, k: int)
    requires top <= Round5000(k) && Round5000(k) >= 20000.0
    ensures Ceil(top / 5000.0) <= k && k >= 4
  {
    assert top / 5000.0 <= k as real;
  }

  /** On the fitted scale no column is clipped: the total's row is in the chart as computed. */
  lemma FittedStackFits(m: Mix, forecast: seq<real>, peakGw: real, x: real, rows: nat)
    requires m.Valid() && peakGw <= 0.0
    ensures FullScale(m, forecast, peakGw) >= 20000.0
    ensures var s, cum := FullScale(m, forecast, peakGw), m.Cum(|m.bands|, x);
      0.0 <= cum <= s && Upper(cum, s, rows) == rows as real - Rise(cum, s, rows)
  {
    var s, k := FullScale(m, forecast, peakGw), |m.bands|;
    var top := Highest(m.Total(k));
    HighestIsMax(m.Total(k));
    assert top <= s;
    m.CumBelow(k, x, s);
    m.CumOrder(k, k, x);
    RiseOrder(m.Cum(k, x), m.Cum(k, x), s, rows);
  }
}
