/**
  The stacked churn chart of `demos/bgp.py`. Its axis is a square root, so heights are carried as
  their squares: every comparison the code makes between heights is made between squares here.
 */
module BgpChart {
  import opened RealSeq
  import opened BgpScale

  datatype Ink = Ann | AnnEdge | Wdr | WdrEdge | Other(id: nat)

  function RowsSq(rows: nat): real { (rows * rows) as real }

  function RawSq(v: real, scale: real, rows: nat): real
    requires scale > 0.0
  {
    v / scale * RowsSq(rows)
  }

  /** The square of a bar's height in rows, clipped to the chart. */
  function HeightSq(v: real, scale: real, rows: nat): real
    requires scale > 0.0
  {
    Min(RawSq(Max(v, 0.0), scale, rows), RowsSq(rows))
  }

  /** The withdrawals' share of the bar: at least one row if there were any, never above the total. */
  function WdrSq(wdr: real, total: real, scale: real, rows: nat): real
    requires scale > 0.0
  {
    var h := if wdr > 0.0 then Max(HeightSq(wdr, scale, rows), 1.0) else 0.0;
    Min(h, HeightSq(total, scale, rows))
  }

  /** A bar of this squared height fills the `d`-th row above the floor. */
  predicate Reaches(hsq: real, d: int) { d >= 1 && (d * d) as real <= hsq }

  /** The whole rows in a bar, up to `n`. */
  function WholeRows(hsq: real, n: nat): (d: nat)
    ensures d <= n && (d > 0 ==> Reaches(hsq, d))
    ensures forall k: int :: d < k <= n ==> !Reaches(hsq, k)
  {
    if n == 0 || (n * n) as real <= hsq then n else WholeRows(hsq, n - 1)
  }

  /** The row the outline is drawn in: the bar's top row, and the floor row for a bar under one row. */
  function EdgeDepth(hsq: real, rows: nat): nat {
    var d := WholeRows(hsq, rows);
    if d < 1 then 1 else d
  }

  /** What a column leaves in its `d`-th row above the floor. */
  function Pixel(ann: real, wdr: real, scale: real, rows: nat, d: int, was: Ink): Ink
    requires scale > 0.0
  {
    var tot, w := HeightSq(wdr + ann, scale, rows), WdrSq(wdr, wdr + ann, scale, rows);
    if tot > 0.0 && d == EdgeDepth(tot, rows) then (if w >= tot then WdrEdge else AnnEdge)
    else if Reaches(w, d) then Wdr
    else if Reaches(tot, d) then Ann
    else was
  }

  /** One masked fill: every row of the region that its column's bar reaches. */
  method FillTo(dst: array2<Ink>, top: nat, rows: nat, hsq: seq<real>, ink: Ink)
    requires top + rows <= dst.Length0 && |hsq| == dst.Length1
    modifies dst
    ensures forall y, c :: 0 <= y < dst.Length0 && 0 <= c < dst.Length1 ==>
      dst[y, c] == if top <= y < top + rows && Reaches(hsq[c], top + rows - y) then ink else old(dst[y, c])
  {
    forall y, c | top <= y < top + rows && 0 <= c < dst.Length1 && Reaches(hsq[c], top + rows - y) {
      dst[y, c] := ink;
    }
  }

  /** `draw_chart`: two masked fills and the outline, over rows `top` to `top + rows - 1`. */
  method DrawChart(dst: array2<Ink>, top: nat, rows: nat, scale: real, ann: seq<real>, wdr: seq<real>)
    requires rows >= 1 && scale > 0.0 && top + rows <= dst.Length0
    requires |ann| == |wdr| == dst.Length1
    modifies dst
    ensures forall y, c :: top <= y < top + rows && 0 <= c < dst.Length1 ==>
      dst[y, c] == Pixel(ann[c], wdr[c], scale, rows, top + rows - y, old(dst[y, c]))
    ensures forall y, c :: 0 <= y < dst.Length0 && !(top <= y < top + rows) && 0 <= c < dst.Length1 ==>
      dst[y, c] == old(dst[y, c])
  {
    var totH := seq(|ann|, c requires 0 <= c < |ann| => HeightSq(wdr[c] + ann[c], scale, rows));
    var wdrH := seq(|ann|, c requires 0 <= c < |ann| => WdrSq(wdr[c], wdr[c] + ann[c], scale, rows));
    var edge := seq(|ann|, c requires 0 <= c < |ann| => EdgeDepth(totH[c], rows));
    FillTo(dst, top, rows, totH, Ann);
    FillTo(dst, top, rows, wdrH, Wdr);
    forall y, c | top <= y < top + rows && 0 <= c < dst.Length1 && totH[c] > 0.0 && top + rows - y == edge[c] {
      dst[y, c] := if wdrH[c] >= totH[c] then WdrEdge else AnnEdge;
    }
  }

  // ----- what a column looks like

  lemma HeightOrder(a: real, b: real, scale: real, rows: nat)
    requires scale > 0.0 && rows >= 1 && 0.0 <= a <= b
    ensures 0.0 <= HeightSq(a, scale, rows) <= HeightSq(b, scale, rows) <= RowsSq(rows)
    ensures a > 0.0 ==> HeightSq(a, scale, rows) > 0.0
    ensures a < b && HeightSq(b, scale, rows) < RowsSq(rows) ==> HeightSq(a, scale, rows) < HeightSq(b, scale, rows)
  {
    RawOrder(a, b, scale, rows);
  }

  lemma RawOrder(a: real, b: real, scale: real, rows: nat)
    requires scale > 0.0 && rows >= 1 && 0.0 <= a <= b
    ensures RowsSq(rows) >= 1.0
    ensures 0.0 <= RawSq(a, scale, rows) <= RawSq(b, scale, rows)
    ensures a > 0.0 ==> RawSq(a, scale, rows) > 0.0
    ensures a < b ==> RawSq(a, scale, rows) < RawSq(b, scale, rows)
  {
    RowsPositive(rows);
    Quotients(a, b, scale);
    Products(a / scale, b / scale, RowsSq(rows));
  }

  lemma Quotients(a: real, b: real, c: real)
    requires 0.0 <= a <= b && c > 0.0
    ensures 0.0 <= a / c <= b / c
    ensures a > 0.0 ==> a / c > 0.0
    ensures a < b ==> a / c < b / c
  {
  }

  lemma Products(a: real, b: real, c: real)
    requires 0.0 <= a <= b && c > 0.0
    ensures 0.0 <= a * c <= b * c
    ensures a > 0.0 ==> a * c > 0.0
    ensures a < b ==> a * c < b * c
  {
    MulNonNeg(a, c);
    var d := b - a;
    MulNonNeg(d, c);
    assert d * c == b * c - a * c;
    if a < b { assert d * c > 0.0; }
  }

  lemma ReachesDown(hsq: real, d: int, k: int)
    requires Reaches(hsq, d) && 1 <= k <= d
    ensures Reaches(hsq, k)
  {
    assert k * k <= d * d by {
      var e := d - k;
      assert d * d == k * k + 2 * k * e + e * e;
    }
  }

  function TopRow(ann: real, wdr: real, scale: real, rows: nat): nat
    requires scale > 0.0
  {
    if wdr + ann > 0.0 then EdgeDepth(HeightSq(wdr + ann, scale, rows), rows) else 0
  }

  /** The lit rows of a column are one run standing on the floor, at least one row if anything was
      counted, with the outline in the top row and nowhere else. */
  lemma ColumnIsOneRun(ann: real, wdr: real, scale: real, rows: nat, d: int, was: Ink)
    requires ann >= 0.0 && wdr >= 0.0 && scale > 0.0 && 1 <= d <= rows && was.Other?
    ensures Pixel(ann, wdr, scale, rows, d, was) != was <==> d <= TopRow(ann, wdr, scale, rows)
    ensures Pixel(ann, wdr, scale, rows, d, was) in {AnnEdge, WdrEdge} <==> d == TopRow(ann, wdr, scale, rows)
    ensures wdr + ann > 0.0 ==> 1 <= TopRow(ann, wdr, scale, rows) <= rows
  {
    HeightOrder(0.0, wdr + ann, scale, rows);
    HeightOrder(wdr, wdr + ann, scale, rows);
    var tot, w := HeightSq(wdr + ann, scale, rows), WdrSq(wdr, wdr + ann, scale, rows);
    HeightOrder(wdr + ann, wdr + ann, scale, rows);
    var n := WholeRows(tot, rows);
    if d <= n { ReachesDown(tot, n, d); }
    if Reaches(w, d) { assert Reaches(tot, d); }
  }

  /** Withdrawals are always below announcements. */
  lemma WithdrawalsBelow(ann: real, wdr: real, scale: real, rows: nat, d: int, e: int, was: Ink)
    requires ann >= 0.0 && wdr >= 0.0 && scale > 0.0 && 1 <= d <= rows && 1 <= e <= rows && was.Other?
    requires Pixel(ann, wdr, scale, rows, d, was) == Wdr && Pixel(ann, wdr, scale, rows, e, was) in {Ann, AnnEdge}
    ensures d < e
  {
    ColumnIsOneRun(ann, wdr, scale, rows, d, was);
    ColumnIsOneRun(ann, wdr, scale, rows, e, was);
    var w := WdrSq(wdr, wdr + ann, scale, rows);
    if e <= d { ReachesDown(w, d, e); }
  }

  /** Some row of the column has a withdrawal's colour. */
  ghost predicate ShowsWithdrawals(ann: real, wdr: real, scale: real, rows: nat)
    requires scale > 0.0
  {
    exists d: int :: 1 <= d <= rows && Pixel(ann, wdr, scale, rows, d, Other(0)) in {Wdr, WdrEdge}
  }

  /** The docstring promises that real withdrawals are never rounded away. They are kept exactly when
      the bar is all withdrawals, or at most one row tall, or at least two. */
  lemma WithdrawalsShownIff(ann: real, wdr: real, scale: real, rows: nat)
    requires ann >= 0.0 && wdr > 0.0 && scale > 0.0 && rows >= 2
    ensures ShowsWithdrawals(ann, wdr, scale, rows) <==>
      ann == 0.0 || !(1.0 < HeightSq(wdr + ann, scale, rows) < 4.0)
  {
    var tot, w := HeightSq(wdr + ann, scale, rows), WdrSq(wdr, wdr + ann, scale, rows);
    HeightOrder(wdr, wdr + ann, scale, rows);
    HeightOrder(0.0, wdr + ann, scale, rows);
    FourFits(rows);
    var top := EdgeDepth(tot, rows);
    if tot >= 4.0 {
      assert Reaches(tot, 2) && top >= 2;
      assert Pixel(ann, wdr, scale, rows, 1, Other(0)) == Wdr;
    } else if ann == 0.0 || tot <= 1.0 {
      assert w >= tot;
      assert Pixel(ann, wdr, scale, rows, top, Other(0)) == WdrEdge;
    } else {
      assert w < tot;
      assert top == 1 by { if top >= 2 { ReachesDown(tot, top, 2); } }
      forall d: int | 1 <= d <= rows ensures Pixel(ann, wdr, scale, rows, d, Other(0)) !in {Wdr, WdrEdge} {
        if d >= 2 && Reaches(tot, d) { ReachesDown(tot, d, 2); }
      }
    }
  }

  lemma FourFits(rows: nat)
    requires rows >= 2
    ensures RowsSq(rows) >= 4.0
  {
    assert rows * rows >= 2 * rows;
  }

  /** A column that loses its withdrawals: one a second against one announcement, on a chart of ten
      rows with full scale a hundred, is a bar of the square root of two rows. */
  lemma WithdrawalsCanVanish()
    ensures !ShowsWithdrawals(1.0, 1.0, 100.0, 10)
  {
    assert HeightSq(2.0, 100.0, 10) == 2.0;
    WithdrawalsShownIff(1.0, 1.0, 100.0, 10);
  }

  // ----- on the fitted scale

  /** No bar overflows a scale fitted to the peak, and the tallest fills more than three fifths of the
      chart's squared height. */
  lemma FittedScale(v: real, peak: real, rows: nat)
    requires 0.0 <= v <= peak && peak > 0.0 && rows >= 1
    ensures NiceScale(peak) > 0.0
    ensures HeightSq(v, NiceScale(peak), rows) == RawSq(v, NiceScale(peak), rows)
    ensures HeightSq(peak, NiceScale(peak), rows) > 0.6 * RowsSq(rows)
  {
    NiceScaleIsLeast(peak);
    PeakShare(peak, NiceScale(peak), rows);
    RawOrder(v, peak, NiceScale(peak), rows);
  }

  lemma PeakShare(peak: real, scale: real, rows: nat)
    requires 0.0 < peak <= scale && scale * 3.0 < peak * 5.0 && rows >= 1
    ensures 0.6 * RowsSq(rows) < RawSq(peak, scale, rows) <= RowsSq(rows)
  {
    RowsPositive(rows);
    ShareOfScale(peak, scale);
    Between(0.6, peak / scale, 1.0, RowsSq(rows));
  }

  lemma RowsPositive(rows: nat)
    requires rows >= 1
    ensures RowsSq(rows) >= 1.0
  {
    assert rows * rows >= 1;
  }

  lemma ShareOfScale(peak: real, scale: real)
    requires 0.0 < peak <= scale && scale * 3.0 < peak * 5.0
    ensures 0.6 < peak / scale <= 1.0
  {
    var low := 0.6 * scale;
    assert low < peak;
    QuotientOrder(low, peak, scale);
    QuotientOrder(peak, scale, scale);
    OfItself(0.6, scale);
    OfItself(1.0, scale);
  }

  lemma QuotientOrder(a: real, b: real, c: real)
    requires a <= b && c > 0.0
    ensures a / c <= b / c
    ensures a < b ==> a / c < b / c
  {
  }

  lemma OfItself(k: real, c: real)
    requires c > 0.0
    ensures k * c / c == k
  {
  }
}
