/** One column of the churn chart in `demos/bgp.py`, without roots or heights: which colour each row has, by products. */
module BgpColumns {
  import opened RealSeq
  import opened BgpChart

  /** A value reaches row `d` of `rows`: on a square-root axis its share of full scale is at least `d` squared
      over `rows` squared. */
  predicate UpTo(v: real, scale: real, rows: nat, d: int) {
    Weighed((d * d) as real, scale) <= Weighed(v, (rows * rows) as real)
  }

  lemma RawReaches(v: real, scale: real, rows: nat, hsq: real)
    requires scale > 0.0
    ensures hsq <= RawSq(v, scale, rows) <==> Weighed(hsq, scale) <= Weighed(v, RowsSq(rows))
  {
    var raw := RawSq(v, scale, rows);
    ScaledBack(v, scale, RowsSq(rows));
    OrderWeighed(hsq, raw, scale);
  }

  lemma SquareFits(d: int, rows: nat)
    requires 1 <= d <= rows
    ensures 1 <= d * d <= rows * rows
  {
    var e := rows - d;
    assert rows * rows == d * d + 2 * d * e + e * e;
    assert d * e >= 0 && e * e >= 0;
  }

  /** A bar fills a row of the chart exactly when its value reaches it. */
  lemma BarReaches(v: real, scale: real, rows: nat, d: int)
    requires v >= 0.0 && scale > 0.0 && 1 <= d <= rows
    ensures Reaches(HeightSq(v, scale, rows), d) <==> UpTo(v, scale, rows, d)
  {
    SquareFits(d, rows);
    RawReaches(v, scale, rows, (d * d) as real);
  }

  /** The bar stands on the floor, and is a row tall at least. */
  predicate Covers(total: real, scale: real, rows: nat, d: int) {
    total > 0.0 && (d == 1 || UpTo(total, scale, rows, d))
  }

  predicate IsTop(total: real, scale: real, rows: nat, d: int) {
    Covers(total, scale, rows, d) && (d == rows || !UpTo(total, scale, rows, d + 1))
  }

  /** Withdrawals take the outline when they are the whole bar: there is nothing else, or they overflow the
      chart, or the bar is no more than their own one row. */
  predicate AllWithdrawn(ann: real, wdr: real, scale: real, rows: nat) {
    wdr > 0.0 && (ann == 0.0 || wdr >= scale || rows == 1 || !Above(wdr + ann, scale, rows))
  }

  /** Taller than one row. */
  predicate Above(total: real, scale: real, rows: nat) { scale < Weighed(total, (rows * rows) as real) }

  lemma TopIs(ann: real, wdr: real, scale: real, rows: nat, d: int)
    requires ann >= 0.0 && wdr >= 0.0 && scale > 0.0 && 1 <= d <= rows
    ensures d == TopRow(ann, wdr, scale, rows) <==> IsTop(wdr + ann, scale, rows, d)
    ensures wdr + ann > 0.0 && d < TopRow(ann, wdr, scale, rows) ==> UpTo(wdr + ann, scale, rows, d)
    ensures d <= TopRow(ann, wdr, scale, rows) <==> Covers(wdr + ann, scale, rows, d)
  {
    var total := wdr + ann;
    if total > 0.0 {
      var h := HeightSq(total, scale, rows);
      var n := WholeRows(h, rows);
      BarReaches(total, scale, rows, d);
      if d < rows { BarReaches(total, scale, rows, d + 1); }
      if d <= n { ReachesDown(h, n, d); }
      if d + 1 <= n { ReachesDown(h, n, d + 1); }
    }
  }

  lemma WithdrawnIs(ann: real, wdr: real, scale: real, rows: nat)
    requires ann >= 0.0 && wdr >= 0.0 && wdr + ann > 0.0 && scale > 0.0 && rows >= 1
    ensures WdrSq(wdr, wdr + ann, scale, rows) >= HeightSq(wdr + ann, scale, rows) <==> AllWithdrawn(ann, wdr, scale, rows)
  {
    HeightOrder(wdr, wdr + ann, scale, rows);
    HeightOrder(0.0, wdr + ann, scale, rows);
    if wdr > 0.0 {
      FullAt(wdr, scale, rows);
      OneRowAt(wdr + ann, scale, rows);
      if ann > 0.0 { RawOrder(wdr, wdr + ann, scale, rows); }
    }
  }

  lemma FullAt(v: real, scale: real, rows: nat)
    requires v >= 0.0 && scale > 0.0 && rows >= 1
    ensures RawSq(v, scale, rows) >= RowsSq(rows) <==> v >= scale
  {
    RawReaches(v, scale, rows, RowsSq(rows));
    RowsPositive(rows);
    OrderWeighed(scale, v, RowsSq(rows));
    assert Weighed(RowsSq(rows), scale) == Weighed(scale, RowsSq(rows));
  }

  lemma OneRowAt(v: real, scale: real, rows: nat)
    requires v >= 0.0 && scale > 0.0 && rows >= 1
    ensures HeightSq(v, scale, rows) <= 1.0 <==> rows == 1 || !Above(v, scale, rows)
  {
    ScaledBack(v, scale, RowsSq(rows));
    OrderWeighed(RawSq(v, scale, rows), 1.0, scale);
    if rows > 1 { SquareFits(2, rows); }
  }

  /** Every row of a column, by products alone. */
  lemma ColumnIs(ann: real, wdr: real, scale: real, rows: nat, d: int, was: Ink)
    requires ann >= 0.0 && wdr >= 0.0 && scale > 0.0 && 1 <= d <= rows && was.Other?
    ensures Pixel(ann, wdr, scale, rows, d, was) ==
      if IsTop(wdr + ann, scale, rows, d) then (if AllWithdrawn(ann, wdr, scale, rows) then WdrEdge else AnnEdge)
      else if !Covers(wdr + ann, scale, rows, d) then was
      else if wdr > 0.0 && (d == 1 || UpTo(wdr, scale, rows, d)) then Wdr
      else Ann
  {
    ColumnIsOneRun(ann, wdr, scale, rows, d, was);
    TopIs(ann, wdr, scale, rows, d);
    if wdr + ann > 0.0 {
      HeightOrder(wdr + ann, wdr + ann, scale, rows);
      WithdrawnIs(ann, wdr, scale, rows);
      BarReaches(wdr + ann, scale, rows, d);
      BarReaches(wdr, scale, rows, d);
      HeightOrder(0.0, wdr, scale, rows);
      SquareFits(d, rows);
    }
  }
}
