/** The verdict of `demos/bikes.py` in plain arithmetic: which totals are compared, and which word each is given. */
module BikesVerdictLaws {
  import opened RealSeq
  import opened Percentiles
  import opened BikesEstimate
  import opened BikesVerdict

  /** What one past day had in each slot up to now, slot by slot times the seconds watched of it today. */
  function Shared(e: Estimate, now: nat, row: seq<real>): (t: seq<real>)
    requires now < |e.cover| == |row|
    ensures |t| == now + 1
  {
    seq(now + 1, s requires 0 <= s <= now => Weighed(row[s], e.cover[s]))
  }

  /** What was booked today in the slots up to now that were watched at all. */
  function BookedSeen(e: Estimate, now: nat): (t: seq<real>)
    requires now < |e.cover| == |e.trips|
    ensures |t| == now + 1
  {
    seq(now + 1, s requires 0 <= s <= now => if e.cover[s] > 0.0 then e.trips[s] else 0.0)
  }

  lemma PartOfSlot(e: Estimate, now: nat, row: seq<real>, s: nat)
    requires WellFormed(e) && now < SLOTS == |row| && s < SLOTS
    ensures Weighed(Max(e.bucket, 1.0), Weighted(e, now, row)[s])
         == if s <= now then Weighed(row[s], e.cover[s]) else 0.0
  {
    var b := Max(e.bucket, 1.0);
    if s <= now && e.cover[s] > 0.0 {
      DivPos(e.cover[s], b);
      ShareOfWhole(row[s], e.cover[s], b);
    } else if s <= now {
      assert e.cover[s] == 0.0;
      assert 0.0 / b == 0.0;
      assert Weighed(row[s], 0.0) == 0.0;
    }
    assert Weighed(b, 0.0) == 0.0;
  }

  lemma ShareOfWhole(x: real, part: real, whole: real)
    requires whole > 0.0
    ensures Weighed(whole, x * (part / whole)) == Weighed(x, part)
  {
    var q := part / whole;
    assert q * whole == part;
    assert whole * (x * q) == x * (q * whole);
  }

  /** One past day's total, in trips times the length of a slot: what it had, slot by slot, for as long as
      today was watched there. */
  lemma TheirsInSeconds(e: Estimate, now: nat, rows: seq<seq<real>>, d: nat)
    requires WellFormed(e) && History(rows) && now < SLOTS && d < |rows|
    ensures Weighed(Max(e.bucket, 1.0), Theirs(e, now, rows)[d]) == Sum(Shared(e, now, rows[d]))
  {
    var a, b := Weighted(e, now, rows[d]), Max(e.bucket, 1.0);
    var c := seq(SLOTS, s requires 0 <= s < SLOTS => Weighed(b, a[s]));
    forall s | 0 <= s < SLOTS ensures c[s] == if s <= now then Weighed(rows[d][s], e.cover[s]) else 0.0 {
      PartOfSlot(e, now, rows[d], s);
    }
    SumWeighed(a, b, c);
    SumOfHead(c, now + 1);
    assert c[..now + 1] == Shared(e, now, rows[d]);
  }

  lemma MineIsBookedSeen(e: Estimate, now: nat)
    requires WellFormed(e) && now < SLOTS
    ensures Mine(e, now) == Sum(BookedSeen(e, now))
  {
    var a := Selected(e, now, e.trips);
    forall s | 0 <= s < SLOTS ensures a[s] == if s <= now && e.cover[s] > 0.0 then e.trips[s] else 0.0 {
      FracSign(e, now, s);
    }
    SumOfHead(a, now + 1);
    assert a[..now + 1] == BookedSeen(e, now);
  }

  lemma FracSign(e: Estimate, now: nat, s: nat)
    requires WellFormed(e) && s < SLOTS
    ensures Frac(e, now, s) > 0.0 <==> s <= now && e.cover[s] > 0.0
  {
    if e.cover[s] > 0.0 { DivPos(e.cover[s], Max(e.bucket, 1.0)); }
  }

  lemma WatchedUpToNow(e: Estimate, now: nat)
    requires WellFormed(e) && now < SLOTS
    ensures Sum(Selected(e, now, e.cover)) == Sum(e.cover[..now + 1])
  {
    var a := Selected(e, now, e.cover);
    forall s | 0 <= s < SLOTS ensures a[s] == if s <= now then e.cover[s] else 0.0 {
      FracSign(e, now, s);
    }
    SumOfHead(a, now + 1);
    assert a[..now + 1] == e.cover[..now + 1];
  }

  /** How far from the median a total may be and still be usual: a tenth of the median at least, else half
      of what lies between the tenth and the ninetieth, and the calibration's own spread on top. */
  function Band(p10: real, p50: real, p90: real, spread: real): real {
    Max(0.1 * p50, (p90 - p10) * 0.5 + Weighed(spread, p50))
  }

  lemma BandOfTolerance(p10: real, p50: real, p90: real, spread: real)
    requires p50 > 0.0
    ensures Bar(p50, 1.0 + Tolerance(p10, p50, p90, spread)) == p50 + Band(p10, p50, p90, spread)
    ensures Bar(p50, 1.0 - Tolerance(p10, p50, p90, spread)) == p50 - Band(p10, p50, p90, spread)
  {
    var half, tol := (p90 - p10) * 0.5, Tolerance(p10, p50, p90, spread);
    BandAsProduct(half, p50, spread);
    assert Weighed(p50, tol) == Band(p10, p50, p90, spread);
    OnePlusMinus(p50, tol);
  }

  lemma OnePlusMinus(p50: real, tol: real)
    ensures Bar(p50, 1.0 + tol) == p50 + Weighed(p50, tol)
    ensures Bar(p50, 1.0 - tol) == p50 - Weighed(p50, tol)
  {
  }

  lemma BandAsProduct(half: real, p50: real, spread: real)
    requires p50 > 0.0
    ensures Weighed(p50, Max(0.1, half / p50 + spread)) == Max(0.1 * p50, half + Weighed(spread, p50))
  {
    var q := half / p50 + spread;
    TimesSum(half, p50, spread);
    if q > 0.1 {
      MulLt(p50, 0.1, q);
      assert p50 * 0.1 < p50 * q;
    } else {
      MulLe(p50, q, 0.1);
      assert p50 * q <= p50 * 0.1;
    }
  }

  lemma TimesSum(half: real, p50: real, spread: real)
    requires p50 > 0.0
    ensures Weighed(p50, half / p50 + spread) == half + Weighed(spread, p50)
  {
    var x := half / p50;
    assert p50 * x == half;
    assert p50 * (x + spread) == p50 * x + p50 * spread;
  }

  /** The word each total is given, for past totals that are what those days had while today was watched. */
  lemma WordForEachTotal(e: Estimate, now: nat, rows: seq<seq<real>>, spread: real, t: seq<real>)
    requires WellFormed(e) && History(rows) && now < SLOTS && |t| == |rows|
    requires forall d :: 0 <= d < |t| ==> Weighed(Max(e.bucket, 1.0), t[d]) == Sum(Shared(e, now, rows[d]))
    ensures var mine, p50 := Sum(BookedSeen(e, now)), Percentile(t, 50.0);
      var band := Band(Percentile(t, 10.0), p50, Percentile(t, 90.0), spread);
      Verdict(e, now, rows, spread) ==
        if Sum(e.cover[..now + 1]) < 7200.0 || p50 <= 0.0 then TooEarly
        else if mine > p50 + band then Busier
        else if mine < p50 - band then Quieter
        else Usual
  {
    forall d | 0 <= d < |t| ensures t[d] == Theirs(e, now, rows)[d] {
      TheirsInSeconds(e, now, rows, d);
      SameWhenWeighed(Max(e.bucket, 1.0), t[d], Theirs(e, now, rows)[d]);
    }
    assert t == Theirs(e, now, rows);
    MineIsBookedSeen(e, now);
    WatchedUpToNow(e, now);
    if Percentile(t, 50.0) > 0.0 {
      BandOfTolerance(Percentile(t, 10.0), Percentile(t, 50.0), Percentile(t, 90.0), spread);
    }
  }

  lemma SameWhenWeighed(b: real, x: real, y: real)
    requires b > 0.0 && Weighed(b, x) == Weighed(b, y)
    ensures x == y
  {
    assert x * b == y * b;
    QuotientOfProduct(x, b);
    QuotientOfProduct(y, b);
  }

  /** A day that booked, slot by slot, the watched share of what every past day had is never called busier or
      quieter, however little of it was watched. */
  lemma ProportionalDayIsUsual(e: Estimate, now: nat, rows: seq<seq<real>>, spread: real)
    requires WellFormed(e) && History(rows) && now < SLOTS
    requires forall d, s :: 0 <= d < |rows| && 0 <= s <= now ==>
      Weighed(Max(e.bucket, 1.0), e.trips[s]) == Weighed(rows[d][s], e.cover[s])
    ensures Verdict(e, now, rows, spread) == Usual || Verdict(e, now, rows, spread) == TooEarly
  {
    var mine := Mine(e, now);
    forall d | 0 <= d < |rows| ensures Theirs(e, now, rows)[d] == mine { SameTotal(e, now, rows, d); }
    PercentileOfConstant(Theirs(e, now, rows), mine, 50.0);
    if !Early(e, now, rows) {
      CompareSilent(mine, mine, Threshold(e, now, rows, spread));
    }
  }

  lemma SameTotal(e: Estimate, now: nat, rows: seq<seq<real>>, d: nat)
    requires WellFormed(e) && History(rows) && now < SLOTS && d < |rows|
    requires forall s :: 0 <= s <= now ==> Weighed(Max(e.bucket, 1.0), e.trips[s]) == Weighed(rows[d][s], e.cover[s])
    ensures Theirs(e, now, rows)[d] == Mine(e, now)
  {
    var b, mine := Max(e.bucket, 1.0), BookedSeen(e, now);
    TheirsInSeconds(e, now, rows, d);
    MineIsBookedSeen(e, now);
    forall s | 0 <= s <= now ensures Shared(e, now, rows[d])[s] == Weighed(b, mine[s]) {
      if e.cover[s] == 0.0 {
        assert Weighed(rows[d][s], 0.0) == 0.0 && Weighed(b, 0.0) == 0.0;
      }
    }
    SumWeighed(mine, b, Shared(e, now, rows[d]));
    SameWhenWeighed(b, Theirs(e, now, rows)[d], Mine(e, now));
  }

  // ----- the slots coverage speaks of

  lemma {:induction false} NothingAfter(e: Estimate, lo: nat, hi: nat, s: nat)
    requires WellFormed(e) && lo < hi <= SLOTS && e.cover[lo] > 0.0 && LastSeen(e, lo, hi) < s < hi
    ensures e.cover[s] == 0.0
  {
    assert 0.0 <= e.cover[hi - 1];
    if s < hi - 1 { NothingAfter(e, lo, hi - 1, s); }
  }

  /** The first and the last slot `coverage` names are the first and the last watched up to now, and it names
      none exactly when none was. */
  lemma CoverageEnds(e: Estimate, now: nat, s: nat)
    requires WellFormed(e) && now < SLOTS && s <= now
    ensures var (first, last, _) := Coverage(e, now);
      && (first.Some? <==> last.Some?) && (first.None? ==> e.cover[s] == 0.0)
      && (first.Some? && e.cover[s] > 0.0 ==> first.value <= s <= last.value)
      && (first.Some? ==> first.value <= last.value <= now && e.cover[first.value] > 0.0 && e.cover[last.value] > 0.0)
  {
    var first := FirstSeen(e, 0, now + 1);
    if s < first { NothingBefore(e, 0, now + 1, s); }
    if first <= now && LastSeen(e, first, now + 1) < s { NothingAfter(e, first, now + 1, s); }
  }
}
