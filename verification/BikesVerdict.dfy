/** The verdict on today: its total against past days, cut down to what was seen of today. */
module BikesVerdict {
  import opened Options
  import opened RealSeq
  import opened Percentiles
  import opened BikesEstimate
  import BikesEstimateLaws

  const VERDICT_MIN_H := 2.0
  const VERDICT_FLOOR := 0.10

  datatype Word = TooEarly | Quieter | Usual | Busier

  ghost predicate WellFormed(e: Estimate) {
    && |e.rate| == |e.cover| == |e.trips| == SLOTS && e.bucket > 0.0
    && forall s :: 0 <= s < SLOTS ==> 0.0 <= e.cover[s] <= e.bucket
  }

  // ----- coverage

  function FirstSeen(e: Estimate, lo: nat, hi: nat): (s: nat)
    requires lo <= hi <= |e.cover|
    ensures lo <= s <= hi
    ensures s < hi ==> e.cover[s] > 0.0
    decreases hi - lo
  {
    if lo == hi || e.cover[lo] > 0.0 then lo else FirstSeen(e, lo + 1, hi)
  }

  function LastSeen(e: Estimate, lo: nat, hi: nat): (s: nat)
    requires lo < hi <= |e.cover| && e.cover[lo] > 0.0
    ensures lo <= s < hi && e.cover[s] > 0.0
  {
    if e.cover[hi - 1] > 0.0 then hi - 1 else LastSeen(e, lo, hi - 1)
  }

  function Elapsed(n: nat, bucket: real): (secs: real)
    ensures n > 0 && bucket > 0.0 ==> secs > 0.0
  {
    n as real * bucket
  }

  /** Seconds watched over seconds elapsed, with a ceiling of one. */
  function Fraction(watched: real, elapsed: real): real
    requires elapsed > 0.0
  {
    Min(1.0, Quotient(watched, elapsed))
  }

  function Quotient(watched: real, elapsed: real): real
    requires elapsed > 0.0
  {
    watched / elapsed
  }

  /** `coverage`: first and last seen slots up to now, and the fraction of seconds watched since. */
  function Coverage(e: Estimate, now: nat): (c: (Option<nat>, Option<nat>, real))
    requires WellFormed(e) && now < SLOTS
  {
    var first := FirstSeen(e, 0, now + 1);
    if first == now + 1 then (None, None, 0.0)
    else
      (Some(first), Some(LastSeen(e, first, now + 1)), Fraction(Sum(e.cover[first..now + 1]), Elapsed(now + 1 - first, e.bucket)))
  }

  lemma SumOfLevel(n: nat, v: real)
    ensures Sum(Level(n, v)) == Elapsed(n, v)
  {
    SumConst(Level(n, v), v);
  }

  lemma FullyWatched(part: seq<real>, bucket: real)
    requires forall s :: 0 <= s < |part| ==> 0.0 <= part[s] <= bucket
    ensures 0.0 <= Sum(part) <= Sum(Level(|part|, bucket))
    ensures Sum(part) == Sum(Level(|part|, bucket)) <==> part == Level(|part|, bucket)
  {
    var none, whole := Level(|part|, 0.0), Level(|part|, bucket);
    SumConst(none, 0.0);
    SumLe(none, part);
    SumLe(part, whole);
    if s :| 0 <= s < |part| && part[s] != bucket {
      SumLt(part, whole, s);
    }
  }

  lemma FractionExact(watched: real, elapsed: real)
    requires 0.0 <= watched <= elapsed && elapsed > 0.0
    ensures 0.0 <= Fraction(watched, elapsed) <= 1.0
    ensures Fraction(watched, elapsed) == Quotient(watched, elapsed)
    ensures Fraction(watched, elapsed) == 1.0 <==> watched == elapsed
  {
    PartOfWhole(watched, elapsed);
  }

  lemma FractionOfDay(part: seq<real>, bucket: real, elapsed: real)
    requires |part| > 0 && bucket > 0.0 && elapsed == Sum(Level(|part|, bucket)) > 0.0
    requires forall s :: 0 <= s < |part| ==> 0.0 <= part[s] <= bucket
    ensures 0.0 <= Fraction(Sum(part), elapsed) <= 1.0
    ensures Fraction(Sum(part), elapsed) == Quotient(Sum(part), elapsed)
    ensures Fraction(Sum(part), elapsed) == 1.0 <==> part == Level(|part|, bucket)
  {
    FullyWatched(part, bucket);
    FractionExact(Sum(part), elapsed);
  }

  /** The fraction never needs its ceiling, and is whole only if every slot was watched throughout. */
  lemma CoverageFraction(e: Estimate, now: nat, first: nat)
    requires WellFormed(e) && now < SLOTS && Coverage(e, now).0 == Some(first)
    ensures first <= now && e.cover[first] > 0.0
    ensures forall s :: 0 <= s < first ==> e.cover[s] == 0.0
    ensures 0.0 <= Coverage(e, now).2 <= 1.0
    ensures Coverage(e, now).2 == Quotient(Sum(e.cover[first..now + 1]), Elapsed(now + 1 - first, e.bucket))
    ensures Coverage(e, now).2 == 1.0 <==> forall s :: first <= s <= now ==> e.cover[s] == e.bucket
  {
    CoverageStarts(e, now, first);
    var part := e.cover[first..now + 1];
    SumOfLevel(|part|, e.bucket);
    FractionOfDay(part, e.bucket, Elapsed(|part|, e.bucket));
    AllEqual(e.cover, first, now + 1, e.bucket);
  }

  lemma CoverageStarts(e: Estimate, now: nat, first: nat)
    requires WellFormed(e) && now < SLOTS && Coverage(e, now).0 == Some(first)
    ensures first <= now && e.cover[first] > 0.0
    ensures forall s :: 0 <= s < first ==> e.cover[s] == 0.0
    ensures Coverage(e, now).2 == Fraction(Sum(e.cover[first..now + 1]), Elapsed(now + 1 - first, e.bucket))
  {
    forall s | 0 <= s < first ensures e.cover[s] == 0.0 { NothingBefore(e, 0, now + 1, s); }
  }

  lemma AllEqual(xs: seq<real>, lo: nat, hi: nat, v: real)
    requires lo < hi <= |xs|
    ensures xs[lo..hi] == Level(hi - lo, v) <==> forall s :: lo <= s <= hi - 1 ==> xs[s] == v
  {
    if xs[lo..hi] == Level(hi - lo, v) {
      forall s | lo <= s <= hi - 1 ensures xs[s] == v {
        assert xs[s] == xs[lo..hi][s - lo];
      }
    }
  }

  lemma {:induction false} NothingBefore(e: Estimate, lo: nat, hi: nat, s: nat)
    requires WellFormed(e) && lo <= hi <= SLOTS && lo <= s < FirstSeen(e, lo, hi)
    ensures e.cover[s] == 0.0
    decreases hi - lo
  {
    assert 0.0 <= e.cover[lo];
    if lo < s { NothingBefore(e, lo + 1, hi, s); }
  }

  // ----- verdict

  /** How much of slot `s` was watched, up to now: the comparison's weight for that slot. */
  function Frac(e: Estimate, now: nat, s: nat): real
    requires s < |e.cover|
  {
    if s > now then 0.0 else e.cover[s] / Max(e.bucket, 1.0)
  }

  function Selected(e: Estimate, now: nat, values: seq<real>): seq<real>
    requires |values| == |e.cover|
  {
    seq(|values|, s requires 0 <= s < |values| => if Frac(e, now, s) > 0.0 then values[s] else 0.0)
  }

  function Mine(e: Estimate, now: nat): real
    requires |e.trips| == |e.cover|
  {
    Sum(Selected(e, now, e.trips))
  }

  function Weighted(e: Estimate, now: nat, row: seq<real>): seq<real>
    requires |row| == |e.cover|
  {
    seq(|row|, s requires 0 <= s < |row| => if Frac(e, now, s) > 0.0 then row[s] * Frac(e, now, s) else 0.0)
  }

  ghost predicate History(rows: seq<seq<real>>) {
    |rows| > 0 && forall d :: 0 <= d < |rows| ==> |rows[d]| == SLOTS
  }

  function Theirs(e: Estimate, now: nat, rows: seq<seq<real>>): (t: seq<real>)
    requires |e.cover| == SLOTS && History(rows)
    ensures |t| == |rows|
  {
    seq(|rows|, d requires 0 <= d < |rows| => Sum(Weighted(e, now, rows[d])))
  }

  function Tolerance(p10: real, p50: real, p90: real, spread: real): real
    requires p50 > 0.0
  {
    Max(VERDICT_FLOOR, (p90 - p10) * 0.5 / p50 + spread)
  }

  /** The two thresholds, applied to today's total. */
  function Compare(mine: real, p50: real, tol: real): Word {
    if mine > Bar(p50, 1.0 + tol) then Busier
    else if mine < Bar(p50, 1.0 - tol) then Quieter
    else Usual
  }

  function Bar(p50: real, factor: real): real { p50 * factor }

  predicate Early(e: Estimate, now: nat, rows: seq<seq<real>>)
    requires WellFormed(e) && History(rows)
  {
    || Sum(Selected(e, now, e.cover)) < VERDICT_MIN_H * 3600.0
    || Percentile(Theirs(e, now, rows), 50.0) <= 0.0
  }

  function Threshold(e: Estimate, now: nat, rows: seq<seq<real>>, spread: real): (tol: real)
    requires WellFormed(e) && History(rows) && !Early(e, now, rows)
    ensures tol >= VERDICT_FLOOR
  {
    var t := Theirs(e, now, rows);
    Tolerance(Percentile(t, 10.0), Percentile(t, 50.0), Percentile(t, 90.0), spread)
  }

  function Verdict(e: Estimate, now: nat, rows: seq<seq<real>>, spread: real): Word
    requires WellFormed(e) && History(rows)
  {
    if Early(e, now, rows) then TooEarly
    else Compare(Mine(e, now), Percentile(Theirs(e, now, rows), 50.0), Threshold(e, now, rows, spread))
  }

  predicate NotBusierThan(v: Word, w: Word) {
    match v
    case TooEarly => w == TooEarly
    case Quieter => w != TooEarly
    case Usual => w == Usual || w == Busier
    case Busier => w == Busier
  }

  lemma CompareMonotone(a: real, b: real, p50: real, tol: real)
    requires a <= b && p50 > 0.0 && tol >= VERDICT_FLOOR
    ensures NotBusierThan(Compare(a, p50, tol), Compare(b, p50, tol))
  {
    var lo, hi := 1.0 - tol, 1.0 + tol;
    MulLt(p50, lo, hi);
    assert p50 * lo < p50 * hi;
  }

  /** More trips today never makes the verdict quieter, whatever slots they are booked in. */
  lemma VerdictMonotone(e: Estimate, trips: seq<real>, now: nat, rows: seq<seq<real>>, spread: real)
    requires WellFormed(e) && History(rows) && |trips| == SLOTS
    requires Mine(e, now) <= Mine(e.(trips := trips), now)
    ensures NotBusierThan(Verdict(e, now, rows, spread), Verdict(e.(trips := trips), now, rows, spread))
  {
    SameHistory(e, trips, now, rows);
    if !Early(e, now, rows) {
      CompareMonotone(Mine(e, now), Mine(e.(trips := trips), now), Percentile(Theirs(e, now, rows), 50.0),
                      Threshold(e, now, rows, spread));
    }
  }

  /** The historical side reads the coverage of the estimate and nothing else. */
  lemma SameHistory(e: Estimate, trips: seq<real>, now: nat, rows: seq<seq<real>>)
    requires WellFormed(e) && History(rows) && |trips| == SLOTS
    ensures Selected(e.(trips := trips), now, e.cover) == Selected(e, now, e.cover)
    ensures Theirs(e.(trips := trips), now, rows) == Theirs(e, now, rows)
  {
    var e' := e.(trips := trips);
    forall d | 0 <= d < |rows| ensures Theirs(e', now, rows)[d] == Theirs(e, now, rows)[d] {
      var a, b := Weighted(e', now, rows[d]), Weighted(e, now, rows[d]);
      assert forall s :: 0 <= s < SLOTS ==> Frac(e', now, s) == Frac(e, now, s) && a[s] == b[s];
      assert a == b;
    }
  }

  lemma CompareSilent(mine: real, p50: real, tol: real)
    requires p50 > 0.0 && tol >= VERDICT_FLOOR
    requires 0.9 * p50 <= mine <= 1.1 * p50
    ensures Compare(mine, p50, tol) == Usual
  {
    MulLe(p50, 1.1, 1.0 + tol);
    MulLe(p50, 1.0 - tol, 0.9);
    assert Bar(p50, 1.0 - tol) <= p50 * 0.9;
    assert p50 * 1.1 <= Bar(p50, 1.0 + tol);
  }

  /** Within ten per cent of the historical median over the same slots, the panel says nothing. */
  lemma VerdictSilent(e: Estimate, now: nat, rows: seq<seq<real>>, spread: real)
    requires WellFormed(e) && History(rows)
    ensures var v, p50 := Verdict(e, now, rows, spread), Percentile(Theirs(e, now, rows), 50.0);
      0.9 * p50 <= Mine(e, now) <= 1.1 * p50 ==> v == Usual || v == TooEarly
  {
    if !Early(e, now, rows) {
      var p50 := Percentile(Theirs(e, now, rows), 50.0);
      if 0.9 * p50 <= Mine(e, now) <= 1.1 * p50 {
        CompareSilent(Mine(e, now), p50, Threshold(e, now, rows, spread));
      }
    }
  }

  // ----- changing the unit of both sides

  function ScaledRows(rows: seq<seq<real>>, c: real): (r: seq<seq<real>>)
    ensures |r| == |rows|
    ensures History(rows) ==> History(r)
  {
    seq(|rows|, d requires 0 <= d < |rows| => Map(Times(c), rows[d]))
  }

  lemma WeightedScaled(e: Estimate, now: nat, row: seq<real>, c: real)
    requires |row| == |e.cover|
    ensures Sum(Weighted(e, now, Map(Times(c), row))) == Times(c)(Sum(Weighted(e, now, row)))
  {
    var a, b := Weighted(e, now, row), Weighted(e, now, Map(Times(c), row));
    forall s | 0 <= s < |row| ensures b[s] == c * a[s] { WeightScaled(e, now, row, c, s); }
    SumScaled(a, c, b);
  }

  lemma WeightScaled(e: Estimate, now: nat, row: seq<real>, c: real, s: nat)
    requires |row| == |e.cover| && s < |row|
    ensures Weighted(e, now, Map(Times(c), row))[s] == c * Weighted(e, now, row)[s]
  {
    MulAssoc(c, row[s], Frac(e, now, s));
  }

  lemma MineScaled(e: Estimate, now: nat, c: real)
    requires WellFormed(e)
    ensures Mine(e.(trips := Map(Times(c), e.trips)), now) == Times(c)(Mine(e, now))
  {
    var e' := e.(trips := Map(Times(c), e.trips));
    var a, b := Selected(e, now, e.trips), Selected(e', now, e'.trips);
    forall s | 0 <= s < SLOTS ensures b[s] == c * a[s] {
    }
    SumScaled(a, c, b);
    assert Sum(b) == c * Sum(a);
  }

  lemma CompareScaled(mine: real, p10: real, p50: real, p90: real, spread: real, c: real)
    requires c > 0.0 && p50 > 0.0
    ensures Times(c)(p50) > 0.0
    ensures Compare(Times(c)(mine), Times(c)(p50), Tolerance(Times(c)(p10), Times(c)(p50), Times(c)(p90), spread))
         == Compare(mine, p50, Tolerance(p10, p50, p90, spread))
  {
    ToleranceScaled(p10, p50, p90, spread, c);
    CompareAtScale(mine, p50, Tolerance(p10, p50, p90, spread), c);
  }

  lemma CompareAtScale(mine: real, p50: real, tol: real, c: real)
    requires c > 0.0
    ensures Compare(Times(c)(mine), Times(c)(p50), tol) == Compare(mine, p50, tol)
  {
    BarScaled(p50, 1.0 + tol, c);
    BarScaled(p50, 1.0 - tol, c);
    SameOrder(mine, Bar(p50, 1.0 + tol), c);
    SameOrder(mine, Bar(p50, 1.0 - tol), c);
  }

  lemma BarScaled(p50: real, factor: real, c: real)
    ensures Bar(Times(c)(p50), factor) == Times(c)(Bar(p50, factor))
  {
    assert c * p50 * factor == c * (p50 * factor);
  }

  lemma SameOrder(x: real, y: real, c: real)
    requires c > 0.0
    ensures (Times(c)(x) > Times(c)(y)) == (x > y) && (Times(c)(x) < Times(c)(y)) == (x < y)
  {
    if x < y { MulLt(c, x, y); assert c * x < c * y; }
    if y < x { MulLt(c, y, x); assert c * y < c * x; }
  }

  lemma ToleranceScaled(p10: real, p50: real, p90: real, spread: real, c: real)
    requires c > 0.0 && p50 > 0.0
    ensures Times(c)(p50) > 0.0
    ensures Tolerance(Times(c)(p10), Times(c)(p50), Times(c)(p90), spread) == Tolerance(p10, p50, p90, spread)
  {
    var a := (p90 - p10) * 0.5;
    RatioScaled(a, p50, c);
    assert (c * a) / (c * p50) == a / p50;
    assert (c * p90 - c * p10) * 0.5 == c * a;
  }

  lemma RatioScaled(a: real, b: real, c: real)
    requires b > 0.0 && c > 0.0
    ensures c * b > 0.0 && (c * a) / (c * b) == a / b
  {
    var r := a / b;
    assert r * b == a;
    assert r * (c * b) == c * a;
  }

  /** Counting today and every past day in another unit does not change the verdict. */
  lemma VerdictScaleInvariant(e: Estimate, now: nat, rows: seq<seq<real>>, spread: real, c: real)
    requires WellFormed(e) && History(rows) && c > 0.0
    ensures Verdict(e.(trips := Map(Times(c), e.trips)), now, ScaledRows(rows, c), spread)
         == Verdict(e, now, rows, spread)
  {
    var e', rows' := e.(trips := Map(Times(c), e.trips)), ScaledRows(rows, c);
    var t := Theirs(e, now, rows);
    SameHistory(e, e'.trips, now, rows');
    TheirsScaled(e, now, rows, c);
    PercentileScaled(t, c, 10.0);
    PercentileScaled(t, c, 50.0);
    PercentileScaled(t, c, 90.0);
    MineScaled(e, now, c);
    SameHistory(e, e'.trips, now, rows);
    SignScaled(c, Percentile(t, 50.0));
    if !Early(e, now, rows) {
      CompareScaled(Mine(e, now), Percentile(t, 10.0), Percentile(t, 50.0), Percentile(t, 90.0), spread, c);
    }
  }

  lemma TheirsScaled(e: Estimate, now: nat, rows: seq<seq<real>>, c: real)
    requires WellFormed(e) && History(rows)
    ensures Theirs(e, now, ScaledRows(rows, c)) == Map(Times(c), Theirs(e, now, rows))
  {
    forall d | 0 <= d < |rows|
      ensures Theirs(e, now, ScaledRows(rows, c))[d] == Times(c)(Theirs(e, now, rows)[d])
    {
      WeightedScaled(e, now, rows[d], c);
    }
  }

  lemma SignScaled(c: real, x: real)
    requires c > 0.0
    ensures Times(c)(x) <= 0.0 <==> x <= 0.0
  {
    if x > 0.0 { assert c * x > 0.0; } else { MulLe(c, x, 0.0); assert c * x <= 0.0; }
  }

  // ----- the headline

  /** A slot that was booked in was also watched, so the selection drops nothing up to now. */
  lemma SelectedIsBooked(r: Record, now: nat, s: nat)
    requires r.Valid() && now < SLOTS && s < SLOTS
    ensures Selected(r.Result(), now, r.Result().trips)[s] == if s <= now then r.Result().trips[s] else 0.0
  {
    var e := r.Result();
    BikesEstimateLaws.BookedImpliesRaw(r, SLOTS, s);
    if s <= now && e.cover[s] > 0.0 { DivPos(e.cover[s], Max(e.bucket, 1.0)); }
  }

  /** The verdict compares the booked total less what is booked in slots after now. */
  lemma MineIsTotalUpToNow(r: Record, now: nat)
    requires r.Valid() && now < SLOTS
    ensures Mine(r.Result(), now) == Sum(r.Result().trips[..now + 1])
  {
    var trips := r.Result().trips;
    var a := Selected(r.Result(), now, trips);
    forall s | 0 <= s < SLOTS ensures a[s] == if s <= now then trips[s] else 0.0 {
      SelectedIsBooked(r, now, s);
    }
    SumOfHead(a, now + 1);
    assert a[..now + 1] == trips[..now + 1];
  }

  /** When no measurement is later than now, it is exactly the total the headline prints. */
  lemma VerdictComparesTheHeadline(r: Record, now: nat)
    requires r.Valid() && now < SLOTS
    requires forall i: nat :: r.Read(i) ==> i <= now
    ensures WellFormed(r.Result())
    ensures Mine(r.Result(), now) == Sum(r.Result().trips) == BikesEstimateLaws.TotalEst(r, SLOTS)
  {
    MineIsTotalUpToNow(r, now);
    NothingBookedLater(r, now);
    BikesEstimateLaws.BookedOnce(r, SLOTS);
    assert r.Result().trips == BikesEstimateLaws.BookedRow(r, SLOTS);
    ResultWellFormed(r);
  }

  lemma NothingBookedLater(r: Record, now: nat)
    requires r.Valid() && now < SLOTS
    requires forall i: nat :: r.Read(i) ==> i <= now
    ensures Sum(r.Result().trips) == Sum(r.Result().trips[..now + 1])
  {
    var t := r.Result().trips;
    forall s | now + 1 <= s < SLOTS ensures t[s] == 0.0 {
      BikesEstimateLaws.BookedNotBefore(r, SLOTS, s, now);
    }
    SumOfHead(t, now + 1);
  }

  lemma ResultWellFormed(r: Record)
    requires r.Valid()
    ensures WellFormed(r.Result())
  {
    forall s | 0 <= s < SLOTS ensures 0.0 <= r.Result().cover[s] <= r.bucket {
      BikesEstimateLaws.CoverBounds(r, SLOTS, s);
    }
  }
}
