/** The typical day of `demos/bikes.py`: smoothing, percentiles, calibration and the chart's scale. */
module BikesHistory {
  import opened RealSeq
  import opened Interpolation
  import opened Percentiles
  import opened BikesEstimate

  // ----- smoothing one date

  /** Element `i` of the row with its ends held for `pad` further slots on either side. */
  function Held(row: seq<real>, pad: nat, i: int): real
    requires |row| > 0
  {
    var j := i - pad;
    if j < 0 then row[0] else if j >= |row| then row[|row| - 1] else row[j]
  }

  function Window(row: seq<real>, width: nat, s: nat): (w: seq<real>)
    requires |row| > 0
    ensures |w| == width && forall k :: 0 <= k < width ==> w[k] == Held(row, width / 2, s + k)
  {
    seq(width, k => Held(row, width / 2, s + k))
  }

  function Mean(w: seq<real>): real
    requires |w| > 0
  {
    Sum(w) / |w| as real
  }

  /** A width `smooth` accepts: with an even one the filtered row does not fit its place and it fails. */
  predicate Accepted(width: nat) { width <= 1 || width % 2 == 1 }

  /** A centred moving mean, the ends held. */
  function Smoothed(row: seq<real>, width: nat): (r: seq<real>)
    requires |row| > 0 && Accepted(width)
    ensures |r| == |row|
  {
    if width <= 1 then row
    else seq(|row|, s requires 0 <= s < |row| => Mean(Window(row, width, s)))
  }

  /** `smooth`: every date becomes its centred moving mean. */
  method Smooth(rows: seq<seq<real>>, width: nat) returns (out: seq<seq<real>>)
    requires Accepted(width)
    requires forall i :: 0 <= i < |rows| ==> |rows[i]| > 0
    ensures |out| == |rows|
    ensures forall i :: 0 <= i < |rows| ==> out[i] == Smoothed(rows[i], width)
  {
    if width <= 1 {
      return rows;
    }
    var filled := new seq<real>[|rows|];
    for i := 0 to |rows|
      invariant forall k :: 0 <= k < i ==> filled[k] == Smoothed(rows[k], width)
    {
      filled[i] := SmoothRow(rows[i], width);
    }
    out := filled[..];
  }

  /** One date: repeat its end values on either side, then convolve with a flat kernel. */
  method SmoothRow(row: seq<real>, width: nat) returns (mean: seq<real>)
    requires |row| > 0 && width > 1 && Accepted(width)
    ensures mean == Smoothed(row, width)
  {
    var pad := width / 2;
    var wide := Level(pad, row[0]) + row + Level(pad, row[|row| - 1]);
    assert wide == Wide(row, pad);
    mean := Convolve(wide, Kernel(width));
    FlatKernelIsMean(row, width, mean);
  }

  /** The first `n` products of a kernel, read backwards, laid over `wide` from `s` on. */
  function Dot(wide: seq<real>, kernel: seq<real>, s: nat, n: nat): real
    requires n <= |kernel| && s + |kernel| <= |wide|
  {
    if n == 0 then 0.0 else Dot(wide, kernel, s, n - 1) + Weighed(wide[s + n - 1], kernel[|kernel| - n])
  }

  /** `np.convolve(wide, kernel, mode="valid")`: a value for each place the whole kernel fits. */
  method Convolve(wide: seq<real>, kernel: seq<real>) returns (out: seq<real>)
    requires 0 < |kernel| <= |wide|
    ensures |out| == |wide| - |kernel| + 1
    ensures forall s :: 0 <= s < |out| ==> out[s] == Dot(wide, kernel, s, |kernel|)
  {
    out := [];
    for s := 0 to |wide| - |kernel| + 1
      invariant |out| == s
      invariant forall t :: 0 <= t < s ==> out[t] == Dot(wide, kernel, t, |kernel|)
    {
      var sum := 0.0;
      for n := 0 to |kernel|
        invariant sum == Dot(wide, kernel, s, n)
      {
        sum := sum + Weighed(wide[s + n], kernel[|kernel| - 1 - n]);
      }
      out := out + [sum];
    }
  }

  lemma {:induction false} DotOfLevel(wide: seq<real>, width: nat, v: real, s: nat, n: nat)
    requires n <= width && s + width <= |wide|
    ensures Dot(wide, Level(width, v), s, n) == Weighed(Sum(wide[s..s + n]), v)
  {
    if n > 0 {
      DotOfLevel(wide, width, v, s, n - 1);
      assert wide[s..s + n][..n - 1] == wide[s..s + n - 1];
      assert Level(width, v)[width - n] == v;
      WeighedSplits(Sum(wide[s..s + n - 1]), wide[s + n - 1], v);
    } else {
      assert Weighed(0.0, v) == 0.0;
    }
  }

  /** The flat kernel: as many equal weights as the window is wide. */
  function Kernel(width: nat): (kernel: seq<real>)
    requires width > 0
    ensures |kernel| == width
  {
    Level(width, 1.0 / width as real)
  }

  /** The row with each end repeated `pad` times. */
  function Wide(row: seq<real>, pad: nat): (wide: seq<real>)
    requires |row| > 0
    ensures |wide| == |row| + 2 * pad && forall i :: 0 <= i < |wide| ==> wide[i] == Held(row, pad, i)
  {
    Level(pad, row[0]) + row + Level(pad, row[|row| - 1])
  }

  lemma WideWindow(row: seq<real>, width: nat, s: nat)
    requires |row| > s && width > 1 && Accepted(width)
    ensures Wide(row, width / 2)[s..s + width] == Window(row, width, s)
  {
  }

  lemma MeanOfHeld(row: seq<real>, width: nat, s: nat)
    requires |row| > s && width > 1 && Accepted(width)
    ensures Dot(Wide(row, width / 2), Kernel(width), s, width) == Mean(Window(row, width, s))
  {
    WideWindow(row, width, s);
    DotOfLevel(Wide(row, width / 2), width, 1.0 / width as real, s, width);
    WeighedReciprocal(Sum(Window(row, width, s)), width as real);
  }

  /** A flat kernel over the lengthened row gives the mean of the held window, slot by slot. */
  lemma FlatKernelIsMean(row: seq<real>, width: nat, out: seq<real>)
    requires |row| > 0 && width > 1 && Accepted(width)
    requires |out| == |row| + 2 * (width / 2) - width + 1
    requires forall s :: 0 <= s < |out| ==>
      out[s] == Dot(Wide(row, width / 2), Kernel(width), s, width)
    ensures out == Smoothed(row, width)
  {
    forall s | 0 <= s < |row| ensures out[s] == Mean(Window(row, width, s)) {
      MeanOfHeld(row, width, s);
    }
  }

  lemma MeanMonotone(a: seq<real>, b: seq<real>)
    requires Below(a, b) && |a| > 0
    ensures Mean(a) <= Mean(b)
  {
    SumLe(a, b);
    DivMonotone(Sum(a), Sum(b), |a| as real);
  }

  lemma WindowMonotone(a: seq<real>, b: seq<real>, width: nat, s: nat)
    requires Below(a, b) && |a| > 0
    ensures Below(Window(a, width, s), Window(b, width, s))
  {
  }

  /** A date that is nowhere busier than another is nowhere busier after smoothing. */
  lemma SmoothMonotone(a: seq<real>, b: seq<real>, width: nat)
    requires Below(a, b) && |a| > 0 && Accepted(width)
    ensures Below(Smoothed(a, width), Smoothed(b, width))
  {
    if width > 1 {
      forall s | 0 <= s < |a| ensures Smoothed(a, width)[s] <= Smoothed(b, width)[s] {
        WindowMonotone(a, b, width, s);
        MeanMonotone(Window(a, width, s), Window(b, width, s));
      }
    }
  }

  lemma MeanOfConstant(w: seq<real>, v: real)
    requires |w| > 0 && forall i :: 0 <= i < |w| ==> w[i] == v
    ensures Mean(w) == v
  {
    SumConst(w, v);
    var m := |w| as real;
    assert Sum(w) == m * v;
    assert m * v / m == v;
  }

  lemma SmoothOfConstant(n: nat, v: real, width: nat)
    requires n > 0 && Accepted(width)
    ensures Smoothed(Level(n, v), width) == Level(n, v)
  {
    if width > 1 {
      forall s | 0 <= s < n ensures Smoothed(Level(n, v), width)[s] == v {
        MeanOfConstant(Window(Level(n, v), width, s), v);
      }
    }
  }

  /** Smoothing never leaves the range of the date it smooths, held ends included. */
  lemma SmoothBounds(row: seq<real>, width: nat, lo: real, hi: real)
    requires |row| > 0 && Accepted(width)
    requires forall s :: 0 <= s < |row| ==> lo <= row[s] <= hi
    ensures forall s :: 0 <= s < |row| ==> lo <= Smoothed(row, width)[s] <= hi
  {
    var n := |row|;
    SmoothMonotone(Level(n, lo), row, width);
    SmoothMonotone(row, Level(n, hi), width);
    SmoothOfConstant(n, lo, width);
    SmoothOfConstant(n, hi, width);
  }

  function Reversed(s: seq<real>): (r: seq<real>)
    ensures |r| == |s| && forall i :: 0 <= i < |s| ==> r[i] == s[|s| - 1 - i]
  {
    seq(|s|, i requires 0 <= i < |s| => s[|s| - 1 - i])
  }

  lemma {:induction false} SumReversed(s: seq<real>)
    ensures Sum(Reversed(s)) == Sum(s)
  {
    if s != [] {
      var init, last := s[..|s| - 1], s[|s| - 1];
      SumReversed(init);
      assert Reversed(s) == [last] + Reversed(init);
      SumConcat([last], Reversed(init));
      assert Sum([last]) == Sum([]) + last;
    }
  }

  /** The mean is centred: smoothing a day read backwards is the smoothed day read backwards. */
  lemma SmoothIsCentred(row: seq<real>, width: nat)
    requires |row| > 0 && Accepted(width)
    ensures Smoothed(Reversed(row), width) == Reversed(Smoothed(row, width))
  {
    if width > 1 {
      forall s | 0 <= s < |row| ensures Smoothed(Reversed(row), width)[s] == Reversed(Smoothed(row, width))[s] {
        WindowReversed(row, width, s);
        SumReversed(Window(row, width, |row| - 1 - s));
      }
    }
  }

  lemma WindowReversed(row: seq<real>, width: nat, s: nat)
    requires s < |row| && width % 2 == 1
    ensures Window(Reversed(row), width, s) == Reversed(Window(row, width, |row| - 1 - s))
  {
    forall k | 0 <= k < width
      ensures Window(Reversed(row), width, s)[k] == Reversed(Window(row, width, |row| - 1 - s))[k]
    {
      HeldReversed(row, width / 2, s + k);
    }
  }

  lemma HeldReversed(row: seq<real>, pad: nat, i: int)
    requires |row| > 0
    ensures Held(Reversed(row), pad, i) == Held(row, pad, |row| - 1 + 2 * pad - i)
  {
  }

  /** A slot and its two neighbours, an end slot standing in for the one it lacks. */
  function AroundSlot(row: seq<real>, s: nat): real
    requires s < |row|
  {
    row[if s == 0 then 0 else s - 1] + row[s] + row[if s + 1 == |row| then s else s + 1]
  }

  lemma SmoothedOfThree(row: seq<real>, s: nat)
    requires s < |row|
    ensures Smoothed(row, 3)[s] == AroundSlot(row, s) / 3.0
  {
    var w := Window(row, 3, s);
    SumOfThree(w);
  }

  lemma SumOfThree(w: seq<real>)
    requires |w| == 3
    ensures Sum(w) == w[0] + w[1] + w[2]
  {
    SumPrefixStep(w, 0);
    SumPrefixStep(w, 1);
    SumPrefixStep(w, 2);
    assert w[..3] == w && w[..0] == [];
  }

  // ----- the profile of a weekday

  ghost predicate Dates(rows: seq<seq<real>>) {
    |rows| > 0 && forall d :: 0 <= d < |rows| ==> |rows[d]| == SLOTS
  }

  function Column(rows: seq<seq<real>>, s: nat): (c: seq<real>)
    requires Dates(rows) && s < SLOTS
    ensures |c| == |rows|
  {
    seq(|rows|, d requires 0 <= d < |rows| => Smoothed(rows[d], 3)[s])
  }

  /** One percentile over the dates, in trips an hour. */
  function Profile(rows: seq<seq<real>>, bucket: real, q: real): (p: seq<real>)
    requires Dates(rows) && bucket > 0.0 && 0.0 <= q <= 100.0
    ensures |p| == SLOTS
  {
    seq(SLOTS, s requires 0 <= s < SLOTS => PerHour(Percentile(Column(rows, s), q), bucket))
  }

  /** `np.percentile` down the dates, slot by slot, in trips an hour. */
  function Across(t: seq<seq<real>>, bucket: real, q: real): (p: seq<real>)
    requires Dates(t) && bucket > 0.0 && 0.0 <= q <= 100.0
    ensures |p| == SLOTS
  {
    seq(SLOTS, s requires 0 <= s < SLOTS =>
      PerHour(Percentile(seq(|t|, d requires 0 <= d < |t| => t[d][s]), q), bucket))
  }

  lemma AcrossIsProfile(t: seq<seq<real>>, rows: seq<seq<real>>, bucket: real, q: real)
    requires Dates(t) && Dates(rows) && |t| == |rows| && bucket > 0.0 && 0.0 <= q <= 100.0
    requires forall d :: 0 <= d < |rows| ==> t[d] == Smoothed(rows[d], 3)
    ensures Across(t, bucket, q) == Profile(rows, bucket, q)
  {
    forall s | 0 <= s < SLOTS ensures Across(t, bucket, q)[s] == Profile(rows, bucket, q)[s] {
      assert seq(|t|, d requires 0 <= d < |t| => t[d][s]) == Column(rows, s);
    }
  }

  /** `profile`: smooth every date, then take three percentiles across them in each slot. */
  method WeekdayProfile(rows: seq<seq<real>>, bucket: real) returns (lo: seq<real>, med: seq<real>, hi: seq<real>)
    requires Dates(rows) && bucket > 0.0
    ensures lo == Profile(rows, bucket, 10.0)
    ensures med == Profile(rows, bucket, 50.0)
    ensures hi == Profile(rows, bucket, 90.0)
  {
    var t := Smooth(rows, 3);
    lo, med, hi := Across(t, bucket, 10.0), Across(t, bucket, 50.0), Across(t, bucket, 90.0);
    AcrossIsProfile(t, rows, bucket, 10.0);
    AcrossIsProfile(t, rows, bucket, 50.0);
    AcrossIsProfile(t, rows, bucket, 90.0);
  }

  function PerHour(v: real, bucket: real): real
    requires bucket > 0.0
  {
    v * (3600.0 / bucket)
  }

  lemma PerHourMonotone(a: real, b: real, bucket: real)
    requires a <= b && bucket > 0.0
    ensures PerHour(a, bucket) <= PerHour(b, bucket)
  {
    var k := 3600.0 / bucket;
    MulLe(k, a, b);
    assert a * k <= b * k;
  }

  lemma ProfileOrder(rows: seq<seq<real>>, bucket: real, p: real, q: real)
    requires Dates(rows) && bucket > 0.0 && 0.0 <= p <= q <= 100.0
    ensures Below(Profile(rows, bucket, p), Profile(rows, bucket, q))
  {
    forall s | 0 <= s < SLOTS ensures Profile(rows, bucket, p)[s] <= Profile(rows, bucket, q)[s] {
      PercentileOrder(Column(rows, s), p, q);
      PerHourMonotone(Percentile(Column(rows, s), p), Percentile(Column(rows, s), q), bucket);
    }
  }

  /** A history with every date at least as busy has a profile at least as high. */
  lemma ProfileMonotone(a: seq<seq<real>>, b: seq<seq<real>>, bucket: real, q: real)
    requires Dates(a) && Dates(b) && |a| == |b| && bucket > 0.0 && 0.0 <= q <= 100.0
    requires forall d :: 0 <= d < |a| ==> Below(a[d], b[d])
    ensures Below(Profile(a, bucket, q), Profile(b, bucket, q))
  {
    forall s | 0 <= s < SLOTS ensures Profile(a, bucket, q)[s] <= Profile(b, bucket, q)[s] {
      forall d | 0 <= d < |a| ensures Column(a, s)[d] <= Column(b, s)[d] {
        SmoothMonotone(a[d], b[d], 3);
      }
      PercentileMonotone(Column(a, s), Column(b, s), q);
      PerHourMonotone(Percentile(Column(a, s), q), Percentile(Column(b, s), q), bucket);
    }
  }

  /** One slot of a profile, written out: `day[d]` is the mean of what date `d` had there and on either
      side, `s` those in order, and the value a percentile of them at 3600 over the bucket. */
  lemma ProfileIs(rows: seq<seq<real>>, bucket: real, q: real, slot: nat, day: seq<real>, s: seq<real>,
                  k: nat, x: real)
    requires Dates(rows) && bucket > 0.0 && 0.0 <= q <= 100.0 && slot < SLOTS
    requires |day| == |s| == |rows| > k && multiset(s) == multiset(day) && NonDecreasing(s)
    requires forall d :: 0 <= d < |rows| ==> day[d] == AroundSlot(rows[d], slot) / 3.0
    requires 100.0 * x == Weighed(q, (|rows| - 1) as real) && k as real <= x < k as real + 1.0
    ensures Profile(rows, bucket, q)[slot] == PartWay(s, k, x - k as real) * (3600.0 / bucket)
  {
    forall d | 0 <= d < |rows| ensures day[d] == Column(rows, slot)[d] { SmoothedOfThree(rows[d], slot); }
    assert day == Column(rows, slot);
    PercentileIs(day, s, q, k, x);
  }

  lemma PercentileWithin(xs: seq<real>, q: real, lo: real, hi: real)
    requires |xs| > 0 && 0.0 <= q <= 100.0
    requires forall i :: 0 <= i < |xs| ==> lo <= xs[i] <= hi
    ensures lo <= Percentile(xs, q) <= hi
  {
    PercentileEnds(xs);
    PercentileOrder(xs, 0.0, q);
    PercentileOrder(xs, q, 100.0);
  }

  /** A profile never leaves the range of the dates behind it. */
  lemma ProfileBounds(rows: seq<seq<real>>, bucket: real, q: real, lo: real, hi: real)
    requires Dates(rows) && bucket > 0.0 && 0.0 <= q <= 100.0
    requires forall d, s :: 0 <= d < |rows| && 0 <= s < SLOTS ==> lo <= rows[d][s] <= hi
    ensures forall s :: 0 <= s < SLOTS ==> PerHour(lo, bucket) <= Profile(rows, bucket, q)[s] <= PerHour(hi, bucket)
  {
    forall s | 0 <= s < SLOTS
      ensures PerHour(lo, bucket) <= Profile(rows, bucket, q)[s] <= PerHour(hi, bucket)
    {
      forall d | 0 <= d < |rows| ensures lo <= Column(rows, s)[d] <= hi { SmoothBounds(rows[d], 3, lo, hi); }
      PercentileWithin(Column(rows, s), q, lo, hi);
      PerHourMonotone(lo, Percentile(Column(rows, s), q), bucket);
      PerHourMonotone(Percentile(Column(rows, s), q), hi, bucket);
    }
  }

  // ----- calibration

  /** The six slots of a day that begin within hour `h`, and nothing for the others. */
  function InHour(day: seq<real>, h: nat): (v: seq<real>)
    ensures |v| == |day|
  {
    seq(|day|, s requires 0 <= s < |day| => if h * 3600 <= s * 600 < (h + 1) * 3600 then day[s] else 0.0)
  }

  lemma HourOfDay(day: seq<real>, h: nat)
    requires |day| == SLOTS && h < HOURS
    ensures Sum(day[6 * h..6 * h + 6]) == Sum(InHour(day, h))
  {
    var v := InHour(day, h);
    SumOfHead(v, 6 * h + 6);
    assert v[..6 * h + 6] == v[..6 * h] + day[6 * h..6 * h + 6];
    SumConcat(v[..6 * h], day[6 * h..6 * h + 6]);
    SumConst(v[..6 * h], 0.0);
  }

  /** One more date adds to an hour's pool exactly its slots that begin within that hour. */
  lemma HourAddsDate(rows: seq<seq<real>>, day: seq<real>, h: nat)
    requires |day| == SLOTS && (forall d :: 0 <= d < |rows| ==> |rows[d]| == SLOTS) && h < HOURS
    ensures HourTotal(rows + [day], h) == HourTotal(rows, h) + Sum(InHour(day, h))
  {
    assert (rows + [day])[..|rows|] == rows;
    HourOfDay(day, h);
  }

  /** `calibration`: one factor an hour, from the pools of trips and of movements. */
  function Calibration(trips: seq<seq<real>>, moves: seq<seq<real>>): (k: seq<real>)
    requires forall d :: 0 <= d < |trips| ==> |trips[d]| == SLOTS
    requires forall d :: 0 <= d < |moves| ==> |moves[d]| == SLOTS
    ensures |k| == HOURS
  {
    seq(HOURS, h requires 0 <= h < HOURS => Factor(HourTotal(trips, h), HourTotal(moves, h)))
  }

  /** What the first `n` hours of the archive's own movement come to under factors `k`. */
  function Estimated(moves: seq<seq<real>>, k: seq<real>, n: nat): real
    requires (forall d :: 0 <= d < |moves| ==> |moves[d]| == SLOTS) && n <= HOURS == |k|
  {
    if n == 0 then 0.0 else Estimated(moves, k, n - 1) + Weighed(HourTotal(moves, n - 1), k[n - 1])
  }

  lemma {:induction false} CalibratedHours(trips: seq<seq<real>>, moves: seq<seq<real>>, n: nat)
    requires forall d :: 0 <= d < |trips| ==> |trips[d]| == SLOTS
    requires (forall d :: 0 <= d < |moves| ==> |moves[d]| == SLOTS) && n <= HOURS
    requires forall h: nat :: h < HOURS ==> HourTotal(moves, h) >= 0.5 || (HourTotal(moves, h) == 0.0 && HourTotal(trips, h) == 0.0)
    ensures Estimated(moves, Calibration(trips, moves), n) == HoursBelow(trips, n)
  {
    if n > 0 {
      CalibratedHours(trips, moves, n - 1);
      HourReproduced(HourTotal(trips, n - 1), HourTotal(moves, n - 1));
    }
  }

  lemma HourReproduced(trips: real, moves: real)
    requires moves >= 0.5 || (moves == 0.0 && trips == 0.0)
    ensures Weighed(moves, Factor(trips, moves)) == trips
  {
    CalibrationReproducesTrips(trips, moves);
  }

  /** With movement in every hour that had trips, the calibrated archive estimates every trip it counted. */
  lemma ArchiveIsReproduced(trips: seq<seq<real>>, moves: seq<seq<real>>)
    requires forall d :: 0 <= d < |trips| ==> |trips[d]| == SLOTS
    requires forall d :: 0 <= d < |moves| ==> |moves[d]| == SLOTS
    requires forall h: nat :: h < HOURS ==> HourTotal(moves, h) >= 0.5 || (HourTotal(moves, h) == 0.0 && HourTotal(trips, h) == 0.0)
    ensures Estimated(moves, Calibration(trips, moves), HOURS) == DaysTotal(trips)
  {
    CalibratedHours(trips, moves, HOURS);
    HoursPartitionTheDays(trips);
  }

  /** Trips (or moves) of one hour, pooled over the dates. */
  function HourTotal(rows: seq<seq<real>>, h: nat): real
    requires forall d :: 0 <= d < |rows| ==> |rows[d]| == SLOTS
    requires h < HOURS
  {
    if rows == [] then 0.0
    else HourTotal(rows[..|rows| - 1], h) + Sum(rows[|rows| - 1][6 * h..6 * h + 6])
  }

  function HoursBelow(rows: seq<seq<real>>, n: nat): real
    requires forall d :: 0 <= d < |rows| ==> |rows[d]| == SLOTS
    requires n <= HOURS
  {
    if n == 0 then 0.0 else HoursBelow(rows, n - 1) + HourTotal(rows, n - 1)
  }

  lemma {:induction false} HoursOfOneMore(rows: seq<seq<real>>, n: nat)
    requires forall d :: 0 <= d < |rows| ==> |rows[d]| == SLOTS
    requires n <= HOURS && rows != []
    ensures HoursBelow(rows, n) == HoursBelow(rows[..|rows| - 1], n) + Sum(rows[|rows| - 1][..6 * n])
  {
    if n > 0 {
      var day := rows[|rows| - 1];
      HoursOfOneMore(rows, n - 1);
      assert day[..6 * n] == day[..6 * (n - 1)] + day[6 * (n - 1)..6 * n];
      SumConcat(day[..6 * (n - 1)], day[6 * (n - 1)..6 * n]);
    }
  }

  function DaysTotal(rows: seq<seq<real>>): real {
    if rows == [] then 0.0 else DaysTotal(rows[..|rows| - 1]) + Sum(rows[|rows| - 1])
  }

  /** The hours split the pooled days without loss: every slot of every date is in one hour. */
  lemma {:induction false} HoursPartitionTheDays(rows: seq<seq<real>>)
    requires forall d :: 0 <= d < |rows| ==> |rows[d]| == SLOTS
    ensures HoursBelow(rows, HOURS) == DaysTotal(rows)
  {
    if rows == [] {
      NothingInNoDays(HOURS);
    } else {
      HoursPartitionTheDays(rows[..|rows| - 1]);
      HoursOfOneMore(rows, HOURS);
      assert rows[|rows| - 1][..6 * HOURS] == rows[|rows| - 1];
    }
  }

  lemma {:induction false} NothingInNoDays(n: nat)
    requires n <= HOURS
    ensures HoursBelow([], n) == 0.0
  {
    if n > 0 { NothingInNoDays(n - 1); }
  }

  /** What one movement at the docks is worth in trips, in a given hour. */
  function Factor(trips: real, moves: real): real {
    if moves > 0.0 then trips / Max(moves, 0.000001) else 1.0
  }

  /** Multiplying the archive's own movement by the factor gives back its trips, save in an hour
      that had trips and no movement at all. Movements come in halves, so the tiny floor is inert. */
  lemma CalibrationReproducesTrips(trips: real, moves: real)
    requires moves == 0.0 || moves >= 0.5
    ensures Factor(trips, moves) * moves == trips <==> moves > 0.0 || trips == 0.0
    ensures moves == 0.0 ==> Factor(trips, moves) == 1.0
  {
    if moves > 0.0 { assert trips / moves * moves == trips; }
  }

  /** How unsettled the calibration is from day to day: half of the middle eighty per cent, over the median. */
  function Spread(daily: seq<real>): real
    requires |daily| > 0
  {
    SpreadOf(Percentile(daily, 10.0), Percentile(daily, 50.0), Percentile(daily, 90.0))
  }

  function SpreadOf(p10: real, p50: real, p90: real): real { (p90 - p10) * 0.5 / Max(p50, 0.000001) }

  /** Times the median it is half of what lies between the tenth and the ninetieth. */
  lemma SpreadIs(p10: real, p50: real, p90: real)
    requires p50 >= 0.000001
    ensures 2.0 * Weighed(SpreadOf(p10, p50, p90), p50) == p90 - p10
  {
    var half := (p90 - p10) * 0.5;
    assert half / p50 * p50 == half;
  }

  lemma SpreadOfOrdered(p10: real, p50: real, p90: real)
    requires p10 <= p90
    ensures SpreadOf(p10, p50, p90) >= 0.0
  {
    DivNonNeg((p90 - p10) * 0.5, Max(p50, 0.000001));
  }

  /** The calibration's own spread can only widen the verdict's threshold. */
  lemma SpreadNonNegative(daily: seq<real>)
    requires |daily| > 0
    ensures Spread(daily) >= 0.0
  {
    PercentileOrder(daily, 10.0, 90.0);
    SpreadOfOrdered(Percentile(daily, 10.0), Percentile(daily, 50.0), Percentile(daily, 90.0));
  }

  // ----- the top of the chart

  /** The `m`-th mark of the axis. */
  function Round250(m: int): real { m as real * 250.0 }

  function RoundedUp(top: real): real { Max(500.0, Round250(Ceil(top / 250.0))) }

  /** `full_scale`: a positive wish is granted; otherwise the first mark that clears everything drawn. */
  function FullScale(hi: seq<real>, rate: seq<real>, want: real): real
    requires |hi| > 0
  {
    if want > 0.0 then want
    else RoundedUp(if rate == [] then Highest(hi) else Max(Highest(hi), Highest(rate)))
  }

  ghost predicate CoversAll(scale: real, hi: seq<real>, rate: seq<real>) {
    && scale >= 500.0
    && (forall i :: 0 <= i < |hi| ==> hi[i] <= scale)
    && (forall i :: 0 <= i < |rate| ==> rate[i] <= scale)
  }

  /** The fitted scale is the least multiple of 250, from 500 up, that nothing on the chart exceeds. */
  lemma FullScaleIsLeast(hi: seq<real>, rate: seq<real>, want: real) returns (m: int)
    requires |hi| > 0 && want <= 0.0
    ensures FullScale(hi, rate, want) == Round250(m)
    ensures CoversAll(Round250(m), hi, rate)
    ensures forall k: int :: CoversAll(Round250(k), hi, rate) ==> Round250(m) <= Round250(k)
  {
    HighestIsMax(hi);
    if rate != [] { HighestIsMax(rate); }
    var top := if rate == [] then Highest(hi) else Max(Highest(hi), Highest(rate));
    m := RoundedUpIsLeast(top);
    forall k: int | CoversAll(Round250(k), hi, rate) ensures Round250(m) <= Round250(k) {
      assert top <= Round250(k);
    }
  }

  lemma RoundedUpIsLeast(top: real) returns (m: int)
    ensures RoundedUp(top) == Round250(m)
    ensures Round250(m) >= 500.0 && Round250(m) >= top
    ensures forall k: int :: 500.0 <= Round250(k) && top <= Round250(k) ==> Round250(m) <= Round250(k)
  {
    var c := Ceil(top / 250.0);
    m := if c >= 2 then c else 2;
    forall k: int | 500.0 <= Round250(k) && top <= Round250(k) ensures m <= k {
      assert top / 250.0 <= k as real;
    }
  }
}
