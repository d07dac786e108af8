/** What the three accounts of the estimator have to do with each other. */
module BikesEstimateLaws {
  import opened Options
  import opened RealSeq
  import opened BikesEstimate

  // ----- coverage: seconds watched

  /** The seconds of slot `s` that the readings of slots below `n` watch, counted once. */
  function Watched(r: Record, n: nat, s: nat): real {
    if n == 0 then 0.0 else Max(Watched(r, n - 1, s), r.PartOf(n - 1, s))
  }

  ghost predicate Inside(r: Record, i: nat, x: real) {
    r.Read(i) && r.Start(i) <= x < r.End(i)
  }

  /** Every interval covers an end piece of each slot it touches, so their union does too:
      a moment of the slot is inside some interval exactly when it is in the last `Watched` seconds. */
  lemma {:induction false} WatchedIsUnion(r: Record, n: nat, s: nat, x: real)
    requires r.Valid() && n <= SLOTS && s < SLOTS
    requires r.Edge(s) <= x < r.Edge(s + 1)
    ensures (exists i: nat :: i < n && Inside(r, i, x)) <==> x >= r.Edge(s + 1) - Watched(r, n, s)
  {
    if n > 0 {
      WatchedIsUnion(r, n - 1, s, x);
      var i := n - 1;
      if r.Read(i) {
        InsideOfSlot(r, i, s, x);
      }
      assert Inside(r, i, x) <==> x >= r.Edge(s + 1) - r.PartOf(i, s);
      if exists k: nat :: k < n && Inside(r, k, x) {
        var k: nat :| k < n && Inside(r, k, x);
        assert k == i || k < n - 1;
      }
    }
  }

  lemma InsideOfSlot(r: Record, i: nat, s: nat, x: real)
    requires r.Valid() && r.Read(i) && s < SLOTS
    requires r.Edge(s) <= x < r.Edge(s + 1)
    ensures Inside(r, i, x) <==> x >= r.Edge(s + 1) - r.Part(i, s)
  {
    r.PartOfSlot(i, s);
    r.SpanOfReading(i);
    if s <= i { r.EdgeOrder(s + 1, i + 1); } else { r.EdgeOrder(i + 1, s); }
    if s < r.First(i) { r.EdgeOrder(s + 1, r.First(i)); } else { r.EdgeOrder(r.First(i) + 1, s + 1); }
  }

  lemma PartOfFacts(r: Record, i: nat, s: nat)
    requires r.Valid() && s < SLOTS
    ensures 0.0 <= r.PartOf(i, s) <= r.bucket
    ensures r.PartOf(i, s) > 0.0 <==> r.Touches(i, s)
  {
    if r.Read(i) { r.PartOfSlot(i, s); }
  }

  /** The cap keeps a slot to one bucket, and never hides a watched second. */
  lemma {:induction false} CoverBounds(r: Record, n: nat, s: nat)
    requires r.Valid() && n <= SLOTS && s < SLOTS
    ensures 0.0 <= Watched(r, n, s) <= Min(r.RawCover(n, s), r.bucket)
  {
    if n > 0 {
      CoverBounds(r, n - 1, s);
      PartOfFacts(r, n - 1, s);
    }
  }

  /** A slot has coverage exactly when some interval painted a rate into it. */
  lemma {:induction false} SeenIffPainted(r: Record, n: nat, s: nat)
    requires r.Valid() && n <= SLOTS && s < SLOTS
    ensures r.RawCover(n, s) >= 0.0
    ensures r.RawCover(n, s) > 0.0 <==> r.Painter(n, s).Some?
  {
    if n > 0 {
      SeenIffPainted(r, n - 1, s);
      PartOfFacts(r, n - 1, s);
    }
  }

  ghost predicate Seen(e: Estimate, s: nat)
    requires s < |e.cover|
  {
    e.cover[s] > 0.0
  }

  lemma CoverageMap(r: Record, s: nat)
    requires r.Valid() && s < SLOTS
    ensures var e := r.Result();
      && Watched(r, SLOTS, s) <= e.cover[s] <= r.bucket
      && (Seen(e, s) <==> e.rate[s].Some?)
      && (Tiles(r) ==> e.cover[s] == Watched(r, SLOTS, s))
  {
    CoverBounds(r, SLOTS, s);
    SeenIffPainted(r, SLOTS, s);
    if Tiles(r) { TilesCover(r, SLOTS, s); }
  }

  function PartRow(r: Record, i: nat): seq<real> {
    seq(SLOTS, s requires 0 <= s < SLOTS => r.PartOf(i, s))
  }

  function RawRow(r: Record, n: nat): seq<real> {
    seq(SLOTS, s requires 0 <= s < SLOTS => r.RawCover(n, s))
  }

  /** The parts of one interval add up to its midnight-clipped length. */
  lemma {:induction false} PartsTelescope(r: Record, i: nat, m: nat)
    requires r.Valid() && r.Read(i) && m <= SLOTS
    ensures Sum(PartRow(r, i)[..m]) == Clip(r.Edge(m), r.Start(i), r.End(i)) - r.Start(i)
  {
    r.SpanOfReading(i);
    if m > 0 {
      PartsTelescope(r, i, m - 1);
      SumPrefixStep(PartRow(r, i), m - 1);
      r.PartOfSlot(i, m - 1);
    }
  }

  lemma PartsSum(r: Record, i: nat)
    requires r.Valid() && r.Read(i)
    ensures Sum(PartRow(r, i)) == r.Length(i) > 0.0
  {
    PartsTelescope(r, i, SLOTS);
    assert PartRow(r, i)[..SLOTS] == PartRow(r, i);
    r.SpanOfReading(i);
    r.EdgeOrder(i + 1, SLOTS);
  }

  function TotalLength(r: Record, n: nat): real {
    if n == 0 then 0.0
    else TotalLength(r, n - 1) + if r.Read(n - 1) then r.Length(n - 1) else 0.0
  }

  /** Before the cap, every interval has added exactly its clipped length. */
  lemma {:induction false} CoverageConserved(r: Record, n: nat)
    requires r.Valid() && n <= SLOTS
    ensures Sum(RawRow(r, n)) == TotalLength(r, n)
  {
    if n == 0 {
      SumConst(RawRow(r, 0), 0.0);
    } else {
      CoverageConserved(r, n - 1);
      SumPlus(RawRow(r, n - 1), PartRow(r, n - 1), RawRow(r, n));
      if r.Read(n - 1) { PartsSum(r, n - 1); } else { SumConst(PartRow(r, n - 1), 0.0); }
    }
  }

  // ----- bookings: trips counted

  function TotalEst(r: Record, n: nat): real
    requires r.Valid()
  {
    if n == 0 then 0.0
    else TotalEst(r, n - 1) + if r.Read(n - 1) then r.Est(n - 1) else 0.0
  }

  function BookedRow(r: Record, n: nat): seq<real>
    requires r.Valid()
  {
    seq(SLOTS, s requires 0 <= s < SLOTS => r.Booked(n, s))
  }

  /** Whatever the intervals, the booked trips total each measurement exactly once. */
  lemma {:induction false} BookedOnce(r: Record, n: nat)
    requires r.Valid() && n <= SLOTS
    ensures Sum(BookedRow(r, n)) == TotalEst(r, n)
  {
    if n == 0 {
      SumConst(BookedRow(r, 0), 0.0);
    } else {
      var i := n - 1;
      BookedOnce(r, i);
      if r.Read(i) {
        r.SpanOfReading(i);
        var a := r.First(i);
        SumUpdate(BookedRow(r, i), a, r.Booked(n, a));
        assert BookedRow(r, n) == BookedRow(r, i)[a := r.Booked(n, a)];
      } else {
        assert BookedRow(r, n) == BookedRow(r, i);
      }
    }
  }

  /** A slot in which trips are booked is a slot that counts as seen. */
  lemma {:induction false} BookedImpliesRaw(r: Record, n: nat, s: nat)
    requires r.Valid() && n <= SLOTS && s < SLOTS
    ensures r.Booked(n, s) != 0.0 ==> r.RawCover(n, s) > 0.0
  {
    if n > 0 {
      BookedImpliesRaw(r, n - 1, s);
      SeenIffPainted(r, n - 1, s);
      PartOfFacts(r, n - 1, s);
      if r.Read(n - 1) { r.SpanOfReading(n - 1); }
    }
  }

  lemma {:induction false} BookedNotBefore(r: Record, n: nat, s: nat, now: nat)
    requires r.Valid() && n <= SLOTS && now < s < SLOTS
    requires forall i: nat :: r.Read(i) ==> i <= now
    ensures r.Booked(n, s) == 0.0
  {
    if n > 0 {
      BookedNotBefore(r, n - 1, s, now);
      if r.Read(n - 1) { r.SpanOfReading(n - 1); }
    }
  }

  /** An interval that stays within one hour of the day is multiplied by that hour's factor. */
  lemma HourOfInterval(r: Record, i: nat, h: nat)
    requires r.Valid() && r.Read(i) && h < HOURS
    requires h as real * 3600.0 <= r.Start(i) && r.End(i) <= (h + 1) as real * 3600.0
    ensures r.Hour(i) == h && r.Est(i) == r.readings[i].mov * 0.5 * r.kHour[h]
  {
    r.SpanOfReading(i);
    var mid := (r.Start(i) + r.End(i)) * 0.5;
    assert h as real <= mid / 3600.0 < (h + 1) as real;
  }

  /** Every bike that changed place is counted once, as half the docks' movements. */
  function HalfMoves(r: Record, n: nat): real {
    if n == 0 then 0.0 else HalfMoves(r, n - 1) + if r.Read(n - 1) then r.readings[n - 1].mov * 0.5 else 0.0
  }

  function Calibrated(moves: real, k: real): real { moves * k }

  /** With one factor all day the day's total is that factor times half of all movement, however the
      passes were spaced. */
  lemma {:induction false} UniformFactor(r: Record, k: real, n: nat)
    requires r.Valid() && n <= SLOTS && forall h :: 0 <= h < HOURS ==> r.kHour[h] == k
    ensures TotalEst(r, n) == Calibrated(HalfMoves(r, n), k)
  {
    if n > 0 {
      UniformFactor(r, k, n - 1);
      if r.Read(n - 1) {
        r.HourInRange(n - 1);
        CalibratedSplits(HalfMoves(r, n - 1), r.readings[n - 1].mov * 0.5, k);
      }
    }
  }

  lemma CalibratedSplits(a: real, b: real, k: real)
    ensures Calibrated(a + b, k) == Calibrated(a, k) + Calibrated(b, k)
  {
  }

  // ----- the painted curve

  /** Each interval starts no earlier than the end of every measured slot before it. */
  ghost predicate Tiles(r: Record) {
    forall i: nat, j: nat :: i < j && r.Read(i) && r.Read(j) ==> r.End(i) <= r.Start(j)
  }

  ghost predicate SpansASecond(r: Record) {
    forall i: nat :: r.Read(i) ==> r.Length(i) >= 1.0
  }

  lemma TilesApart(r: Record, i: nat, j: nat, s: nat)
    requires r.Valid() && i < j && r.Read(i) && r.Read(j) && r.End(i) <= r.Start(j)
    ensures !(r.Touches(i, s) && r.Touches(j, s))
  {
    r.SpanOfReading(i);
    r.SpanOfReading(j);
    if r.First(j) + 1 <= i + 1 { r.EdgeOrder(r.First(j) + 1, i + 1); }
  }

  lemma {:induction false} Untouched(r: Record, n: nat, s: nat)
    requires r.Valid() && n <= SLOTS && s < SLOTS
    requires forall i: nat :: i < n ==> !r.Touches(i, s)
    ensures r.RawCover(n, s) == 0.0 && r.Painter(n, s).None? && Watched(r, n, s) == 0.0
  {
    if n > 0 {
      Untouched(r, n - 1, s);
      PartOfFacts(r, n - 1, s);
    }
  }

  /** With intervals that tile, the painter of a slot is its only watcher. */
  lemma {:induction false} TilesCover(r: Record, n: nat, s: nat)
    requires r.Valid() && n <= SLOTS && s < SLOTS && Tiles(r)
    ensures Min(r.RawCover(n, s), r.bucket) == Watched(r, n, s)
    ensures r.Painter(n, s).Some? ==> r.RawCover(n, s) == r.Part(r.Painter(n, s).value, s)
  {
    if n > 0 {
      var i := n - 1;
      PartOfFacts(r, i, s);
      if r.Touches(i, s) {
        forall k: nat | k < i ensures !r.Touches(k, s) {
          if r.Read(k) { TilesApart(r, k, i, s); }
        }
        Untouched(r, i, s);
      } else {
        TilesCover(r, i, s);
      }
    }
  }

  /** Trips that an hourly rate comes to in so many seconds. */
  function Worth(rate: real, secs: real): real { rate * secs / 3600.0 }

  /** Trips in slot `s` according to the painted curve: the rate there over its covered seconds. */
  function Area(r: Record, n: nat, s: nat): real
    requires r.Valid()
  {
    match r.Painter(n, s)
    case None => 0.0
    case Some(i) => Worth(r.Rate(i), Min(r.RawCover(n, s), r.bucket))
  }

  function AreaRow(r: Record, n: nat): seq<real>
    requires r.Valid()
  {
    seq(SLOTS, s requires 0 <= s < SLOTS => Area(r, n, s))
  }

  function SlotArea(e: Estimate, s: nat): real
    requires s < |e.rate| == |e.cover|
  {
    if e.rate[s].Some? then Worth(e.rate[s].value, e.cover[s]) else 0.0
  }

  /** The painted curve of a finished estimate, integrated over its covered seconds. */
  function Integral(e: Estimate): real
    requires |e.rate| == |e.cover| == SLOTS
  {
    Sum(seq(SLOTS, s requires 0 <= s < SLOTS => SlotArea(e, s)))
  }

  lemma IntegralOfResult(r: Record)
    requires r.Valid()
    ensures Integral(r.Result()) == Sum(AreaRow(r, SLOTS))
  {
    var e := r.Result();
    var areas := seq(SLOTS, s requires 0 <= s < SLOTS => SlotArea(e, s));
    forall s | 0 <= s < SLOTS ensures areas[s] == AreaRow(r, SLOTS)[s] {
    }
    assert areas == AreaRow(r, SLOTS);
  }

  lemma WorthSplits(rate: real, a: real, b: real)
    ensures Worth(rate, a + b) == Worth(rate, a) + Worth(rate, b)
  {
    assert rate * (a + b) == rate * a + rate * b;
  }

  lemma {:induction false} WorthOfSum(rate: real, secs: seq<real>, c: seq<real>)
    requires |secs| == |c| && forall s :: 0 <= s < |c| ==> c[s] == Worth(rate, secs[s])
    ensures Sum(c) == Worth(rate, Sum(secs))
  {
    if c == [] {
      assert Worth(rate, 0.0) == 0.0;
    } else {
      var n := |c| - 1;
      WorthOfSum(rate, secs[..n], c[..n]);
      WorthSplits(rate, Sum(secs[..n]), secs[n]);
    }
  }

  /** An estimate drawn as a rate over its span is worth itself over the whole span, and less over less. */
  lemma WorthOfSpan(est: real, span: real, secs: real)
    requires span > 0.0 && 0.0 <= secs <= span
    ensures secs == span ==> Worth(est * 3600.0 / span, secs) == est
    ensures est > 0.0 ==> 0.0 <= Worth(est * 3600.0 / span, secs) <= est
    ensures est > 0.0 && secs > 0.0 ==> Worth(est * 3600.0 / span, secs) > 0.0
    ensures est > 0.0 && secs < span ==> Worth(est * 3600.0 / span, secs) < est
    ensures est == 0.0 ==> Worth(est * 3600.0 / span, secs) == 0.0
  {
    var v := est * 3600.0 / span;
    assert v * span == est * 3600.0;
    if est > 0.0 {
      assert v > 0.0;
      var d := span - secs;
      MulNonNeg(v, secs);
      MulNonNeg(v, d);
      assert v * d == v * span - v * secs;
      if secs > 0.0 { assert v * secs > 0.0; }
      if d > 0.0 { assert v * d > 0.0; }
    }
  }

  /** Trips the painted curve is worth when the intervals tile. */
  function TotalDrawn(r: Record, n: nat): real
    requires r.Valid()
  {
    if n == 0 then 0.0
    else TotalDrawn(r, n - 1) + if r.Read(n - 1) then Sum(DrawnRow(r, n - 1)) else 0.0
  }

  function Drawn(r: Record, i: nat, s: nat): real
    requires r.Valid() && r.Read(i)
  {
    Worth(r.Rate(i), r.Part(i, s))
  }

  function DrawnRow(r: Record, i: nat): seq<real>
    requires r.Valid() && r.Read(i)
  {
    seq(SLOTS, s requires 0 <= s < SLOTS => Drawn(r, i, s))
  }

  lemma DrawnSum(r: Record, i: nat)
    requires r.Valid() && r.Read(i)
    ensures Sum(DrawnRow(r, i)) == Worth(r.Rate(i), r.Length(i))
  {
    WorthOfSum(r.Rate(i), PartRow(r, i), DrawnRow(r, i));
    PartsSum(r, i);
  }

  lemma TilesStep(r: Record, i: nat, s: nat)
    requires r.Valid() && i < SLOTS && s < SLOTS && Tiles(r) && r.Read(i)
    ensures r.Touches(i, s) ==> r.Painter(i, s).None? && r.RawCover(i + 1, s) == r.Part(i, s) <= r.bucket
    ensures !r.Touches(i, s) ==> r.RawCover(i + 1, s) == r.RawCover(i, s) && r.Part(i, s) == 0.0
  {
    PartOfFacts(r, i, s);
    if r.Touches(i, s) {
      forall k: nat | k < i ensures !r.Touches(k, s) {
        if r.Read(k) { TilesApart(r, k, i, s); }
      }
      Untouched(r, i, s);
    }
  }

  lemma TilesAreaStep(r: Record, i: nat, s: nat)
    requires r.Valid() && i < SLOTS && s < SLOTS && Tiles(r) && r.Read(i)
    ensures Area(r, i + 1, s) == Area(r, i, s) + Drawn(r, i, s)
  {
    TilesStep(r, i, s);
    if !r.Touches(i, s) {
      NothingInNoTime(r.Rate(i));
    }
  }

  lemma NothingInNoTime(rate: real)
    ensures Worth(rate, 0.0) == 0.0
  {
  }

  lemma TilesRowStep(r: Record, i: nat)
    requires r.Valid() && i < SLOTS && Tiles(r) && r.Read(i)
    ensures Sum(AreaRow(r, i + 1)) == Sum(AreaRow(r, i)) + Sum(DrawnRow(r, i))
  {
    forall s | 0 <= s < SLOTS ensures AreaRow(r, i + 1)[s] == AreaRow(r, i)[s] + DrawnRow(r, i)[s] {
      TilesAreaStep(r, i, s);
    }
    SumPlus(AreaRow(r, i), DrawnRow(r, i), AreaRow(r, i + 1));
  }

  lemma {:induction false} TilesDrawn(r: Record, n: nat)
    requires r.Valid() && n <= SLOTS && Tiles(r)
    ensures Sum(AreaRow(r, n)) == TotalDrawn(r, n)
  {
    if n == 0 {
      SumConst(AreaRow(r, 0), 0.0);
    } else {
      TilesDrawn(r, n - 1);
      if r.Read(n - 1) {
        TilesRowStep(r, n - 1);
      } else {
        assert AreaRow(r, n) == AreaRow(r, n - 1);
      }
    }
  }

  /** With tiling intervals the curve is worth each estimate times its length over its span, so an
      interval shorter than a second, whose span is rounded up to one, is drawn too small. */
  lemma {:induction false} DrawnIsBooked(r: Record, n: nat)
    requires r.Valid() && n <= SLOTS && SpansASecond(r)
    ensures TotalDrawn(r, n) == TotalEst(r, n)
  {
    if n > 0 {
      DrawnIsBooked(r, n - 1);
      var i := n - 1;
      if r.Read(i) {
        DrawnSum(r, i);
        WorthOfSpan(r.Est(i), r.Span(i), r.Length(i));
      }
    }
  }

  /** When the intervals tile and span at least a second, integrating the rate curve over the covered
      seconds gives exactly the booked trips. */
  lemma IntegralIsBooked(r: Record)
    requires r.Valid() && Tiles(r) && SpansASecond(r)
    ensures Integral(r.Result()) == Sum(r.Result().trips) == TotalEst(r, SLOTS)
  {
    IntegralOfResult(r);
    TilesDrawn(r, SLOTS);
    DrawnIsBooked(r, SLOTS);
    BookedOnce(r, SLOTS);
    assert r.Result().trips == BookedRow(r, SLOTS);
  }

  // ----- ...and only then

  /** The same readings with other movements: the timing of the passes is unchanged. */
  function WithMoves(r: Record, moves: seq<real>): Record
    requires r.Valid() && |moves| == SLOTS
  {
    r.(readings := seq(SLOTS, i requires 0 <= i < SLOTS =>
      if r.readings[i].Reading? then Reading(moves[i], r.readings[i].dt) else Missing))
  }

  lemma WithMovesTiming(r: Record, moves: seq<real>)
    requires r.Valid() && |moves| == SLOTS
    ensures WithMoves(r, moves).Valid()
    ensures forall i: nat :: WithMoves(r, moves).Read(i) == r.Read(i)
    ensures forall i: nat :: r.Read(i) ==> WithMoves(r, moves).Start(i) == r.Start(i)
    ensures Tiles(WithMoves(r, moves)) <==> Tiles(r)
    ensures SpansASecond(WithMoves(r, moves)) <==> SpansASecond(r)
  {
    var q := WithMoves(r, moves);
    assert forall i: nat :: q.End(i) == r.End(i);
  }

  ghost predicate AllMovesAgree(r: Record)
    requires r.Valid()
  {
    forall moves: seq<real> :: |moves| == SLOTS ==>
      Integral(WithMoves(r, moves).Result()) == Sum(WithMoves(r, moves).Result().trips)
  }

  ghost predicate OnlyMoves(r: Record, i: nat)
    requires r.Valid()
  {
    r.Read(i) && r.Est(i) > 0.0 && forall k: nat :: r.Read(k) && k != i ==> r.Est(k) == 0.0
  }

  lemma {:induction false} OneEstimate(r: Record, i: nat, n: nat)
    requires r.Valid() && n <= SLOTS && OnlyMoves(r, i)
    ensures TotalEst(r, n) == if i < n then r.Est(i) else 0.0
  {
    if n > 0 { OneEstimate(r, i, n - 1); }
  }

  lemma {:induction false} LastTouch(r: Record, j: nat, n: nat, s: nat)
    requires r.Valid() && j < n <= SLOTS && r.Touches(j, s)
    ensures r.Painter(n, s).Some? && r.Painter(n, s).value >= j
  {
    if j < n - 1 { LastTouch(r, j, n - 1, s); }
  }

  lemma {:induction false} SoleWatcher(r: Record, i: nat, n: nat, s: nat)
    requires r.Valid() && i < n <= SLOTS && s < SLOTS && r.Painter(n, s) == Some(i)
    requires forall k: nat :: k < i ==> !r.Touches(k, s)
    ensures r.RawCover(n, s) == r.Part(i, s)
  {
    PartOfFacts(r, n - 1, s);
    if n == i + 1 { Untouched(r, i, s); } else { SoleWatcher(r, i, n - 1, s); }
  }

  ghost predicate NotPreceded(r: Record, i: nat) {
    forall k: nat :: k < i && r.Read(k) && r.Read(i) ==> r.End(k) <= r.Start(i)
  }

  /** If only reading `i` moved, no slot is drawn for more than `i` drew there, and a slot
      overpainted by a later reading is drawn for nothing. */
  lemma OneMoveArea(r: Record, i: nat, s: nat)
    requires r.Valid() && s < SLOTS && OnlyMoves(r, i) && NotPreceded(r, i)
    ensures 0.0 <= Area(r, SLOTS, s) <= Drawn(r, i, s)
    ensures r.Painter(SLOTS, s) != Some(i) ==> Area(r, SLOTS, s) == 0.0
    ensures r.Touches(i, s) ==> Drawn(r, i, s) > 0.0
  {
    PartOfFacts(r, i, s);
    r.PartOfSlot(i, s);
    PartWithinSpan(r, i, s);
    WorthOfSpan(r.Est(i), r.Span(i), r.Part(i, s));
    match r.Painter(SLOTS, s)
    case None =>
    case Some(p) =>
      if p == i {
        forall k: nat | k < i ensures !r.Touches(k, s) {
          if r.Read(k) { TilesApart(r, k, i, s); }
        }
        SoleWatcher(r, i, SLOTS, s);
      } else {
        NoWorth(r, p, Min(r.RawCover(SLOTS, s), r.bucket));
      }
  }

  lemma PartWithinSpan(r: Record, i: nat, s: nat)
    requires r.Valid() && r.Read(i) && s < SLOTS
    ensures 0.0 <= r.Part(i, s) <= r.Span(i)
  {
    r.PartOfSlot(i, s);
    r.SpanOfReading(i);
  }

  lemma NoWorth(r: Record, i: nat, secs: real)
    requires r.Valid() && r.Read(i) && r.Est(i) == 0.0
    ensures Worth(r.Rate(i), secs) == 0.0
  {
    assert r.Rate(i) == 0.0;
  }

  lemma DrawnAtMostEst(r: Record, i: nat)
    requires r.Valid() && r.Read(i) && r.Est(i) > 0.0
    ensures Sum(DrawnRow(r, i)) <= r.Est(i)
    ensures r.Length(i) < 1.0 ==> Sum(DrawnRow(r, i)) < r.Est(i)
  {
    DrawnSum(r, i);
    PartsSum(r, i);
    WorthOfSpan(r.Est(i), r.Span(i), r.Length(i));
  }

  /** A single movement, in a span under a second or partly overpainted later, is under-drawn. */
  lemma OneMoveDisagrees(r: Record, i: nat, j: nat)
    requires r.Valid() && OnlyMoves(r, i) && NotPreceded(r, i)
    requires r.Length(i) < 1.0 || (i < j && r.Read(j) && r.Start(j) < r.End(i))
    ensures Integral(r.Result()) < Sum(r.Result().trips)
  {
    IntegralOfResult(r);
    BookedOnce(r, SLOTS);
    assert r.Result().trips == BookedRow(r, SLOTS);
    OneEstimate(r, i, SLOTS);
    forall s | 0 <= s < SLOTS ensures AreaRow(r, SLOTS)[s] <= DrawnRow(r, i)[s] {
      OneMoveArea(r, i, s);
    }
    DrawnAtMostEst(r, i);
    if r.Length(i) < 1.0 {
      SumLe(AreaRow(r, SLOTS), DrawnRow(r, i));
    } else {
      r.SpanOfReading(i);
      r.SpanOfReading(j);
      if i + 1 <= r.First(j) { r.EdgeOrder(i + 1, r.First(j)); }
      LastTouch(r, j, SLOTS, i);
      OneMoveArea(r, i, i);
      SumLt(AreaRow(r, SLOTS), DrawnRow(r, i), i);
    }
  }

  /** Coverage only adds up, so what two readings spent in a slot is all there. */
  lemma {:induction false} TwoWatchers(r: Record, k: nat, i: nat, n: nat, s: nat)
    requires r.Valid() && k < i < n <= SLOTS && s < SLOTS
    ensures r.RawCover(n, s) >= r.PartOf(k, s) + r.PartOf(i, s)
  {
    PartOfFacts(r, n - 1, s);
    if i < n - 1 {
      TwoWatchers(r, k, i, n - 1, s);
    } else {
      OneWatcher(r, k, i, s);
    }
  }

  lemma {:induction false} OneWatcher(r: Record, i: nat, n: nat, s: nat)
    requires r.Valid() && i < n <= SLOTS && s < SLOTS
    ensures r.RawCover(n, s) >= r.PartOf(i, s)
  {
    PartOfFacts(r, n - 1, s);
    if i < n - 1 { OneWatcher(r, i, n - 1, s); } else { CoverBounds(r, i, s); }
  }

  ghost predicate NotFollowed(r: Record, i: nat) {
    forall j: nat :: i < j && r.Read(i) && r.Read(j) ==> r.End(i) <= r.Start(j)
  }

  lemma {:induction false} StaysPainted(r: Record, i: nat, n: nat, s: nat)
    requires r.Valid() && i < n <= SLOTS && s < SLOTS && r.Touches(i, s) && NotFollowed(r, i)
    ensures r.Painter(n, s) == Some(i)
  {
    if i < n - 1 {
      StaysPainted(r, i, n - 1, s);
      if r.Read(n - 1) { TilesApart(r, i, n - 1, s); }
    }
  }

  lemma WorthOrder(rate: real, a: real, b: real)
    requires rate > 0.0 && a <= b
    ensures Worth(rate, a) <= Worth(rate, b)
    ensures a < b ==> Worth(rate, a) < Worth(rate, b)
  {
    WorthSplits(rate, a, b - a);
    WorthSign(rate, b - a);
  }

  lemma WorthSign(rate: real, secs: real)
    requires rate > 0.0 && secs >= 0.0
    ensures Worth(rate, secs) >= 0.0 && (secs > 0.0 ==> Worth(rate, secs) > 0.0)
  {
    if secs > 0.0 { assert rate * secs > 0.0; }
  }

  /** If only reading `i` moved and none later overlaps it, every slot is drawn for at least what `i` drew
      there, and for more where an earlier reading watched a slot that `i` watched only part of. */
  lemma OverdrawnArea(r: Record, i: nat, k: nat, s: nat)
    requires r.Valid() && s < SLOTS && OnlyMoves(r, i) && NotFollowed(r, i) && r.Rate(i) > 0.0
    ensures Drawn(r, i, s) <= Area(r, SLOTS, s)
    ensures k < i && r.Touches(i, s) && r.Touches(k, s) && r.Part(i, s) < r.bucket ==> Drawn(r, i, s) < Area(r, SLOTS, s)
  {
    r.PartOfSlot(i, s);
    if r.Touches(i, s) {
      StaysPainted(r, i, SLOTS, s);
      OneWatcher(r, i, SLOTS, s);
      WorthOrder(r.Rate(i), r.Part(i, s), Min(r.RawCover(SLOTS, s), r.bucket));
      if k < i && r.Touches(k, s) {
        r.PartOfSlot(k, s);
        TwoWatchers(r, k, i, SLOTS, s);
      }
    } else {
      assert Worth(r.Rate(i), 0.0) == 0.0;
      AreaNonNegative(r, i, s);
    }
  }

  lemma AreaNonNegative(r: Record, i: nat, s: nat)
    requires r.Valid() && s < SLOTS && OnlyMoves(r, i) && r.Rate(i) > 0.0
    ensures Area(r, SLOTS, s) >= 0.0
  {
    CoverBounds(r, SLOTS, s);
    match r.Painter(SLOTS, s)
    case None =>
    case Some(p) =>
      var secs := Min(r.RawCover(SLOTS, s), r.bucket);
      if p == i {
        WorthOrder(r.Rate(i), 0.0, secs);
        assert Worth(r.Rate(i), 0.0) == 0.0;
      } else {
        NoWorth(r, p, secs);
      }
  }

  /** The other way about: a single movement of a second or more that nothing later overlaps, beginning
      part way through a slot that an earlier reading watched too, is drawn for more than was booked. */
  lemma OneMoveOverdrawn(r: Record, i: nat, k: nat)
    requires r.Valid() && OnlyMoves(r, i) && NotFollowed(r, i) && r.Length(i) >= 1.0
    requires k < i && r.Touches(k, r.First(i)) && r.Edge(r.First(i)) < r.Start(i)
    ensures Integral(r.Result()) > Sum(r.Result().trips)
  {
    IntegralOfResult(r);
    BookedOnce(r, SLOTS);
    assert r.Result().trips == BookedRow(r, SLOTS);
    OneEstimate(r, i, SLOTS);
    RatePositive(r, i);
    r.SpanOfReading(i);
    r.PartOfSlot(i, r.First(i));
    r.EdgeStep(r.First(i));
    forall s | 0 <= s < SLOTS ensures DrawnRow(r, i)[s] <= AreaRow(r, SLOTS)[s] {
      OverdrawnArea(r, i, k, s);
    }
    OverdrawnArea(r, i, k, r.First(i));
    SumLt(DrawnRow(r, i), AreaRow(r, SLOTS), r.First(i));
    DrawnSum(r, i);
    WorthOfSpan(r.Est(i), r.Span(i), r.Length(i));
  }

  lemma RatePositive(r: Record, i: nat)
    requires r.Valid() && r.Read(i) && r.Est(i) > 0.0
    ensures r.Rate(i) > 0.0
  {
    DivPos(r.Est(i) * 3600.0, r.Span(i));
  }

  ghost predicate TilesBelow(r: Record, n: nat) {
    forall i: nat, j: nat :: i < j < n && r.Read(i) && r.Read(j) ==> r.End(i) <= r.Start(j)
  }

  lemma {:induction false} FirstOverlap(r: Record, n: nat) returns (i: nat, j: nat)
    requires !TilesBelow(r, n)
    ensures i < j && r.Read(i) && r.Read(j) && r.Start(j) < r.End(i) && TilesBelow(r, j)
  {
    if TilesBelow(r, n - 1) {
      i, j :| i < j < n && r.Read(i) && r.Read(j) && r.End(i) > r.Start(j);
    } else {
      i, j := FirstOverlap(r, n - 1);
    }
  }

  function OneMove(i: nat): (moves: seq<real>)
    ensures |moves| == SLOTS
  {
    seq(SLOTS, k => if k == i then 1.0 else 0.0)
  }

  lemma OneMoveOnly(r: Record, i: nat)
    requires r.Valid() && r.Read(i) && forall h :: 0 <= h < HOURS ==> r.kHour[h] > 0.0
    ensures WithMoves(r, OneMove(i)).Valid() && OnlyMoves(WithMoves(r, OneMove(i)), i)
  {
    var q := WithMoves(r, OneMove(i));
    WithMovesTiming(r, OneMove(i));
    q.HourInRange(i);
  }

  ghost predicate UnderDrawn(r: Record, i: nat, j: nat) {
    && r.Read(i) && NotPreceded(r, i)
    && (r.Length(i) < 1.0 || (i < j && r.Read(j) && r.Start(j) < r.End(i)))
  }

  lemma SomeUnderDrawn(r: Record) returns (i: nat, j: nat)
    requires r.Valid() && (!Tiles(r) || !SpansASecond(r))
    ensures UnderDrawn(r, i, j)
  {
    if Tiles(r) {
      i :| r.Read(i) && r.Length(i) < 1.0;
      j := i;
    } else {
      assert !TilesBelow(r, SLOTS);
      i, j := FirstOverlap(r, SLOTS);
    }
  }

  /** Pass times that do not tile, or are under a second apart, have a movement that disagrees. */
  lemma SomeMoveDisagrees(r: Record) returns (moves: seq<real>)
    requires r.Valid() && forall h :: 0 <= h < HOURS ==> r.kHour[h] > 0.0
    requires !Tiles(r) || !SpansASecond(r)
    ensures |moves| == SLOTS
    ensures Integral(WithMoves(r, moves).Result()) != Sum(WithMoves(r, moves).Result().trips)
  {
    var i, j := SomeUnderDrawn(r);
    moves := OneMove(i);
    WithMovesTiming(r, moves);
    OneMoveOnly(r, i);
    UnderDrawnTransfers(r, moves, i, j);
    OneMoveDisagrees(WithMoves(r, moves), i, j);
  }

  lemma UnderDrawnTransfers(r: Record, moves: seq<real>, i: nat, j: nat)
    requires r.Valid() && |moves| == SLOTS && UnderDrawn(r, i, j)
    ensures UnderDrawn(WithMoves(r, moves), i, j)
  {
    var q := WithMoves(r, moves);
    SameTiming(r, moves, i);
    SameTiming(r, moves, j);
    forall k: nat | k < i && q.Read(k) ensures q.End(k) <= q.Start(i) {
      SameTiming(r, moves, k);
    }
  }

  lemma SameTiming(r: Record, moves: seq<real>, k: nat)
    requires r.Valid() && |moves| == SLOTS
    ensures var q := WithMoves(r, moves);
      q.Read(k) == r.Read(k) && q.End(k) == r.End(k) && (r.Read(k) ==> q.Start(k) == r.Start(k))
  {
  }

  lemma MovesAgree(r: Record, moves: seq<real>)
    requires r.Valid() && Tiles(r) && SpansASecond(r) && |moves| == SLOTS
    ensures Integral(WithMoves(r, moves).Result()) == Sum(WithMoves(r, moves).Result().trips)
  {
    WithMovesTiming(r, moves);
    IntegralIsBooked(WithMoves(r, moves));
  }

  /** The exact condition: for given pass times, the painted curve is worth the booked trips whatever
      moved if and only if the intervals tile and each spans at least a second. */
  lemma IntegralIsBookedIff(r: Record)
    requires r.Valid() && forall h :: 0 <= h < HOURS ==> r.kHour[h] > 0.0
    ensures AllMovesAgree(r) <==> Tiles(r) && SpansASecond(r)
  {
    if Tiles(r) && SpansASecond(r) {
      forall moves: seq<real> | |moves| == SLOTS
        ensures Integral(WithMoves(r, moves).Result()) == Sum(WithMoves(r, moves).Result().trips)
      {
        MovesAgree(r, moves);
      }
    } else {
      var moves := SomeMoveDisagrees(r);
    }
  }

  /** A day of two passes, the second reaching back over the slot the first had measured. */
  function Overlapping(): Record {
    Record(600.0, [Reading(1.0, 600.0), Reading(0.0, 700.0)] + seq(SLOTS - 2, _ => Missing), Level(HOURS, 1.0))
  }

  /** On it the curve that is drawn is worth less than the trips that are booked. */
  lemma OverlapLosesTrips()
    ensures Overlapping().Valid() && !Tiles(Overlapping())
    ensures Integral(Overlapping().Result()) < Sum(Overlapping().Result().trips)
  {
    var r := Overlapping();
    assert r.Valid();
    assert r.Read(0) && r.Read(1) && r.End(0) == 600.0 && r.Start(1) == 500.0;
    assert r.Length(0) == 600.0;
    assert r.Est(0) > 0.0 by { r.HourInRange(0); }
    OneMoveDisagrees(r, 0, 1);
  }
}
