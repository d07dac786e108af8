/**
  The live estimate of `demos/bikes.py` in plain arithmetic: what a day of one reading comes to, written out
  from its seconds, and how a day of many is put together from days of one.
 */
module BikesDays {
  import opened Options
  import opened RealSeq
  import opened BikesEstimate

  /** A measurement belongs to the hour of the middle of its interval, also when it spans several. */
  lemma EstAtMiddle(r: Record, i: nat, h: nat, m: real)
    requires r.Valid() && r.Read(i)
    requires m - r.Start(i) == r.End(i) - m && h as real * 3600.0 <= m < (h + 1) as real * 3600.0
    ensures r.Est(i) == r.readings[i].mov * 0.5 * r.kHour[if h < HOURS then h else HOURS - 1]
  {
    assert (r.Start(i) + r.End(i)) * 0.5 == m;
    HourOf(m, h);
  }

  lemma HourOf(m: real, h: int)
    requires h as real * 3600.0 <= m < (h + 1) as real * 3600.0
    ensures (m / 3600.0).Floor == h
  {
    assert h as real <= m / 3600.0 < h as real + 1.0;
  }

  // ----- a day of one reading

  ghost predicate OnlyReading(r: Record, i: nat) {
    r.Read(i) && forall k: nat :: k != i ==> !r.Read(k)
  }

  lemma {:induction false} SoleAccounts(r: Record, i: nat, n: nat, s: nat)
    requires r.Valid() && n <= SLOTS && s < SLOTS && OnlyReading(r, i)
    ensures r.RawCover(n, s) == if i < n then r.Part(i, s) else 0.0
    ensures r.Booked(n, s) == if i < n && r.First(i) == s then r.Est(i) else 0.0
    ensures r.Painter(n, s) == if i < n && r.Touches(i, s) then Some(i) else None
  {
    if n > 0 { SoleAccounts(r, i, n - 1, s); }
  }

  lemma FirstIs(r: Record, i: nat, a: nat)
    requires r.Valid() && r.Read(i) && r.Edge(a) <= r.Start(i) < r.Edge(a + 1)
    ensures r.First(i) == a
  {
    r.SpanOfReading(i);
    if r.First(i) < a { r.EdgeOrder(r.First(i) + 1, a); }
    if a < r.First(i) { r.EdgeOrder(a + 1, r.First(i)); }
  }

  /** One slot of a day of one reading, from the seconds alone. The interval runs from `t0` to `t1`; `a` is the
      slot it starts in and `h` the hour its middle falls in. */
  lemma OneReadingDay(r: Record, i: nat, t0: real, t1: real, a: nat, h: nat, s: nat)
    requires r.Valid() && OnlyReading(r, i) && s < SLOTS
    requires t1 == (i + 1) as real * r.bucket
    requires t0 == if r.readings[i].dt < t1 then t1 - r.readings[i].dt else 0.0
    requires a as real * r.bucket <= t0 < (a + 1) as real * r.bucket
    requires h as real * 3600.0 <= (t0 + t1) * 0.5 < (h + 1) as real * 3600.0
    ensures var e, est := r.Result(), r.readings[i].mov * 0.5 * r.kHour[if h < HOURS then h else HOURS - 1];
      && e.trips[s] == (if s == a then est else 0.0)
      && e.rate[s] == (if a <= s <= i then Some(est * 3600.0 / Max(t1 - t0, 1.0)) else None)
      && e.cover[s] == Max(Min((s + 1) as real * r.bucket, t1) - Max(s as real * r.bucket, t0), 0.0)
  {
    assert r.Start(i) == t0 && r.End(i) == t1;
    FirstIs(r, i, a);
    EstAtMiddle(r, i, h, (t0 + t1) * 0.5);
    SoleAccounts(r, i, SLOTS, s);
    r.SpanOfReading(i);
    r.PartOfSlot(i, s);
  }

  // ----- a day of many readings

  /** The day with reading `i` alone, if there was one. */
  function Alone(r: Record, i: nat): Record {
    r.(readings := seq(|r.readings|, k requires 0 <= k < |r.readings| => if k == i then r.readings[k] else Missing))
  }

  lemma AloneKeeps(r: Record, i: nat)
    requires r.Valid() && i < SLOTS
    ensures Alone(r, i).Valid() && (r.Read(i) ==> OnlyReading(Alone(r, i), i))
    ensures forall k: nat :: Alone(r, i).Read(k) <==> k == i && r.Read(i)
  {
  }

  lemma {:induction false} NothingRead(r: Record, n: nat, s: nat)
    requires r.Valid() && n <= SLOTS && s < SLOTS && forall k: nat :: !r.Read(k)
    ensures r.RawCover(n, s) == 0.0 && r.Booked(n, s) == 0.0 && r.Painter(n, s) == None
  {
    if n > 0 { NothingRead(r, n - 1, s); }
  }

  /** The estimate of that day. */
  function DayOf(r: Record, i: nat): (e: Estimate)
    requires r.Valid() && i < SLOTS
    ensures |e.rate| == |e.cover| == |e.trips| == SLOTS
  {
    AloneKeeps(r, i);
    Alone(r, i).Result()
  }

  lemma SameEdges(q: Record, r: Record, s: int)
    requires q.bucket == r.bucket
    ensures q.Edge(s) == r.Edge(s)
  {
  }

  lemma SameStart(q: Record, r: Record, i: nat)
    requires q.bucket == r.bucket > 0.0 && q.Read(i) && r.Read(i) && q.readings[i] == r.readings[i]
    ensures q.Start(i) == r.Start(i) && q.End(i) == r.End(i) && q.First(i) == r.First(i) && q.Past(i) == r.Past(i)
  {
    SameEdges(q, r, i + 1);
  }

  lemma SameInterval(r: Record, i: nat, s: nat)
    requires r.Valid() && r.Read(i) && Alone(r, i).Valid() && Alone(r, i).Read(i)
    ensures Alone(r, i).Part(i, s) == r.Part(i, s) && Alone(r, i).First(i) == r.First(i)
    ensures Alone(r, i).Touches(i, s) == r.Touches(i, s)
  {
    SameStart(Alone(r, i), r, i);
    SameEdges(Alone(r, i), r, s);
    SameEdges(Alone(r, i), r, s + 1);
  }

  lemma SameWorth(r: Record, i: nat)
    requires r.Valid() && r.Read(i) && Alone(r, i).Valid() && Alone(r, i).Read(i)
    ensures Alone(r, i).Est(i) == r.Est(i) && Alone(r, i).Rate(i) == r.Rate(i)
  {
    SameStart(Alone(r, i), r, i);
    assert Alone(r, i).Hour(i) == r.Hour(i);
    assert Alone(r, i).Span(i) == r.Span(i);
  }

  /** What each reading would have left in slot `s` by itself. */
  lemma AloneAccounts(r: Record, i: nat, s: nat)
    requires r.Valid() && i < SLOTS && s < SLOTS
    ensures DayOf(r, i).cover[s] == r.PartOf(i, s)
    ensures DayOf(r, i).trips[s] == r.Booking(i, s)
    ensures DayOf(r, i).rate[s] == if r.Touches(i, s) then Some(r.Rate(i)) else None
  {
    AloneKeeps(r, i);
    if r.Read(i) {
      SameInterval(r, i, s);
      SameWorth(r, i);
      SoleAccounts(Alone(r, i), i, SLOTS, s);
      r.PartOfSlot(i, s);
    } else {
      NothingRead(Alone(r, i), SLOTS, s);
    }
  }

  function TripsAlone(r: Record, n: nat, s: nat): (t: seq<real>)
    requires r.Valid() && n <= SLOTS && s < SLOTS
    ensures |t| == n
  {
    seq(n, i requires 0 <= i < n => DayOf(r, i).trips[s])
  }

  function CoverAlone(r: Record, n: nat, s: nat): (c: seq<real>)
    requires r.Valid() && n <= SLOTS && s < SLOTS
    ensures |c| == n
  {
    seq(n, i requires 0 <= i < n => DayOf(r, i).cover[s])
  }

  lemma {:induction false} AccountsAdd(r: Record, n: nat, s: nat)
    requires r.Valid() && n <= SLOTS && s < SLOTS
    ensures r.Booked(n, s) == Sum(TripsAlone(r, n, s)) && r.RawCover(n, s) == Sum(CoverAlone(r, n, s))
  {
    if n > 0 {
      AccountsAdd(r, n - 1, s);
      AloneAccounts(r, n - 1, s);
      assert TripsAlone(r, n, s)[..n - 1] == TripsAlone(r, n - 1, s);
      assert CoverAlone(r, n, s)[..n - 1] == CoverAlone(r, n - 1, s);
    }
  }

  lemma {:induction false} LastPainter(r: Record, n: nat, s: nat, i: nat)
    requires r.Valid() && n <= SLOTS && s < SLOTS && i < n && r.Touches(i, s)
    requires forall j: nat :: i < j < n ==> !r.Touches(j, s)
    ensures r.Painter(n, s) == Some(i)
  {
    if i < n - 1 { LastPainter(r, n - 1, s, i); }
  }

  /** Trips and covered seconds add up over the readings taken alone, the seconds up to a full slot. */
  lemma DayAddsUp(r: Record, s: nat)
    requires r.Valid() && s < SLOTS
    ensures r.Result().trips[s] == Sum(TripsAlone(r, SLOTS, s))
    ensures r.Result().cover[s] == Min(Sum(CoverAlone(r, SLOTS, s)), r.bucket)
  {
    AccountsAdd(r, SLOTS, s);
  }

  /** The rate of a slot is that of the last reading that would have painted it alone. */
  lemma LastRatePaints(r: Record, s: nat, i: nat)
    requires r.Valid() && s < SLOTS && i < SLOTS && DayOf(r, i).rate[s].Some?
    requires forall j: nat :: i < j < SLOTS ==> DayOf(r, j).rate[s].None?
    ensures r.Result().rate[s] == DayOf(r, i).rate[s]
  {
    AloneAccounts(r, i, s);
    forall j: nat | i < j < SLOTS ensures !r.Touches(j, s) {
      assert DayOf(r, j).rate[s].None?;
      AloneAccounts(r, j, s);
    }
    LastPainter(r, SLOTS, s, i);
  }
}
