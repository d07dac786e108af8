/**
  The live estimator of `demos/bikes.py`: irregular interval measurements turned into a rate
  curve, a coverage map and a trip count over the 144 ten-minute slots of one day.
 */
module BikesEstimate {
  import opened Options
  import opened RealSeq

  const SLOTS: nat := 144
  const HOURS: nat := 24

  /** What the fetcher left in a slot: nothing, or a movement and the seconds it spans. */
  datatype Reading = Missing | Reading(mov: real, dt: real)

  datatype Estimate = Estimate(rate: seq<Option<real>>, cover: seq<real>, trips: seq<real>, bucket: real)

  datatype Record = Record(bucket: real, readings: seq<Reading>, kHour: seq<real>) {

    ghost predicate Valid() {
      && bucket > 0.0 && |readings| == SLOTS && |kHour| == HOURS
      && forall i :: 0 <= i < SLOTS && readings[i].Reading? ==> readings[i].dt > 0.0
    }

    predicate Read(i: nat) { i < |readings| && readings[i].Reading? }

    // ----- the interval behind a reading: the `dt` seconds before the end of its slot, less any before midnight

    function Edge(s: int): real { s as real * bucket }

    function End(i: nat): real { Edge(i + 1) }

    function Start(i: nat): real
      requires Read(i)
    {
      Max(0.0, End(i) - readings[i].dt)
    }

    function First(i: nat): int
      requires Read(i) && bucket > 0.0
    {
      (Start(i) / bucket).Floor
    }

    function Past(i: nat): int
      requires bucket > 0.0
    {
      var b := Ceil(End(i) / bucket);
      if b < SLOTS then b else SLOTS
    }

    function Hour(i: nat): int
      requires Read(i)
    {
      var h := ((Start(i) + End(i)) * 0.5 / 3600.0).Floor;
      if h < 23 then h else 23
    }

    function Length(i: nat): real
      requires Read(i)
    {
      End(i) - Start(i)
    }

    function Span(i: nat): real
      requires Read(i)
    {
      Max(Length(i), 1.0)
    }

    function Part(i: nat, s: nat): real
      requires Read(i)
    {
      Max(Min(Edge(s + 1), End(i)) - Max(Edge(s), Start(i)), 0.0)
    }

    function Est(i: nat): real
      requires Valid() && Read(i)
    {
      HourInRange(i);
      readings[i].mov * 0.5 * kHour[Hour(i)]
    }

    function Rate(i: nat): real
      requires Valid() && Read(i)
    {
      Est(i) * 3600.0 / Span(i)
    }

    predicate Touches(i: nat, s: nat)
      requires bucket > 0.0
    {
      Read(i) && First(i) <= s < Past(i)
    }

    lemma EdgeOrder(s: int, t: int)
      requires bucket > 0.0 && s <= t
      ensures Edge(s) <= Edge(t)
      ensures s < t ==> Edge(s) + bucket <= Edge(t)
    {
      var d := (t - s) as real;
      assert Edge(t) - Edge(s) == d * bucket;
      if s < t {
        MulNonNeg(d - 1.0, bucket);
        assert (d - 1.0) * bucket >= 0.0;
        assert (d - 1.0) * bucket == d * bucket - bucket;
      }
    }

    lemma EdgeStep(s: int)
      ensures Edge(s + 1) == Edge(s) + bucket
    {
    }

    lemma HourInRange(i: nat)
      requires Valid() && Read(i)
      ensures 0 <= Hour(i) < HOURS
    {
      EdgeOrder(0, i + 1);
    }

    /** The slot arithmetic of one interval in exact terms; the guard on an empty span never fires. */
    lemma SpanOfReading(i: nat)
      requires Valid() && Read(i)
      ensures 0 <= First(i) <= i && Past(i) == i + 1
      ensures Edge(First(i)) <= Start(i) < Edge(First(i) + 1)
      ensures 0.0 <= Start(i) < End(i)
    {
      EdgeOrder(0, i + 1);
      FloorOfQuotient(Start(i));
      PastIsNext(i);
      if First(i) > i { EdgeOrder(i + 1, First(i)); }
      if First(i) < 0 { EdgeOrder(First(i) + 1, 0); }
    }

    lemma PastIsNext(i: nat)
      requires bucket > 0.0 && i < SLOTS
      ensures Past(i) == i + 1
    {
      var n := (i + 1) as real;
      QuotientOfProduct(n, bucket);
      assert End(i) / bucket == n;
      assert (-n).Floor == -(i + 1);
    }

    lemma FloorOfQuotient(x: real)
      requires bucket > 0.0
      ensures Edge((x / bucket).Floor) <= x < Edge((x / bucket).Floor + 1)
    {
      var f := (x / bucket).Floor;
      ModRange(x, bucket);
      assert Edge(f) == f as real * bucket == x - Mod(x, bucket);
      EdgeStep(f);
    }

    /** An interval spends time in exactly the slots it touches, and never more than a bucket. */
    lemma PartOfSlot(i: nat, s: nat)
      requires Valid() && Read(i) && s < SLOTS
      ensures 0.0 <= Part(i, s) <= bucket
      ensures Part(i, s) > 0.0 <==> Touches(i, s)
      ensures Part(i, s) == Clip(Edge(s + 1), Start(i), End(i)) - Clip(Edge(s), Start(i), End(i))
      ensures Touches(i, s) ==> Part(i, s) == Edge(s + 1) - Max(Edge(s), Start(i))
    {
      SpanOfReading(i);
      EdgeStep(s);
      if s <= i { EdgeOrder(s + 1, i + 1); } else { EdgeOrder(i + 1, s); }
      if s < First(i) { EdgeOrder(s + 1, First(i)); } else { EdgeOrder(First(i) + 1, s + 1); }
    }

    // ----- the three accounts after the first `n` slots of the record

    function PartOf(i: nat, s: nat): real { if Read(i) then Part(i, s) else 0.0 }

    function RawCover(n: nat, s: nat): real {
      if n == 0 then 0.0 else RawCover(n - 1, s) + PartOf(n - 1, s)
    }

    function Booking(i: nat, s: nat): real
      requires Valid()
    {
      if Read(i) && First(i) == s then Est(i) else 0.0
    }

    function Booked(n: nat, s: nat): real
      requires Valid()
    {
      if n == 0 then 0.0 else Booked(n - 1, s) + Booking(n - 1, s)
    }

    /** The last of the first `n` readings whose interval touches slot `s`. */
    function Painter(n: nat, s: nat): (p: Option<nat>)
      requires Valid()
      ensures p.Some? ==> p.value < n && Touches(p.value, s)
    {
      if n == 0 then None else if Touches(n - 1, s) then Some(n - 1) else Painter(n - 1, s)
    }

    function Painted(n: nat, s: nat): Option<real>
      requires Valid()
    {
      match Painter(n, s)
      case None => None
      case Some(i) => Some(Rate(i))
    }

    /** What one more reading does to the accounts of one slot. */
    lemma Advance(i: nat, s: nat)
      requires Valid() && Read(i) && s < SLOTS
      ensures Painted(i + 1, s) == (if First(i) <= s < Past(i) then Some(Rate(i)) else Painted(i, s))
      ensures RawCover(i + 1, s) == RawCover(i, s) + if First(i) <= s < Past(i) then Part(i, s) else 0.0
      ensures Booked(i + 1, s) == if First(i) == s then Booked(i, s) + Est(i) else Booked(i, s)
    {
      PartOfSlot(i, s);
    }

    /** The three arrays hold the accounts of the first `n` slots of the record. */
    ghost predicate Tally(n: nat, rate: seq<Option<real>>, cover: seq<real>, trips: seq<real>)
      requires Valid()
    {
      && |rate| == |cover| == |trips| == SLOTS
      && forall s :: 0 <= s < SLOTS ==>
        rate[s] == Painted(n, s) && cover[s] == RawCover(n, s) && trips[s] == Booked(n, s)
    }

    lemma TallyStep(i: nat, rate: seq<Option<real>>, cover: seq<real>, trips: seq<real>,
                    rate': seq<Option<real>>, cover': seq<real>, trips': seq<real>)
      requires Valid() && Read(i) && Tally(i, rate, cover, trips)
      requires |rate'| == |cover'| == |trips'| == SLOTS
      requires forall s :: 0 <= s < SLOTS ==> rate'[s] == if First(i) <= s < Past(i) then Some(Rate(i)) else rate[s]
      requires forall s :: 0 <= s < SLOTS ==>
        cover'[s] == cover[s] + if First(i) <= s < Past(i) then Part(i, s) else 0.0
      requires forall s :: 0 <= s < SLOTS ==> trips'[s] == if First(i) == s then trips[s] + Est(i) else trips[s]
      ensures Tally(i + 1, rate', cover', trips')
    {
      forall s | 0 <= s < SLOTS
        ensures rate'[s] == Painted(i + 1, s) && cover'[s] == RawCover(i + 1, s) && trips'[s] == Booked(i + 1, s)
      {
        Advance(i, s);
      }
    }

    lemma TallySkip(i: nat, rate: seq<Option<real>>, cover: seq<real>, trips: seq<real>)
      requires Valid() && !Read(i) && Tally(i, rate, cover, trips)
      ensures Tally(i + 1, rate, cover, trips)
    {
    }

    /** The estimate the record stands for. */
    function Result(): (e: Estimate)
      requires Valid()
      ensures |e.rate| == |e.cover| == |e.trips| == SLOTS
    {
      Estimate(seq(SLOTS, s requires 0 <= s < SLOTS => Painted(SLOTS, s)),
               seq(SLOTS, s requires 0 <= s < SLOTS => Min(RawCover(SLOTS, s), bucket)),
               seq(SLOTS, s requires 0 <= s < SLOTS => Booked(SLOTS, s)),
               bucket)
    }

    lemma TallyIsResult(e: Estimate, raw: seq<real>)
      requires Valid() && Tally(SLOTS, e.rate, raw, e.trips)
      requires |e.cover| == SLOTS && forall s :: 0 <= s < SLOTS ==> e.cover[s] == Min(raw[s], bucket)
      requires e.bucket == bucket
      ensures e == Result()
    {
    }
  }

  /** `estimate`: one pass over the readings, updating the three arrays in place. */
  method EstimateDay(rec: Record) returns (est: Estimate)
    requires rec.Valid()
    ensures est == rec.Result()
  {
    var rate := new Option<real>[SLOTS](_ => None);
    var trips := new real[SLOTS](_ => 0.0);
    var cover := new real[SLOTS](_ => 0.0);
    for i := 0 to SLOTS
      invariant rec.Tally(i, rate[..], cover[..], trips[..])
    {
      if rec.readings[i].Reading? {
        AddReading(rec, i, rate, cover, trips);
      } else {
        rec.TallySkip(i, rate[..], cover[..], trips[..]);
      }
    }
    ghost var raw := cover[..];
    for s := 0 to SLOTS
      modifies cover
      invariant forall k :: 0 <= k < SLOTS ==> cover[k] == if k < s then Min(raw[k], rec.bucket) else raw[k]
    {
      cover[s] := Min(cover[s], rec.bucket);
    }
    est := Estimate(rate[..], cover[..], trips[..], rec.bucket);
    rec.TallyIsResult(est, raw);
  }

  /** The loop body of `estimate` for a slot that holds a reading. */
  method AddReading(rec: Record, i: nat, rate: array<Option<real>>, cover: array<real>, trips: array<real>)
    requires rec.Valid() && rec.Read(i)
    requires cover != trips
    requires rec.Tally(i, rate[..], cover[..], trips[..])
    modifies rate, cover, trips
    ensures rec.Tally(i + 1, rate[..], cover[..], trips[..])
  {
    ghost var rate0, cover0, trips0 := rate[..], cover[..], trips[..];
    rec.SpanOfReading(i);
    var a, b := rec.First(i), rec.Past(i);
    var est := rec.Est(i);
    if a < b {
      forall s | a <= s < b { rate[s] := Some(est * 3600.0 / rec.Span(i)); }
      forall s | a <= s < b { cover[s] := cover[s] + rec.Part(i, s); }
      trips[a] := trips[a] + est;
    }
    rec.TallyStep(i, rate0, cover0, trips0, rate[..], cover[..], trips[..]);
  }
}
