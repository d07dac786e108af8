/** What a missed measurement does to the drawn day of `demos/bikes.py`: where the line breaks, and where it bends. */
module BikesGaps {
  import opened Options
  import opened RealSeq
  import opened Interpolation
  import opened BikesEstimate
  import opened BikesChart

  // ----- a column centre among the slots

  lemma CentreInDay(c: nat, w: nat)
    requires c < w
    ensures 0.0 < Centre(c, w) < SLOTS as real
  {
    var a, n := c as real + 0.5, w as real;
    var q := SLOTS as real / n;
    assert q * n == SLOTS as real;
    assert q > 0.0;
    MulLt(q, 0.0, a);
    MulLt(q, a, n);
    assert Centre(c, w) == q * a;
  }

  /** Between the first and the last slot's middle: which two slots a point lies between, and how far. */
  lemma BetweenMiddles(v: seq<real>, x: real) returns (k: nat)
    requires |v| == SLOTS && 0.5 < x < SLOTS as real - 0.5
    ensures k + 1 < SLOTS && k as real + 0.5 <= x < k as real + 1.5
    ensures Interp(Ramp(SLOTS, 0.5), v, x) == Mix(x - (k as real + 0.5), v[k], v[k + 1])
  {
    var xp := Ramp(SLOTS, 0.5);
    k := Locate(xp, x);
    assert k != SLOTS - 1;
    assert xp[k + 1] - xp[k] == 1.0;
    assert Weight(xp, x) == x - xp[k];
  }

  lemma CentreTimes(c: nat, w: nat)
    requires w > 0
    ensures 2.0 * Weighed(Centre(c, w), w as real) == ((2 * c + 1) * SLOTS) as real
  {
    var a, n := c as real + 0.5, w as real;
    var q := SLOTS as real / n;
    assert q * n == SLOTS as real;
    MulAssoc(a, q, n);
    assert Weighed(Centre(c, w), n) == a * SLOTS as real;
  }

  lemma CentreIs(c: nat, w: nat, x: real)
    requires w > 0 && 2.0 * Weighed(x, w as real) == ((2 * c + 1) * SLOTS) as real
    ensures Centre(c, w) == x
  {
    CentreTimes(c, w);
    QuotientOfProduct(x, w as real);
    QuotientOfProduct(Centre(c, w), w as real);
  }

  /** A column in plain arithmetic: its centre is `x` slots into the day, and it is drawn part way from the
      slot whose middle is before that to the one whose middle is after, or at an end slot's own value. */
  lemma ColumnIs(values: seq<real>, w: nat, c: nat, x: real, k: nat)
    requires |values| == SLOTS && c < w && 2.0 * Weighed(x, w as real) == ((2 * c + 1) * SLOTS) as real
    requires k < SLOTS
    ensures x <= 0.5 ==> SlotToCol(values, w)[c] == values[0]
    ensures k as real + 0.5 <= x < k as real + 1.5 ==>
      SlotToCol(values, w)[c] == PartWay(values, k, x - 0.5 - k as real)
  {
    CentreIs(c, w, x);
    if k as real + 0.5 <= x < k as real + 1.5 { InterpOnRamp(0.5, values, x, k); }
  }

  // ----- which columns are drawn

  function Flag(b: bool): real { if b then 1.0 else 0.0 }

  lemma MixOfFlags(u: real, a: bool, b: bool)
    requires 0.0 <= u < 1.0
    ensures Mix(u, Flag(a), Flag(b)) > 0.5 <==> (u <= 0.5 ==> a) && (u >= 0.5 ==> b)
  {
  }

  /** Every slot whose ten minutes hold this moment was measured; an edge belongs to both its slots. */
  predicate Measured(seen: seq<bool>, x: real) {
    forall k :: 0 <= k < |seen| && k as real <= x <= k as real + 1.0 ==> seen[k]
  }

  lemma MeasuredBetween(seen: seq<bool>, k: nat, x: real)
    requires k + 1 < |seen| && k as real + 0.5 <= x < k as real + 1.5
    ensures Measured(seen, x) <==> (x <= k as real + 1.0 ==> seen[k]) && (x >= k as real + 1.0 ==> seen[k + 1])
  {
    assert (k + 1) as real == k as real + 1.0;
    forall j | 0 <= j < |seen| && !seen[j] && j as real <= x <= j as real + 1.0 ensures j == k || j == k + 1 {
    }
  }

  /** A column is drawn exactly when the slots that hold its centre were all measured. */
  lemma ColumnSeenIff(seen: seq<bool>, w: nat, c: nat)
    requires |seen| == SLOTS && c < w
    ensures ColumnsSeen(seen, w)[c] <==> Measured(seen, Centre(c, w))
  {
    CentreInDay(c, w);
    var x := Centre(c, w);
    if 0.5 < x < SLOTS as real - 0.5 {
      var k := BetweenMiddles(Indicator(seen), x);
      MixOfFlags(x - (k as real + 0.5), seen[k], seen[k + 1]);
      MeasuredBetween(seen, k, x);
    } else {
      MeasuredAtEnds(seen, x);
    }
  }

  lemma MeasuredAtEnds(seen: seq<bool>, x: real)
    requires |seen| == SLOTS && 0.0 < x < SLOTS as real
    ensures x <= 0.5 ==> (Measured(seen, x) <==> seen[0])
    ensures x >= SLOTS as real - 0.5 ==> (Measured(seen, x) <==> seen[SLOTS - 1])
  {
  }

  /** Slot `k` holds the centre of column `c`. */
  predicate Holds(k: nat, c: nat, w: nat)
    requires w > 0
  {
    k as real <= Centre(c, w) <= k as real + 1.0
  }

  /** ...which is a matter of whole numbers. */
  lemma HoldsExactly(k: nat, c: nat, w: nat)
    requires w > 0
    ensures Holds(k, c, w) <==> 2 * (k * w) <= (2 * c + 1) * SLOTS <= 2 * (k * w) + 2 * w
  {
    CentreTimes(c, w);
    HoldsScaled(k as real, Centre(c, w), w as real);
    CastOfProduct(k, w);
  }

  lemma HoldsScaled(k: real, x: real, n: real)
    requires n > 0.0
    ensures k <= x <= k + 1.0 <==> Weighed(k, n) <= Weighed(x, n) <= Weighed(k, n) + n
  {
    WeighedSplits(k, x - k, n);
    WeighedWithin(x - k, n);
  }

  lemma WeighedWithin(d: real, n: real)
    requires n > 0.0
    ensures 0.0 <= d <==> 0.0 <= Weighed(d, n)
    ensures d <= 1.0 <==> Weighed(d, n) <= n
  {
    if d > 0.0 { assert d * n > 0.0; }
    if d < 0.0 { assert (-d) * n > 0.0; }
    var e := 1.0 - d;
    assert e * n == n - d * n;
    if e > 0.0 { assert e * n > 0.0; }
    if e < 0.0 { assert (-e) * n > 0.0; }
  }

  /** A missed slot breaks the line exactly where it holds a column's centre. */
  lemma GapShowsIff(seen: seq<bool>, w: nat)
    requires |seen| == SLOTS && w > 0
    ensures (exists c: nat :: c < w && !ColumnsSeen(seen, w)[c])
        <==> exists c: nat, k: nat :: c < w && k < SLOTS && !seen[k] && Holds(k, c, w)
  {
    if c: nat :| c < w && !ColumnsSeen(seen, w)[c] {
      ColumnSeenIff(seen, w, c);
      var k :| 0 <= k < SLOTS && k as real <= Centre(c, w) <= k as real + 1.0 && !seen[k];
      assert Holds(k, c, w);
    }
    if c: nat, k: nat :| c < w && k < SLOTS && !seen[k] && Holds(k, c, w) {
      ColumnSeenIff(seen, w, c);
    }
  }

  /** A day with one slot missed. */
  function AllBut(k: nat): (seen: seq<bool>)
    ensures |seen| == SLOTS && forall s :: 0 <= s < SLOTS ==> (seen[s] <==> s != k)
  {
    seq(SLOTS, s => s != k)
  }

  lemma OneMissedShowsIff(k: nat, w: nat)
    requires k < SLOTS && w > 0
    ensures (exists c: nat :: c < w && !ColumnsSeen(AllBut(k), w)[c]) <==> exists c: nat :: c < w && Holds(k, c, w)
  {
    GapShowsIff(AllBut(k), w);
  }

  /** On a panel of at least 143 columns every missed slot holds a centre, so none goes unseen. */
  lemma WidePanelsShowEveryGap(k: nat, w: nat) returns (c: nat)
    requires k < SLOTS && w >= SLOTS - 1
    ensures c < w && Holds(k, c, w)
    ensures !ColumnsSeen(AllBut(k), w)[c]
  {
    StartsByTheLast(k, w);
    c := ColumnFor(k * w, w);
    HoldsExactly(k, c, w);
    ColumnSeenIff(AllBut(k), w, c);
  }

  lemma StartsByTheLast(k: nat, w: nat)
    requires k < SLOTS
    ensures 0 <= k * w <= 143 * w
  {
    var d := 143 - k;
    assert d * w >= 0;
    assert d * w == 143 * w - k * w;
  }

  lemma ColumnFor(p: nat, w: nat) returns (c: nat)
    requires p <= 143 * w && w >= 143
    ensures c < w && 2 * p <= (2 * c + 1) * SLOTS <= 2 * p + 2 * w
  {
    c := (p + 71) / 144;
  }

  /** On 64 columns the third slot holds no centre: missed alone, it leaves no gap at all. */
  lemma AMissedPassLeavesNoGap()
    ensures forall c: nat :: c < 64 ==> ColumnsSeen(AllBut(2), 64)[c]
  {
    forall c: nat | c < 64 ensures !Holds(2, c, 64) { HoldsExactly(2, c, 64); }
    OneMissedShowsIff(2, 64);
  }

  // ----- what is drawn in them

  /** A column is left alone exactly where a slot that holds its centre was missed; everywhere else it has
      a lit core, and two such columns side by side share a core row, so the line between them is unbroken. */
  lemma LineIsUnbroken(lay: Layout, rate: seq<Option<real>>, seen: seq<bool>, scale: real, c: nat, y: int, was: Ink)
    requires lay.Valid() && |rate| == |seen| == SLOTS && c < lay.w
    ensures var r, cs := Skyline(Rates(rate), lay, scale), ColumnsSeen(seen, lay.w);
      && (!Measured(seen, Centre(c, lay.w)) ==> TodayPixel(lay, r, cs, c, y, was) == was)
      && (Measured(seen, Centre(c, lay.w)) ==> TodayPixel(lay, r, cs, c, r[c], was) == Gold)
    ensures c > 0 && Measured(seen, Centre(c, lay.w)) && Measured(seen, Centre(c - 1, lay.w)) ==>
      var r, cs := Skyline(Rates(rate), lay, scale), ColumnsSeen(seen, lay.w);
      TodayPixel(lay, r, cs, c, r[c - 1], was) == TodayPixel(lay, r, cs, c - 1, r[c - 1], was) == Gold
  {
    ColumnSeenIff(seen, lay.w, c);
    if c > 0 { ColumnSeenIff(seen, lay.w, c - 1); }
    ColumnPixels(lay, Rates(rate), scale, ColumnsSeen(seen, lay.w), c, y, was);
  }

  /** The day's rates with `v` for every slot that has none; the drawing takes nothing for it. */
  function Filled(rate: seq<Option<real>>, v: real): (r: seq<real>)
    ensures |r| == |rate|
  {
    seq(|rate|, s requires 0 <= s < |rate| => if rate[s].Some? then rate[s].value else v)
  }

  lemma MissingIsNothing(rate: seq<Option<real>>)
    ensures Rates(rate) == Filled(rate, 0.0)
  {
  }

  /** Slot `k` has a part in what is drawn at `x`: its middle is less than a slot away. */
  predicate Near(k: int, x: real) { k as real - 0.5 < x < k as real + 1.5 }

  predicate NearMeasured(rate: seq<Option<real>>, x: real) {
    forall k :: 0 <= k < |rate| && Near(k, x) ==> rate[k].Some?
  }

  /** How much a column changes when its missing slots are taken for one and not for nothing. */
  function Borrowed(rate: seq<Option<real>>, x: real): real
    requires |rate| == SLOTS
  {
    Interp(Ramp(SLOTS, 0.5), seq(SLOTS, s requires 0 <= s < SLOTS => Flag(rate[s].None?)), x)
  }

  lemma FilledIsLinear(rate: seq<Option<real>>, v: real, x: real)
    requires |rate| == SLOTS
    ensures Interp(Ramp(SLOTS, 0.5), Filled(rate, v), x)
         == Interp(Ramp(SLOTS, 0.5), Rates(rate), x) + Weighed(Borrowed(rate, x), v)
  {
    var gaps := seq(SLOTS, s requires 0 <= s < SLOTS => Flag(rate[s].None?));
    var part := seq(SLOTS, s requires 0 <= s < SLOTS => if rate[s].None? then v else 0.0);
    MissingIsNothing(rate);
    InterpPlus(Ramp(SLOTS, 0.5), Filled(rate, 0.0), part, Filled(rate, v), x);
    assert Weighed(1.0, v) == v && Weighed(0.0, v) == 0.0;
    InterpTimes(Ramp(SLOTS, 0.5), gaps, part, v, x);
  }

  lemma InterpTimes(xp: seq<real>, a: seq<real>, b: seq<real>, v: real, x: real)
    requires |xp| == |a| == |b| > 0 && Increasing(xp)
    requires forall s :: 0 <= s < |a| ==> b[s] == Weighed(a[s], v)
    ensures Interp(xp, b, x) == Weighed(Interp(xp, a, x), v)
  {
    if xp[0] < x < xp[|xp| - 1] {
      var k := Locate(xp, x);
      assert k != |xp| - 1;
      MixWeighed(Weight(xp, x), a[k], a[k + 1], v);
    }
  }

  lemma MixWeighed(u: real, a: real, b: real, v: real)
    ensures Mix(u, Weighed(a, v), Weighed(b, v)) == Weighed(Mix(u, a, b), v)
  {
    assert Weighed(a, v) == v * a && Weighed(b, v) == v * b;
    MixScaled(u, a, b, v);
  }

  lemma MixOfNothing(u: real, a: bool, b: bool)
    requires 0.0 <= u < 1.0
    ensures Mix(u, Flag(a), Flag(b)) == 0.0 <==> !a && (u > 0.0 ==> !b)
  {
  }

  lemma BorrowsNothingIff(rate: seq<Option<real>>, x: real)
    requires |rate| == SLOTS && 0.0 < x < SLOTS as real
    ensures Borrowed(rate, x) == 0.0 <==> NearMeasured(rate, x)
  {
    if 0.5 < x < SLOTS as real - 0.5 {
      var gaps := seq(SLOTS, s requires 0 <= s < SLOTS => Flag(rate[s].None?));
      var k := BetweenMiddles(gaps, x);
      MixOfNothing(x - (k as real + 0.5), rate[k].None?, rate[k + 1].None?);
      assert (k + 1) as real == k as real + 1.0;
      assert Near(k, x) && (x > k as real + 0.5 <==> Near(k + 1, x));
      forall j | 0 <= j < SLOTS && Near(j, x) ensures j == k || j == k + 1 {
      }
    } else if x <= 0.5 {
      assert Near(0, x);
      forall j | 0 <= j < SLOTS && Near(j, x) ensures j == 0 {
      }
    } else {
      assert Near(SLOTS - 1, x);
      forall j | 0 <= j < SLOTS && Near(j, x) ensures j == SLOTS - 1 {
      }
    }
  }

  /** A column is drawn from measurements alone exactly when every slot near its centre has a rate: only then
      would no other guess at the missing ones have changed it. */
  lemma DrawnFromMeasurementsIff(rate: seq<Option<real>>, w: nat, c: nat)
    requires |rate| == SLOTS && c < w
    ensures (forall v: real :: SlotToCol(Filled(rate, v), w)[c] == SlotToCol(Rates(rate), w)[c])
        <==> NearMeasured(rate, Centre(c, w))
  {
    var x := Centre(c, w);
    CentreInDay(c, w);
    BorrowsNothingIff(rate, x);
    FilledIsLinear(rate, 1.0, x);
    assert Weighed(Borrowed(rate, x), 1.0) == Borrowed(rate, x);
    if Borrowed(rate, x) == 0.0 {
      forall v: real ensures SlotToCol(Filled(rate, v), w)[c] == SlotToCol(Rates(rate), w)[c] {
        FilledIsLinear(rate, v, x);
        assert Weighed(0.0, v) == 0.0;
      }
    } else {
      assert SlotToCol(Filled(rate, 1.0), w)[c] != SlotToCol(Rates(rate), w)[c];
    }
  }

  // ----- the line itself

  /** The rows a column owes the line: its own, and every row from the one of the column before it, if that
      was drawn too. */
  predicate OnLine(r: seq<int>, seen: seq<bool>, c: nat, y: int)
    requires c < |r| == |seen|
  {
    && seen[c]
    && (y == r[c] || (c > 0 && seen[c - 1] && (r[c - 1] <= y <= r[c] || r[c] <= y <= r[c - 1])))
  }

  /** Gold is exactly the line, and the halo exactly the rows of the chart next to it. */
  lemma LineAndHalo(lay: Layout, values: seq<real>, scale: real, seen: seq<bool>, c: nat, y: int, was: Ink)
    requires lay.Valid() && |values| == SLOTS && |seen| == lay.w && c < lay.w && !was.Gold? && !was.Halo?
    ensures var r := Skyline(values, lay, scale); var p := TodayPixel(lay, r, seen, c, y, was);
      && (p == Gold <==> OnLine(r, seen, c, y))
      && (p == Halo <==> lay.InChart(y) && !OnLine(r, seen, c, y) && (OnLine(r, seen, c, y - 1) || OnLine(r, seen, c, y + 1)))
      && (p != Gold && p != Halo ==> p == was)
  {
    SkylineOrder(values, values, lay, scale, c);
    if c > 0 { SkylineOrder(values, values, lay, scale, c - 1); }
  }
}
