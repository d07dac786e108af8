/** Drawing the bike day: a silhouette with a crust on it, and today's line over both. */
module BikesChart {
  import opened Options
  import opened RealSeq
  import opened Interpolation
  import opened Percentiles
  import opened BikesEstimate
  import opened BikesHistory
  import opened FlatGrid

  /** Colours are opaque names; only where each is painted matters. */
  datatype Ink = Band | Crust | Halo | Gold | Other(id: nat)

  /** The chart region: rows `chartY` to `chartBot` over `w` columns. */
  datatype Layout = Layout(w: nat, chartY: nat, chartBot: nat, chartH: nat) {
    ghost predicate Valid() { w > 0 && chartH >= 2 && chartBot == chartY + chartH - 1 }

    ghost predicate Fits(dst: array2<Ink>)
    {
      Valid() && dst.Length1 == w && chartBot < dst.Length0
    }

    predicate InChart(y: int) { chartY <= y <= chartBot }
  }

  /** A day of slots spread over `w` columns, each read at its centre. */
  function SlotToCol(values: seq<real>, w: nat): (c: seq<real>)
    requires |values| == SLOTS && w > 0
    ensures |c| == w
  {
    seq(w, j requires 0 <= j < w => Interp(Ramp(SLOTS, 0.5), values, Centre(j, w)))
  }

  /** Where the centre of column `j` falls on the slot axis. */
  function Centre(j: int, w: nat): real
    requires w > 0
  {
    (j as real + 0.5) * (SLOTS as real / w as real)
  }

  /** The row of one value: proportional height, clipped into the chart, to the nearest row. */
  function RowOf(v: real, lay: Layout, scale: real): int {
    RowAt(Clip(v / Max(scale, 1.0), 0.0, 1.0), lay)
  }

  /** How far above the chart floor a fraction of full scale reaches. */
  function Rise(f: real, lay: Layout): real { f * (lay.chartH - 1) as real }

  function RowAt(f: real, lay: Layout): int {
    RoundHalfEven(lay.chartBot as real - Rise(f, lay))
  }

  function RowsOf(values: seq<real>, lay: Layout, scale: real): (r: seq<int>)
    ensures |r| == |values|
    ensures forall i :: 0 <= i < |values| ==> r[i] == RowOf(values[i], lay, scale)
  {
    seq(|values|, i requires 0 <= i < |values| => RowOf(values[i], lay, scale))
  }

  lemma RowOfOrder(a: real, b: real, lay: Layout, scale: real)
    requires lay.Valid() && a <= b
    ensures lay.chartY <= RowOf(b, lay, scale) <= RowOf(a, lay, scale) <= lay.chartBot
  {
    DivMonotone(a, b, Max(scale, 1.0));
    RowAtOrder(Clip(a / Max(scale, 1.0), 0.0, 1.0), Clip(b / Max(scale, 1.0), 0.0, 1.0), lay);
  }

  lemma RowAtOrder(f: real, g: real, lay: Layout)
    requires lay.Valid() && 0.0 <= f <= g <= 1.0
    ensures lay.chartY <= RowAt(g, lay) <= RowAt(f, lay) <= lay.chartBot
  {
    RiseOrder(f, g, lay);
    RoundedRows(lay, Rise(f, lay), Rise(g, lay));
  }

  lemma RiseOrder(f: real, g: real, lay: Layout)
    requires lay.Valid() && 0.0 <= f <= g <= 1.0
    ensures 0.0 <= Rise(f, lay) <= Rise(g, lay) <= (lay.chartH - 1) as real
  {
    var n := (lay.chartH - 1) as real;
    MulNonNeg(f, n);
    var d, e := g - f, 1.0 - g;
    MulNonNeg(d, n);
    MulNonNeg(e, n);
    assert d * n == g * n - f * n && e * n == n - g * n;
  }

  lemma RoundedRows(lay: Layout, x: real, y: real)
    requires lay.Valid() && 0.0 <= x <= y <= (lay.chartH - 1) as real
    ensures lay.chartY <= RoundHalfEven(lay.chartBot as real - y)
         <= RoundHalfEven(lay.chartBot as real - x) <= lay.chartBot
  {
    var top, n := lay.chartBot as real, (lay.chartH - 1) as real;
    RoundMonotone(top - n, top - y);
    RoundMonotone(top - y, top - x);
    RoundMonotone(top - x, top);
    RoundOfInt(lay.chartBot);
    RoundOfInt(lay.chartY);
  }

  /** Nothing sits on the chart floor and full scale on its top row. */
  lemma RowOfEnds(lay: Layout, scale: real)
    requires lay.Valid()
    ensures RowOf(0.0, lay, scale) == lay.chartBot && RowOf(Max(scale, 1.0), lay, scale) == lay.chartY
  {
    var m := Max(scale, 1.0);
    assert 0.0 / m == 0.0 && m / m == 1.0;
    assert Rise(0.0, lay) == 0.0 && Rise(1.0, lay) == (lay.chartH - 1) as real;
    RoundOfInt(lay.chartBot);
    RoundOfInt(lay.chartY);
  }

  /** The row of a value is the nearest to its share of full scale, counted up from the floor. */
  lemma RowIsNearest(v: real, lay: Layout, scale: real, m: real)
    requires lay.Valid() && m == Max(scale, 1.0) && 0.0 <= v <= m
    ensures Abs(Weighed((lay.chartBot - RowOf(v, lay, scale)) as real, m) - Weighed((lay.chartH - 1) as real, v)) <= 0.5 * m
  {
    RowOfPart(v, lay, scale, m);
    RowAtIsNearest(v / m, lay);
    ShareOfRows((lay.chartBot - RowAt(v / m, lay)) as real, v / m, lay, v, m);
  }

  lemma RowOfPart(v: real, lay: Layout, scale: real, m: real)
    requires m == Max(scale, 1.0) && 0.0 <= v <= m
    ensures RowOf(v, lay, scale) == RowAt(v / m, lay)
  {
    PartOfWhole(v, m);
  }

  lemma RowAtIsNearest(f: real, lay: Layout)
    requires lay.Valid()
    ensures -0.5 <= (lay.chartBot - RowAt(f, lay)) as real - Rise(f, lay) <= 0.5
  {
    RoundIsNearest(lay.chartBot as real - Rise(f, lay));
  }

  lemma ShareOfRows(up: real, f: real, lay: Layout, v: real, m: real)
    requires lay.Valid() && m > 0.0 && f == v / m && -0.5 <= up - Rise(f, lay) <= 0.5
    ensures Abs(Weighed(up, m) - Weighed((lay.chartH - 1) as real, v)) <= 0.5 * m
  {
    HalfAtMost(up - Rise(f, lay), m);
    WeighedMinus(up, Rise(f, lay), m);
    RiseOfPart(v, (lay.chartH - 1) as real, m);
  }

  lemma RiseOfPart(v: real, n: real, m: real)
    requires m > 0.0
    ensures Weighed(v / m * n, m) == Weighed(n, v)
  {
    ScaledBack(v, m, n);
  }

  /** On a panel of one column a slot, the series is drawn as it is. */
  lemma SlotToColExact(values: seq<real>)
    requires |values| == SLOTS
    ensures SlotToCol(values, SLOTS) == values
  {
    forall j | 0 <= j < SLOTS ensures SlotToCol(values, SLOTS)[j] == values[j] {
      CentreOfSlot(j);
      InterpAtKnot(Ramp(SLOTS, 0.5), values, j);
    }
  }

  lemma CentreOfSlot(j: nat)
    ensures Centre(j, SLOTS) == j as real + 0.5
  {
  }

  lemma SlotToColMonotone(a: seq<real>, b: seq<real>, w: nat)
    requires Below(a, b) && |a| == SLOTS && w > 0
    ensures Below(SlotToCol(a, w), SlotToCol(b, w))
  {
    forall j | 0 <= j < w ensures SlotToCol(a, w)[j] <= SlotToCol(b, w)[j] {
      InterpMonotone(Ramp(SLOTS, 0.5), a, b, Centre(j, w));
    }
  }

  /** The rows of a series, column by column. */
  function Skyline(values: seq<real>, lay: Layout, scale: real): (r: seq<int>)
    requires |values| == SLOTS && lay.w > 0
    ensures |r| == lay.w
  {
    RowsOf(SlotToCol(values, lay.w), lay, scale)
  }

  /** A series nowhere above another is drawn nowhere above it, and every row is in the chart. */
  lemma SkylineOrder(a: seq<real>, b: seq<real>, lay: Layout, scale: real, c: nat)
    requires Below(a, b) && |a| == SLOTS && lay.Valid() && c < lay.w
    ensures lay.chartY <= Skyline(b, lay, scale)[c] <= Skyline(a, lay, scale)[c] <= lay.chartBot
  {
    SlotToColMonotone(a, b, lay.w);
    RowOfOrder(SlotToCol(a, lay.w)[c], SlotToCol(b, lay.w)[c], lay, scale);
  }

  /** `fill_between`: one masked assignment over the chart region. */
  method FillBetween(dst: array2<Ink>, lay: Layout, top: seq<int>, bot: seq<int>, mask: seq<bool>, rgb: Ink)
    requires lay.Fits(dst) && |top| == |bot| == |mask| == lay.w
    modifies dst
    ensures forall y, c :: 0 <= y < dst.Length0 && 0 <= c < lay.w ==>
      dst[y, c] == if lay.InChart(y) && mask[c] && top[c] <= y <= bot[c] then rgb else old(dst[y, c])
  {
    forall y, c | lay.chartY <= y <= lay.chartBot && 0 <= c < lay.w && mask[c] && top[c] <= y <= bot[c] {
      dst[y, c] := rgb;
    }
  }

  /** The pixel the typical day leaves at row `y` of column `c`. */
  function TypicalPixel(lay: Layout, rLo: int, rMed: int, rHi: int, y: int, was: Ink): Ink {
    if !lay.InChart(y) then was
    else if rHi <= y <= rLo then Crust
    else if rMed <= y <= lay.chartBot then Band
    else was
  }

  /** `bake_typical_day`: filled to the median, then the crust over it. */
  method BakeTypicalDay(dst: array2<Ink>, lay: Layout, lo: seq<real>, med: seq<real>, hi: seq<real>, scale: real)
    returns (rMed: seq<int>)
    requires lay.Fits(dst) && |lo| == |med| == |hi| == SLOTS
    modifies dst
    ensures rMed == Skyline(med, lay, scale)
    ensures forall y, c :: 0 <= y < dst.Length0 && 0 <= c < lay.w ==>
      dst[y, c] == TypicalPixel(lay, Skyline(lo, lay, scale)[c], Skyline(med, lay, scale)[c],
                                Skyline(hi, lay, scale)[c], y, old(dst[y, c]))
  {
    var mask := seq(lay.w, _ => true);
    rMed := RowsOf(SlotToCol(med, lay.w), lay, scale);
    var rLo := RowsOf(SlotToCol(lo, lay.w), lay, scale);
    var rHi := RowsOf(SlotToCol(hi, lay.w), lay, scale);
    FillBetween(dst, lay, rMed, seq(lay.w, _ => lay.chartBot), mask, Band);
    FillBetween(dst, lay, rHi, rLo, mask, Crust);
  }

  /** For any history of a weekday, in any column: the ninetieth-percentile row is at or above the
      median row, which is at or above the tenth, all inside the chart. */
  lemma ProfileRowsOrdered(rows: seq<seq<real>>, bucket: real, lay: Layout, scale: real, c: nat)
    requires Dates(rows) && bucket > 0.0 && lay.Valid() && c < lay.w
    ensures lay.chartY <= Skyline(Profile(rows, bucket, 90.0), lay, scale)[c]
         <= Skyline(Profile(rows, bucket, 50.0), lay, scale)[c]
         <= Skyline(Profile(rows, bucket, 10.0), lay, scale)[c] <= lay.chartBot
  {
    ProfileOrder(rows, bucket, 10.0, 50.0);
    ProfileOrder(rows, bucket, 50.0, 90.0);
    SkylineOrder(Profile(rows, bucket, 10.0), Profile(rows, bucket, 50.0), lay, scale, c);
    SkylineOrder(Profile(rows, bucket, 50.0), Profile(rows, bucket, 90.0), lay, scale, c);
  }

  /** So silhouette and crust paint one unbroken run from the ninetieth row to the chart floor, the
      crust on top of it, and nothing else. */
  lemma TypicalIsOneRun(rows: seq<seq<real>>, bucket: real, lay: Layout, scale: real, c: nat, y: int, was: Ink)
    requires Dates(rows) && bucket > 0.0 && lay.Valid() && c < lay.w && was.Other?
    ensures var rHi := Skyline(Profile(rows, bucket, 90.0), lay, scale)[c];
      var rMed := Skyline(Profile(rows, bucket, 50.0), lay, scale)[c];
      var rLo := Skyline(Profile(rows, bucket, 10.0), lay, scale)[c];
      var p := TypicalPixel(lay, rLo, rMed, rHi, y, was);
      (p != was <==> rHi <= y <= lay.chartBot) && (p == Crust <==> rHi <= y <= rLo)
      && (p == Band <==> rLo < y <= lay.chartBot)
  {
    ProfileRowsOrdered(rows, bucket, lay, scale, c);
  }

  // ----- today's line

  function Rates(rate: seq<Option<real>>): (r: seq<real>)
    ensures |r| == |rate|
  {
    seq(|rate|, s requires 0 <= s < |rate| => if rate[s].Some? then rate[s].value else 0.0)
  }

  function Indicator(seen: seq<bool>): (r: seq<real>)
    ensures |r| == |seen|
  {
    seq(|seen|, s requires 0 <= s < |seen| => if seen[s] then 1.0 else 0.0)
  }

  /** A column counts as seen when the interpolated coverage under its centre is above a half. */
  function ColumnsSeen(seen: seq<bool>, w: nat): (c: seq<bool>)
    requires |seen| == SLOTS && w > 0
    ensures |c| == w
  {
    var cov := SlotToCol(Indicator(seen), w);
    seq(w, j requires 0 <= j < w => cov[j] > 0.5)
  }

  predicate Joined(seen: seq<bool>, c: nat)
    requires c < |seen|
  {
    seen[c] && (c == 0 || seen[c - 1])
  }

  function Previous(r: seq<int>, c: nat): int
    requires c < |r|
  {
    if c == 0 then r[0] else r[c - 1]
  }

  /** The core of the line in column `c`: from this column's row to the previous one's, if joined. */
  function CoreTop(r: seq<int>, seen: seq<bool>, c: nat): int
    requires c < |r| == |seen|
  {
    if Joined(seen, c) && Previous(r, c) < r[c] then Previous(r, c) else r[c]
  }

  function CoreBot(r: seq<int>, seen: seq<bool>, c: nat): int
    requires c < |r| == |seen|
  {
    if Joined(seen, c) && Previous(r, c) > r[c] then Previous(r, c) else r[c]
  }

  function TodayPixel(lay: Layout, r: seq<int>, seen: seq<bool>, c: nat, y: int, was: Ink): Ink
    requires c < |r| == |seen|
  {
    if !lay.InChart(y) || !seen[c] then was
    else if CoreTop(r, seen, c) <= y <= CoreBot(r, seen, c) then Gold
    else if CoreTop(r, seen, c) - 1 <= y <= CoreBot(r, seen, c) + 1 then Halo
    else was
  }

  /** The columns seen, in order: `np.flatnonzero`. */
  function SeenBelow(seen: seq<bool>, n: nat): (cols: seq<nat>)
    requires n <= |seen|
    ensures forall c :: c in cols <==> 0 <= c < n && seen[c]
    ensures forall i :: 0 <= i < |cols| ==> cols[i] < n && seen[cols[i]]
    ensures forall i, j :: 0 <= i < j < |cols| ==> cols[i] < cols[j]
  {
    if n == 0 then []
    else
      var rest := SeenBelow(seen, n - 1);
      if seen[n - 1] then rest + [n - 1] else rest
  }

  function HaloTop(lay: Layout, top: int): int { if top - 1 > lay.chartY then top - 1 else lay.chartY }

  function HaloBot(lay: Layout, bot: int): int { if bot + 1 < lay.chartBot then bot + 1 else lay.chartBot }

  /** The flat indices of the line, one a seen column. */
  function Comet(r: seq<int>, cols: seq<nat>, w: nat): (flat: seq<int>)
    requires forall i :: 0 <= i < |cols| ==> cols[i] < |r|
    ensures |flat| == |cols| && forall i :: 0 <= i < |cols| ==> flat[i] == Flat(r[cols[i]], cols[i], w)
  {
    seq(|cols|, i requires 0 <= i < |cols| => Flat(r[cols[i]], cols[i], w))
  }

  /** `bake_today`: the line of the day, and the pixels of it in order of time. */
  method BakeToday(dst: array2<Ink>, lay: Layout, rate: seq<Option<real>>, seen: seq<bool>, scale: real)
    returns (flat: seq<int>, head: Option<nat>)
    requires lay.Fits(dst) && |rate| == |seen| == SLOTS
    modifies dst
    ensures forall y, c :: 0 <= y < dst.Length0 && 0 <= c < lay.w ==>
      dst[y, c] == TodayPixel(lay, Skyline(Rates(rate), lay, scale), ColumnsSeen(seen, lay.w), c, y, old(dst[y, c]))
    ensures flat == Comet(Skyline(Rates(rate), lay, scale), SeenBelow(ColumnsSeen(seen, lay.w), lay.w), lay.w)
    ensures head == if flat == [] then None else Some(SeenBelow(ColumnsSeen(seen, lay.w), lay.w)[|flat| - 1])
  {
    flat, head := BakeLine(dst, lay, Skyline(Rates(rate), lay, scale), ColumnsSeen(seen, lay.w));
  }

  /** The drawing part of `bake_today`, given the line's rows and the columns seen. */
  method BakeLine(dst: array2<Ink>, lay: Layout, r: seq<int>, colSeen: seq<bool>)
    returns (flat: seq<int>, head: Option<nat>)
    requires lay.Fits(dst) && |r| == |colSeen| == lay.w
    modifies dst
    ensures forall y, c :: 0 <= y < dst.Length0 && 0 <= c < lay.w ==>
      dst[y, c] == TodayPixel(lay, r, colSeen, c, y, old(dst[y, c]))
    ensures flat == Comet(r, SeenBelow(colSeen, lay.w), lay.w)
    ensures head == if flat == [] then None else Some(SeenBelow(colSeen, lay.w)[|flat| - 1])
  {
    var cols := SeenBelow(colSeen, lay.w);
    if cols == [] {
      assert forall c :: 0 <= c < lay.w ==> c !in cols && !colSeen[c];
      return [], None;
    }
    PaintLine(dst, lay, r, colSeen);
    flat := Comet(r, cols, lay.w);
    head := Some(cols[|cols| - 1]);
  }

  /** The two passes of `bake_today` over the frame. */
  method PaintLine(dst: array2<Ink>, lay: Layout, r: seq<int>, colSeen: seq<bool>)
    requires lay.Fits(dst) && |r| == |colSeen| == lay.w
    modifies dst
    ensures forall y, c :: 0 <= y < dst.Length0 && 0 <= c < lay.w ==>
      dst[y, c] == TodayPixel(lay, r, colSeen, c, y, old(dst[y, c]))
  {
    var top := seq(lay.w, c requires 0 <= c < lay.w => CoreTop(r, colSeen, c));
    var bot := seq(lay.w, c requires 0 <= c < lay.w => CoreBot(r, colSeen, c));
    var haloTop := seq(lay.w, c requires 0 <= c < lay.w => HaloTop(lay, top[c]));
    var haloBot := seq(lay.w, c requires 0 <= c < lay.w => HaloBot(lay, bot[c]));
    FillBetween(dst, lay, haloTop, haloBot, colSeen, Halo);
    FillBetween(dst, lay, top, bot, colSeen, Gold);
  }

  /** A dark column is left as it was; a seen one keeps a lit core; two neighbouring ones share a core row. */
  lemma ColumnPixels(lay: Layout, values: seq<real>, scale: real, cs: seq<bool>, c: nat, y: int, was: Ink)
    requires lay.Valid() && |values| == SLOTS && |cs| == lay.w && c < lay.w
    ensures !cs[c] ==> TodayPixel(lay, Skyline(values, lay, scale), cs, c, y, was) == was
    ensures cs[c] ==> TodayPixel(lay, Skyline(values, lay, scale), cs, c, Skyline(values, lay, scale)[c], was) == Gold
    ensures cs[c] && c > 0 && cs[c - 1] ==> var r := Skyline(values, lay, scale);
      TodayPixel(lay, r, cs, c, r[c - 1], was) == TodayPixel(lay, r, cs, c - 1, r[c - 1], was) == Gold
  {
    SkylineOrder(values, values, lay, scale, c);
    if c > 0 { SkylineOrder(values, values, lay, scale, c - 1); }
  }

  /** Every comet index is a pixel of the frame, in a seen column, on the core of the line. */
  lemma CometOnTheLine(lay: Layout, values: seq<real>, scale: real, cs: seq<bool>, h: nat, c: nat, was: Ink)
    requires lay.Valid() && lay.chartBot < h && |values| == SLOTS && |cs| == lay.w && c < lay.w && cs[c]
    ensures var r := Skyline(values, lay, scale); var flat := Flat(r[c], c, lay.w);
      && 0 <= flat < h * lay.w && flat / lay.w == r[c] && flat % lay.w == c
      && TodayPixel(lay, r, cs, c, r[c], was) == Gold
  {
    SkylineOrder(values, values, lay, scale, c);
    FlatInRange(Skyline(values, lay, scale)[c], c, h, lay.w);
    FlatSplits(Skyline(values, lay, scale)[c], c, lay.w);
  }
}
