/** Replaying the hour in `demos/adsb.py`: the flat bag of trail points, and revealing it. */
module AdsbReplay {
  import opened Options
  import opened RealSeq
  import opened Interpolation
  import opened FlatGrid
  import opened AdsbTrails

  /** A trail point that landed on the map: its flat pixel, its time in frames, its altitude. */
  datatype Dot = Dot(flat: int, t: real, alt: int)

  ghost predicate Genuine(y: Sky, tag: Tag) {
    tag.k + 1 < |y.frames| && tag.a < |y.order| && tag.s < y.samples && y.Both(tag.k, tag.a)
  }

  ghost predicate AllGenuine(y: Sky, tags: seq<Tag>) {
    forall i :: 0 <= i < |tags| ==> Genuine(y, tags[i])
  }

  ghost function PointsOf(y: Sky, tags: seq<Tag>): (p: seq<Point>)
    requires y.Valid() && AllGenuine(y, tags)
    ensures |p| == |tags| && forall i :: 0 <= i < |tags| ==> p[i] == y.PointAt(tags[i])
  {
    seq(|tags|, i requires 0 <= i < |tags| && Genuine(y, tags[i]) => y.PointAt(tags[i]))
  }

  lemma PointsConcat(y: Sky, a: seq<Tag>, b: seq<Tag>)
    requires y.Valid() && AllGenuine(y, a) && AllGenuine(y, b)
    ensures AllGenuine(y, a + b) && PointsOf(y, a + b) == PointsOf(y, a) + PointsOf(y, b)
  {
  }

  function Gaps(y: Sky): nat { if |y.frames| == 0 then 0 else |y.frames| - 1 }

  lemma TagsGenuine(y: Sky, n: nat)
    requires n <= Gaps(y)
    ensures AllGenuine(y, y.Tags(n))
  {
    TagsMean(y, n);
    forall i | 0 <= i < |y.Tags(n)| ensures Genuine(y, y.Tags(n)[i]) {
      assert y.Tags(n)[i] in y.Tags(n);
    }
  }

  /** The whole trail of the hour, before clipping. */
  ghost function Trail(y: Sky): seq<Point>
    requires y.Valid()
  {
    TagsGenuine(y, Gaps(y));
    PointsOf(y, y.Tags(Gaps(y)))
  }

  predicate OnMap(y: Sky, p: Point) {
    0 <= RoundHalfEven(p.row) < y.mapRows && 0 <= RoundHalfEven(p.col) < y.w
  }

  function DotOf(y: Sky, p: Point): Dot {
    Dot(Flat(RoundHalfEven(p.row), RoundHalfEven(p.col), y.w), p.t, p.alt)
  }

  function Clipped(y: Sky, pts: seq<Point>): seq<Dot> {
    if pts == [] then []
    else
      var rest, p := Clipped(y, pts[..|pts| - 1]), pts[|pts| - 1];
      if OnMap(y, p) then rest + [DotOf(y, p)] else rest
  }

  /** The dots are exactly the on-map points, each on its own pixel of the map. */
  lemma {:induction false} ClippedMeans(y: Sky, pts: seq<Point>)
    ensures forall d :: d in Clipped(y, pts) <==> exists p :: p in pts && OnMap(y, p) && d == DotOf(y, p)
    ensures forall d :: d in Clipped(y, pts) ==> 0 <= d.flat < y.mapRows * y.w
  {
    if pts != [] {
      var init, last := pts[..|pts| - 1], pts[|pts| - 1];
      ClippedMeans(y, init);
      assert pts == init + [last];
      forall d ensures d in Clipped(y, pts) <==> exists p :: p in pts && OnMap(y, p) && d == DotOf(y, p) {
        if p :| p in pts && OnMap(y, p) && d == DotOf(y, p) {
          assert p in init || p == last;
        }
      }
      if OnMap(y, last) {
        FlatInRange(RoundHalfEven(last.row), RoundHalfEven(last.col), y.mapRows, y.w);
      }
    }
  }

  /** Clipping takes each point by itself and in turn. */
  lemma {:induction false} ClippedJoins(y: Sky, a: seq<Point>, b: seq<Point>)
    ensures Clipped(y, a + b) == Clipped(y, a) + Clipped(y, b)
  {
    if b == [] {
      assert a + b == a;
    } else {
      assert (a + b)[..|a + b| - 1] == a + b[..|b| - 1];
      ClippedJoins(y, a, b[..|b| - 1]);
    }
  }

  /** The trail loop of `lay_out`, off the filled grid. */
  method BuildTrail(y: Sky, pos: array2<Option<Pos>>, alts: array2<int>) returns (pts: seq<Point>)
    requires y.Valid() && GridIs(y, pos, alts, |y.frames|)
    ensures pts == Trail(y)
  {
    pts := [];
    for k := 0 to Gaps(y)
      invariant AllGenuine(y, y.Tags(k)) && pts == PointsOf(y, y.Tags(k))
    {
      var gap := GapPoints(y, pos, alts, k);
      PointsConcat(y, y.Tags(k), y.GapTags(k, y.samples));
      pts := pts + gap;
    }
  }

  method GapPoints(y: Sky, pos: array2<Option<Pos>>, alts: array2<int>, k: nat) returns (pts: seq<Point>)
    requires y.Valid() && GridIs(y, pos, alts, |y.frames|) && k + 1 < |y.frames|
    ensures AllGenuine(y, y.GapTags(k, y.samples)) && pts == PointsOf(y, y.GapTags(k, y.samples))
  {
    pts := [];
    for s := 0 to y.samples
      invariant AllGenuine(y, y.GapTags(k, s)) && pts == PointsOf(y, y.GapTags(k, s))
    {
      var step := StepPoints(y, pos, alts, k, s);
      PointsConcat(y, y.GapTags(k, s), y.StepTags(k, s));
      pts := pts + step;
    }
  }

  method StepPoints(y: Sky, pos: array2<Option<Pos>>, alts: array2<int>, k: nat, s: nat) returns (pts: seq<Point>)
    requires y.Valid() && GridIs(y, pos, alts, |y.frames|) && k + 1 < |y.frames| && s < y.samples
    ensures AllGenuine(y, y.StepTags(k, s)) && pts == PointsOf(y, y.StepTags(k, s))
  {
    pts := [];
    var pairs := y.Pairs(k);
    for i := 0 to |pairs|
      invariant |pts| == i
      invariant forall m :: 0 <= m < i ==> Genuine(y, Tag(k, s, pairs[m])) && pts[m] == y.PointAt(Tag(k, s, pairs[m]))
    {
      var pt := OnePoint(y, pos, alts, k, s, pairs[i]);
      pts := pts + [pt];
    }
  }

  method OnePoint(y: Sky, pos: array2<Option<Pos>>, alts: array2<int>, k: nat, s: nat, a: nat) returns (pt: Point)
    requires y.Valid() && GridIs(y, pos, alts, |y.frames|) && Genuine(y, Tag(k, s, a))
    ensures pt == y.PointAt(Tag(k, s, a))
  {
    var u := s as real / y.samples as real;
    var p, q := pos[k, a].value, pos[k + 1, a].value;
    pt := Point(Mix(u, p.row, q.row), Mix(u, p.col, q.col), k as real + u, alts[k, a]);
  }

  /** `lay_out`: from the kept frames to the dots, or nothing when no aircraft was ever heard. */
  method LayOut(frames: seq<Frame>, extent: Extent, mapRows: nat, w: nat, samples: nat)
    returns (art: Option<(Sky, seq<Dot>)>)
    requires extent.Valid() && samples >= 2 && mapRows > 0 && w > 0
    requires forall k :: 0 <= k < |frames| ==> frames[k].WellFormed()
    ensures art.None? <==> OrderOf(frames) == []
    ensures art.Some? ==> art.value.0 == Sky(frames, OrderOf(frames), extent, mapRows, w, samples)
    ensures art.Some? ==> art.value.1 == Clipped(art.value.0, Trail(art.value.0))
  {
    var order, index := Columns(frames);
    if order == [] {
      return None;
    }
    var y := Sky(frames, order, extent, mapRows, w, samples);
    var pos, alts := FillGrid(y, index);
    var pts := BuildTrail(y, pos, alts);
    art := Some((y, Clipped(y, pts)));
  }

  /** Every dot of a laid-out hour comes from one aircraft heard in two consecutive frames, is drawn
      on the segment between those fixes, lands on the map, and falls due before the last frame. */
  lemma DotsNeverBridgeAGap(y: Sky, d: Dot) returns (tag: Tag)
    requires y.Valid() && d in Clipped(y, Trail(y))
    ensures Genuine(y, tag) && d == DotOf(y, y.PointAt(tag))
    ensures 0 <= d.flat < y.mapRows * y.w
    ensures tag.k as real <= d.t < (tag.k + 1) as real <= Gaps(y) as real
    ensures d.alt == y.frames[tag.k].alt[y.EntryOf(tag.k, tag.a)]
    ensures Abs((d.flat / y.w) as real - y.PointAt(tag).row) <= 0.5 && Abs((d.flat % y.w) as real - y.PointAt(tag).col) <= 0.5
  {
    ClippedMeans(y, Trail(y));
    var p :| p in Trail(y) && OnMap(y, p) && d == DotOf(y, p);
    tag := TagOfPoint(y, p);
    PointOnSegment(y, tag);
    PixelIsNearest(y, p);
  }

  /** A point is drawn on the pixel nearest to it. */
  lemma PixelIsNearest(y: Sky, p: Point)
    requires y.w > 0 && OnMap(y, p)
    ensures var d := DotOf(y, p);
      Abs((d.flat / y.w) as real - p.row) <= 0.5 && Abs((d.flat % y.w) as real - p.col) <= 0.5 && d.t == p.t && d.alt == p.alt
  {
    FlatSplits(RoundHalfEven(p.row), RoundHalfEven(p.col), y.w);
    RoundIsNearest(p.row);
    RoundIsNearest(p.col);
  }

  /** It is drawn at all when that pixel is on the map, and a point half a pixel inside is. */
  lemma DrawnInside(y: Sky, p: Point)
    ensures 0.0 <= p.row < y.mapRows as real - 0.5 && 0.0 <= p.col < y.w as real - 0.5 ==> OnMap(y, p)
    ensures OnMap(y, p) ==> -0.5 <= p.row <= y.mapRows as real - 0.5 && -0.5 <= p.col <= y.w as real - 0.5
  {
  }

  lemma TagOfPoint(y: Sky, p: Point) returns (tag: Tag)
    requires y.Valid() && p in Trail(y)
    ensures Genuine(y, tag) && p == y.PointAt(tag)
  {
    TagsGenuine(y, Gaps(y));
    var i :| 0 <= i < |Trail(y)| && Trail(y)[i] == p;
    tag := y.Tags(Gaps(y))[i];
  }

  // ----- the reveal

  /** How far through the hour the replay is at time `t`, in frames: one pass, then a hold. */
  function FramePos(t: real, loopS: real, holdS: real, nf: nat): real
    requires loopS > 0.0 && holdS >= 0.0 && nf > 0
  {
    var p := Mod(t, loopS + holdS) / loopS;
    Along(if p >= 1.0 then 1.0 else p, nf)
  }

  function Along(p: real, nf: nat): real
    requires nf > 0
  {
    p * Max(0.000001, (nf - 1) as real)
  }

  predicate Shown(d: Dot, fpos: real) { d.t <= fpos }

  /** A dot is on the panel once the pass has run the part of its seconds that the dot's time is of the
      hour's gaps, counting no more than one pass. */
  lemma ShownIff(d: Dot, t: real, loopS: real, holdS: real, nf: nat)
    requires loopS > 0.0 && holdS >= 0.0 && nf > 1
    ensures Shown(d, FramePos(t, loopS, holdS, nf)) <==>
      Weighed(d.t, loopS) <= Weighed(Min(Mod(t, loopS + holdS), loopS), (nf - 1) as real)
  {
    ModRange(t, loopS + holdS);
    PassPart(Mod(t, loopS + holdS), loopS, d.t, (nf - 1) as real);
  }

  lemma PassPart(x: real, loopS: real, due: real, n: real)
    requires x >= 0.0 && loopS > 0.0 && n >= 1.0
    ensures var p := x / loopS;
      due <= (if p >= 1.0 then 1.0 else p) * n <==> Weighed(due, loopS) <= Weighed(Min(x, loopS), n)
  {
    var p := x / loopS;
    assert p * loopS == x;
    var q := if p >= 1.0 then 1.0 else p;
    if p >= 1.0 {
      MulLe(loopS, 1.0, p);
      assert loopS * p >= loopS * 1.0;
    } else {
      MulLt(loopS, p, 1.0);
      assert loopS * p < loopS * 1.0;
    }
    assert q * loopS == Min(x, loopS);
    PartOfPass(due, q, loopS, n);
  }

  lemma PartOfPass(due: real, q: real, loopS: real, n: real)
    requires loopS > 0.0
    ensures due <= q * n <==> Weighed(due, loopS) <= Weighed(q * loopS, n)
  {
    OrderWeighed(due, q * n, loopS);
    Exchange(q, n, loopS);
  }

  lemma Exchange(q: real, n: real, loopS: real)
    ensures Weighed(q * n, loopS) == Weighed(q * loopS, n)
  {
  }

  lemma AlongOrder(p: real, q: real, nf: nat)
    requires 0.0 <= p <= q && nf > 0
    ensures 0.0 <= Along(p, nf) <= Along(q, nf)
  {
    var m, d := Max(0.000001, (nf - 1) as real), q - p;
    MulNonNeg(p, m);
    MulNonNeg(d, m);
    assert d * m == q * m - p * m;
  }

  /** Within one pass the revealed set only grows. */
  lemma RevealGrows(t: real, t': real, loopS: real, holdS: real, nf: nat, d: Dot)
    requires loopS > 0.0 && holdS >= 0.0 && nf > 0
    requires Mod(t, loopS + holdS) <= Mod(t', loopS + holdS)
    ensures Shown(d, FramePos(t, loopS, holdS, nf)) ==> Shown(d, FramePos(t', loopS, holdS, nf))
  {
    var a, b := Mod(t, loopS + holdS), Mod(t', loopS + holdS);
    ModRange(t, loopS + holdS);
    DivMonotone(0.0, a, loopS);
    DivMonotone(a, b, loopS);
    var p, q := a / loopS, b / loopS;
    AlongOrder(if p >= 1.0 then 1.0 else p, if q >= 1.0 then 1.0 else q, nf);
  }

  /** No dot falls due later than the last sample of the last gap. */
  function LastDue(y: Sky): real
    requires y.Valid()
  {
    Gaps(y) as real - 1.0 / y.samples as real
  }

  /** That instant as a fraction of one pass: always short of the end. */
  function DueShare(y: Sky): (share: real)
    requires y.Valid() && Gaps(y) > 0
    ensures 0.0 <= share < 1.0
  {
    LastDueBounds(y);
    FractionBounds(LastDue(y), Gaps(y) as real);
    LastDue(y) / Gaps(y) as real
  }

  lemma LastDueBounds(y: Sky)
    requires y.Valid() && Gaps(y) > 0
    ensures 0.0 <= LastDue(y) < Gaps(y) as real
  {
    FractionBounds(1.0, y.samples as real);
    DivPos(1.0, y.samples as real);
  }

  lemma DueByThen(y: Sky, d: Dot)
    requires y.Valid() && d in Clipped(y, Trail(y))
    ensures Gaps(y) > 0 && d.t <= LastDue(y)
  {
    var tag := DotsNeverBridgeAGap(y, d);
    LastSample(tag.s, y.samples);
  }

  lemma LastSample(s: nat, samples: nat)
    requires s < samples
    ensures s as real / samples as real <= 1.0 - 1.0 / samples as real
  {
    var n := samples as real;
    DivMonotone(s as real, n - 1.0, n);
    assert (n - 1.0) / n == n / n - 1.0 / n;
  }

  /** Once a pass has run the share of its seconds at which the last sample falls due, every dot of
      the hour is on the panel, to the end of the pass and through any hold, of no length included. */
  lemma RevealCompletes(y: Sky, t: real, loopS: real, holdS: real, d: Dot)
    requires y.Valid() && loopS > 0.0 && holdS >= 0.0 && d in Clipped(y, Trail(y))
    requires Gaps(y) > 0 ==> Mod(t, loopS + holdS) / loopS >= DueShare(y)
    ensures |y.frames| > 0 && Shown(d, FramePos(t, loopS, holdS, |y.frames|))
  {
    DueByThen(y, d);
    var p := Mod(t, loopS + holdS) / loopS;
    AlongOrder(DueShare(y), if p >= 1.0 then 1.0 else p, |y.frames|);
    AlongOfShare(y);
  }

  lemma AlongOfShare(y: Sky)
    requires y.Valid() && Gaps(y) > 0
    ensures Along(DueShare(y), |y.frames|) == LastDue(y)
  {
    var n := Gaps(y) as real;
    assert LastDue(y) / n * n == LastDue(y);
  }

  /** Every pass has such a moment, before its seconds are up. */
  lemma PassCompletes(y: Sky, loopS: real, holdS: real, pass: int, t: real)
    requires y.Valid() && Gaps(y) > 0 && loopS > 0.0 && holdS >= 0.0
    requires t == PassStart(pass, loopS + holdS) + Weighed(DueShare(y), loopS)
    ensures PassStart(pass, loopS + holdS) <= t < PassStart(pass, loopS + holdS) + loopS
    ensures Mod(t, loopS + holdS) < loopS && Mod(t, loopS + holdS) / loopS == DueShare(y)
  {
    ShareOfPass(DueShare(y), loopS, loopS + holdS, pass);
  }

  /** When a pass starts: after so many cycles. */
  function PassStart(pass: int, cycle: real): real { Weighed(pass as real, cycle) }

  lemma ShareOfPass(share: real, loopS: real, cycle: real, pass: int)
    requires 0.0 <= share < 1.0 && 0.0 < loopS <= cycle
    ensures 0.0 <= Weighed(share, loopS) < loopS
    ensures var t := PassStart(pass, cycle) + Weighed(share, loopS);
      Mod(t, cycle) < loopS && Mod(t, cycle) / loopS == share
  {
    MulFraction(share, loopS);
    var x := Weighed(share, loopS);
    ModOfSmall(x, cycle);
    QuotientOfProduct(share, loopS);
    ModShift(x, pass, cycle);
  }

  /** The last shown dot on pixel `x` among the first `n`: a later dot overwrites an earlier one. */
  function LastDot(dots: seq<Dot>, fpos: real, x: int, n: nat): (i: int)
    requires n <= |dots|
    ensures -1 <= i < n
    ensures i >= 0 ==> Shown(dots[i], fpos) && dots[i].flat == x
    ensures forall j :: i < j < n ==> !(Shown(dots[j], fpos) && dots[j].flat == x)
  {
    if n == 0 then -1
    else if Shown(dots[n - 1], fpos) && dots[n - 1].flat == x then n - 1
    else LastDot(dots, fpos, x, n - 1)
  }

  /** The trail part of `render`: on a fresh copy of the map, a pixel is lit exactly when a shown dot
      is on it, in the shade of the last such dot. */
  method DrawTrail<C>(mv: array<C>, dots: seq<Dot>, fpos: real, shade: Dot -> C)
    requires forall i :: 0 <= i < |dots| ==> 0 <= dots[i].flat < mv.Length
    modifies mv
    ensures forall x :: 0 <= x < mv.Length ==> var i := LastDot(dots, fpos, x, |dots|);
      mv[x] == if i < 0 then old(mv[x]) else shade(dots[i])
  {
    for n := 0 to |dots|
      invariant forall x :: 0 <= x < mv.Length ==> var i := LastDot(dots, fpos, x, n);
        mv[x] == if i < 0 then old(mv[x]) else shade(dots[i])
    {
      if Shown(dots[n], fpos) {
        mv[dots[n].flat] := shade(dots[n]);
      }
    }
  }

  // ----- the heads

  function HeadFrame(fpos: real, nf: nat): int {
    if nf <= 1 then 0 else if fpos.Floor < nf - 2 then fpos.Floor else nf - 2
  }

  /** The spot marked for an aircraft when the replay has come to frame time `fpos`: part way from its
      earlier fix to its later one, its earlier fix if it then falls silent, or none. */
  function Head(y: Sky, fpos: real, a: nat): Option<Pos>
    requires y.Valid() && a < |y.order| && fpos >= 0.0 && |y.frames| > 0
  {
    var k := HeadFrame(fpos, |y.frames|);
    var here := y.FixAt(k, a);
    if |y.frames| > 1 && here.Some? && y.FixAt(k + 1, a).Some? then
      var next, u := y.FixAt(k + 1, a).value, fpos - k as real;
      Some(Pos(Mix(u, here.value.row, next.row), Mix(u, here.value.col, next.col)))
    else here
  }

  /** When a trail point falls due, the head of its aircraft is exactly on it. */
  lemma HeadIsOnTheTrail(y: Sky, tag: Tag)
    requires y.Valid() && Genuine(y, tag)
    ensures var p := y.PointAt(tag); p.t >= 0.0 && Head(y, p.t, tag.a) == Some(Pos(p.row, p.col))
  {
    PointOnSegment(y, tag);
    assert y.PointAt(tag).t.Floor == tag.k;
  }

  /** Between two frames the head is between the two fixes, by the part of the way the time is; an aircraft
      heard only in the earlier frame is held there, and one not heard there has no head. */
  lemma HeadIs(y: Sky, k: nat, u: real, a: nat)
    requires y.Valid() && a < |y.order| && k + 1 < |y.frames| && 0.0 <= u < 1.0
    ensures var here, next := y.FixAt(k, a), y.FixAt(k + 1, a); var head := Head(y, k as real + u, a);
      && (here.None? ==> head.None?)
      && (here.Some? && next.None? ==> head == here)
      && (here.Some? && next.Some? ==> head == Some(Pos(Mix(u, here.value.row, next.value.row), Mix(u, here.value.col, next.value.col))))
  {
    assert (k as real + u).Floor == k;
  }

  /** Through the hold it stays at the last frame's fix. */
  lemma HeadAtTheEnd(y: Sky, a: nat)
    requires y.Valid() && a < |y.order| && |y.frames| > 1
    requires y.FixAt(|y.frames| - 2, a).Some? && y.FixAt(|y.frames| - 1, a).Some?
    ensures Head(y, (|y.frames| - 1) as real, a) == y.FixAt(|y.frames| - 1, a)
  {
    var p, q := y.FixAt(|y.frames| - 2, a).value, y.FixAt(|y.frames| - 1, a).value;
    MixWhole(p.row, q.row);
    MixWhole(p.col, q.col);
  }

  lemma HeadOfOneFrame(y: Sky, fpos: real, a: nat)
    requires y.Valid() && a < |y.order| && |y.frames| == 1 && fpos >= 0.0
    ensures Head(y, fpos, a) == y.FixAt(0, a)
  {
  }

  lemma MixWhole(a: real, b: real)
    ensures Mix(1.0, a, b) == b
  {
    assert 1.0 * a == a && 1.0 * b == b;
  }

  // ----- the altitude ramp: a square root, so compared by squares

  const ALT_CEIL := 45000.0

  function Ramp255(alt: real, i: nat): (r: nat)
    ensures r <= i
    ensures r > 0 ==> (r * r) as real * ALT_CEIL <= 65025.0 * Clip(alt, 0.0, ALT_CEIL)
    ensures forall j: nat :: r < j <= i ==> (j * j) as real * ALT_CEIL > 65025.0 * Clip(alt, 0.0, ALT_CEIL)
  {
    if i == 0 || (i * i) as real * ALT_CEIL <= 65025.0 * Clip(alt, 0.0, ALT_CEIL) then i else Ramp255(alt, i - 1)
  }

  function AltIndex(alt: real): (i: nat)
    ensures i <= 255
  {
    Ramp255(alt, 255)
  }

  /** The ramp index never falls as the altitude rises, and uses both ends of the table. */
  lemma AltIndexMonotone(a: real, b: real)
    requires a <= b
    ensures AltIndex(a) <= AltIndex(b)
    ensures a <= 0.0 ==> AltIndex(a) == 0
    ensures b >= ALT_CEIL ==> AltIndex(b) == 255
  {
  }
}
