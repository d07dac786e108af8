/** The plate under the sand in `demos/chladni.py`: normalised slopes, and which figure is showing. */
module ChladniField {
  import opened RealSeq
  import opened Interpolation
  import opened FlatGrid
  import opened Chladni

  /** The slope of `|s|` along a row: central differences inside, one-sided at the two ends. */
  function RawX(s: array2<real>, y: int, x: int): real
    requires s.Length1 >= 2 && 0 <= y < s.Length0 && 0 <= x < s.Length1
    reads s
  {
    if x == 0 then Abs(s[y, 1]) - Abs(s[y, 0])
    else if x == s.Length1 - 1 then Abs(s[y, x]) - Abs(s[y, x - 1])
    else (Abs(s[y, x + 1]) - Abs(s[y, x - 1])) * 0.5
  }

  function RawY(s: array2<real>, y: int, x: int): real
    requires s.Length0 >= 2 && 0 <= y < s.Length0 && 0 <= x < s.Length1
    reads s
  {
    if y == 0 then Abs(s[1, x]) - Abs(s[0, x])
    else if y == s.Length0 - 1 then Abs(s[y, x]) - Abs(s[y - 1, x])
    else (Abs(s[y + 1, x]) - Abs(s[y - 1, x])) * 0.5
  }

  /** Where the plate's motion grows by a parabola along its rows the slope is that parabola's own, and at the
      two ends that of the last step. */
  lemma SlopeAlongRow(s: array2<real>, y: int, x: int, a: real, b: real, c: real)
    requires s.Length1 >= 2 && 0 <= y < s.Length0 && 0 <= x < s.Length1
    requires forall k :: 0 <= k < s.Length1 ==> Abs(s[y, k]) == Parabola(a, b, c, k)
    ensures 0 < x < s.Length1 - 1 ==> RawX(s, y, x) == b + Weighed(c, 2.0 * x as real)
    ensures x == 0 ==> RawX(s, y, x) == b + c
    ensures x == s.Length1 - 1 ==> RawX(s, y, x) == b + Weighed(c, 2.0 * x as real - 1.0)
  {
    ParabolaSlopes(a, b, c, x);
  }

  lemma SlopeDownColumn(s: array2<real>, y: int, x: int, a: real, b: real, c: real)
    requires s.Length0 >= 2 && 0 <= y < s.Length0 && 0 <= x < s.Length1
    requires forall k :: 0 <= k < s.Length0 ==> Abs(s[k, x]) == Parabola(a, b, c, k)
    ensures 0 < y < s.Length0 - 1 ==> RawY(s, y, x) == b + Weighed(c, 2.0 * y as real)
    ensures y == 0 ==> RawY(s, y, x) == b + c
    ensures y == s.Length0 - 1 ==> RawY(s, y, x) == b + Weighed(c, 2.0 * y as real - 1.0)
  {
    ParabolaSlopes(a, b, c, y);
  }

  function Parabola(a: real, b: real, c: real, k: int): real { a + b * k as real + c * (k as real * k as real) }

  lemma ParabolaSlopes(a: real, b: real, c: real, k: int)
    ensures (Parabola(a, b, c, k + 1) - Parabola(a, b, c, k - 1)) * 0.5 == b + Weighed(c, 2.0 * k as real)
    ensures Parabola(a, b, c, 1) - Parabola(a, b, c, 0) == b + c
    ensures Parabola(a, b, c, k) - Parabola(a, b, c, k - 1) == b + Weighed(c, 2.0 * k as real - 1.0)
  {
    ParabolaStep(a, b, c, k);
    ParabolaStep(a, b, c, k - 1);
    ParabolaStep(a, b, c, 0);
    var x := k as real;
    assert (k - 1) as real == x - 1.0;
    assert c * (2.0 * x + 1.0) + c * (2.0 * (x - 1.0) + 1.0) == 2.0 * Weighed(c, 2.0 * x);
    assert c * (2.0 * (x - 1.0) + 1.0) == Weighed(c, 2.0 * x - 1.0);
    assert c * (2.0 * 0.0 + 1.0) == c;
  }

  lemma ParabolaStep(a: real, b: real, c: real, k: int)
    ensures Parabola(a, b, c, k + 1) - Parabola(a, b, c, k) == b + c * (2.0 * k as real + 1.0)
  {
    var x := k as real;
    assert (k + 1) as real == x + 1.0;
    assert (x + 1.0) * (x + 1.0) == x * x + 2.0 * x + 1.0;
    assert c * (x * x + 2.0 * x + 1.0) == c * (x * x) + c * (2.0 * x + 1.0);
    assert b * (x + 1.0) == b * x + b;
  }

  ghost predicate Bounds(a: array2<real>, top: real)
    reads a
  {
    forall y, x :: 0 <= y < a.Length0 && 0 <= x < a.Length1 ==> Abs(a[y, x]) <= top
  }

  ghost predicate Attains(a: array2<real>, top: real)
    reads a
  {
    exists y, x :: 0 <= y < a.Length0 && 0 <= x < a.Length1 && Abs(a[y, x]) == top
  }

  /** `np.abs(a).max()`. */
  method MaxAbs(a: array2<real>) returns (top: real)
    requires a.Length0 > 0 && a.Length1 > 0
    ensures Bounds(a, top) && Attains(a, top)
  {
    top := Abs(a[0, 0]);
    for y := 0 to a.Length0
      invariant Attains(a, top)
      invariant forall j, x :: 0 <= j < y && 0 <= x < a.Length1 ==> Abs(a[j, x]) <= top
    {
      for x := 0 to a.Length1
        invariant Attains(a, top)
        invariant forall j, i :: 0 <= j < y && 0 <= i < a.Length1 ==> Abs(a[j, i]) <= top
        invariant forall i :: 0 <= i < x ==> Abs(a[y, i]) <= top
      {
        if Abs(a[y, x]) > top { top := Abs(a[y, x]); }
      }
    }
  }

  function Over(raw: real, steepest: real): real
    requires steepest > 0.0
  {
    raw * (1.0 / steepest)
  }

  method ScaleBy(a: array2<real>, steepest: real)
    requires steepest > 0.0
    modifies a
    ensures forall y, x :: 0 <= y < a.Length0 && 0 <= x < a.Length1 ==> a[y, x] == Over(old(a[y, x]), steepest)
  {
    forall y, x | 0 <= y < a.Length0 && 0 <= x < a.Length1 { a[y, x] := Over(a[y, x], steepest); }
  }

  /** One component normalised by the steepest slope found in either. */
  ghost predicate Normalised(raw: real, value: real, steepest: real) {
    steepest > 0.0 && value == Over(raw, steepest) && Abs(raw) <= steepest
  }

  method Normalise(gx: array2<real>, gy: array2<real>) returns (steepest: real)
    requires gx != gy && gx.Length0 > 0 && gx.Length1 > 0 && gy.Length0 > 0 && gy.Length1 > 0
    modifies gx, gy
    ensures steepest >= 0.000001
    ensures forall y, x :: 0 <= y < gx.Length0 && 0 <= x < gx.Length1 ==> Normalised(old(gx[y, x]), gx[y, x], steepest)
    ensures forall y, x :: 0 <= y < gy.Length0 && 0 <= x < gy.Length1 ==> Normalised(old(gy[y, x]), gy[y, x], steepest)
    ensures steepest == 0.000001 || old(Attains(gx, steepest)) || old(Attains(gy, steepest))
  {
    var mx := MaxAbs(gx);
    var my := MaxAbs(gy);
    steepest := Max(Max(mx, my), 0.000001);
    ScaleBy(gx, steepest);
    ScaleBy(gy, steepest);
  }

  method Slopes(s: array2<real>, gx: array2<real>, gy: array2<real>)
    requires s.Length0 >= 2 && s.Length1 >= 2
    requires gx.Length0 == gy.Length0 == s.Length0 && gx.Length1 == gy.Length1 == s.Length1
    requires s != gx && s != gy && gx != gy
    modifies gx, gy
    ensures forall y, x :: 0 <= y < s.Length0 && 0 <= x < s.Length1 ==> gx[y, x] == RawX(s, y, x)
    ensures forall y, x :: 0 <= y < s.Length0 && 0 <= x < s.Length1 ==> gy[y, x] == RawY(s, y, x)
  {
    forall y, x | 0 <= y < s.Length0 && 0 <= x < s.Length1 { gx[y, x] := RawX(s, y, x); }
    forall y, x | 0 <= y < s.Length0 && 0 <= x < s.Length1 { gy[y, x] := RawY(s, y, x); }
  }

  /** `derive`: how far each point moves, and its slopes as shares of the steepest anywhere. */
  method Derive(s: array2<real>, amp: array2<real>, gx: array2<real>, gy: array2<real>) returns (steepest: real)
    requires s.Length0 >= 2 && s.Length1 >= 2
    requires amp.Length0 == gx.Length0 == gy.Length0 == s.Length0
    requires amp.Length1 == gx.Length1 == gy.Length1 == s.Length1
    requires s != amp && s != gx && s != gy && amp != gx && amp != gy && gx != gy
    modifies amp, gx, gy
    ensures forall y, x :: 0 <= y < s.Length0 && 0 <= x < s.Length1 ==> amp[y, x] == Abs(s[y, x])
    ensures forall y, x :: 0 <= y < s.Length0 && 0 <= x < s.Length1 ==> Normalised(RawX(s, y, x), gx[y, x], steepest)
    ensures forall y, x :: 0 <= y < s.Length0 && 0 <= x < s.Length1 ==> Normalised(RawY(s, y, x), gy[y, x], steepest)
    ensures steepest == 0.000001 || SomeSlopeIs(s, steepest)
  {
    forall y, x | 0 <= y < s.Length0 && 0 <= x < s.Length1 { amp[y, x] := Abs(s[y, x]); }
    Slopes(s, gx, gy);
    steepest := Normalise(gx, gy);
  }

  ghost predicate SomeSlopeIs(s: array2<real>, steepest: real)
    requires s.Length0 >= 2 && s.Length1 >= 2
    reads s
  {
    exists y, x :: 0 <= y < s.Length0 && 0 <= x < s.Length1
                && (Abs(RawX(s, y, x)) == steepest || Abs(RawY(s, y, x)) == steepest)
  }

  /** A normalised slope is at most one, and is one exactly where the field is steepest. */
  lemma NormalisedSlope(raw: real, value: real, steepest: real)
    requires Normalised(raw, value, steepest)
    ensures Abs(value) <= 1.0
    ensures Abs(value) == 1.0 <==> Abs(raw) == steepest
  {
    var q := raw / steepest;
    assert q * steepest == raw;
    assert value == q;
  }

  /** On normalised fields a grain is carried no further than one step and its own random throw... */
  lemma KickIsBounded(d: Drive, slope: seq<real>, i: int, z: real)
    requires 0 <= i < |slope| == |d.amp|
    requires Abs(slope[i]) <= 1.0 && 0.0 <= d.amp[i] <= 1.0
    requires d.stepLen >= 0.0 && d.jitter >= 0.0 && d.creep >= 0.0 && d.shake >= 0.0
    ensures Abs(Kick(d, slope, i, z)) <= d.stepLen + MostThrown(z, Shaken(d.jitter, d.shake), Shaken(d.creep, d.shake))
  {
    ShakenNonNegative(d.jitter, d.shake);
    ShakenNonNegative(d.creep, d.shake);
    ThrownBound(z, d.amp[i], Shaken(d.jitter, d.shake), Shaken(d.creep, d.shake));
    SlopeStep(slope[i], d.stepLen);
  }

  lemma ShakenNonNegative(sigma: real, shake: real)
    requires sigma >= 0.0 && shake >= 0.0
    ensures Shaken(sigma, shake) >= 0.0
  {
    MulNonNeg(sigma, shake);
  }

  function MostThrown(z: real, jitter: real, creep: real): real { Abs(z) * (jitter + creep) }

  lemma ThrownBound(z: real, amp: real, jitter: real, creep: real)
    requires 0.0 <= amp <= 1.0 && jitter >= 0.0 && creep >= 0.0
    ensures Abs(Thrown(z, amp, jitter, creep)) <= MostThrown(z, jitter, creep)
  {
    AmpThrow(amp, jitter);
    var k, most := amp * jitter + creep, jitter + creep;
    AbsProduct(z, k, most);
    assert Abs(z * k) <= Abs(z) * most;
  }

  lemma AmpThrow(a: real, j: real)
    requires 0.0 <= a <= 1.0 && j >= 0.0
    ensures 0.0 <= a * j <= j
  {
    MulNonNeg(a, j);
    var u := 1.0 - a;
    MulNonNeg(u, j);
    assert u * j == j - a * j;
  }

  lemma AbsProduct(z: real, k: real, most: real)
    requires 0.0 <= k <= most
    ensures Abs(z * k) <= Abs(z) * most
  {
    var a, d := Abs(z), most - k;
    MulNonNeg(a, k);
    MulNonNeg(a, d);
    assert a * d == a * most - a * k;
    assert z * k == a * k || z * k == -(a * k);
  }

  lemma SlopeStep(g: real, len: real)
    requires Abs(g) <= 1.0 && len >= 0.0
    ensures Abs(Rolled(g, len)) <= len
  {
    var u, v := 1.0 - g, 1.0 + g;
    MulNonNeg(u, len);
    MulNonNeg(v, len);
    assert u * len == len - Rolled(g, len);
    assert v * len == len + Rolled(g, len);
  }

  /** ...so a throw short of two plate widths can never leave the plate. */
  lemma GrainNeverLeaves(d: Drive, x: real, slope: seq<real>, i: int, z: real, far: real)
    requires 0 <= i < |slope| == |d.amp| && far >= 0.0 && 0.0 <= x <= far
    requires Abs(slope[i]) <= 1.0 && 0.0 <= d.amp[i] <= 1.0
    requires d.stepLen >= 0.0 && d.jitter >= 0.0 && d.creep >= 0.0 && d.shake >= 0.0
    requires d.stepLen + MostThrown(z, Shaken(d.jitter, d.shake), Shaken(d.creep, d.shake)) <= 2.0 * far
    ensures 0.0 <= Moved(d, x, slope, i, z, far) <= far
  {
    KickIsBounded(d, slope, i, z);
    GrainStays(x, Kick(d, slope, i, z), far);
  }

  // ----- a run on derived fields

  /** Fields as `derive` leaves them for figures that stay within one, and settings that are not negative. */
  ghost predicate Tame(d: Drive, cells: nat) {
    && |d.gx| == |d.gy| == |d.amp| == cells
    && (forall i :: 0 <= i < cells ==> Abs(d.gx[i]) <= 1.0 && Abs(d.gy[i]) <= 1.0 && 0.0 <= d.amp[i] <= 1.0)
    && d.stepLen >= 0.0 && d.jitter >= 0.0 && d.creep >= 0.0 && d.shake >= 0.0
  }

  /** A step and this throw come to no more than two plate widths. */
  ghost predicate Gentle(d: Drive, z: real, far: real) {
    d.stepLen + MostThrown(z, Shaken(d.jitter, d.shake), Shaken(d.creep, d.shake)) <= 2.0 * far
  }

  ghost predicate AllGentle(d: Drive, noise: (seq<real>, seq<real>), n: nat, farX: real, farY: real) {
    && |noise.0| == |noise.1| == n
    && forall i :: 0 <= i < n ==> Gentle(d, noise.0[i], farX) && Gentle(d, noise.1[i], farY)
  }

  /** Every grain stands on the plate. */
  ghost predicate OnPlate(p: Plate)
    reads p, p.px, p.py
  {
    && (forall i :: 0 <= i < p.px.Length ==> 0.0 <= p.px[i] <= Far(p.w))
    && forall i :: 0 <= i < p.py.Length ==> 0.0 <= p.py[i] <= Far(p.h)
  }

  /** One frame on tame fields leaves every grain on the plate, wherever it was. */
  method StepOn(p: Plate, d: Drive, noise: (seq<real>, seq<real>))
    requires p.Valid() && p.w >= 2 && p.h >= 2 && Tame(d, p.h * p.w)
    requires AllGentle(d, noise, p.px.Length, Far(p.w), Far(p.h))
    modifies p, p.px, p.py, p.idx, p.dep
    ensures p.Valid() && OnPlate(p)
    ensures p.Now() == old(p.Now().Next(p.w, p.h, d, noise))
  {
    ghost var cells, xs, ys := p.Standing(), p.px[..], p.py[..];
    p.Step(d, noise.0, noise.1);
    forall i | 0 <= i < |cells|
      ensures 0.0 <= p.px[i] <= Far(p.w) && 0.0 <= p.py[i] <= Far(p.h)
    {
      CellIndexInRange(xs[i], ys[i], p.w, p.h);
      GrainNeverLeaves(d, Clip(xs[i], 0.0, Far(p.w)), d.gx, cells[i], noise.0[i], Far(p.w));
      GrainNeverLeaves(d, Clip(ys[i], 0.0, Far(p.h)), d.gy, cells[i], noise.1[i], Far(p.h));
    }
  }

  /** A field unrolled row by row: `reshape(-1)`. */
  function Unrolled(a: array2<real>): (s: seq<real>)
    reads a
    ensures |s| == a.Length0 * a.Length1
  {
    seq(a.Length0 * a.Length1, i requires 0 <= i < a.Length0 * a.Length1 reads a =>
      RowAndColumn(i, a.Length0, a.Length1);
      a[i / a.Length1, i % a.Length1])
  }

  lemma RowAndColumn(i: int, h: nat, w: nat)
    requires 0 <= i < h * w
    ensures w > 0 && 0 <= i / w < h && 0 <= i % w < w
  {
  }

  lemma UnrolledWithin(a: array2<real>, lo: real, hi: real, i: nat)
    requires forall y, x :: 0 <= y < a.Length0 && 0 <= x < a.Length1 ==> lo <= a[y, x] <= hi
    requires i < a.Length0 * a.Length1
    ensures lo <= Unrolled(a)[i] <= hi
  {
    RowAndColumn(i, a.Length0, a.Length1);
  }

  lemma UnrolledAt(a: array2<real>, y: int, x: int)
    requires 0 <= y < a.Length0 && 0 <= x < a.Length1
    ensures 0 <= Flat(y, x, a.Length1) < |Unrolled(a)| && Unrolled(a)[Flat(y, x, a.Length1)] == a[y, x]
  {
    FlatInRange(y, x, a.Length0, a.Length1);
    FlatSplits(y, x, a.Length1);
  }

  /** What a grain in this cell is driven by: the slope along the row for its `x`, down the column for its
      `y`, both over the steepest, and how far the plate moves there. */
  ghost predicate DrivenBy(s: array2<real>, d: Drive, steepest: real, y: int, x: int)
    requires s.Length0 >= 2 && s.Length1 >= 2 && 0 <= y < s.Length0 && 0 <= x < s.Length1
    reads s
  {
    var i := Flat(y, x, s.Length1);
    && 0 <= i < |d.gx| == |d.gy| == |d.amp|
    && Normalised(RawX(s, y, x), d.gx[i], steepest) && Normalised(RawY(s, y, x), d.gy[i], steepest)
    && d.amp[i] == Abs(s[y, x])
  }

  /** Every cell is driven so, by the steepest slope that some point has unless the figure is all but flat. */
  ghost predicate AllDriven(s: array2<real>, d: Drive, steepest: real)
    requires s.Length0 >= 2 && s.Length1 >= 2
    reads s
  {
    && (steepest == 0.000001 || SomeSlopeIs(s, steepest))
    && forall y, x :: 0 <= y < s.Length0 && 0 <= x < s.Length1 ==> DrivenBy(s, d, steepest, y, x)
  }

  /** A figure that is swung no further than one. */
  ghost predicate Bounded(s: array2<real>)
    reads s
  {
    forall y, x :: 0 <= y < s.Length0 && 0 <= x < s.Length1 ==> Abs(s[y, x]) <= 1.0
  }

  /** What one frame is run on: the figure on the plate, how hard it is shaken, and the random draws. */
  datatype Shot = Shot(s: array2<real>, shake: real, noise: (seq<real>, seq<real>))

  ghost predicate Runs(p: Plate, stepLen: real, jitter: real, creep: real, shot: Shot)
    reads shot.s
  {
    && shot.s.Length0 == p.h && shot.s.Length1 == p.w && Bounded(shot.s) && shot.shake >= 0.0
    && AllGentle(Drive([], [], [], stepLen, jitter, creep, shot.shake), shot.noise, p.px.Length, Far(p.w), Far(p.h))
  }

  /** Every cell of the drive is what the shot's figure makes of it, at the settings given. */
  ghost predicate Drives(stepLen: real, jitter: real, creep: real, shot: Shot, d: Drive)
    reads shot.s
  {
    && shot.s.Length0 >= 2 && shot.s.Length1 >= 2 && Tame(d, shot.s.Length0 * shot.s.Length1)
    && d.stepLen == stepLen && d.jitter == jitter && d.creep == creep && d.shake == shot.shake
    && exists steepest :: AllDriven(shot.s, d, steepest)
  }

  function NoiseOf(shots: seq<Shot>): (noise: seq<(seq<real>, seq<real>)>)
    ensures |noise| == |shots| && forall k :: 0 <= k < |shots| ==> noise[k] == shots[k].noise
  {
    seq(|shots|, k requires 0 <= k < |shots| => shots[k].noise)
  }

  /** The first `n` of the drives are their shots' own. */
  ghost predicate AllDrive(stepLen: real, jitter: real, creep: real, shots: seq<Shot>, ds: seq<Drive>, n: nat)
    requires n <= |shots|
    reads set k | 0 <= k < n :: shots[k].s
  {
    |ds| == n && forall k :: 0 <= k < n ==> Drives(stepLen, jitter, creep, shots[k], ds[k])
  }

  /** The sand has come through the first `n` shots on these drives. */
  ghost predicate Came(start: Sand, now: Sand, w: nat, h: nat, ds: seq<Drive>, noise: seq<(seq<real>, seq<real>)>)
    requires |start.xs| == |start.ys|
  {
    Playable(ds, noise, |start.xs|) && now == After(start, w, h, ds, noise, |ds|)
  }

  lemma CameFurther(start: Sand, now: Sand, w: nat, h: nat, ds: seq<Drive>, noise: seq<(seq<real>, seq<real>)>,
                    d: Drive, z: (seq<real>, seq<real>), next: Sand)
    requires |start.xs| == |start.ys| && Came(start, now, w, h, ds, noise)
    requires |d.gx| == |d.gy| == |d.amp| && |z.0| == |z.1| == |start.xs| && next == now.Next(w, h, d, z)
    ensures Came(start, next, w, h, ds + [d], noise + [z])
  {
    AfterLonger(start, w, h, ds, noise, |ds|, d, z);
  }

  /** The fields of every shot, as the frames need them. */
  method DriveAll(stepLen: real, jitter: real, creep: real, shots: seq<Shot>, h: nat, w: nat) returns (ds: seq<Drive>)
    requires stepLen >= 0.0 && jitter >= 0.0 && creep >= 0.0 && h >= 2 && w >= 2
    requires forall k :: 0 <= k < |shots| ==>
      shots[k].s.Length0 == h && shots[k].s.Length1 == w && Bounded(shots[k].s) && shots[k].shake >= 0.0
    ensures AllDrive(stepLen, jitter, creep, shots, ds, |shots|)
  {
    ds := [];
    for k := 0 to |shots|
      invariant AllDrive(stepLen, jitter, creep, shots, ds, k)
    {
      var d := DriveOn(shots[k].s, stepLen, jitter, creep, shots[k].shake);
      ds := ds + [d];
    }
  }

  /** Any run on tame fields: the sand is stepped on each in turn, and after every frame each grain stands on
      the plate. */
  method Run(p: Plate, ds: seq<Drive>, noise: seq<(seq<real>, seq<real>)>)
    requires p.Valid() && p.w >= 2 && p.h >= 2 && |ds| == |noise|
    requires forall k :: 0 <= k < |ds| ==>
      Tame(ds[k], p.h * p.w) && AllGentle(ds[k], noise[k], p.px.Length, Far(p.w), Far(p.h))
    modifies p, p.px, p.py, p.idx, p.dep
    ensures p.Valid() && (ds != [] ==> OnPlate(p))
    ensures Came(old(p.Now()), p.Now(), p.w, p.h, ds, noise)
  {
    ghost var start := p.Now();
    for k := 0 to |ds|
      invariant p.Valid() && (k > 0 ==> OnPlate(p))
      invariant Came(start, p.Now(), p.w, p.h, ds[..k], noise[..k])
    {
      ghost var was := p.Now();
      StepOn(p, ds[k], noise[k]);
      CameFurther(start, was, p.w, p.h, ds[..k], noise[..k], ds[k], noise[k], p.Now());
      assert ds[..k + 1] == ds[..k] + [ds[k]] && noise[..k + 1] == noise[..k] + [noise[k]];
    }
    assert ds[..|ds|] == ds && noise[..|ds|] == noise;
  }

  /** Any run over any figures, held or swept: the fields are derived from each, the sand stepped on them. */
  method RunShots(p: Plate, stepLen: real, jitter: real, creep: real, shots: seq<Shot>) returns (ds: seq<Drive>)
    requires p.Valid() && p.w >= 2 && p.h >= 2
    requires stepLen >= 0.0 && jitter >= 0.0 && creep >= 0.0
    requires forall k :: 0 <= k < |shots| ==> Runs(p, stepLen, jitter, creep, shots[k])
    modifies p, p.px, p.py, p.idx, p.dep
    ensures p.Valid() && (shots != [] ==> OnPlate(p))
    ensures old(AllDrive(stepLen, jitter, creep, shots, ds, |shots|))
    ensures Came(old(p.Now()), p.Now(), p.w, p.h, ds, NoiseOf(shots))
  {
    ds := DriveAll(stepLen, jitter, creep, shots, p.h, p.w);
    Run(p, ds, NoiseOf(shots));
  }

  /** A run reads only the frames it has come to. */
  lemma {:induction false} AfterLonger(s: Sand, w: nat, h: nat, ds: seq<Drive>, noise: seq<(seq<real>, seq<real>)>, n: nat,
                                       d: Drive, z: (seq<real>, seq<real>))
    requires n <= |ds| && |s.xs| == |s.ys| && Playable(ds, noise, |s.xs|) && Playable(ds + [d], noise + [z], |s.xs|)
    ensures After(s, w, h, ds + [d], noise + [z], n) == After(s, w, h, ds, noise, n)
  {
    if n > 0 { AfterLonger(s, w, h, ds, noise, n - 1, d, z); }
  }

  /** The fields of a figure, ready for the sand. */
  method DriveOn(s: array2<real>, stepLen: real, jitter: real, creep: real, shake: real) returns (d: Drive)
    requires s.Length0 >= 2 && s.Length1 >= 2 && Bounded(s)
    requires stepLen >= 0.0 && jitter >= 0.0 && creep >= 0.0 && shake >= 0.0
    ensures Tame(d, s.Length0 * s.Length1)
    ensures d.stepLen == stepLen && d.jitter == jitter && d.creep == creep && d.shake == shake
    ensures exists steepest :: AllDriven(s, d, steepest)
  {
    var amp := new real[s.Length0, s.Length1];
    var gx := new real[s.Length0, s.Length1];
    var gy := new real[s.Length0, s.Length1];
    var steepest := Derive(s, amp, gx, gy);
    forall y, x | 0 <= y < s.Length0 && 0 <= x < s.Length1
      ensures -1.0 <= gx[y, x] <= 1.0 && -1.0 <= gy[y, x] <= 1.0
    {
      NormalisedSlope(RawX(s, y, x), gx[y, x], steepest);
      NormalisedSlope(RawY(s, y, x), gy[y, x], steepest);
    }
    d := Drive(Unrolled(gx), Unrolled(gy), Unrolled(amp), stepLen, jitter, creep, shake);
    forall i: nat | i < s.Length0 * s.Length1
      ensures -1.0 <= d.gx[i] <= 1.0 && -1.0 <= d.gy[i] <= 1.0 && 0.0 <= d.amp[i] <= 1.0
    {
      UnrolledWithin(gx, -1.0, 1.0, i);
      UnrolledWithin(gy, -1.0, 1.0, i);
      UnrolledWithin(amp, 0.0, 1.0, i);
    }
    forall y, x | 0 <= y < s.Length0 && 0 <= x < s.Length1 ensures DrivenBy(s, d, steepest, y, x) {
      UnrolledAt(gx, y, x);
      UnrolledAt(gy, y, x);
      UnrolledAt(amp, y, x);
    }
    assert AllDriven(s, d, steepest);
  }

  // ----- the timeline

  /** The mode being held or swept from, and how far into its period the plate is. */
  function ModeAt(phase: real, hold: real, sweep: real, modes: nat): (i: int)
    requires hold >= 0.0 && sweep > 0.0 && modes > 0
  {
    var i := (phase / (hold + sweep)).Floor;
    if i >= modes then modes - 1 else i
  }

  function SmoothStep(r: real): real { r * r * (3.0 - 2.0 * r) }

  lemma SmoothStepEases(r: real, q: real)
    requires 0.0 <= r <= q <= 1.0
    ensures SmoothStep(0.0) == 0.0 && SmoothStep(1.0) == 1.0
    ensures 0.0 <= SmoothStep(r) <= SmoothStep(q) <= 1.0
  {
    SmoothStepOrder(0.0, r);
    SmoothStepOrder(r, q);
    SmoothStepOrder(q, 1.0);
  }

  /** It starts and stops without a jolt: near either end it keeps between one and three squares of the way. */
  lemma SmoothStepIsGentle(r: real)
    requires 0.0 <= r <= 1.0
    ensures r * r <= SmoothStep(r) <= 3.0 * (r * r)
    ensures SmoothStep(1.0 - r) == 1.0 - SmoothStep(r)
  {
    var q := r * r;
    MulNonNeg(r, r);
    MulNonNeg(q, r);
    MulNonNeg(q, 1.0 - r);
    assert q * (1.0 - r) == q - q * r;
    assert SmoothStep(r) == 3.0 * q - 2.0 * (q * r);
    Mirrored(r);
  }

  lemma Mirrored(r: real)
    ensures SmoothStep(1.0 - r) == 1.0 - SmoothStep(r)
  {
    var q := 1.0 - r;
    assert q * q == 1.0 - 2.0 * r + r * r;
    assert q * q * (1.0 + 2.0 * r) == (1.0 - 2.0 * r + r * r) * (1.0 + 2.0 * r);
  }

  lemma SmoothStepOrder(r: real, q: real)
    requires 0.0 <= r <= q <= 1.0
    ensures SmoothStep(r) <= SmoothStep(q)
  {
    var d := q - r;
    EaseIdentity(r, d);
    assert SmoothStep(r + d) == SmoothStep(q);
    EaseTerms(r, d);
  }

  lemma EaseIdentity(r: real, d: real)
    ensures SmoothStep(r + d) - SmoothStep(r) == 6.0 * Rising(r, d) + Curving(d)
  {
  }

  function Rising(r: real, d: real): real { d * r * (1.0 - r - d) }

  function Curving(d: real): real { d * d * (3.0 - 2.0 * d) }

  lemma EaseTerms(r: real, d: real)
    requires 0.0 <= r && 0.0 <= d && r + d <= 1.0
    ensures Rising(r, d) >= 0.0 && Curving(d) >= 0.0
  {
    MulNonNeg(d, r);
    MulNonNeg(d, d);
    var a, b, u, v := d * r, d * d, 1.0 - r - d, 3.0 - 2.0 * d;
    MulNonNeg(a, u);
    MulNonNeg(b, v);
    assert Rising(r, d) == a * u && Curving(d) == b * v;
  }

  /** In exact arithmetic the guard on the last mode never fires: every moment of a cycle is inside
      exactly one mode's period. */
  lemma TimelineCovers(phase: real, hold: real, sweep: real, modes: nat)
    requires hold >= 0.0 && sweep > 0.0 && modes > 0
    requires 0.0 <= phase < (hold + sweep) * modes as real
    ensures ModeAt(phase, hold, sweep, modes) == (phase / (hold + sweep)).Floor
    ensures 0 <= ModeAt(phase, hold, sweep, modes) < modes
    ensures 0.0 <= phase - ModeAt(phase, hold, sweep, modes) as real * (hold + sweep) < hold + sweep
  {
    InPeriod(phase, hold + sweep, modes);
  }

  lemma InPeriod(phase: real, p: real, modes: nat)
    requires p > 0.0 && 0.0 <= phase < p * modes as real
    ensures 0 <= (phase / p).Floor < modes
    ensures 0.0 <= phase - (phase / p).Floor as real * p < p
  {
    QuotientBelow(phase, p, modes as real);
    ModRange(phase, p);
    assert phase - (phase / p).Floor as real * p == Mod(phase, p);
  }

  lemma QuotientBelow(phase: real, p: real, m: real)
    requires p > 0.0 && 0.0 <= phase < p * m
    ensures 0.0 <= phase / p < m
  {
    DivNonNeg(phase, p);
    var q := phase / p;
    assert p * q == phase;
    if q >= m {
      MulLe(p, m, q);
      assert p * m <= p * q;
    }
  }

  /** The plate never jumps: the sweep begins on the held figure and ends on the next one, and in
      between every point stays within what it is in the two. */
  lemma SweepJoinsFigures(a: real, b: real, r: real)
    requires 0.0 <= r <= 1.0
    ensures Mix(SmoothStep(0.0), a, b) == a && Mix(SmoothStep(1.0), a, b) == b
    ensures Min(a, b) <= Mix(SmoothStep(r), a, b) <= Max(a, b)
  {
    SmoothStepEases(r, r);
    MixBounds(SmoothStep(r), a, b, Min(a, b), Max(a, b));
    MixEnds(a, b);
  }

  lemma MixEnds(a: real, b: real)
    ensures Mix(0.0, a, b) == a && Mix(1.0, a, b) == b
  {
    assert 0.0 * a == 0.0 && 0.0 * b == 0.0 && 1.0 * a == a && 1.0 * b == b;
  }

  /** Left alone on the plate, a grain is carried against the slope, away from where the plate moves
      most, and rests exactly where the field is flat. */
  lemma QuietGrainRollsDown(d: Drive, x: real, slope: seq<real>, i: int, far: real)
    requires 0 <= i < |slope| == |d.amp| && far >= 0.0 && d.stepLen > 0.0
    requires 0.0 <= x - Rolled(slope[i], d.stepLen) <= far
    ensures Moved(d, x, slope, i, 0.0, far) < x <==> slope[i] > 0.0
    ensures Moved(d, x, slope, i, 0.0, far) == x <==> slope[i] == 0.0
  {
    QuietMove(d, x, slope, i, far);
    RolledSign(slope[i], d.stepLen);
  }

  lemma QuietMove(d: Drive, x: real, slope: seq<real>, i: int, far: real)
    requires 0 <= i < |slope| == |d.amp| && far >= 0.0
    requires 0.0 <= x - Rolled(slope[i], d.stepLen) <= far
    ensures Moved(d, x, slope, i, 0.0, far) == x - Rolled(slope[i], d.stepLen)
  {
    ReflectReturns(x - Rolled(slope[i], d.stepLen), far);
    assert Thrown(0.0, d.amp[i], Shaken(d.jitter, d.shake), Shaken(d.creep, d.shake)) == 0.0;
  }

  lemma RolledSign(g: real, len: real)
    requires len > 0.0
    ensures Rolled(g, len) > 0.0 <==> g > 0.0
    ensures Rolled(g, len) == 0.0 <==> g == 0.0
  {
    if g > 0.0 { MulLt(len, 0.0, g); } else if g < 0.0 { MulLt(len, g, 0.0); }
    assert Rolled(g, len) == len * g;
  }
}
