/** The sand of `demos/chladni.py`: grains in an in-place step, and the buffer they deposit into. */
module Chladni {
  import opened RealSeq
  import opened FlatGrid

  /** The far edge a grain may stand at: `W - 1.001`. */
  function Far(size: nat): real { size as real - 1.001 }

  /** A cast to an integer truncates towards zero. */
  function Trunc(x: real): int { if x >= 0.0 then x.Floor else Ceil(x) }

  function CellOn(x: real, size: nat): int { Trunc(Clip(x, 0.0, Far(size))) }

  /** Wherever a grain has got to, its cell is on the plate. */
  lemma CellOnPlate(x: real, size: nat)
    requires size >= 1
    ensures 0 <= CellOn(x, size) < size
    ensures size >= 2 ==> CellOn(x, size) <= size - 2
  {
  }

  function CellIndex(x: real, y: real, w: nat, h: nat): int { Flat(CellOn(y, h), CellOn(x, w), w) }

  lemma CellIndexInRange(x: real, y: real, w: nat, h: nat)
    requires w >= 1 && h >= 1
    ensures 0 <= CellIndex(x, y, w, h) < h * w
  {
    CellOnPlate(x, w);
    CellOnPlate(y, h);
    FlatInRange(CellOn(y, h), CellOn(x, w), h, w);
  }

  /** A grain on the plate is in the cell whose corner is at or before it, by less than a cell either way. */
  lemma CellIs(x: real, y: real, w: nat, h: nat)
    requires w >= 2 && h >= 2 && 0.0 <= x <= Far(w) && 0.0 <= y <= Far(h)
    ensures var cell := CellIndex(x, y, w, h);
      && (cell / w) as real <= y < (cell / w) as real + 1.0
      && (cell % w) as real <= x < (cell % w) as real + 1.0
  {
    CellOnPlate(x, w);
    FlatSplits(CellOn(y, h), CellOn(x, w), w);
  }

  // ----- the edges

  /** Reflection off both edges of one axis: two absolute values and a minimum. */
  function Reflect(x: real, far: real): real { Abs(Min(Abs(x), 2.0 * far - Abs(x))) }

  /** Reflection returns a grain to the plate exactly when its move ended within three plate widths
      of the origin, and moves nothing that is already on it. */
  lemma ReflectReturns(x: real, far: real)
    requires far >= 0.0
    ensures 0.0 <= Reflect(x, far) <= far <==> Abs(x) <= 3.0 * far
    ensures 0.0 <= x <= far ==> Reflect(x, far) == x
    ensures -far <= x <= 0.0 ==> Reflect(x, far) == -x
    ensures far <= x <= 2.0 * far ==> Reflect(x, far) == 2.0 * far - x
  {
  }

  /** So a grain on the plate stays on it through any move of at most two plate widths. */
  lemma GrainStays(x: real, move: real, far: real)
    requires far >= 0.0 && 0.0 <= x <= far && Abs(move) <= 2.0 * far
    ensures 0.0 <= Reflect(x + move, far) <= far
  {
    ReflectReturns(x + move, far);
  }

  // ----- the deposit

  function Count(idx: seq<int>, cell: int): nat {
    if idx == [] then 0 else Count(idx[..|idx| - 1], cell) + if idx[|idx| - 1] == cell then 1 else 0
  }

  function Counts(idx: seq<int>, cells: nat): (c: seq<real>)
    ensures |c| == cells
  {
    seq(cells, k requires 0 <= k < cells => Count(idx, k) as real)
  }

  /** Each grain counts in its own cell and in no other. */
  lemma CountOfOneMore(idx: seq<int>, i: int, cell: int)
    ensures Count(idx + [i], cell) == Count(idx, cell) + if i == cell then 1 else 0
    ensures Count([], cell) == 0
  {
    assert (idx + [i])[..|idx|] == idx;
  }

  /** `np.bincount` loses no grain. */
  lemma {:induction false} CountsSum(idx: seq<int>, cells: nat)
    requires forall i :: 0 <= i < |idx| ==> 0 <= idx[i] < cells
    ensures Sum(Counts(idx, cells)) == |idx| as real
  {
    if idx == [] {
      SumConst(Counts(idx, cells), 0.0);
    } else {
      var init, last := idx[..|idx| - 1], idx[|idx| - 1];
      CountsSum(init, cells);
      SumUpdate(Counts(init, cells), last, Count(idx, last) as real);
      assert Counts(idx, cells) == Counts(init, cells)[last := Count(idx, last) as real];
    }
  }

  lemma {:induction false} CountBound(idx: seq<int>, cell: int)
    ensures Count(idx, cell) <= |idx|
  {
    if idx != [] { CountBound(idx[..|idx| - 1], cell); }
  }

  /** One frame of the buffer: it decays, then every grain adds `1 - decay` where it stands. */
  function Deposit(dep: seq<real>, counts: seq<real>, decay: real): (d: seq<real>)
    requires |dep| == |counts|
    ensures |d| == |dep|
  {
    seq(|dep|, k requires 0 <= k < |dep| => Settle(dep[k], counts[k], decay))
  }

  function Settle(d: real, c: real, decay: real): real { d * decay + c * (1.0 - decay) }

  lemma SettleSum(a: real, b: real, x: real, y: real, decay: real)
    ensures Settle(a + x, b + y, decay) == Settle(a, b, decay) + Settle(x, y, decay)
  {
  }

  lemma {:induction false} DepositSum(dep: seq<real>, counts: seq<real>, decay: real)
    requires |dep| == |counts|
    ensures Sum(Deposit(dep, counts, decay)) == Settle(Sum(dep), Sum(counts), decay)
  {
    if dep == [] {
      assert Settle(0.0, 0.0, decay) == 0.0;
    } else {
      var n := |dep| - 1;
      DepositSum(dep[..n], counts[..n], decay);
      assert Deposit(dep, counts, decay)[..n] == Deposit(dep[..n], counts[..n], decay);
      SettleSum(Sum(dep[..n]), Sum(counts[..n]), dep[n], counts[n], decay);
    }
  }

  function Pow(x: real, k: nat): real { if k == 0 then 1.0 else Pow(x, k - 1) * x }

  /** The mass after `k` frames from an empty buffer. */
  function Mass(n: real, decay: real, k: nat): real { n * (1.0 - Pow(decay, k)) }

  lemma MassStep(n: real, decay: real, k: nat)
    ensures Settle(Mass(n, decay, k), n, decay) == Mass(n, decay, k + 1)
    ensures Mass(n, decay, 0) == 0.0
  {
    var p := Pow(decay, k);
    assert n * (1.0 - p) * decay == n * decay - n * (p * decay);
    assert n * (1.0 - p * decay) == n - n * (p * decay);
  }

  /** A run of the buffer: where the grains stood in each frame. */
  function Run(frames: seq<seq<int>>, cells: nat, decay: real): (d: seq<real>)
    ensures |d| == cells
  {
    if frames == [] then seq(cells, _ => 0.0)
    else Deposit(Run(frames[..|frames| - 1], cells, decay), Counts(frames[|frames| - 1], cells), decay)
  }

  ghost predicate Grains(frames: seq<seq<int>>, cells: nat, n: nat) {
    forall f :: 0 <= f < |frames| ==> |frames[f]| == n && forall i :: 0 <= i < n ==> 0 <= frames[f][i] < cells
  }

  /** Over any run, however the grains move: the total after `k` frames is `n (1 - decay^k)`. */
  lemma {:induction false} RunMass(frames: seq<seq<int>>, cells: nat, n: nat, decay: real)
    requires Grains(frames, cells, n)
    ensures Sum(Run(frames, cells, decay)) == Mass(n as real, decay, |frames|)
  {
    MassStep(n as real, decay, 0);
    if frames == [] {
      SumConst(Run(frames, cells, decay), 0.0);
    } else {
      var init, last := frames[..|frames| - 1], frames[|frames| - 1];
      RunMass(init, cells, n, decay);
      CountsSum(last, cells);
      DepositSum(Run(init, cells, decay), Counts(last, cells), decay);
      MassStep(n as real, decay, |init|);
    }
  }

  lemma SettleBounds(d: real, c: real, decay: real, n: real)
    requires 0.0 <= decay <= 1.0 && 0.0 <= d <= n && 0.0 <= c <= n
    ensures 0.0 <= Settle(d, c, decay) <= n
  {
    var u, v, e := n - d, n - c, 1.0 - decay;
    MulNonNeg(d, decay);
    MulNonNeg(c, e);
    MulNonNeg(u, decay);
    MulNonNeg(v, e);
    assert u * decay == n * decay - d * decay && v * e == n * e - c * e;
    assert n * decay + n * e == n;
  }

  /** ...and no cell ever holds more than every grain at once, nor less than nothing. */
  lemma {:induction false} RunBounds(frames: seq<seq<int>>, cells: nat, n: nat, decay: real, k: nat)
    requires Grains(frames, cells, n) && 0.0 <= decay <= 1.0 && k < cells
    ensures 0.0 <= Run(frames, cells, decay)[k] <= n as real
  {
    if frames != [] {
      var init, last := frames[..|frames| - 1], frames[|frames| - 1];
      RunBounds(init, cells, n, decay, k);
      CountBound(last, k);
      SettleBounds(Run(init, cells, decay)[k], Count(last, k) as real, decay, n as real);
    }
  }

  /** What is left of a difference from the count after `k` frames. */
  function Remains(gap: real, decay: real, k: nat): real { gap * Pow(decay, k) }

  lemma SettleGap(d: real, c: real, decay: real, gap: real, k: nat)
    requires d == c + Remains(gap, decay, k)
    ensures Settle(d, c, decay) == c + Remains(gap, decay, k + 1)
  {
    var p := gap * Pow(decay, k);
    assert (c + p) * decay + c * (1.0 - decay) == c + p * decay;
    MulAssoc(gap, Pow(decay, k), decay);
  }

  /** Whatever went before, a cell that every later frame finds `c` grains on closes in on `c`, its
      distance multiplied by the decay each frame: the buffer comes to read in grains. */
  lemma {:induction false} SteadyCell(before: seq<seq<int>>, after: seq<seq<int>>, cells: nat, decay: real, cell: nat, c: nat)
    requires cell < cells && forall f :: 0 <= f < |after| ==> Count(after[f], cell) == c
    ensures Run(before + after, cells, decay)[cell]
         == c as real + Remains(Run(before, cells, decay)[cell] - c as real, decay, |after|)
  {
    if after == [] {
      assert before + after == before;
    } else {
      var init, last := after[..|after| - 1], after[|after| - 1];
      SteadyCell(before, init, cells, decay, cell, c);
      assert (before + after)[..|before + after| - 1] == before + init;
      SettleGap(Run(before + init, cells, decay)[cell], c as real, decay,
                Run(before, cells, decay)[cell] - c as real, |init|);
    }
  }

  /** Under any real decay `c` is the one value a cell with `c` grains on it can rest at. */
  lemma OneSteadyValue(d: real, c: real, decay: real)
    requires decay < 1.0
    ensures Settle(d, c, decay) == d <==> d == c
  {
    var gap, loss := d - c, 1.0 - decay;
    assert Settle(d, c, decay) == d - gap * loss;
    if gap > 0.0 { MulLt(loss, 0.0, gap); } else if gap < 0.0 { MulLt(loss, gap, 0.0); }
    assert loss * gap == gap * loss;
  }

  // ----- the step

  /** What drives a grain for one frame: the slope and amplitude under it, and two random draws. */
  datatype Drive = Drive(gx: seq<real>, gy: seq<real>, amp: seq<real>, stepLen: real, jitter: real, creep: real, shake: real)

  /** The sand itself: where every grain is, and the cells they stood in frame by frame. */
  datatype Sand = Sand(xs: seq<real>, ys: seq<real>, history: seq<seq<int>>) {
    predicate Fits(noise: (seq<real>, seq<real>)) { |xs| == |ys| == |noise.0| == |noise.1| }

    function CellOf(w: nat, h: nat, i: nat): int
      requires i < |xs| == |ys|
    {
      CellIndex(xs[i], ys[i], w, h)
    }

    function Standing(w: nat, h: nat): (s: seq<int>)
      requires |xs| == |ys|
      ensures |s| == |xs|
    {
      seq(|xs|, i requires 0 <= i < |xs| => CellOf(w, h, i))
    }

    /** One frame later: every grain set on the plate, and moved by what drives the cell it stands in. */
    function Next(w: nat, h: nat, d: Drive, noise: (seq<real>, seq<real>)): (s: Sand)
      requires Fits(noise) && |d.gx| == |d.gy| == |d.amp|
      ensures |s.xs| == |s.ys| == |xs|
    {
      Sand(seq(|xs|, i requires 0 <= i < |xs| =>
             Moved(d, Clip(xs[i], 0.0, Far(w)), d.gx, CellOf(w, h, i), noise.0[i], Far(w))),
           seq(|xs|, i requires 0 <= i < |xs| =>
             Moved(d, Clip(ys[i], 0.0, Far(h)), d.gy, CellOf(w, h, i), noise.1[i], Far(h))),
           history + [Standing(w, h)])
    }

    lemma NextIs(w: nat, h: nat, d: Drive, noise: (seq<real>, seq<real>), s: Sand)
      requires Fits(noise) && |d.gx| == |d.gy| == |d.amp| && |s.xs| == |s.ys| == |xs|
      requires s.history == history + [Standing(w, h)]
      requires forall i :: 0 <= i < |xs| ==>
        s.xs[i] == Moved(d, Clip(xs[i], 0.0, Far(w)), d.gx, Standing(w, h)[i], noise.0[i], Far(w))
      requires forall i :: 0 <= i < |xs| ==>
        s.ys[i] == Moved(d, Clip(ys[i], 0.0, Far(h)), d.gy, Standing(w, h)[i], noise.1[i], Far(h))
      ensures s == Next(w, h, d, noise)
    {
    }
  }

  ghost predicate Playable(ds: seq<Drive>, noise: seq<(seq<real>, seq<real>)>, n: nat) {
    && |ds| == |noise|
    && forall k :: 0 <= k < |ds| ==>
      |ds[k].gx| == |ds[k].gy| == |ds[k].amp| && |noise[k].0| == |noise[k].1| == n
  }

  /** The sand after the first `n` frames of a run. */
  ghost function After(s: Sand, w: nat, h: nat, ds: seq<Drive>, noise: seq<(seq<real>, seq<real>)>, n: nat): (r: Sand)
    requires n <= |ds| && |s.xs| == |s.ys| && Playable(ds, noise, |s.xs|)
    ensures |r.xs| == |r.ys| == |s.xs|
  {
    if n == 0 then s else After(s, w, h, ds, noise, n - 1).Next(w, h, ds[n - 1], noise[n - 1])
  }

  class Plate {
    const w: nat
    const h: nat
    const decay: real
    const px: array<real>
    const py: array<real>
    const idx: array<int>
    const dep: array<real>
    ghost var history: seq<seq<int>>

    ghost predicate Valid()
      reads this, px, py, idx, dep
    {
      && w >= 1 && h >= 1 && 0.0 <= decay <= 1.0
      && px.Length == py.Length == idx.Length && dep.Length == h * w
      && px != py && dep != px && dep != py
      && Grains(history, h * w, px.Length)
      && dep[..] == Run(history, h * w, decay)
    }

    constructor (w: nat, h: nat, decay: real, xs: seq<real>, ys: seq<real>)
      requires w >= 1 && h >= 1 && 0.0 <= decay <= 1.0 && |xs| == |ys|
      ensures Valid() && history == [] && fresh(px) && fresh(py) && fresh(idx) && fresh(dep)
      ensures this.w == w && this.h == h && this.decay == decay && px[..] == xs && py[..] == ys
    {
      this.w, this.h, this.decay := w, h, decay;
      px := new real[|xs|](i requires 0 <= i < |xs| => xs[i]);
      py := new real[|ys|](i requires 0 <= i < |ys| => ys[i]);
      idx := new int[|xs|];
      dep := new real[h * w](_ => 0.0);
      history := [];
      new;
      assert px[..] == xs && py[..] == ys;
    }

    /** The cells the grains stand in, as the step computes them. */
    ghost function Standing(): (s: seq<int>)
      reads this, px, py
      requires px.Length == py.Length
      ensures |s| == px.Length
    {
      Now().Standing(w, h)
    }

    ghost function Now(): Sand
      reads this, px, py
    {
      Sand(px[..], py[..], history)
    }

    /** The first half of `step`: clip, find the cells, decay, deposit. */
    method Land()
      requires Valid()
      modifies this, px, py, idx, dep
      ensures Valid() && history == old(history) + [old(Standing())] && idx[..] == old(Standing())
      ensures forall i :: 0 <= i < px.Length ==>
        px[i] == Clip(old(px[i]), 0.0, Far(w)) && py[i] == Clip(old(py[i]), 0.0, Far(h))
    {
      ghost var cells := Standing();
      ghost var n := px.Length;
      forall i | 0 <= i < px.Length { px[i] := Clip(px[i], 0.0, Far(w)); }
      forall i | 0 <= i < py.Length { py[i] := Clip(py[i], 0.0, Far(h)); }
      forall i | 0 <= i < idx.Length { idx[i] := Flat(Trunc(py[i]), Trunc(px[i]), w); }
      assert idx[..] == cells;
      forall i | 0 <= i < n ensures 0 <= cells[i] < h * w {
        CellIndexInRange(old(px[i]), old(py[i]), w, h);
      }
      var counts := Counts(idx[..], dep.Length);
      forall k | 0 <= k < dep.Length { dep[k] := Settle(dep[k], counts[k], decay); }
      history := history + [cells];
      assert history[..|history| - 1] == old(history);
      assert dep[..] == Run(history, h * w, decay);
    }

    /** The second half of `step`: roll downhill, be thrown about, reflect. */
    method Roll(d: Drive, zx: seq<real>, zy: seq<real>)
      requires Valid() && |zx| == |zy| == px.Length
      requires |d.gx| == |d.gy| == |d.amp| == h * w
      requires forall i :: 0 <= i < idx.Length ==> 0 <= idx[i] < h * w
      modifies px, py
      ensures Valid()
      ensures forall i :: 0 <= i < px.Length ==> px[i] == Moved(d, old(px[i]), d.gx, idx[i], zx[i], Far(w))
      ensures forall i :: 0 <= i < py.Length ==> py[i] == Moved(d, old(py[i]), d.gy, idx[i], zy[i], Far(h))
    {
      forall i | 0 <= i < px.Length { px[i] := Moved(d, px[i], d.gx, idx[i], zx[i], Far(w)); }
      forall i | 0 <= i < py.Length { py[i] := Moved(d, py[i], d.gy, idx[i], zy[i], Far(h)); }
    }

    /** `step`: one frame of the sand. */
    method Step(d: Drive, zx: seq<real>, zy: seq<real>)
      requires Valid() && |zx| == |zy| == px.Length
      requires |d.gx| == |d.gy| == |d.amp| == h * w
      modifies this, px, py, idx, dep
      ensures Now() == old(Now().Next(w, h, d, (zx, zy)))
      ensures Valid() && history == old(history) + [old(Standing())]
      ensures Sum(dep[..]) == Mass(px.Length as real, decay, |history|)
      ensures forall i :: 0 <= i < px.Length ==>
        px[i] == Moved(d, Clip(old(px[i]), 0.0, Far(w)), d.gx, old(Standing())[i], zx[i], Far(w))
      ensures forall i :: 0 <= i < py.Length ==>
        py[i] == Moved(d, Clip(old(py[i]), 0.0, Far(h)), d.gy, old(Standing())[i], zy[i], Far(h))
    {
      ghost var was := Now();
      Land();
      assert idx[..] == history[|history| - 1];
      Roll(d, zx, zy);
      was.NextIs(w, h, d, (zx, zy), Now());
      RunMass(history, h * w, px.Length, decay);
    }

    /** The warm-up loop: however the sand is thrown, the buffer's mass is known. */
    method Warm(d: Drive, noise: seq<(seq<real>, seq<real>)>)
      requires Valid() && history == [] && |d.gx| == |d.gy| == |d.amp| == h * w
      requires forall k :: 0 <= k < |noise| ==> |noise[k].0| == |noise[k].1| == px.Length
      modifies this, px, py, idx, dep
      ensures Valid() && |history| == |noise|
      ensures Now() == old(After(Now(), w, h, seq(|noise|, _ => d), noise, |noise|))
      ensures Sum(dep[..]) == Mass(px.Length as real, decay, |noise|)
    {
      ghost var start, ds := Now(), seq(|noise|, _ => d);
      for k := 0 to |noise|
        invariant Valid() && |history| == k
        invariant Now() == After(start, w, h, ds, noise, k)
      {
        Step(d, noise[k].0, noise[k].1);
      }
      RunMass(history, h * w, px.Length, decay);
    }
  }

  /** How far one grain is carried along one axis: down the slope and along its random kick. */
  function Kick(d: Drive, slope: seq<real>, i: int, z: real): real
    requires 0 <= i < |slope| == |d.amp|
  {
    Thrown(z, d.amp[i], Shaken(d.jitter, d.shake), Shaken(d.creep, d.shake)) - Rolled(slope[i], d.stepLen)
  }

  /** A random throw, stronger where the plate moves more. */
  function Thrown(z: real, amp: real, jitter: real, creep: real): real { z * (amp * jitter + creep) }

  function Shaken(sigma: real, shake: real): real { sigma * shake }

  function Rolled(slope: real, stepLen: real): real { slope * stepLen }

  function Moved(d: Drive, x: real, slope: seq<real>, i: int, z: real, far: real): real
    requires |slope| == |d.amp|
  {
    if 0 <= i < |slope| then Reflect(x + Kick(d, slope, i, z), far) else x
  }

  /** A frame moves a grain against the slope under it by a step, and by its draw as far as the plate's own
      motion there and the creep throw it, then back off an edge if it has one to cross. */
  lemma MoveIs(d: Drive, x: real, slope: seq<real>, i: int, z: real, far: real, down: real, thrown: real)
    requires 0 <= i < |slope| == |d.amp|
    requires down == Weighed(slope[i], d.stepLen)
    requires thrown == Weighed(z, Weighed(d.amp[i], Weighed(d.jitter, d.shake)) + Weighed(d.creep, d.shake))
    ensures Moved(d, x, slope, i, z, far) == Reflect(x - down + thrown, far)
  {
    KickIs(slope[i], d.stepLen, z, d.amp[i], d.jitter, d.creep, d.shake);
    assert Kick(d, slope, i, z) == thrown - down;
  }

  lemma KickIs(g: real, len: real, z: real, amp: real, jitter: real, creep: real, shake: real)
    ensures Rolled(g, len) == Weighed(g, len)
    ensures Thrown(z, amp, Shaken(jitter, shake), Shaken(creep, shake))
         == Weighed(z, Weighed(amp, Weighed(jitter, shake)) + Weighed(creep, shake))
  {
  }
}
