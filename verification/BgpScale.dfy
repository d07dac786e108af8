/** The full scale of the churn chart in `demos/bgp.py`: six rungs a decade. */
module BgpScale {
  function Pow10(z: int): (p: real)
    ensures p > 0.0
    decreases if z < 0 then -z else z
  {
    if z == 0 then 1.0 else if z > 0 then 10.0 * Pow10(z - 1) else Pow10(z + 1) / 10.0
  }

  lemma Pow10Step(z: int)
    ensures Pow10(z + 1) == 10.0 * Pow10(z)
  {
  }

  lemma TenfoldInverse(x: real)
    requires 0.0 < x < 1.0
    ensures 0 <= (1.0 / (x * 10.0)).Floor < (1.0 / x).Floor
  {
    var y := 1.0 / x;
    assert y * x == 1.0;
    assert y > 1.0;
    assert 1.0 / (x * 10.0) == y / 10.0;
  }

  /** `floor(log10(x))`. */
  function Log10Floor(x: real): int
    requires x > 0.0
    decreases if x >= 10.0 then x.Floor else if x < 1.0 then (1.0 / x).Floor else 0
  {
    if x >= 10.0 then Log10Floor(x / 10.0) + 1
    else if x < 1.0 then
      TenfoldInverse(x);
      Log10Floor(x * 10.0) - 1
    else 0
  }

  lemma {:induction false} LogBrackets(x: real)
    requires x > 0.0
    ensures Pow10(Log10Floor(x)) <= x < Pow10(Log10Floor(x) + 1)
    decreases if x >= 10.0 then x.Floor else if x < 1.0 then (1.0 / x).Floor else 0
  {
    var z := Log10Floor(x);
    Pow10Step(z);
    if x >= 10.0 {
      LogBrackets(x / 10.0);
      Pow10Step(z - 1);
    } else if x < 1.0 {
      TenfoldInverse(x);
      LogBrackets(x * 10.0);
    }
  }

  lemma {:induction false} Decades(a: int, b: int)
    requires a < b
    ensures 10.0 * Pow10(a) <= Pow10(b)
    decreases b - a
  {
    Pow10Step(b - 1);
    if a < b - 1 { Decades(a, b - 1); }
  }

  const STEPS: nat := 7

  /** Rung `i` of the decade that starts at `mag`. */
  function Step(i: nat, mag: real): real
    requires i < STEPS
  {
    match i
    case 0 => mag
    case 1 => 1.5 * mag
    case 2 => 2.0 * mag
    case 3 => 3.0 * mag
    case 4 => 5.0 * mag
    case 5 => 7.0 * mag
    case _ => 10.0 * mag
  }

  /** The first rung, from `i` up, that `top` does not exceed. */
  function FirstRung(top: real, mag: real, i: nat): real
    requires i <= STEPS
    decreases STEPS - i
  {
    if i == STEPS then 10.0 * mag
    else if top <= Step(i, mag) then Step(i, mag)
    else FirstRung(top, mag, i + 1)
  }

  function NiceScale(top: real): real {
    if top <= 0.0 then 10.0 else FirstRung(top, Pow10(Log10Floor(top)), 0)
  }

  ghost predicate Rung(z: int, i: nat, v: real) {
    i < STEPS && v == Step(i, Pow10(z))
  }

  ghost predicate OnLadder(v: real) {
    exists z: int, i: nat :: Rung(z, i, v)
  }

  /** The ladder: 1, 1.5, 2, 3, 5 and 7 times every power of ten. */
  lemma LadderIs(v: real)
    ensures OnLadder(v) <==> exists z: int :: v in {Pow10(z), 1.5 * Pow10(z), 2.0 * Pow10(z), 3.0 * Pow10(z), 5.0 * Pow10(z), 7.0 * Pow10(z)}
  {
    if z: int, i: nat :| Rung(z, i, v) {
      Pow10Step(z);
      if i == STEPS - 1 { assert v == Pow10(z + 1); }
      assert i < STEPS - 1 ==> v in {Pow10(z), 1.5 * Pow10(z), 2.0 * Pow10(z), 3.0 * Pow10(z), 5.0 * Pow10(z), 7.0 * Pow10(z)};
    }
    if z: int :| v in {Pow10(z), 1.5 * Pow10(z), 2.0 * Pow10(z), 3.0 * Pow10(z), 5.0 * Pow10(z), 7.0 * Pow10(z)} {
      var i := if v == Pow10(z) then 0 else if v == 1.5 * Pow10(z) then 1 else if v == 2.0 * Pow10(z) then 2
               else if v == 3.0 * Pow10(z) then 3 else if v == 5.0 * Pow10(z) then 4 else 5;
      assert Rung(z, i, v);
    }
  }

  lemma {:induction false} FirstIndex(top: real, mag: real, from: nat) returns (i: nat)
    requires top < 10.0 * mag && from < STEPS
    requires from > 0 ==> top > Step(from - 1, mag)
    ensures from <= i < STEPS && FirstRung(top, mag, from) == Step(i, mag)
    ensures top <= Step(i, mag) && (i > 0 ==> top > Step(i - 1, mag))
    decreases STEPS - from
  {
    if top <= Step(from, mag) { i := from; } else { i := FirstIndex(top, mag, from + 1); }
  }

  lemma StepOrder(mag: real, i: nat, j: nat)
    requires mag > 0.0 && i <= j < STEPS
    ensures mag <= Step(i, mag) <= Step(j, mag) <= 10.0 * mag
    ensures i < j ==> Step(i, mag) < Step(j, mag)
  {
  }

  /** Within its decade: on the ladder, not below `top`, under five thirds of it, and nothing skipped. */
  lemma InDecade(top: real, z: int) returns (i: nat)
    requires Pow10(z) <= top < Pow10(z + 1)
    ensures Rung(z, i, FirstRung(top, Pow10(z), 0))
    ensures top <= FirstRung(top, Pow10(z), 0) && FirstRung(top, Pow10(z), 0) * 3.0 < top * 5.0
    ensures forall k: nat :: k < STEPS && top <= Step(k, Pow10(z)) ==> i <= k
  {
    Pow10Step(z);
    i := FirstIndex(top, Pow10(z), 0);
    forall k: nat | k < STEPS && top <= Step(k, Pow10(z)) ensures i <= k {
      if k < i { StepOrder(Pow10(z), k, i - 1); }
    }
  }

  /** For any positive peak: the full scale is on the ladder, is the least ladder value not below the
      peak, and is less than five thirds of it. */
  lemma NiceScaleIsLeast(top: real)
    requires top > 0.0
    ensures OnLadder(NiceScale(top)) && top <= NiceScale(top)
    ensures NiceScale(top) * 3.0 < top * 5.0
    ensures forall v :: OnLadder(v) && top <= v ==> NiceScale(top) <= v
  {
    var z := Log10Floor(top);
    LogBrackets(top);
    var i := InDecade(top, z);
    forall v | OnLadder(v) && top <= v ensures NiceScale(top) <= v {
      var y: int, k: nat :| Rung(y, k, v);
      NoLowerRung(top, z, i, y, k);
    }
  }

  lemma NoLowerRung(top: real, z: int, i: nat, y: int, k: nat)
    requires i < STEPS && k < STEPS && Pow10(z) <= top <= Step(k, Pow10(y))
    requires forall j: nat :: j < STEPS && top <= Step(j, Pow10(z)) ==> i <= j
    ensures Step(i, Pow10(z)) <= Step(k, Pow10(y))
  {
    StepOrder(Pow10(y), k, 6);
    StepOrder(Pow10(z), i, 6);
    if y == z {
      StepOrder(Pow10(z), i, k);
    } else if y > z {
      Decades(z, y);
    } else {
      Decades(y, z);
      assert top == Step(0, Pow10(z));
    }
  }

  /** Rounding a full scale again leaves it where it is, the empty chart's scale of ten included. */
  lemma NiceScaleFixed(top: real)
    ensures NiceScale(NiceScale(top)) == NiceScale(top)
    ensures top <= 0.0 ==> NiceScale(top) == 10.0
  {
    if top <= 0.0 {
      Pow10Step(0);
      assert Rung(1, 0, 10.0);
      NiceScaleIsLeast(10.0);
    } else {
      NiceScaleIsLeast(top);
      NiceScaleIsLeast(NiceScale(top));
    }
  }
}
