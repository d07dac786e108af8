/** Flat pixel indices: row times width plus column. */
module FlatGrid {

  function Flat(r: int, c: int, w: int): int { r * w + c }

  lemma FlatInRange(r: int, c: int, h: int, w: int)
    requires 0 <= r < h && 0 <= c < w
    ensures 0 <= Flat(r, c, w) < h * w
  {
    var d := h - 1 - r;
    assert d * w >= 0;
    assert d * w == h * w - w - r * w;
    assert r * w >= 0;
  }

  lemma FlatUnique(r: int, c: int, r': int, c': int, w: int)
    requires 0 <= c < w && 0 <= c' < w
    ensures Flat(r, c, w) == Flat(r', c', w) <==> r == r' && c == c'
  {
    var d := r - r';
    assert Flat(r, c, w) - Flat(r', c', w) == d * w + (c - c');
    if d >= 1 { assert (d - 1) * w >= 0; assert (d - 1) * w == d * w - w; }
    if d <= -1 { assert (-d - 1) * w >= 0; assert (-d - 1) * w == -(d * w) - w; }
  }

  /** A flat index gives back its row and column. */
  lemma FlatSplits(r: int, c: int, w: int)
    requires 0 <= c < w
    ensures Flat(r, c, w) / w == r && Flat(r, c, w) % w == c
  {
    var x := Flat(r, c, w);
    assert x == Flat(x / w, x % w, w);
    FlatUnique(r, c, x / w, x % w, w);
  }
}
