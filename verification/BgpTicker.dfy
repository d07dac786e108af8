/** The sample-line ticker of `demos/bgp.py`: a padded strip read through a moving window. */
module BgpTicker {
  import opened Options
  import opened FlatGrid

  // ----- arithmetic of the wrap

  lemma ModShift(x: int, j: int, m: int)
    requires m > 0
    ensures (x + j * m) % m == x % m
  {
    FlatSplits(x / m + j, x % m, m);
    assert x + j * m == Flat(x / m + j, x % m, m) by {
      assert (x / m + j) * m == x / m * m + j * m;
    }
  }

  lemma ModExact(x: int, j: int, m: int, p: int)
    requires 0 <= x < m && p == x + j * m
    ensures p % m == x
  {
    FlatSplits(j, x, m);
  }

  /** Reducing the position first does not change where an offset from it lands. */
  lemma ModOffset(p: int, k: int, m: int)
    requires m > 0
    ensures (p % m + k) % m == (p + k) % m
  {
    assert p == p % m + p / m * m;
    ModShift(p % m + k, p / m, m);
  }

  /** Passes over the lines beyond the first: enough that a window may start anywhere in the first. */
  function Reps(tickH: nat, lineH: nat, pass: nat): int
    requires pass > 0
  {
    var r := -((-(tickH + lineH)) / pass);
    if r > 1 then r else 1
  }

  lemma RepsSlack(tickH: nat, lineH: nat, pass: nat)
    requires pass > 0
    ensures Reps(tickH, lineH, pass) * pass >= tickH + lineH
  {
    var a := -(tickH + lineH);
    assert a == a / pass * pass + a % pass;
    var r := -(a / pass);
    assert r * pass == -(a / pass * pass);
    if r < 1 { assert (1 - r) * pass >= 0; assert (1 - r) * pass == pass - r * pass; }
  }

  /** No more passes than are needed: one fewer would be too short, unless it was just the one. */
  lemma RepsLeast(tickH: nat, lineH: nat, pass: nat)
    requires pass > 0
    ensures Reps(tickH, lineH, pass) >= 1
    ensures Reps(tickH, lineH, pass) > 1 ==> (Reps(tickH, lineH, pass) - 1) * pass < tickH + lineH
  {
    var a := -(tickH + lineH);
    var q := a / pass;
    assert a == q * pass + a % pass;
    var r := -q;
    if r > 1 {
      assert (r - 1) * pass == -(q * pass) - pass;
    }
  }

  // ----- the strip

  /** One pass over the lines repeated for ever, in both directions: row `p` of it. */
  function Ring<S, R>(lines: seq<S>, lineH: nat, pass: nat, draw: (S, nat) -> R, p: int): R
    requires lineH > 0 && pass == |lines| * lineH > 0
  {
    RowInPass(|lines|, lineH, p % pass);
    draw(lines[p % pass / lineH], p % pass % lineH)
  }

  lemma RowInPass(n: nat, lineH: nat, q: int)
    requires lineH > 0 && 0 <= q < n * lineH
    ensures 0 <= q / lineH < n && 0 <= q % lineH < lineH
  {
  }

  lemma PassPositive(n: nat, lineH: nat)
    requires n > 0 && lineH > 0
    ensures n * lineH > 0
  {
  }

  /** No line, and no row of a line, is skipped or out of order. */
  lemma RingShowsEveryRow<S, R>(lines: seq<S>, lineH: nat, pass: nat, draw: (S, nat) -> R,
                                i: nat, y: nat, j: int, p: int)
    requires i < |lines| && y < lineH && pass == |lines| * lineH > 0
    requires p == Flat(i, y, lineH) + j * pass
    ensures Ring(lines, lineH, pass, draw, p) == draw(lines[i], y)
  {
    RowOfPass(i, y, |lines|, lineH, pass, j, p);
    FlatSplits(i, y, lineH);
  }

  lemma RowOfPass(i: nat, y: nat, n: nat, lineH: nat, pass: nat, j: int, p: int)
    requires i < n && y < lineH && pass == n * lineH > 0
    requires p == Flat(i, y, lineH) + j * pass
    ensures p % pass == Flat(i, y, lineH)
  {
    FlatInRange(i, y, n, lineH);
    ModExact(Flat(i, y, lineH), j, pass, p);
  }

  /** The rows of the padded strip. */
  function StripRows(tickH: nat, lineH: nat, pass: nat): (n: nat)
    requires pass > 0
    ensures n >= pass
  {
    var reps := Reps(tickH, lineH, pass);
    assert reps * pass >= 0;
    pass + reps * pass
  }

  /** `bake_ticker`: draw every line once, then repeat the block. */
  method BakeTicker<S, R>(lines: seq<S>, tickH: nat, lineH: nat, draw: (S, nat) -> R, blank: R)
    returns (strip: Option<array<R>>, ghost pass: nat)
    requires lineH > 0
    ensures strip.None? <==> lines == []
    ensures pass == |lines| * lineH
    ensures strip.Some? ==> fresh(strip.value) && pass > 0 && strip.value.Length == StripRows(tickH, lineH, pass)
    ensures strip.Some? ==> forall k :: 0 <= k < strip.value.Length ==>
      strip.value[k] == Ring(lines, lineH, pass, draw, k)
  {
    var n := |lines| * lineH;
    pass := n;
    if lines == [] {
      return None, n;
    }
    PassPositive(|lines|, lineH);
    var reps := Reps(tickH, lineH, n);
    var rows := new R[StripRows(tickH, lineH, n)](_ => blank);
    DrawLines(lines, lineH, n, draw, rows);
    RepeatBlock(lines, lineH, n, draw, rows, reps);
    strip := Some(rows);
  }

  /** The repeat loop of `bake_ticker`. */
  method RepeatBlock<S, R>(lines: seq<S>, lineH: nat, pass: nat, draw: (S, nat) -> R, rows: array<R>, reps: nat)
    requires lineH > 0 && pass == |lines| * lineH > 0 && rows.Length == pass + reps * pass
    requires forall k :: 0 <= k < pass ==> rows[k] == Ring(lines, lineH, pass, draw, k)
    modifies rows
    ensures forall k :: 0 <= k < rows.Length ==> rows[k] == Ring(lines, lineH, pass, draw, k)
  {
    var y := pass;
    for r := 0 to reps
      invariant y == (r + 1) * pass && pass <= y <= rows.Length
      invariant Shows(rows[..], y, lines, lineH, pass, draw)
    {
      BlockFits(r, reps, pass);
      WholePasses(r + 1, pass);
      CopyPass(rows, y, lines, lineH, pass, draw);
      y := y + pass;
    }
    assert y == rows.Length;
  }

  /** The first `y` rows are the first `y` rows of the ring. */
  ghost predicate Shows<S, R>(rows: seq<R>, y: nat, lines: seq<S>, lineH: nat, pass: nat, draw: (S, nat) -> R)
    requires lineH > 0 && pass == |lines| * lineH > 0 && y <= |rows|
  {
    forall k :: 0 <= k < y ==> rows[k] == Ring(lines, lineH, pass, draw, k)
  }

  method CopyPass<S, R>(rows: array<R>, y: nat, lines: seq<S>, lineH: nat, pass: nat, draw: (S, nat) -> R)
    requires lineH > 0 && pass == |lines| * lineH > 0 && pass <= y && y + pass <= rows.Length && y % pass == 0
    requires Shows(rows[..], y, lines, lineH, pass, draw)
    modifies rows
    ensures Shows(rows[..], y + pass, lines, lineH, pass, draw)
  {
    CopyBlock(rows, y, pass);
    forall k | y <= k < y + pass ensures rows[k] == Ring(lines, lineH, pass, draw, k) {
      SameRow(k, y, pass);
    }
  }

  lemma WholePasses(r: int, pass: nat)
    requires pass > 0
    ensures r * pass % pass == 0
  {
    ModShift(0, r, pass);
  }

  /** A whole number of passes later the same row comes round. */
  lemma SameRow(k: int, y: int, pass: nat)
    requires pass > 0 && y % pass == 0
    ensures k % pass == (k - y) % pass
  {
    assert y == y / pass * pass;
    ModShift(k - y, y / pass, pass);
  }

  lemma BlockFits(r: int, reps: int, pass: nat)
    requires 0 <= r < reps
    ensures (r + 2) * pass == (r + 1) * pass + pass <= pass + reps * pass
  {
    var d := reps - r - 1;
    assert d * pass >= 0;
    assert d * pass == reps * pass - r * pass - pass;
  }

  method CopyBlock<R>(rows: array<R>, y: nat, pass: nat)
    requires pass <= y && y + pass <= rows.Length
    modifies rows
    ensures forall k :: 0 <= k < rows.Length ==>
      rows[k] == if y <= k < y + pass then old(rows[k - y]) else old(rows[k])
  {
    forall k | 0 <= k < pass { rows[y + k] := rows[k]; }
  }

  method DrawLines<S, R>(lines: seq<S>, lineH: nat, pass: nat, draw: (S, nat) -> R, rows: array<R>)
    requires lineH > 0 && pass == |lines| * lineH > 0 && pass <= rows.Length
    modifies rows
    ensures Shows(rows[..], pass, lines, lineH, pass, draw)
  {
    var y := 0;
    for i := 0 to |lines|
      invariant y == i * lineH && 0 <= y <= pass
      invariant Shows(rows[..], y, lines, lineH, pass, draw)
    {
      LineFits(i, |lines|, lineH);
      DrawLine(i, y, lines, lineH, pass, draw, rows);
      y := y + lineH;
    }
  }

  method DrawLine<S, R>(i: nat, top: nat, lines: seq<S>, lineH: nat, pass: nat, draw: (S, nat) -> R, rows: array<R>)
    requires lineH > 0 && pass == |lines| * lineH > 0 && i < |lines|
    requires top == i * lineH && top + lineH <= pass <= rows.Length
    requires Shows(rows[..], top, lines, lineH, pass, draw)
    modifies rows
    ensures Shows(rows[..], top + lineH, lines, lineH, pass, draw)
  {
    forall y | 0 <= y < lineH { rows[top + y] := draw(lines[i], y); }
    forall k | top <= k < top + lineH ensures rows[k] == Ring(lines, lineH, pass, draw, k) {
      ModExact(k, 0, pass, k);
      FlatSplits(i, k - top, lineH);
    }
  }

  lemma LineFits(i: nat, n: nat, lineH: nat)
    requires i < n
    ensures (i + 1) * lineH == i * lineH + lineH <= n * lineH
  {
    var d := n - i - 1;
    assert d * lineH >= 0;
    assert n == d + (i + 1);
    Rows(d, i + 1, lineH);
    Rows(i, 1, lineH);
  }

  lemma Rows(a: int, b: int, lineH: nat)
    ensures (a + b) * lineH == a * lineH + b * lineH
  {
  }

  // ----- the window

  /** Where the window starts when the scroll has come to row `p`, before any wrap. */
  function Offset(p: int, stripH: nat): int { p % (if stripH > 1 then stripH else 1) }

  /** The ticker part of `render`: a contiguous read that never leaves the strip, and shows exactly
      the rows of the endless ring from `p` on, the wrap included. */
  method Window<S, R>(strip: array<R>, lines: seq<S>, tickH: nat, lineH: nat, pass: nat, draw: (S, nat) -> R, p: int)
    returns (view: seq<R>)
    requires lineH > 0 && pass == |lines| * lineH > 0 && strip.Length == StripRows(tickH, lineH, pass)
    requires forall k :: 0 <= k < strip.Length ==> strip[k] == Ring(lines, lineH, pass, draw, k)
    ensures |view| == tickH
    ensures forall k :: 0 <= k < tickH ==> view[k] == Ring(lines, lineH, pass, draw, p + k)
  {
    var o := Offset(p, pass);
    WindowFits(p, pass, tickH, lineH);
    view := strip[o..o + tickH];
    forall k | 0 <= k < tickH ensures view[k] == Ring(lines, lineH, pass, draw, p + k) {
      ModOffset(p, k, pass);
      assert (o + k) % pass == (p + k) % pass;
    }
  }

  lemma WindowFits(p: int, pass: nat, tickH: nat, lineH: nat)
    requires pass > 0
    ensures 0 <= Offset(p, pass) == p % pass < pass
    ensures Offset(p, pass) + tickH <= StripRows(tickH, lineH, pass)
  {
    RepsSlack(tickH, lineH, pass);
    if pass == 1 { assert p % 1 == 0; }
  }

  // ----- the path on a ticker line

  /** An element of an AS path: missing, one network, or a set, which stands for whatever is first in it. */
  datatype Hop = Gap | Network(asn: int) | Group(members: seq<Hop>)

  function Drawn(h: Hop): Option<int> {
    match h
    case Gap => None
    case Network(n) => Some(n)
    case Group(ms) => if ms != [] && ms[0].Network? then Some(ms[0].asn) else None
  }

  /** A set counts as its first member alone, and what draws nothing leaves no trace. */
  lemma SetIsItsFirst(a: seq<Hop>, n: int, rest: seq<Hop>, b: seq<Hop>)
    ensures Collapsed(a + [Group([Network(n)] + rest)] + b) == Collapsed(a + [Network(n)] + b)
    ensures Collapsed(a + [Gap] + b) == Collapsed(a + [Group([])] + b) == Collapsed(a + b)
  {
    SameDrawn(a, Group([Network(n)] + rest), Network(n), b);
    SameDrawn(a, Gap, Group([]), b);
    NothingDrawn(a, b);
  }

  lemma {:induction false} SameDrawn(a: seq<Hop>, h: Hop, k: Hop, b: seq<Hop>)
    requires Drawn(h) == Drawn(k)
    ensures Collapsed(a + [h] + b) == Collapsed(a + [k] + b)
  {
    if b == [] {
      assert a + [h] + b == a + [h] && a + [k] + b == a + [k];
      CollapsedOfOneMore(a, h);
      CollapsedOfOneMore(a, k);
    } else {
      var init, last := b[..|b| - 1], b[|b| - 1];
      SameDrawn(a, h, k, init);
      assert a + [h] + b == a + [h] + init + [last] && a + [k] + b == a + [k] + init + [last];
      SameEnding(a + [h] + init, a + [k] + init, last);
    }
  }

  lemma {:induction false} NothingDrawn(a: seq<Hop>, b: seq<Hop>)
    ensures Collapsed(a + [Gap] + b) == Collapsed(a + b)
  {
    if b == [] {
      assert a + [Gap] + b == a + [Gap] && a + b == a;
      CollapsedOfOneMore(a, Gap);
    } else {
      var init, last := b[..|b| - 1], b[|b| - 1];
      NothingDrawn(a, init);
      assert a + [Gap] + b == a + [Gap] + init + [last] && a + b == a + init + [last];
      SameEnding(a + [Gap] + init, a + init, last);
    }
  }

  /** What a further element adds to the networks kept so far. */
  function Extend(kept: seq<int>, v: Option<int>): seq<int> {
    if v.None? || (kept != [] && kept[|kept| - 1] == v.value) then kept else kept + [v.value]
  }

  function Collapsed(path: seq<Hop>): (r: seq<int>) {
    if path == [] then [] else Extend(Collapsed(path[..|path| - 1]), Drawn(path[|path| - 1]))
  }

  /** `dedup`: a network is kept only where it differs from the one kept before it. */
  method Dedup(path: seq<Hop>) returns (out: seq<int>)
    ensures out == Collapsed(path)
  {
    out := [];
    for i := 0 to |path|
      invariant out == Collapsed(path[..i])
    {
      assert path[..i + 1][..i] == path[..i];
      var v := Drawn(path[i]);
      if v.None? { continue; }
      if out == [] || out[|out| - 1] != v.value {
        out := out + [v.value];
      }
    }
    assert path[..|path|] == path;
  }

  /** The networks of a path as they come, absent elements dropped and nothing else. */
  function Networks(path: seq<Hop>): seq<int> {
    if path == [] then []
    else
      var v := Drawn(path[|path| - 1]);
      Networks(path[..|path| - 1]) + if v.Some? then [v.value] else []
  }

  /** `place` sends each of `all` to its own run: it stays where it is while the value repeats and
      moves one on when the value changes, from the first of `kept` to the last. */
  ghost predicate RunsOf(all: seq<int>, kept: seq<int>, place: seq<nat>) {
    && |place| == |all| && (all == [] ==> kept == [])
    && (all != [] ==> place[0] == 0 && place[|all| - 1] + 1 == |kept|)
    && (forall i :: 0 <= i < |all| ==> place[i] < |kept| && kept[place[i]] == all[i])
    && forall i :: 0 < i < |all| ==> place[i] == place[i - 1] + if all[i] == all[i - 1] then 0 else 1
  }

  lemma RunsOfOneMore(all: seq<int>, kept: seq<int>, place: seq<nat>, n: int) returns (longer: seq<nat>)
    requires RunsOf(all, kept, place)
    ensures RunsOf(all + [n], Extend(kept, Some(n)), longer)
  {
    if all == [] {
      longer := [0];
    } else {
      assert kept[|kept| - 1] == all[|all| - 1];
      longer := place + [if kept[|kept| - 1] == n then |kept| - 1 else |kept|];
    }
  }

  /** Exactly one number stands for each run of the path's networks, in the path's order. */
  lemma {:induction false} CollapsedMeans(path: seq<Hop>) returns (place: seq<nat>)
    ensures RunsOf(Networks(path), Collapsed(path), place)
  {
    if path == [] {
      place := [];
    } else {
      place := CollapsedMeans(path[..|path| - 1]);
      var kept, v := Collapsed(path[..|path| - 1]), Drawn(path[|path| - 1]);
      if v.Some? { place := RunsOfOneMore(Networks(path[..|path| - 1]), kept, place, v.value); }
    }
  }

  /** A sequence that stands so for the runs of another never says a number twice running. */
  lemma {:induction false} NoNetworkFollowsItself(all: seq<int>, kept: seq<int>, place: seq<nat>, k: nat)
    requires RunsOf(all, kept, place) && 0 < k < |kept|
    ensures kept[k - 1] != kept[k]
  {
    var i := FirstAt(place, k, |place| - 1);
    assert place[i - 1] == k - 1;
  }

  lemma {:induction false} FirstAt(place: seq<nat>, k: nat, n: nat) returns (i: nat)
    requires n < |place| && 0 < k <= place[n] && place[0] == 0
    requires forall i :: 0 < i <= n ==> place[i - 1] <= place[i] <= place[i - 1] + 1
    ensures 0 < i <= n && place[i - 1] < k == place[i]
  {
    i := n;
    if place[n - 1] >= k { i := FirstAt(place, k, n - 1); }
  }

  lemma CollapsedOfOneMore(path: seq<Hop>, h: Hop)
    ensures Collapsed(path + [h]) == Extend(Collapsed(path), Drawn(h))
  {
    assert (path + [h])[..|path|] == path;
  }

  lemma SaidTwice(path: seq<Hop>, h: Hop)
    ensures Collapsed(path + [h] + [h]) == Collapsed(path + [h])
  {
    CollapsedOfOneMore(path + [h], h);
    CollapsedOfOneMore(path, h);
  }

  lemma SameEnding(a: seq<Hop>, b: seq<Hop>, h: Hop)
    requires Collapsed(a) == Collapsed(b)
    ensures Collapsed(a + [h]) == Collapsed(b + [h])
  {
    CollapsedOfOneMore(a, h);
    CollapsedOfOneMore(b, h);
  }

  /** Prepending -- saying one's own number again -- never changes what is drawn. */
  lemma {:induction false} PrependingIsInvisible(a: seq<Hop>, h: Hop, b: seq<Hop>)
    ensures Collapsed(a + [h, h] + b) == Collapsed(a + [h] + b)
  {
    if b == [] {
      assert a + [h, h] + b == a + [h] + [h];
      assert a + [h] + b == a + [h];
      SaidTwice(a, h);
    } else {
      var init, last := b[..|b| - 1], b[|b| - 1];
      PrependingIsInvisible(a, h, init);
      assert a + [h, h] + b == a + [h, h] + init + [last];
      assert a + [h] + b == a + [h] + init + [last];
      SameEnding(a + [h, h] + init, a + [h] + init, last);
    }
  }
}
