/** Laying out an hour of traffic in `demos/adsb.py`: frames to a grid of fixes to a bag of trail points. */
module AdsbTrails {
  import opened Options
  import opened RealSeq
  import opened Interpolation

  /** One poll: parallel columns, one entry an aircraft heard; an empty address is skipped. */
  datatype Frame = Frame(hex: seq<string>, lat: seq<real>, lon: seq<real>, alt: seq<int>) {
    predicate WellFormed() { |hex| <= |lat| && |hex| <= |lon| && |hex| <= |alt| }
  }

  datatype Extent = Extent(la0: real, la1: real, lo0: real, lo1: real) {
    predicate Valid() { la0 < la1 && lo0 < lo1 }
  }

  datatype Pos = Pos(row: real, col: real)

  function CellOf(e: Extent, rows: nat, cols: nat, lat: real, lon: real): Pos
    requires e.Valid()
  {
    Pos((e.la1 - lat) / (e.la1 - e.la0) * rows as real, (lon - e.lo0) / (e.lo1 - e.lo0) * cols as real)
  }

  /** North-west is the map's origin, south-east its far corner, and the map is linear in between. */
  lemma CellOfCorners(e: Extent, rows: nat, cols: nat, u: real, v: real)
    requires e.Valid()
    ensures CellOf(e, rows, cols, e.la1 - v * (e.la1 - e.la0), e.lo0 + u * (e.lo1 - e.lo0))
         == Pos(v * rows as real, u * cols as real)
  {
    QuotientOfProduct(v, e.la1 - e.la0);
    QuotientOfProduct(u, e.lo1 - e.lo0);
  }

  // ----- who was heard, in order of first appearance

  function Note(order: seq<string>, h: string): seq<string> {
    if h == "" || h in order then order else order + [h]
  }

  function NoteAll(order: seq<string>, hex: seq<string>): seq<string> {
    if hex == [] then order else Note(NoteAll(order, hex[..|hex| - 1]), hex[|hex| - 1])
  }

  function OrderOf(frames: seq<Frame>): seq<string> {
    if frames == [] then [] else NoteAll(OrderOf(frames[..|frames| - 1]), frames[|frames| - 1].hex)
  }

  ghost predicate Distinct(order: seq<string>) {
    forall i, j :: 0 <= i < j < |order| ==> order[i] != order[j]
  }

  lemma {:induction false} NoteAllMeans(order: seq<string>, hex: seq<string>)
    requires Distinct(order) && "" !in order
    ensures Distinct(NoteAll(order, hex)) && "" !in NoteAll(order, hex)
    ensures forall h :: h in NoteAll(order, hex) <==> h in order || (h != "" && h in hex)
  {
    if hex != [] {
      NoteAllMeans(order, hex[..|hex| - 1]);
      assert hex == hex[..|hex| - 1] + [hex[|hex| - 1]];
    }
  }

  /** One column an aircraft: every address heard anywhere in the hour, once. */
  lemma {:induction false} OrderMeans(frames: seq<Frame>)
    ensures Distinct(OrderOf(frames)) && "" !in OrderOf(frames)
    ensures forall h :: h in OrderOf(frames) <==> h != "" && exists k :: 0 <= k < |frames| && h in frames[k].hex
  {
    if frames != [] {
      var init, last := frames[..|frames| - 1], frames[|frames| - 1];
      OrderMeans(init);
      NoteAllMeans(OrderOf(init), last.hex);
      forall h ensures h in OrderOf(frames) <==> h != "" && exists k :: 0 <= k < |frames| && h in frames[k].hex {
        if k :| 0 <= k < |frames| && h in frames[k].hex {
          if k < |init| { assert h in init[k].hex; }
        }
        if h in OrderOf(init) {
          var k :| 0 <= k < |init| && h in init[k].hex;
          assert h in frames[k].hex;
        }
      }
    }
  }

  // ----- the grid of fixes

  /** The last entry for `h` among the first `n` of the frame: a repeated address keeps its last row. */
  function LastOf(hex: seq<string>, h: string, n: nat): (j: int)
    requires n <= |hex|
    ensures -1 <= j < n
    ensures j >= 0 ==> hex[j] == h
    ensures j < 0 <==> h !in hex[..n]
  {
    if n == 0 then -1 else if hex[n - 1] == h then n - 1 else LastOf(hex, h, n - 1)
  }

  /** The hour on a map: frames, aircraft in column order, and the map's shape. */
  datatype Sky = Sky(frames: seq<Frame>, order: seq<string>, extent: Extent, mapRows: nat, w: nat, samples: nat) {
    ghost predicate Valid() {
      && extent.Valid() && samples >= 2 && mapRows > 0 && w > 0
      && order == OrderOf(frames)
      && forall k :: 0 <= k < |frames| ==> frames[k].WellFormed()
    }

    predicate Heard(k: nat, a: nat) { k < |frames| && a < |order| && order[a] in frames[k].hex }

    function EntryOf(k: nat, a: nat): nat
      requires Heard(k, a)
    {
      LastOf(frames[k].hex, order[a], |frames[k].hex|)
    }

    function FixAt(k: nat, a: nat): Option<Pos>
      requires Valid() && k < |frames| && a < |order|
    {
      if !Heard(k, a) then None
      else Some(CellOf(extent, mapRows, w, frames[k].lat[EntryOf(k, a)], frames[k].lon[EntryOf(k, a)]))
    }

    function AltAt(k: nat, a: nat): int
      requires Valid() && k < |frames| && a < |order|
    {
      if Heard(k, a) then frames[k].alt[EntryOf(k, a)] else 0
    }

    // ----- trail points

    /** Heard in both frames `k` and `k + 1`. */
    predicate Both(k: nat, a: nat) { Heard(k, a) && Heard(k + 1, a) }

    function BothBelow(k: nat, n: nat): (s: seq<nat>)
      requires n <= |order|
      ensures forall a :: a in s <==> 0 <= a < n && Both(k, a)
      ensures forall i :: 0 <= i < |s| ==> s[i] < n && Both(k, s[i])
      ensures forall i, j :: 0 <= i < j < |s| ==> s[i] < s[j]
    {
      if n == 0 then []
      else
        var rest := BothBelow(k, n - 1);
        if Both(k, n - 1) then rest + [n - 1] else rest
    }

    function Pairs(k: nat): seq<nat> { BothBelow(k, |order|) }

    function PointAt(tag: Tag): Point
      requires Valid() && Both(tag.k, tag.a) && tag.s < samples
    {
      var p, q := FixAt(tag.k, tag.a).value, FixAt(tag.k + 1, tag.a).value;
      var u := tag.s as real / samples as real;
      Point(Mix(u, p.row, q.row), Mix(u, p.col, q.col), tag.k as real + u, AltAt(tag.k, tag.a))
    }

    function StepTags(k: nat, s: nat): (t: seq<Tag>) {
      var pairs := Pairs(k);
      seq(|pairs|, i requires 0 <= i < |pairs| => Tag(k, s, pairs[i]))
    }

    function GapTags(k: nat, n: nat): seq<Tag> {
      if n == 0 then [] else GapTags(k, n - 1) + StepTags(k, n - 1)
    }

    /** Which point each trail point is: gap by gap, sample by sample, aircraft by aircraft. */
    function Tags(n: nat): seq<Tag> {
      if n == 0 then [] else Tags(n - 1) + GapTags(n - 1, samples)
    }
  }

  /** Sample `s` of aircraft `a` between frames `k` and `k + 1`. */
  datatype Tag = Tag(k: nat, s: nat, a: nat)

  datatype Point = Point(row: real, col: real, t: real, alt: int)

  lemma {:induction false} GapTagsMean(y: Sky, k: nat, n: nat)
    ensures forall t :: t in y.GapTags(k, n) <==> t.k == k && t.s < n && t.a < |y.order| && y.Both(k, t.a)
  {
    if n > 0 {
      GapTagsMean(y, k, n - 1);
      forall t ensures t in y.StepTags(k, n - 1) <==> t.k == k && t.s == n - 1 && t.a < |y.order| && y.Both(k, t.a) {
        StepTagsMean(y, k, n - 1, t);
      }
    }
  }

  lemma StepTagsMean(y: Sky, k: nat, s: nat, t: Tag)
    ensures t in y.StepTags(k, s) <==> t.k == k && t.s == s && t.a < |y.order| && y.Both(k, t.a)
  {
    var pairs := y.Pairs(k);
    if t.k == k && t.s == s && t.a in pairs {
      var i :| 0 <= i < |pairs| && pairs[i] == t.a;
      assert y.StepTags(k, s)[i] == t;
    }
  }

  /** `n` rounds of one point a pair. */
  function Rounds(n: nat, pairs: nat): nat { n * pairs }

  lemma RoundsSplit(n: nat, a: nat, b: nat)
    ensures Rounds(n, a + b) == Rounds(n, a) + Rounds(n, b)
    ensures Rounds(n + 1, a) == Rounds(n, a) + a
  {
  }

  lemma {:induction false} GapTagsCount(y: Sky, k: nat, n: nat)
    ensures |y.GapTags(k, n)| == Rounds(n, |y.Pairs(k)|)
  {
    if n > 0 {
      GapTagsCount(y, k, n - 1);
      RoundsSplit(n - 1, |y.Pairs(k)|, 0);
    }
  }

  function TotalPairs(y: Sky, n: nat): nat {
    if n == 0 then 0 else TotalPairs(y, n - 1) + |y.Pairs(n - 1)|
  }

  /** Sound and complete: a trail point exists for exactly the aircraft heard in both frames of a gap,
      at every one of the `samples` instants, and never across a frame it was missing from. */
  lemma {:induction false} TagsMean(y: Sky, n: nat)
    ensures forall t :: t in y.Tags(n) <==> t.k < n && t.s < y.samples && t.a < |y.order| && y.Both(t.k, t.a)
  {
    if n > 0 {
      TagsMean(y, n - 1);
      GapTagsMean(y, n - 1, y.samples);
      forall t ensures t in y.Tags(n) <==> t in y.Tags(n - 1) || t in y.GapTags(n - 1, y.samples) {}
    }
  }

  /** Before clipping there are `samples` points to each pair. */
  lemma {:induction false} TagsCount(y: Sky, n: nat)
    ensures |y.Tags(n)| == y.samples * TotalPairs(y, n)
  {
    if n > 0 {
      TagsCount(y, n - 1);
      GapTagsCount(y, n - 1, y.samples);
      RoundsSplit(y.samples, TotalPairs(y, n - 1), |y.Pairs(n - 1)|);
    }
  }

  ghost predicate NoRepeats(ts: seq<Tag>) {
    forall i, j :: 0 <= i < j < |ts| ==> ts[i] != ts[j]
  }

  lemma NoRepeatsConcat(a: seq<Tag>, b: seq<Tag>)
    requires NoRepeats(a) && NoRepeats(b) && forall t :: t in a ==> t !in b
    ensures NoRepeats(a + b)
  {
    forall i, j | 0 <= i < j < |a + b| ensures (a + b)[i] != (a + b)[j] {
      if i < |a| <= j { assert a[i] in a && b[j - |a|] in b; }
    }
  }

  lemma {:induction false} GapTagsOnce(y: Sky, k: nat, n: nat)
    ensures NoRepeats(y.GapTags(k, n))
  {
    if n > 0 {
      GapTagsOnce(y, k, n - 1);
      GapTagsMean(y, k, n - 1);
      NoRepeatsConcat(y.GapTags(k, n - 1), y.StepTags(k, n - 1));
    }
  }

  /** ...each exactly once, so every such pair has exactly `samples` points before clipping. */
  lemma {:induction false} TagsOnce(y: Sky, n: nat)
    ensures NoRepeats(y.Tags(n))
  {
    if n > 0 {
      TagsOnce(y, n - 1);
      TagsMean(y, n - 1);
      GapTagsOnce(y, n - 1, y.samples);
      GapTagsMean(y, n - 1, y.samples);
      NoRepeatsConcat(y.Tags(n - 1), y.GapTags(n - 1, y.samples));
    }
  }

  lemma SampleFraction(s: nat, samples: nat)
    requires s < samples
    ensures 0.0 <= s as real / samples as real < 1.0
  {
    FractionBounds(s as real, samples as real);
  }

  /** A trail point lies on the segment between the two measured fixes, strictly before the later one. */
  lemma PointOnSegment(y: Sky, tag: Tag)
    requires y.Valid() && y.Both(tag.k, tag.a) && tag.s < y.samples
    ensures y.frames[tag.k].hex[y.EntryOf(tag.k, tag.a)] == y.frames[tag.k + 1].hex[y.EntryOf(tag.k + 1, tag.a)]
    ensures tag.k as real <= y.PointAt(tag).t < tag.k as real + 1.0
    ensures var u, p := y.PointAt(tag).t - tag.k as real, y.FixAt(tag.k, tag.a).value;
      var q := y.FixAt(tag.k + 1, tag.a).value;
      y.PointAt(tag).row == Mix(u, p.row, q.row) && y.PointAt(tag).col == Mix(u, p.col, q.col)
    ensures tag.s == 0 ==> Pos(y.PointAt(tag).row, y.PointAt(tag).col) == y.FixAt(tag.k, tag.a).value
    ensures y.PointAt(tag).alt == y.frames[tag.k].alt[y.EntryOf(tag.k, tag.a)]
    ensures Weighed(y.PointAt(tag).t - tag.k as real, y.samples as real) == tag.s as real
  {
    SampleFraction(tag.s, y.samples);
    if tag.s == 0 { assert 0.0 / y.samples as real == 0.0; }
    SampleTime(tag.s, y.samples);
  }

  lemma SampleTime(s: nat, samples: nat)
    requires samples > 0
    ensures Weighed(s as real / samples as real, samples as real) == s as real
  {
    var n := samples as real;
    assert s as real / n * n == s as real;
  }

  /** A fix is the last row its frame has for the aircraft: where that row says, and how high. An aircraft
      the frame has no row for is nowhere in it. */
  lemma FixIs(y: Sky, k: nat, a: nat, j: nat)
    requires y.Valid() && k < |y.frames| && a < |y.order|
    ensures y.order[a] !in y.frames[k].hex ==> y.FixAt(k, a).None?
    ensures var f := y.frames[k]; j < |f.hex| && f.hex[j] == y.order[a] && y.order[a] !in f.hex[j + 1..] ==>
      y.FixAt(k, a) == Some(CellOf(y.extent, y.mapRows, y.w, f.lat[j], f.lon[j])) && y.AltAt(k, a) == f.alt[j]
  {
    var f := y.frames[k];
    if j < |f.hex| && f.hex[j] == y.order[a] && y.order[a] !in f.hex[j + 1..] {
      LastOfIs(f.hex, y.order[a], |f.hex|, j);
    }
  }

  lemma {:induction false} LastOfIs(hex: seq<string>, h: string, n: nat, j: nat)
    requires j < n <= |hex| && hex[j] == h && forall i :: j < i < n ==> hex[i] != h
    ensures LastOf(hex, h, n) == j
  {
    if j < n - 1 { LastOfIs(hex, h, n - 1, j); }
  }

  // ----- in which order

  /** Earlier gap first, then earlier sample, then earlier column. */
  predicate Sooner(t: Tag, u: Tag) {
    t.k < u.k || (t.k == u.k && (t.s < u.s || (t.s == u.s && t.a < u.a)))
  }

  ghost predicate InOrder(ts: seq<Tag>) {
    forall i, j :: 0 <= i < j < |ts| ==> Sooner(ts[i], ts[j])
  }

  lemma InOrderConcat(a: seq<Tag>, b: seq<Tag>)
    requires InOrder(a) && InOrder(b) && forall t, u :: t in a && u in b ==> Sooner(t, u)
    ensures InOrder(a + b)
  {
    forall i, j | 0 <= i < j < |a + b| ensures Sooner((a + b)[i], (a + b)[j]) {
      if i < |a| <= j { assert a[i] in a && b[j - |a|] in b; }
    }
  }

  lemma {:induction false} GapTagsInOrder(y: Sky, k: nat, n: nat)
    ensures InOrder(y.GapTags(k, n))
  {
    if n > 0 {
      GapTagsInOrder(y, k, n - 1);
      GapTagsMean(y, k, n - 1);
      InOrderConcat(y.GapTags(k, n - 1), y.StepTags(k, n - 1));
    }
  }

  /** The points come gap by gap, sample by sample and column by column, so a later one is drawn over. */
  lemma {:induction false} TagsInOrder(y: Sky, n: nat)
    ensures InOrder(y.Tags(n))
  {
    if n > 0 {
      TagsInOrder(y, n - 1);
      TagsMean(y, n - 1);
      GapTagsInOrder(y, n - 1, y.samples);
      GapTagsMean(y, n - 1, y.samples);
      InOrderConcat(y.Tags(n - 1), y.GapTags(n - 1, y.samples));
    }
  }

  // ----- columns in order of appearance

  /** The columns come in the order the addresses were first heard in: whatever is heard later joins at the end. */
  lemma {:induction false} NoteAllExtends(order: seq<string>, hex: seq<string>)
    ensures order <= NoteAll(order, hex)
  {
    if hex != [] { NoteAllExtends(order, hex[..|hex| - 1]); }
  }

  lemma {:induction false} ColumnsOnlyJoin(frames: seq<Frame>, n: nat)
    requires n <= |frames|
    ensures OrderOf(frames[..n]) <= OrderOf(frames)
  {
    if n < |frames| {
      var init := frames[..|frames| - 1];
      assert init[..n] == frames[..n];
      ColumnsOnlyJoin(init, n);
      NoteAllExtends(OrderOf(init), frames[|frames| - 1].hex);
    } else {
      assert frames[..n] == frames;
    }
  }

  // ----- building them

  ghost predicate Indexes(index: map<string, nat>, order: seq<string>) {
    && (forall h :: h in index <==> h in order)
    && forall h :: h in index ==> index[h] < |order| && order[index[h]] == h
  }

  /** The address loop at the head of `lay_out`. */
  method Columns(frames: seq<Frame>) returns (order: seq<string>, index: map<string, nat>)
    ensures order == OrderOf(frames) && Indexes(index, order)
  {
    order, index := [], map[];
    for k := 0 to |frames|
      invariant order == OrderOf(frames[..k]) && Indexes(index, order)
    {
      assert frames[..k + 1][..k] == frames[..k];
      order, index := NoteFrame(order, index, frames[k].hex);
    }
    assert frames[..|frames|] == frames;
  }

  method NoteFrame(order0: seq<string>, index0: map<string, nat>, hex: seq<string>)
    returns (order: seq<string>, index: map<string, nat>)
    requires Indexes(index0, order0)
    ensures order == NoteAll(order0, hex) && Indexes(index, order)
  {
    order, index := order0, index0;
    for j := 0 to |hex|
      invariant order == NoteAll(order0, hex[..j]) && Indexes(index, order)
    {
      assert hex[..j + 1][..j] == hex[..j];
      var hx := hex[j];
      if hx != "" && hx !in index {
        index := index[hx := |order|];
        order := order + [hx];
      }
    }
    assert hex[..|hex|] == hex;
  }

  ghost predicate GridIs(y: Sky, pos: array2<Option<Pos>>, alts: array2<int>, n: nat)
    requires y.Valid() && n <= |y.frames|
    reads pos, alts
  {
    && pos.Length0 == alts.Length0 == |y.frames| && pos.Length1 == alts.Length1 == |y.order|
    && forall k, a :: 0 <= k < n && 0 <= a < |y.order| ==> pos[k, a] == y.FixAt(k, a) && alts[k, a] == y.AltAt(k, a)
  }

  /** The fix and the altitude of column `a` as of the first `n` entries of frame `k`. */
  function FixUpTo(y: Sky, k: nat, a: nat, n: nat): Option<Pos>
    requires y.Valid() && k < |y.frames| && a < |y.order| && n <= |y.frames[k].hex|
  {
    var f := y.frames[k];
    var m := LastOf(f.hex, y.order[a], n);
    if m < 0 then None else Some(CellOf(y.extent, y.mapRows, y.w, f.lat[m], f.lon[m]))
  }

  function AltUpTo(y: Sky, k: nat, a: nat, n: nat): int
    requires y.Valid() && k < |y.frames| && a < |y.order| && n <= |y.frames[k].hex|
  {
    var m := LastOf(y.frames[k].hex, y.order[a], n);
    if m < 0 then 0 else y.frames[k].alt[m]
  }

  lemma AllOfFrame(y: Sky, k: nat, a: nat)
    requires y.Valid() && k < |y.frames| && a < |y.order|
    ensures FixUpTo(y, k, a, |y.frames[k].hex|) == y.FixAt(k, a)
    ensures AltUpTo(y, k, a, |y.frames[k].hex|) == y.AltAt(k, a)
  {
    var hex := y.frames[k].hex;
    assert hex[..|hex|] == hex;
  }

  /** The grid-filling loop of `lay_out`: one frame's row. */
  method FillRow(y: Sky, k: nat, index: map<string, nat>, pos: array2<Option<Pos>>, alts: array2<int>)
    requires y.Valid() && k < |y.frames|
    requires pos.Length0 == alts.Length0 == |y.frames| && pos.Length1 == alts.Length1 == |y.order|
    requires Indexes(index, y.order)
    requires forall a :: 0 <= a < |y.order| ==> pos[k, a] == None && alts[k, a] == 0
    modifies pos, alts
    ensures forall j, a :: 0 <= j < |y.frames| && j != k && 0 <= a < |y.order| ==>
      pos[j, a] == old(pos[j, a]) && alts[j, a] == old(alts[j, a])
    ensures forall a :: 0 <= a < |y.order| ==> pos[k, a] == y.FixAt(k, a) && alts[k, a] == y.AltAt(k, a)
  {
    for j := 0 to |y.frames[k].hex|
      invariant forall i, a :: 0 <= i < |y.frames| && i != k && 0 <= a < |y.order| ==>
        pos[i, a] == old(pos[i, a]) && alts[i, a] == old(alts[i, a])
      invariant forall a :: 0 <= a < |y.order| ==> pos[k, a] == FixUpTo(y, k, a, j) && alts[k, a] == AltUpTo(y, k, a, j)
    {
      PutFix(y, k, j, index, pos, alts);
    }
    forall a | 0 <= a < |y.order| ensures pos[k, a] == y.FixAt(k, a) && alts[k, a] == y.AltAt(k, a) {
      AllOfFrame(y, k, a);
    }
  }

  /** One entry of the frame: a later one of the same address takes its place. */
  method PutFix(y: Sky, k: nat, j: nat, index: map<string, nat>, pos: array2<Option<Pos>>, alts: array2<int>)
    requires y.Valid() && k < |y.frames| && j < |y.frames[k].hex| && Indexes(index, y.order)
    requires pos.Length0 == alts.Length0 == |y.frames| && pos.Length1 == alts.Length1 == |y.order|
    requires forall a :: 0 <= a < |y.order| ==> pos[k, a] == FixUpTo(y, k, a, j) && alts[k, a] == AltUpTo(y, k, a, j)
    modifies pos, alts
    ensures forall i, a :: 0 <= i < |y.frames| && i != k && 0 <= a < |y.order| ==>
      pos[i, a] == old(pos[i, a]) && alts[i, a] == old(alts[i, a])
    ensures forall a :: 0 <= a < |y.order| ==>
      pos[k, a] == FixUpTo(y, k, a, j + 1) && alts[k, a] == AltUpTo(y, k, a, j + 1)
  {
    var f := y.frames[k];
    var hx := f.hex[j];
    EntryChanges(y, k, j);
    if hx != "" {
      HeardIsListed(y, k, j);
      var a := index[hx];
      pos[k, a] := Some(CellOf(y.extent, y.mapRows, y.w, f.lat[j], f.lon[j]));
      alts[k, a] := f.alt[j];
    }
  }

  lemma HeardIsListed(y: Sky, k: nat, j: nat)
    requires y.Valid() && k < |y.frames| && j < |y.frames[k].hex| && y.frames[k].hex[j] != ""
    ensures y.frames[k].hex[j] in y.order && Distinct(y.order)
  {
    OrderMeans(y.frames);
  }

  /** An entry changes the column of its own address and no other. */
  lemma EntryChanges(y: Sky, k: nat, j: nat)
    requires y.Valid() && k < |y.frames| && j < |y.frames[k].hex|
    ensures var f := y.frames[k]; forall a :: 0 <= a < |y.order| ==>
      FixUpTo(y, k, a, j + 1) == (if y.order[a] == f.hex[j] then Some(CellOf(y.extent, y.mapRows, y.w, f.lat[j], f.lon[j]))
                                  else FixUpTo(y, k, a, j))
      && AltUpTo(y, k, a, j + 1) == (if y.order[a] == f.hex[j] then f.alt[j] else AltUpTo(y, k, a, j))
    ensures forall a :: 0 <= a < |y.order| ==> y.order[a] != ""
  {
    OrderMeans(y.frames);
    assert forall a :: 0 <= a < |y.order| ==> y.order[a] in y.order;
  }

  method FillGrid(y: Sky, index: map<string, nat>) returns (pos: array2<Option<Pos>>, alts: array2<int>)
    requires y.Valid()
    requires Indexes(index, y.order)
    ensures fresh(pos) && fresh(alts) && GridIs(y, pos, alts, |y.frames|)
  {
    pos := new Option<Pos>[|y.frames|, |y.order|]((_, _) => None);
    alts := new int[|y.frames|, |y.order|]((_, _) => 0);
    for k := 0 to |y.frames|
      invariant GridIs(y, pos, alts, k)
      invariant forall j, a :: k <= j < |y.frames| && 0 <= a < |y.order| ==> pos[j, a] == None && alts[j, a] == 0
    {
      FillRow(y, k, index, pos, alts);
    }
  }
}
