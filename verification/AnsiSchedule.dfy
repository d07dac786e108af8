/** When each cell arrives in `demos/ansi.py`, and which page is showing. */
module AnsiSchedule {
  import opened Options
  import opened RealSeq
  import opened AnsiReveal

  /** Extra seconds asked for after a row of the page. */
  datatype RowPause = RowPause(row: nat, secs: real)

  /** The same, charged to cell `last` of the cells sent. */
  datatype Pause = Pause(last: nat, secs: real)

  // ----- from rows to cells

  /** The last cell sent of a row; a row of blanks sends none. */
  function LastOf(sent: seq<Cell>, row: nat): (i: Option<nat>)
    ensures i.Some? ==> i.value < |sent| && sent[i.value].r == row && forall j :: i.value < j < |sent| ==> sent[j].r != row
    ensures i.None? ==> forall j :: 0 <= j < |sent| ==> sent[j].r != row
  {
    if sent == [] then None
    else if sent[|sent| - 1].r == row then Some(|sent| - 1)
    else LastOf(sent[..|sent| - 1], row)
  }

  /** The search for it: every index of the row, and the last of those. */
  method FindLast(sent: seq<Cell>, row: nat) returns (last: Option<nat>)
    ensures last == LastOf(sent, row)
  {
    var idx := [];
    for i := 0 to |sent|
      invariant forall k :: 0 <= k < |idx| ==> 0 <= idx[k] < i && sent[idx[k]].r == row
      invariant idx == [] ==> forall j :: 0 <= j < i ==> sent[j].r != row
      invariant idx != [] ==> forall j :: idx[|idx| - 1] < j < i ==> sent[j].r != row
    {
      if sent[i].r == row { idx := idx + [i]; }
    }
    last := if idx == [] then None else Some(idx[|idx| - 1]);
  }

  /** The pauses of a page by cell; one asked for after a row that sends nothing is dropped. */
  function Charges(sent: seq<Cell>, after: seq<RowPause>): (p: seq<Pause>)
    ensures forall k :: 0 <= k < |p| ==> p[k].last < |sent|
  {
    if after == [] then []
    else
      var a := after[|after| - 1];
      Charges(sent, after[..|after| - 1])
      + match LastOf(sent, a.row) case None => [] case Some(i) => [Pause(i, a.secs)]
  }

  // ----- from cells to times

  /** Extra seconds charged at each step of the clock. */
  function Gap(pauses: seq<Pause>, j: int): real {
    if pauses == [] then 0.0
    else
      var p := pauses[|pauses| - 1];
      Gap(pauses[..|pauses| - 1], j) + if p.last + 1 == j then p.secs else 0.0
  }

  /** Pauses charged at or before cell `i`. */
  function Paused(pauses: seq<Pause>, i: int): real {
    if pauses == [] then 0.0
    else Paused(pauses[..|pauses| - 1], i) + if pauses[|pauses| - 1].last <= i then pauses[|pauses| - 1].secs else 0.0
  }

  /** When cell `i` arrives: one tick a cell, and every pause whose row ends at or before it. */
  function Arrival(tick: real, pauses: seq<Pause>, i: int): real { (i + 1) as real * tick + Paused(pauses, i) }

  lemma {:induction false} PausedStep(pauses: seq<Pause>, i: int)
    ensures Paused(pauses, i) == Paused(pauses, i - 1) + Gap(pauses, i + 1)
  {
    if pauses != [] { PausedStep(pauses[..|pauses| - 1], i); }
  }

  lemma {:induction false} NothingPausedYet(pauses: seq<Pause>)
    ensures Paused(pauses, -1) == 0.0 && Gap(pauses, 0) == 0.0
  {
    if pauses != [] { NothingPausedYet(pauses[..|pauses| - 1]); }
  }

  lemma GapOfOneMore(sent: seq<Cell>, after: seq<RowPause>, j: int)
    requires after != []
    ensures var a := after[|after| - 1];
      Gap(Charges(sent, after), j) == Gap(Charges(sent, after[..|after| - 1]), j)
                                    + if LastOf(sent, a.row) == Some(j - 1) then a.secs else 0.0
  {
    var a, before := after[|after| - 1], Charges(sent, after[..|after| - 1]);
    if last: nat :| LastOf(sent, a.row) == Some(last) {
      assert (before + [Pause(last, a.secs)])[..|before|] == before;
    } else {
      assert before + [] == before;
    }
  }

  ghost predicate GapsAre(gaps: seq<real>, sent: seq<Cell>, after: seq<RowPause>) {
    |gaps| == |sent| + 1 && forall j :: 0 <= j <= |sent| ==> gaps[j] == Gap(Charges(sent, after), j)
  }

  /** The gaps of one page: nothing extra at any step, save what each row's pause adds. */
  method FillGaps(sent: seq<Cell>, after: seq<RowPause>) returns (gaps: array<real>)
    ensures fresh(gaps) && GapsAre(gaps[..], sent, after)
  {
    gaps := new real[|sent| + 1](_ => 0.0);
    for k := 0 to |after|
      invariant GapsAre(gaps[..], sent, after[..k])
    {
      assert after[..k + 1][..k] == after[..k];
      ChargeRow(sent, after[..k + 1], gaps);
    }
    assert after[..|after|] == after;
  }

  /** The pause loop's body, for the last of the pauses given. */
  method ChargeRow(sent: seq<Cell>, after: seq<RowPause>, gaps: array<real>)
    requires after != [] && GapsAre(gaps[..], sent, after[..|after| - 1])
    modifies gaps
    ensures GapsAre(gaps[..], sent, after)
  {
    var a := after[|after| - 1];
    var last := FindLast(sent, a.row);
    ghost var was := gaps[..];
    if last.Some? {
      gaps[last.value + 1] := gaps[last.value + 1] + a.secs;
    }
    GapsCharged(sent, after, was, gaps[..]);
  }

  lemma GapsCharged(sent: seq<Cell>, after: seq<RowPause>, was: seq<real>, gaps: seq<real>)
    requires after != [] && GapsAre(was, sent, after[..|after| - 1]) && |gaps| == |was|
    requires var a := after[|after| - 1]; forall j :: 0 <= j < |gaps| ==>
      gaps[j] == was[j] + if LastOf(sent, a.row) == Some(j - 1) then a.secs else 0.0
    ensures GapsAre(gaps, sent, after)
  {
    forall j | 0 <= j <= |sent| ensures gaps[j] == Gap(Charges(sent, after), j) {
      GapOfOneMore(sent, after, j);
    }
  }

  /** The schedule of one page: a cumulative sum of ticks and gaps, less its first entry. */
  method Schedule(sent: seq<Cell>, tick: real, after: seq<RowPause>) returns (when: seq<real>, done: real)
    ensures |when| == |sent|
    ensures forall i :: 0 <= i < |sent| ==> when[i] == Arrival(tick, Charges(sent, after), i)
    ensures done == Arrival(tick, Charges(sent, after), |sent| - 1)
  {
    var gaps := FillGaps(sent, after);
    ghost var pauses := Charges(sent, after);
    ghost var extra := gaps[..];
    var clock := tick + gaps[0];
    var first := clock;
    when := [];
    NothingPausedYet(pauses);
    for i := 0 to |sent|
      invariant gaps[..] == extra
      invariant |when| == i && forall j :: 0 <= j < i ==> when[j] == Arrival(tick, pauses, j)
      invariant clock - first == Arrival(tick, pauses, i - 1)
    {
      ArrivalStep(tick, pauses, i);
      clock := clock + tick + gaps[i + 1];
      assert gaps[i + 1] == extra[i + 1] == Gap(pauses, i + 1);
      when := when + [clock - first];
    }
    done := clock - first;
  }

  lemma ArrivalStep(tick: real, pauses: seq<Pause>, i: int)
    ensures Arrival(tick, pauses, i) == Arrival(tick, pauses, i - 1) + tick + Gap(pauses, i + 1)
    ensures Arrival(tick, pauses, -1) == 0.0
  {
    PausedStep(pauses, i);
    NothingPausedYet(pauses);
    Ticks(i, tick);
  }

  lemma Ticks(i: int, tick: real)
    ensures (i + 1) as real * tick == i as real * tick + tick && 0.0 * tick == 0.0
  {
  }

  /** What was asked for after one row, in all. */
  function Owed(after: seq<RowPause>, row: nat): real {
    if after == [] then 0.0
    else Owed(after[..|after| - 1], row) + if after[|after| - 1].row == row then after[|after| - 1].secs else 0.0
  }

  ghost predicate Patient(after: seq<RowPause>) { forall j :: 0 <= j < |after| ==> after[j].secs >= 0.0 }

  lemma {:induction false} GapIsOwed(sent: seq<Cell>, after: seq<RowPause>, i: nat)
    requires i < |sent|
    ensures Gap(Charges(sent, after), i + 1) == if LastOf(sent, sent[i].r) == Some(i) then Owed(after, sent[i].r) else 0.0
  {
    if after != [] {
      var init, a := after[..|after| - 1], after[|after| - 1];
      GapIsOwed(sent, init, i);
      GapOfOneMore(sent, after, i + 1);
    }
  }

  lemma {:induction false} OwedNothingIff(after: seq<RowPause>, row: nat)
    requires Patient(after)
    ensures Owed(after, row) >= 0.0
    ensures Owed(after, row) == 0.0 <==> forall j :: 0 <= j < |after| && after[j].row == row ==> after[j].secs == 0.0
  {
    if after != [] {
      var init := after[..|after| - 1];
      OwedNothingIff(init, row);
      if j :| 0 <= j < |init| && init[j].row == row && init[j].secs != 0.0 { assert after[j] == init[j]; }
      if Owed(init, row) == 0.0 {
        forall j | 0 <= j < |init| && after[j].row == row ensures after[j].secs == 0.0 { assert init[j] == after[j]; }
      }
    }
  }

  /** Every pause asked for after a row falls before that row's last cell: of all the cells sent, just
      those come later than a tick after the one before them, by the whole of what was asked for. So a
      row's last cell is on time exactly when nothing was asked for after its row. */
  lemma PauseFallsBeforeTheLastCell(sent: seq<Cell>, after: seq<RowPause>, tick: real, i: nat)
    requires i < |sent| && Patient(after)
    ensures Arrival(tick, Charges(sent, after), -1) == 0.0
    ensures var pauses, last := Charges(sent, after), LastOf(sent, sent[i].r) == Some(i);
      var wait := Arrival(tick, pauses, i) - Arrival(tick, pauses, i - 1);
      && wait == tick + (if last then Owed(after, sent[i].r) else 0.0)
      && (wait == tick <==> last ==> forall j :: 0 <= j < |after| && after[j].row == sent[i].r ==> after[j].secs == 0.0)
  {
    ArrivalStep(tick, Charges(sent, after), i);
    GapIsOwed(sent, after, i);
    OwedNothingIff(after, sent[i].r);
  }

  /** A page of two rows, two cells and one, with three seconds asked for after the first row at a cell a
      second: its second cell waits four seconds, and the first of the next row only one. */
  lemma APauseInsideItsRow()
    ensures var sent, after := [Cell(0, 0), Cell(0, 1), Cell(1, 0)], [RowPause(0, 3.0)];
      var pauses := Charges(sent, after);
      && Arrival(1.0, pauses, 1) - Arrival(1.0, pauses, 0) == 4.0
      && Arrival(1.0, pauses, 2) - Arrival(1.0, pauses, 1) == 1.0
  {
    var sent, after := [Cell(0, 0), Cell(0, 1), Cell(1, 0)], [RowPause(0, 3.0)];
    PauseFallsBeforeTheLastCell(sent, after, 1.0, 1);
    PauseFallsBeforeTheLastCell(sent, after, 1.0, 2);
    assert LastOf(sent, 0) == Some(1) by { assert LastOf(sent, 0).Some? ==> sent[LastOf(sent, 0).value].r == 0; }
    assert after[..0] == [];
    assert Owed(after, 0) == 3.0 && Owed(after, 1) == 0.0;
  }

  /** Cells arrive strictly in order, the first of them after a tick. */
  lemma {:induction false} ArrivalsInOrder(sent: seq<Cell>, after: seq<RowPause>, tick: real, i: int, j: int)
    requires tick > 0.0 && Patient(after) && -1 <= i < j < |sent|
    ensures Arrival(tick, Charges(sent, after), i) + tick <= Arrival(tick, Charges(sent, after), j)
    decreases j - i
  {
    PauseFallsBeforeTheLastCell(sent, after, tick, j);
    OwedNothingIff(after, sent[j].r);
    if i < j - 1 { ArrivalsInOrder(sent, after, tick, i, j - 1); }
  }

  // ----- pages

  /** A page's cells, when the last of them arrives, and how long it is then held. */
  datatype Page = Page(when: seq<real>, done: real, hold: real) {
    ghost predicate Valid() {
      && Ordered(when) && done >= 0.0 && hold >= 0.0
      && if when == [] then done == 0.0 else done == when[|when| - 1]
    }

    function Span(): real { done + hold }
  }

  /** One page of `build`: whatever it sends and however it pauses, its schedule is in order and it is
      done when its last cell arrives. */
  method BuildPage(sent: seq<Cell>, tick: real, after: seq<RowPause>, hold: real) returns (page: Page)
    requires tick > 0.0 && Patient(after) && hold >= 0.0
    ensures page.Valid() && |page.when| == |sent| && page.hold == hold
    ensures forall i :: 0 <= i < |sent| ==> page.when[i] == Arrival(tick, Charges(sent, after), i)
  {
    var when, done := Schedule(sent, tick, after);
    page := Page(when, done, hold);
    NothingPausedYet(Charges(sent, after));
    ArrivalStep(tick, Charges(sent, after), 0);
    forall i, j | 0 <= i <= j < |sent| ensures when[i] <= when[j] {
      if i < j { ArrivalsInOrder(sent, after, tick, i, j); }
    }
    if sent != [] { ArrivalsInOrder(sent, after, tick, -1, |sent| - 1); }
  }

  ghost predicate AllValid(pages: seq<Page>) { forall i :: 0 <= i < |pages| ==> pages[i].Valid() }

  function Begin(pages: seq<Page>, p: nat): real
    requires p <= |pages|
  {
    if p == 0 then 0.0 else Begin(pages, p - 1) + pages[p - 1].Span()
  }

  lemma {:induction false} BeginOrder(pages: seq<Page>, p: nat, q: nat)
    requires p <= q <= |pages| && AllValid(pages)
    ensures 0.0 <= Begin(pages, p) <= Begin(pages, q)
  {
    if p < q { BeginOrder(pages, p, q - 1); } else if p > 0 { BeginOrder(pages, p - 1, p - 1); }
  }

  /** The page showing at `tt` into the cycle: the last to have begun, clamped to a real page. */
  function PageAt(pages: seq<Page>, tt: real, n: nat): (p: nat)
    requires n < |pages|
    ensures p <= n
  {
    if n == 0 || Begin(pages, n) <= tt then n else PageAt(pages, tt, n - 1)
  }

  ghost predicate IsShowing(pages: seq<Page>, tt: real, p: nat) {
    p < |pages| && Begin(pages, p) <= tt < Begin(pages, p + 1)
  }

  lemma {:induction false} PageAtIsShowing(pages: seq<Page>, tt: real, n: nat)
    requires n < |pages| && 0.0 <= tt < Begin(pages, n + 1)
    ensures IsShowing(pages, tt, PageAt(pages, tt, n))
  {
    if n > 0 && Begin(pages, n) > tt { PageAtIsShowing(pages, tt, n - 1); }
  }

  /** At any moment of the cycle the page found is showing, and no other is. */
  lemma PageIsShowing(pages: seq<Page>, tt: real, p: nat)
    requires |pages| > 0 && AllValid(pages) && 0.0 <= tt < Begin(pages, |pages|)
    ensures IsShowing(pages, tt, p) <==> p == PageAt(pages, tt, |pages| - 1)
  {
    var q := PageAt(pages, tt, |pages| - 1);
    PageAtIsShowing(pages, tt, |pages| - 1);
    if p < q { BeginOrder(pages, p + 1, q); } else if q < p < |pages| { BeginOrder(pages, q + 1, p); }
  }

  /** While page `p` is showing it is complete exactly from its last arrival on, and that leaves
      exactly its hold before the next page begins. */
  lemma CompleteForItsHold(pages: seq<Page>, tt: real)
    requires |pages| > 0 && AllValid(pages) && 0.0 <= tt < Begin(pages, |pages|)
    ensures var p := PageAt(pages, tt, |pages| - 1);
      var local := tt - Begin(pages, p);
      && 0.0 <= local < pages[p].Span()
      && (Arrived(pages[p].when, local) == |pages[p].when| <==> local >= pages[p].done)
      && Begin(pages, p + 1) - (Begin(pages, p) + pages[p].done) == pages[p].hold
  {
    PageAtIsShowing(pages, tt, |pages| - 1);
    var p := PageAt(pages, tt, |pages| - 1);
    var local := tt - Begin(pages, p);
    if pages[p].when != [] {
      ArrivedMeans(pages[p].when, local, |pages[p].when| - 1);
    }
  }

  // ----- the whole show

  /** What `build` keeps of a page: its image, the cells it sends, and their schedule. */
  datatype Baked<!C> = Baked(screen: Screen<C>, art: array2<C>, sent: seq<Cell>, page: Page) {
    ghost predicate Valid() {
      screen.Valid() && page.Valid() && sent == screen.Cells() && |page.when| == |sent|
    }

    /** Its image holds the page, on a panel of `h` by `w`. */
    ghost predicate Ready(h: nat, w: nat)
      reads art
    {
      Valid() && screen.IsArt(art) && art.Length0 == h && art.Length1 == w
    }

    /** The panel shows this page as it is `local` seconds in. */
    ghost predicate ShownOn(out: array2<C>, local: real, lit: bool, ink: C)
      requires Valid()
      reads out
    {
      forall y, x :: 0 <= y < out.Length0 && 0 <= x < out.Length1 ==>
        out[y, x] == screen.Seen(page.when, local, lit, ink, y, x)
    }
  }

  /** One turn of the page loop of `build`, or nothing when a row's attributes miscount. */
  method MakePage<C>(scr: Screen<C>, h: nat, w: nat, tick: real, after: seq<RowPause>, hold: real)
    returns (b: Option<Baked<C>>)
    requires scr.rows >= 1 && scr.cols >= 1 && scr.face.Valid()
    requires tick > 0.0 && Patient(after) && hold >= 0.0
    ensures b.None? <==> exists r: nat :: scr.Miscounts(r)
    ensures b.Some? ==> fresh(b.value.art) && b.value.Ready(h, w) && b.value.screen == scr
    ensures b.Some? ==> forall i :: 0 <= i < |scr.Cells()| && i < |b.value.page.when| ==>
      b.value.page.when[i] == Arrival(tick, Charges(scr.Cells(), after), i)
  {
    var baked := Bake(scr, h, w);
    if baked.None? {
      return None;
    }
    var page := BuildPage(baked.value.1, tick, after, hold);
    b := Some(Baked(scr, baked.value.0, baked.value.1, page));
  }

  /** Which page is showing at time `t`, cycle after cycle, and how far into it the show is. */
  method FindPage(pages: seq<Page>, t: real) returns (p: nat, local: real)
    requires |pages| > 0 && AllValid(pages) && Begin(pages, |pages|) > 0.0
    ensures IsShowing(pages, Mod(t, Begin(pages, |pages|)), p)
    ensures local == Mod(t, Begin(pages, |pages|)) - Begin(pages, p)
  {
    var tt := Mod(t, Begin(pages, |pages|));
    ModRange(t, Begin(pages, |pages|));
    p := PageAt(pages, tt, |pages| - 1);
    PageIsShowing(pages, tt, p);
    local := tt - Begin(pages, p);
  }

  /** `render`: at any time the panel shows, of the one page then showing, exactly the cells whose arrival
      has passed, and the cursor. */
  method RenderAt<C>(show: seq<Baked<C>>, pages: seq<Page>, out: array2<C>, t: real, lit: bool, ink: C)
    returns (p: nat, local: real)
    requires |show| == |pages| > 0 && forall i :: 0 <= i < |show| ==> show[i].page == pages[i]
    requires forall i :: 0 <= i < |show| ==> show[i].Ready(out.Length0, out.Length1) && show[i].art != out
    requires Begin(pages, |pages|) > 0.0
    modifies out
    ensures IsShowing(pages, Mod(t, Begin(pages, |pages|)), p)
    ensures local == Mod(t, Begin(pages, |pages|)) - Begin(pages, p)
    ensures show[p].Valid() && show[p].ShownOn(out, local, lit, ink)
  {
    p, local := FindPage(pages, t);
    RenderPage(show[p], out, local, lit, ink);
  }

  method RenderPage<C>(b: Baked<C>, out: array2<C>, local: real, lit: bool, ink: C)
    requires b.Ready(out.Length0, out.Length1) && b.art != out
    modifies out
    ensures b.ShownOn(out, local, lit, ink)
  {
    Render(b.screen, out, b.art, b.sent, b.page.when, local, lit, ink);
  }
}
