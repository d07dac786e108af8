/** The bulletin-board screens of `demos/ansi.py`: which cells are sent, in what order, and the two-slice reveal. */
module AnsiReveal {
  import opened Options

  const CELL: nat := 8

  datatype Cell = Cell(r: nat, c: nat)

  /** One row of a page: its text and, character for character, the name of its colour. */
  datatype Line = Line(text: string, attr: string)

  /** What the machine's font and palette are, as far as a page can tell. */
  datatype Face<!C> = Face(blank: char -> bool, lit: (char, int, int) -> bool, colour: char -> C, black: C) {
    /** White space has no pixels. */
    ghost predicate Valid() { forall ch, y, x :: blank(ch) ==> !lit(ch, y, x) }
  }

  function Trimmed(s: string, n: nat): string { if |s| <= n then s else s[..n] }

  /** The length of a line once its trailing blanks are dropped. */
  function Sent(s: string, blank: char -> bool): (n: nat)
    ensures n <= |s|
    ensures forall i :: n <= i < |s| ==> blank(s[i])
    ensures n > 0 ==> !blank(s[n - 1])
  {
    if s == [] then 0
    else if blank(s[|s| - 1]) then Sent(s[..|s| - 1], blank)
    else |s|
  }

  // ----- arrival times

  ghost predicate Ordered(when: seq<real>) {
    forall i, j :: 0 <= i <= j < |when| ==> when[i] <= when[j]
  }

  /** `np.searchsorted(when, x, side="right")`. */
  function Arrived(when: seq<real>, x: real): (k: nat)
    ensures k <= |when|
    ensures k > 0 ==> when[k - 1] <= x
    ensures forall i :: k <= i < |when| ==> when[i] > x
  {
    if when == [] then 0
    else if when[|when| - 1] <= x then |when|
    else Arrived(when[..|when| - 1], x)
  }

  /** The count found is the number of cells whose time has passed, and those are the first ones. */
  lemma ArrivedMeans(when: seq<real>, x: real, i: nat)
    requires Ordered(when) && i < |when|
    ensures i < Arrived(when, x) <==> when[i] <= x
  {
  }

  /** Nothing that has arrived is ever taken back. */
  lemma ArrivedGrows(when: seq<real>, x: real, y: real)
    requires Ordered(when) && x <= y
    ensures Arrived(when, x) <= Arrived(when, y)
  {
    var k := Arrived(when, x);
    if k > 0 { ArrivedMeans(when, y, k - 1); }
  }

  // ----- a page

  /** A page laid out on a grid of `rows` by `cols` cells. */
  datatype Screen<!C> = Screen(page: seq<Line>, rows: nat, cols: nat, face: Face<C>) {
    ghost predicate Valid() {
      && rows >= 1 && cols >= 1 && face.Valid()
      && forall r: nat :: !Miscounts(r)
    }

    /** A row whose colours do not match its characters one for one. */
    predicate Miscounts(r: nat) { r < Height() && |page[r].text| != |page[r].attr| }

    function Height(): nat { if |page| <= rows then |page| else rows }

    function Text(r: nat): string
      requires r < Height()
    {
      Trimmed(page[r].text, cols)
    }

    function Last(r: nat): nat
      requires r < Height()
    {
      Sent(Text(r), face.blank)
    }

    /** The pixel at row `y`, column `x` of the finished page. */
    function Art(y: nat, x: nat): C {
      var r, c := y / CELL, x / CELL;
      if r >= Height() || c >= |Text(r)| || c >= |page[r].attr| || page[r].attr[c] == 'k' then face.black
      else if face.lit(Text(r)[c], y % CELL, x % CELL) then face.colour(page[r].attr[c])
      else face.black
    }

    /** The image holds the finished page. */
    ghost predicate IsArt(art: array2<C>)
      reads art
    {
      forall y, x :: 0 <= y < art.Length0 && 0 <= x < art.Length1 ==> art[y, x] == Art(y, x)
    }

    function RowCells(r: nat, n: nat): (s: seq<Cell>)
      ensures |s| == n && forall i :: 0 <= i < n ==> s[i] == Cell(r, i)
    {
      seq(n, i requires 0 <= i < n => Cell(r, i))
    }

    /** What goes down the line for the first `n` rows: left to right, top row first. */
    function CellsOf(n: nat): seq<Cell>
      requires n <= Height()
    {
      if n == 0 then [] else CellsOf(n - 1) + RowCells(n - 1, Last(n - 1))
    }

    function Cells(): seq<Cell> { CellsOf(Height()) }

    ghost predicate Before(a: Cell, b: Cell) { a.r < b.r || (a.r == b.r && a.c < b.c) }

    /** Exactly the cells up to each line's last ink, in reading order. */
    lemma {:induction false} CellsMean(n: nat)
      requires n <= Height()
      ensures forall q :: q in CellsOf(n) <==> q.r < n && q.c < Last(q.r)
      ensures forall i, j :: 0 <= i < j < |CellsOf(n)| ==> Before(CellsOf(n)[i], CellsOf(n)[j])
    {
      if n > 0 {
        CellsMean(n - 1);
        var a, b := CellsOf(n - 1), RowCells(n - 1, Last(n - 1));
        forall i, j | 0 <= i < j < |CellsOf(n)| ensures Before(CellsOf(n)[i], CellsOf(n)[j]) {
          if i < |a| <= j { assert a[i] in a; }
        }
        forall q ensures q in b <==> q.r == n - 1 && q.c < Last(n - 1) {
          if q.r == n - 1 && q.c < Last(n - 1) { assert b[q.c] == q; }
        }
      }
    }

    /** A pixel of the page, from its cell and its place in it: the character's own pixel in its own colour, and
        nothing outside the text, in the empty colour, or where the character has no ink. */
    lemma ArtIs(r: nat, c: nat, dy: nat, dx: nat)
      requires Valid() && dy < CELL && dx < CELL
      ensures var lit := r < |page| && r < rows && c < |page[r].text| && c < cols && c < |page[r].attr| && page[r].attr[c] != 'k'
                         && face.lit(page[r].text[c], dy, dx);
        Art(r * CELL + dy, c * CELL + dx) == if lit then face.colour(page[r].attr[c]) else face.black
    {
      assert (r * CELL + dy) / CELL == r && (r * CELL + dy) % CELL == dy;
      assert (c * CELL + dx) / CELL == c && (c * CELL + dx) % CELL == dx;
    }

    /** A cell that is never sent has nothing in it. */
    lemma UnsentIsBlack(y: nat, x: nat)
      requires Valid() && Cell(y / CELL, x / CELL) !in Cells()
      ensures Art(y, x) == face.black
    {
      CellsMean(Height());
    }

    // ----- the reveal

    /** The cheap form: everything above the latest cell's row, and its row up to and including it. */
    function TwoSlices(k: nat, y: nat, x: nat): C
      requires k <= |Cells()|
    {
      if k == 0 then face.black
      else
        var q := Cells()[k - 1];
        if y < q.r * CELL || (y < q.r * CELL + CELL && x < (q.c + 1) * CELL) then Art(y, x) else face.black
    }

    /** The obvious picture: a pixel shows exactly when its cell is one of the first `k` sent. */
    function Obvious(k: nat, y: nat, x: nat): C
      requires k <= |Cells()|
    {
      if Cell(y / CELL, x / CELL) in Cells()[..k] then Art(y, x) else face.black
    }

    lemma SlicesReach(q: Cell, y: nat, x: nat)
      ensures (y < q.r * CELL || (y < q.r * CELL + CELL && x < (q.c + 1) * CELL))
          <==> Cell(y / CELL, x / CELL) == q || Before(Cell(y / CELL, x / CELL), q)
    {
    }

    lemma FirstCells(k: nat, p: Cell)
      requires 0 < k <= |Cells()|
      ensures p in Cells()[..k] <==> p in Cells() && (p == Cells()[k - 1] || Before(p, Cells()[k - 1]))
    {
      CellsMean(Height());
      if p in Cells() {
        var i :| 0 <= i < |Cells()| && Cells()[i] == p;
        if i < k { assert Cells()[..k][i] == p; }
      }
    }

    /** The cheap reveal is the obvious one, at every count, for every pixel, trailing blanks included. */
    lemma TwoSlicesSuffice(k: nat, y: nat, x: nat)
      requires Valid() && k <= |Cells()|
      ensures TwoSlices(k, y, x) == Obvious(k, y, x)
    {
      if k > 0 {
        SlicesReach(Cells()[k - 1], y, x);
        FirstCells(k, Cell(y / CELL, x / CELL));
        if Cell(y / CELL, x / CELL) !in Cells() { UnsentIsBlack(y, x); }
      }
    }

    /** This cell is one of those sent, and its arrival time has passed. */
    ghost predicate HasArrived(when: seq<real>, local: real, q: Cell)
      requires |when| == |Cells()|
    {
      exists i :: 0 <= i < |when| && Cells()[i] == q && when[i] <= local
    }

    /** At every moment, for every pixel: the two slices show exactly the cells whose time has passed. */
    lemma RevealIsWhatArrived(when: seq<real>, local: real, y: nat, x: nat)
      requires Valid() && Ordered(when) && |when| == |Cells()|
      ensures TwoSlices(Arrived(when, local), y, x)
           == if HasArrived(when, local, Cell(y / CELL, x / CELL)) then Art(y, x) else face.black
    {
      TwoSlicesSuffice(Arrived(when, local), y, x);
      ArrivedCells(when, local, Cell(y / CELL, x / CELL));
    }

    lemma ArrivedCells(when: seq<real>, local: real, q: Cell)
      requires Ordered(when) && |when| == |Cells()|
      ensures q in Cells()[..Arrived(when, local)] <==> HasArrived(when, local, q)
    {
      var k := Arrived(when, local);
      if i :| 0 <= i < k && Cells()[..k][i] == q {
        ArrivedMeans(when, local, i);
      }
      if i :| 0 <= i < |when| && Cells()[i] == q && when[i] <= local {
        ArrivedMeans(when, local, i);
        assert Cells()[..k][i] == q;
      }
    }

    /** The cell after the latest one sent, or the first of the row below when that was the last column. */
    function Cursor(k: nat): Cell
      requires k <= |Cells()|
    {
      if k == 0 then Cell(0, 0)
      else
        var q := Cells()[k - 1];
        if q.c + 1 < cols then Cell(q.r, q.c + 1) else Cell(q.r + 1, 0)
    }

    /** It is the very next place in reading order: no place on the grid lies between it and the latest cell. */
    lemma CursorIsNext(k: nat, q: Cell)
      requires Valid() && k <= |Cells()| && q.c < cols
      ensures Cursor(k).c < cols
      ensures k == 0 ==> Cursor(k) == Cell(0, 0)
      ensures k > 0 ==> Before(Cells()[k - 1], Cursor(k))
      ensures k > 0 && Before(Cells()[k - 1], q) ==> q == Cursor(k) || Before(Cursor(k), q)
    {
      CellsMean(Height());
      if k > 0 { assert Cells()[k - 1] in Cells(); }
    }

    /** What a pixel shows `local` seconds into the page: the cursor, or its cell if that has arrived. */
    ghost function Seen(when: seq<real>, local: real, lit: bool, ink: C, y: nat, x: nat): C
      requires |when| == |Cells()|
    {
      var cur := Cursor(Arrived(when, local));
      if lit && cur.r < rows && Cell(y / CELL, x / CELL) == cur then ink
      else if HasArrived(when, local, Cell(y / CELL, x / CELL)) then Art(y, x)
      else face.black
    }

    /** The cursor never covers a character that has arrived. */
    lemma CursorIsAhead(k: nat)
      requires Valid() && k <= |Cells()|
      ensures Cursor(k) !in Cells()[..k]
    {
      CellsMean(Height());
      if j :| 0 <= j < k && Cells()[j] == Cursor(k) {
        assert j == k - 1 || Before(Cells()[j], Cells()[k - 1]);
      }
    }
  }

  // ----- the loops

  /** The art has its first `n` rows of cells, and the rest is still blank. */
  ghost predicate Drawn<C>(scr: Screen<C>, art: array2<C>, n: nat)
    reads art
  {
    forall y, x :: 0 <= y < art.Length0 && 0 <= x < art.Length1 ==>
      art[y, x] == if y / CELL < n then scr.Art(y, x) else scr.face.black
  }

  /** `bake`: the art image and the cells sent, or nothing when a row's attributes miscount. */
  method Bake<C>(scr: Screen<C>, h: nat, w: nat) returns (baked: Option<(array2<C>, seq<Cell>)>)
    requires scr.rows >= 1 && scr.cols >= 1 && scr.face.Valid()
    ensures baked.None? <==> exists r: nat :: scr.Miscounts(r)
    ensures baked.Some? ==> fresh(baked.value.0) && baked.value.0.Length0 == h && baked.value.0.Length1 == w
    ensures baked.Some? ==> baked.value.1 == scr.Cells()
    ensures baked.Some? ==> scr.IsArt(baked.value.0)
  {
    var art := BlankArt(scr, h, w);
    var cells := BakeRows(scr, art);
    if cells.None? {
      return None;
    }
    BlankBelow(scr, art);
    baked := Some((art, cells.value));
  }

  /** The row loop of `bake`. */
  method BakeRows<C>(scr: Screen<C>, art: array2<C>) returns (cells: Option<seq<Cell>>)
    requires Drawn(scr, art, 0)
    modifies art
    ensures cells.None? <==> exists r: nat :: scr.Miscounts(r)
    ensures cells.Some? ==> cells.value == scr.Cells() && Drawn(scr, art, scr.Height())
  {
    var sent := [];
    for r := 0 to scr.Height()
      invariant forall q: nat :: q < r ==> !scr.Miscounts(q)
      invariant sent == scr.CellsOf(r)
      invariant Drawn(scr, art, r)
    {
      if |scr.page[r].text| != |scr.page[r].attr| {
        assert scr.Miscounts(r);
        return None;
      }
      var row := BakeRow(scr, art, r);
      sent := sent + row;
    }
    cells := Some(sent);
  }

  method BlankArt<C>(scr: Screen<C>, h: nat, w: nat) returns (art: array2<C>)
    ensures fresh(art) && art.Length0 == h && art.Length1 == w && Drawn(scr, art, 0)
  {
    art := new C[h, w]((_, _) => scr.face.black);
  }

  lemma BlankBelow<C>(scr: Screen<C>, art: array2<C>)
    requires Drawn(scr, art, scr.Height())
    ensures scr.IsArt(art)
  {
  }

  /** The character loop of `bake`, for one row. */
  method BakeRow<C>(scr: Screen<C>, art: array2<C>, r: nat) returns (sent: seq<Cell>)
    requires r < scr.Height() && |scr.page[r].text| == |scr.page[r].attr|
    requires Drawn(scr, art, r)
    modifies art
    ensures sent == scr.RowCells(r, scr.Last(r))
    ensures Drawn(scr, art, r + 1)
  {
    var line := scr.Text(r);
    var last := Sent(line, scr.face.blank);
    sent := [];
    for c := 0 to |line|
      invariant sent == scr.RowCells(r, if c < last then c else last)
      invariant forall y, x :: 0 <= y < art.Length0 && 0 <= x < art.Length1 ==>
        art[y, x] == if y / CELL == r && x / CELL < c then scr.Art(y, x) else old(art[y, x])
    {
      if c < last {
        sent := sent + [Cell(r, c)];
      }
      if scr.page[r].attr[c] != 'k' {
        forall y, x | 0 <= y < art.Length0 && 0 <= x < art.Length1 && y / CELL == r && x / CELL == c
            && scr.face.lit(line[c], y % CELL, x % CELL) {
          art[y, x] := scr.face.colour(scr.page[r].attr[c]);
        }
      }
    }
  }

  /** The reveal part of `render`, `local` seconds into a page: blank the panel, find how many cells have
      arrived, copy two slices of the art, draw the cursor. */
  method Render<C>(scr: Screen<C>, out: array2<C>, art: array2<C>, cells: seq<Cell>, when: seq<real>, local: real,
                   lit: bool, ink: C)
    requires scr.Valid() && cells == scr.Cells() && Ordered(when) && |when| == |cells| && out != art
    requires out.Length0 == art.Length0 && out.Length1 == art.Length1 && scr.IsArt(art)
    modifies out
    ensures forall y, x :: 0 <= y < out.Length0 && 0 <= x < out.Length1 ==>
      out[y, x] == scr.Seen(when, local, lit, ink, y, x)
  {
    forall y, x | 0 <= y < out.Length0 && 0 <= x < out.Length1 { out[y, x] := scr.face.black; }
    var k := Arrived(when, local);
    if k > 0 {
      var q := cells[k - 1];
      if q.r > 0 {
        forall y, x | 0 <= y < out.Length0 && 0 <= x < out.Length1 && y < q.r * CELL { out[y, x] := art[y, x]; }
      }
      forall y, x | 0 <= y < out.Length0 && 0 <= x < out.Length1
          && q.r * CELL <= y < q.r * CELL + CELL && x < (q.c + 1) * CELL {
        out[y, x] := art[y, x];
      }
    }
    forall y, x | 0 <= y < out.Length0 && 0 <= x < out.Length1
      ensures out[y, x] == scr.Seen(when, local, false, ink, y, x)
    {
      assert out[y, x] == scr.TwoSlices(k, y, x);
      scr.RevealIsWhatArrived(when, local, y, x);
    }
    var cur := scr.Cursor(k);
    if lit && cur.r < scr.rows {
      forall y, x | 0 <= y < out.Length0 && 0 <= x < out.Length1 && Cell(y / CELL, x / CELL) == cur {
        out[y, x] := ink;
      }
    }
  }
}
