/** Code typing itself out in `demos/console.py`: the schedule, the search in it, and the scroll. */
module ConsoleTyping {
  import opened RealSeq

  /** At this time, `n` characters of line `line` have been typed. */
  datatype Entry = Entry(time: real, line: nat, n: nat)

  datatype Place = Place(line: nat, n: nat)

  /** How the typing is paced; `roll` is the random draw made for each entry of the schedule. */
  datatype Pace = Pace(cps: real, jitter: real, linePause: real, roll: nat -> real, space: char -> bool) {
    ghost predicate Valid() { linePause >= 0.0 }

    function Base(): real { 1.0 / Max(cps, 0.001) }

    /** The wait after entry `e`, which left `n` characters of `line` typed. */
    function Wait(e: nat, line: string, n: nat): real {
      var step := Weighed(Base(), 1.0 + Weighed(jitter, (roll(e) - 0.5) * 2.0));
      var beat := if n < |line| && line[n] in ";{}" then step * 2.2 else step;
      Max(beat, 0.005)
    }

    /** `not line.strip()`. */
    predicate Blank(line: string) { forall i :: 0 <= i < |line| ==> space(line[i]) }

    function Pause(line: string): real { if Blank(line) then linePause * 2.5 else linePause }
  }

  // ----- the places the typing passes through, one per entry

  function PlacesOfLine(i: nat, n: nat): (s: seq<Place>)
    ensures |s| == n && forall k :: 0 <= k < n ==> s[k] == Place(i, k)
  {
    seq(n, k requires 0 <= k < n => Place(i, k))
  }

  function Places(lines: seq<string>, i: nat): seq<Place>
    requires i <= |lines|
  {
    if i == 0 then [] else Places(lines, i - 1) + PlacesOfLine(i - 1, |lines[i - 1]| + 1)
  }

  /** The whole text of the first `i` lines, a newline after each. */
  function Joined(lines: seq<string>, i: nat): string
    requires i <= |lines|
  {
    if i == 0 then "" else Joined(lines, i - 1) + lines[i - 1] + "\n"
  }

  /** The text so far at a place: the lines above it, and its own line up to it. */
  function Typed(lines: seq<string>, p: Place): string
    requires p.line < |lines| && p.n <= |lines[p.line]|
  {
    Joined(lines, p.line) + lines[p.line][..p.n]
  }

  /** The text typed at the `e`-th entry is exactly the first `e` characters of the whole. */
  lemma {:induction false} TypedIsPrefix(lines: seq<string>, i: nat, e: nat)
    requires i <= |lines| && e < |Places(lines, i)|
    ensures |Places(lines, i)| == |Joined(lines, i)|
    ensures var p := Places(lines, i)[e];
      p.line < i && p.n <= |lines[p.line]| && Typed(lines, p) == Joined(lines, i)[..e]
  {
    PlacesCountText(lines, i);
    PlacesCountText(lines, i - 1);
    var before := Joined(lines, i - 1);
    if e < |before| {
      TypedIsPrefix(lines, i - 1, e);
      assert Joined(lines, i)[..e] == before[..e];
    } else {
      var n := e - |before|;
      assert Places(lines, i)[e] == Place(i - 1, n);
      assert Joined(lines, i)[..e] == before + lines[i - 1][..n];
    }
  }

  lemma {:induction false} PlacesCountText(lines: seq<string>, i: nat)
    requires i <= |lines|
    ensures |Places(lines, i)| == |Joined(lines, i)|
  {
    if i > 0 { PlacesCountText(lines, i - 1); }
  }

  // ----- the schedule

  /** When entry `e` falls due. */
  function Clock(pace: Pace, lines: seq<string>, places: seq<Place>, e: nat): real
    requires e <= |places|
    requires forall k :: 0 <= k < |places| ==> places[k].line < |lines|
  {
    if e == 0 then 0.0 else Clock(pace, lines, places, e - 1) + Step(pace, lines, places[e - 1], e - 1)
  }

  function Step(pace: Pace, lines: seq<string>, p: Place, e: nat): real
    requires p.line < |lines|
  {
    var line := lines[p.line];
    pace.Wait(e, line, p.n) + if p.n == |line| then pace.Pause(line) else 0.0
  }

  ghost predicate InLines(lines: seq<string>, places: seq<Place>) {
    forall k :: 0 <= k < |places| ==> places[k].line < |lines|
  }

  lemma {:induction false} PlacesInLines(lines: seq<string>, i: nat)
    requires i <= |lines|
    ensures forall k :: 0 <= k < |Places(lines, i)| ==> Places(lines, i)[k].line < i
  {
    if i > 0 { PlacesInLines(lines, i - 1); }
  }

  ghost predicate IsSchedule(pace: Pace, lines: seq<string>, schedule: seq<Entry>, places: seq<Place>)
    requires InLines(lines, places)
  {
    && |schedule| == |places|
    && forall e: nat :: e < |places| ==> IsEntry(pace, lines, schedule[e], places, e)
  }

  /** The clock reads only the places before it. */
  lemma {:induction false} ClockExtends(pace: Pace, lines: seq<string>, a: seq<Place>, b: seq<Place>, e: nat)
    requires e <= |a| && InLines(lines, a) && InLines(lines, a + b)
    ensures Clock(pace, lines, a + b, e) == Clock(pace, lines, a, e)
  {
    if e > 0 { ClockExtends(pace, lines, a, b, e - 1); }
  }

  lemma ClocksExtend(pace: Pace, lines: seq<string>, a: seq<Place>, p: Place)
    requires InLines(lines, a) && p.line < |lines|
    ensures InLines(lines, a + [p])
    ensures forall e :: 0 <= e <= |a| ==> Clock(pace, lines, a + [p], e) == Clock(pace, lines, a, e)
  {
    forall e | 0 <= e <= |a| ensures Clock(pace, lines, a + [p], e) == Clock(pace, lines, a, e) {
      ClockExtends(pace, lines, a, [p], e);
    }
  }

  ghost predicate IsEntry(pace: Pace, lines: seq<string>, entry: Entry, places: seq<Place>, e: nat)
    requires InLines(lines, places) && e < |places|
  {
    entry == Entry(Clock(pace, lines, places, e), places[e].line, places[e].n)
  }

  lemma EntryExtends(pace: Pace, lines: seq<string>, entry: Entry, a: seq<Place>, p: Place, e: nat)
    requires InLines(lines, a) && p.line < |lines| && e < |a| && IsEntry(pace, lines, entry, a, e)
    ensures InLines(lines, a + [p]) && IsEntry(pace, lines, entry, a + [p], e)
  {
    ClockExtends(pace, lines, a, [p], e);
  }

  lemma LastEntry(pace: Pace, lines: seq<string>, a: seq<Place>, p: Place)
    requires InLines(lines, a) && p.line < |lines|
    ensures InLines(lines, a + [p])
    ensures IsEntry(pace, lines, Entry(Clock(pace, lines, a, |a|), p.line, p.n), a + [p], |a|)
  {
    ClockExtends(pace, lines, a, [p], |a|);
  }

  lemma ScheduleExtends(pace: Pace, lines: seq<string>, schedule: seq<Entry>, a: seq<Place>, p: Place)
    requires InLines(lines, a) && p.line < |lines| && IsSchedule(pace, lines, schedule, a)
    ensures InLines(lines, a + [p])
    ensures IsSchedule(pace, lines, schedule + [Entry(Clock(pace, lines, a, |a|), p.line, p.n)], a + [p])
  {
    var longer := schedule + [Entry(Clock(pace, lines, a, |a|), p.line, p.n)];
    forall e: nat | e < |a + [p]| ensures IsEntry(pace, lines, longer[e], a + [p], e) {
      if e < |a| { EntryExtends(pace, lines, schedule[e], a, p, e); } else { LastEntry(pace, lines, a, p); }
    }
  }

  /** The schedule loop of `build`. */
  method BuildSchedule(pace: Pace, lines: seq<string>) returns (schedule: seq<Entry>, clock: real)
    ensures InLines(lines, Places(lines, |lines|))
    ensures IsSchedule(pace, lines, schedule, Places(lines, |lines|))
    ensures clock == Clock(pace, lines, Places(lines, |lines|), |schedule|)
  {
    schedule, clock := [], 0.0;
    for i := 0 to |lines|
      invariant InLines(lines, Places(lines, i)) && IsSchedule(pace, lines, schedule, Places(lines, i))
      invariant Ticked(pace, lines, Places(lines, i), clock, 0.0)
    {
      schedule, clock := TypeLine(pace, lines, i, schedule, clock, Places(lines, i));
    }
  }

  /** The clock just after entry `|a| - 1`, before any pause at the end of its line. */
  ghost predicate Ticked(pace: Pace, lines: seq<string>, a: seq<Place>, clock: real, pause: real)
    requires InLines(lines, a)
  {
    clock + pause == Clock(pace, lines, a, |a|)
  }

  /** The places passed once `n` of line `i` have been, after those of the lines before it. */
  function Passed(before: seq<Place>, i: nat, n: nat): seq<Place> { before + PlacesOfLine(i, n) }

  lemma PassedOneMore(before: seq<Place>, i: nat, n: nat)
    ensures Passed(before, i, 0) == before
    ensures Passed(before, i, n + 1) == Passed(before, i, n) + [Place(i, n)]
  {
  }

  /** The character loop of `build`, for one line. */
  method TypeLine(pace: Pace, lines: seq<string>, i: nat, schedule0: seq<Entry>, clock0: real, ghost before: seq<Place>)
    returns (schedule: seq<Entry>, clock: real)
    requires i < |lines| && InLines(lines, before) && IsSchedule(pace, lines, schedule0, before)
    requires Ticked(pace, lines, before, clock0, 0.0)
    ensures InLines(lines, Passed(before, i, |lines[i]| + 1))
    ensures IsSchedule(pace, lines, schedule, Passed(before, i, |lines[i]| + 1))
    ensures Ticked(pace, lines, Passed(before, i, |lines[i]| + 1), clock, 0.0)
  {
    var line, pause := lines[i], pace.Pause(lines[i]);
    schedule, clock := schedule0, clock0;
    PassedOneMore(before, i, 0);
    for n := 0 to |line| + 1
      invariant InLines(lines, Passed(before, i, n))
      invariant IsSchedule(pace, lines, schedule, Passed(before, i, n))
      invariant Ticked(pace, lines, Passed(before, i, n), clock, if n == |line| + 1 then pause else 0.0)
    {
      PassedOneMore(before, i, n);
      schedule, clock := OneEntry(pace, lines, i, n, schedule, clock, Passed(before, i, n), pause);
    }
    clock := clock + pause;
  }

  /** One turn of the character loop: note the time, then wait. */
  method OneEntry(pace: Pace, lines: seq<string>, i: nat, n: nat, schedule0: seq<Entry>, clock0: real,
                  ghost a: seq<Place>, ghost pause: real)
    returns (schedule: seq<Entry>, clock: real)
    requires i < |lines| && n <= |lines[i]| && InLines(lines, a) && IsSchedule(pace, lines, schedule0, a)
    requires Ticked(pace, lines, a, clock0, 0.0) && pause == pace.Pause(lines[i])
    ensures InLines(lines, a + [Place(i, n)])
    ensures IsSchedule(pace, lines, schedule, a + [Place(i, n)])
    ensures Ticked(pace, lines, a + [Place(i, n)], clock, if n == |lines[i]| then pause else 0.0)
  {
    ScheduleExtends(pace, lines, schedule0, a, Place(i, n));
    ClocksExtend(pace, lines, a, Place(i, n));
    schedule := schedule0 + [Entry(clock0, i, n)];
    clock := clock0 + pace.Wait(|schedule0|, lines[i], n);
  }

  /** Every entry falls due at least five milliseconds after the one before it. */
  lemma {:induction false} ClockRises(pace: Pace, lines: seq<string>, places: seq<Place>, d: nat, e: nat)
    requires pace.Valid() && InLines(lines, places) && d < e <= |places|
    ensures Clock(pace, lines, places, d) + 0.005 <= Clock(pace, lines, places, e)
    decreases e
  {
    var line := lines[places[e - 1].line];
    assert pace.Pause(line) >= 0.0;
    if d < e - 1 { ClockRises(pace, lines, places, d, e - 1); }
  }

  /** The wait from one entry to the next, in plain arithmetic. A character takes one part in `cps` of a second,
      pulled off that by the draw; a semicolon or a brace to come makes it 2.2 times as long; it is never
      under five milliseconds; and at the end of a line the line's own pause is added, two and a half times
      over for a blank one. */
  lemma WaitIs(pace: Pace, lines: seq<string>, places: seq<Place>, e: nat, per: real, pulled: real)
    requires InLines(lines, places) && e < |places| && places[e].n <= |lines[places[e].line]|
    requires pace.cps >= 0.001 && Weighed(per, pace.cps) == 1.0
    requires pulled == per + Weighed(per, Weighed(pace.jitter, 2.0 * pace.roll(e) - 1.0))
    ensures var line, n := lines[places[e].line], places[e].n;
      var beat := if n < |line| && (line[n] == ';' || line[n] == '{' || line[n] == '}') then 2.2 * pulled else pulled;
      var pause := if forall i :: 0 <= i < |line| ==> pace.space(line[i]) then 2.5 * pace.linePause else pace.linePause;
      Clock(pace, lines, places, e + 1) - Clock(pace, lines, places, e)
        == Max(beat, 0.005) + if n < |line| then 0.0 else pause
  {
    BaseIs(pace, per);
    Swing(per, pace.jitter, pace.roll(e));
    assert Weighed(pace.Base(), 1.0 + Weighed(pace.jitter, (pace.roll(e) - 0.5) * 2.0)) == pulled;
  }

  lemma BaseIs(pace: Pace, per: real)
    requires pace.cps >= 0.001 && Weighed(per, pace.cps) == 1.0
    ensures pace.Base() == per
  {
    QuotientOfProduct(per, pace.cps);
  }

  lemma Swing(per: real, jitter: real, roll: real)
    ensures Weighed(per, 1.0 + Weighed(jitter, (roll - 0.5) * 2.0)) == per + Weighed(per, Weighed(jitter, 2.0 * roll - 1.0))
  {
    assert (roll - 0.5) * 2.0 == 2.0 * roll - 1.0;
  }

  ghost predicate Rising(schedule: seq<Entry>) {
    forall d, e :: 0 <= d < e < |schedule| ==> schedule[d].time < schedule[e].time
  }

  /** Entry `at` is the last one at or before `t`: exactly the entries up to it have fallen due. */
  ghost predicate IsLatest(schedule: seq<Entry>, t: real, at: nat) {
    at < |schedule| && forall e :: 0 <= e < |schedule| ==> (schedule[e].time <= t <==> e <= at)
  }

  /** `state_at`: binary search for the last entry at or before `t`. */
  method StateAt(schedule: seq<Entry>, t: real) returns (line: nat, n: nat)
    requires |schedule| > 0 && Rising(schedule) && schedule[0].time <= t
    ensures exists at: nat :: IsLatest(schedule, t, at) && line == schedule[at].line && n == schedule[at].n
  {
    var lo, hi := 0, |schedule| - 1;
    if t >= schedule[hi].time {
      assert IsLatest(schedule, t, hi);
      return schedule[hi].line, schedule[hi].n;
    }
    while lo < hi
      invariant 0 <= lo <= hi < |schedule|
      invariant schedule[lo].time <= t
      invariant forall e :: hi < e < |schedule| ==> schedule[e].time > t
    {
      var mid := (lo + hi + 1) / 2;
      if schedule[mid].time <= t {
        lo := mid;
      } else {
        hi := mid - 1;
      }
    }
    assert IsLatest(schedule, t, lo);
    return schedule[lo].line, schedule[lo].n;
  }

  /** When character `j` of the whole text arrives: at the entry after the one it is typed from. */
  function ArrivalOf(pace: Pace, lines: seq<string>, places: seq<Place>, j: nat): real
    requires j < |places| && InLines(lines, places)
  {
    Clock(pace, lines, places, j + 1)
  }

  /** The revealed text is exactly the characters that have arrived: a prefix of the whole. */
  lemma RevealedIsWhatArrived(pace: Pace, lines: seq<string>, schedule: seq<Entry>, t: real, at: nat, j: nat)
    requires pace.Valid() && |lines| > 0 && IsLatest(schedule, t, at)
    requires InLines(lines, Places(lines, |lines|)) && IsSchedule(pace, lines, schedule, Places(lines, |lines|))
    requires j + 1 < |schedule|
    ensures at < |Joined(lines, |lines|)|
    ensures var p := Places(lines, |lines|)[at]; p.line < |lines| && p.n <= |lines[p.line]|
    ensures Typed(lines, Places(lines, |lines|)[at]) == Joined(lines, |lines|)[..at]
    ensures j < |Typed(lines, Places(lines, |lines|)[at])| <==> ArrivalOf(pace, lines, Places(lines, |lines|), j) <= t
  {
    TypedIsPrefix(lines, |lines|, at);
    assert schedule[j + 1].time == ArrivalOf(pace, lines, Places(lines, |lines|), j);
  }

  /** Within a cycle the text only grows: what was on the panel earlier begins what is there later. */
  lemma TextOnlyGrows(lines: seq<string>, schedule: seq<Entry>, t: real, u: real, at: nat, bt: nat)
    requires t <= u && IsLatest(schedule, t, at) && IsLatest(schedule, u, bt)
    requires |schedule| == |Places(lines, |lines|)|
    ensures var p, q := Places(lines, |lines|)[at], Places(lines, |lines|)[bt];
      p.line < |lines| && p.n <= |lines[p.line]| && q.line < |lines| && q.n <= |lines[q.line]| &&
      Typed(lines, p) <= Typed(lines, q)
  {
    TypedIsPrefix(lines, |lines|, at);
    TypedIsPrefix(lines, |lines|, bt);
    assert schedule[at].time <= t;
    var all := Joined(lines, |lines|);
    assert all[..at] <= all[..bt];
  }

  lemma ScheduleRises(pace: Pace, lines: seq<string>, schedule: seq<Entry>, places: seq<Place>)
    requires pace.Valid() && InLines(lines, places) && IsSchedule(pace, lines, schedule, places)
    ensures Rising(schedule)
  {
    forall d, e | 0 <= d < e < |schedule| ensures schedule[d].time < schedule[e].time {
      ClockRises(pace, lines, places, d, e);
    }
  }

  /** How long a cycle lasts: the whole text typed, then `hold` seconds. */
  function Cycle(pace: Pace, lines: seq<string>, hold: real): real {
    PlacesInLines(lines, |lines|);
    Clock(pace, lines, Places(lines, |lines|), |Places(lines, |lines|)|) + hold
  }

  /** The text is the whole up to the characters that have arrived by `t`. */
  ghost predicate IsArrived(pace: Pace, lines: seq<string>, text: string, t: real) {
    && InLines(lines, Places(lines, |lines|)) && |Places(lines, |lines|)| == |Joined(lines, |lines|)|
    && text < Joined(lines, |lines|)
    && forall j :: 0 <= j < |Joined(lines, |lines|)| - 1 ==>
      (j < |text| <==> ArrivalOf(pace, lines, Places(lines, |lines|), j) <= t)
  }

  /** Search the schedule, and reveal up to the place found. */
  method Reveal(pace: Pace, lines: seq<string>, schedule: seq<Entry>, t: real) returns (text: string)
    requires pace.Valid() && |lines| > 0 && t >= 0.0
    requires InLines(lines, Places(lines, |lines|)) && IsSchedule(pace, lines, schedule, Places(lines, |lines|))
    ensures IsArrived(pace, lines, text, t)
  {
    ScheduleRises(pace, lines, schedule, Places(lines, |lines|));
    PlacesCountText(lines, |lines|);
    var line, n := StateAt(schedule, t);
    ghost var at: nat :| IsLatest(schedule, t, at) && line == schedule[at].line && n == schedule[at].n;
    TypedIsPrefix(lines, |lines|, at);
    text := Typed(lines, Place(line, n));
    forall j | 0 <= j < |schedule| - 1
      ensures j < |text| <==> ArrivalOf(pace, lines, Places(lines, |lines|), j) <= t
    {
      RevealedIsWhatArrived(pace, lines, schedule, t, at, j);
    }
  }

  /** From the lines to the text on the panel at `t`, cycle after cycle. */
  method Show(pace: Pace, lines: seq<string>, hold: real, t: real) returns (text: string)
    requires pace.Valid() && |lines| > 0 && Cycle(pace, lines, hold) > 0.0
    ensures IsArrived(pace, lines, text, Mod(t, Cycle(pace, lines, hold)))
  {
    var schedule, clock := BuildSchedule(pace, lines);
    ModRange(t, clock + hold);
    text := Reveal(pace, lines, schedule, Mod(t, clock + hold));
  }

  // ----- the scroll

  function Visible(h: nat, lineH: nat): nat
    requires lineH > 0
  {
    if h / lineH > 1 then h / lineH else 1
  }

  function Top(cur: nat, visible: nat): int { if cur - visible + 1 > 0 then cur - visible + 1 else 0 }

  /** The page is not scrolled before its window is full, and then just so far that the current line is its last. */
  lemma TopIs(cur: nat, visible: nat)
    requires visible > 0
    ensures cur < visible ==> Top(cur, visible) == 0
    ensures cur >= visible ==> Top(cur, visible) + visible == cur + 1
  {
  }

  /** The window is as many lines as fit, one at the least. */
  lemma VisibleIs(h: nat, lineH: nat)
    requires lineH > 0
    ensures h >= lineH ==> Visible(h, lineH) * lineH <= h < Visible(h, lineH) * lineH + lineH
    ensures h < lineH ==> Visible(h, lineH) == 1
  {
    var q := h / lineH;
    assert q * lineH <= h < q * lineH + lineH;
  }

  lemma {:induction false} LinesInOrder(lines: seq<string>, i: nat, d: nat, e: nat)
    requires i <= |lines| && d <= e < |Places(lines, i)|
    ensures Places(lines, i)[d].line <= Places(lines, i)[e].line
  {
    PlacesInLines(lines, i - 1);
    if e < |Places(lines, i - 1)| { LinesInOrder(lines, i - 1, d, e); }
  }

  /** Later in a cycle the page is further down or where it was, never back up. */
  lemma ScrollNeverGoesBack(lines: seq<string>, schedule: seq<Entry>, t: real, u: real, at: nat, bt: nat, visible: nat)
    requires |schedule| == |Places(lines, |lines|)|
    requires forall e :: 0 <= e < |schedule| ==> schedule[e].line == Places(lines, |lines|)[e].line
    requires t <= u && IsLatest(schedule, t, at) && IsLatest(schedule, u, bt)
    ensures Top(schedule[at].line, visible) <= Top(schedule[bt].line, visible)
  {
    assert schedule[at].time <= t;
    LinesInOrder(lines, |lines|, at, bt);
  }

  /** The line loop of `render`: what each row of the panel shows, top row first. */
  method VisibleRows(lines: seq<string>, cur: nat, typed: nat, h: nat, lineH: nat) returns (rows: seq<string>)
    requires cur < |lines| && typed <= |lines[cur]| && lineH > 0
    ensures h < lineH ==> rows == []
    ensures h >= lineH ==> |rows| == cur - Top(cur, Visible(h, lineH)) + 1 <= Visible(h, lineH) && |rows| * lineH <= h
    ensures forall r :: 0 <= r < |rows| - 1 ==> rows[r] == lines[Top(cur, Visible(h, lineH)) + r]
    ensures rows != [] ==> rows[|rows| - 1] == lines[cur][..typed]
  {
    rows := [];
    var visible := Visible(h, lineH);
    var top := Top(cur, visible);
    var end := if top + visible < |lines| then top + visible else |lines|;
    var row := 0;
    for i := top to end
      invariant row == i - top
      invariant |rows| == (if i <= cur then row else cur - top + 1)
      invariant i > top ==> h >= lineH
      invariant forall r :: 0 <= r < |rows| ==> rows[r] == if top + r < cur then lines[top + r] else lines[cur][..typed]
    {
      RowFits(row, h, lineH);
      if row * lineH + lineH > h { break; }
      var n := if i == cur then typed else if i < cur then |lines[i]| else 0;
      row := row + 1;
      if i > cur { continue; }
      rows := rows + [lines[i][..n]];
    }
    if h >= lineH { RowFits(|rows| - 1, h, lineH); }
  }

  /** Every row of the window fits on the panel; only a panel lower than one line has no room. */
  lemma RowFits(row: int, h: nat, lineH: nat)
    requires lineH > 0 && 0 <= row < Visible(h, lineH)
    ensures (row + 1) * lineH == row * lineH + lineH
    ensures h >= lineH ==> (row + 1) * lineH <= h
    ensures h < lineH ==> row == 0
  {
    var q := h / lineH;
    assert q * lineH <= h;
    if h >= lineH {
      assert q >= 1;
      var d := q - 1 - row;
      assert d * lineH >= 0;
      assert d * lineH == q * lineH - lineH - row * lineH;
    }
  }
}
