/** Replaying the published trip archive of `demos/bikes.py` as dock-count changes. */
module BikesArchive {
  import opened Options
  import opened MapSums
  import opened BikesEstimate

  /** A parsed end of a trip: its local date, ten-minute slot and coordinates. */
  datatype Fix = Fix(date: string, slot: nat, lat: real, lon: real)

  /** One archive row. An end that does not parse is `None`; a trip without a dock has an empty id. */
  datatype Trip = Trip(start: Option<Fix>, startDock: string, end: Option<Fix>, endDock: string)

  datatype Key = Key(date: string, slot: nat)

  type Counter<K> = map<K, int>

  datatype Counters = Counters(trips: Counter<Key>, net: map<Key, Counter<string>>)

  predicate InBox(f: Fix) {
    37.700 <= f.lat <= 37.840 && -122.530 <= f.lon <= -122.350
  }

  /** The box is seven hundredths of a degree either way of 37.77 north, and nine of 122.44 west. */
  lemma BoxIsAround(f: Fix)
    ensures InBox(f) <==> -0.07 <= f.lat - 37.77 <= 0.07 && -0.09 <= f.lon + 122.44 <= 0.09
  {
  }

  function KeyOf(f: Fix): Key { Key(f.date, f.slot) }

  // ----- what a row says, independently of any counter

  /** The trip starts in the box, in this slot. */
  predicate StartsAt(t: Trip, key: Key) {
    t.start.Some? && InBox(t.start.value) && KeyOf(t.start.value) == key
  }

  /** ...and takes a bike from this dock. */
  predicate Departs(t: Trip, key: Key, dock: string) {
    StartsAt(t, key) && t.startDock == dock && dock != ""
  }

  /** The trip brings a bike to this dock, in this slot. A row whose start does not parse is dropped whole. */
  predicate Arrives(t: Trip, key: Key, dock: string) {
    && t.start.Some? && t.end.Some? && InBox(t.end.value) && KeyOf(t.end.value) == key
    && t.endDock == dock && dock != ""
  }

  function Count<T>(ts: seq<T>, p: T -> bool): nat {
    if ts == [] then 0 else Count(ts[..|ts| - 1], p) + if p(ts[|ts| - 1]) then 1 else 0
  }

  lemma {:induction false} CountConcat<T>(a: seq<T>, b: seq<T>, p: T -> bool)
    ensures Count(a + b, p) == Count(a, p) + Count(b, p)
  {
    if b == [] {
      assert a + b == a;
    } else {
      assert (a + b)[..|a + b| - 1] == a + b[..|b| - 1];
      CountConcat(a, b[..|b| - 1], p);
    }
  }

  function Starts(ts: seq<Trip>, key: Key): nat { Count(ts, t => StartsAt(t, key)) }

  function Departures(ts: seq<Trip>, key: Key, dock: string): nat { Count(ts, t => Departs(t, key, dock)) }

  function Arrivals(ts: seq<Trip>, key: Key, dock: string): nat { Count(ts, t => Arrives(t, key, dock)) }

  predicate DepartsSome(t: Trip, key: Key) { Departs(t, key, t.startDock) }

  predicate ArrivesSome(t: Trip, key: Key) { Arrives(t, key, t.endDock) }

  /** Docked departures and arrivals of one slot. */
  function Events(ts: seq<Trip>, key: Key): nat {
    Count(ts, t => DepartsSome(t, key)) + Count(ts, t => ArrivesSome(t, key))
  }

  predicate DepartsAny(t: Trip) { t.start.Some? && DepartsSome(t, KeyOf(t.start.value)) }

  predicate ArrivesAny(t: Trip) { t.end.Some? && ArrivesSome(t, KeyOf(t.end.value)) }

  function AllDepartures(ts: seq<Trip>): nat { Count(ts, t => DepartsAny(t)) }

  function AllArrivals(ts: seq<Trip>): nat { Count(ts, t => ArrivesAny(t)) }

  // ----- the counters

  function Get<K>(c: Counter<K>, k: K): int { if k in c then c[k] else 0 }

  function GetNet(net: map<Key, Counter<string>>, key: Key): Counter<string> {
    if key in net then net[key] else map[]
  }

  function Add<K>(c: Counter<K>, k: K, d: int): Counter<K> { c[k := Get(c, k) + d] }

  function AddNet(net: map<Key, Counter<string>>, key: Key, dock: string, d: int): map<Key, Counter<string>> {
    net[key := Add(GetNet(net, key), dock, d)]
  }

  function Depart(c: Counters, t: Trip): Counters
    requires t.start.Some?
  {
    var f := t.start.value;
    if !InBox(f) then c
    else if t.startDock == "" then c.(trips := Add(c.trips, KeyOf(f), 1))
    else Counters(Add(c.trips, KeyOf(f), 1), AddNet(c.net, KeyOf(f), t.startDock, -1))
  }

  function Arrive(c: Counters, t: Trip): Counters {
    if t.endDock == "" || t.end.None? || !InBox(t.end.value) then c
    else c.(net := AddNet(c.net, KeyOf(t.end.value), t.endDock, 1))
  }

  function Apply(c: Counters, t: Trip): Counters {
    if t.start.None? then c else Arrive(Depart(c, t), t)
  }

  const EMPTY := Counters(map[], map[])

  function Replay(ts: seq<Trip>): Counters {
    if ts == [] then EMPTY else Apply(Replay(ts[..|ts| - 1]), ts[|ts| - 1])
  }

  /** `_read_month`: one streaming pass over the rows. */
  method ReadMonth(rows: seq<Trip>) returns (trips: Counter<Key>, net: map<Key, Counter<string>>)
    ensures Counters(trips, net) == Replay(rows)
  {
    trips, net := map[], map[];
    for i := 0 to |rows|
      invariant Counters(trips, net) == Replay(rows[..i])
    {
      var row := rows[i];
      assert rows[..i + 1][..i] == rows[..i];
      if row.start.None? { continue; }
      var s := row.start.value;
      if InBox(s) {
        trips := Add(trips, KeyOf(s), 1);
        if row.startDock != "" {
          net := AddNet(net, KeyOf(s), row.startDock, -1);
        }
      }
      if row.endDock == "" { continue; }
      if row.end.None? { continue; }
      var e := row.end.value;
      if InBox(e) {
        net := AddNet(net, KeyOf(e), row.endDock, 1);
      }
    }
    assert rows[..|rows|] == rows;
  }

  /** Every counter, read off the rows: which keys exist and what each holds. */
  ghost predicate Tallies(c: Counters, ts: seq<Trip>, key: Key, dock: string) {
    && (key in c.trips <==> Starts(ts, key) > 0)
    && Get(c.trips, key) == Starts(ts, key)
    && (key in c.net <==> Events(ts, key) > 0)
    && (dock in GetNet(c.net, key) <==> Departures(ts, key, dock) + Arrivals(ts, key, dock) > 0)
    && Get(GetNet(c.net, key), dock) == Arrivals(ts, key, dock) - Departures(ts, key, dock)
  }

  lemma {:induction false} ReplayStarts(ts: seq<Trip>, key: Key)
    ensures key in Replay(ts).trips <==> Starts(ts, key) > 0
    ensures Get(Replay(ts).trips, key) == Starts(ts, key)
  {
    if ts != [] { ReplayStarts(ts[..|ts| - 1], key); }
  }

  /** The counter of one slot after one row. */
  lemma ApplyAt(c: Counters, t: Trip, key: Key)
    requires t.start.Some?
    ensures var before, after := GetNet(c.net, key), GetNet(Apply(c, t).net, key);
      var mid := if DepartsSome(t, key) then Add(before, t.startDock, -1) else before;
      && after == (if ArrivesSome(t, key) then Add(mid, t.endDock, 1) else mid)
      && mid == GetNet(Depart(c, t).net, key)
      && (key in Apply(c, t).net <==> key in c.net || DepartsSome(t, key) || ArrivesSome(t, key))
  {
  }

  lemma {:induction false} ReplayKeys(ts: seq<Trip>, key: Key)
    ensures key in Replay(ts).net <==> Events(ts, key) > 0
  {
    if ts != [] {
      ReplayKeys(ts[..|ts| - 1], key);
      var t := ts[|ts| - 1];
      if t.start.Some? { ApplyAt(Replay(ts[..|ts| - 1]), t, key); }
    }
  }

  lemma {:induction false} ReplayDocks(ts: seq<Trip>, key: Key, dock: string)
    ensures var c := GetNet(Replay(ts).net, key);
      && (dock in c <==> Departures(ts, key, dock) + Arrivals(ts, key, dock) > 0)
      && Get(c, dock) == Arrivals(ts, key, dock) - Departures(ts, key, dock)
  {
    if ts != [] {
      ReplayDocks(ts[..|ts| - 1], key, dock);
      var t := ts[|ts| - 1];
      if t.start.Some? { ApplyAt(Replay(ts[..|ts| - 1]), t, key); }
    }
  }

  lemma ReplayTallies(ts: seq<Trip>, key: Key, dock: string)
    ensures Tallies(Replay(ts), ts, key, dock)
  {
    ReplayStarts(ts, key);
    ReplayKeys(ts, key);
    ReplayDocks(ts, key, dock);
  }

  // ----- conservation

  ghost function DockSums(net: map<Key, Counter<string>>): map<Key, int> {
    map key | key in net :: SumMap(net[key])
  }

  function Magnitude(v: int): int { if v < 0 then -v else v }

  function Magnitudes(c: Counter<string>): Counter<string> {
    map dock | dock in c :: Magnitude(c[dock])
  }

  ghost function DockMoves(net: map<Key, Counter<string>>): map<Key, int> {
    map key | key in net :: SumMap(Magnitudes(net[key]))
  }

  lemma DockSumsUpdate(net: map<Key, Counter<string>>, key: Key, c: Counter<string>)
    ensures DockSums(net[key := c]) == DockSums(net)[key := SumMap(c)]
  {
  }

  lemma DockMovesUpdate(net: map<Key, Counter<string>>, key: Key, c: Counter<string>)
    ensures DockMoves(net[key := c]) == DockMoves(net)[key := SumMap(Magnitudes(c))]
  {
  }

  lemma AddNetSums(net: map<Key, Counter<string>>, key: Key, dock: string, d: int)
    ensures SumMap(DockSums(AddNet(net, key, dock, d))) == SumMap(DockSums(net)) + d
  {
    var c := GetNet(net, key);
    SumMapUpdate(c, dock, Get(c, dock) + d);
    DockSumsUpdate(net, key, Add(c, dock, d));
    SumMapUpdate(DockSums(net), key, SumMap(Add(c, dock, d)));
  }

  /** One dock change moves a slot's absolute sum by one, up or down. */
  lemma AddMoves(c: Counter<string>, dock: string, d: int)
    requires d == 1 || d == -1
    ensures var a, b := SumMap(Magnitudes(c)), SumMap(Magnitudes(Add(c, dock, d))); b == a + 1 || b == a - 1
  {
    assert Magnitudes(Add(c, dock, d)) == Magnitudes(c)[dock := Magnitude(Get(c, dock) + d)];
    SumMapUpdate(Magnitudes(c), dock, Magnitude(Get(c, dock) + d));
  }

  lemma AddNetMoves(net: map<Key, Counter<string>>, key: Key, dock: string, d: int)
    requires d == 1 || d == -1
    ensures SumMap(DockMoves(AddNet(net, key, dock, d))) <= SumMap(DockMoves(net)) + 1
  {
    var c := GetNet(net, key);
    AddMoves(c, dock, d);
    DockMovesUpdate(net, key, Add(c, dock, d));
    SumMapUpdate(DockMoves(net), key, SumMap(Magnitudes(Add(c, dock, d))));
    assert Magnitudes(map[]) == map[];
  }

  /** A row's two dock changes, one at a time. */
  lemma ApplyInTwo(c: Counters, t: Trip)
    requires t.start.Some?
    ensures Depart(c, t).net == if DepartsAny(t) then AddNet(c.net, KeyOf(t.start.value), t.startDock, -1) else c.net
    ensures Apply(c, t).net ==
      if ArrivesAny(t) then AddNet(Depart(c, t).net, KeyOf(t.end.value), t.endDock, 1) else Depart(c, t).net
  {
  }

  lemma SumsAfterRow(c: Counters, t: Trip)
    requires t.start.Some?
    ensures SumMap(DockSums(Apply(c, t).net))
         == SumMap(DockSums(c.net)) + (if ArrivesAny(t) then 1 else 0) - if DepartsAny(t) then 1 else 0
  {
    ApplyInTwo(c, t);
    if DepartsAny(t) { AddNetSums(c.net, KeyOf(t.start.value), t.startDock, -1); }
    if ArrivesAny(t) { AddNetSums(Depart(c, t).net, KeyOf(t.end.value), t.endDock, 1); }
  }

  lemma MovesAfterRow(c: Counters, t: Trip)
    requires t.start.Some?
    ensures SumMap(DockMoves(Apply(c, t).net))
         <= SumMap(DockMoves(c.net)) + (if ArrivesAny(t) then 1 else 0) + if DepartsAny(t) then 1 else 0
  {
    ApplyInTwo(c, t);
    if DepartsAny(t) { AddNetMoves(c.net, KeyOf(t.start.value), t.startDock, -1); }
    if ArrivesAny(t) { AddNetMoves(Depart(c, t).net, KeyOf(t.end.value), t.endDock, 1); }
  }

  /** Over any archive the net changes sum to the docked arrivals less the docked departures. */
  lemma {:induction false} NetIsConserved(ts: seq<Trip>)
    ensures SumMap(DockSums(Replay(ts).net)) == AllArrivals(ts) - AllDepartures(ts)
  {
    if ts == [] {
      assert DockSums(map[]) == map[];
    } else {
      var t, c := ts[|ts| - 1], Replay(ts[..|ts| - 1]);
      NetIsConserved(ts[..|ts| - 1]);
      if t.start.Some? { SumsAfterRow(c, t); }
    }
  }

  /** The estimator's total never exceeds half the docked ends: pairs cancel, nothing is invented. */
  lemma {:induction false} MovesAreBounded(ts: seq<Trip>)
    ensures SumMap(DockMoves(Replay(ts).net)) <= AllArrivals(ts) + AllDepartures(ts)
  {
    if ts == [] {
      assert DockMoves(map[]) == map[];
    } else {
      var t, c := ts[|ts| - 1], Replay(ts[..|ts| - 1]);
      MovesAreBounded(ts[..|ts| - 1]);
      if t.start.Some? { MovesAfterRow(c, t); }
    }
  }

  /** The absolute changes of one slot. */
  ghost function MovesAt(net: map<Key, Counter<string>>, key: Key): int { SumMap(Magnitudes(GetNet(net, key))) }

  lemma MovesStep(c: Counters, t: Trip, key: Key) returns (pairs: nat)
    requires t.start.Some?
    ensures MovesAt(Apply(c, t).net, key) + 2 * pairs
         == MovesAt(c.net, key) + (if DepartsSome(t, key) then 1 else 0) + if ArrivesSome(t, key) then 1 else 0
  {
    pairs := 0;
    ApplyAt(c, t, key);
    var before := GetNet(c.net, key);
    var mid := if DepartsSome(t, key) then Add(before, t.startDock, -1) else before;
    if DepartsSome(t, key) {
      AddMoves(before, t.startDock, -1);
      if SumMap(Magnitudes(mid)) < SumMap(Magnitudes(before)) { pairs := pairs + 1; }
    }
    if ArrivesSome(t, key) {
      AddMoves(mid, t.endDock, 1);
      if SumMap(Magnitudes(Add(mid, t.endDock, 1))) < SumMap(Magnitudes(mid)) { pairs := pairs + 1; }
    }
  }

  /** Slot by slot the estimator reports every docked end, less two for each pair that cancelled. */
  lemma {:induction false} MovesOfSlot(ts: seq<Trip>, key: Key) returns (pairs: nat)
    ensures MovesAt(Replay(ts).net, key) + 2 * pairs == Events(ts, key)
    ensures MovesAt(Replay(ts).net, key) >= 0
  {
    MagnitudesNonNegative(Magnitudes(GetNet(Replay(ts).net, key)));
    if ts == [] {
      assert Magnitudes(map[]) == map[];
      pairs := 0;
    } else {
      var t := ts[|ts| - 1];
      pairs := MovesOfSlot(ts[..|ts| - 1], key);
      if t.start.Some? {
        var more := MovesStep(Replay(ts[..|ts| - 1]), t, key);
        pairs := pairs + more;
      }
    }
  }

  lemma {:induction false} MagnitudesNonNegative(m: Counter<string>)
    requires forall k :: k in m ==> m[k] >= 0
    ensures SumMap(m) >= 0
    decreases |m|
  {
    if k :| k in m {
      SumMapRemove(m, k);
      MagnitudesNonNegative(m - {k});
    } else {
      assert m == map[];
    }
  }

  // ----- months

  function Merge<K>(a: Counter<K>, b: Counter<K>): Counter<K> {
    map k | k in a.Keys + b.Keys :: Get(a, k) + Get(b, k)
  }

  function MergeNet(a: map<Key, Counter<string>>, b: map<Key, Counter<string>>): map<Key, Counter<string>> {
    map key | key in a.Keys + b.Keys :: Merge(GetNet(a, key), GetNet(b, key))
  }

  function MergeCounters(a: Counters, b: Counters): Counters {
    Counters(Merge(a.trips, b.trips), MergeNet(a.net, b.net))
  }

  lemma MergeTallies(a: seq<Trip>, b: seq<Trip>, key: Key, dock: string)
    ensures Tallies(MergeCounters(Replay(a), Replay(b)), a + b, key, dock)
  {
    ReplayTallies(a, key, dock);
    ReplayTallies(b, key, dock);
    CountConcat(a, b, t => StartsAt(t, key));
    CountConcat(a, b, t => Departs(t, key, dock));
    CountConcat(a, b, t => Arrives(t, key, dock));
    CountConcat(a, b, t => DepartsSome(t, key));
    CountConcat(a, b, t => ArrivesSome(t, key));
  }

  /** The tallies determine the counters, keys included. */
  lemma TalliesDetermine(c: Counters, d: Counters, ts: seq<Trip>)
    requires forall key, dock :: Tallies(c, ts, key, dock) && Tallies(d, ts, key, dock)
    ensures c == d
  {
    forall key ensures (key in c.trips <==> key in d.trips) && Get(c.trips, key) == Get(d.trips, key) {
      assert Tallies(c, ts, key, "") && Tallies(d, ts, key, "");
    }
    assert c.trips == d.trips;
    forall key
      ensures (key in c.net <==> key in d.net) && GetNet(c.net, key) == GetNet(d.net, key)
    {
      assert Tallies(c, ts, key, "") && Tallies(d, ts, key, "");
      var x, y := GetNet(c.net, key), GetNet(d.net, key);
      forall dock ensures (dock in x <==> dock in y) && Get(x, dock) == Get(y, dock) {
        assert Tallies(c, ts, key, dock) && Tallies(d, ts, key, dock);
      }
      assert x == y;
    }
    assert c.net == d.net;
  }

  /** Reading two stretches of the archive apart and merging gives the counters of one pass. */
  lemma ReplayMerges(a: seq<Trip>, b: seq<Trip>)
    ensures MergeCounters(Replay(a), Replay(b)) == Replay(a + b)
  {
    forall key, dock
      ensures Tallies(MergeCounters(Replay(a), Replay(b)), a + b, key, dock)
      ensures Tallies(Replay(a + b), a + b, key, dock)
    {
      MergeTallies(a, b, key, dock);
      ReplayTallies(a + b, key, dock);
    }
    TalliesDetermine(MergeCounters(Replay(a), Replay(b)), Replay(a + b), a + b);
  }

  function Flatten(months: seq<seq<Trip>>): seq<Trip> {
    if months == [] then [] else Flatten(months[..|months| - 1]) + months[|months| - 1]
  }

  /** The merge loop of `bake_typical`. */
  method ReadMonths(months: seq<seq<Trip>>) returns (trips: Counter<Key>, net: map<Key, Counter<string>>)
    ensures Counters(trips, net) == Replay(Flatten(months))
  {
    trips, net := map[], map[];
    for i := 0 to |months|
      invariant Counters(trips, net) == Replay(Flatten(months[..i]))
    {
      var tr, nt := ReadMonth(months[i]);
      ReplayMerges(Flatten(months[..i]), months[i]);
      assert months[..i + 1][..i] == months[..i];
      trips := Merge(trips, tr);
      net := MergeNet(net, nt);
    }
    assert months[..|months|] == months;
  }

  // ----- the two matrices of a weekday

  method AbsTotal(c: Counter<string>) returns (total: int)
    ensures total == SumMap(Magnitudes(c))
  {
    total := 0;
    var rest := c;
    while rest != map[]
      invariant total + SumMap(Magnitudes(rest)) == SumMap(Magnitudes(c))
      decreases |rest|
    {
      var dock :| dock in rest;
      SumMapRemove(Magnitudes(rest), dock);
      assert Magnitudes(rest) - {dock} == Magnitudes(rest - {dock});
      total := total + Magnitude(rest[dock]);
      rest := rest - {dock};
    }
    assert Magnitudes(map[]) == map[];
  }

  /** The inner loop of `bake_typical`: one date's row of both matrices. */
  method BakeDate(trips: Counter<Key>, net: map<Key, Counter<string>>, day: string, i: nat, t: array2<int>, e: array2<real>)
    requires i < t.Length0 == e.Length0 && t.Length1 == e.Length1 == SLOTS
    requires forall s :: 0 <= s < SLOTS ==> e[i, s] == 0.0
    modifies t, e
    ensures forall s :: 0 <= s < SLOTS ==> t[i, s] == Get(trips, Key(day, s))
    ensures forall s :: 0 <= s < SLOTS ==> e[i, s] == MovesAt(net, Key(day, s)) as real * 0.5
    ensures forall d, s :: 0 <= d < t.Length0 && d != i && 0 <= s < SLOTS ==>
      t[d, s] == old(t[d, s]) && e[d, s] == old(e[d, s])
  {
    for s := 0 to SLOTS
      invariant forall k :: 0 <= k < s ==> t[i, k] == Get(trips, Key(day, k))
      invariant forall k :: 0 <= k < s ==> e[i, k] == MovesAt(net, Key(day, k)) as real * 0.5
      invariant forall k :: s <= k < SLOTS ==> e[i, k] == 0.0
      invariant forall d, k :: 0 <= d < t.Length0 && d != i && 0 <= k < SLOTS ==>
        t[d, k] == old(t[d, k]) && e[d, k] == old(e[d, k])
    {
      var key := Key(day, s);
      t[i, s] := Get(trips, key);
      if key in net && net[key] != map[] {
        var total := AbsTotal(net[key]);
        e[i, s] := total as real * 0.5;
      } else {
        assert Magnitudes(map[]) == map[];
      }
    }
  }

  /** The estimator loops of `bake_typical`: the census and the estimator's report, date by slot. */
  method BakeWeekday(trips: Counter<Key>, net: map<Key, Counter<string>>, days: seq<string>)
    returns (t: array2<int>, e: array2<real>)
    ensures t.Length0 == e.Length0 == |days| && t.Length1 == e.Length1 == SLOTS
    ensures forall i, s :: 0 <= i < |days| && 0 <= s < SLOTS ==> t[i, s] == Get(trips, Key(days[i], s))
    ensures forall i, s :: 0 <= i < |days| && 0 <= s < SLOTS ==>
      e[i, s] == MovesAt(net, Key(days[i], s)) as real * 0.5
  {
    t := new int[|days|, SLOTS]((_, _) => 0);
    e := new real[|days|, SLOTS]((_, _) => 0.0);
    for i := 0 to |days|
      invariant forall d, s :: 0 <= d < i && 0 <= s < SLOTS ==> t[d, s] == Get(trips, Key(days[d], s))
      invariant forall d, s :: 0 <= d < i && 0 <= s < SLOTS ==>
        e[d, s] == MovesAt(net, Key(days[d], s)) as real * 0.5
      invariant forall d, s :: i <= d < |days| && 0 <= s < SLOTS ==> e[d, s] == 0.0
    {
      BakeDate(trips, net, days[i], i, t, e);
    }
  }
}
