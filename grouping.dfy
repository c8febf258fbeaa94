/**
 * The grouping loop that every version of `extract_stop_dict` ends with: a
 * stream of (route, stop, time) tuples is folded into a nested dictionary
 * `{route: {stop: [t1, t2, ...]}}`, creating each inner dictionary and list on
 * first use and appending one time per tuple.
 */
module Grouping {

  /** One (route, stop, time) tuple of `stops_flat`. */
  datatype StopTime = StopTime(route: string, stop: string, time: int)

  /** The `{route: {stop: [times]}}` table. */
  type StopDict = map<string, map<string, seq<int>>>

  /** The times of the tuples for `route` and `stop`, in stream order. */
  function TimesAt(ts: seq<StopTime>, route: string, stop: string): (times: seq<int>)
    ensures |times| <= |ts|
    ensures forall t :: t in times <==> StopTime(route, stop, t) in ts
  {
    if ts == [] then []
    else
      var init, last := ts[..|ts| - 1], ts[|ts| - 1];
      assert ts == init + [last];
      TimesAt(init, route, stop) + (if last.route == route && last.stop == stop then [last.time] else [])
  }

  /** The routes that occur in the stream. */
  function RoutesOf(ts: seq<StopTime>): set<string>
  {
    set x | x in ts :: x.route
  }

  /** The stops that occur in the stream together with `route`. */
  function StopsOf(ts: seq<StopTime>, route: string): set<string>
  {
    set x | x in ts && x.route == route :: x.stop
  }

  /** The inner dictionary of one route: a list of times for each stop seen with it. */
  function Row(ts: seq<StopTime>, route: string): map<string, seq<int>>
  {
    map s | s in StopsOf(ts, route) :: TimesAt(ts, route, s)
  }

  /**
   * The table the loop builds, stated without the loop: a route key for each
   * route in the stream, a stop key for each stop seen with that route, and
   * under it the times of exactly those tuples, in order.
   */
  function Grouped(ts: seq<StopTime>): StopDict
  {
    map r | r in RoutesOf(ts) :: Row(ts, r)
  }

  /** Appending a tuple appends its time to its own list and to no other. */
  lemma TimesAtSnoc(ts: seq<StopTime>, x: StopTime, route: string, stop: string)
    ensures TimesAt(ts + [x], route, stop) ==
      TimesAt(ts, route, stop) + (if x.route == route && x.stop == stop then [x.time] else [])
  {
    assert (ts + [x])[..|ts|] == ts;
  }

  /** A stop never seen with the route has no times. */
  lemma {:induction false} TimesAtAbsent(ts: seq<StopTime>, route: string, stop: string)
    requires stop !in StopsOf(ts, route)
    ensures TimesAt(ts, route, stop) == []
  {
    if ts != [] {
      var init, last := ts[..|ts| - 1], ts[|ts| - 1];
      assert ts == init + [last];
      assert StopsOf(init, route) <= StopsOf(ts, route);
      TimesAtAbsent(init, route, stop);
    }
  }

  /** Appending a tuple adds its stop to its own route's stops only. */
  lemma StopsOfSnoc(ts: seq<StopTime>, x: StopTime, route: string)
    ensures StopsOf(ts + [x], route) == StopsOf(ts, route) + (if route == x.route then {x.stop} else {})
  {
  }

  /** Appending a tuple leaves the other routes' inner dictionaries alone. */
  lemma RowSnocOther(ts: seq<StopTime>, x: StopTime, route: string)
    requires route != x.route
    ensures Row(ts + [x], route) == Row(ts, route)
  {
    StopsOfSnoc(ts, x, route);
    forall s | s in StopsOf(ts, route) ensures TimesAt(ts + [x], route, s) == TimesAt(ts, route, s) {
      TimesAtSnoc(ts, x, route, s);
    }
  }

  /** Appending a tuple appends its time to its own route and stop, creating the list if needed. */
  lemma RowSnocSame(ts: seq<StopTime>, x: StopTime)
    ensures
      var inner := Row(ts, x.route);
      Row(ts + [x], x.route) == inner[x.stop := (if x.stop in inner then inner[x.stop] else []) + [x.time]]
  {
    var inner, inner' := Row(ts, x.route), Row(ts + [x], x.route);
    var times := if x.stop in inner then inner[x.stop] else [];
    StopsOfSnoc(ts, x, x.route);
    assert inner'.Keys == inner.Keys + {x.stop};
    forall s | s in inner' ensures inner'[s] == inner[x.stop := times + [x.time]][s] {
      RowSnocAt(ts, x, s);
    }
  }

  /** The list of one stop of the appended tuple's route after the append. */
  lemma RowSnocAt(ts: seq<StopTime>, x: StopTime, s: string)
    requires s in StopsOf(ts + [x], x.route)
    ensures var inner := Row(ts, x.route);
      Row(ts + [x], x.route)[s] ==
        if s == x.stop then (if s in inner then inner[s] else []) + [x.time] else inner[s]
  {
    TimesAtSnoc(ts, x, x.route, s);
    StopsOfSnoc(ts, x, x.route);
    if s !in StopsOf(ts, x.route) {
      TimesAtAbsent(ts, x.route, s);
    }
  }

  /** A route that does not occur has an empty row. */
  lemma RowAbsent(ts: seq<StopTime>, route: string)
    requires route !in RoutesOf(ts)
    ensures Row(ts, route) == map[]
  {
    assert StopsOf(ts, route) == {};
  }

  /** Appending a tuple replaces its route's row and keeps every other row. */
  lemma GroupedSnocRows(ts: seq<StopTime>, x: StopTime)
    ensures Grouped(ts + [x]) == Grouped(ts)[x.route := Row(ts + [x], x.route)]
  {
    var g, g' := Grouped(ts), Grouped(ts + [x]);
    assert RoutesOf(ts + [x]) == RoutesOf(ts) + {x.route};
    forall r | r in g' && r != x.route ensures g'[r] == g[r] {
      RowSnocOther(ts, x, r);
    }
  }

  /**
   * One turn of the loop: the route's inner dictionary and the stop's list are
   * created if missing, then the time is appended.
   */
  lemma GroupedSnoc(ts: seq<StopTime>, x: StopTime)
    ensures
      var g := Grouped(ts);
      var inner := if x.route in g then g[x.route] else map[];
      var times := if x.stop in inner then inner[x.stop] else [];
      Grouped(ts + [x]) == g[x.route := inner[x.stop := times + [x.time]]]
  {
    var g := Grouped(ts);
    if x.route !in g {
      RowAbsent(ts, x.route);
    }
    GroupedSnocRows(ts, x);
    RowSnocSame(ts, x);
  }

  /** The body of the loop: one tuple added to the table. */
  lemma AddStopTime(g: StopDict, x: StopTime)
    ensures
      var g1 := if x.route !in g then g[x.route := map[]] else g;
      var g2 := if x.stop !in g1[x.route] then g1[x.route := g1[x.route][x.stop := []]] else g1;
      var inner := if x.route in g then g[x.route] else map[];
      var times := if x.stop in inner then inner[x.stop] else [];
      g2[x.route := g2[x.route][x.stop := g2[x.route][x.stop] + [x.time]]]
        == g[x.route := inner[x.stop := times + [x.time]]]
  {
    var inner := if x.route in g then g[x.route] else map[];
    var times := if x.stop in inner then inner[x.stop] else [];
    var g1 := if x.route !in g then g[x.route := map[]] else g;
    if x.route in g {
      assert g[x.route := inner] == g;
    }
    assert g1 == g[x.route := inner];
    var g2 := if x.stop !in g1[x.route] then g1[x.route := g1[x.route][x.stop := []]] else g1;
    if x.stop in inner {
      assert inner[x.stop := times] == inner;
    }
    assert g2 == g[x.route := inner[x.stop := times]];
    assert g2[x.route][x.stop := times + [x.time]] == inner[x.stop := times + [x.time]];
    assert g2[x.route := inner[x.stop := times + [x.time]]] == g[x.route := inner[x.stop := times + [x.time]]];
  }

  /** `stops_grouped`: the loop over `stops_flat`, mutating the nested dictionary in place. */
  method GroupStops(ts: seq<StopTime>) returns (g: StopDict)
    ensures g == Grouped(ts)
  {
    g := map[];
    for i := 0 to |ts|
      invariant g == Grouped(ts[..i])
    {
      var x := ts[i];
      AddStopTime(g, x);
      GroupedSnoc(ts[..i], x);
      if x.route !in g {
        g := g[x.route := map[]];
      }
      if x.stop !in g[x.route] {
        g := g[x.route := g[x.route][x.stop := []]];
      }
      g := g[x.route := g[x.route][x.stop := g[x.route][x.stop] + [x.time]]];
      assert ts[..i + 1] == ts[..i] + [x];
    }
    assert ts[..|ts|] == ts;
  }

  /** The route keys are the routes of the stream and the stop keys the stops seen with them. */
  lemma GroupedKeys(ts: seq<StopTime>, route: string, stop: string)
    ensures route in Grouped(ts) <==> exists x :: x in ts && x.route == route
    ensures route in Grouped(ts) ==>
      (stop in Grouped(ts)[route] <==> exists x :: x in ts && x.route == route && x.stop == stop)
  {
  }

  /** Containers are only created for a tuple that is then appended: no dictionary or list is empty. */
  lemma GroupedNonEmpty(ts: seq<StopTime>, route: string, stop: string)
    requires route in Grouped(ts)
    ensures Grouped(ts)[route] != map[]
    ensures stop in Grouped(ts)[route] ==> Grouped(ts)[route][stop] != []
  {
    var x :| x in ts && x.route == route;
    assert x.stop in StopsOf(ts, route);
    assert x.stop in Grouped(ts)[route];
    if stop in Grouped(ts)[route] {
      var y :| y in ts && y.route == route && y.stop == stop;
      assert y.time in TimesAt(ts, route, stop);
    }
  }

  /** A time is listed under (route, stop) exactly when the stream holds that tuple. */
  lemma GroupedMembership(ts: seq<StopTime>, route: string, stop: string, t: int)
    ensures (route in Grouped(ts) && stop in Grouped(ts)[route] && t in Grouped(ts)[route][stop])
      <==> StopTime(route, stop, t) in ts
  {
    if StopTime(route, stop, t) in ts {
      assert stop in StopsOf(ts, route);
    }
  }

  /**
   * Each tuple contributes exactly one value to the list of its own route and
   * stop, in stream order: the lists of a concatenated stream are the
   * concatenated lists.
   */
  lemma {:induction false} TimesAtAppend(a: seq<StopTime>, b: seq<StopTime>, route: string, stop: string)
    ensures TimesAt(a + b, route, stop) == TimesAt(a, route, stop) + TimesAt(b, route, stop)
    decreases |b|
  {
    if b == [] {
      assert a + b == a;
    } else {
      var init, last := b[..|b| - 1], b[|b| - 1];
      assert b == init + [last];
      assert a + b == (a + init) + [last];
      TimesAtAppend(a, init, route, stop);
      TimesAtSnoc(a + init, last, route, stop);
      TimesAtSnoc(init, last, route, stop);
    }
  }

  /** A single tuple yields one time under its own route and stop. */
  lemma TimesAtSingle(x: StopTime, route: string, stop: string)
    ensures TimesAt([x], route, stop) == if x.route == route && x.stop == stop then [x.time] else []
  {
    assert [x][..0] == [];
  }

  /** One tuple gives one route with one stop and one time. */
  lemma GroupedSingle(x: StopTime)
    ensures Grouped([x]) == map[x.route := map[x.stop := [x.time]]]
  {
    var empty: seq<StopTime> := [];
    assert Grouped(empty) == map[];
    GroupedSnoc(empty, x);
    assert empty + [x] == [x];
    assert [] + [x.time] == [x.time];
  }

  /** A tuple whose route and stop already have a list appends its time to that list. */
  lemma GroupedSnocExisting(ts: seq<StopTime>, x: StopTime, g: StopDict)
    requires Grouped(ts) == g && x.route in g && x.stop in g[x.route]
    ensures Grouped(ts + [x]) == g[x.route := g[x.route][x.stop := g[x.route][x.stop] + [x.time]]]
  {
    GroupedSnoc(ts, x);
  }

  /** A tuple whose route has a row but whose stop is new starts a list for that stop. */
  lemma GroupedSnocNewStop(ts: seq<StopTime>, x: StopTime, g: StopDict)
    requires Grouped(ts) == g && x.route in g && x.stop !in g[x.route]
    ensures Grouped(ts + [x]) == g[x.route := g[x.route][x.stop := [x.time]]]
  {
    GroupedSnoc(ts, x);
    assert [] + [x.time] == [x.time];
  }

  /** Two tuples of one route at different stops. */
  lemma GroupedTwo(route: string, s1: string, s2: string, t1: int, t2: int)
    requires s1 != s2
    ensures Grouped([StopTime(route, s1, t1), StopTime(route, s2, t2)]) == map[route := map[s1 := [t1], s2 := [t2]]]
  {
    var x1, x2 := StopTime(route, s1, t1), StopTime(route, s2, t2);
    var g1 := map[route := map[s1 := [t1]]];
    GroupedSingle(x1);
    GroupedSnocNewStop([x1], x2, g1);
    assert [x1] + [x2] == [x1, x2];
  }

  /** A second time at a stop that already holds one. */
  lemma GroupedSecondTime(ts: seq<StopTime>, route: string, s1: string, s2: string, t1: int, t2: int, t3: int)
    requires s1 != s2
    requires Grouped(ts) == map[route := map[s1 := [t1], s2 := [t2]]]
    ensures Grouped(ts + [StopTime(route, s2, t3)]) == map[route := map[s1 := [t1], s2 := [t2, t3]]]
  {
    GroupedSnocExisting(ts, StopTime(route, s2, t3), map[route := map[s1 := [t1], s2 := [t2]]]);
    AppendSecond(route, s1, s2, t1, t2, t3);
  }

  /** The table update of GroupedSecondTime, on the literal tables alone. */
  lemma AppendSecond(route: string, s1: string, s2: string, t1: int, t2: int, t3: int)
    requires s1 != s2
    ensures var g := map[route := map[s1 := [t1], s2 := [t2]]];
      g[route := g[route][s2 := g[route][s2] + [t3]]] == map[route := map[s1 := [t1], s2 := [t2, t3]]]
  {
    var g := map[route := map[s1 := [t1], s2 := [t2]]];
    assert [t2] + [t3] == [t2, t3];
    assert g[route][s2 := [t2] + [t3]] == map[s1 := [t1], s2 := [t2, t3]];
  }

  /**
   * Three tuples of one route, the last two at the same stop: that stop's list
   * holds both times in stream order.
   */
  lemma GroupedThree(route: string, s1: string, s2: string, t1: int, t2: int, t3: int)
    requires s1 != s2
    ensures Grouped([StopTime(route, s1, t1), StopTime(route, s2, t2), StopTime(route, s2, t3)])
      == map[route := map[s1 := [t1], s2 := [t2, t3]]]
  {
    var x1, x2, x3 := StopTime(route, s1, t1), StopTime(route, s2, t2), StopTime(route, s2, t3);
    GroupedTwo(route, s1, s2, t1, t2);
    GroupedSecondTime([x1, x2], route, s1, s2, t1, t2, t3);
    assert [x1, x2] + [x3] == [x1, x2, x3];
  }

  /** A second time at the only stop of a one-stop table. */
  lemma GroupedSecondTimeAlone(ts: seq<StopTime>, route: string, stop: string, t1: int, t2: int)
    requires Grouped(ts) == map[route := map[stop := [t1]]]
    ensures Grouped(ts + [StopTime(route, stop, t2)]) == map[route := map[stop := [t1, t2]]]
  {
    GroupedSnocExisting(ts, StopTime(route, stop, t2), map[route := map[stop := [t1]]]);
    AppendAlone(route, stop, t1, t2);
  }

  /** The table update of GroupedSecondTimeAlone, on the literal tables alone. */
  lemma AppendAlone(route: string, stop: string, t1: int, t2: int)
    ensures var g := map[route := map[stop := [t1]]];
      g[route := g[route][stop := g[route][stop] + [t2]]] == map[route := map[stop := [t1, t2]]]
  {
    var g := map[route := map[stop := [t1]]];
    assert [t1] + [t2] == [t1, t2];
    assert g[route][stop := [t1] + [t2]] == map[stop := [t1, t2]];
  }

  /** Two tuples of one route at the same stop: one list holding both times in stream order. */
  lemma GroupedSameStop(route: string, stop: string, t1: int, t2: int)
    ensures Grouped([StopTime(route, stop, t1), StopTime(route, stop, t2)]) == map[route := map[stop := [t1, t2]]]
  {
    var x1, x2 := StopTime(route, stop, t1), StopTime(route, stop, t2);
    GroupedSingle(x1);
    GroupedSecondTimeAlone([x1], route, stop, t1, t2);
    assert [x1] + [x2] == [x1, x2];
  }
}
