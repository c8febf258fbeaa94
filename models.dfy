/**
 * The current SubwayFeed models (src/underground/models.py): the trip and
 * stop-time properties and `extract_stop_dict`, which keeps the assigned trip
 * updates, drops stops without a time or timed before the feed header, and
 * groups the rest under the alias-mapped route.
 */
module Models {
  import opened Wrappers
  import opened Gtfs
  import opened Grouping
  import LegacyCatalog
  import Validation

  /** `Trip.route_id_mapped`: the parent route, such as the 5 train for a 5X trip. */
  function RouteIdMapped(t: Trip): (r: string)
    requires t.routeId in LegacyCatalog.RouteRemap
    ensures r in LegacyCatalog.RouteRemap && LegacyCatalog.RouteRemap[r] == r
    ensures r == "" <==> t.routeId == ""
  {
    LegacyCatalog.RouteRemapIdempotent(t.routeId);
    LegacyCatalog.RouteRemapEmpty(t.routeId);
    LegacyCatalog.RouteRemap[t.routeId]
  }

  /** `Trip.route_is_assigned`: the trip has a route. */
  function RouteIsAssigned(t: Trip): (b: bool)
    ensures b <==> t.routeId != ""
  {
    t.routeId != ""
  }

  /** `StopTimeUpdate.depart_or_arrive`: the departure if given, otherwise the arrival. */
  function DepartOrArrive(u: StopTimeUpdate): (t: Option<int>)
    ensures t.Some? <==> u.departure.Some? || u.arrival.Some?
    ensures u.departure.Some? ==> t == u.departure
    ensures u.departure.None? ==> t == u.arrival
  {
    if u.departure.Some? then u.departure else u.arrival
  }

  /** An assigned trip's parent route is never the unassigned route "". */
  lemma AssignedRouteMapped(t: Trip)
    requires t.routeId in LegacyCatalog.RouteRemap
    ensures RouteIsAssigned(t) <==> RouteIdMapped(t) != ""
  {
  }

  /** A 5X trip is grouped with the 5 train. */
  lemma RouteIdMappedExpress(tripId: string, startDate: int)
    ensures "5X" in LegacyCatalog.RouteRemap
    ensures RouteIdMapped(Trip(tripId, None, startDate, "5X")) == "5"
  {
    LegacyCatalog.RouteRemapAliases();
    LegacyCatalog.RouteRemapKeys();
  }

  /** Every trip update of the list has a route that `remap` maps. */
  predicate Remappable(us: seq<TripUpdate>, remap: map<string, string>)
  {
    forall i :: 0 <= i < |us| ==> us[i].trip.routeId in remap
  }

  /** `filter(lambda x: x.trip_update is not None)` followed by `map(attrgetter("trip_update"))`. */
  function TripUpdates(es: seq<Entity>): (us: seq<TripUpdate>)
    ensures |us| <= |es|
  {
    if es == [] then []
    else
      var init, last := es[..|es| - 1], es[|es| - 1];
      TripUpdates(init) + match last.tripUpdate
        case None => []
        case Some(u) => [u]
  }

  /** The updates kept are exactly those of the entities that carry one. */
  lemma {:induction false} TripUpdatesMembership(es: seq<Entity>, u: TripUpdate)
    ensures u in TripUpdates(es) <==> exists i :: 0 <= i < |es| && es[i].tripUpdate == Some(u)
  {
    if es != [] {
      var init, last := es[..|es| - 1], es[|es| - 1];
      var tail := if last.tripUpdate.Some? then [last.tripUpdate.value] else [];
      assert TripUpdates(es) == TripUpdates(init) + tail;
      TripUpdatesMembership(init, u);
      if u in TripUpdates(init) {
        var i :| 0 <= i < |init| && init[i].tripUpdate == Some(u);
        assert es[i] == init[i];
      }
      if exists i :: 0 <= i < |es| && es[i].tripUpdate == Some(u) {
        var i :| 0 <= i < |es| && es[i].tripUpdate == Some(u);
        if i < |init| {
          assert es[i] == init[i];
        }
      }
    }
  }

  /** The filter keeping updates with an assigned route and a stop list. */
  function AssignedWithStops(us: seq<TripUpdate>): (vs: seq<TripUpdate>)
    ensures |vs| <= |us|
    ensures forall u :: u in vs <==> u in us && RouteIsAssigned(u.trip) && u.stopTimeUpdate.Some?
  {
    if us == [] then []
    else
      var init, last := us[..|us| - 1], us[|us| - 1];
      assert us == init + [last];
      AssignedWithStops(init)
      + if RouteIsAssigned(last.trip) && last.stopTimeUpdate.Some? then [last] else []
  }

  /** The tuples one trip update yields: its stops with a time not before `since`, under `route`. */
  function StopEntries(route: string, sts: seq<StopTimeUpdate>, since: int): (xs: seq<StopTime>)
    ensures |xs| <= |sts|
    ensures forall x :: x in xs ==> x.route == route && x.time >= since
  {
    if sts == [] then []
    else
      var init, last := sts[..|sts| - 1], sts[|sts| - 1];
      assert sts == init + [last];
      var t := DepartOrArrive(last);
      StopEntries(route, init, since)
      + if t.Some? && t.value >= since then [StopTime(route, last.stopId, t.value)] else []
  }

  /**
   * A stop list yields a tuple exactly when one of its stops has a time not
   * before `since`.
   */
  lemma {:induction false} StopEntriesMembership(route: string, sts: seq<StopTimeUpdate>, since: int, x: StopTime)
    ensures x in StopEntries(route, sts, since) <==>
      x.route == route && x.time >= since &&
      exists j :: 0 <= j < |sts| && sts[j].stopId == x.stop && DepartOrArrive(sts[j]) == Some(x.time)
  {
    if sts != [] {
      var init, last := sts[..|sts| - 1], sts[|sts| - 1];
      StopEntriesMembership(route, init, since, x);
      if exists j :: 0 <= j < |sts| && sts[j].stopId == x.stop && DepartOrArrive(sts[j]) == Some(x.time) {
        var j :| 0 <= j < |sts| && sts[j].stopId == x.stop && DepartOrArrive(sts[j]) == Some(x.time);
        if j < |init| {
          assert init[j] == sts[j];
        }
      }
      if x in StopEntries(route, init, since) {
        var j :| 0 <= j < |init| && init[j].stopId == x.stop && DepartOrArrive(init[j]) == Some(x.time);
        assert init[j] == sts[j];
      }
    }
  }

  /** Every trip update's route is a key of `remap`, and every update has a stop list. */
  predicate Flattenable(us: seq<TripUpdate>, remap: map<string, string>)
  {
    forall i :: 0 <= i < |us| ==> us[i].trip.routeId in remap && us[i].stopTimeUpdate.Some?
  }

  /**
   * The generator `stops_flat` over the kept trip updates, in iteration order,
   * each update's tuples listed under `remap` of its route.
   */
  function StopsFlat(us: seq<TripUpdate>, since: int, remap: map<string, string>): (xs: seq<StopTime>)
    requires Flattenable(us, remap)
  {
    if us == [] then []
    else
      var init, last := us[..|us| - 1], us[|us| - 1];
      StopsFlat(init, since, remap) + StopEntries(remap[last.trip.routeId], last.stopTimeUpdate.value, since)
  }

  /**
   * The tuples `extract_stop_dict` groups, with `remap` as the alias table
   * (ROUTE_REMAP in the package).
   */
  function Flatten(f: Feed, remap: map<string, string>): (xs: seq<StopTime>)
    requires Remappable(TripUpdates(f.entity), remap)
  {
    StopsFlat(AssignedWithStops(TripUpdates(f.entity)), f.header.timestamp, remap)
  }

  /** A validated feed has only remappable routes. */
  lemma WellFormedRemappable(f: Feed)
    requires Validation.WellFormed(f, Validation.CurrentSchema)
    ensures Remappable(TripUpdates(f.entity), LegacyCatalog.RouteRemap)
  {
    var us := TripUpdates(f.entity);
    forall i | 0 <= i < |us| ensures us[i].trip.routeId in LegacyCatalog.RouteRemap {
      TripUpdatesMembership(f.entity, us[i]);
      var k :| 0 <= k < |f.entity| && f.entity[k].tripUpdate == Some(us[i]);
      Validation.CurrentRoutesRemappable(f, k);
    }
  }

  /** `SubwayFeed.extract_stop_dict`: the pipeline, then the grouping loop. */
  method ExtractStopDict(f: Feed) returns (g: StopDict)
    requires Validation.WellFormed(f, Validation.CurrentSchema)
    ensures Remappable(TripUpdates(f.entity), LegacyCatalog.RouteRemap)
    ensures g == Grouped(Flatten(f, LegacyCatalog.RouteRemap))
  {
    WellFormedRemappable(f);
    var flat := Flatten(f, LegacyCatalog.RouteRemap);
    g := GroupStops(flat);
  }

  /**
   * Entity `i` of the feed yields the tuple `x` through its stop `j`: the
   * entity has a trip update with an assigned route and a stop list, and that
   * stop has a time not before the header's, listed under the mapped route.
   */
  ghost predicate Yields(f: Feed, remap: map<string, string>, i: int, j: int, x: StopTime)
  {
    0 <= i < |f.entity| && f.entity[i].tripUpdate.Some? &&
    var u := f.entity[i].tripUpdate.value;
    RouteIsAssigned(u.trip) && u.stopTimeUpdate.Some? && u.trip.routeId in remap &&
    0 <= j < |u.stopTimeUpdate.value| &&
    var st := u.stopTimeUpdate.value[j];
    x == StopTime(remap[u.trip.routeId], st.stopId, x.time) &&
    DepartOrArrive(st) == Some(x.time) && x.time >= f.header.timestamp
  }

  /** The generator yields a tuple exactly when one of the kept updates does. */
  lemma {:induction false} StopsFlatMembership(us: seq<TripUpdate>, since: int, remap: map<string, string>, x: StopTime)
    requires Flattenable(us, remap)
    ensures x in StopsFlat(us, since, remap) <==>
      exists i :: 0 <= i < |us| && x in StopEntries(remap[us[i].trip.routeId], us[i].stopTimeUpdate.value, since)
  {
    if us != [] {
      var init, last := us[..|us| - 1], us[|us| - 1];
      assert Flattenable(init, remap);
      StopsFlatMembership(init, since, remap, x);
      var ys := StopEntries(remap[last.trip.routeId], last.stopTimeUpdate.value, since);
      assert StopsFlat(us, since, remap) == StopsFlat(init, since, remap) + ys;
      if x in StopsFlat(init, since, remap) {
        var i :| 0 <= i < |init| && x in StopEntries(remap[init[i].trip.routeId], init[i].stopTimeUpdate.value, since);
        assert init[i] == us[i];
      } else if x in ys {
        var k := |us| - 1;
        assert us[k] == last && x in StopEntries(remap[us[k].trip.routeId], us[k].stopTimeUpdate.value, since);
      } else {
        forall i | 0 <= i < |us|
          ensures x !in StopEntries(remap[us[i].trip.routeId], us[i].stopTimeUpdate.value, since)
        {
          if i < |init| {
            assert init[i] == us[i];
          }
        }
      }
    }
  }

  /** Soundness of the pipeline: every tuple produced is yielded by some entity. */
  lemma FlattenSound(f: Feed, remap: map<string, string>, x: StopTime)
    requires Remappable(TripUpdates(f.entity), remap)
    requires x in Flatten(f, remap)
    ensures exists i, j :: Yields(f, remap, i, j, x)
  {
    var us := AssignedWithStops(TripUpdates(f.entity));
    StopsFlatMembership(us, f.header.timestamp, remap, x);
    var k :| 0 <= k < |us| && x in StopEntries(remap[us[k].trip.routeId], us[k].stopTimeUpdate.value, f.header.timestamp);
    var u := us[k];
    assert u in us;
    TripUpdatesMembership(f.entity, u);
    var i :| 0 <= i < |f.entity| && f.entity[i].tripUpdate == Some(u);
    StopEntriesMembership(remap[u.trip.routeId], u.stopTimeUpdate.value, f.header.timestamp, x);
    var j :| 0 <= j < |u.stopTimeUpdate.value| && u.stopTimeUpdate.value[j].stopId == x.stop
      && DepartOrArrive(u.stopTimeUpdate.value[j]) == Some(x.time);
    assert Yields(f, remap, i, j, x);
  }

  /** Completeness of the pipeline: every tuple an entity yields is produced. */
  lemma FlattenComplete(f: Feed, remap: map<string, string>, x: StopTime, i: int, j: int)
    requires Remappable(TripUpdates(f.entity), remap)
    requires Yields(f, remap, i, j, x)
    ensures x in Flatten(f, remap)
  {
    var us := AssignedWithStops(TripUpdates(f.entity));
    var u := f.entity[i].tripUpdate.value;
    TripUpdatesMembership(f.entity, u);
    assert u in us;
    var k :| 0 <= k < |us| && us[k] == u;
    StopEntriesMembership(remap[u.trip.routeId], u.stopTimeUpdate.value, f.header.timestamp, x);
    StopsFlatMembership(us, f.header.timestamp, remap, x);
  }

  /**
   * Soundness and completeness of the pipeline: a tuple is produced exactly
   * when some entity yields it.
   */
  lemma FlattenMembership(f: Feed, remap: map<string, string>, x: StopTime)
    requires Remappable(TripUpdates(f.entity), remap)
    ensures x in Flatten(f, remap) <==> exists i, j :: Yields(f, remap, i, j, x)
  {
    if x in Flatten(f, remap) {
      FlattenSound(f, remap, x);
    }
    if exists i, j :: Yields(f, remap, i, j, x) {
      var i, j :| Yields(f, remap, i, j, x);
      FlattenComplete(f, remap, x, i, j);
    }
  }

  /** The first filter and map distribute over concatenation. */
  lemma {:induction false} TripUpdatesAppend(a: seq<Entity>, b: seq<Entity>)
    ensures TripUpdates(a + b) == TripUpdates(a) + TripUpdates(b)
    decreases |b|
  {
    if b == [] {
      assert a + b == a;
    } else {
      var init := b[..|b| - 1];
      assert (a + b)[..|a + b| - 1] == a + init;
      TripUpdatesAppend(a, init);
    }
  }

  /** The second filter distributes over concatenation. */
  lemma {:induction false} AssignedWithStopsAppend(a: seq<TripUpdate>, b: seq<TripUpdate>)
    ensures AssignedWithStops(a + b) == AssignedWithStops(a) + AssignedWithStops(b)
    decreases |b|
  {
    if b == [] {
      assert a + b == a;
    } else {
      var init := b[..|b| - 1];
      assert (a + b)[..|a + b| - 1] == a + init;
      AssignedWithStopsAppend(a, init);
    }
  }

  /** The generator distributes over concatenation. */
  lemma {:induction false} StopsFlatAppend(a: seq<TripUpdate>, b: seq<TripUpdate>, since: int, remap: map<string, string>)
    requires Flattenable(a, remap) && Flattenable(b, remap)
    ensures Flattenable(a + b, remap)
    ensures StopsFlat(a + b, since, remap) == StopsFlat(a, since, remap) + StopsFlat(b, since, remap)
    decreases |b|
  {
    forall i | 0 <= i < |a + b| ensures (a + b)[i].trip.routeId in remap && (a + b)[i].stopTimeUpdate.Some? {
      if i < |a| {
        assert (a + b)[i] == a[i];
      } else {
        assert (a + b)[i] == b[i - |a|];
      }
    }
    if b == [] {
      assert a + b == a;
    } else {
      var init, last := b[..|b| - 1], b[|b| - 1];
      assert Flattenable(init, remap) by {
        forall i | 0 <= i < |init| ensures init[i] == b[i] {
        }
      }
      assert (a + b)[..|a + b| - 1] == a + init;
      assert (a + b)[|a + b| - 1] == last;
      StopsFlatAppend(a, init, since, remap);
    }
  }

  /** The second filter keeps only updates the generator can flatten. */
  lemma AssignedFlattenable(us: seq<TripUpdate>, remap: map<string, string>)
    requires Remappable(us, remap)
    ensures Flattenable(AssignedWithStops(us), remap)
  {
    var vs := AssignedWithStops(us);
    forall i | 0 <= i < |vs| ensures vs[i].trip.routeId in remap && vs[i].stopTimeUpdate.Some? {
      assert vs[i] in vs;
      var k :| 0 <= k < |us| && us[k] == vs[i];
    }
  }

  /** Both halves remappable means the whole is. */
  lemma RemappableAppend(a: seq<TripUpdate>, b: seq<TripUpdate>, remap: map<string, string>)
    requires Remappable(a, remap) && Remappable(b, remap)
    ensures Remappable(a + b, remap)
  {
    forall i | 0 <= i < |a + b| ensures (a + b)[i].trip.routeId in remap {
      if i < |a| {
        assert (a + b)[i] == a[i];
      } else {
        assert (a + b)[i] == b[i - |a|];
      }
    }
  }

  /**
   * Order: the tuples of a feed whose entity list is the concatenation of two
   * lists are the tuples of the first list followed by those of the second.
   */
  lemma FlattenAppend(h: Header, a: seq<Entity>, b: seq<Entity>, remap: map<string, string>)
    requires Remappable(TripUpdates(a), remap) && Remappable(TripUpdates(b), remap)
    ensures Remappable(TripUpdates(a + b), remap)
    ensures Flatten(Feed(h, a + b), remap) == Flatten(Feed(h, a), remap) + Flatten(Feed(h, b), remap)
  {
    var ua, ub := TripUpdates(a), TripUpdates(b);
    TripUpdatesAppend(a, b);
    RemappableAppend(ua, ub, remap);
    var va, vb := AssignedWithStops(ua), AssignedWithStops(ub);
    AssignedWithStopsAppend(ua, ub);
    AssignedFlattenable(ua, remap);
    AssignedFlattenable(ub, remap);
    StopsFlatAppend(va, vb, h.timestamp, remap);
    assert Flatten(Feed(h, a + b), remap) == StopsFlat(va + vb, h.timestamp, remap);
  }

  /** A stop list yields its stops' tuples in order. */
  lemma {:induction false} StopEntriesAppend(route: string, a: seq<StopTimeUpdate>, b: seq<StopTimeUpdate>, since: int)
    ensures StopEntries(route, a + b, since) == StopEntries(route, a, since) + StopEntries(route, b, since)
    decreases |b|
  {
    if b == [] {
      assert a + b == a;
    } else {
      var init := b[..|b| - 1];
      assert (a + b)[..|a + b| - 1] == a + init;
      StopEntriesAppend(route, a, init, since);
    }
  }

  /**
   * One stop yields exactly one tuple when it has a time not before `since`,
   * and none otherwise: no time and an earlier time are both dropped.
   */
  lemma StopEntriesSingle(route: string, st: StopTimeUpdate, since: int)
    ensures StopEntries(route, [st], since) ==
      if DepartOrArrive(st).Some? && DepartOrArrive(st).value >= since
      then [StopTime(route, st.stopId, DepartOrArrive(st).value)] else []
  {
    assert [st][..0] == [];
  }

  /**
   * One entity contributes the tuples of its stop list when it has a trip
   * update with an assigned route and a stop list, and nothing otherwise.
   */
  lemma FlattenSingle(h: Header, e: Entity, remap: map<string, string>)
    requires e.tripUpdate.Some? ==> e.tripUpdate.value.trip.routeId in remap
    ensures Remappable(TripUpdates([e]), remap)
    ensures Flatten(Feed(h, [e]), remap) ==
      if e.tripUpdate.Some? && RouteIsAssigned(e.tripUpdate.value.trip) && e.tripUpdate.value.stopTimeUpdate.Some?
      then StopEntries(remap[e.tripUpdate.value.trip.routeId], e.tripUpdate.value.stopTimeUpdate.value, h.timestamp)
      else []
  {
    assert [e][..0] == [];
    var us := TripUpdates([e]);
    assert us == if e.tripUpdate.Some? then [e.tripUpdate.value] else [];
    if e.tripUpdate.Some? {
      assert us[..0] == [];
      var vs := AssignedWithStops(us);
      if RouteIsAssigned(e.tripUpdate.value.trip) && e.tripUpdate.value.stopTimeUpdate.Some? {
        assert vs == us;
        assert vs[..0] == [];
        var u := e.tripUpdate.value;
        assert StopsFlat(vs, h.timestamp, remap) ==
          StopsFlat([], h.timestamp, remap) + StopEntries(remap[u.trip.routeId], u.stopTimeUpdate.value, h.timestamp);
      } else {
        assert vs == [];
      }
    }
  }

  /**
   * What the table holds: a time is listed under a route and a stop exactly
   * when some entity yields that (route, stop, time) tuple.
   */
  lemma ExtractMembership(f: Feed, r: string, s: string, t: int)
    requires Remappable(TripUpdates(f.entity), LegacyCatalog.RouteRemap)
    ensures
      var g := Grouped(Flatten(f, LegacyCatalog.RouteRemap));
      (r in g && s in g[r] && t in g[r][s]) <==>
      exists i, j :: Yields(f, LegacyCatalog.RouteRemap, i, j, StopTime(r, s, t))
  {
    GroupedMembership(Flatten(f, LegacyCatalog.RouteRemap), r, s, t);
    FlattenMembership(f, LegacyCatalog.RouteRemap, StopTime(r, s, t));
  }

  /**
   * Every route key of the table is an assigned route in canonical form (its
   * own ROUTE_REMAP image), and no listed time is earlier than the header.
   */
  lemma ExtractCanonical(f: Feed, r: string, s: string, t: int)
    requires Remappable(TripUpdates(f.entity), LegacyCatalog.RouteRemap)
    requires
      var g := Grouped(Flatten(f, LegacyCatalog.RouteRemap));
      r in g && s in g[r] && t in g[r][s]
    ensures r != "" && r in LegacyCatalog.RouteRemap && LegacyCatalog.RouteRemap[r] == r
    ensures t >= f.header.timestamp
  {
    ExtractMembership(f, r, s, t);
    var i, j :| Yields(f, LegacyCatalog.RouteRemap, i, j, StopTime(r, s, t));
    var u := f.entity[i].tripUpdate.value;
    assert r == RouteIdMapped(u.trip);
  }

  /** A feed of one assigned trip update yields that update's stop tuples. */
  lemma FlattenOneUpdate(h: Header, trip: Trip, sts: seq<StopTimeUpdate>, remap: map<string, string>)
    requires trip.routeId in remap && trip.routeId != ""
    ensures
      var e := Entity("1", None, Some(TripUpdate(trip, Some(sts))));
      Remappable(TripUpdates([e]), remap) &&
      Flatten(Feed(h, [e]), remap) == StopEntries(remap[trip.routeId], sts, h.timestamp)
  {
    FlattenSingle(h, Entity("1", None, Some(TripUpdate(trip, Some(sts)))), remap);
  }

  /** A feed of two assigned trip updates yields the first update's tuples, then the second's. */
  lemma FlattenTwoUpdates(h: Header, t1: Trip, sts1: seq<StopTimeUpdate>, t2: Trip, sts2: seq<StopTimeUpdate>, remap: map<string, string>)
    requires t1.routeId in remap && t1.routeId != "" && t2.routeId in remap && t2.routeId != ""
    ensures
      var e1 := Entity("1", None, Some(TripUpdate(t1, Some(sts1))));
      var e2 := Entity("2", None, Some(TripUpdate(t2, Some(sts2))));
      Remappable(TripUpdates([e1, e2]), remap) &&
      Flatten(Feed(h, [e1, e2]), remap) ==
        StopEntries(remap[t1.routeId], sts1, h.timestamp) + StopEntries(remap[t2.routeId], sts2, h.timestamp)
  {
    var e1 := Entity("1", None, Some(TripUpdate(t1, Some(sts1))));
    var e2 := Entity("2", None, Some(TripUpdate(t2, Some(sts2))));
    FlattenSingle(h, e1, remap);
    FlattenSingle(h, e2, remap);
    FlattenPair(h, e1, e2, remap);
  }

  /** A feed of two entities yields the first entity's tuples, then the second's. */
  lemma FlattenPair(h: Header, e1: Entity, e2: Entity, remap: map<string, string>)
    requires Remappable(TripUpdates([e1]), remap) && Remappable(TripUpdates([e2]), remap)
    ensures Remappable(TripUpdates([e1, e2]), remap)
    ensures Flatten(Feed(h, [e1, e2]), remap) == Flatten(Feed(h, [e1]), remap) + Flatten(Feed(h, [e2]), remap)
  {
    FlattenAppend(h, [e1], [e2], remap);
    assert [e1] + [e2] == [e1, e2];
  }

  /** The three stops of the boundary example: only the one at 100 survives a bound of 100. */
  lemma BoundaryStops(route: string)
    ensures StopEntries(route, [StopTimeUpdate("A", Some(100), None), StopTimeUpdate("B", None, Some(99)), StopTimeUpdate("C", None, None)], 100)
      == [StopTime(route, "A", 100)]
  {
    var a, b, c := StopTimeUpdate("A", Some(100), None), StopTimeUpdate("B", None, Some(99)), StopTimeUpdate("C", None, None);
    assert [a, b, c] == [a] + [b] + [c];
    StopEntriesAppend(route, [a] + [b], [c], 100);
    StopEntriesAppend(route, [a], [b], 100);
    StopEntriesSingle(route, a, 100);
    StopEntriesSingle(route, b, 100);
    StopEntriesSingle(route, c, 100);
  }

  /**
   * The header is an inclusive bound: with the header at 100, a stop at 100 is
   * kept, a stop at 99 and a stop with no time are dropped.
   */
  lemma HeaderBoundary(route: string, remap: map<string, string>)
    requires route in remap && route != ""
    ensures
      var trip := Trip("X", None, 20190726, route);
      var sts := [StopTimeUpdate("A", Some(100), None), StopTimeUpdate("B", None, Some(99)), StopTimeUpdate("C", None, None)];
      var e := Entity("1", None, Some(TripUpdate(trip, Some(sts))));
      Remappable(TripUpdates([e]), remap) &&
      Flatten(Feed(Header("1.0", 100), [e]), remap) == [StopTime(remap[route], "A", 100)]
  {
    var sts := [StopTimeUpdate("A", Some(100), None), StopTimeUpdate("B", None, Some(99)), StopTimeUpdate("C", None, None)];
    FlattenOneUpdate(Header("1.0", 100), Trip("X", None, 20190726, route), sts, remap);
    BoundaryStops(remap[route]);
  }

  /** The tuples of the sample feed's two trip updates. */
  lemma SampleStops()
    ensures StopEntries("1", [StopTimeUpdate("ONE", Some(0), None), StopTimeUpdate("TWO", Some(1), None)], 0)
      == [StopTime("1", "ONE", 0), StopTime("1", "TWO", 1)]
    ensures StopEntries("1", [StopTimeUpdate("TWO", Some(3), None)], 0) == [StopTime("1", "TWO", 3)]
  {
    var one, two, three := StopTimeUpdate("ONE", Some(0), None), StopTimeUpdate("TWO", Some(1), None), StopTimeUpdate("TWO", Some(3), None);
    assert [one, two] == [one] + [two];
    StopEntriesAppend("1", [one], [two], 0);
    StopEntriesSingle("1", one, 0);
    StopEntriesSingle("1", two, 0);
    StopEntriesSingle("1", three, 0);
  }

  /** The command-line tests' sample feed: two route-1 entities with header time 0. */
  function SampleFeed(): (f: Feed)
    ensures |f.entity| == 2 && f.header.timestamp == 0
  {
    var trip := Trip("X", None, 20190726, "1");
    var e1 := Entity("1", None, Some(TripUpdate(trip, Some([StopTimeUpdate("ONE", Some(0), None), StopTimeUpdate("TWO", Some(1), None)]))));
    var e2 := Entity("2", None, Some(TripUpdate(trip, Some([StopTimeUpdate("TWO", Some(3), None)]))));
    Feed(Header("1.0", 0), [e1, e2])
  }

  /** The sample feed's tuples, for any alias table that maps route 1 to itself. */
  lemma SampleFlatten(remap: map<string, string>)
    requires "1" in remap && remap["1"] == "1"
    ensures Remappable(TripUpdates(SampleFeed().entity), remap)
    ensures Flatten(SampleFeed(), remap) == [StopTime("1", "ONE", 0), StopTime("1", "TWO", 1), StopTime("1", "TWO", 3)]
  {
    var trip := Trip("X", None, 20190726, "1");
    FlattenTwoUpdates(Header("1.0", 0),
      trip, [StopTimeUpdate("ONE", Some(0), None), StopTimeUpdate("TWO", Some(1), None)],
      trip, [StopTimeUpdate("TWO", Some(3), None)], remap);
    SampleStops();
  }

  /**
   * The sample feed of the package's command-line tests: with the header at 0,
   * two route-1 entities with stops ONE at 0, TWO at 1 and TWO at 3 give
   * `{"1": {"ONE": [0], "TWO": [1, 3]}}`.
   */
  lemma ExtractSample()
    ensures Remappable(TripUpdates(SampleFeed().entity), LegacyCatalog.RouteRemap)
    ensures Grouped(Flatten(SampleFeed(), LegacyCatalog.RouteRemap)) == map["1" := map["ONE" := [0], "TWO" := [1, 3]]]
  {
    LegacyCatalog.RouteRemapIdentity("1");
    SampleFlatten(LegacyCatalog.RouteRemap);
    GroupedThree("1", "ONE", "TWO", 0, 1, 3);
  }

  /** A 5X trip's stops are listed under route 5. */
  lemma ExtractExpress()
    ensures
      var e := Entity("1", None, Some(TripUpdate(Trip("X", None, 20190726, "5X"), Some([StopTimeUpdate("S", Some(7), None)]))));
      var f := Feed(Header("1.0", 0), [e]);
      Remappable(TripUpdates(f.entity), LegacyCatalog.RouteRemap) &&
      Grouped(Flatten(f, LegacyCatalog.RouteRemap)) == map["5" := map["S" := [7]]]
  {
    var st := StopTimeUpdate("S", Some(7), None);
    RouteIdMappedExpress("X", 20190726);
    FlattenOneUpdate(Header("1.0", 0), Trip("X", None, 20190726, "5X"), [st], LegacyCatalog.RouteRemap);
    StopEntriesSingle("5", st, 0);
    GroupedSingle(StopTime("5", "S", 7));
  }
}
