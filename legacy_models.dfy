/**
 * The older SubwayFeed models (underground/models.py): `extract_stop_dict`
 * keeps the trip updates that have a stop list and groups every stop's
 * departure under the trip's raw route id, with no alias mapping, no
 * assigned-route filter and no comparison with the header time.
 */
module LegacyModels {
  import opened Wrappers
  import opened Gtfs
  import opened Grouping
  import Models
  import Validation

  /** Every stop of the list carries a departure. */
  predicate HasDepartures(sts: seq<StopTimeUpdate>)
  {
    forall j :: 0 <= j < |sts| ==> sts[j].departure.Some?
  }

  /** Every trip update of the list that has a stop list has a departure at each stop. */
  predicate Departing(us: seq<TripUpdate>)
  {
    forall u :: u in us && u.stopTimeUpdate.Some? ==> HasDepartures(u.stopTimeUpdate.value)
  }

  /** `filter(lambda x: x.stop_time_update is not None)`. */
  function WithStops(us: seq<TripUpdate>): (vs: seq<TripUpdate>)
    ensures |vs| <= |us|
    ensures forall u :: u in vs <==> u in us && u.stopTimeUpdate.Some?
  {
    if us == [] then []
    else
      var init, last := us[..|us| - 1], us[|us| - 1];
      assert us == init + [last];
      WithStops(init) + if last.stopTimeUpdate.Some? then [last] else []
  }

  /** Every update of the list has a stop list, each stop of which has a departure. */
  predicate Listable(vs: seq<TripUpdate>)
  {
    forall i :: 0 <= i < |vs| ==> vs[i].stopTimeUpdate.Some? && HasDepartures(vs[i].stopTimeUpdate.value)
  }

  /** The tuples of one trip update: one per stop, in order, with the stop's departure. */
  function Departures(route: string, sts: seq<StopTimeUpdate>): (xs: seq<StopTime>)
    requires HasDepartures(sts)
    ensures |xs| == |sts|
    ensures forall j :: 0 <= j < |sts| ==> xs[j] == StopTime(route, sts[j].stopId, sts[j].departure.value)
  {
    if sts == [] then []
    else
      var init, last := sts[..|sts| - 1], sts[|sts| - 1];
      assert forall j :: 0 <= j < |init| ==> init[j] == sts[j];
      Departures(route, init) + [StopTime(route, last.stopId, last.departure.value)]
  }

  /** The generator over the kept updates: each update's tuples under its raw route id. */
  function StopsFlat(vs: seq<TripUpdate>): (xs: seq<StopTime>)
    requires Listable(vs)
  {
    if vs == [] then []
    else
      var init, last := vs[..|vs| - 1], vs[|vs| - 1];
      assert Listable(init) by {
        forall i | 0 <= i < |init| ensures init[i] == vs[i] {
        }
      }
      StopsFlat(init) + Departures(last.trip.routeId, last.stopTimeUpdate.value)
  }

  /** The filter keeps only updates the generator can list. */
  lemma WithStopsListable(us: seq<TripUpdate>)
    requires Departing(us)
    ensures Listable(WithStops(us))
  {
    var vs := WithStops(us);
    forall i | 0 <= i < |vs| ensures vs[i].stopTimeUpdate.Some? && HasDepartures(vs[i].stopTimeUpdate.value) {
      assert vs[i] in vs;
    }
  }

  /** The tuples that the older `extract_stop_dict` groups, from a list of entities. */
  function Flatten(es: seq<Entity>): (xs: seq<StopTime>)
    requires Departing(Models.TripUpdates(es))
  {
    WithStopsListable(Models.TripUpdates(es));
    StopsFlat(WithStops(Models.TripUpdates(es)))
  }

  /** A feed that the older models validate has a departure at every stop. */
  lemma WellFormedDeparting(f: Feed, validRoutes: set<string>)
    requires Validation.WellFormed(f, Validation.StrictSchema(validRoutes))
    ensures Departing(Models.TripUpdates(f.entity))
  {
    var us := Models.TripUpdates(f.entity);
    forall u | u in us && u.stopTimeUpdate.Some? ensures HasDepartures(u.stopTimeUpdate.value) {
      Models.TripUpdatesMembership(f.entity, u);
      var i :| 0 <= i < |f.entity| && f.entity[i].tripUpdate == Some(u);
      forall j | 0 <= j < |u.stopTimeUpdate.value| ensures u.stopTimeUpdate.value[j].departure.Some? {
        Validation.StrictDeparturesPresent(f, validRoutes, i, j);
      }
    }
  }

  /** `SubwayFeed.extract_stop_dict` of underground/models.py: the pipeline, then the grouping loop. */
  method ExtractStopDict(f: Feed, validRoutes: set<string>) returns (g: StopDict)
    requires Validation.WellFormed(f, Validation.StrictSchema(validRoutes))
    ensures Departing(Models.TripUpdates(f.entity))
    ensures g == Grouped(Flatten(f.entity))
  {
    WellFormedDeparting(f, validRoutes);
    var flat := Flatten(f.entity);
    g := GroupStops(flat);
  }

  /**
   * Entity `i` yields `x` through its stop `j`: the entity has a trip update
   * with a stop list, and `x` is that stop's departure under the raw route id.
   */
  ghost predicate Yields(es: seq<Entity>, i: int, j: int, x: StopTime)
  {
    0 <= i < |es| && es[i].tripUpdate.Some? &&
    var u := es[i].tripUpdate.value;
    u.stopTimeUpdate.Some? && 0 <= j < |u.stopTimeUpdate.value| &&
    var st := u.stopTimeUpdate.value[j];
    st.departure.Some? && x == StopTime(u.trip.routeId, st.stopId, st.departure.value)
  }

  /** The generator yields a tuple exactly when one of the kept updates lists it. */
  lemma {:induction false} StopsFlatMembership(vs: seq<TripUpdate>, x: StopTime)
    requires Listable(vs)
    ensures x in StopsFlat(vs) <==>
      exists i :: 0 <= i < |vs| && x in Departures(vs[i].trip.routeId, vs[i].stopTimeUpdate.value)
  {
    if vs != [] {
      var init, last := vs[..|vs| - 1], vs[|vs| - 1];
      assert Listable(init) by {
        forall i | 0 <= i < |init| ensures init[i] == vs[i] {
        }
      }
      StopsFlatMembership(init, x);
      var ys := Departures(last.trip.routeId, last.stopTimeUpdate.value);
      assert StopsFlat(vs) == StopsFlat(init) + ys;
      if x in StopsFlat(init) {
        var i :| 0 <= i < |init| && x in Departures(init[i].trip.routeId, init[i].stopTimeUpdate.value);
        assert init[i] == vs[i];
      } else if x in ys {
        assert x in Departures(vs[|vs| - 1].trip.routeId, vs[|vs| - 1].stopTimeUpdate.value);
      } else {
        forall i | 0 <= i < |vs|
          ensures x !in Departures(vs[i].trip.routeId, vs[i].stopTimeUpdate.value)
        {
          if i < |init| {
            assert init[i] == vs[i];
          }
        }
      }
    }
  }

  /** Soundness: every tuple produced is a departure of some entity's stop. */
  lemma FlattenSound(es: seq<Entity>, x: StopTime)
    requires Departing(Models.TripUpdates(es))
    requires x in Flatten(es)
    ensures exists i, j :: Yields(es, i, j, x)
  {
    var vs := WithStops(Models.TripUpdates(es));
    WithStopsListable(Models.TripUpdates(es));
    StopsFlatMembership(vs, x);
    var k :| 0 <= k < |vs| && x in Departures(vs[k].trip.routeId, vs[k].stopTimeUpdate.value);
    var u := vs[k];
    assert u in vs;
    Models.TripUpdatesMembership(es, u);
    var i :| 0 <= i < |es| && es[i].tripUpdate == Some(u);
    var xs := Departures(u.trip.routeId, u.stopTimeUpdate.value);
    var j :| 0 <= j < |xs| && xs[j] == x;
    assert Yields(es, i, j, x);
  }

  /** Completeness: every departure of every kept stop is produced. */
  lemma FlattenComplete(es: seq<Entity>, x: StopTime, i: int, j: int)
    requires Departing(Models.TripUpdates(es))
    requires Yields(es, i, j, x)
    ensures x in Flatten(es)
  {
    var us := Models.TripUpdates(es);
    var vs := WithStops(us);
    WithStopsListable(us);
    var u := es[i].tripUpdate.value;
    Models.TripUpdatesMembership(es, u);
    assert u in vs;
    var k :| 0 <= k < |vs| && vs[k] == u;
    assert Departures(u.trip.routeId, u.stopTimeUpdate.value)[j] == x;
    StopsFlatMembership(vs, x);
  }

  /**
   * Soundness and completeness: a tuple is produced exactly when it is the
   * departure of a stop of an entity's trip update, under the raw route id.
   */
  lemma FlattenMembership(es: seq<Entity>, x: StopTime)
    requires Departing(Models.TripUpdates(es))
    ensures x in Flatten(es) <==> exists i, j :: Yields(es, i, j, x)
  {
    if x in Flatten(es) {
      FlattenSound(es, x);
    }
    if exists i, j :: Yields(es, i, j, x) {
      var i, j :| Yields(es, i, j, x);
      FlattenComplete(es, x, i, j);
    }
  }

  /** The number of stops in the stop lists of a list of trip updates. */
  function StopCount(us: seq<TripUpdate>): (n: nat)
    ensures us == [] ==> n == 0
  {
    if us == [] then 0
    else
      var last := us[|us| - 1];
      StopCount(us[..|us| - 1]) + match last.stopTimeUpdate
        case None => 0
        case Some(sts) => |sts|
  }

  /** Dropping the updates without a stop list removes no stop. */
  lemma {:induction false} WithStopsCount(us: seq<TripUpdate>)
    ensures StopCount(WithStops(us)) == StopCount(us)
  {
    if us != [] {
      var init, last := us[..|us| - 1], us[|us| - 1];
      WithStopsCount(init);
      var vs := WithStops(init) + if last.stopTimeUpdate.Some? then [last] else [];
      assert WithStops(us) == vs;
      if last.stopTimeUpdate.Some? {
        assert vs[..|vs| - 1] == WithStops(init);
        assert vs[|vs| - 1] == last;
        assert StopCount(vs) == StopCount(WithStops(init)) + |last.stopTimeUpdate.value|;
      } else {
        assert vs == WithStops(init);
      }
    }
  }

  /** The generator yields one tuple per stop of the kept updates. */
  lemma {:induction false} StopsFlatLength(vs: seq<TripUpdate>)
    requires Listable(vs)
    ensures |StopsFlat(vs)| == StopCount(vs)
  {
    if vs != [] {
      var init := vs[..|vs| - 1];
      assert Listable(init) by {
        forall i | 0 <= i < |init| ensures init[i] == vs[i] {
        }
      }
      StopsFlatLength(init);
    }
  }

  /**
   * Each (trip update, stop) pair contributes exactly one tuple: the grouping
   * loop appends once per stop of every trip update that has a stop list.
   */
  lemma FlattenLength(es: seq<Entity>)
    requires Departing(Models.TripUpdates(es))
    ensures |Flatten(es)| == StopCount(Models.TripUpdates(es))
  {
    var us := Models.TripUpdates(es);
    WithStopsListable(us);
    StopsFlatLength(WithStops(us));
    WithStopsCount(us);
  }

  /** An entity whose route-7 trip update stops at 702N, arriving and departing at `t`. */
  function Route7Entity(id: string, t: int): (e: Entity)
    ensures e.tripUpdate.Some? && e.tripUpdate.value.trip.routeId == "7"
  {
    var trip := Trip("X", Some("00:00:00"), 20190726, "7");
    Entity(id, None, Some(TripUpdate(trip, Some([StopTimeUpdate("702N", Some(t), Some(t))]))))
  }

  /** One route-7 entity yields the one departure at 702N. */
  lemma Route7Single(id: string, t: int)
    ensures Departing(Models.TripUpdates([Route7Entity(id, t)]))
    ensures Flatten([Route7Entity(id, t)]) == [StopTime("7", "702N", t)]
  {
    var e := Route7Entity(id, t);
    var u := e.tripUpdate.value;
    var st := StopTimeUpdate("702N", Some(t), Some(t));
    assert [e][..0] == [];
    assert Models.TripUpdates([e]) == [u];
    assert [u][..0] == [];
    assert WithStops([u]) == [u];
    assert Departures("7", [st]) == [StopTime("7", "702N", t)];
    assert StopsFlat([u]) == StopsFlat([]) + Departures("7", [st]);
  }

  /** The entity lists of two feeds are flattened one after the other. */
  lemma {:induction false} FlattenAppend(a: seq<Entity>, b: seq<Entity>)
    requires Departing(Models.TripUpdates(a)) && Departing(Models.TripUpdates(b))
    ensures Departing(Models.TripUpdates(a + b))
    ensures Flatten(a + b) == Flatten(a) + Flatten(b)
  {
    Models.TripUpdatesAppend(a, b);
    var ua, ub := Models.TripUpdates(a), Models.TripUpdates(b);
    WithStopsAppend(ua, ub);
    WithStopsListable(ua);
    WithStopsListable(ub);
    StopsFlatAppend(WithStops(ua), WithStops(ub));
  }

  /** The stop-list filter distributes over concatenation. */
  lemma {:induction false} WithStopsAppend(a: seq<TripUpdate>, b: seq<TripUpdate>)
    ensures WithStops(a + b) == WithStops(a) + WithStops(b)
    decreases |b|
  {
    if b == [] {
      assert a + b == a;
    } else {
      var init := b[..|b| - 1];
      assert (a + b)[..|a + b| - 1] == a + init;
      WithStopsAppend(a, init);
    }
  }

  /** The generator distributes over concatenation. */
  lemma {:induction false} StopsFlatAppend(a: seq<TripUpdate>, b: seq<TripUpdate>)
    requires Listable(a) && Listable(b)
    ensures Listable(a + b)
    ensures StopsFlat(a + b) == StopsFlat(a) + StopsFlat(b)
    decreases |b|
  {
    forall i | 0 <= i < |a + b| ensures (a + b)[i].stopTimeUpdate.Some? && HasDepartures((a + b)[i].stopTimeUpdate.value) {
      if i < |a| {
        assert (a + b)[i] == a[i];
      } else {
        assert (a + b)[i] == b[i - |a|];
      }
    }
    if b == [] {
      assert a + b == a;
    } else {
      var init, last := b[..|b| - 1], b[|b| - 1];
      assert Listable(init) by {
        forall i | 0 <= i < |init| ensures init[i] == b[i] {
        }
      }
      assert (a + b)[..|a + b| - 1] == a + init;
      assert (a + b)[|a + b| - 1] == last;
      StopsFlatAppend(a, init);
    }
  }

  /** Two route-7 entities yield their two departures in order. */
  lemma Route7Flatten(t1: int, t2: int)
    ensures Departing(Models.TripUpdates([Route7Entity("1", t1), Route7Entity("2", t2)]))
    ensures Flatten([Route7Entity("1", t1), Route7Entity("2", t2)]) == [StopTime("7", "702N", t1), StopTime("7", "702N", t2)]
  {
    var e1, e2 := Route7Entity("1", t1), Route7Entity("2", t2);
    Route7Single("1", t1);
    Route7Single("2", t2);
    FlattenAppend([e1], [e2]);
    assert [e1] + [e2] == [e1, e2];
  }

  /**
   * Two route-7 updates at stop 702N give a list of two departures under "7",
   * whatever the header says: no time filter applies, so departures before
   * the header's timestamp are kept.
   */
  lemma Route7Example(h: Header, t1: int, t2: int)
    ensures Departing(Models.TripUpdates(Feed(h, [Route7Entity("1", t1), Route7Entity("2", t2)]).entity))
    ensures Grouped(Flatten(Feed(h, [Route7Entity("1", t1), Route7Entity("2", t2)]).entity))
      == map["7" := map["702N" := [t1, t2]]]
  {
    Route7Flatten(t1, t2);
    GroupedSameStop("7", "702N", t1, t2);
  }
}
