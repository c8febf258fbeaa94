/**
 * The pydantic validation that turns a decoded feed dictionary into a
 * SubwayFeed: the `Trip` validators and the required fields of the three
 * versions of the models (src/underground/models.py, underground/models.py,
 * mta/models.py).
 */
module Validation {
  import opened Wrappers
  import opened Gtfs
  import LegacyCatalog

  /** The smallest `start_date` that `check_start_date` accepts. */
  const MinStartDate: int := 19000101

  /**
   * What a version of the models accepts: the set that `check_route` tests
   * the route id against, and whether the older, strict field requirements
   * apply (`Trip.start_time`, `StopTimeUpdate.arrival`/`departure` and
   * `Vehicle.stop_id` required).
   */
  datatype Schema = Schema(validRoutes: set<string>, strict: bool)

  /** The current models: routes are checked against ROUTE_REMAP and the fields above are optional. */
  const CurrentSchema: Schema := Schema(LegacyCatalog.RouteRemap.Keys, false)

  /** The older models, whose VALID_ROUTES set is not part of this model and is a parameter. */
  function StrictSchema(validRoutes: set<string>): (s: Schema)
    ensures s.strict && s.validRoutes == validRoutes
  {
    Schema(validRoutes, true)
  }

  /** One validation failure. */
  datatype FieldError =
    | NotADate(startDate: int)
    | InvalidRoute(routeId: string)
    | MissingField(name: string)

  /** The errors `Trip(**d)` reports; pydantic collects them all. */
  function TripErrors(t: Trip, s: Schema): (errs: set<FieldError>)
    ensures errs == {} <==>
      t.startDate >= MinStartDate && t.routeId in s.validRoutes && (s.strict ==> t.startTime.Some?)
    ensures NotADate(t.startDate) in errs <==> t.startDate < MinStartDate
    ensures InvalidRoute(t.routeId) in errs <==> t.routeId !in s.validRoutes
  {
    (if t.startDate < MinStartDate then {NotADate(t.startDate)} else {})
    + (if t.routeId !in s.validRoutes then {InvalidRoute(t.routeId)} else {})
    + (if s.strict && t.startTime.None? then {MissingField("start_time")} else {})
  }

  /** The errors of one StopTimeUpdate: only the strict models require both instants. */
  function StopErrors(u: StopTimeUpdate, s: Schema): (errs: set<FieldError>)
    ensures errs == {} <==> !s.strict || (u.arrival.Some? && u.departure.Some?)
  {
    (if s.strict && u.arrival.None? then {MissingField("arrival")} else {})
    + (if s.strict && u.departure.None? then {MissingField("departure")} else {})
  }

  /** The errors of every element of a `stop_time_update` list. */
  function StopsErrors(us: seq<StopTimeUpdate>, s: Schema): (errs: set<FieldError>)
    ensures errs == {} <==> forall i :: 0 <= i < |us| ==> StopErrors(us[i], s) == {}
  {
    if us == [] then {}
    else StopsErrors(us[..|us| - 1], s) + StopErrors(us[|us| - 1], s)
  }

  /** The errors of a TripUpdate: its trip and its stops, when present. */
  function TripUpdateErrors(u: TripUpdate, s: Schema): (errs: set<FieldError>)
  {
    TripErrors(u.trip, s)
    + match u.stopTimeUpdate
      case None => {}
      case Some(us) => StopsErrors(us, s)
  }

  /** The errors of a Vehicle: its trip, and `stop_id` in the strict models. */
  function VehicleErrors(v: Vehicle, s: Schema): (errs: set<FieldError>)
  {
    TripErrors(v.trip, s) + (if s.strict && v.stopId.None? then {MissingField("stop_id")} else {})
  }

  /** The errors of an Entity: whichever of its two messages are present. */
  function EntityErrors(e: Entity, s: Schema): (errs: set<FieldError>)
  {
    (match e.vehicle
     case None => {}
     case Some(v) => VehicleErrors(v, s))
    + (match e.tripUpdate
       case None => {}
       case Some(u) => TripUpdateErrors(u, s))
  }

  /** An entity that validates. */
  predicate ValidEntity(e: Entity, s: Schema)
  {
    EntityErrors(e, s) == {}
  }

  /** The errors of every entity of a list. */
  function EntitiesErrors(es: seq<Entity>, s: Schema): (errs: set<FieldError>)
    ensures errs == {} <==> forall i :: 0 <= i < |es| ==> ValidEntity(es[i], s)
  {
    if es == [] then {}
    else EntitiesErrors(es[..|es| - 1], s) + EntityErrors(es[|es| - 1], s)
  }

  /** A SubwayFeed every entity of which validates. */
  predicate WellFormed(f: Feed, s: Schema)
  {
    forall i :: 0 <= i < |f.entity| ==> ValidEntity(f.entity[i], s)
  }

  /**
   * `SubwayFeed(**feed_dict)`: the header and the entity list are required, and
   * every nested record is validated.
   */
  function Construct(d: FeedDict, s: Schema): (r: Result<Feed, set<FieldError>>)
    ensures r.Success? <==>
      d.header.Some? && d.entity.Some? &&
      forall i :: 0 <= i < |d.entity.value| ==> ValidEntity(d.entity.value[i], s)
    ensures r.Success? ==> r.value == Feed(d.header.value, d.entity.value) && WellFormed(r.value, s)
    ensures r.Failure? ==> r.error != {}
    ensures d.header.None? ==> r.Failure? && MissingField("header") in r.error
    ensures d.entity.None? ==> r.Failure? && MissingField("entity") in r.error
  {
    var errs :=
      (if d.header.None? then {MissingField("header")} else {})
      + (if d.entity.None? then {MissingField("entity")} else EntitiesErrors(d.entity.value, s));
    if errs == {} then Success(Feed(d.header.value, d.entity.value)) else Failure(errs)
  }

  /**
   * What a valid entity is, field by field: every trip passes `check_start_date`
   * and `check_route`, and the strict models also have every required field.
   */
  lemma ValidEntityMeans(e: Entity, s: Schema)
    ensures ValidEntity(e, s) <==>
      (e.vehicle.Some? ==>
        TripErrors(e.vehicle.value.trip, s) == {} && (s.strict ==> e.vehicle.value.stopId.Some?)) &&
      (e.tripUpdate.Some? ==>
        TripErrors(e.tripUpdate.value.trip, s) == {} &&
        (e.tripUpdate.value.stopTimeUpdate.Some? ==>
          forall i :: 0 <= i < |e.tripUpdate.value.stopTimeUpdate.value| ==>
            StopErrors(e.tripUpdate.value.stopTimeUpdate.value[i], s) == {}))
  {
  }

  /** In a feed the current models accept, every trip update's route is a key of ROUTE_REMAP. */
  lemma CurrentRoutesRemappable(f: Feed, i: int)
    requires WellFormed(f, CurrentSchema)
    requires 0 <= i < |f.entity| && f.entity[i].tripUpdate.Some?
    ensures f.entity[i].tripUpdate.value.trip.routeId in LegacyCatalog.RouteRemap
  {
    ValidEntityMeans(f.entity[i], CurrentSchema);
  }

  /** In a feed the strict models accept, every stop of every trip update has a departure. */
  lemma StrictDeparturesPresent(f: Feed, validRoutes: set<string>, i: int, j: int)
    requires WellFormed(f, StrictSchema(validRoutes))
    requires 0 <= i < |f.entity| && f.entity[i].tripUpdate.Some?
    requires f.entity[i].tripUpdate.value.stopTimeUpdate.Some?
    requires 0 <= j < |f.entity[i].tripUpdate.value.stopTimeUpdate.value|
    ensures f.entity[i].tripUpdate.value.stopTimeUpdate.value[j].departure.Some?
    ensures f.entity[i].tripUpdate.value.stopTimeUpdate.value[j].arrival.Some?
  {
    ValidEntityMeans(f.entity[i], StrictSchema(validRoutes));
  }

  /** `check_start_date` draws the line at 19000101: that date passes, the day before fails. */
  lemma StartDateBoundary(tripId: string, routeId: string)
    ensures TripErrors(Trip(tripId, None, 19000101, routeId), CurrentSchema) ==
      TripErrors(Trip(tripId, None, 20190726, routeId), CurrentSchema)
    ensures NotADate(19000100) in TripErrors(Trip(tripId, None, 19000100, routeId), CurrentSchema)
  {
  }

  /** The current models accept route "1", the express variant "5X" and the unassigned route "". */
  lemma CurrentAcceptsRoutes()
    ensures TripErrors(Trip("X", None, 20190726, "1"), CurrentSchema) == {}
    ensures TripErrors(Trip("X", None, 20190726, "5X"), CurrentSchema) == {}
    ensures TripErrors(Trip("X", None, 20190726, ""), CurrentSchema) == {}
  {
    LegacyCatalog.RouteRemapIdentity("1");
    LegacyCatalog.RouteRemapAliases();
  }

  /** The current models reject a date of 0 and the route "FAKE". */
  lemma CurrentRejectsTrips()
    ensures TripErrors(Trip("X", None, 0, "1"), CurrentSchema) == {NotADate(0)}
    ensures TripErrors(Trip("X", None, 20190726, "FAKE"), CurrentSchema) == {InvalidRoute("FAKE")}
  {
    LegacyCatalog.RouteRemapIdentity("1");
    LegacyCatalog.GetFeedIdOfUnknown();
  }

  /** The strict models reject a stop time update that lacks either instant, and a trip without `start_time`. */
  lemma StrictRequiredFields(validRoutes: set<string>, stopId: string, t: int)
    ensures StopErrors(StopTimeUpdate(stopId, Some(t), None), StrictSchema(validRoutes)) == {MissingField("departure")}
    ensures StopErrors(StopTimeUpdate(stopId, None, Some(t)), StrictSchema(validRoutes)) == {MissingField("arrival")}
    ensures StopErrors(StopTimeUpdate(stopId, None, None), CurrentSchema) == {}
    ensures "7" in validRoutes ==>
      TripErrors(Trip("X", None, 20190726, "7"), StrictSchema(validRoutes)) == {MissingField("start_time")}
  {
  }
}
