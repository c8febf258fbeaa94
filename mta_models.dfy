/**
 * The first SubwayFeed models (mta/models.py): `from_content` decodes and
 * validates a payload, and `extract_stop_dict` filters the entities with a
 * trip update twice, then groups every stop's departure under the raw route id.
 */
module MtaModels {
  import opened Wrappers
  import opened Gtfs
  import opened Grouping
  import opened Transport
  import Models
  import LegacyModels
  import Validation

  /**
   * `SubwayFeed.from_content`: decode, raise GTFSEmptyError for an empty
   * dictionary or one without "entity", then validate with the older models
   * (VALID_ROUTES is `validRoutes`).
   */
  function FromContent(content: Bytes, decode: Bytes -> Parse, validRoutes: set<string>): (r: Result<Feed, FeedError>)
    ensures r.Success? ==>
      Validation.WellFormed(r.value, Validation.StrictSchema(validRoutes)) &&
      decode(content) == Parsed(FeedDict(Some(r.value.header), Some(r.value.entity)))
    ensures decode(content).Malformed? ==> r == Failure(DecodeError)
    ensures decode(content).Parsed? && decode(content).dict.entity.None? ==> r == Failure(EmptyFeed)
    ensures r.Failure? ==> (Retryable(r.error) <==> LoadProtobuf(content, decode).Failure?)
  {
    match LoadProtobuf(content, decode)
    case Failure(e) => Failure(e)
    case Success(d) =>
      match Validation.Construct(d, Validation.StrictSchema(validRoutes))
      case Failure(errs) => Failure(ValidationError(errs))
      case Success(f) => Success(f)
  }

  /** A payload that decodes to a complete, valid dictionary gives the feed it describes. */
  lemma FromContentValid(content: Bytes, decode: Bytes -> Parse, validRoutes: set<string>, f: Feed)
    requires decode(content) == Parsed(FeedDict(Some(f.header), Some(f.entity)))
    requires Validation.WellFormed(f, Validation.StrictSchema(validRoutes))
    ensures FromContent(content, decode, validRoutes) == Success(f)
  {
  }

  /** `filter(lambda x: x.trip_update is not None)` over entities. */
  function WithTripUpdate(es: seq<Entity>): (fs: seq<Entity>)
    ensures |fs| <= |es|
    ensures forall e :: e in fs <==> e in es && e.tripUpdate.Some?
  {
    if es == [] then []
    else
      var init, last := es[..|es| - 1], es[|es| - 1];
      assert es == init + [last];
      WithTripUpdate(init) + if last.tripUpdate.Some? then [last] else []
  }

  /** Filtering a second time changes nothing. */
  lemma {:induction false} WithTripUpdateIdempotent(es: seq<Entity>)
    ensures WithTripUpdate(WithTripUpdate(es)) == WithTripUpdate(es)
  {
    if es != [] {
      var init, last := es[..|es| - 1], es[|es| - 1];
      WithTripUpdateIdempotent(init);
      var fs := WithTripUpdate(init);
      if last.tripUpdate.Some? {
        var gs := fs + [last];
        assert gs[..|gs| - 1] == fs;
        assert gs[|gs| - 1] == last;
      } else {
        assert WithTripUpdate(es) == fs;
      }
    }
  }

  /** Filtering before taking the trip updates changes nothing: they are taken from the same entities. */
  lemma {:induction false} TripUpdatesFiltered(es: seq<Entity>)
    ensures Models.TripUpdates(WithTripUpdate(es)) == Models.TripUpdates(es)
  {
    if es != [] {
      var init, last := es[..|es| - 1], es[|es| - 1];
      TripUpdatesFiltered(init);
      var fs := WithTripUpdate(init);
      if last.tripUpdate.Some? {
        var gs := fs + [last];
        assert gs[..|gs| - 1] == fs;
        assert gs[|gs| - 1] == last;
      } else {
        assert WithTripUpdate(es) == fs;
      }
    }
  }

  /**
   * `SubwayFeed.extract_stop_dict` of mta/models.py: the doubled filter, the
   * stop-list filter, the departures under the raw route id, and the grouping
   * loop. It groups exactly what the version of underground/models.py groups.
   */
  method ExtractStopDict(f: Feed, validRoutes: set<string>) returns (g: StopDict)
    requires Validation.WellFormed(f, Validation.StrictSchema(validRoutes))
    ensures LegacyModels.Departing(Models.TripUpdates(f.entity))
    ensures g == Grouped(LegacyModels.Flatten(f.entity))
  {
    LegacyModels.WellFormedDeparting(f, validRoutes);
    var entities := WithTripUpdate(f.entity);
    var withUpdates := WithTripUpdate(entities);
    WithTripUpdateIdempotent(f.entity);
    TripUpdatesFiltered(f.entity);
    var flat := LegacyModels.Flatten(withUpdates);
    g := GroupStops(flat);
  }
}
