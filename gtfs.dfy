/**
 * The GTFS-realtime records that the three versions of the package read from a
 * decoded feed message. Every field the models declare as optional is an
 * `Option`; instants are integer epoch seconds.
 */
module Gtfs {
  import opened Wrappers

  /** FeedHeader: the realtime version string and the instant the feed was written. */
  datatype Header = Header(gtfsRealtimeVersion: string, timestamp: int)

  /** Trip: `start_time` is optional in the current models and required in the older ones. */
  datatype Trip = Trip(tripId: string, startTime: Option<string>, startDate: int, routeId: string)

  /** StopTimeUpdate: a stop of a trip with its predicted arrival and departure instants. */
  datatype StopTimeUpdate = StopTimeUpdate(stopId: string, arrival: Option<int>, departure: Option<int>)

  /** TripUpdate: a trip and, possibly, the list of its remaining stops. */
  datatype TripUpdate = TripUpdate(trip: Trip, stopTimeUpdate: Option<seq<StopTimeUpdate>>)

  /** Vehicle: the VehiclePosition message of a moving train. */
  datatype Vehicle = Vehicle(trip: Trip, timestamp: Option<int>, currentStopSequence: Option<int>, stopId: Option<string>)

  /** Entity: one element of the feed, carrying a vehicle position, a trip update, or neither. */
  datatype Entity = Entity(id: string, vehicle: Option<Vehicle>, tripUpdate: Option<TripUpdate>)

  /**
   * The dictionary that decoding a FeedMessage produces: a message field that
   * was not set is absent from the dictionary.
   */
  datatype FeedDict = FeedDict(header: Option<Header>, entity: Option<seq<Entity>>)
  {
    /** `not feed_dict`: the dictionary has no keys at all. */
    predicate IsEmpty()
    {
      header.None? && entity.None?
    }
  }

  /** SubwayFeed: a validated feed. */
  datatype Feed = Feed(header: Header, entity: seq<Entity>)
}
