/**
 * The first package's fetch and extraction functions (mta/mta.py):
 * `parse_feed_data` is `load_protobuf`, `request_feed_data` retries by
 * calling itself, `extract_stop_dict` groups the decoded dictionary, and
 * `get_feed_stops` chains the two. The VALID_FEED_IDS set of this package is
 * the parameter `validIds`; the API key is only passed on to the GET, whose
 * replies are the oracle `replies`.
 */
module Mta {
  import opened Wrappers
  import opened Gtfs
  import opened Grouping
  import opened Transport
  import Models
  import LegacyModels
  import RecursiveRetry

  /**
   * `parse_feed_data`: the decoded dictionary when it has "entity", otherwise
   * EmptyFeedError, or DecodeError when the payload does not decode.
   */
  function ParseFeedData(decode: Bytes -> Parse): (parse: Bytes -> Result<FeedDict, FeedError>)
    ensures forall c :: parse(c).Success? <==> decode(c).Parsed? && decode(c).dict.entity.Some?
    ensures forall c :: parse(c).Success? ==> parse(c).value == decode(c).dict
    ensures forall c :: decode(c).Malformed? ==> parse(c) == Failure(DecodeError)
    ensures forall c :: decode(c).Parsed? && decode(c).dict.entity.None? ==> parse(c) == Failure(EmptyFeed)
  {
    content => LoadProtobuf(content, decode)
  }

  /** `request_feed_data(api_key, feed_id, retries)`, calling itself with `retries - 1` after each sleep. */
  method RequestFeedData(validIds: set<int>, feedId: int, retries: int, replies: seq<Response>, decode: Bytes -> Parse)
    returns (o: RecursiveRetry.Outcome<FeedDict>, ghost requests: nat, ghost sleeps: nat)
    ensures RecursiveRetry.RequestFeedData(validIds, feedId, retries, replies, ParseFeedData(decode))
      == RecursiveRetry.Run(o, requests, sleeps)
    ensures o.Done? && o.result.Success? ==> o.result.value.entity.Some?
    decreases |replies|
  {
    if feedId !in validIds {
      return RecursiveRetry.Done(Failure(InvalidFeedId(feedId))), 0, 0;
    }
    if replies == [] {
      return RecursiveRetry.Unfinished, 0, 0;
    }
    var reply := replies[0];
    if reply.ConnectionFailure? {
      return RecursiveRetry.Done(Failure(ConnectionError)), 1, 0;
    }
    var feedDict := LoadProtobuf(reply.content, decode);
    if feedDict.Failure? && Retryable(feedDict.error) && retries != 0 {
      // time.sleep(1), then the recursive call
      ghost var rest, restSleeps;
      o, rest, restSleeps := RequestFeedData(validIds, feedId, retries - 1, replies[1..], decode);
      return o, rest + 1, restSleeps + 1;
    }
    return RecursiveRetry.Done(feedDict), 1, 0;
  }

  /**
   * `extract_stop_dict(gtfs_result)`: KeyError "entity" when the dictionary
   * has no entity list, KeyError "departure" when a listed stop has no
   * departure, and otherwise the departures grouped under the raw route ids,
   * exactly as the older models group them.
   */
  method ExtractStopDict(gtfsResult: FeedDict) returns (r: Result<StopDict, FeedError>)
    ensures gtfsResult.entity.None? ==> r == Failure(MissingKey("entity"))
    ensures gtfsResult.entity.Some? && !LegacyModels.Departing(Models.TripUpdates(gtfsResult.entity.value)) ==>
      r == Failure(MissingKey("departure"))
    ensures gtfsResult.entity.Some? && LegacyModels.Departing(Models.TripUpdates(gtfsResult.entity.value)) ==>
      r == Success(Grouped(LegacyModels.Flatten(gtfsResult.entity.value)))
  {
    if gtfsResult.entity.None? {
      return Failure(MissingKey("entity"));
    }
    var entities := gtfsResult.entity.value;
    if !LegacyModels.Departing(Models.TripUpdates(entities)) {
      return Failure(MissingKey("departure"));
    }
    var flat := LegacyModels.Flatten(entities);
    var grouped := GroupStops(flat);
    r := Success(grouped);
  }

  /**
   * `get_feed_stops`: `extract_stop_dict(request_feed_data(...))`. A fetch
   * error or an unfinished retry passes through; a fetched dictionary always
   * has its entity list, so the only KeyError left is a missing departure.
   */
  method GetFeedStops(validIds: set<int>, feedId: int, retries: int, replies: seq<Response>, decode: Bytes -> Parse)
    returns (o: RecursiveRetry.Outcome<StopDict>, ghost requests: nat, ghost sleeps: nat)
    ensures
      var run := RecursiveRetry.RequestFeedData(validIds, feedId, retries, replies, ParseFeedData(decode));
      requests == run.requests && sleeps == run.sleeps
    ensures
      var run := RecursiveRetry.RequestFeedData(validIds, feedId, retries, replies, ParseFeedData(decode));
      (run.outcome.Unfinished? ==> o.Unfinished?) &&
      (run.outcome.Done? && run.outcome.result.Failure? ==> o == RecursiveRetry.Done(Failure(run.outcome.result.error))) &&
      (run.outcome.Done? && run.outcome.result.Success? ==>
        run.outcome.result.value.entity.Some? &&
        var entities := run.outcome.result.value.entity.value;
        o == RecursiveRetry.Done(
          if LegacyModels.Departing(Models.TripUpdates(entities))
          then Success(Grouped(LegacyModels.Flatten(entities)))
          else Failure(MissingKey("departure"))))
  {
    var fetched;
    fetched, requests, sleeps := RequestFeedData(validIds, feedId, retries, replies, decode);
    if fetched.Unfinished? {
      return RecursiveRetry.Unfinished, requests, sleeps;
    }
    if fetched.result.Failure? {
      return RecursiveRetry.Done(Failure(fetched.result.error)), requests, sleeps;
    }
    var stops := ExtractStopDict(fetched.result.value);
    o := RecursiveRetry.Done(stops);
  }

  /**
   * With `retries = -1` and payloads that never decode, the function is
   * still retrying after any number of replies: it never gives up on its own
   * account (the interpreter's recursion limit is not modelled).
   */
  lemma UnlimitedRetries(validIds: set<int>, feedId: int, replies: seq<Response>, decode: Bytes -> Parse)
    requires feedId in validIds
    requires forall k :: 0 <= k < |replies| ==> replies[k].Reply? && decode(replies[k].content).Malformed?
    ensures RecursiveRetry.RequestFeedData(validIds, feedId, -1, replies, ParseFeedData(decode))
      == RecursiveRetry.Run(RecursiveRetry.Unfinished, |replies|, |replies|)
  {
    forall k | 0 <= k < |replies| ensures RecursiveRetry.Retried(replies[k], ParseFeedData(decode)) {
      assert ParseFeedData(decode)(replies[k].content) == Failure(DecodeError);
    }
    RecursiveRetry.NegativeNeverGivesUp(validIds, feedId, -1, replies, ParseFeedData(decode));
  }
}
