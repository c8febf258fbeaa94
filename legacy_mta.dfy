/**
 * The older package's recursive fetch (underground/mta.py): `request_feed_data`
 * checks the feed id against the integer catalogue, decodes and validates each
 * payload with `SubwayFeed.from_content`, and retries only EmptyFeed and
 * DecodeError; `get_stops` groups the fetched feed's departures.
 *
 * `from_content` is the one of mta/models.py (with VALID_ROUTES given as
 * `validRoutes`); the replies to the GETs are the oracle `replies`.
 */
module LegacyMta {
  import opened Wrappers
  import opened Gtfs
  import opened Grouping
  import opened Transport
  import LegacyCatalog
  import Models
  import LegacyModels
  import MtaModels
  import Validation
  import RecursiveRetry

  /**
   * `SubwayFeed.from_content` as the decoder of `request_feed_data`: a feed it
   * gives is valid and is what the payload decodes to; an undecodable payload
   * raises DecodeError; and an error is retried exactly when loading failed.
   */
  function FromContent(decode: Bytes -> Parse, validRoutes: set<string>): (parse: Bytes -> Result<Feed, FeedError>)
    ensures forall c :: parse(c).Success? ==>
      Validation.WellFormed(parse(c).value, Validation.StrictSchema(validRoutes)) &&
      decode(c) == Parsed(FeedDict(Some(parse(c).value.header), Some(parse(c).value.entity)))
    ensures forall c :: decode(c).Malformed? ==> parse(c) == Failure(DecodeError)
    ensures forall c :: parse(c).Failure? ==> (Retryable(parse(c).error) <==> LoadProtobuf(c, decode).Failure?)
  {
    content => MtaModels.FromContent(content, decode, validRoutes)
  }

  /**
   * `request_feed_data(api_key, feed_id, retries)`: the recursive retry over
   * the catalogue's feed ids. A feed it returns is always a valid one.
   */
  function RequestFeedData(feedId: int, retries: int, replies: seq<Response>, decode: Bytes -> Parse,
                           validRoutes: set<string>): (run: RecursiveRetry.Run<Feed>)
    ensures feedId !in LegacyCatalog.ValidFeedIds ==> run == RecursiveRetry.Run(RecursiveRetry.Done(Failure(InvalidFeedId(feedId))), 0, 0)
    ensures run.outcome.Done? && run.outcome.result.Success? ==>
      Validation.WellFormed(run.outcome.result.value, Validation.StrictSchema(validRoutes))
  {
    var run := RecursiveRetry.RequestFeedData(LegacyCatalog.ValidFeedIds, feedId, retries, replies, FromContent(decode, validRoutes));
    if feedId in LegacyCatalog.ValidFeedIds && run.outcome.Done? then
      RecursiveRetry.ResultFromReply(LegacyCatalog.ValidFeedIds, feedId, retries, replies, FromContent(decode, validRoutes));
      run
    else run
  }

  /** Feed 3 is refused before any GET; so is any id the catalogue does not list. */
  lemma InvalidFeedIdExample(retries: int, replies: seq<Response>, decode: Bytes -> Parse, validRoutes: set<string>)
    ensures RequestFeedData(3, retries, replies, decode, validRoutes).requests == 0
    ensures RequestFeedData(3, retries, replies, decode, validRoutes).outcome == RecursiveRetry.Done(Failure(InvalidFeedId(3)))
  {
    LegacyCatalog.ValidFeedIdsValue();
  }

  /**
   * A payload that decodes but fails validation raises the ValidationError at
   * once, whatever the budget: only EmptyFeed and DecodeError are retried.
   */
  lemma ValidationErrorNotRetried(feedId: int, retries: int, replies: seq<Response>, decode: Bytes -> Parse,
                                  validRoutes: set<string>, errs: set<Validation.FieldError>)
    requires feedId in LegacyCatalog.ValidFeedIds && replies != [] && replies[0].Reply?
    requires MtaModels.FromContent(replies[0].content, decode, validRoutes) == Failure(ValidationError(errs))
    ensures RequestFeedData(feedId, retries, replies, decode, validRoutes)
      == RecursiveRetry.Run(RecursiveRetry.Done(Failure(ValidationError(errs))), 1, 0)
  {
    assert !RecursiveRetry.Retried(replies[0], FromContent(decode, validRoutes));
  }

  /** A decode failure with `retries == 0` is re-raised after one GET and no sleep. */
  lemma ZeroRetriesReraises(feedId: int, replies: seq<Response>, decode: Bytes -> Parse, validRoutes: set<string>)
    requires feedId in LegacyCatalog.ValidFeedIds && replies != [] && replies[0].Reply?
    requires decode(replies[0].content).Malformed?
    ensures RequestFeedData(feedId, 0, replies, decode, validRoutes)
      == RecursiveRetry.Run(RecursiveRetry.Done(Failure(DecodeError)), 1, 0)
  {
    RecursiveRetry.NoRetries(LegacyCatalog.ValidFeedIds, feedId, replies, FromContent(decode, validRoutes));
  }

  /**
   * With `retries = n >= 0` and n + 1 payloads that do not decode, there are
   * n + 1 GETs and n sleeps before the last DecodeError is re-raised.
   */
  lemma BudgetExhausted(feedId: int, n: nat, replies: seq<Response>, decode: Bytes -> Parse, validRoutes: set<string>)
    requires feedId in LegacyCatalog.ValidFeedIds && n < |replies|
    requires forall k :: 0 <= k <= n ==> replies[k].Reply? && decode(replies[k].content).Malformed?
    ensures RequestFeedData(feedId, n, replies, decode, validRoutes)
      == RecursiveRetry.Run(RecursiveRetry.Done(Failure(DecodeError)), n + 1, n)
  {
    var load := FromContent(decode, validRoutes);
    forall k | 0 <= k <= n ensures RecursiveRetry.Retried(replies[k], load) {
      assert load(replies[k].content) == Failure(DecodeError);
    }
    RecursiveRetry.AllFail(LegacyCatalog.ValidFeedIds, feedId, n, replies, load);
    assert load(replies[n].content) == Failure(DecodeError);
  }

  /**
   * A negative `retries` keeps retrying payloads that do not decode: after any
   * number of them the function has neither returned nor raised on its own
   * account (the interpreter's recursion limit is not modelled).
   */
  lemma NegativeRetriesUnbounded(feedId: int, retries: int, replies: seq<Response>, decode: Bytes -> Parse,
                                 validRoutes: set<string>)
    requires feedId in LegacyCatalog.ValidFeedIds && retries < 0
    requires forall k :: 0 <= k < |replies| ==> replies[k].Reply? && decode(replies[k].content).Malformed?
    ensures RequestFeedData(feedId, retries, replies, decode, validRoutes)
      == RecursiveRetry.Run(RecursiveRetry.Unfinished, |replies|, |replies|)
  {
    var load := FromContent(decode, validRoutes);
    forall k | 0 <= k < |replies| ensures RecursiveRetry.Retried(replies[k], load) {
      assert load(replies[k].content) == Failure(DecodeError);
    }
    RecursiveRetry.NegativeNeverGivesUp(LegacyCatalog.ValidFeedIds, feedId, retries, replies, load);
  }

  /**
   * The first payload that decodes to a valid feed ends the run, and the feed
   * is returned unchanged, after k + 1 GETs and k sleeps.
   */
  lemma FeedReturnedUnchanged(feedId: int, retries: int, k: nat, replies: seq<Response>, decode: Bytes -> Parse,
                              validRoutes: set<string>, f: Feed)
    requires feedId in LegacyCatalog.ValidFeedIds && k < |replies|
    requires retries < 0 || k <= retries
    requires forall j :: 0 <= j < k ==> replies[j].Reply? && decode(replies[j].content).Malformed?
    requires replies[k].Reply? && decode(replies[k].content) == Parsed(FeedDict(Some(f.header), Some(f.entity)))
    requires Validation.WellFormed(f, Validation.StrictSchema(validRoutes))
    ensures RequestFeedData(feedId, retries, replies, decode, validRoutes)
      == RecursiveRetry.Run(RecursiveRetry.Done(Success(f)), k + 1, k)
  {
    var load := FromContent(decode, validRoutes);
    forall j | 0 <= j < k ensures RecursiveRetry.Retried(replies[j], load) {
      assert load(replies[j].content) == Failure(DecodeError);
    }
    MtaModels.FromContentValid(replies[k].content, decode, validRoutes, f);
    RecursiveRetry.FirstSuccess(LegacyCatalog.ValidFeedIds, feedId, retries, k, replies, load);
  }

  /**
   * `get_stops`: `request_feed_data(...).extract_stop_dict()`. A fetched feed
   * is valid, so every stop has its departure and the grouping cannot fail;
   * errors and an unfinished retry pass through unchanged.
   */
  function GetStops(feedId: int, retries: int, replies: seq<Response>, decode: Bytes -> Parse,
                    validRoutes: set<string>): (o: RecursiveRetry.Outcome<StopDict>)
    ensures
      var run := RequestFeedData(feedId, retries, replies, decode, validRoutes);
      (run.outcome.Unfinished? <==> o.Unfinished?) &&
      (run.outcome.Done? && run.outcome.result.Failure? ==> o == RecursiveRetry.Done(Failure(run.outcome.result.error))) &&
      (run.outcome.Done? && run.outcome.result.Success? ==>
        LegacyModels.Departing(Models.TripUpdates(run.outcome.result.value.entity)) &&
        o == RecursiveRetry.Done(Success(Grouped(LegacyModels.Flatten(run.outcome.result.value.entity)))))
  {
    var run := RequestFeedData(feedId, retries, replies, decode, validRoutes);
    match run.outcome
    case Unfinished => RecursiveRetry.Unfinished
    case Done(Failure(e)) => RecursiveRetry.Done(Failure(e))
    case Done(Success(f)) =>
      LegacyModels.WellFormedDeparting(f, validRoutes);
      RecursiveRetry.Done(Success(Grouped(LegacyModels.Flatten(f.entity))))
  }

  /**
   * Each departure of a fetched feed is listed exactly under its raw route and
   * stop: a (route, stop, time) is in the result when and only when some stop
   * entry of a trip update of that route carries it.
   */
  lemma GetStopsMembership(feedId: int, retries: int, replies: seq<Response>, decode: Bytes -> Parse,
                           validRoutes: set<string>, route: string, stop: string, t: int)
    requires GetStops(feedId, retries, replies, decode, validRoutes).Done?
    requires GetStops(feedId, retries, replies, decode, validRoutes).result.Success?
    ensures
      var f := RequestFeedData(feedId, retries, replies, decode, validRoutes).outcome.result.value;
      var g := GetStops(feedId, retries, replies, decode, validRoutes).result.value;
      (route in g && stop in g[route] && t in g[route][stop]) <==>
        exists i, j :: LegacyModels.Yields(f.entity, i, j, StopTime(route, stop, t))
  {
    var f := RequestFeedData(feedId, retries, replies, decode, validRoutes).outcome.result.value;
    LegacyModels.WellFormedDeparting(f, validRoutes);
    GroupedMembership(LegacyModels.Flatten(f.entity), route, stop, t);
    LegacyModels.FlattenMembership(f.entity, StopTime(route, stop, t));
  }
}
