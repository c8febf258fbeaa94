/**
 * The fetch functions of the older package (underground/feed.py): `request`
 * checks the integer feed id, picks the API key and sends the GET to the
 * datamine endpoint; `request_robust` wraps it in the bounded retry loop.
 * `SubwayFeed.get` (underground/models.py) validates what the loop decodes.
 *
 * `get(feedId, key, k)` is the reply to the k-th GET of the endpoint with the
 * query parameters `key` and `feed_id`; the network itself is not modelled.
 */
module LegacyFeed {
  import opened Wrappers
  import opened Gtfs
  import opened Transport
  import LegacyCatalog
  import Retry
  import Validation

  /**
   * `request`: the ValueError for a feed id outside VALID_FEED_IDS, then the
   * missing-key ValueError, then the reply through `raise_for_status`.
   */
  function Request(feedId: int, apiKey: Option<string>, env: Option<string>,
                   get: (int, string) -> Response): (r: Result<Bytes, FeedError>)
    ensures feedId !in LegacyCatalog.ValidFeedIds ==> r == Failure(InvalidFeedId(feedId))
    ensures feedId in LegacyCatalog.ValidFeedIds && ApiKey(apiKey, env).Failure? ==> r == Failure(MissingApiKey)
    ensures feedId in LegacyCatalog.ValidFeedIds && ApiKey(apiKey, env).Success? ==>
      r == RaiseForStatus(get(feedId, ApiKey(apiKey, env).value))
  {
    if feedId !in LegacyCatalog.ValidFeedIds then Failure(InvalidFeedId(feedId))
    else
      match ApiKey(apiKey, env)
      case Failure(e) => Failure(e)
      case Success(key) => RaiseForStatus(get(feedId, key))
  }

  /** The k-th call of `request` made by `request_robust`. */
  function Requests(feedId: int, apiKey: Option<string>, env: Option<string>,
                    get: (int, string, nat) -> Response): nat -> Result<Bytes, FeedError>
  {
    (k: nat) => Request(feedId, apiKey, env, (id, key) => get(id, key, k))
  }

  /** `request_robust(feed_id, retries, api_key, return_dict)`. */
  method RequestRobust(feedId: int, retries: int, apiKey: Option<string>, env: Option<string>,
                       get: (int, string, nat) -> Response, decode: Bytes -> Parse, returnDict: bool)
    returns (r: Result<Retry.Payload, FeedError>, ghost requests: nat, ghost sleeps: nat)
    ensures r == Retry.RequestRobust(Requests(feedId, apiKey, env, get), decode, retries, returnDict).result
    ensures requests == Retry.RequestRobust(Requests(feedId, apiKey, env, get), decode, retries, returnDict).requests
    ensures sleeps == Retry.RequestRobust(Requests(feedId, apiKey, env, get), decode, retries, returnDict).sleeps
    ensures requests <= 1 ==> sleeps == 0
  {
    r, requests, sleeps := Retry.RequestRobustLoop(Requests(feedId, apiKey, env, get), decode, retries, returnDict);
  }

  /**
   * A feed id outside VALID_FEED_IDS fails at once, before the key is looked
   * up and before any reply is read.
   */
  lemma InvalidFeedIdFailsFirst(feedId: int, retries: int, apiKey: Option<string>, env: Option<string>,
                                get: (int, string, nat) -> Response, decode: Bytes -> Parse, returnDict: bool)
    requires feedId !in LegacyCatalog.ValidFeedIds
    ensures Retry.RequestRobust(Requests(feedId, apiKey, env, get), decode, retries, returnDict)
      == Retry.Run(Failure(InvalidFeedId(feedId)), 1, 0)
  {
    Retry.RequestErrorNotRetried(Requests(feedId, apiKey, env, get), decode, retries, 0, returnDict);
  }

  /** Feed 3 is not a feed, while 1 is. */
  lemma FeedIdExamples(apiKey: Option<string>, env: Option<string>, get: (int, string) -> Response)
    ensures Request(3, apiKey, env, get) == Failure(InvalidFeedId(3))
    ensures ApiKey(apiKey, env).Success? ==> Request(1, apiKey, env, get) == RaiseForStatus(get(1, ApiKey(apiKey, env).value))
  {
    LegacyCatalog.ValidFeedIdsValue();
  }

  /** No explicit key and no environment variable: the ValueError, before any reply is read. */
  lemma MissingKeyFails(feedId: int, retries: int, get: (int, string, nat) -> Response,
                        decode: Bytes -> Parse, returnDict: bool)
    requires feedId in LegacyCatalog.ValidFeedIds
    ensures Retry.RequestRobust(Requests(feedId, None, None, get), decode, retries, returnDict)
      == Retry.Run(Failure(MissingApiKey), 1, 0)
  {
    Retry.RequestErrorNotRetried(Requests(feedId, None, None, get), decode, retries, 0, returnDict);
  }

  /**
   * `SubwayFeed.get`: `request_robust` with `return_dict=True`, then the
   * older models' validation of the dictionary (VALID_ROUTES is `validRoutes`).
   */
  function Get(feedId: int, retries: int, apiKey: Option<string>, env: Option<string>,
               get: (int, string, nat) -> Response, decode: Bytes -> Parse, validRoutes: set<string>): (r: Result<Feed, FeedError>)
    ensures r.Success? ==> Validation.WellFormed(r.value, Validation.StrictSchema(validRoutes))
    ensures r.Success? ==>
      var run := Retry.RequestRobust(Requests(feedId, apiKey, env, get), decode, retries, true);
      run.result.Success? && run.result.value == Retry.FeedData(FeedDict(Some(r.value.header), Some(r.value.entity)))
    ensures
      var run := Retry.RequestRobust(Requests(feedId, apiKey, env, get), decode, retries, true);
      run.result.Failure? ==> r == Failure(run.result.error)
    ensures
      var run := Retry.RequestRobust(Requests(feedId, apiKey, env, get), decode, retries, true);
      run.result.Success? ==>
        var c := Validation.Construct(run.result.value.dict, Validation.StrictSchema(validRoutes));
        (c.Success? ==> r == Success(c.value)) && (c.Failure? ==> r == Failure(ValidationError(c.error)))
  {
    var run := Retry.RequestRobust(Requests(feedId, apiKey, env, get), decode, retries, true);
    match run.result
    case Failure(e) => Failure(e)
    case Success(payload) =>
      match Validation.Construct(payload.dict, Validation.StrictSchema(validRoutes))
      case Failure(errs) => Failure(ValidationError(errs))
      case Success(f) => Success(f)
  }

  /**
   * When the k-th payload (k <= retries) is the first to decode, and it
   * decodes to a valid feed, `SubwayFeed.get` returns exactly that feed.
   */
  lemma GetFirstValid(feedId: int, retries: int, k: nat, apiKey: Option<string>, env: Option<string>,
                      get: (int, string, nat) -> Response, decode: Bytes -> Parse, validRoutes: set<string>, f: Feed)
    requires k <= retries
    requires forall j :: 0 <= j < k ==>
      Requests(feedId, apiKey, env, get)(j).Success? &&
      LoadProtobuf(Requests(feedId, apiKey, env, get)(j).value, decode).Failure?
    requires Requests(feedId, apiKey, env, get)(k).Success?
    requires decode(Requests(feedId, apiKey, env, get)(k).value) == Parsed(FeedDict(Some(f.header), Some(f.entity)))
    requires Validation.WellFormed(f, Validation.StrictSchema(validRoutes))
    ensures Get(feedId, retries, apiKey, env, get, decode, validRoutes) == Success(f)
  {
    var request := Requests(feedId, apiKey, env, get);
    Retry.FirstSuccess(request, decode, retries, k, true);
  }

  /** `SubwayFeed.get` with an invalid feed id raises the ValueError of `request`. */
  lemma GetInvalidFeedId(feedId: int, retries: int, apiKey: Option<string>, env: Option<string>,
                         get: (int, string, nat) -> Response, decode: Bytes -> Parse, validRoutes: set<string>)
    requires feedId !in LegacyCatalog.ValidFeedIds
    ensures Get(feedId, retries, apiKey, env, get, decode, validRoutes) == Failure(InvalidFeedId(feedId))
  {
    InvalidFeedIdFailsFirst(feedId, retries, apiKey, env, get, decode, true);
  }

  /**
   * With a negative `retries` the loop decodes nothing, so `SubwayFeed.get`
   * can never return a feed.
   */
  lemma GetNegativeRetries(feedId: int, retries: int, apiKey: Option<string>, env: Option<string>,
                           get: (int, string, nat) -> Response, decode: Bytes -> Parse, validRoutes: set<string>)
    requires retries < 0
    ensures Get(feedId, retries, apiKey, env, get, decode, validRoutes).Failure?
  {
    Retry.NegativeRetries(Requests(feedId, apiKey, env, get), decode, decode, retries, true);
  }
}
