/**
 * What the fetch functions of every version share: the HTTP reply, the
 * decoding of a payload into a feed dictionary with its emptiness check
 * (`load_protobuf`, `parse_feed_data`, the first half of `from_content`),
 * `raise_for_status`, the API-key fallback, and the errors they raise.
 * `requests.get` and the protobuf decoder are not modelled: a reply and a
 * decoding are given to these functions as values.
 */
module Transport {
  import opened Wrappers
  import opened Gtfs
  import Validation

  /** A payload, as served. */
  type Bytes = seq<bv8>

  /** What `requests.get` gives: a reply with its status code and body, or a failure to connect. */
  datatype Response = Reply(status: int, content: Bytes) | ConnectionFailure

  /**
   * What `FeedMessage.ParseFromString` followed by `protobuf_to_dict` makes of
   * a payload: the feed dictionary, or a DecodeError.
   */
  datatype Parse = Parsed(dict: FeedDict) | Malformed

  /** The exceptions the fetch functions raise. */
  datatype FeedError =
    | UnknownRouteOrUrl(routeOrUrl: string)
    | InvalidFeedId(feedId: int)
    | MissingApiKey
    | HttpError(status: int)
    | ConnectionError
    | EmptyFeed
    | DecodeError
    | UnboundFeedDict
    | ValidationError(errors: set<Validation.FieldError>)
    | MissingKey(key: string)

  /** The two exceptions the retry loops catch: EmptyFeedError (GTFSEmptyError) and DecodeError. */
  predicate Retryable(e: FeedError)
  {
    e.EmptyFeed? || e.DecodeError?
  }

  /**
   * `load_protobuf`: decode the payload, and raise EmptyFeedError when the
   * dictionary is empty or has no "entity" key.
   */
  function LoadProtobuf(content: Bytes, decode: Bytes -> Parse): (r: Result<FeedDict, FeedError>)
    ensures r.Success? <==> decode(content).Parsed? && decode(content).dict.entity.Some?
    ensures r.Success? ==> r.value == decode(content).dict
    ensures r.Failure? ==> Retryable(r.error)
    ensures decode(content).Malformed? ==> r == Failure(DecodeError)
  {
    match decode(content)
    case Malformed => Failure(DecodeError)
    case Parsed(d) => if d.IsEmpty() || d.entity.None? then Failure(EmptyFeed) else Success(d)
  }

  /**
   * A dictionary with a header but no entity list is refused like an empty one:
   * the `not feed_dict` test adds nothing to the "entity" test.
   */
  lemma LoadProtobufNoEntity(content: Bytes, decode: Bytes -> Parse)
    requires decode(content).Parsed? && decode(content).dict.entity.None?
    ensures LoadProtobuf(content, decode) == Failure(EmptyFeed)
    ensures decode(content).dict.IsEmpty() ==> LoadProtobuf(content, decode) == Failure(EmptyFeed)
  {
  }

  /** `res.raise_for_status()`: a 4xx or 5xx status raises HTTPError; a failed connection raises too. */
  function RaiseForStatus(response: Response): (r: Result<Bytes, FeedError>)
    ensures r.Success? <==> response.Reply? && !(400 <= response.status < 600)
    ensures r.Success? ==> r.value == response.content
    ensures response.Reply? && 400 <= response.status < 600 ==> r == Failure(HttpError(response.status))
    ensures response.ConnectionFailure? ==> r == Failure(ConnectionError)
  {
    match response
    case ConnectionFailure => Failure(ConnectionError)
    case Reply(status, content) =>
      if 400 <= status < 600 then Failure(HttpError(status)) else Success(content)
  }

  /**
   * `api_key or os.getenv("MTA_API_KEY", None)`, then the ValueError when
   * that is None: an explicit key is used only when it is a non-empty string,
   * and an environment variable that is set to "" is still used.
   */
  function ApiKey(explicit: Option<string>, env: Option<string>): (r: Result<string, FeedError>)
    ensures r.Failure? <==> (explicit.None? || explicit.value == "") && env.None?
    ensures r.Failure? ==> r.error == MissingApiKey
    ensures r.Success? ==> (explicit.Some? && r.value == explicit.value) || (env.Some? && r.value == env.value)
    ensures explicit.Some? && explicit.value != "" ==> r == Success(explicit.value)
  {
    if explicit.Some? && explicit.value != "" then Success(explicit.value)
    else if env.Some? then Success(env.value)
    else Failure(MissingApiKey)
  }

  /** A non-empty explicit key takes precedence over the environment, whatever it holds. */
  lemma ApiKeyPrecedence(key: string, env: Option<string>)
    requires key != ""
    ensures ApiKey(Some(key), env) == Success(key)
    ensures ApiKey(Some(""), env) == ApiKey(None, env)
  {
  }
}
