/**
 * The fetch functions of the current package (src/underground/feed.py):
 * `request` resolves the route or URL, picks the API key and sends the GET;
 * `request_robust` wraps it in the bounded retry loop.
 *
 * `get(url, key, k)` is the reply to the k-th GET of `url` with the header
 * `x-api-key: key`; the network itself is not modelled.
 */
module Feed {
  import opened Wrappers
  import opened Transport
  import Catalog
  import Retry

  /**
   * `request`: UnknownRouteOrURL for an input that is no route, feed URL or
   * "BUS"; then the missing-key ValueError; then the reply from the resolved
   * URL with the chosen key, through `raise_for_status`.
   */
  function Request(routeOrUrl: string, apiKey: Option<string>, env: Option<string>,
                   get: (string, string) -> Response): (r: Result<Bytes, FeedError>)
    ensures Catalog.ResolveUrl(routeOrUrl).Failure? ==> r == Failure(UnknownRouteOrUrl(routeOrUrl))
    ensures Catalog.ResolveUrl(routeOrUrl).Success? && ApiKey(apiKey, env).Failure? ==> r == Failure(MissingApiKey)
    ensures Catalog.ResolveUrl(routeOrUrl).Success? && ApiKey(apiKey, env).Success? ==>
      r == RaiseForStatus(get(Catalog.ResolveUrl(routeOrUrl).value, ApiKey(apiKey, env).value))
  {
    match Catalog.ResolveUrl(routeOrUrl)
    case Failure(_) => Failure(UnknownRouteOrUrl(routeOrUrl))
    case Success(url) =>
      match ApiKey(apiKey, env)
      case Failure(e) => Failure(e)
      case Success(key) => RaiseForStatus(get(url, key))
  }

  /** The k-th call of `request` made by `request_robust`. */
  function Requests(routeOrUrl: string, apiKey: Option<string>, env: Option<string>,
                    get: (string, string, nat) -> Response): nat -> Result<Bytes, FeedError>
  {
    (k: nat) => Request(routeOrUrl, apiKey, env, (url, key) => get(url, key, k))
  }

  /** `request_robust(route_or_url, retries, api_key, return_dict)`. */
  method RequestRobust(routeOrUrl: string, retries: int, apiKey: Option<string>, env: Option<string>,
                       get: (string, string, nat) -> Response, decode: Bytes -> Parse, returnDict: bool)
    returns (r: Result<Retry.Payload, FeedError>, ghost requests: nat, ghost sleeps: nat)
    ensures r == Retry.RequestRobust(Requests(routeOrUrl, apiKey, env, get), decode, retries, returnDict).result
    ensures requests == Retry.RequestRobust(Requests(routeOrUrl, apiKey, env, get), decode, retries, returnDict).requests
    ensures sleeps == Retry.RequestRobust(Requests(routeOrUrl, apiKey, env, get), decode, retries, returnDict).sleeps
    ensures requests <= 1 ==> sleeps == 0
  {
    r, requests, sleeps := Retry.RequestRobustLoop(Requests(routeOrUrl, apiKey, env, get), decode, retries, returnDict);
  }

  /**
   * An unknown route fails at once, before the key is looked up and before
   * any reply is read: the result does not depend on `get`, `env` or `decode`.
   */
  lemma UnknownRouteFailsFirst(routeOrUrl: string, retries: int, apiKey: Option<string>, env: Option<string>,
                               get: (string, string, nat) -> Response, decode: Bytes -> Parse, returnDict: bool)
    requires Catalog.ResolveUrl(routeOrUrl).Failure?
    ensures Retry.RequestRobust(Requests(routeOrUrl, apiKey, env, get), decode, retries, returnDict)
      == Retry.Run(Failure(UnknownRouteOrUrl(routeOrUrl)), 1, 0)
  {
    Retry.RequestErrorNotRetried(Requests(routeOrUrl, apiKey, env, get), decode, retries, 0, returnDict);
  }

  /** No explicit key and no environment variable: the ValueError, before any reply is read. */
  lemma MissingKeyFails(routeOrUrl: string, retries: int, env: Option<string>,
                        get: (string, string, nat) -> Response, decode: Bytes -> Parse, returnDict: bool)
    requires Catalog.ResolveUrl(routeOrUrl).Success? && env.None?
    ensures Retry.RequestRobust(Requests(routeOrUrl, None, env, get), decode, retries, returnDict)
      == Retry.Run(Failure(MissingApiKey), 1, 0)
    ensures Retry.RequestRobust(Requests(routeOrUrl, Some(""), env, get), decode, retries, returnDict)
      == Retry.Run(Failure(MissingApiKey), 1, 0)
  {
    Retry.RequestErrorNotRetried(Requests(routeOrUrl, None, env, get), decode, retries, 0, returnDict);
    Retry.RequestErrorNotRetried(Requests(routeOrUrl, Some(""), env, get), decode, retries, 0, returnDict);
  }

  /** A 4xx or 5xx reply to the first GET is raised, not retried. */
  lemma HttpErrorNotRetried(routeOrUrl: string, retries: int, apiKey: Option<string>, env: Option<string>,
                            get: (string, string, nat) -> Response, decode: Bytes -> Parse, returnDict: bool)
    requires Catalog.ResolveUrl(routeOrUrl).Success? && ApiKey(apiKey, env).Success?
    requires var reply := get(Catalog.ResolveUrl(routeOrUrl).value, ApiKey(apiKey, env).value, 0);
      reply.Reply? && 400 <= reply.status < 600
    ensures Retry.RequestRobust(Requests(routeOrUrl, apiKey, env, get), decode, retries, returnDict)
      == Retry.Run(Failure(HttpError(get(Catalog.ResolveUrl(routeOrUrl).value, ApiKey(apiKey, env).value, 0).status)), 1, 0)
  {
    Retry.RequestErrorNotRetried(Requests(routeOrUrl, apiKey, env, get), decode, retries, 0, returnDict);
  }

  /** An unknown route such as "INVALID_ROUTE" raises UnknownRouteOrURL. */
  lemma InvalidRouteExample(retries: int, apiKey: Option<string>, env: Option<string>,
                            get: (string, string, nat) -> Response, decode: Bytes -> Parse, returnDict: bool)
    ensures Retry.RequestRobust(Requests("INVALID_ROUTE", apiKey, env, get), decode, retries, returnDict).result
      == Failure(UnknownRouteOrUrl("INVALID_ROUTE"))
  {
    Catalog.ResolveUrlOfUnknown();
    UnknownRouteFailsFirst("INVALID_ROUTE", retries, apiKey, env, get, decode, returnDict);
  }
}
