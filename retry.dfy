/**
 * The bounded retry loop of `request_robust` (src/underground/feed.py and
 * underground/feed.py): request once, then try to decode up to `retries + 1`
 * times, sleeping and requesting again after every failure but the last.
 *
 * The requests are an oracle: `request(k)` is what the k-th call of `request`
 * (counting from 0) returns. Sleeps are counted, not performed.
 */
module Retry {
  import opened Wrappers
  import opened Gtfs
  import opened Transport

  /** What `request_robust` returns: the decoded dictionary or the payload that decoded. */
  datatype Payload = FeedData(dict: FeedDict) | RawBytes(content: Bytes)

  /** A run of the loop: its result, and how many requests and sleeps it made. */
  datatype Run = Run(result: Result<Payload, FeedError>, requests: nat, sleeps: nat)

  /** The value returned once `data` has decoded to `d`. */
  function Returned(d: FeedDict, data: Bytes, returnDict: bool): (p: Payload)
    ensures returnDict <==> p.FeedData?
  {
    if returnDict then FeedData(d) else RawBytes(data)
  }

  /**
   * The loop from iteration `attempt` on, holding the payload `data` of the
   * `attempt`-th request; the counts are those of the requests and sleeps still to come.
   */
  function Attempts(request: nat -> Result<Bytes, FeedError>, decode: Bytes -> Parse,
                    retries: nat, attempt: nat, data: Bytes, returnDict: bool): (run: Run)
    requires attempt <= retries
    ensures run.requests == run.sleeps <= retries - attempt
    ensures run.result.Success? ==> (run.result.value.FeedData? <==> returnDict)
    decreases retries - attempt
  {
    match LoadProtobuf(data, decode)
    case Success(d) => Run(Success(Returned(d, data, returnDict)), 0, 0)
    case Failure(e) =>
      if attempt == retries then Run(Failure(e), 0, 0)
      else match request(attempt + 1)
        case Failure(e') => Run(Failure(e'), 1, 1)
        case Success(next) =>
          var rest := Attempts(request, decode, retries, attempt + 1, next, returnDict);
          Run(rest.result, rest.requests + 1, rest.sleeps + 1)
  }

  /**
   * `request_robust`: the first request, then the loop. With a negative
   * `retries` the loop runs no iteration, so nothing is decoded: the bytes
   * are returned as they are, and asking for the dictionary fails on the
   * unbound `feed_dict`.
   */
  function RequestRobust(request: nat -> Result<Bytes, FeedError>, decode: Bytes -> Parse,
                         retries: int, returnDict: bool): (run: Run)
    ensures 1 <= run.requests && run.sleeps == run.requests - 1
    ensures retries >= 0 ==> run.requests <= retries + 1
    ensures retries < 0 ==> run.requests == 1
    ensures run.result.Success? ==> (run.result.value.FeedData? <==> returnDict)
  {
    match request(0)
    case Failure(e) => Run(Failure(e), 1, 0)
    case Success(data) =>
      if retries < 0 then
        Run(if returnDict then Failure(UnboundFeedDict) else Success(RawBytes(data)), 1, 0)
      else
        var rest := Attempts(request, decode, retries, 0, data, returnDict);
        Run(rest.result, rest.requests + 1, rest.sleeps)
  }

  /** `rest` preceded by `requests` requests and `sleeps` sleeps already made. */
  function After(rest: Run, requests: nat, sleeps: nat): (run: Run)
    ensures run.result == rest.result
    ensures run.requests - rest.requests == requests && run.sleeps - rest.sleeps == sleeps
  {
    Run(rest.result, rest.requests + requests, rest.sleeps + sleeps)
  }

  /** The `for attempt in range(retries + 1)` loop, with its `break` on success. */
  method RequestRobustLoop(request: nat -> Result<Bytes, FeedError>, decode: Bytes -> Parse,
                           retries: int, returnDict: bool)
    returns (r: Result<Payload, FeedError>, ghost requests: nat, ghost sleeps: nat)
    ensures r == RequestRobust(request, decode, retries, returnDict).result
    ensures requests == RequestRobust(request, decode, retries, returnDict).requests
    ensures sleeps == RequestRobust(request, decode, retries, returnDict).sleeps
  {
    requests, sleeps := 1, 0;
    var first := request(0);
    if first.Failure? {
      return Failure(first.error), requests, sleeps;
    }
    var data := first.value;
    var feedDict: Option<FeedDict> := None;
    var attempt := 0;
    while attempt < retries + 1
      invariant 0 <= attempt && requests == attempt + 1 && sleeps == attempt
      invariant feedDict.None?
      invariant retries < 0 ==> attempt == 0 && data == first.value
      invariant retries >= 0 ==> attempt <= retries
      invariant retries >= 0 ==>
        RequestRobust(request, decode, retries, returnDict) ==
        After(Attempts(request, decode, retries, attempt, data, returnDict), requests, sleeps)
      decreases retries + 1 - attempt
    {
      var loaded := LoadProtobuf(data, decode);
      if loaded.Success? {
        feedDict := Some(loaded.value);
        break;
      }
      if attempt == retries {
        return Failure(loaded.error), requests, sleeps;
      }
      sleeps := sleeps + 1;
      var next := request(attempt + 1);
      requests := requests + 1;
      if next.Failure? {
        return Failure(next.error), requests, sleeps;
      }
      data := next.value;
      attempt := attempt + 1;
    }
    if returnDict {
      if feedDict.None? {
        return Failure(UnboundFeedDict), requests, sleeps;
      }
      r := Success(FeedData(feedDict.value));
    } else {
      r := Success(RawBytes(data));
    }
  }

  /** Every request from the `attempt`-th to the `n`-th returns a payload that fails to decode. */
  lemma {:induction false} AttemptsAllFail(request: nat -> Result<Bytes, FeedError>, decode: Bytes -> Parse,
                                           n: nat, attempt: nat, returnDict: bool)
    requires attempt <= n
    requires forall k :: attempt <= k <= n ==> request(k).Success? && LoadProtobuf(request(k).value, decode).Failure?
    ensures Attempts(request, decode, n, attempt, request(attempt).value, returnDict) ==
      Run(Failure(LoadProtobuf(request(n).value, decode).error), n - attempt, n - attempt)
    decreases n - attempt
  {
    if attempt < n {
      AttemptsAllFail(request, decode, n, attempt + 1, returnDict);
    }
  }

  /**
   * With `retries = n >= 0` and no payload decoding, there are n + 1 requests
   * and n sleeps, and the last payload's EmptyFeedError or DecodeError is raised.
   */
  lemma AllFail(request: nat -> Result<Bytes, FeedError>, decode: Bytes -> Parse, n: nat, returnDict: bool)
    requires forall k :: 0 <= k <= n ==> request(k).Success? && LoadProtobuf(request(k).value, decode).Failure?
    ensures RequestRobust(request, decode, n, returnDict) ==
      Run(Failure(LoadProtobuf(request(n).value, decode).error), n + 1, n)
    ensures Retryable(RequestRobust(request, decode, n, returnDict).result.error)
  {
    AttemptsAllFail(request, decode, n, 0, returnDict);
  }

  /** From the `attempt`-th request, the first payload to decode is the k-th. */
  lemma {:induction false} AttemptsFirstSuccess(request: nat -> Result<Bytes, FeedError>, decode: Bytes -> Parse,
                                                retries: nat, attempt: nat, k: nat, returnDict: bool)
    requires attempt <= k <= retries
    requires forall j :: attempt <= j < k ==> request(j).Success? && LoadProtobuf(request(j).value, decode).Failure?
    requires request(attempt).Success? && request(k).Success?
    requires LoadProtobuf(request(k).value, decode).Success?
    ensures Attempts(request, decode, retries, attempt, request(attempt).value, returnDict) ==
      Run(Success(Returned(LoadProtobuf(request(k).value, decode).value, request(k).value, returnDict)),
          k - attempt, k - attempt)
    decreases k - attempt
  {
    if attempt < k {
      AttemptsFirstSuccess(request, decode, retries, attempt + 1, k, returnDict);
    }
  }

  /**
   * If the k-th payload (k <= retries) is the first to decode, there are k + 1
   * requests and k sleeps, and the loop returns that payload's dictionary or bytes.
   */
  lemma FirstSuccess(request: nat -> Result<Bytes, FeedError>, decode: Bytes -> Parse,
                     retries: int, k: nat, returnDict: bool)
    requires k <= retries
    requires forall j :: 0 <= j < k ==> request(j).Success? && LoadProtobuf(request(j).value, decode).Failure?
    requires request(k).Success? && LoadProtobuf(request(k).value, decode).Success?
    ensures RequestRobust(request, decode, retries, returnDict) ==
      Run(Success(Returned(LoadProtobuf(request(k).value, decode).value, request(k).value, returnDict)), k + 1, k)
  {
    AttemptsFirstSuccess(request, decode, retries, 0, k, returnDict);
  }

  /** From the `attempt`-th request, the k-th request is the first to fail. */
  lemma {:induction false} AttemptsRequestError(request: nat -> Result<Bytes, FeedError>, decode: Bytes -> Parse,
                                                retries: nat, attempt: nat, k: nat, returnDict: bool)
    requires attempt < k <= retries
    requires forall j :: attempt <= j < k ==> request(j).Success? && LoadProtobuf(request(j).value, decode).Failure?
    requires request(k).Failure?
    ensures Attempts(request, decode, retries, attempt, request(attempt).value, returnDict) ==
      Run(Failure(request(k).error), k - attempt, k - attempt)
    decreases k - attempt
  {
    if attempt + 1 < k {
      AttemptsRequestError(request, decode, retries, attempt + 1, k, returnDict);
    }
  }

  /**
   * An error raised by `request` itself (HTTP status, unknown route, missing
   * key) is not retried: the k-th request failing ends the run with its error,
   * after k + 1 requests and k sleeps.
   */
  lemma RequestErrorNotRetried(request: nat -> Result<Bytes, FeedError>, decode: Bytes -> Parse,
                               retries: int, k: nat, returnDict: bool)
    requires k == 0 || k <= retries
    requires forall j :: 0 <= j < k ==> request(j).Success? && LoadProtobuf(request(j).value, decode).Failure?
    requires request(k).Failure?
    ensures RequestRobust(request, decode, retries, returnDict) == Run(Failure(request(k).error), k + 1, k)
  {
    if 0 < k {
      AttemptsRequestError(request, decode, retries, 0, k, returnDict);
    }
  }

  /**
   * A negative `retries`, documented as "unlimited", makes one request and
   * decodes nothing: the result does not depend on the decoder, and asking for
   * the dictionary always fails.
   */
  lemma NegativeRetries(request: nat -> Result<Bytes, FeedError>, decode: Bytes -> Parse,
                        other: Bytes -> Parse, retries: int, returnDict: bool)
    requires retries < 0
    ensures RequestRobust(request, decode, retries, returnDict) == RequestRobust(request, other, retries, returnDict)
    ensures RequestRobust(request, decode, retries, returnDict).requests == 1
    ensures RequestRobust(request, decode, retries, true).result.Failure?
    ensures request(0).Success? ==>
      RequestRobust(request, decode, retries, false).result == Success(RawBytes(request(0).value))
  {
  }

  /**
   * From any iteration, asking for the dictionary gives the decoding of the
   * bytes that asking for the payload gives, with the same requests and sleeps.
   */
  lemma {:induction false} AttemptsReturnDict(request: nat -> Result<Bytes, FeedError>, decode: Bytes -> Parse,
                                              retries: nat, attempt: nat, data: Bytes)
    requires attempt <= retries
    ensures
      var bytes := Attempts(request, decode, retries, attempt, data, false);
      var dict := Attempts(request, decode, retries, attempt, data, true);
      bytes.requests == dict.requests && bytes.sleeps == dict.sleeps &&
      (bytes.result.Failure? ==> dict.result == bytes.result) &&
      (bytes.result.Success? ==>
        LoadProtobuf(bytes.result.value.content, decode).Success? &&
        dict.result == Success(FeedData(LoadProtobuf(bytes.result.value.content, decode).value)))
    decreases retries - attempt
  {
    if LoadProtobuf(data, decode).Failure? && attempt < retries && request(attempt + 1).Success? {
      AttemptsReturnDict(request, decode, retries, attempt + 1, request(attempt + 1).value);
    }
  }

  /**
   * `return_dict=True` is `load_protobuf(request_robust(...))` when `retries >= 0`:
   * the bytes returned are ones that decode, to the dictionary returned
   * otherwise, and the requests and sleeps are the same.
   */
  lemma ReturnDictIsLoad(request: nat -> Result<Bytes, FeedError>, decode: Bytes -> Parse, retries: nat)
    ensures
      var bytes := RequestRobust(request, decode, retries, false);
      var dict := RequestRobust(request, decode, retries, true);
      bytes.requests == dict.requests && bytes.sleeps == dict.sleeps &&
      (bytes.result.Failure? ==> dict.result == bytes.result) &&
      (bytes.result.Success? ==>
        LoadProtobuf(bytes.result.value.content, decode).Success? &&
        dict.result == Success(FeedData(LoadProtobuf(bytes.result.value.content, decode).value)))
  {
    if request(0).Success? {
      AttemptsReturnDict(request, decode, retries, 0, request(0).value);
    }
  }
}
