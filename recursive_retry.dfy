/**
 * The recursive retry of `request_feed_data` (mta/mta.py and
 * underground/mta.py): check the feed id, send the GET, decode its body; on
 * EmptyFeedError or DecodeError, re-raise when `retries` is 0 and otherwise
 * sleep and call itself with `retries - 1`. A negative `retries` never
 * reaches 0, so the function retries for as long as decoding fails.
 *
 * The replies are an oracle: `replies` lists the answers to the GETs still to
 * come. When they run out while the function is still retrying, the run is
 * Unfinished: that is how a retry that never ends shows within any finite
 * number of replies. Sleeps are counted, not performed.
 */
module RecursiveRetry {
  import opened Wrappers
  import opened Transport

  /** How a run ends within the replies given: with a result, or still retrying. */
  datatype Outcome<T> = Done(result: Result<T, FeedError>) | Unfinished

  /** A run: its outcome, and how many GETs and sleeps it made. */
  datatype Run<T> = Run(outcome: Outcome<T>, requests: nat, sleeps: nat)

  /** What one reply gives once `load` has decoded its body; a failed connection raises at once. */
  function Answer<T>(reply: Response, load: Bytes -> Result<T, FeedError>): (r: Result<T, FeedError>)
    ensures reply.ConnectionFailure? ==> r == Failure(ConnectionError)
    ensures reply.Reply? ==> r == load(reply.content)
  {
    match reply
    case ConnectionFailure => Failure(ConnectionError)
    case Reply(_, content) => load(content)
  }

  /** The reply is retried: it came, and decoding its body raised EmptyFeedError or DecodeError. */
  predicate Retried<T>(reply: Response, load: Bytes -> Result<T, FeedError>)
  {
    Answer(reply, load).Failure? && Retryable(Answer(reply, load).error)
  }

  /**
   * `request_feed_data(api_key, feed_id, retries)` with `load` as the decoder
   * (`parse_feed_data`, or `SubwayFeed.from_content`).
   */
  function RequestFeedData<T>(validIds: set<int>, feedId: int, retries: int, replies: seq<Response>,
                              load: Bytes -> Result<T, FeedError>): (run: Run<T>)
    ensures feedId !in validIds ==> run == Run(Done(Failure(InvalidFeedId(feedId))), 0, 0)
    ensures run.requests <= |replies|
    ensures run.outcome.Unfinished? ==> run.requests == run.sleeps == |replies|
    ensures run.outcome.Done? && run.requests > 0 ==> run.sleeps == run.requests - 1
    decreases |replies|
  {
    if feedId !in validIds then Run(Done(Failure(InvalidFeedId(feedId))), 0, 0)
    else if replies == [] then Run(Unfinished, 0, 0)
    else if Retried(replies[0], load) && retries != 0 then
      var rest := RequestFeedData(validIds, feedId, retries - 1, replies[1..], load);
      Run(rest.outcome, rest.requests + 1, rest.sleeps + 1)
    else Run(Done(Answer(replies[0], load)), 1, 0)
  }

  /**
   * With `retries = n >= 0` and the first n + 1 replies all failing to decode,
   * there are n + 1 GETs and n sleeps, and the last error is re-raised.
   */
  lemma {:induction false} AllFail<T>(validIds: set<int>, feedId: int, n: nat, replies: seq<Response>,
                                      load: Bytes -> Result<T, FeedError>)
    requires feedId in validIds && n < |replies|
    requires forall k :: 0 <= k <= n ==> Retried(replies[k], load)
    ensures RequestFeedData(validIds, feedId, n, replies, load) == Run(Done(Answer(replies[n], load)), n + 1, n)
  {
    assert Retried(replies[0], load);
    if n > 0 {
      var rest := replies[1..];
      forall k | 0 <= k <= n - 1 ensures Retried(rest[k], load) {
        assert rest[k] == replies[k + 1];
      }
      AllFail(validIds, feedId, n - 1, rest, load);
      assert rest[n - 1] == replies[n];
    }
  }

  /**
   * A negative `retries` never gives up on its own account on a payload that
   * fails to decode: however many such replies come, the function is still
   * retrying after all of them, having slept once after each. (The
   * interpreter's recursion limit is not modelled.)
   */
  lemma {:induction false} NegativeNeverGivesUp<T>(validIds: set<int>, feedId: int, retries: int,
                                                   replies: seq<Response>, load: Bytes -> Result<T, FeedError>)
    requires feedId in validIds && retries < 0
    requires forall k :: 0 <= k < |replies| ==> Retried(replies[k], load)
    ensures RequestFeedData(validIds, feedId, retries, replies, load) == Run(Unfinished, |replies|, |replies|)
    decreases |replies|
  {
    if replies != [] {
      assert Retried(replies[0], load);
      var rest := replies[1..];
      forall k | 0 <= k < |rest| ensures Retried(rest[k], load) {
        assert rest[k] == replies[k + 1];
      }
      NegativeNeverGivesUp(validIds, feedId, retries - 1, rest, load);
    }
  }

  /**
   * If reply k is the first not to be retried (a payload that decodes, a
   * failed connection, or an error other than EmptyFeedError and DecodeError)
   * and the budget allows k retries, there are k + 1 GETs and k sleeps, and
   * the result is that reply's.
   */
  lemma {:induction false} FirstStop<T>(validIds: set<int>, feedId: int, retries: int, k: nat,
                                        replies: seq<Response>, load: Bytes -> Result<T, FeedError>)
    requires feedId in validIds && k < |replies|
    requires retries < 0 || k <= retries
    requires forall j :: 0 <= j < k ==> Retried(replies[j], load)
    requires !Retried(replies[k], load)
    ensures RequestFeedData(validIds, feedId, retries, replies, load) == Run(Done(Answer(replies[k], load)), k + 1, k)
    decreases k
  {
    if k > 0 {
      assert Retried(replies[0], load);
      var rest := replies[1..];
      forall j | 0 <= j < k - 1 ensures Retried(rest[j], load) {
        assert rest[j] == replies[j + 1];
      }
      assert rest[k - 1] == replies[k];
      FirstStop(validIds, feedId, retries - 1, k - 1, rest, load);
    }
  }

  /**
   * A payload that decodes ends the run with it: the parsed feed is returned
   * unchanged, after k + 1 GETs and k sleeps.
   */
  lemma FirstSuccess<T>(validIds: set<int>, feedId: int, retries: int, k: nat,
                        replies: seq<Response>, load: Bytes -> Result<T, FeedError>)
    requires feedId in validIds && k < |replies|
    requires retries < 0 || k <= retries
    requires forall j :: 0 <= j < k ==> Retried(replies[j], load)
    requires replies[k].Reply? && load(replies[k].content).Success?
    ensures RequestFeedData(validIds, feedId, retries, replies, load) ==
      Run(Done(Success(load(replies[k].content).value)), k + 1, k)
  {
    FirstStop(validIds, feedId, retries, k, replies, load);
  }

  /**
   * A run that ends with a result ends with the answer to one of the replies:
   * nothing but the request and the decoder produces what is returned.
   */
  lemma {:induction false} ResultFromReply<T>(validIds: set<int>, feedId: int, retries: int,
                                              replies: seq<Response>, load: Bytes -> Result<T, FeedError>)
    requires feedId in validIds
    requires RequestFeedData(validIds, feedId, retries, replies, load).outcome.Done?
    ensures exists k :: (0 <= k < |replies| &&
      RequestFeedData(validIds, feedId, retries, replies, load).outcome.result == Answer(replies[k], load))
    decreases |replies|
  {
    var run := RequestFeedData(validIds, feedId, retries, replies, load);
    if Retried(replies[0], load) && retries != 0 {
      var rest := replies[1..];
      ResultFromReply(validIds, feedId, retries - 1, rest, load);
      var k :| 0 <= k < |rest| && run.outcome.result == Answer(rest[k], load);
      assert rest[k] == replies[k + 1];
    } else {
      assert run.outcome.result == Answer(replies[0], load);
    }
  }

  /** With `retries == 0` a payload that fails to decode re-raises its error after one GET. */
  lemma NoRetries<T>(validIds: set<int>, feedId: int, replies: seq<Response>, load: Bytes -> Result<T, FeedError>)
    requires feedId in validIds && replies != []
    ensures RequestFeedData(validIds, feedId, 0, replies, load) == Run(Done(Answer(replies[0], load)), 1, 0)
  {
  }
}
