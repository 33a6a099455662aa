/**
 * The retry/backoff policy of `get_crypto_data_with_retry` (app.py:14-55).
 *
 * The network is a total function `net`: `net(i)` is what the i-th request
 * (0-indexed) would observe. Sleeping is not performed: the waits the loop
 * would sleep are returned in order.
 */
module Fetcher {
  import opened Common
  import Text

  /** What one request observes. */
  datatype Response =
      /** status 2xx, `raise_for_status` passes, the body decodes to these rows */
    | Ok(rows: seq<Coin>)
      /** status 429, with the `Retry-After` header if the server sent one */
    | RateLimited(retryAfter: Option<nat>)
      /** any `RequestException`: timeout, connection error, or the
          `HTTPError` raised by `raise_for_status`; `detail` is `str(e)` */
    | RequestFailed(detail: string)

  /** The plain `Exception`s the loop raises once it gives up. */
  datatype FetchError =
    | RateLimitExceeded(wait: nat)
    | RetriesExhausted(attempts: nat, detail: string)

  /** What a call returns: the rows of the data frame, or the exception it raises. */
  datatype FetchResult = Rows(rows: seq<Coin>) | Failed(error: FetchError)

  /** A run of the loop: its result, the sleeps in order, and the number of requests issued. */
  datatype Trace = Trace(result: FetchResult, waits: seq<nat>, requests: nat)

  /** `b ** e` on non-negative integers (`0 ** 0 == 1`, as in Python). */
  function Pow(b: nat, e: nat): nat
  {
    if e == 0 then 1 else b * Pow(b, e - 1)
  }

  /** The wait a failed `attempt` would sleep: `Retry-After` on a 429 that carries it,
      `backoff ** attempt` otherwise. */
  function WaitAfter(r: Response, backoff: nat, attempt: nat): nat
  {
    match r
    case RateLimited(Some(n)) => n
    case _ => Pow(backoff, attempt)
  }

  /** The message of the raised exception, as its f-string renders it. */
  function ErrorMessage(e: FetchError): (m: string)
    ensures m != []
    ensures e.RateLimitExceeded? ==> Text.Contains(m, "Rate limit")
    ensures e.RetriesExhausted? ==> Text.Contains(m, e.detail)
  {
    match e
    case RateLimitExceeded(w) =>
      var tail := " exceeded. Please wait " + Text.NatToString(w) + " seconds before trying again.";
      assert "Rate limit exceeded. Please wait " == "Rate limit" + " exceeded. Please wait ";
      Text.ContainsInfix([], "Rate limit", tail);
      assert [] + "Rate limit" + tail == "Rate limit" + tail;
      "Rate limit exceeded. Please wait " + Text.NatToString(w) + " seconds before trying again."
    case RetriesExhausted(n, d) =>
      Text.ContainsInfix("Failed to fetch data after " + Text.NatToString(n) + " attempts: ", d, []);
      assert "Failed to fetch data after " + Text.NatToString(n) + " attempts: " + d + []
          == "Failed to fetch data after " + Text.NatToString(n) + " attempts: " + d;
      "Failed to fetch data after " + Text.NatToString(n) + " attempts: " + d
  }

  /** Prefixes sleeps to a trace. */
  function Delayed(ws: seq<nat>, t: Trace): Trace
  {
    Trace(t.result, ws + t.waits, t.requests)
  }

  /**
   * What an attempt that does not retry ends with: the rows of a success,
   * or the exception raised on the last attempt (app.py:42, 53).
   */
  function Final(maxRetries: nat, backoff: nat, r: Response, attempt: nat): FetchResult
  {
    match r
    case Ok(rows) => Rows(rows)
    case RateLimited(_) => Failed(RateLimitExceeded(WaitAfter(r, backoff, attempt)))
    case RequestFailed(detail) => Failed(RetriesExhausted(maxRetries, detail))
  }

  /**
   * What the loop does from iteration `attempt` on, for `range(maxRetries)`:
   * a success returns, a failure on the last attempt raises, any other
   * failure sleeps its wait and continues. Falling out of the loop returns
   * the empty data frame (app.py:55).
   */
  function Run(maxRetries: nat, backoff: nat, net: nat -> Response, attempt: nat): Trace
    decreases maxRetries - attempt
  {
    if attempt >= maxRetries then Trace(Rows([]), [], attempt)
    else if net(attempt).Ok? || attempt == maxRetries - 1 then
      Trace(Final(maxRetries, backoff, net(attempt), attempt), [], attempt + 1)
    else
      Delayed([WaitAfter(net(attempt), backoff, attempt)], Run(maxRetries, backoff, net, attempt + 1))
  }

  /** An iteration that sleeps and continues. */
  lemma RunContinues(maxRetries: nat, backoff: nat, net: nat -> Response, attempt: nat, done: seq<nat>)
    requires attempt < maxRetries - 1 && !net(attempt).Ok?
    ensures Delayed(done, Run(maxRetries, backoff, net, attempt))
         == Delayed(done + [WaitAfter(net(attempt), backoff, attempt)], Run(maxRetries, backoff, net, attempt + 1))
  {
    var rest := Run(maxRetries, backoff, net, attempt + 1);
    assert done + ([WaitAfter(net(attempt), backoff, attempt)] + rest.waits)
        == (done + [WaitAfter(net(attempt), backoff, attempt)]) + rest.waits;
  }

  /** An iteration that returns or raises. */
  lemma RunStops(maxRetries: nat, backoff: nat, net: nat -> Response, attempt: nat, done: seq<nat>)
    requires attempt < maxRetries && (net(attempt).Ok? || attempt == maxRetries - 1)
    ensures Delayed(done, Run(maxRetries, backoff, net, attempt))
         == Trace(Final(maxRetries, backoff, net(attempt), attempt), done, attempt + 1)
  {
    assert done + [] == done;
  }

  /** `get_crypto_data_with_retry(max_retries, backoff_factor)` against the network `net`. */
  method FetchWithRetry(maxRetries: nat, backoff: nat, net: nat -> Response)
    returns (result: FetchResult, waits: seq<nat>, requests: nat)
    ensures Trace(result, waits, requests) == Run(maxRetries, backoff, net, 0)
    ensures requests <= maxRetries
    ensures maxRetries == 0 ==> result == Rows([]) && waits == [] && requests == 0
  {
    waits := [];
    requests := 0;
    var attempt: nat := 0;
    ghost var whole := Run(maxRetries, backoff, net, 0);
    assert [] + whole.waits == whole.waits;
    while attempt < maxRetries
      invariant attempt <= maxRetries
      invariant requests == attempt == |waits|
      invariant whole == Delayed(waits, Run(maxRetries, backoff, net, attempt))
    {
      var response := net(attempt);
      requests := requests + 1;
      var wait: nat;
      match response {
        case Ok(rows) =>
          RunStops(maxRetries, backoff, net, attempt, waits);
          result := Rows(rows);
          return;
        case RateLimited(retryAfter) =>
          wait := if retryAfter.Some? then retryAfter.value else Pow(backoff, attempt);
          if attempt == maxRetries - 1 {
            RunStops(maxRetries, backoff, net, attempt, waits);
            result := Failed(RateLimitExceeded(wait));
            return;
          }
        case RequestFailed(detail) =>
          wait := Pow(backoff, attempt);
          if attempt == maxRetries - 1 {
            RunStops(maxRetries, backoff, net, attempt, waits);
            result := Failed(RetriesExhausted(maxRetries, detail));
            return;
          }
      }
      RunContinues(maxRetries, backoff, net, attempt, waits);
      waits := waits + [wait];
      attempt := attempt + 1;
    }
    assert waits + [] == waits;
    result := Rows([]);
  }

  /**
   * The shape of every run from `attempt` on: it issues at least one and at
   * most `maxRetries - attempt` further requests, sleeps once between
   * consecutive requests and never after the last one, each sleep is the
   * wait of the failed request before it, every request but the last failed,
   * and the last one decides the result.
   */
  lemma {:induction false} RunFrom(maxRetries: nat, backoff: nat, net: nat -> Response, attempt: nat)
    requires attempt < maxRetries
    ensures var t := Run(maxRetries, backoff, net, attempt);
      && attempt < t.requests <= maxRetries
      && |t.waits| == t.requests - 1 - attempt
      && (forall i :: attempt <= i < t.requests - 1 ==> !net(i).Ok?)
      && (forall k :: 0 <= k < |t.waits| ==> t.waits[k] == WaitAfter(net(attempt + k), backoff, attempt + k))
      && (net(t.requests - 1).Ok? ==> t.result == Rows(net(t.requests - 1).rows))
      && (!net(t.requests - 1).Ok? ==> t.requests == maxRetries)
      && (net(t.requests - 1).RateLimited? ==>
            t.result == Failed(RateLimitExceeded(WaitAfter(net(t.requests - 1), backoff, t.requests - 1))))
      && (net(t.requests - 1).RequestFailed? ==>
            t.result == Failed(RetriesExhausted(maxRetries, net(t.requests - 1).detail)))
    decreases maxRetries - attempt
  {
    var t := Run(maxRetries, backoff, net, attempt);
    if !net(attempt).Ok? && attempt < maxRetries - 1 {
      RunFrom(maxRetries, backoff, net, attempt + 1);
      var rest := Run(maxRetries, backoff, net, attempt + 1);
      assert t == Delayed([WaitAfter(net(attempt), backoff, attempt)], rest);
      forall k | 1 <= k < |t.waits|
        ensures t.waits[k] == WaitAfter(net(attempt + k), backoff, attempt + k)
      {
        assert t.waits[k] == rest.waits[k - 1];
      }
    }
  }

  /** The whole run, from the first attempt (app.py:31-55). */
  lemma RetryTrace(maxRetries: nat, backoff: nat, net: nat -> Response)
    requires maxRetries > 0
    ensures var t := Run(maxRetries, backoff, net, 0);
      && 1 <= t.requests <= maxRetries
      && |t.waits| == t.requests - 1 < maxRetries
      && (forall k :: 0 <= k < |t.waits| ==> !net(k).Ok? && t.waits[k] == WaitAfter(net(k), backoff, k))
      && (net(t.requests - 1).Ok? ==> t.result == Rows(net(t.requests - 1).rows))
      && (!net(t.requests - 1).Ok? ==> t.requests == maxRetries && t.result.Failed?)
  {
    RunFrom(maxRetries, backoff, net, 0);
  }

  /** The first successful response ends the loop: its rows are returned and no further request is made. */
  lemma StopsAtFirstOk(maxRetries: nat, backoff: nat, net: nat -> Response, k: nat)
    requires k < maxRetries && net(k).Ok?
    requires forall i :: 0 <= i < k ==> !net(i).Ok?
    ensures Run(maxRetries, backoff, net, 0).result == Rows(net(k).rows)
    ensures Run(maxRetries, backoff, net, 0).requests == k + 1
    ensures |Run(maxRetries, backoff, net, 0).waits| == k
  {
    RunFrom(maxRetries, backoff, net, 0);
  }

  /**
   * When every attempt fails the call raises and never returns rows: it
   * issues exactly `maxRetries` requests, sleeps `maxRetries - 1` times, and
   * the exception depends on the last response only (a 429 on the last
   * attempt raises without sleeping).
   */
  lemma AllAttemptsFail(maxRetries: nat, backoff: nat, net: nat -> Response)
    requires maxRetries > 0
    requires forall i :: 0 <= i < maxRetries ==> !net(i).Ok?
    ensures var t := Run(maxRetries, backoff, net, 0);
      && t.requests == maxRetries
      && |t.waits| == maxRetries - 1
      && !t.result.Rows?
      && (net(maxRetries - 1).RateLimited? ==>
            t.result == Failed(RateLimitExceeded(WaitAfter(net(maxRetries - 1), backoff, maxRetries - 1))))
      && (net(maxRetries - 1).RequestFailed? ==>
            t.result == Failed(RetriesExhausted(maxRetries, net(maxRetries - 1).detail)))
  {
    RunFrom(maxRetries, backoff, net, 0);
  }

  lemma {:induction false} PowMonotone(b: nat, i: nat, j: nat)
    requires b >= 1 && i <= j
    ensures Pow(b, i) <= Pow(b, j)
    decreases j
  {
    if i < j {
      PowMonotone(b, i, j - 1);
      var x := Pow(b, j - 1);
      assert Pow(b, j) == b * x;
      MulGrows(b, x);
    }
  }

  lemma MulGrows(b: nat, x: nat)
    requires b >= 1
    ensures b * x >= x
  {
    var c: nat := b - 1;
    assert b * x == c * x + x;
  }

  /** Without `Retry-After` headers, and with a factor of at least 1, the backoff waits never shrink. */
  lemma BackoffNeverShrinks(maxRetries: nat, backoff: nat, net: nat -> Response)
    requires backoff >= 1
    requires forall i :: 0 <= i < maxRetries ==> !(net(i).RateLimited? && net(i).retryAfter.Some?)
    ensures var w := Run(maxRetries, backoff, net, 0).waits;
      forall i, j :: 0 <= i <= j < |w| ==> w[i] <= w[j]
  {
    if maxRetries > 0 {
      RetryTrace(maxRetries, backoff, net);
      var w := Run(maxRetries, backoff, net, 0).waits;
      forall i, j | 0 <= i <= j < |w|
        ensures w[i] <= w[j]
      {
        PowMonotone(backoff, i, j);
      }
    }
  }

  /** Two 429s carrying `Retry-After: 5`, then a success: two sleeps of 5 seconds, then the rows. */
  lemma TwoRateLimitsThenSuccess(rows: seq<Coin>)
    ensures Run(3, 2, i => if i < 2 then RateLimited(Some(5)) else Ok(rows), 0)
         == Trace(Rows(rows), [5, 5], 3)
  {
    var net: nat -> Response := i => if i < 2 then RateLimited(Some(5)) else Ok(rows);
    assert Run(3, 2, net, 2) == Trace(Rows(rows), [], 3);
    assert Run(3, 2, net, 1) == Trace(Rows(rows), [5], 3);
  }

  /** With the defaults (three attempts, factor 2) three request errors sleep 1 then 2 seconds and give up. */
  lemma DefaultBackoffSchedule(detail: string)
    ensures Run(3, 2, i => RequestFailed(detail), 0)
         == Trace(Failed(RetriesExhausted(3, detail)), [1, 2], 3)
  {
    var net: nat -> Response := i => RequestFailed(detail);
    assert Pow(2, 1) == 2;
    assert Run(3, 2, net, 2) == Trace(Failed(RetriesExhausted(3, detail)), [], 3);
    assert Run(3, 2, net, 1) == Trace(Failed(RetriesExhausted(3, detail)), [2], 3);
  }
}
