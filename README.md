# Live crypto dashboard: fetch, fallback and refresh logic

The dashboard polls a public market-data API for the ten largest
cryptocurrencies and draws charts from the result. Under the page layout
sit four small decision rules. This project models each of them in Dafny
and proves what they promise:

- **Retry/backoff** (`fetcher.dfy`, module `Fetcher`). The loop of
  `get_crypto_data_with_retry` is a method over an abstract network. `net(i)`
  is what the i-th request observes: rows, a 429 with an optional
  `Retry-After`, or a request error. The method returns the result (rows or
  the raised exception), the sleeps it would have made, and the number of
  requests. It is proved equal to the recursive specification `Run`, and
  the lemmas about `Run` state the policy: the request bound, stopping at
  the first success, the exact waits, and the error raised when every
  attempt fails.
- **Last-good-data store** (`fallback.dfy`, module `Fallback`). The
  session's `cached_df` and `last_error` form the class `SessionData`.
  - `Load` is the rest of a run once the data frame is known.
  - `FetchAndLoad` is a run in which `get_crypto_data` executes and turns
    a raised error into an empty frame plus a recorded message.
  - The ghost field `everLive` and `Valid()` carry the invariant that once
    live data was seen, stored data is always there to fall back on.
- **Refresh triggers** (`refresh.dfy`, module `Refresh`). The "Refresh Now"
  button and the auto-refresh tick are methods on `RefreshState`. A ghost
  counter `cacheClears` counts how often the memoised fetch is cleared.
- **View projection** (`projection.dfy`, module `Projection`). The bar
  colour by sign and the clipped scatter marker size, over `real`.

`text.dfy` (module `Text`) holds the Python string behaviour the messages
need: substring membership and the decimal rendering of a number.
`common.dfy` holds `Option` and the per-asset `Coin` record.

Notes on behaviour:
- A 429 on the last attempt raises a plain `Exception`, not a
  `RequestException`. So it is not caught by the handler at app.py:47 and
  is not retried; no sleep precedes it.
- With `max_retries = 0` no request is made and the empty frame is returned.
- The cooldown of the manual button only warns. It never suppresses the
  clear, the count or the new timestamp.
- The auto-refresh block runs at the end of every run in which the timer
  count is positive, not only on new ticks. So with an interval of 60 or
  more, every rerun then clears the memoised fetch. It also overwrites
  `refresh_count` with the timer's count. `AutoTick` states exactly this.
- The two literal 60s (the `ttl` at app.py:57 and the threshold at
  app.py:247) are kept as two constants, `Refresh.CacheTtl` and
  `Refresh.ClearThreshold`; `AutoTick` promises that it never clears for
  an interval below `CacheTtl`.

## Model

| member | source | states |
|---|---|---|
| `Fetcher.FetchWithRetry` | app.py:14-55 | the loop's result, sleeps and request count equal the specification `Run` from attempt 0; at most `max_retries` requests; with `max_retries = 0` no request, no sleep, empty rows |
| `Fetcher.RunFrom` | app.py:31-53 | from any attempt on: at least one and at most the remaining requests; one sleep between consecutive requests and none after the last; each sleep is `Retry-After` or `backoff ** attempt` of the failed request before it; all but the last request failed; the last response decides rows or which exception |
| `Fetcher.RetryTrace` | app.py:31-55 | the whole run: 1..`max_retries` requests, `requests - 1` sleeps (so fewer than `max_retries`), every slept-after response a failure with its exact wait, rows iff the last response succeeded, else all `max_retries` requests were used and an exception is raised |
| `Fetcher.StopsAtFirstOk` | app.py:44-45 | the first successful response's rows are returned, with exactly `k + 1` requests and `k` sleeps, and no request after it |
| `Fetcher.AllAttemptsFail` | app.py:38-53 | if every attempt fails: exactly `max_retries` requests, `max_retries - 1` sleeps, never rows; a final 429 raises "Rate limit exceeded" with its wait, a final request error raises "Failed to fetch data after `max_retries` attempts" with its detail |
| `Fetcher.BackoffNeverShrinks` | app.py:47-51 | in any run without a 429 that carries `Retry-After` (whether it ends in rows or an error), with a factor of at least 1, the sleeps are non-decreasing |
| `Fetcher.ErrorMessage` | app.py:42-53 | the two exception texts: never empty; the rate-limit text contains "Rate limit"; the exhausted-retries text contains the request error's own text |
| `Fetcher.TwoRateLimitsThenSuccess` | app.py:36-45 | two 429s with `Retry-After: 5` then a success: sleeps `[5, 5]`, three requests, the rows |
| `Fetcher.DefaultBackoffSchedule` | app.py:47-53 | with the defaults (3 attempts, factor 2) three request errors sleep 1 then 2 seconds and raise the exhausted-retries error |
| `Text.Contains` | app.py:84 | Python's `t in s`: true iff `t` occurs as a contiguous slice of `s` |
| `Text.ContainsInfix` | app.py:223 | a string contains whatever was spliced into it |
| `Text.NotContainsWithoutFirstChar` | app.py:84 | a string lacking the pattern's first character does not contain it |
| `Text.NatToString` | app.py:42 | `f"{n}"` for a non-negative integer is a non-empty string of decimal digits, starting with `0` only for 0, so without leading zeros |
| `Text.NatToStringRoundTrip` | app.py:53 | `int(str(n)) == n`: the number in a message is the number rendered |
| `Fallback.HaltMessage` | app.py:82 | `last_error or "Unable to load cryptocurrency data."`: the stored error when present and non-empty, the default when absent or empty, never empty |
| `Fallback.MentionsRateLimit` | app.py:84 | true iff "Rate limit" or "429" occurs as a contiguous slice of the text |
| `Fallback.RateLimitBanner` | app.py:223-224 | never shown without an error; shown iff the stored error is non-empty and the text a halt would show for it mentions the rate limit |
| `Fallback.SessionData.constructor` | app.py:68-71 | the store starts with no rows and no error |
| `Fallback.SessionData.Load` | app.py:77-90 | non-empty data is shown, stored and clears the error; empty data keeps both fields, shows the stored rows if any, else halts with the error text and the rate-limit tip iff the text mentions it; halts iff both are empty; never halts once live data was seen; what is shown is never empty |
| `Fallback.SessionData.FetchAndLoad` | app.py:58-65 | a raised error becomes an empty frame and its message is recorded in `last_error`; stored rows are untouched by failures and by an empty result; a failure or an empty result shows the stored rows when there are any, else halts (with the new error text after a failure, with `last_error or` the default after an empty result); non-empty rows are shown, stored and clear the error |
| `Fallback.MessageNotEmpty` | app.py:53 | every raised message is non-empty, so `last_error or ...` shows it |
| `Fallback.RateLimitFailureIsFlagged` | app.py:42 | the rate-limit message contains "Rate limit": the tip and the banner appear for it |
| `Fallback.Http429DetailIsFlagged` | app.py:223 | an exhausted-retries message whose detail mentions 429 is flagged too |
| `Fallback.NoDataMessageNotFlagged` | app.py:82-85 | the default text draws no rate-limit tip, and no error draws no banner |
| `Refresh.RefreshState.constructor` | app.py:208-209 | the refresh count starts at 0 with no recorded refresh time |
| `Refresh.RefreshState.RefreshNow` | app.py:227-239 | warns iff a previous press exists less than 10 s earlier; always clears the cache once, adds 1 to the count and records `now` |
| `Refresh.RefreshState.AutoTick` | app.py:242-249 | clears the cache iff auto-refresh is on, the count is positive and the interval is at least 60, so never for an interval below the 60-second cache TTL; then the count becomes the timer's count; the refresh time is untouched |
| `Refresh.ShortIntervalWarningUnreachable` | app.py:216 | no offered interval is below 30, so the short-interval suffix never shows |
| `Projection.BarColours` | app.py:131 | one colour per asset in order: green iff the 24h change is at least 0, red iff it is negative |
| `Projection.MarkerSize` | app.py:169 | the size lies in [5, 50] and equals twice the absolute change whenever that lies in [5, 50] |
| `Projection.MarkerSizes` | app.py:169 | one size per asset in order, each in [5, 50] |
| `Projection.MarkerSizeIsNearest` | app.py:169 | the clipped size is the point of [5, 50] nearest to twice the absolute change |
| `Projection.MarkerSizeMonotone` | app.py:169 | a larger absolute change never gets a smaller marker |
| `Projection.MarkerSizeSymmetric` | app.py:169 | a gain and a loss of the same size get the same marker |

## Left out

- The HTTP request itself: URL, query parameters, headers and the 10-second timeout. The network is the function `net`.
- `time.sleep`: sleeps are returned as the list of waits, not performed.
- `Retry-After` parsing: the header is taken as an already-parsed non-negative integer. A non-integer value makes `int()` raise `ValueError`, which escapes the loop. A negative value would make `time.sleep` raise. Neither path is modelled.
- JSON decoding and `pd.DataFrame` construction: a 2xx response is taken as its rows. Whether a decode error counts as a `RequestException` depends on the library version.
- The `@st.cache_data(ttl=60)` decorator is a third-party library. Which of `SessionData.Load` (memoised value) and `SessionData.FetchAndLoad` (body executed) a run takes is left to the caller. Only cache clears are counted, in `RefreshState.cacheClears`.
- `st.stop()` and `st.rerun()` end a run. The order of the steps within one run is not modelled; each step is a separate method.
- `RefreshState.RefreshNow`: `time.time()` is read twice per press (once in either branch of the check, once after the increment); the model uses one `now` in whole seconds for both.
- The `st_autorefresh` timer, which produces `count`, is an input.
- Rendering: Streamlit and plotly calls, metric and label formatting, the coin selector and the table.
- Floating point: prices and percentages are `real`; NaN is not representable.
