/**
 * The last-good-data store kept in the session (app.py:58-90): the
 * `cached_df` and `last_error` fields, the failure capture inside
 * `get_crypto_data`, and the choice between live data, stale data and a
 * hard stop.
 */
module Fallback {
  import opened Common
  import opened Fetcher
  import Text

  /** The text shown when no error was recorded (app.py:82). */
  const NoDataMessage: string := "Unable to load cryptocurrency data."

  /** The rate-limit test on an error text: `"Rate limit" in msg or "429" in msg` (app.py:84, 223). */
  predicate MentionsRateLimit(msg: string): (b: bool)
    ensures b <==> (exists i :: Text.OccursAt(msg, "Rate limit", i)) || (exists i :: Text.OccursAt(msg, "429", i))
  {
    Text.Contains(msg, "Rate limit") || Text.Contains(msg, "429")
  }

  /** `last_error or "Unable to load ..."`: an absent or empty error falls back to the default text (app.py:82). */
  function HaltMessage(lastError: Option<string>): (m: string)
    ensures m != []
    ensures lastError.Some? && lastError.value != [] ==> m == lastError.value
    ensures lastError == None || lastError == Some([]) ==> m == NoDataMessage
  {
    if lastError.Some? && lastError.value != [] then lastError.value else NoDataMessage
  }

  /** The banner under the status line: a truthy `last_error` that mentions the rate limit (app.py:223-224). */
  predicate RateLimitBanner(lastError: Option<string>): (b: bool)
    ensures lastError == None ==> !b
    ensures b <==> lastError.Some? && lastError.value != [] && MentionsRateLimit(HaltMessage(lastError))
  {
    lastError.Some? && lastError.value != [] && MentionsRateLimit(lastError.value)
  }

  /** What a run of the script shows. */
  datatype Display =
      /** fresh rows from the live fetch */
    | Live(rows: seq<Coin>)
      /** the live fetch was empty: the stored rows, under a warning (app.py:79-80) */
    | Stale(rows: seq<Coin>)
      /** nothing to show: the error, the rate-limit tip if it applies, and `st.stop()` (app.py:82-86) */
    | Halted(message: string, rateLimitTip: bool)

  /** The session fields of app.py:68-71 and 89-90. */
  class SessionData {
    var cachedRows: seq<Coin>
    var lastError: Option<string>
    /** Some run has loaded a non-empty live result. */
    ghost var everLive: bool

    /** Once live data has been seen, there is always stored data to fall back on. */
    ghost predicate Valid()
      reads this
    {
      everLive ==> cachedRows != []
    }

    /** The first run's initialisation (app.py:68-71). */
    constructor ()
      ensures Valid()
      ensures cachedRows == [] && lastError == None && !everLive
    {
      cachedRows := [];
      lastError := None;
      everLive := false;
    }

    /**
     * The rest of a run once `df` is known (app.py:77-90): a non-empty
     * `df` is shown and stored and clears the error; an empty one falls
     * back to the stored rows, or halts when there are none.
     */
    method Load(df: seq<Coin>) returns (shown: Display)
      requires Valid()
      modifies this
      ensures Valid()
      ensures everLive == (old(everLive) || df != [])
      ensures df != [] ==> shown == Live(df) && cachedRows == df && lastError == None
      ensures df == [] ==> cachedRows == old(cachedRows) && lastError == old(lastError)
      ensures df == [] && old(cachedRows) != [] ==> shown == Stale(old(cachedRows))
      ensures df == [] && old(cachedRows) == [] ==>
                shown == Halted(HaltMessage(old(lastError)), MentionsRateLimit(HaltMessage(old(lastError))))
      ensures shown.Halted? <==> df == [] && old(cachedRows) == []
      ensures old(everLive) ==> !shown.Halted?
      ensures !shown.Halted? ==> shown.rows != []
    {
      if df == [] {
        if cachedRows != [] {
          shown := Stale(cachedRows);
        } else {
          var message := HaltMessage(lastError);
          shown := Halted(message, MentionsRateLimit(message));
        }
      } else {
        cachedRows := df;
        lastError := None;
        everLive := true;
        shown := Live(df);
      }
    }

    /**
     * A run in which the body of `get_crypto_data` executes (no memoised
     * value): a raised error is turned into an empty data frame and its
     * message is stored in `last_error` (app.py:58-65), then the run
     * continues as `Load` (app.py:74-90).
     */
    method FetchAndLoad(result: FetchResult) returns (shown: Display)
      requires Valid()
      modifies this
      ensures Valid()
      ensures everLive == (old(everLive) || (result.Rows? && result.rows != []))
      ensures result.Rows? && result.rows != [] ==>
                shown == Live(result.rows) && cachedRows == result.rows && lastError == None
      ensures result.Rows? && result.rows == [] ==>
                cachedRows == old(cachedRows) && lastError == old(lastError)
      ensures result == Rows([]) && old(cachedRows) != [] ==> shown == Stale(old(cachedRows))
      ensures result == Rows([]) && old(cachedRows) == [] ==>
                shown == Halted(HaltMessage(old(lastError)), MentionsRateLimit(HaltMessage(old(lastError))))
      ensures result.Failed? ==>
                cachedRows == old(cachedRows) && lastError == Some(ErrorMessage(result.error))
      ensures result.Failed? && old(cachedRows) != [] ==> shown == Stale(old(cachedRows))
      ensures result.Failed? && old(cachedRows) == [] ==>
                shown == Halted(ErrorMessage(result.error), MentionsRateLimit(ErrorMessage(result.error)))
      ensures shown.Halted? <==> (!result.Rows? || result.rows == []) && old(cachedRows) == []
      ensures !shown.Halted? ==> shown.rows != []
    {
      var df: seq<Coin>;
      match result {
        case Rows(rows) =>
          df := rows;
        case Failed(error) =>
          lastError := Some(ErrorMessage(error));
          df := [];
      }
      MessageNotEmpty(result);
      shown := Load(df);
    }
  }

  /** Every raised error has a non-empty message, so `last_error or ...` keeps it. */
  lemma MessageNotEmpty(result: FetchResult)
    ensures result.Failed? ==> ErrorMessage(result.error) != []
    ensures result.Failed? ==> HaltMessage(Some(ErrorMessage(result.error))) == ErrorMessage(result.error)
  {
  }

  /** A text with neither an 'R' nor a '4' is not flagged. */
  lemma UnflaggedWithoutMarkers(msg: string)
    requires 'R' !in msg && '4' !in msg
    ensures !MentionsRateLimit(msg)
  {
    Text.NotContainsWithoutFirstChar(msg, "Rate limit");
    Text.NotContainsWithoutFirstChar(msg, "429");
  }

  /** A rate-limit failure is recognised as one: the tip and the banner are shown for it. */
  lemma RateLimitFailureIsFlagged(wait: nat)
    ensures MentionsRateLimit(ErrorMessage(RateLimitExceeded(wait)))
    ensures RateLimitBanner(Some(ErrorMessage(RateLimitExceeded(wait))))
  {
    var m := ErrorMessage(RateLimitExceeded(wait));
    assert Text.Contains(m, "Rate limit");
  }

  /** A request error whose text mentions 429 is flagged too, whatever the attempt count. */
  lemma Http429DetailIsFlagged(attempts: nat, before: string, after: string)
    ensures MentionsRateLimit(ErrorMessage(RetriesExhausted(attempts, before + "429" + after)))
  {
    var head := "Failed to fetch data after " + Text.NatToString(attempts) + " attempts: " + before;
    assert ErrorMessage(RetriesExhausted(attempts, before + "429" + after)) == head + "429" + after;
    Text.ContainsInfix(head, "429", after);
  }

  /** The default text carries no rate-limit tip. */
  lemma NoDataMessageNotFlagged()
    ensures !MentionsRateLimit(NoDataMessage)
    ensures !RateLimitBanner(None)
  {
    UnflaggedWithoutMarkers(NoDataMessage);
  }

  /** A first run whose fetch raises the rate-limit error stops with that message and the tip. */
  method FirstRunRateLimited(wait: nat)
  {
    var session := new SessionData();
    RateLimitFailureIsFlagged(wait);
    var shown := session.FetchAndLoad(Failed(RateLimitExceeded(wait)));
    assert shown == Halted(ErrorMessage(RateLimitExceeded(wait)), true);
  }

  /** Good data, then failures: the stored rows keep being shown. */
  method StaleAfterGood(rows: seq<Coin>, error: FetchError)
    requires rows != []
  {
    var session := new SessionData();
    var shown := session.FetchAndLoad(Rows(rows));
    assert shown == Live(rows);
    shown := session.FetchAndLoad(Failed(error));
    assert shown == Stale(rows);
    shown := session.FetchAndLoad(Rows([]));
    assert shown == Stale(rows);
    shown := session.Load([]);
    assert shown == Stale(rows);
    assert session.lastError == Some(ErrorMessage(error));
  }
}
