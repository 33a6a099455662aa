/**
 * The refresh triggers at the bottom of the page (app.py:98-104, 204-249):
 * the "Refresh Now" button and the auto-refresh tick. Time is whole seconds
 * supplied by the caller; clearing the memoised fetch is counted in the
 * ghost field `cacheClears`.
 */
module Refresh {
  import opened Common

  /** The `ttl=60` of the memoised fetch (app.py:57). */
  const CacheTtl: int := 60
  /** The interval from which an auto-refresh tick clears the memoised fetch (app.py:247). */
  const ClearThreshold: int := 60
  /** A manual refresh sooner than this after the previous one draws a warning (app.py:231). */
  const ManualCooldown: int := 10
  /** The intervals the sidebar offers (app.py:100); index 1, 60 seconds, is the default. */
  const IntervalOptions: seq<int> := [30, 60, 120, 300, 600]

  /** The short-interval suffix of the status line (app.py:216). */
  predicate ShortIntervalWarning(interval: int)
  {
    interval < 30
  }

  /** The suffix never appears for an interval the sidebar offers. */
  lemma ShortIntervalWarningUnreachable(k: nat)
    requires k < |IntervalOptions|
    ensures !ShortIntervalWarning(IntervalOptions[k])
  {
  }

  /** The session fields `refresh_count` and `last_refresh_time`. */
  class RefreshState {
    var refreshCount: int
    var lastRefreshTime: Option<int>
    /** How many times the memoised fetch has been cleared. */
    ghost var cacheClears: nat

    /** `refresh_count` starts at 0 (app.py:208-209); `last_refresh_time` is absent. */
    constructor ()
      ensures refreshCount == 0 && lastRefreshTime == None && cacheClears == 0
    {
      refreshCount := 0;
      lastRefreshTime := None;
      cacheClears := 0;
    }

    /**
     * The "Refresh Now" button (app.py:227-239). The warning does not
     * block anything: the cache is cleared, the counter incremented and
     * the time recorded on every press.
     */
    method RefreshNow(now: int) returns (warned: bool)
      modifies this
      ensures warned <==> old(lastRefreshTime).Some? && now - old(lastRefreshTime).value < ManualCooldown
      ensures cacheClears == old(cacheClears) + 1
      ensures refreshCount == old(refreshCount) + 1
      ensures lastRefreshTime == Some(now)
    {
      warned := false;
      match lastRefreshTime {
        case Some(previous) =>
          if now - previous < ManualCooldown {
            warned := true;
          }
        case None =>
          lastRefreshTime := Some(now);
      }
      cacheClears := cacheClears + 1;
      refreshCount := refreshCount + 1;
      lastRefreshTime := Some(now);
    }

    /**
     * The end of a run with the auto-refresh timer's `count` (app.py:242-249):
     * with auto-refresh on and `count > 0`, the memoised fetch is cleared
     * only when the interval reaches the cache TTL, and `refresh_count`
     * takes the timer's count, overwriting manual increments.
     */
    method AutoTick(autoRefresh: bool, interval: int, count: int) returns (cleared: bool)
      modifies this
      ensures cleared <==> autoRefresh && count > 0 && interval >= ClearThreshold
      ensures cleared ==> interval >= CacheTtl
      ensures cacheClears == old(cacheClears) + (if cleared then 1 else 0)
      ensures refreshCount == (if autoRefresh && count > 0 then count else old(refreshCount))
      ensures lastRefreshTime == old(lastRefreshTime)
    {
      cleared := false;
      if autoRefresh {
        if count > 0 {
          if interval >= ClearThreshold {
            cacheClears := cacheClears + 1;
            cleared := true;
          }
          refreshCount := count;
        }
      }
    }
  }

  /** Ticks of a 30-second timer against a 60-second TTL leave the memoised fetch alone. */
  method ThirtySecondTicks()
  {
    var state := new RefreshState();
    var cleared := state.AutoTick(true, 30, 1);
    assert !cleared;
    cleared := state.AutoTick(true, 30, 2);
    assert !cleared && state.cacheClears == 0 && state.refreshCount == 2;
  }

  /** Two presses five seconds apart: the second warns, yet both clear and both count. */
  method QuickDoublePress(t: int)
  {
    var state := new RefreshState();
    var warned := state.RefreshNow(t);
    assert !warned;
    warned := state.RefreshNow(t + 5);
    assert warned;
    assert state.cacheClears == 2 && state.refreshCount == 2;
    var cleared := state.AutoTick(true, 60, 1);
    assert cleared && state.refreshCount == 1;
  }
}
