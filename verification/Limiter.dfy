// The fixed-window limiter on the pairing endpoint (cmd/relay/serve.go).
//
// Times are nanoseconds since the zero time, which is where a new limiter's window starts.
module Limiter {
  import opened Prelude

  const MAX_DURATION := 0x7fff_ffff_ffff_ffff

  /** A signed 64-bit number of nanoseconds. */
  type Duration = d: int | -MAX_DURATION - 1 <= d <= MAX_DURATION

  /** The difference between two times saturates. */
  function Since(t: int, start: int): Duration {
    if t - start > MAX_DURATION then MAX_DURATION
    else if t - start < -MAX_DURATION - 1 then -MAX_DURATION - 1
    else t - start
  }

  datatype Config = Config(limit: int, window: Duration)

  datatype View = View(start: int, count: int)

  const NEW := View(0, 0)

  function Opened(c: Config, v: View, now: int): View {
    if Since(now, v.start) >= c.window then View(now, 0) else v
  }

  function Admits(c: Config, v: View, now: int): bool { Opened(c, v, now).count < c.limit }

  function Next(c: Config, v: View, now: int): View {
    var w := Opened(c, v, now);
    if w.count < c.limit then w.(count := w.count + 1) else w
  }

  class PairLimiter {
    const config: Config
    var start: int
    var count: int

    function AsView(): View reads this { View(start, count) }

    constructor (limit: int, window: Duration)
      ensures config == Config(limit, window) && AsView() == NEW
    {
      config, start, count := Config(limit, window), 0, 0;
    }

    method Allow(now: int) returns (ok: bool)
      modifies this
      ensures ok == Admits(config, old(AsView()), now)
      ensures AsView() == Next(config, old(AsView()), now)
    {
      if Since(now, start) >= config.window { start, count := now, 0; }
      if count >= config.limit { return false; }
      count := count + 1;
      return true;
    }
  }

  // ---- Histories of calls ----

  /** The limiter after calls at the given times. */
  function After(c: Config, times: seq<int>): View {
    if times == [] then NEW else Next(c, After(c, times[..|times| - 1]), times[|times| - 1])
  }

  /** How many calls with lo <= time < hi are allowed. */
  function Allowed(c: Config, times: seq<int>, lo: int, hi: int): nat {
    if times == [] then 0
    else
      var init, last := times[..|times| - 1], times[|times| - 1];
      Allowed(c, init, lo, hi) + if lo <= last < hi && Admits(c, After(c, init), last) then 1 else 0
  }

  function Last(times: seq<int>): int { if times == [] then 0 else times[|times| - 1] }

  /** The clock never goes back, nor before the zero time. */
  predicate Clock(times: seq<int>) {
    times == [] || (Clock(times[..|times| - 1]) && Last(times[..|times| - 1]) <= Last(times))
  }

  lemma {:induction false} AllowedSplits(c: Config, times: seq<int>, lo: int, mid: int, hi: int)
    requires lo <= mid <= hi
    ensures Allowed(c, times, lo, hi) == Allowed(c, times, lo, mid) + Allowed(c, times, mid, hi)
  {
    if times != [] { AllowedSplits(c, times[..|times| - 1], lo, mid, hi); }
  }

  lemma {:induction false} NothingLater(c: Config, times: seq<int>, lo: int, hi: int)
    requires Clock(times) && Last(times) < lo
    ensures Allowed(c, times, lo, hi) == 0
  {
    if times != [] { NothingLater(c, times[..|times| - 1], lo, hi); }
  }

  /** What the limiter's two fields say about the calls so far, where k bounds what a window
      admits after its first instant. */
  ghost predicate Tracks(c: Config, times: seq<int>, cap: nat, k: nat) {
    var v, end := After(c, times), Last(times) + 1;
    && v.start < end && (times == [] || end <= v.start + c.window)
    && Allowed(c, times, v.start, end) == v.count <= cap
    && (times != [] ==> Allowed(c, times, v.start + 1, end) + cap - k <= v.count)
    && forall x | v.start - c.window < x <= v.start :: Allowed(c, times, x, v.start) <= k
  }

  /** Either no saving is claimed, or the first call opens a window and is admitted. */
  predicate Saving(c: Config, times: seq<int>, cap: nat, k: nat) {
    && cap == Max(c.limit, 0)
    && (k == cap || (k == cap - 1 && c.limit >= 1 && (times != [] ==> times[0] >= c.window)))
  }

  lemma AllowedNext(c: Config, init: seq<int>, now: int, lo: int, hi: int)
    requires Clock(init + [now])
    ensures Clock(init) && Last(init) <= now && Last(init + [now]) == now
    ensures After(c, init + [now]) == Next(c, After(c, init), now)
    ensures Allowed(c, init + [now], lo, hi) ==
            Allowed(c, init, lo, hi) + if lo <= now < hi && Admits(c, After(c, init), now) then 1 else 0
  {
    assert (init + [now])[..|init|] == init;
  }

  /** Looking beyond the last call finds nothing more. */
  lemma AllowedToDate(c: Config, times: seq<int>, lo: int, hi: int)
    requires Clock(times) && lo <= Last(times) + 1 <= hi
    ensures Allowed(c, times, lo, hi) == Allowed(c, times, lo, Last(times) + 1)
  {
    AllowedSplits(c, times, lo, Last(times) + 1, hi);
    NothingLater(c, times, Last(times) + 1, hi);
  }

  lemma TrackOpening(c: Config, init: seq<int>, now: int, cap: nat, k: nat)
    requires Clock(init + [now]) && c.window > 0 && Saving(c, init + [now], cap, k)
    requires Clock(init) && Tracks(c, init, cap, k) && now - After(c, init).start >= c.window
    ensures Tracks(c, init + [now], cap, k)
  {
    var v := After(c, init);
    hide After, Allowed, Clock;
    AllowedNext(c, init, now, now, now + 1);
    if init != [] { NothingLater(c, init, now, now + 1); } else { NoCalls(c, now, now + 1); }
    NothingLater(c, init + [now], now + 1, now + 1);
    forall x | now - c.window < x <= now ensures Allowed(c, init + [now], x, now) <= k {
      AllowedNext(c, init, now, x, now);
      if init == [] {
        NoCalls(c, x, now);
      } else {
        AllowedSplits(c, init, v.start + 1, x, now);
        AllowedToDate(c, init, v.start + 1, now);
      }
    }
  }

  lemma NoCalls(c: Config, lo: int, hi: int)
    ensures Allowed(c, [], lo, hi) == 0
  {
  }

  lemma TrackCounting(c: Config, init: seq<int>, now: int, cap: nat, k: nat)
    requires Clock(init + [now]) && c.window > 0 && Saving(c, init + [now], cap, k)
    requires Clock(init) && Tracks(c, init, cap, k) && now - After(c, init).start < c.window
    ensures Tracks(c, init + [now], cap, k)
  {
    var v := After(c, init);
    hide After, Allowed, Clock;
    AllowedNext(c, init, now, v.start, now + 1);
    AllowedNext(c, init, now, v.start + 1, now + 1);
    AllowedToDate(c, init, v.start, now + 1);
    AllowedToDate(c, init, v.start + 1, now + 1);
    AllowedSplits(c, init, v.start, v.start + 1, now + 1);
    forall x | v.start - c.window < x <= v.start ensures Allowed(c, init + [now], x, v.start) <= k {
      AllowedNext(c, init, now, x, v.start);
    }
  }

  lemma {:induction false} AlwaysTracks(c: Config, times: seq<int>, cap: nat, k: nat)
    requires Clock(times) && c.window > 0 && Saving(c, times, cap, k)
    ensures Tracks(c, times, cap, k)
  {
    if times == [] {
      assert forall x :: Allowed(c, [], x, 0) == 0;
    } else {
      var init, now := times[..|times| - 1], times[|times| - 1];
      assert init + [now] == times;
      AllowedNext(c, init, now, 0, 0);
      AlwaysTracks(c, init, cap, k);
      if now - After(c, init).start >= c.window {
        TrackOpening(c, init, now, cap, k);
      } else {
        TrackCounting(c, init, now, cap, k);
      }
    }
  }

  /** In a window's worth of time at most two windows' worth of calls get through. */
  lemma {:induction false} IntervalBound(c: Config, times: seq<int>, t: int, cap: nat, k: nat)
    requires Clock(times) && Saving(c, times, cap, k)
    ensures Allowed(c, times, t, t + c.window) <= cap + k
  {
    if times != [] {
      var init, now := times[..|times| - 1], times[|times| - 1];
      assert init + [now] == times;
      AllowedNext(c, init, now, t, t + c.window);
      if t <= now < t + c.window {
        AlwaysTracks(c, times, cap, k);
        LastInterval(c, times, t, cap, k);
      } else {
        IntervalBound(c, init, t, cap, k);
      }
    }
  }

  lemma LastInterval(c: Config, times: seq<int>, t: int, cap: nat, k: nat)
    requires Clock(times) && times != [] && c.window > 0 && Tracks(c, times, cap, k)
    requires t <= Last(times) < t + c.window
    ensures Allowed(c, times, t, t + c.window) <= cap + k
  {
    hide After, Allowed, Clock;
    var s := After(c, times).start;
    AllowedToDate(c, times, t, t + c.window);
    if t <= s {
      AllowedSplits(c, times, t, s, Last(times) + 1);
    } else {
      AllowedSplits(c, times, s, t, Last(times) + 1);
    }
  }

  /** At most twice the limit gets through in any half-open interval as long as the window. */
  lemma AtMostTwiceTheLimit(c: Config, times: seq<int>, t: int)
    requires Clock(times)
    ensures Allowed(c, times, t, t + c.window) <= 2 * Max(c.limit, 0)
  {
    IntervalBound(c, times, t, Max(c.limit, 0), Max(c.limit, 0));
  }

  /** When the first call opens a window, as it does on any clock past the zero time, the bound is one less. */
  lemma AtMostOneLess(c: Config, times: seq<int>, t: int)
    requires Clock(times) && c.limit >= 1 && (times != [] ==> times[0] >= c.window)
    ensures Allowed(c, times, t, t + c.window) <= 2 * c.limit - 1
  {
    IntervalBound(c, times, t, c.limit, c.limit - 1);
  }

  /** From a window's start on, no more than the limit gets through until the next one starts. */
  lemma WindowHoldsTheLimit(c: Config, times: seq<int>)
    requires Clock(times) && c.window > 0
    ensures Allowed(c, times, After(c, times).start, Last(times) + 1) == After(c, times).count <= Max(c.limit, 0)
  {
    AlwaysTracks(c, times, Max(c.limit, 0), Max(c.limit, 0));
  }

  /** A call is refused exactly when the current window is younger than its length and has admitted the
      limit already, or the limit admits nothing. */
  lemma RefusedIff(c: Config, times: seq<int>, now: int)
    requires Clock(times) && Last(times) <= now && c.window > 0
    ensures var start := After(c, times).start;
            !Admits(c, After(c, times), now) <==>
              c.limit <= 0 || (now - start < c.window && Allowed(c, times, start, Last(times) + 1) >= c.limit)
  {
    WindowHoldsTheLimit(c, times);
    hide Clock, Allowed, After;
  }

  /** A new window starts exactly when the current one is over, and starts at that call. */
  lemma WindowStartsIff(c: Config, times: seq<int>, now: int)
    requires Clock(times) && Last(times) <= now && c.window > 0
    ensures var start := After(c, times).start;
            After(c, times + [now]).start == if now - start >= c.window then now else start
  {
    assert (times + [now])[..|times|] == times;
    hide Clock, Allowed;
  }

  function Repeat(now: int, n: nat): seq<int> { if n == 0 then [] else Repeat(now, n - 1) + [now] }

  lemma ClockNext(times: seq<int>, now: int)
    requires Clock(times) && Last(times) <= now
    ensures Clock(times + [now])
  {
    assert (times + [now])[..|times|] == times;
  }

  lemma {:induction false} Burst(c: Config, times: seq<int>, now: int, n: nat, lo: int, hi: int)
    requires Clock(times) && Last(times) <= now && lo <= now < hi && 0 <= now - After(c, times).start < c.window
    requires After(c, times).count + n <= c.limit
    ensures Clock(times + Repeat(now, n)) && Last(times + Repeat(now, n)) <= now
    ensures After(c, times + Repeat(now, n)) == View(After(c, times).start, After(c, times).count + n)
    ensures Allowed(c, times + Repeat(now, n), lo, hi) == Allowed(c, times, lo, hi) + n
  {
    hide After, Allowed, Clock;
    if n == 0 {
      assert times + [] == times;
    } else {
      Burst(c, times, now, n - 1, lo, hi);
      var before := times + Repeat(now, n - 1);
      assert times + Repeat(now, n) == before + [now];
      ClockNext(before, now);
      AllowedNext(c, before, now, lo, hi);
    }
  }

  /** That bound is reached: one early call, the rest of the window's at its last instant, the next
      window's at once. */
  lemma BoundIsReached(c: Config) returns (times: seq<int>, t: int)
    requires c.limit >= 1 && c.window >= 2
    ensures Clock(times) && times != [] && times[0] >= c.window
    ensures Allowed(c, times, t, t + c.window) == 2 * c.limit - 1
  {
    hide After, Allowed, Clock, Repeat;
    var w: int := c.window;
    t := 2 * w - 1;
    var first := OpenWindow(c, w, t, t + w);
    Burst(c, first, t, c.limit - 1, t, t + w);
    var full := first + Repeat(t, c.limit - 1);
    assert full[0] == w;
    NextWindow(c, full, t + 1, t, t + w);
    var more := full + [t + 1];
    Burst(c, more, t + 1, c.limit - 1, t, t + w);
    times := more + Repeat(t + 1, c.limit - 1);
  }

  lemma NextWindow(c: Config, times: seq<int>, now: int, lo: int, hi: int)
    requires c.limit >= 1 && c.window >= 2 && Clock(times) && Last(times) <= now && lo <= now < hi
    requires now == After(c, times).start + c.window
    ensures Clock(times + [now]) && Last(times + [now]) == now && After(c, times + [now]) == View(now, 1)
    ensures Allowed(c, times + [now], lo, hi) == Allowed(c, times, lo, hi) + 1
  {
    ClockNext(times, now);
    AllowedNext(c, times, now, lo, hi);
  }

  lemma OpenWindow(c: Config, now: int, lo: int, hi: int) returns (times: seq<int>)
    requires c.limit >= 1 && c.window >= 2 && now == c.window < lo
    ensures times == [now] && Clock(times) && After(c, times) == View(now, 1) && Allowed(c, times, lo, hi) == 0
  {
    times := [now];
    assert times == [] + [now];
    ClockNext([], now);
    AllowedNext(c, [], now, lo, hi);
  }
}
