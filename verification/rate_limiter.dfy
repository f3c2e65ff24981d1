/** A fixed-window request counter: at most `maxRequests` admissions per window. */
module RateLimiters {

  import opened MachineInts

  datatype RateLimiter = RateLimiter(maxRequests: u32, window: u64, requests: u32, startTime: u64)

  /** The outcome of one `is_within_limit` call: the limiter afterwards and the verdict. */
  datatype Admission = Admission(limiter: RateLimiter, admitted: bool)

  /** The counter never exceeds the budget. */
  predicate Valid(rl: RateLimiter)
  {
    rl.requests <= rl.maxRequests
  }

  /** The window has run out strictly before `now`; at exactly `startTime + window` it has not. */
  predicate WindowExpired(rl: RateLimiter, now: u64)
    requires rl.startTime <= now
  {
    now - rl.startTime > rl.window
  }

  /** `RateLimiter::new`, with the clock reading passed in as `now`. */
  function New(maxRequests: u32, window: u64, now: u64): (rl: RateLimiter)
    ensures rl.maxRequests == maxRequests && rl.window == window
    ensures rl.requests == 0 && rl.startTime == now
    ensures Valid(rl)
  {
    RateLimiter(maxRequests, window, 0, now)
  }

  /** `RateLimiter::is_within_limit` at time `now`: reset an expired window, then admit while under budget.
      The source subtracts `start_time` from the clock in `u64`, so the clock must not run backwards. */
  function IsWithinLimit(rl: RateLimiter, now: u64): (a: Admission)
    requires rl.startTime <= now
    ensures a.limiter.maxRequests == rl.maxRequests && a.limiter.window == rl.window
    ensures rl.startTime <= a.limiter.startTime <= now
    ensures a.limiter.startTime == (if WindowExpired(rl, now) then now else rl.startTime)
    ensures var current := if WindowExpired(rl, now) then 0 else rl.requests;
            && (a.admitted <==> current < rl.maxRequests)
            && a.limiter.requests == (if a.admitted then current + 1 else current)
    ensures Valid(rl) ==> Valid(a.limiter)
  {
    var rl1 := if now - rl.startTime > rl.window then rl.(startTime := now, requests := 0) else rl;
    if rl1.requests < rl1.maxRequests then
      Admission(rl1.(requests := rl1.requests + 1), true)
    else
      Admission(rl1, false)
  }

  /** A rejected call changes nothing but, possibly, the window start. */
  lemma RejectedKeepsCount(rl: RateLimiter, now: u64)
    requires rl.startTime <= now && Valid(rl)
    requires !IsWithinLimit(rl, now).admitted
    ensures IsWithinLimit(rl, now).limiter.(startTime := rl.startTime) == rl
  {
  }

  /** Past the window, a limiter with a non-zero budget admits again and restarts its count at 1. */
  lemma ExpiredWindowReadmits(rl: RateLimiter, now: u64)
    requires rl.startTime <= now && WindowExpired(rl, now) && rl.maxRequests > 0
    ensures IsWithinLimit(rl, now).admitted
    ensures IsWithinLimit(rl, now).limiter.requests == 1
    ensures IsWithinLimit(rl, now).limiter.startTime == now
  {
  }

  /** Clock readings that never run backwards and never precede `start`. */
  predicate ClockFrom(start: u64, times: seq<u64>)
  {
    && (forall i :: 0 <= i < |times| ==> start <= times[i])
    && (forall i, j :: 0 <= i < j < |times| ==> times[i] <= times[j])
  }

  /** Calls made at each of `times` in turn: the verdicts, and the limiter left behind. */
  function Run(rl: RateLimiter, times: seq<u64>): (res: (seq<bool>, RateLimiter))
    requires ClockFrom(rl.startTime, times)
    ensures |res.0| == |times|
    decreases |times|
  {
    if |times| == 0 then ([], rl)
    else
      var a := IsWithinLimit(rl, times[0]);
      var rest := Run(a.limiter, times[1..]);
      ([a.admitted] + rest.0, rest.1)
  }

  /** The number of admissions in a list of verdicts. */
  function CountAdmitted(outs: seq<bool>): nat
  {
    if |outs| == 0 then 0
    else (if outs[0] then 1 else 0) + CountAdmitted(outs[1..])
  }

  /** Within one window, the i-th call is admitted exactly when the budget still has room for it. */
  lemma {:induction false} RunWithinWindow(rl: RateLimiter, times: seq<u64>)
    requires Valid(rl) && ClockFrom(rl.startTime, times)
    requires forall i :: 0 <= i < |times| ==> times[i] <= rl.startTime + rl.window
    ensures forall i :: 0 <= i < |times| ==> Run(rl, times).0[i] == (rl.requests + i < rl.maxRequests)
    decreases |times|
  {
    if |times| > 0 {
      var a := IsWithinLimit(rl, times[0]);
      assert !WindowExpired(rl, times[0]);
      assert a.limiter.startTime == rl.startTime;
      var tail := times[1..];
      RunWithinWindow(a.limiter, tail);
      var outs := Run(rl, times).0;
      assert outs == [a.admitted] + Run(a.limiter, tail).0;
      forall i | 0 <= i < |times|
        ensures outs[i] == (rl.requests + i < rl.maxRequests)
      {
        if i > 0 {
          assert outs[i] == Run(a.limiter, tail).0[i - 1];
        }
      }
    }
  }

  /** Within one window, no more calls are admitted than the budget has left. */
  lemma {:induction false} RunAdmitsAtMostBudget(rl: RateLimiter, times: seq<u64>)
    requires Valid(rl) && ClockFrom(rl.startTime, times)
    requires forall i :: 0 <= i < |times| ==> times[i] <= rl.startTime + rl.window
    ensures CountAdmitted(Run(rl, times).0) <= rl.maxRequests - rl.requests
    decreases |times|
  {
    if |times| > 0 {
      var a := IsWithinLimit(rl, times[0]);
      assert !WindowExpired(rl, times[0]);
      RunAdmitsAtMostBudget(a.limiter, times[1..]);
      var outs := Run(rl, times).0;
      assert outs[1..] == Run(a.limiter, times[1..]).0;
    }
  }

  /** A fresh limiter with budget `n`, called within its first window: the first `n` calls pass, the rest fail. */
  lemma FreshLimiterAdmitsExactlyBudget(n: u32, window: u64, t0: u64, times: seq<u64>)
    requires ClockFrom(t0, times)
    requires forall i :: 0 <= i < |times| ==> times[i] <= t0 + window
    ensures forall i :: 0 <= i < |times| ==> Run(New(n, window, t0), times).0[i] == (i < n)
  {
    RunWithinWindow(New(n, window, t0), times);
  }

  /** The test scenario: budget 5, window 60, six calls in the same second; five pass, the sixth fails. */
  lemma FiveThenReject(t0: u64)
    ensures Run(New(5, 60, t0), [t0, t0, t0, t0, t0, t0]).0 == [true, true, true, true, true, false]
  {
    var times := [t0, t0, t0, t0, t0, t0];
    FreshLimiterAdmitsExactlyBudget(5, 60, t0, times);
  }
}
