/** The rate limiter of `utils/rate_limiting.py`: fixed-window admission
    control (`wait`) and capped exponential backoff after a provider-side
    rate-limit error (`handle_rate_limit`).

    `wait` updates the limiter's counter and window start in place, so it is a
    method of the class `RateLimiter`, specified by the pure step function
    `WaitOf`. Sleeping is not performed: each operation returns the number of
    seconds it would sleep, and the clock is the explicit parameter `now`. */
module RateLimiting {
  import opened Common

  /** The configuration a limiter is constructed with. */
  datatype Limits = Limits(windowSeconds: int, maxRequests: int, buffer: int, minSleep: int, maxSleep: int)

  /** The mutable part of a limiter: `_requests_count` and `_last_request`. */
  datatype Window = Window(count: int, lastRequest: int)

  /** The effect of one `wait()`: the window afterwards and the seconds slept. */
  datatype WaitStep = WaitStep(window: Window, slept: int)

  /** The clock reading once the sleep of a `wait()` begun at `now` is over. */
  function Resumed(now: int, w: WaitStep): int
  {
    now + w.slept
  }

  /** The base wait used when `handle_rate_limit` is given an error. */
  const ErrorBaseWait := 180

  /** `wait()` at time `now`. After a sleep of `t` seconds the clock reads
      `now + t`, which is what the window start is set to. */
  function WaitOf(lim: Limits, w: Window, now: int): (r: WaitStep)
    ensures w.lastRequest <= now ==> r.slept == 0 || 0 < r.slept <= lim.windowSeconds
  {
    var w1 := if now - w.lastRequest > lim.windowSeconds then Window(0, now) else w;
    var waitTime := lim.windowSeconds - (now - w1.lastRequest);
    if w1.count >= lim.maxRequests - lim.buffer && waitTime > 0 then
      WaitStep(Window(1, now + waitTime), waitTime)
    else
      WaitStep(Window(w1.count + 1, w1.lastRequest), 0)
  }

  function Pow2(n: nat): (r: nat)
    ensures r >= 1
  {
    if n == 0 then 1 else 2 * Pow2(n - 1)
  }

  /** `min(base * 2 ** attempt, cap)`. */
  function Backoff(base: int, attempt: nat, cap: int): (r: int)
    ensures r <= cap && r <= base * Pow2(attempt)
    ensures r == cap || r == base * Pow2(attempt)
  {
    if base * Pow2(attempt) < cap then base * Pow2(attempt) else cap
  }

  /** `_is_rate_limit_error`: the lower-cased error text mentions "429" or
      "rate limit". */
  predicate IsRateLimitError(error: string)
  {
    Contains(Lower(error), "429") || Contains(Lower(error), "rate limit")
  }

  class RateLimiter {
    const name: string
    const windowSeconds: int
    const maxRequests: int
    const buffer: int
    const minSleep: int
    const maxSleep: int
    var lastRequest: int
    var requestsCount: int

    function Config(): Limits
    {
      Limits(windowSeconds, maxRequests, buffer, minSleep, maxSleep)
    }

    function State(): Window
      reads this
    {
      Window(requestsCount, lastRequest)
    }

    constructor (name: string, windowSeconds: int, maxRequests: int, buffer: int, minSleep: int, maxSleep: int)
      ensures Config() == Limits(windowSeconds, maxRequests, buffer, minSleep, maxSleep)
      ensures State() == Window(0, 0)
    {
      this.name := name;
      this.windowSeconds := windowSeconds;
      this.maxRequests := maxRequests;
      this.buffer := buffer;
      this.minSleep := minSleep;
      this.maxSleep := maxSleep;
      this.lastRequest := 0;
      this.requestsCount := 0;
    }

    method Wait(now: int) returns (slept: int)
      modifies this
      ensures WaitOf(Config(), old(State()), now) == WaitStep(State(), slept)
    {
      var currentTime := now;
      if currentTime - lastRequest > windowSeconds {
        requestsCount := 0;
        lastRequest := currentTime;
      }
      slept := 0;
      if requestsCount >= maxRequests - buffer {
        var waitTime := windowSeconds - (currentTime - lastRequest);
        if waitTime > 0 {
          slept := waitTime;
          requestsCount := 0;
          lastRequest := currentTime + waitTime;
        }
      }
      requestsCount := requestsCount + 1;
    }

    /** `handle_rate_limit`: whether a retry is permitted, and the seconds
        slept before saying so. The limiter's state is not touched. */
    method HandleRateLimit(attempt: nat, maxRetries: int, error: Option<string>) returns (retry: bool, slept: int)
      ensures retry <==> attempt < maxRetries - 1 && (error.None? || IsRateLimitError(error.value))
      ensures !retry ==> slept == 0
      ensures retry ==> slept == Backoff(if error.Some? then ErrorBaseWait else minSleep, attempt, maxSleep)
    {
      if attempt >= maxRetries - 1 {
        return false, 0;
      }
      if error.Some? && !IsRateLimitError(error.value) {
        return false, 0;
      }
      var baseWait := if error.Some? then ErrorBaseWait else minSleep;
      var waitTime := Backoff(baseWait, attempt, maxSleep);
      return true, waitTime;
    }
  }

  // ---------------------------------------------------------------------------
  // Properties of `wait`

  /** Every `wait()` admits the request: the count grows by exactly one from
      the value left after any reset, so it is at least one afterwards and is
      exactly one after a window reset or a sleep. */
  lemma WaitCountsTheRequest(lim: Limits, w: Window, now: int)
    requires w.count >= 0
    ensures var r := WaitOf(lim, w, now);
      && r.window.count >= 1
      && (now - w.lastRequest > lim.windowSeconds || r.slept > 0 ==> r.window.count == 1)
      && (now - w.lastRequest <= lim.windowSeconds && r.slept == 0 ==> r.window.count == w.count + 1)
  {
  }

  /** When the window has passed, `wait()` starts a fresh window at `now` and
      passes straight through (given room for at least one request). */
  lemma WaitResetsExpiredWindow(lim: Limits, w: Window, now: int)
    requires now - w.lastRequest > lim.windowSeconds
    requires lim.maxRequests - lim.buffer > 0
    ensures WaitOf(lim, w, now) == WaitStep(Window(1, now), 0)
  {
  }

  /** When the count has reached `max_requests - buffer` inside the window,
      `wait()` sleeps for exactly the rest of the window and starts a new one. */
  lemma WaitSleepsOutTheWindow(lim: Limits, w: Window, now: int)
    requires w.lastRequest <= now && now - w.lastRequest < lim.windowSeconds
    requires w.count >= lim.maxRequests - lim.buffer
    ensures var rest := lim.windowSeconds - (now - w.lastRequest);
      WaitOf(lim, w, now) == WaitStep(Window(1, now + rest), rest)
  {
  }

  /** The count never passes `max_requests - buffer`, except at the single
      instant where exactly `window_seconds` have elapsed: there the window is
      neither reset (strict `>`) nor waited out (the remaining time is 0). */
  lemma WaitKeepsCountBound(lim: Limits, w: Window, now: int)
    requires lim.maxRequests - lim.buffer >= 1
    requires 0 <= w.count <= lim.maxRequests - lim.buffer
    requires w.lastRequest <= now
    requires now - w.lastRequest != lim.windowSeconds
    ensures WaitOf(lim, w, now).window.count <= lim.maxRequests - lim.buffer
  {
  }

  /** The exception of `WaitKeepsCountBound` happens: at the boundary instant
      the request is counted in the old window without sleeping, so a full
      window admits one request more than `max_requests - buffer`. */
  lemma WaitOvershootsAtWindowBoundary(lim: Limits, w: Window, now: int)
    requires now - w.lastRequest == lim.windowSeconds
    ensures WaitOf(lim, w, now) == WaitStep(Window(w.count + 1, w.lastRequest), 0)
    ensures w.count >= lim.maxRequests - lim.buffer ==>
      WaitOf(lim, w, now).window.count > lim.maxRequests - lim.buffer
  {
  }

  /** With `max_requests = 5`, `buffer = 1` and a 10-second window, four
      requests pass immediately, the fifth sleeps out the window, and a request
      after the window has fully elapsed passes immediately in a fresh window. */
  lemma WaitScenario()
    ensures var lim := Limits(10, 5, 1, 60, 900);
      var s1 := WaitOf(lim, Window(0, 0), 100);
      var s2 := WaitOf(lim, s1.window, 101);
      var s3 := WaitOf(lim, s2.window, 102);
      var s4 := WaitOf(lim, s3.window, 103);
      var s5 := WaitOf(lim, s4.window, 104);
      var s6 := WaitOf(lim, s5.window, 104 + s5.slept + 11);
      && s1.slept == 0 && s2.slept == 0 && s3.slept == 0 && s4.slept == 0
      && s4.window.count == 4
      && s5.slept == 6 && s5.window == Window(1, 110)
      && s6 == WaitStep(Window(1, 121), 0)
  {
  }

  // ---------------------------------------------------------------------------
  // Properties of the backoff

  lemma {:induction false} Pow2Monotone(a: nat, b: nat)
    requires a <= b
    ensures Pow2(a) <= Pow2(b)
    decreases b
  {
    if a < b {
      Pow2Monotone(a, b - 1);
    }
  }

  /** The backoff never exceeds `max_sleep` and does not decrease as the
      attempt number grows. */
  lemma BackoffMonotone(base: int, a: nat, b: nat, cap: int)
    requires base >= 0 && a <= b
    ensures Backoff(base, a, cap) <= Backoff(base, b, cap) <= cap
  {
    Pow2Monotone(a, b);
    assert base * Pow2(a) <= base * Pow2(b) by {
      var d := Pow2(b) - Pow2(a);
      assert base * Pow2(b) == base * Pow2(a) + base * d;
    }
  }

  /** `handle_rate_limit` on the Twitter configuration (window 900, 15
      requests, buffer 1, sleeps between 60 and 900) with `max_retries = 3`:
      for an error text carrying a 429, attempt 2 gives up without sleeping,
      because the attempt count is checked first, and attempt 1 sleeps
      `min(180 * 2, 900)`; without an error, attempt 0 sleeps `min_sleep`; an
      error text with no '4' and no 'r' is not retried at all. */
  method HandleRateLimitScenario(tooMany: string, other: string)
    returns (retry2: bool, slept2: int, retry1: bool, slept1: int, retry0: bool, slept0: int, retryOther: bool)
    requires OccursAt(tooMany, "429", 0)
    requires forall i :: 0 <= i < |other| ==> LowerChar(other[i]) != '4' && LowerChar(other[i]) != 'r'
    ensures !retry2 && slept2 == 0
    ensures retry1 && slept1 == 360
    ensures retry0 && slept0 == 60
    ensures !retryOther
  {
    var limiter := new RateLimiter("Twitter", 900, 15, 1, 60, 900);
    StatusCodeIsRateLimitError(tooMany, 0);
    retry2, slept2 := limiter.HandleRateLimit(2, 3, Some(tooMany));
    retry1, slept1 := limiter.HandleRateLimit(1, 3, Some(tooMany));
    retry0, slept0 := limiter.HandleRateLimit(0, 3, None);
    OtherErrorsAreNotRateLimitErrors(other);
    var ignored;
    retryOther, ignored := limiter.HandleRateLimit(0, 3, Some(other));
  }

  // ---------------------------------------------------------------------------
  // Properties of the classifier

  /** Any text in which "429" occurs is rate-limit shaped. */
  lemma StatusCodeIsRateLimitError(error: string, i: int)
    requires OccursAt(error, "429", i)
    ensures IsRateLimitError(error)
  {
    var l := Lower(error);
    assert error[i..i + 3][0] == error[i] && error[i..i + 3][1] == error[i + 1] && error[i..i + 3][2] == error[i + 2];
    assert l[i..i + 3] == "429";
    ContainsAt(l, "429", i);
  }

  /** Any text in which "rate limit" occurs, in any mix of ASCII cases, is
      rate-limit shaped. */
  lemma PhraseIsRateLimitError(error: string, i: int)
    requires 0 <= i && i + 10 <= |error|
    requires forall k :: 0 <= k < 10 ==> LowerChar(error[i + k]) == "rate limit"[k]
    ensures IsRateLimitError(error)
  {
    var l := Lower(error);
    assert l[i..i + 10] == "rate limit";
    ContainsAt(l, "rate limit", i);
  }

  /** A text in which the first character of a word never occurs does not
      contain the word. */
  lemma NotContainsWithoutFirstChar(s: string, w: string)
    requires w != []
    requires forall i :: 0 <= i < |s| ==> s[i] != w[0]
    ensures !Contains(s, w)
  {
    ContainsIff(s, w);
    forall i
      ensures !OccursAt(s, w, i)
    {
      OccurrenceStartsWithFirstChar(s, w, i);
    }
  }

  lemma OccurrenceStartsWithFirstChar(s: string, w: string, i: int)
    requires w != []
    ensures OccursAt(s, w, i) ==> s[i] == w[0]
  {
    if OccursAt(s, w, i) {
      assert s[i..i + |w|][0] == s[i];
    }
  }

  /** A text with no '4' and no 'r' or 'R' is not rate-limit shaped. */
  lemma OtherErrorsAreNotRateLimitErrors(error: string)
    requires forall i :: 0 <= i < |error| ==> LowerChar(error[i]) != '4' && LowerChar(error[i]) != 'r'
    ensures !IsRateLimitError(error)
  {
    NotContainsWithoutFirstChar(Lower(error), "429");
    NotContainsWithoutFirstChar(Lower(error), "rate limit");
  }
}
