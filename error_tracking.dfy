/** The error tracker of `utils/logging.py`: per-kind error counters that are
    cleared wholesale once the reset interval has passed, a warning whenever a
    kind's count is above the alert threshold, and the text of the error line
    each tracked error logs.

    `ErrorTracker` updates its dictionary and reset time in place, so it is a
    class; its methods are specified by the pure step functions `ResetOf`,
    `IncrementOf` and `TrackOf`. Logging is not performed: `track` returns
    whether it would warn and the error line it would write. */
module ErrorTracking {
  import opened Common

  /** `_error_counts` and `_last_reset`. */
  datatype TrackerState = TrackerState(counts: map<string, int>, lastReset: int)

  /** The effect of one increment: the state afterwards and whether the
      high-error-rate warning is logged. */
  datatype TrackStep = TrackStep(state: TrackerState, warned: bool)

  /** `dict.get(kind, 0)`. */
  function CountOf(counts: map<string, int>, kind: string): int
  {
    if kind in counts then counts[kind] else 0
  }

  /** `_check_reset` at time `now`. */
  function ResetOf(s: TrackerState, now: int, interval: int): TrackerState
  {
    if now - s.lastReset > interval then TrackerState(map[], now) else s
  }

  /** `_increment_count(kind)`. */
  function IncrementOf(s: TrackerState, kind: string, threshold: int): TrackStep
  {
    var n := CountOf(s.counts, kind) + 1;
    TrackStep(s.(counts := s.counts[kind := n]), n > threshold)
  }

  /** The counting half of `track(kind)`: a possible reset, then the increment. */
  function TrackOf(s: TrackerState, kind: string, now: int, interval: int, threshold: int): TrackStep
  {
    IncrementOf(ResetOf(s, now, interval), kind, threshold)
  }

  /** `_log_error`: the line written for an error of kind `kind`, if any.
      `error` is the text of the exception, which is present exactly when an
      exception is passed (exceptions are always truthy). */
  function ErrorLine(kind: string, context: Option<string>, error: Option<string>): (r: Option<string>)
    ensures r.Some? <==> Truthy(context) || error.Some?
  {
    if Truthy(context) || error.Some? then
      Some(Upper(kind) + ": " + ContextText(context) + ErrorTail(error))
    else None
  }

  /** `context or ''`. */
  function ContextText(context: Option<string>): string
  {
    if context.Some? then context.value else ""
  }

  /** What follows the context: `" - "` and the exception's text when there is one. */
  function ErrorTail(error: Option<string>): string
  {
    if error.Some? then " - " + error.value else ""
  }

  class ErrorTracker {
    var errorCounts: map<string, int>
    var lastReset: int
    const resetInterval: int
    const alertThreshold: int

    function State(): TrackerState
      reads this
    {
      TrackerState(errorCounts, lastReset)
    }

    constructor (resetInterval: int, alertThreshold: int, now: int)
      ensures this.resetInterval == resetInterval && this.alertThreshold == alertThreshold
      ensures State() == TrackerState(map[], now)
    {
      this.errorCounts := map[];
      this.lastReset := now;
      this.resetInterval := resetInterval;
      this.alertThreshold := alertThreshold;
    }

    /** `track(kind, context, error)` at time `now`: whether the warning is
        logged, and the error line logged (if any). */
    method Track(kind: string, context: Option<string>, error: Option<string>, now: int)
      returns (warned: bool, line: Option<string>)
      modifies this
      ensures TrackOf(old(State()), kind, now, resetInterval, alertThreshold) == TrackStep(State(), warned)
      ensures line == ErrorLine(kind, context, error)
    {
      CheckReset(now);
      warned := IncrementCount(kind);
      line := ErrorLine(kind, context, error);
    }

    method CheckReset(now: int)
      modifies this
      ensures State() == ResetOf(old(State()), now, resetInterval)
    {
      var currentTime := now;
      if currentTime - lastReset > resetInterval {
        errorCounts := map[];
        lastReset := currentTime;
      }
    }

    method IncrementCount(kind: string) returns (warned: bool)
      modifies this
      ensures IncrementOf(old(State()), kind, alertThreshold) == TrackStep(State(), warned)
    {
      errorCounts := errorCounts[kind := CountOf(errorCounts, kind) + 1];
      warned := errorCounts[kind] > alertThreshold;
    }
  }

  // ---------------------------------------------------------------------------
  // Properties of the tracker

  /** `track(kind)` raises the count of `kind` by exactly one over what is left
      after the reset check (so from 0 if absent), and leaves every other kind
      exactly as the reset check left it. */
  lemma TrackCountsOnlyItsKind(s: TrackerState, kind: string, now: int, interval: int, threshold: int)
    ensures var before := ResetOf(s, now, interval);
      var after := TrackOf(s, kind, now, interval, threshold).state;
      && CountOf(after.counts, kind) == CountOf(before.counts, kind) + 1
      && after.lastReset == before.lastReset
      && (forall k :: k != kind ==> (k in after.counts <==> k in before.counts))
      && (forall k :: k != kind && k in before.counts ==> after.counts[k] == before.counts[k])
  {
  }

  /** The warning is logged exactly when the new count is above the threshold:
      on every call past it, not only on the one that crosses it. */
  lemma WarnsIffAboveThreshold(s: TrackerState, kind: string, now: int, interval: int, threshold: int)
    ensures var r := TrackOf(s, kind, now, interval, threshold);
      r.warned <==> CountOf(r.state.counts, kind) > threshold
  {
  }

  /** When the reset interval has passed, every count is cleared before the
      increment: afterwards only the tracked kind is counted, once, and the
      reset time is `now`. Otherwise no count is dropped. */
  lemma ResetClearsEverything(s: TrackerState, kind: string, now: int, interval: int, threshold: int)
    ensures now - s.lastReset > interval ==>
      TrackOf(s, kind, now, interval, threshold) == TrackStep(TrackerState(map[kind := 1], now), 1 > threshold)
    ensures now - s.lastReset <= interval ==>
      var after := TrackOf(s, kind, now, interval, threshold).state;
      after.lastReset == s.lastReset && after.counts.Keys == s.counts.Keys + {kind}
  {
  }

  /** `n` calls of `track(kind)` at time `now`: the state afterwards and the
      number of warnings logged. */
  function TrackRepeatedly(s: TrackerState, kind: string, now: int, interval: int, threshold: int, n: nat): (TrackerState, nat)
    decreases n
  {
    if n == 0 then (s, 0)
    else
      var r := TrackOf(s, kind, now, interval, threshold);
      var rest := TrackRepeatedly(r.state, kind, now, interval, threshold, n - 1);
      (rest.0, rest.1 + if r.warned then 1 else 0)
  }

  function Max(a: int, b: int): int
  {
    if a < b then b else a
  }

  /** Without a reset, `n` calls of `track(kind)` starting from a count `c`
      reach `c + n` and warn once for every call that ends above the
      threshold: `max(0, c + n - max(c, threshold))` warnings. */
  lemma {:induction false} RepeatedTrackingWarnings(s: TrackerState, kind: string, now: int, interval: int, threshold: int, n: nat)
    requires now - s.lastReset <= interval
    requires CountOf(s.counts, kind) >= 0
    ensures var c := CountOf(s.counts, kind);
      var r := TrackRepeatedly(s, kind, now, interval, threshold, n);
      && CountOf(r.0.counts, kind) == c + n
      && r.0.lastReset == s.lastReset
      && r.1 == Max(0, c + n - Max(c, threshold))
    decreases n
  {
    if n > 0 {
      var r := TrackOf(s, kind, now, interval, threshold);
      assert CountOf(r.state.counts, kind) == CountOf(s.counts, kind) + 1;
      RepeatedTrackingWarnings(r.state, kind, now, interval, threshold, n - 1);
    }
  }

  // ---------------------------------------------------------------------------
  // Properties of the error line

  /** The error line names the kind in upper case, then the context (or
      nothing), then the exception text after " - " when one is given. */
  lemma ErrorLineLayout(kind: string, context: Option<string>, error: Option<string>)
    requires Truthy(context) || error.Some?
    ensures var line := ErrorLine(kind, context, error).value;
      var ctx := ContextText(context);
      && line[..|kind| + 2] == Upper(kind) + ": "
      && line[|kind| + 2..|kind| + 2 + |ctx|] == ctx
      && (error.Some? ==> line[|kind| + 2 + |ctx|..] == " - " + error.value)
      && (error.None? ==> |line| == |kind| + 2 + |ctx|)
  {
    ThreeParts(Upper(kind) + ": ", ContextText(context), ErrorTail(error));
  }

  /** Only the presence of an exception, not its text, decides whether a line
      is written when the context is empty or absent. */
  lemma ErrorWithoutContextIsLogged(kind: string, error: string)
    ensures ErrorLine(kind, None, Some(error)) == Some(Upper(kind) + ": " + " - " + error)
    ensures ErrorLine(kind, Some(""), None) == None
  {
    var u := Upper(kind) + ": ";
    assert ContextText(None) == "" && ErrorTail(Some(error)) == " - " + error;
    assert u + "" + (" - " + error) == u + " - " + error;
  }
}
