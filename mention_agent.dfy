/** `check_mentions` of `bittensor_agent.py`: fetch the bot's recent mentions,
    skip those older than the look-back cutoff, run the image detector on the
    others (retrying once after a "429" rate-limit error), and report how many
    mentions were processed, how many images were analyzed and how many old
    tweets were skipped. The bot's user id is fetched once and remembered.

    The memoised id is the one piece of state, so `MentionChecker` is a class
    with that field. The clock is the parameter `now` (seconds), mention
    times are already-parsed seconds (or the parse error), the Twitter client
    and the detector are oracles (the detector indexed by the mention's
    position and the attempt number), and every sleep is added to the
    returned `slept` total. */
module MentionAgent {
  import opened Common

  const CheckIntervalMinutes := 15
  const LookbackMinutes := 45

  /** What `get_me()` gives: an exception, a response without usable
      `data`, or the bot's id. */
  datatype GetMe = MeRaised(error: string) | MeMissing | MeFound(id: string)

  /** A mention's `created_at`, parsed to seconds, or the exception raised
      while reading or parsing it. */
  datatype Timestamp = Parsed(t: int) | Unparseable(error: string)

  /** An element of the mentions' `data`: something that is not a dictionary
      with an `id`, or a mention. */
  datatype MentionItem = NotAMention | MentionItem(id: string, createdAt: Timestamp)

  /** What `get_users_mentions` gives: an exception, nothing usable (no
      response, an empty dictionary or not a dictionary), or the `data` list
      (absent `data` reads as empty). */
  datatype MentionsFetch = MentionsRaised(error: string) | NoResponse | Response(data: seq<MentionItem>)

  /** What one `detect_image` call does: return a status or raise. */
  datatype DetectOutcome = Analysis(status: Status) | DetectRaised(error: string)

  /** The result of `check_mentions`, with the seconds it slept. */
  datatype CheckOutcome = CheckOutcome(status: Status, message: string, slept: nat)

  /** `"429" in str(e)`. */
  predicate IsRateLimited(error: string)
  {
    Contains(error, "429")
  }

  function Cutoff(now: int): int
  {
    now - LookbackMinutes * 60
  }

  // ---------------------------------------------------------------------------
  // One mention

  /** What the loop body does with one element of `data`. */
  datatype MentionStep =
    | Invalid                                 // not a mention: nothing counted
    | Stale                                   // older than the cutoff: skipped
    | Fresh(analyzed: bool, retried: bool)    // processed
    | ParseFailed(error: string)              // `created_at` raised: the run fails
    | RateLimitPersists                       // 429 on the retry too: the run fails

  /** The loop body for the element at position `k`. */
  function StepOf(item: MentionItem, k: nat, cutoff: int, detect: (nat, nat) -> DetectOutcome): (r: MentionStep)
    ensures r.Invalid? <==> item.NotAMention?
    ensures r.ParseFailed? <==> item.MentionItem? && item.createdAt.Unparseable?
    ensures r.ParseFailed? ==> r.error == item.createdAt.error
    ensures r.Stale? <==> item.MentionItem? && item.createdAt.Parsed? && item.createdAt.t < cutoff
    ensures r.Fresh? || r.RateLimitPersists? ==>
      && item.MentionItem? && item.createdAt.Parsed? && item.createdAt.t >= cutoff
      && (r.RateLimitPersists? || r.retried <==> detect(k, 0).DetectRaised? && IsRateLimited(detect(k, 0).error))
    ensures r.RateLimitPersists? ==> detect(k, 1).DetectRaised? && IsRateLimited(detect(k, 1).error)
    ensures r.Fresh? ==> (r.analyzed <==> detect(k, if r.retried then 1 else 0) == Analysis(Done))
  {
    match item
    case NotAMention => Invalid
    case MentionItem(_, ts) =>
      match ts
      case Unparseable(e) => ParseFailed(e)
      case Parsed(t) =>
        if t < cutoff then Stale
        else
          match detect(k, 0)
          case Analysis(status) => Fresh(status == Done, false)
          case DetectRaised(e) =>
            if !IsRateLimited(e) then Fresh(false, false)
            else
              match detect(k, 1)
              case Analysis(status) => Fresh(status == Done, true)
              case DetectRaised(e2) => if IsRateLimited(e2) then RateLimitPersists else Fresh(false, true)
  }

  /** The seconds the loop body sleeps: 5 before analysing, and 60 more
      before the retry. */
  function StepSleep(s: MentionStep): nat
  {
    match s
    case Fresh(_, retried) => if retried then 65 else 5
    case RateLimitPersists => 65
    case _ => 0
  }

  // ---------------------------------------------------------------------------
  // The loop

  /** How the loop over `data` ends. */
  datatype LoopEnd =
    | Finished(processed: nat, analyzed: nat, skipped: nat, slept: nat)
    | Aborted(error: string, slept: nat)
    | Persisted(slept: nat)

  function ScanFrom(ms: seq<MentionItem>, i: nat, cutoff: int, detect: (nat, nat) -> DetectOutcome,
                    processed: nat, analyzed: nat, skipped: nat, slept: nat): LoopEnd
    requires i <= |ms|
    decreases |ms| - i
  {
    if i == |ms| then Finished(processed, analyzed, skipped, slept)
    else
      var step := StepOf(ms[i], i, cutoff, detect);
      match step
      case Invalid => ScanFrom(ms, i + 1, cutoff, detect, processed, analyzed, skipped, slept)
      case Stale => ScanFrom(ms, i + 1, cutoff, detect, processed, analyzed, skipped + 1, slept)
      case Fresh(a, _) =>
        ScanFrom(ms, i + 1, cutoff, detect, processed + 1, analyzed + (if a then 1 else 0), skipped,
                 slept + StepSleep(step))
      case ParseFailed(e) => Aborted(e, slept)
      case RateLimitPersists => Persisted(slept + StepSleep(step))
  }

  function Summary(processed: nat, analyzed: nat, skipped: nat): string
  {
    "Processed " + NatToString(processed) + " mentions, analyzed " + NatToString(analyzed)
      + " images, skipped " + NatToString(skipped) + " old tweets"
  }

  function ErrorMessage(e: string): string
  {
    "Error encountered while processing mentions: " + e
  }

  /** The handlers around the Twitter calls: a rate-limit error sleeps 900
      seconds and fails; any other error fails through the outer handler. */
  function TwitterCallFailed(e: string): CheckOutcome
  {
    if IsRateLimited(e) then CheckOutcome(Failed, "Rate limit hit, waiting for reset", 900)
    else CheckOutcome(Failed, ErrorMessage(e), 0)
  }

  /** The outcome once the mentions are fetched. */
  function MentionsOutcome(fetched: MentionsFetch, now: int, detect: (nat, nat) -> DetectOutcome): CheckOutcome
  {
    match fetched
    case MentionsRaised(e) => TwitterCallFailed(e)
    case NoResponse => CheckOutcome(Done, "No mentions retrieved", 0)
    case Response(ms) =>
      if ms == [] then CheckOutcome(Done, "No mentions data available", 0)
      else
        match ScanFrom(ms, 0, Cutoff(now), detect, 0, 0, 0, 0)
        case Finished(p, a, s, slept) => CheckOutcome(Done, Summary(p, a, s), slept)
        case Aborted(e, slept) => CheckOutcome(Failed, ErrorMessage(e), slept + if IsRateLimited(e) then 60 else 0)
        case Persisted(slept) => CheckOutcome(Failed, "Rate limit persists after retry", slept)
  }

  /** `check_mentions` from the remembered bot id: the outcome and the bot id
      remembered afterwards. */
  function CheckMentionsOf(botId: Option<string>, getMe: GetMe, fetch: string -> MentionsFetch, now: int,
                           detect: (nat, nat) -> DetectOutcome): (CheckOutcome, Option<string>)
  {
    if botId.Some? then (MentionsOutcome(fetch(botId.value), now, detect), botId)
    else
      match getMe
      case MeRaised(e) => (TwitterCallFailed(e), None)
      case MeMissing => (CheckOutcome(Failed, "Failed to get bot's user ID", 0), None)
      case MeFound(id) => (MentionsOutcome(fetch(id), now, detect), Some(id))
  }

  class MentionChecker {
    /** `check_mentions._bot_id`, absent until the first successful lookup. */
    var botId: Option<string>

    constructor ()
      ensures botId == None
    {
      botId := None;
    }

    /** `check_mentions()` at time `now`. */
    method CheckMentions(now: int, getMe: GetMe, fetch: string -> MentionsFetch, detect: (nat, nat) -> DetectOutcome)
      returns (r: CheckOutcome)
      modifies this
      ensures (r, botId) == CheckMentionsOf(old(botId), getMe, fetch, now, detect)
    {
      if botId.None? {
        if getMe.MeRaised? {
          return TwitterCallFailed(getMe.error);
        }
        if getMe.MeMissing? {
          return CheckOutcome(Failed, "Failed to get bot's user ID", 0);
        }
        botId := Some(getMe.id);
      }
      var mentions := fetch(botId.value);
      if mentions.MentionsRaised? {
        return TwitterCallFailed(mentions.error);
      }
      if mentions.NoResponse? {
        return CheckOutcome(Done, "No mentions retrieved", 0);
      }
      var ms := mentions.data;
      if ms == [] {
        return CheckOutcome(Done, "No mentions data available", 0);
      }
      r := ProcessMentions(ms, Cutoff(now), detect);
    }
  }

  /** The `for mention in mentions_data` loop with its three counters. */
  method ProcessMentions(ms: seq<MentionItem>, cutoff: int, detect: (nat, nat) -> DetectOutcome)
    returns (r: CheckOutcome)
    ensures r == match ScanFrom(ms, 0, cutoff, detect, 0, 0, 0, 0)
      case Finished(p, a, s, slept) => CheckOutcome(Done, Summary(p, a, s), slept)
      case Aborted(e, slept) => CheckOutcome(Failed, ErrorMessage(e), slept + if IsRateLimited(e) then 60 else 0)
      case Persisted(slept) => CheckOutcome(Failed, "Rate limit persists after retry", slept)
  {
    var processed, analyzed, skipped, slept := 0, 0, 0, 0;
    for i := 0 to |ms|
      invariant ScanFrom(ms, i, cutoff, detect, processed, analyzed, skipped, slept)
             == ScanFrom(ms, 0, cutoff, detect, 0, 0, 0, 0)
    {
      if ms[i].NotAMention? {
        continue;
      }
      if ms[i].createdAt.Unparseable? {
        var e := ms[i].createdAt.error;
        return CheckOutcome(Failed, ErrorMessage(e), slept + if IsRateLimited(e) then 60 else 0);
      }
      if ms[i].createdAt.t < cutoff {
        skipped := skipped + 1;
        continue;
      }
      slept := slept + 5;
      var outcome := detect(i, 0);
      if outcome.Analysis? {
        if outcome.status == Done {
          analyzed := analyzed + 1;
        }
      } else if IsRateLimited(outcome.error) {
        slept := slept + 60;
        var retry := detect(i, 1);
        if retry.Analysis? {
          if retry.status == Done {
            analyzed := analyzed + 1;
          }
        } else if IsRateLimited(retry.error) {
          return CheckOutcome(Failed, "Rate limit persists after retry", slept);
        }
      }
      processed := processed + 1;
    }
    r := CheckOutcome(Done, Summary(processed, analyzed, skipped), slept);
  }

  /** The sleep of `check_mentions_loop` after a cycle: the check interval,
      or 300 seconds when the cycle raised. */
  function CycleSleep(cycleRaised: bool): (s: nat)
    ensures s >= 300
  {
    if cycleRaised then 300 else CheckIntervalMinutes * 60
  }

  // ---------------------------------------------------------------------------
  // Properties

  /** Once remembered, the bot id is never fetched again: the outcome does not
      depend on `get_me` and the id stays. */
  lemma BotIdFetchedOnce(b: string, getMe1: GetMe, getMe2: GetMe, fetch: string -> MentionsFetch, now: int,
                         detect: (nat, nat) -> DetectOutcome)
    ensures CheckMentionsOf(Some(b), getMe1, fetch, now, detect) == CheckMentionsOf(Some(b), getMe2, fetch, now, detect)
    ensures CheckMentionsOf(Some(b), getMe1, fetch, now, detect).1 == Some(b)
  {
  }

  /** Without a remembered id, the id is remembered exactly when `get_me`
      finds it (even if the rest of the run fails), and a missing id fails
      the run without sleeping. */
  lemma BotIdRememberedOnSuccess(getMe: GetMe, fetch: string -> MentionsFetch, now: int, detect: (nat, nat) -> DetectOutcome)
    ensures var (r, b) := CheckMentionsOf(None, getMe, fetch, now, detect);
      && (b.Some? <==> getMe.MeFound?)
      && (getMe.MeFound? ==> b == Some(getMe.id))
      && (getMe.MeMissing? ==> r == CheckOutcome(Failed, "Failed to get bot's user ID", 0))
  {
  }

  /** A "429" from either Twitter call sleeps 900 seconds and fails; any
      other error fails without sleeping. */
  lemma TwitterRateLimitWaitsForReset(e: string)
    ensures IsRateLimited(e) ==> TwitterCallFailed(e) == CheckOutcome(Failed, "Rate limit hit, waiting for reset", 900)
    ensures !IsRateLimited(e) ==> TwitterCallFailed(e).status == Failed && TwitterCallFailed(e).slept == 0
  {
  }

  /** Without mentions, the run is DONE with no work and no sleep. */
  lemma NoMentionsNoWork(now: int, detect: (nat, nat) -> DetectOutcome)
    ensures MentionsOutcome(NoResponse, now, detect) == CheckOutcome(Done, "No mentions retrieved", 0)
    ensures MentionsOutcome(Response([]), now, detect) == CheckOutcome(Done, "No mentions data available", 0)
  {
  }

  /** Counts over the elements from position `i` on. */
  function CountFresh(ms: seq<MentionItem>, i: nat, cutoff: int, detect: (nat, nat) -> DetectOutcome): nat
    requires i <= |ms|
    decreases |ms| - i
  {
    if i == |ms| then 0
    else (if StepOf(ms[i], i, cutoff, detect).Fresh? then 1 else 0) + CountFresh(ms, i + 1, cutoff, detect)
  }

  function CountStale(ms: seq<MentionItem>, i: nat, cutoff: int, detect: (nat, nat) -> DetectOutcome): nat
    requires i <= |ms|
    decreases |ms| - i
  {
    if i == |ms| then 0
    else (if StepOf(ms[i], i, cutoff, detect).Stale? then 1 else 0) + CountStale(ms, i + 1, cutoff, detect)
  }

  function CountAnalyzed(ms: seq<MentionItem>, i: nat, cutoff: int, detect: (nat, nat) -> DetectOutcome): nat
    requires i <= |ms|
    decreases |ms| - i
  {
    if i == |ms| then 0
    else
      var s := StepOf(ms[i], i, cutoff, detect);
      (if s.Fresh? && s.analyzed then 1 else 0) + CountAnalyzed(ms, i + 1, cutoff, detect)
  }

  function CountRetried(ms: seq<MentionItem>, i: nat, cutoff: int, detect: (nat, nat) -> DetectOutcome): nat
    requires i <= |ms|
    decreases |ms| - i
  {
    if i == |ms| then 0
    else
      var s := StepOf(ms[i], i, cutoff, detect);
      (if s.Fresh? && s.retried then 1 else 0) + CountRetried(ms, i + 1, cutoff, detect)
  }

  /** Whether the element at `k` ends the run. */
  predicate EndsRun(ms: seq<MentionItem>, k: nat, cutoff: int, detect: (nat, nat) -> DetectOutcome)
    requires k < |ms|
  {
    var s := StepOf(ms[k], k, cutoff, detect);
    s.ParseFailed? || s.RateLimitPersists?
  }

  /** The loop from `i` finishes exactly when no element from `i` on ends the
      run. */
  lemma {:induction false} ScanFinishesIff(ms: seq<MentionItem>, i: nat, cutoff: int, detect: (nat, nat) -> DetectOutcome,
                                           processed: nat, analyzed: nat, skipped: nat, slept: nat)
    requires i <= |ms|
    ensures ScanFrom(ms, i, cutoff, detect, processed, analyzed, skipped, slept).Finished?
            <==> forall k :: i <= k < |ms| ==> !EndsRun(ms, k, cutoff, detect)
    decreases |ms| - i
  {
    if i < |ms| {
      var step := StepOf(ms[i], i, cutoff, detect);
      match step
      case Invalid =>
        ScanFinishesIff(ms, i + 1, cutoff, detect, processed, analyzed, skipped, slept);
      case Stale =>
        ScanFinishesIff(ms, i + 1, cutoff, detect, processed, analyzed, skipped + 1, slept);
      case Fresh(a, _) =>
        ScanFinishesIff(ms, i + 1, cutoff, detect, processed + 1, analyzed + (if a then 1 else 0), skipped,
                        slept + StepSleep(step));
      case ParseFailed(_) =>
        assert EndsRun(ms, i, cutoff, detect);
      case RateLimitPersists =>
        assert EndsRun(ms, i, cutoff, detect);
    }
  }

  /** The element at `k` is the first from `i` on that ends the run. */
  predicate FirstEnd(ms: seq<MentionItem>, i: nat, k: nat, cutoff: int, detect: (nat, nat) -> DetectOutcome)
    requires i <= k < |ms|
  {
    EndsRun(ms, k, cutoff, detect) && forall j :: i <= j < k ==> !EndsRun(ms, j, cutoff, detect)
  }

  /** When the loop from `i` does not finish, it stopped at the first element
      that ends the run: an unparseable `created_at` aborts with that
      timestamp's error, and otherwise the rate limit persisted. */
  lemma {:induction false} ScanStopsAtFirstEnd(ms: seq<MentionItem>, i: nat, cutoff: int, detect: (nat, nat) -> DetectOutcome,
                                               processed: nat, analyzed: nat, skipped: nat, slept: nat)
    requires i <= |ms|
    requires !ScanFrom(ms, i, cutoff, detect, processed, analyzed, skipped, slept).Finished?
    ensures var r := ScanFrom(ms, i, cutoff, detect, processed, analyzed, skipped, slept);
      exists k :: (i <= k < |ms| && FirstEnd(ms, i, k, cutoff, detect)
        && (r.Aborted? <==> ms[k].MentionItem? && ms[k].createdAt.Unparseable?)
        && (r.Aborted? ==> ms[k].MentionItem? && r.error == ms[k].createdAt.error))
    decreases |ms| - i
  {
    var r := ScanFrom(ms, i, cutoff, detect, processed, analyzed, skipped, slept);
    var step := StepOf(ms[i], i, cutoff, detect);
    match step
    case Invalid =>
      ScanStopsAtFirstEnd(ms, i + 1, cutoff, detect, processed, analyzed, skipped, slept);
      assert !EndsRun(ms, i, cutoff, detect);
    case Stale =>
      ScanStopsAtFirstEnd(ms, i + 1, cutoff, detect, processed, analyzed, skipped + 1, slept);
      assert !EndsRun(ms, i, cutoff, detect);
    case Fresh(a, _) =>
      ScanStopsAtFirstEnd(ms, i + 1, cutoff, detect, processed + 1, analyzed + (if a then 1 else 0), skipped,
                          slept + StepSleep(step));
      assert !EndsRun(ms, i, cutoff, detect);
    case ParseFailed(_) =>
      assert FirstEnd(ms, i, i, cutoff, detect);
    case RateLimitPersists =>
      assert FirstEnd(ms, i, i, cutoff, detect);
  }

  /** When the loop from `i` finishes, each counter has grown by the number of
      elements of its kind, and the sleeps are 5 seconds per processed mention
      plus 60 per retry. */
  lemma {:induction false} ScanCounts(ms: seq<MentionItem>, i: nat, cutoff: int, detect: (nat, nat) -> DetectOutcome,
                                      processed: nat, analyzed: nat, skipped: nat, slept: nat)
    requires i <= |ms|
    requires ScanFrom(ms, i, cutoff, detect, processed, analyzed, skipped, slept).Finished?
    ensures var r := ScanFrom(ms, i, cutoff, detect, processed, analyzed, skipped, slept);
      && r.processed == processed + CountFresh(ms, i, cutoff, detect)
      && r.skipped == skipped + CountStale(ms, i, cutoff, detect)
      && r.analyzed == analyzed + CountAnalyzed(ms, i, cutoff, detect)
      && r.slept == slept + 5 * CountFresh(ms, i, cutoff, detect) + 60 * CountRetried(ms, i, cutoff, detect)
    decreases |ms| - i
  {
    if i < |ms| {
      var step := StepOf(ms[i], i, cutoff, detect);
      match step
      case Invalid =>
        ScanCounts(ms, i + 1, cutoff, detect, processed, analyzed, skipped, slept);
      case Stale =>
        ScanCounts(ms, i + 1, cutoff, detect, processed, analyzed, skipped + 1, slept);
      case Fresh(a, _) =>
        ScanCounts(ms, i + 1, cutoff, detect, processed + 1, analyzed + (if a then 1 else 0), skipped,
                   slept + StepSleep(step));
    }
  }

  /** Analyzed mentions were processed, and no element is both processed and
      skipped. */
  lemma {:induction false} CountsAreBounded(ms: seq<MentionItem>, i: nat, cutoff: int, detect: (nat, nat) -> DetectOutcome)
    requires i <= |ms|
    ensures CountAnalyzed(ms, i, cutoff, detect) <= CountFresh(ms, i, cutoff, detect)
    ensures CountRetried(ms, i, cutoff, detect) <= CountFresh(ms, i, cutoff, detect)
    ensures CountFresh(ms, i, cutoff, detect) + CountStale(ms, i, cutoff, detect) <= |ms| - i
    decreases |ms| - i
  {
    if i < |ms| {
      CountsAreBounded(ms, i + 1, cutoff, detect);
    }
  }

  /** A run over a non-empty mention list is DONE exactly when no mention has
      an unreadable time and no retry hits the rate limit again. It then
      reports `processed` as the mentions at or after the cutoff, `skipped` as
      those before it, and `analyzed` as those whose last detection returned
      DONE, with analyzed <= processed and processed + skipped <= the number
      of elements. */
  lemma MentionsOutcomeCounts(ms: seq<MentionItem>, now: int, detect: (nat, nat) -> DetectOutcome)
    requires ms != []
    ensures var r := MentionsOutcome(Response(ms), now, detect);
      var c := Cutoff(now);
      && (r.status == Done <==> forall k :: 0 <= k < |ms| ==> !EndsRun(ms, k, c, detect))
      && (r.status == Done ==>
            && r.message == Summary(CountFresh(ms, 0, c, detect), CountAnalyzed(ms, 0, c, detect), CountStale(ms, 0, c, detect))
            && r.slept == 5 * CountFresh(ms, 0, c, detect) + 60 * CountRetried(ms, 0, c, detect))
    ensures var c := Cutoff(now);
      && CountAnalyzed(ms, 0, c, detect) <= CountFresh(ms, 0, c, detect)
      && CountFresh(ms, 0, c, detect) + CountStale(ms, 0, c, detect) <= |ms|
  {
    var c := Cutoff(now);
    var scan := ScanFrom(ms, 0, c, detect, 0, 0, 0, 0);
    var r := MentionsOutcome(Response(ms), now, detect);
    assert r.status == Done <==> scan.Finished?;
    ScanFinishesIff(ms, 0, c, detect, 0, 0, 0, 0);
    if scan.Finished? {
      assert r == CheckOutcome(Done, Summary(scan.processed, scan.analyzed, scan.skipped), scan.slept);
      ScanCounts(ms, 0, c, detect, 0, 0, 0, 0);
      var p, a, s := CountFresh(ms, 0, c, detect), CountAnalyzed(ms, 0, c, detect), CountStale(ms, 0, c, detect);
      assert scan.processed == p && scan.analyzed == a && scan.skipped == s;
      assert r.message == Summary(p, a, s);
    }
    CountsAreBounded(ms, 0, c, detect);
  }

  /** A check that fails while processing the mentions reports the first
      element that ended the run: the error of its unparseable `created_at`,
      or the persisting rate limit. */
  lemma MentionsOutcomeFails(ms: seq<MentionItem>, now: int, detect: (nat, nat) -> DetectOutcome)
    requires ms != []
    requires MentionsOutcome(Response(ms), now, detect).status == Failed
    ensures var r := MentionsOutcome(Response(ms), now, detect);
      exists k :: (0 <= k < |ms| && FirstEnd(ms, 0, k, Cutoff(now), detect)
        && if ms[k].MentionItem? && ms[k].createdAt.Unparseable?
           then r.message == ErrorMessage(ms[k].createdAt.error)
           else r.message == "Rate limit persists after retry")
  {
    var c := Cutoff(now);
    var scan := ScanFrom(ms, 0, c, detect, 0, 0, 0, 0);
    ScanStopsAtFirstEnd(ms, 0, c, detect, 0, 0, 0, 0);
  }

  /** The detector is called at most twice per mention, and the second call
      happens only after a "429" from the first; a second "429" ends the run. */
  lemma RetryOnlyAfterRateLimit(item: MentionItem, k: nat, cutoff: int, detect: (nat, nat) -> DetectOutcome)
    ensures var s := StepOf(item, k, cutoff, detect);
      (s.Fresh? && s.retried) || s.RateLimitPersists? ==>
        detect(k, 0).DetectRaised? && IsRateLimited(detect(k, 0).error)
    ensures var s := StepOf(item, k, cutoff, detect);
      s.Fresh? && !s.retried ==> !(detect(k, 0).DetectRaised? && IsRateLimited(detect(k, 0).error))
    ensures var s := StepOf(item, k, cutoff, detect);
      s.RateLimitPersists? <==>
        && item.MentionItem? && item.createdAt.Parsed? && item.createdAt.t >= cutoff
        && detect(k, 0).DetectRaised? && IsRateLimited(detect(k, 0).error)
        && detect(k, 1).DetectRaised? && IsRateLimited(detect(k, 1).error)
  {
  }

  /** After a successful cycle the loop waits one check interval, which is
      the Twitter rate-limit window of 900 seconds; after a failed one it
      waits five minutes. */
  lemma CycleSleepMatchesTwitterWindow()
    ensures CycleSleep(false) == 900 && CycleSleep(true) == 300
  {
  }
}
