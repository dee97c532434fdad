# game-python example agents, modelled in Dafny

This project models the decision logic of two example plugins of the
`game-python` SDK:

- the **Bittensor image-detection agent**. It watches Twitter mentions,
  finds the image in a tweet or in the tweet it replies to, and asks
  Bittensor subnet 34 whether the image is AI-generated. It caches the
  answer and replies with a formatted report. Its utilities are a TTL
  cache, a windowed rate limiter, an error tracker, and the tweet/report
  formatters.
- the **Opacity proof-verification agent**. It walks a reply chain up to
  the original tweet and extracts the `Proof ID:` token at its end. It then
  fetches and verifies the proof and replies to mentions with the verdict.

Each source file becomes one Dafny module:

| module | file | source |
|---|---|---|
| `Common` | common.dfy | shared helpers: `Option`, `Status`, substring search, ASCII case mapping |
| `Tweets` | tweets.dfy | the Twitter API v2 response shapes the examples read |
| `TtlCache` | cache.dfy | `utils/cache.py` |
| `RateLimiting` | rate_limiting.dfy | `utils/rate_limiting.py` |
| `ErrorTracking` | error_tracking.dfy | `utils/logging.py` (`ErrorTracker`) |
| `Formatters` | formatters.dfy | `utils/formatters.py` |
| `ImageWorker` | image_worker.dfy | `bittensor_worker.py` |
| `MentionAgent` | mention_agent.dfy | `bittensor_agent.py` |
| `ProofId` | proof_id.dfy | the `Proof ID:\s*(\S+)\s*$` pattern of both Opacity examples |
| `OpacityWorker` | opacity_worker.dfy | `opacity_worker.py` |
| `OpacityAgent` | opacity_agent.dfy | `opacity_agent.py` |

State that the source changes in place is modelled by classes:

- the cache, the rate limiter, the error tracker and the image worker;
- the mention checker, which remembers its bot id.

Every such method is specified by a pure step function over a state
datatype, e.g. `ensures State() == SetOf(old(State()), key, value, now)`.
The properties are proved about the step functions.

Loops with an early exit are methods with invariants, proved equal to a
tail-recursive specification function:

- the reply-chain walk;
- the mention loops;
- `get_many`.

The clock is an explicit integer `now`. Nothing sleeps: each operation
returns how long it would have slept, and the image worker advances its
own clock by that amount. Calls to Twitter, Bittensor and Opacity are
parameters: either the call's outcome, or a function from the call's
argument (or the mention's position) to its outcome.

## Model

| member | source | states |
|---|---|---|
| TtlCache.Cache.constructor | plugins/bittensor/examples/utils/cache.py:16-26 | a new cache is empty, with its last sweep at construction time and the given expiry and interval |
| TtlCache.Cache.Get | plugins/bittensor/examples/utils/cache.py:28-44 | `get(key)` changes the cache and answers exactly as `GetOf` |
| TtlCache.Cache.Read | plugins/bittensor/examples/utils/cache.py:36-44 | the lookup of one key without a sweep changes the cache and answers exactly as `ReadKey`: absent gives None, expired gives None and deletes, otherwise the data |
| TtlCache.Cache.GetMany | plugins/bittensor/examples/utils/cache.py:46-60 | the loop over the keys ends with the cache and result of `GetManyOf` (one optional sweep, then every key in order) |
| TtlCache.Cache.Set | plugins/bittensor/examples/utils/cache.py:62-66 | `set(key, value)` leaves the cache as `SetOf` says |
| TtlCache.Cache.Cleanup | plugins/bittensor/examples/utils/cache.py:74-89 | `_cleanup` leaves the cache as `CleanupOf` says |
| TtlCache.LiveEntries | plugins/bittensor/examples/utils/cache.py:77-89 | a key survives a sweep iff it was present and not expired, with its entry unchanged |
| TtlCache.GetEmptyKeyIsNoop | plugins/bittensor/examples/utils/cache.py:30-31 | `get("")` answers None and changes nothing, not even the sweep time |
| TtlCache.SetOverwritesOnlyKey | plugins/bittensor/examples/utils/cache.py:62-66 | `set("", v)` changes nothing; otherwise the key gets `(v, now)` and every other key and the sweep time are unchanged |
| TtlCache.SetThenGet | plugins/bittensor/examples/utils/cache.py:40-44 | a set key is read back iff at most `expiry` seconds have passed (strict `>` for expiry), whatever sweep happens |
| TtlCache.ExpiredReadDeletes | plugins/bittensor/examples/utils/cache.py:40-42 | reading an expired key answers None and removes the key |
| TtlCache.GetSweepsOnlyWhenDue | plugins/bittensor/examples/utils/cache.py:33-34 | a read sweeps (and records `now`) exactly when the cache is non-empty and the interval has passed; otherwise it deletes at most the read key |
| TtlCache.CleanupKeepsExactlyLive | plugins/bittensor/examples/utils/cache.py:77-89 | a sweep keeps exactly the live entries, unchanged, and sets the sweep time to `now` |
| TtlCache.ReadKeysDomain | plugins/bittensor/examples/utils/cache.py:51-60 | the key loop answers exactly the keys asked (plus those already answered) and only ever removes entries |
| TtlCache.ReadKeysAnswers | plugins/bittensor/examples/utils/cache.py:51-58 | each asked key is answered with its live data, or with None and then it is absent |
| TtlCache.ReadKeysKeepsLater | plugins/bittensor/examples/utils/cache.py:51-58 | keys not asked keep their presence and earlier answers |
| TtlCache.GetManyDomainAndValues | plugins/bittensor/examples/utils/cache.py:46-60 | `get_many` answers exactly the asked keys, each with its live data or None, deletes the expired asked keys and alters no data |
| RateLimiting.RateLimiter.constructor | plugins/bittensor/examples/utils/rate_limiting.py:8-24 | a new limiter has the given limits, a zero count and a zero last-request time |
| RateLimiting.RateLimiter.Wait | plugins/bittensor/examples/utils/rate_limiting.py:26-48 | `wait()` updates count and window start, and sleeps, exactly as `WaitOf` |
| RateLimiting.WaitOf | plugins/bittensor/examples/utils/rate_limiting.py:37-46 | from a window start not in the future, a wait sleeps nothing or between 1 and `window_seconds` seconds |
| RateLimiting.WaitCountsTheRequest | plugins/bittensor/examples/utils/rate_limiting.py:31-48 | after a wait the count is at least 1; it is 1 after a reset or a sleep, and one more than before otherwise |
| RateLimiting.WaitResetsExpiredWindow | plugins/bittensor/examples/utils/rate_limiting.py:31-34 | once the window has expired, the count restarts at 1 from `now` without sleeping |
| RateLimiting.WaitSleepsOutTheWindow | plugins/bittensor/examples/utils/rate_limiting.py:37-46 | at the limit inside the window, the wait sleeps exactly the rest of the window, then restarts the count |
| RateLimiting.WaitKeepsCountBound | plugins/bittensor/examples/utils/rate_limiting.py:29-48 | the count stays within `max_requests - buffer`, except when exactly `window_seconds` have elapsed |
| RateLimiting.WaitOvershootsAtWindowBoundary | plugins/bittensor/examples/utils/rate_limiting.py:31-39 | for any limits and window, with exactly `window_seconds` elapsed there is neither reset nor sleep: the request is counted in the old window, so a full window passes `max_requests - buffer` |
| RateLimiting.Backoff | plugins/bittensor/examples/utils/rate_limiting.py:60-66 | the backoff is `min(base * 2^attempt, cap)`: at most both, and equal to one of them |
| RateLimiting.BackoffMonotone | plugins/bittensor/examples/utils/rate_limiting.py:60-66 | the backoff does not decrease with the attempt number |
| RateLimiting.RateLimiter.HandleRateLimit | plugins/bittensor/examples/utils/rate_limiting.py:51-68 | retries iff attempts remain and the error, if any, is rate-limit shaped; then it sleeps the capped backoff from 180 s (with an error) or `min_sleep`, otherwise it sleeps nothing |
| RateLimiting.StatusCodeIsRateLimitError | plugins/bittensor/examples/utils/rate_limiting.py:71-73 | an error text containing "429" is a rate-limit error |
| RateLimiting.PhraseIsRateLimitError | plugins/bittensor/examples/utils/rate_limiting.py:71-73 | an error text containing "rate limit" in any ASCII case is a rate-limit error |
| RateLimiting.OtherErrorsAreNotRateLimitErrors | plugins/bittensor/examples/utils/rate_limiting.py:71-73 | a text with neither a '4' nor an 'r' in any case is not a rate-limit error |
| ErrorTracking.ErrorTracker.constructor | plugins/bittensor/examples/utils/logging.py:51-55 | a new tracker has no counts, resets from construction time and keeps its interval and threshold |
| ErrorTracking.ErrorTracker.Track | plugins/bittensor/examples/utils/logging.py:57-62 | `track` resets and counts as `TrackOf`, warns as it says, and logs the line `ErrorLine` builds |
| ErrorTracking.ErrorTracker.CheckReset | plugins/bittensor/examples/utils/logging.py:64-69 | `_check_reset` is `ResetOf` |
| ErrorTracking.ErrorTracker.IncrementCount | plugins/bittensor/examples/utils/logging.py:71-78 | `_increment_count` is `IncrementOf` |
| ErrorTracking.TrackCountsOnlyItsKind | plugins/bittensor/examples/utils/logging.py:71-73 | tracking raises its kind's count by exactly one (from 0 if absent) and no other kind's |
| ErrorTracking.WarnsIffAboveThreshold | plugins/bittensor/examples/utils/logging.py:74-78 | a warning is given iff the new count is above the threshold |
| ErrorTracking.ResetClearsEverything | plugins/bittensor/examples/utils/logging.py:64-73 | past the reset interval all counts are cleared and the tracked kind ends at 1; otherwise the reset time is kept and only the kind is added |
| ErrorTracking.RepeatedTrackingWarnings | plugins/bittensor/examples/utils/logging.py:71-78 | tracking a kind n times within one interval adds n, and warns once for every count above the threshold, not only on the crossing |
| ErrorTracking.ErrorLine | plugins/bittensor/examples/utils/logging.py:80-86 | a line is logged iff the context is non-empty or an error is given |
| ErrorTracking.ErrorLineLayout | plugins/bittensor/examples/utils/logging.py:83-86 | the line is the upper-cased kind, ": ", the context, then " - " and the error when one is given |
| ErrorTracking.ErrorWithoutContextIsLogged | plugins/bittensor/examples/utils/logging.py:83-86 | an error alone is logged as `KIND:  - error` |
| Tweets.FirstRepliedTo | plugins/bittensor/examples/bittensor_worker.py:188-192 | the first `replied_to` reference, None iff there is none |
| Tweets.FindTweet | plugins/bittensor/examples/bittensor_worker.py:195-199 | the first included tweet with the id, None iff there is none |
| Tweets.FindUser | plugins/bittensor/examples/bittensor_worker.py:225-228 | the first included user with the id, None iff there is none |
| Formatters.MediaUrl | plugins/bittensor/examples/utils/formatters.py:70-86 | a media element yields only non-empty URLs |
| Formatters.FindMediaUrl | plugins/bittensor/examples/utils/formatters.py:69-86 | the first media element, in list order, that yields a URL; None iff none does |
| Formatters.ExtractImageUrlFinds | plugins/bittensor/examples/utils/formatters.py:40-93 | nothing for a non-dictionary or data-less response; a URL iff media keys are listed, `includes` exists and some element yields one (the first such); root flag iff a URL is found and no tweet is referenced |
| Formatters.MediaUrlByKind | plugins/bittensor/examples/utils/formatters.py:70-86 | a listed photo yields its `url`, a listed video or GIF its `preview_image_url`, anything else nothing |
| Formatters.FormatAddressesRequester | plugins/bittensor/examples/utils/formatters.py:16-31 | the reply starts with '@' iff a requester is named, and then with `@requester ` |
| Formatters.FormatNamesPosterOnlyForRoot | plugins/bittensor/examples/utils/formatters.py:18-21 | the "Analyzing image from @poster" line appears iff the image is the root tweet's and the poster is known |
| Formatters.FormatEndsWithLink | plugins/bittensor/examples/utils/formatters.py:28-36 | every reply ends with the bitmind-subnet link |
| Formatters.FormatDistinguishesVerdict | plugins/bittensor/examples/utils/formatters.py:25 | the status reads "AI-Generated 🤖" or "Not AI-Generated 👤", so the two verdicts give different replies |
| Formatters.ReportShape | plugins/bittensor/examples/utils/formatters.py:23-36 | the report opens with the chart emoji and closes with the link |
| ImageWorker.BittensorImageWorker.constructor | plugins/bittensor/examples/bittensor_worker.py:40-62 | the worker's limiters, cache and tracker are built with the configured limits (Twitter 900 s/15/1/60–900, Bittensor 60 s/100/0/1–30, cache 3600 s swept every 300 s, tracker 3600 s/10) and start empty |
| ImageWorker.BittensorImageWorker.PostTwitterReply | plugins/bittensor/examples/bittensor_worker.py:138-149 | posting waits on the Twitter limiter and turns a failure into a tracked `twitter_reply_error`, as `ReplyOf` says |
| ImageWorker.BittensorImageWorker.DetectImage | plugins/bittensor/examples/bittensor_worker.py:151-303 | `detect_image` changes the limiters, cache and tracker, answers, and calls out exactly as `DetectOf` |
| ImageWorker.BittensorImageWorker.Answer | plugins/bittensor/examples/bittensor_worker.py:183-245 | the part after the fetch is `AnswerOf` |
| ImageWorker.BittensorImageWorker.Analyze | plugins/bittensor/examples/bittensor_worker.py:247-299 | the part from the cache lookup on is `AnalyzeOf` |
| ImageWorker.BittensorImageWorker.AskSubnet | plugins/bittensor/examples/bittensor_worker.py:260-299 | on a cache miss: the Bittensor wait, the subnet call, then either one tracked analysis error with its message, or the analysis cached and the reply posted, exactly as `SubnetOf` |
| ImageWorker.LocateImageCases | plugins/bittensor/examples/bittensor_worker.py:183-207 | the tweet's own image wins; the root tweet (first `replied_to`, found in `includes.tweets`) is searched only without one, and an image found there is marked root and names that tweet; a missing `tweets` list raises; found URLs are non-empty |
| ImageWorker.UsernamesOfAuthors | plugins/bittensor/examples/bittensor_worker.py:216-243 | the requester is the tweet's author; the original poster is named only for a root image with root data, and is that tweet's author |
| ImageWorker.PacedAppend | plugins/bittensor/examples/bittensor_worker.py:141-142 | appending two call sequences that wait before every call keeps that property |
| ImageWorker.AnalyzeIsPaced | plugins/bittensor/examples/bittensor_worker.py:260-266 | from the cache lookup on, every call follows its limiter's wait |
| ImageWorker.SubnetIsPaced | plugins/bittensor/examples/bittensor_worker.py:260-295 | on a cache miss the subnet call follows the Bittensor wait and the reply follows a Twitter wait |
| ImageWorker.AnswerIsPaced | plugins/bittensor/examples/bittensor_worker.py:183-299 | once the tweet is fetched, every later call follows its limiter's wait |
| ImageWorker.DetectIsPaced | plugins/bittensor/examples/bittensor_worker.py:163-171 | every Twitter call directly follows a Twitter wait and every subnet call a Bittensor wait |
| ImageWorker.DetectCalls | plugins/bittensor/examples/bittensor_worker.py:163-183 | `detect_image` starts with the Twitter wait and the fetch of the tweet, and makes further calls only when the tweet's data came back |
| ImageWorker.CacheHitSkipsSubnet | plugins/bittensor/examples/bittensor_worker.py:247-258 | on a cache hit the subnet is not called (its answer is irrelevant), the Bittensor limiter is untouched, and the cached analysis is reported DONE and posted |
| ImageWorker.ValidAnswerIsCached | plugins/bittensor/examples/bittensor_worker.py:284-295 | a valid answer after a miss is cached under the image URL at the time of the call, read back while unexpired, reported DONE and posted |
| ImageWorker.FailedAnswerIsNotCached | plugins/bittensor/examples/bittensor_worker.py:268-282 | an empty, malformed or raised answer fails, is not cached, posts nothing and counts one `analysis_error` |
| ImageWorker.RepliesExactlyOnSuccess | plugins/bittensor/examples/bittensor_worker.py:253-295 | a result is DONE iff it carries an analysis; DONE ends by posting its message in reply to the tweet; FAILED posts nothing |
| ImageWorker.AnalyzeRepliesOnSuccess | plugins/bittensor/examples/bittensor_worker.py:253-299 | from the cache lookup on, DONE iff an analysis is reported; DONE ends with a Twitter wait and the reply to the tweet; a failure posts nothing |
| ImageWorker.SubnetRepliesOnSuccess | plugins/bittensor/examples/bittensor_worker.py:260-299 | on a cache miss, DONE iff an analysis is reported; DONE ends with the reply, a failure posts nothing |
| ImageWorker.AnswerRepliesOnSuccess | plugins/bittensor/examples/bittensor_worker.py:183-299 | once the tweet is fetched, DONE iff an analysis is reported; DONE ends with the reply, a failure posts nothing |
| ImageWorker.ReplyFailureOnlyCounted | plugins/bittensor/examples/bittensor_worker.py:147-149 | whether the reply can be posted changes only the error counts, never the result, the calls, the limiters or the cache |
| ImageWorker.ReplyOutcomeOnlyCounted | plugins/bittensor/examples/bittensor_worker.py:138-149 | a failed post leaves both limiters and the cache exactly as a successful one |
| ImageWorker.AnalyzeReplyOnlyCounted | plugins/bittensor/examples/bittensor_worker.py:147-149 | from the cache lookup on, a failed post changes neither the result, the calls, the limiters nor the cache; when the analysis itself fails, no reply is attempted and the error counts agree too |
| ImageWorker.NoTweetData | plugins/bittensor/examples/bittensor_worker.py:164-180 | a missing or data-less response fails with "Could not retrieve tweet data" untracked; a raised fetch fails with "Operation failed" and counts a `general_error`; no other call is made |
| MentionAgent.MentionChecker.constructor | plugins/bittensor/examples/bittensor_agent.py:17-18 | the bot id is not yet known |
| MentionAgent.MentionChecker.CheckMentions | plugins/bittensor/examples/bittensor_agent.py:23-123 | `check_mentions` answers, sleeps and remembers the bot id as `CheckMentionsOf` |
| MentionAgent.ProcessMentions | plugins/bittensor/examples/bittensor_agent.py:63-116 | the mention loop ends as `ScanFrom` says: a summary, the error of an aborting mention, or a persisting rate limit |
| MentionAgent.StepOf | plugins/bittensor/examples/bittensor_agent.py:67-106 | a mention is skipped iff invalid, stale iff strictly before the cutoff, and retried only after a 429 on the first attempt; it counts as analysed iff the attempt that ran returned DONE; an unparseable `created_at` ends the run with that timestamp's own error |
| MentionAgent.BotIdFetchedOnce | plugins/bittensor/examples/bittensor_agent.py:31-38 | once known, the bot id is kept and not fetched again |
| MentionAgent.BotIdRememberedOnSuccess | plugins/bittensor/examples/bittensor_agent.py:31-38 | the bot id is remembered iff it was found; without one the check fails |
| MentionAgent.TwitterRateLimitWaitsForReset | plugins/bittensor/examples/bittensor_agent.py:47-53 | a 429 from Twitter fails the check after sleeping 900 s; other errors fail without sleeping |
| MentionAgent.NoMentionsNoWork | plugins/bittensor/examples/bittensor_agent.py:55-61 | no response or no mentions is DONE with no work |
| MentionAgent.ScanFinishesIff | plugins/bittensor/examples/bittensor_agent.py:67-108 | the loop runs to the end iff no mention aborts it |
| MentionAgent.ScanStopsAtFirstEnd | plugins/bittensor/examples/bittensor_agent.py:67-108 | a loop that does not finish stopped at the first element that ends the run; it aborts iff that element's `created_at` is unparseable, carrying that error, and otherwise the rate limit persisted |
| MentionAgent.ScanCounts | plugins/bittensor/examples/bittensor_agent.py:67-108 | a completed loop counts every fresh mention as processed, every stale one as skipped, every DONE as analysed, and sleeps 5 s per fresh mention plus 60 s per retry |
| MentionAgent.CountsAreBounded | plugins/bittensor/examples/bittensor_agent.py:75-108 | analysed ≤ processed, retries ≤ processed, processed + skipped ≤ number of mentions |
| MentionAgent.MentionsOutcomeCounts | plugins/bittensor/examples/bittensor_agent.py:63-116 | a non-empty mention list is DONE iff nothing aborts, with the summary of those counts and their sleeps |
| MentionAgent.MentionsOutcomeFails | plugins/bittensor/examples/bittensor_agent.py:67-123 | a FAILED check over a non-empty list reports the first element that ended the run: "Error encountered while processing mentions: " plus its timestamp error, or "Rate limit persists after retry" |
| MentionAgent.RetryOnlyAfterRateLimit | plugins/bittensor/examples/bittensor_agent.py:90-104 | `detect_image` is retried at most once and only after a 429; a second 429 fails the check |
| MentionAgent.CycleSleep | plugins/bittensor/examples/bittensor_agent.py:148-164 | the loop never sleeps less than 300 s |
| MentionAgent.CycleSleepMatchesTwitterWindow | plugins/bittensor/examples/bittensor_agent.py:159-164 | the loop sleeps 15 minutes after a cycle and 300 s after an exception |
| ProofId.SpanSpace | plugins/opacity/examples/opacity_worker.py:151-159 | the length of the leading whitespace run |
| ProofId.SpanNonSpace | plugins/opacity/examples/opacity_worker.py:151-159 | the length of the leading non-whitespace run |
| ProofId.TailIff | plugins/opacity/examples/opacity_worker.py:151-159 | the text after the marker yields token t iff it is whitespace, t (non-empty, no whitespace), whitespace |
| ProofId.TailSpaces | plugins/opacity/examples/opacity_worker.py:151-159 | in a matching tail a character is whitespace exactly when it lies outside the captured token |
| ProofId.AtMostOneMatch | plugins/opacity/examples/opacity_worker.py:151-159 | the end-anchored pattern can match at one position at most |
| ProofId.SearchFromFinds | plugins/opacity/examples/opacity_worker.py:151-159 | the left-to-right search finds nothing iff no position matches, and otherwise returns the token of a matching position |
| ProofId.ExtractProofIdFindsTheMatch | plugins/opacity/examples/opacity_worker.py:151-165 | a token is found iff some position matches, and it is that position's token |
| ProofId.ExtractProofIdIff | plugins/opacity/examples/opacity_worker.py:151-165 | the result is `Some(t)` iff the text is a prefix, "Proof ID:", whitespace, t, whitespace |
| ProofId.FoundIdHasLayout | plugins/opacity/examples/opacity_worker.py:151-159 | a found token sits after a marker in that layout |
| ProofId.LayoutIsFound | plugins/opacity/examples/opacity_worker.py:151-159 | a marker followed by that layout yields its token |
| ProofId.ExactMarkerIsCaseSensitive | plugins/opacity/examples/opacity_agent.py:63-66 | without case folding the marker must appear literally; a literal marker also matches with folding |
| ProofId.LowerCaseMarkerMatchesIgnoringCase | plugins/opacity/examples/opacity_worker.py:151-159 | "proof id: t" yields t in the worker |
| ProofId.LowerCaseMarkerMissedExactly | plugins/opacity/examples/opacity_agent.py:63-71 | "proof id: t" yields nothing in the agent |
| OpacityWorker.ClassifyTweetError | plugins/opacity/examples/opacity_worker.py:128-142 | on the lower-cased message: "unauthorized" gives the authentication error; otherwise "not found" gives the not-found error naming the tweet; otherwise "forbidden" gives the access-forbidden error; anything else wraps the message |
| OpacityWorker.FindParent | plugins/opacity/examples/opacity_worker.py:105-109 | the loop finds the first `replied_to` reference |
| OpacityWorker.GetOriginalTweet | plugins/opacity/examples/opacity_worker.py:77-126 | the walk up the reply chain ends as `OriginalTweet` |
| OpacityWorker.Climb | plugins/opacity/examples/opacity_worker.py:100-126 | the `while True` loop from a fetched tweet ends as `WalkFrom`: the root tweet, a lost parent, or a classified fetch error |
| OpacityWorker.WalkFromEndsAtRoot | plugins/opacity/examples/opacity_worker.py:100-126 | a walk that ends at a tweet ends at one with no `replied_to` reference, returning its id and text |
| OpacityWorker.OriginalTweetHasNoParent | plugins/opacity/examples/opacity_worker.py:77-126 | the original tweet found is a fetched tweet with no `replied_to` reference |
| OpacityWorker.WalkFromFuelOnlyTruncates | plugins/opacity/examples/opacity_worker.py:100-126 | the step bound only cuts walks short and never changes an outcome |
| OpacityWorker.OriginalTweetFuelOnlyTruncates | plugins/opacity/examples/opacity_worker.py:77-126 | the same for the whole walk |
| OpacityWorker.MissingTweetOutcomes | plugins/opacity/examples/opacity_worker.py:84-120 | a missing first tweet raises the classified "not found" error; a missing direct parent of the first tweet ends the walk with nothing |
| OpacityWorker.WalkFromLostIff | plugins/opacity/examples/opacity_worker.py:100-126 | the walk ends with nothing exactly when, within the step bound, it reaches a tweet (at any depth) whose parent fetch returns no data |
| OpacityWorker.OriginalTweetLostIff | plugins/opacity/examples/opacity_worker.py:77-126 | `_get_original_tweet` answers None exactly when the first tweet was fetched and the walk up from it reaches, at any depth within the bound, a parent that cannot be fetched |
| OpacityWorker.NotFoundMessageSaysNotFound | plugins/opacity/examples/opacity_worker.py:86-87 | the missing-tweet message contains "not found" |
| OpacityWorker.NumericNotFoundMessageIsNotUnauthorized | plugins/opacity/examples/opacity_worker.py:86-87 | for a numeric id the message does not contain "unauthorized" |
| OpacityWorker.MissingNumericTweetIsNotFound | plugins/opacity/examples/opacity_worker.py:86-87 | a missing numeric tweet surfaces as "Tweet with ID X does not exist" |
| OpacityWorker.VerifyTweetThread | plugins/opacity/examples/opacity_worker.py:167-268 | `verify_tweet_thread` returns `VerifyTweetThreadOf` |
| OpacityWorker.EmptyIdFailsBeforeAnyFetch | plugins/opacity/examples/opacity_worker.py:171-176 | an empty id fails with "Invalid tweet ID provided" whatever the services would do |
| OpacityWorker.VerifyDoneIff | plugins/opacity/examples/opacity_worker.py:178-262 | DONE iff the id is valid, the walk reaches the original tweet, it has a proof id, the proof is fetched and verified; DONE carries exactly `valid`, `original_tweet_id` and `proof_id` |
| OpacityWorker.FailuresCarryWhatIsKnown | plugins/opacity/examples/opacity_worker.py:195-262 | once the original tweet is known, no proof id fails carrying the tweet id, and later failures carry the tweet id and the proof id |
| OpacityAgent.VerdictTextShape | plugins/opacity/examples/opacity_agent.py:217-235 | the reply opens "✅ Verification successful!" iff valid, else "❌ Verification failed."; both name the status link and the proof id |
| OpacityAgent.HandlerVerdictNamesNone | plugins/opacity/examples/opacity_agent.py:283-290 | the verdict reply sent by the mention loop opens with the success line iff valid, links "twitter.com/x/status/None", and gives the proof id as "Proof ID: None" (valid) or "(ID: None)" (invalid) |
| OpacityAgent.SuccessTextNamesNone | plugins/opacity/examples/opacity_agent.py:224-229 | the success text built without a proof id reads "Proof ID: None" |
| OpacityAgent.FailureTextNamesNone | plugins/opacity/examples/opacity_agent.py:230-235 | the failure text built without a proof id reads "(ID: None)" |
| OpacityAgent.HandleMention | plugins/opacity/examples/opacity_agent.py:262-303 | a mention is processed iff it carries a proof id and verified iff its verification returns; the reply goes to the mention and its author and is the no-proof reply iff there is no proof id, the verdict reply (with the returned verdict) iff verification returns, else the error reply; a send failure aborts, carrying the send error, except after a verdict reply |
| OpacityAgent.VerifyMentionedResults | plugins/opacity/examples/opacity_agent.py:243-306 | the loop returns `VerifyMentionedResultsOf` |
| OpacityAgent.CountsAreNested | plugins/opacity/examples/opacity_agent.py:272-296 | verified ≤ with a proof ≤ number of mentions |
| OpacityAgent.RunFromDoneIff | plugins/opacity/examples/opacity_agent.py:258-306 | the loop completes iff no mention aborts it |
| OpacityAgent.RunFromCounts | plugins/opacity/examples/opacity_agent.py:258-306 | a completed loop reports the mentions with a proof as processed and the returned verifications as verified, with one reply per mention |
| OpacityAgent.RunFromReplies | plugins/opacity/examples/opacity_agent.py:258-306 | however the loop ends, its replies are those made so far followed by one per mention handled, in order |
| OpacityAgent.RunFromFails | plugins/opacity/examples/opacity_agent.py:258-306 | a FAILED loop stopped at the first mention whose reply raised, reporting "Error encountered while processing mentions: " plus that send error, after one reply per mention up to it |
| OpacityAgent.RunFails | plugins/opacity/examples/opacity_agent.py:258-306 | the whole FAILED loop: the first aborting mention's send error and the replies to the mentions up to and including it, in order |
| OpacityAgent.RunCounts | plugins/opacity/examples/opacity_agent.py:258-306 | for any proof-id extractor the whole loop completes iff no mention aborts it, then with the counts' summary and one reply per mention in order; when FAILED, with the first aborting mention's send error and the replies up to it; verified ≤ with a proof ≤ mentions |
| OpacityAgent.VerifyMentionedResultsCounts | plugins/opacity/examples/opacity_agent.py:243-306 | DONE iff nothing aborts, with the counts' summary and one reply per mention in order; FAILED with "Error encountered while processing mentions: " plus the first aborting mention's send error and the replies up to it; verified ≤ processed ≤ number of mentions |
| OpacityAgent.SendErrorsAbortExceptVerdict | plugins/opacity/examples/opacity_agent.py:237-240 | a failure to send the verdict reply is swallowed; a failure to send the no-proof reply aborts the loop |
| OpacityAgent.NoMentionsNoWork | plugins/opacity/examples/opacity_agent.py:253-255 | no mentions is DONE "No new mentions to process" with no replies |

## Left out

- Clock and sleeping: `time.time()` is the parameter `now`. `time.sleep` is not performed; each operation returns or accumulates the seconds it would sleep. A call to Twitter, Bittensor or Opacity takes no time in the model.
- Date handling: ISO timestamps of mentions are given already parsed to integer seconds, or as unparseable. `strftime` of the start time is not modelled.
- Network and SDK calls: the Twitter client, `call_subnet`, `verify_proof`, the proof-fetch HTTP request and the game SDK `Worker`/`Agent` are not part of this model. Their outcomes are parameters.
- ImageWorker.BittensorImageWorker.DetectImage: the tweet response and the subnet answer are single values, because each call is made at most once. A subnet answer is either valid (`isAI` and a confidence) or not. The response is a tweet with data, something without data, or an exception.
- Floating point: the confidence is the already rounded percentage text. `round(x * 100, 2)` and `log_performance` timing are not modelled. `PerformanceTracker` is not modelled either; it cannot be instantiated as written.
- Case mapping: `lower()` and `upper()` are modelled for ASCII letters only. The case-insensitive `Proof ID:` match folds ASCII letters and also maps U+0130 and U+0131 to `i`, as Python's regex engine does for `re.IGNORECASE`; no other non-ASCII folding is modelled.
- General regular expressions: only the single proof-id pattern is specified, by a whitespace predicate that follows Python's `\s`.
- OpacityWorker.Climb: the model reads an absent `referenced_tweets` field of a fetched tweet as the empty list, as `.get(..., [])` on a dict does. The Twitter client's tweet objects are not part of this model; if one exposed the absent field as `None`, the `for` loop would raise and the walk would end with an access error instead of returning that tweet.
- OpacityWorker.GetOriginalTweet: the `while True` walk carries a step bound. Running out of it is the model-only outcome `TooDeep`. The bound only truncates (`WalkFromFuelOnlyTruncates`), so it adds no other behaviour.
- OpacityWorker.VerifyTweetThread: the "Error extracting proof data" and "Unexpected error" branches are not modelled. The extraction never raises, and the remaining steps' exceptions are already caught where they occur.
- The first `verify_mentioned_results` in `opacity_agent.py` (lines 142-214) is not modelled. It is rebound by the second definition and so is dead code.
- OpacityAgent.HandleMention: the verdict reply names "None" for the tweet id and the proof id, as the source does. The loop passes a result without `original_tweet_id` and `proof_id`, so `.get` yields None.
- MentionAgent.CheckMentions: `detect_image` is an outcome parameter per mention and attempt. How the agent and the worker compose is not modelled.
- MentionAgent.CheckMentions: `MAX_MENTIONS_PER_CHECK` is only passed to the mentions API. The mention list is taken as returned.
- Non-string tweet ids: ids are strings, so only the empty-id case of the validity check remains.
- A tweet response that is not a dictionary is treated like one without data.
- The worker's `tweet_cache` and `user_cache` are built but never read, and are not modelled.
- Threads and keep-alive loops: the daemon threads and infinite loops of the agents are not modelled, apart from their sleep durations (`CycleSleep`).
- Environment, credentials and plugin construction: these are I/O and are not modelled.
- Log output other than the error tracker's warning decision and error line is not modelled.
- The `Cache` docstring claims thread safety, but the cache has no locking. Concurrent access is not modelled.
