/** `detect_image` and `_post_twitter_reply` of `bittensor_worker.py`: fetch
    a tweet, find an image in it (or, failing that, in the tweet it replies
    to), look the image up in the analysis cache, otherwise ask the Bittensor
    subnet, cache a valid answer, and reply with the formatted report.

    `BittensorImageWorker` owns its two rate limiters, its analysis cache and
    its error tracker, and its methods change them in place; the methods are
    specified by the pure function `DetectOf` over the four components'
    states. The Twitter client and the subnet are parameters: the response to
    the one `get_tweet` call, the answer to the one `call_subnet` call (used
    only when that call is made), and whether posting the reply raised. Every
    call takes no time, so the clock only moves by the sleeps of
    the rate limiters; `Call` records the external calls in order. */
module ImageWorker {
  import opened Common
  import opened Tweets
  import opened Formatters
  import opened TtlCache
  import opened RateLimiting
  import opened ErrorTracking

  /** A valid subnet answer: `isAI` (as a truth value) and the confidence,
      already rendered as the text of a percentage. */
  datatype Analysis = Analysis(isAI: bool, confidence: string)

  /** What `get_tweet` gives: an exception, nothing, or a response. */
  datatype TweetFetch = FetchRaised(error: string) | NoTweet | Fetched(doc: TweetDoc)

  /** What `call_subnet` gives: an exception, an empty answer, an answer that
      is not a dictionary with `isAI` and `confidence`, or a valid answer. */
  datatype SubnetReply = SubnetRaised(error: string) | EmptyResult | Incomplete | Result(analysis: Analysis)

  /** The external calls, in the order they are made. */
  datatype Call = TwitterWait | GetTweet(tweetId: string) | BittensorWait | CallSubnet(imageUrl: string)
                | CreateTweet(inReplyTo: string, text: string)

  /** The result tuple: status, message, and the analysis on success. */
  datatype Detection = Detection(status: Status, message: string, analysis: Option<Analysis>)

  /** The limits and intervals the worker's components were built with. */
  datatype WorkerConfig = WorkerConfig(twitter: Limits, bittensor: Limits, cacheExpiry: int, cacheInterval: int,
                                       resetInterval: int, alertThreshold: int)

  /** The states of the worker's components. */
  datatype WorkerState = WorkerState(twitter: Window, bittensor: Window, analyses: CacheState<Analysis>,
                                     errors: TrackerState)

  datatype DetectStep = DetectStep(state: WorkerState, result: Detection, calls: seq<Call>)

  const GeneralError := "general_error"
  const AnalysisError := "analysis_error"
  const ReplyError := "twitter_reply_error"

  // ---------------------------------------------------------------------------
  // Finding the image and the usernames

  /** Where the image was found: its URL, whether it is the root tweet's, and
      the root tweet's data when the image came from it. A missing
      `includes.tweets` list raises `KeyError('tweets')`. */
  datatype ImageSearch = Found(url: string, isRoot: bool, root: Option<TweetData>) | NoImage | Malformed(error: string)

  /** The image search of `detect_image`: the tweet's own image, else the
      image of the tweet it first replies to, looked up in `includes.tweets`. */
  function LocateImage(data: TweetData, includes: Option<Includes>): ImageSearch
  {
    var own := ExtractImageUrl(Doc(Some(data), includes));
    if own.0.Some? then Found(own.0.value, own.1, None)
    else
      match FirstRepliedTo(data.referencedTweets)
      case None => NoImage
      case Some(parent) =>
        if includes.None? then NoImage
        else if includes.value.tweets.None? then Malformed("'tweets'")
        else
          match FindTweet(includes.value.tweets.value, parent.id)
          case None => NoImage
          case Some(root) =>
            var fromRoot := ExtractImageUrl(Doc(Some(root), includes));
            if fromRoot.0.Some? then Found(fromRoot.0.value, true, Some(root)) else NoImage
  }

  /** The requester's and the original poster's usernames, from
      `includes.users`. */
  function Usernames(data: TweetData, includes: Option<Includes>, isRoot: bool, root: Option<TweetData>): (Option<string>, Option<string>)
  {
    if includes.Some? && includes.value.users.Some? then
      var users := includes.value.users.value;
      var requester := FindUser(users, data.authorId);
      var poster := if isRoot && root.Some? then FindUser(users, root.value.authorId) else None;
      (if requester.Some? then Some(requester.value.username) else None,
       if poster.Some? then Some(poster.value.username) else None)
    else (None, None)
  }

  // ---------------------------------------------------------------------------
  // The specification of the worker's methods

  /** `error_tracker.track(kind, ...)` at time `t`, on the worker's state. */
  function Tracked(cfg: WorkerConfig, s: WorkerState, kind: string, t: int): WorkerState
  {
    s.(errors := TrackOf(s.errors, kind, t, cfg.resetInterval, cfg.alertThreshold).state)
  }

  /** `_post_twitter_reply` at time `t`: wait on the Twitter limiter, post,
      and track a failure instead of raising it. */
  function ReplyOf(cfg: WorkerConfig, s: WorkerState, t: int, replyError: Option<string>): WorkerState
  {
    var w := WaitOf(cfg.twitter, s.twitter, t);
    var s1 := s.(twitter := w.window);
    if replyError.Some? then Tracked(cfg, s1, ReplyError, Resumed(t, w)) else s1
  }

  /** `detect_image` from the cache lookup on, at time `t`, for the image
      `url` and the reply details. */
  function AnalyzeOf(cfg: WorkerConfig, s: WorkerState, t: int, tweetId: string, url: string,
                     requester: Option<string>, poster: Option<string>, isRoot: bool,
                     answer: SubnetReply, replyError: Option<string>): DetectStep
  {
    var look := GetOf(s.analyses, url, t, cfg.cacheExpiry, cfg.cacheInterval);
    var s1 := s.(analyses := look.state);
    if look.value.Some? then
      var a := look.value.value;
      var text := FormatAnalysisResponse(a.isAI, a.confidence, requester, poster, isRoot);
      DetectStep(ReplyOf(cfg, s1, t, replyError), Detection(Done, text, Some(a)),
                 [TwitterWait, CreateTweet(tweetId, text)])
    else SubnetOf(cfg, s1, t, tweetId, url, requester, poster, isRoot, answer, replyError)
  }

  /** The message reported for a subnet answer that is not a usable analysis. */
  function SubnetFailureMessage(answer: SubnetReply): string
    requires !answer.Result?
  {
    match answer
    case SubnetRaised(e) => "Analysis failed: " + e
    case EmptyResult => "No analysis result available"
    case Incomplete => "Invalid analysis result format"
  }

  /** The context, and the exception if any, tracked for such an answer. */
  function SubnetFailureContext(answer: SubnetReply): (Option<string>, Option<string>)
    requires !answer.Result?
  {
    match answer
    case SubnetRaised(e) => (Some("Error calling Bittensor API"), Some(e))
    case EmptyResult => (Some("Empty response from Bittensor API"), None)
    case Incomplete => (Some("Invalid response format from Bittensor API"), None)
  }

  /** The cache-miss part of the analysis, at time `t`: wait on the Bittensor
      limiter, call the subnet, and either count the failure or cache the
      analysis and post the reply. */
  function SubnetOf(cfg: WorkerConfig, s: WorkerState, t: int, tweetId: string, url: string,
                    requester: Option<string>, poster: Option<string>, isRoot: bool,
                    answer: SubnetReply, replyError: Option<string>): DetectStep
  {
    var w := WaitOf(cfg.bittensor, s.bittensor, t);
    var t2 := Resumed(t, w);
    var s2 := s.(bittensor := w.window);
    var called := [BittensorWait, CallSubnet(url)];
    if !answer.Result? then
      DetectStep(Tracked(cfg, s2, AnalysisError, t2), Detection(Failed, SubnetFailureMessage(answer), None), called)
    else
      var a := answer.analysis;
      var s3 := s2.(analyses := SetOf(s2.analyses, url, a, t2));
      var text := FormatAnalysisResponse(a.isAI, a.confidence, requester, poster, isRoot);
      DetectStep(ReplyOf(cfg, s3, t2, replyError), Detection(Done, text, Some(a)),
                 called + [TwitterWait, CreateTweet(tweetId, text)])
  }

  /** `detect_image` once the tweet's data is in hand, at time `t`: find the
      image, then the usernames, the analysis and the reply. */
  function AnswerOf(cfg: WorkerConfig, s: WorkerState, t: int, tweetId: string, data: TweetData,
                    includes: Option<Includes>, answer: SubnetReply, replyError: Option<string>): DetectStep
  {
    match LocateImage(data, includes)
    case Malformed(e) => DetectStep(Tracked(cfg, s, GeneralError, t), Detection(Failed, "Operation failed: " + e, None), [])
    case NoImage => DetectStep(s, Detection(Failed, "No image found to analyze", None), [])
    case Found(url, isRoot, root) =>
      var names := Usernames(data, includes, isRoot, root);
      AnalyzeOf(cfg, s, t, tweetId, url, names.0, names.1, isRoot, answer, replyError)
  }

  /** `detect_image(tweet_id)` at time `now`. */
  function DetectOf(cfg: WorkerConfig, s: WorkerState, tweetId: string, now: int, response: TweetFetch,
                    answer: SubnetReply, replyError: Option<string>): DetectStep
  {
    var w := WaitOf(cfg.twitter, s.twitter, now);
    var t := Resumed(now, w);
    var s1 := s.(twitter := w.window);
    var asked := [TwitterWait, GetTweet(tweetId)];
    match response
    case FetchRaised(e) =>
      DetectStep(Tracked(cfg, s1, GeneralError, t), Detection(Failed, "Operation failed: " + e, None), asked)
    case NoTweet => DetectStep(s1, Detection(Failed, "Could not retrieve tweet data", None), asked)
    case Fetched(doc) =>
      if !(doc.Doc? && doc.data.Some?) then
        DetectStep(s1, Detection(Failed, "Could not retrieve tweet data", None), asked)
      else
        var rest := AnswerOf(cfg, s1, t, tweetId, doc.data.value, doc.includes, answer, replyError);
        DetectStep(rest.state, rest.result, asked + rest.calls)
  }

  // ---------------------------------------------------------------------------
  // Properties of the image search

  /** The tweet's own image wins; only when it has none is the first
      replied-to tweet, found in `includes.tweets`, searched, and an image
      found there is marked as the root tweet's and names that tweet. A
      found URL is never empty. */
  lemma LocateImageCases(data: TweetData, includes: Option<Includes>)
    ensures var own := ExtractImageUrl(Doc(Some(data), includes));
            var r := LocateImage(data, includes);
      && (own.0.Some? ==> r == Found(own.0.value, own.1, None))
      && (r.Found? && r.root.None? ==> own.0.Some?)
      && (r.Found? ==> r.url != "")
      && (r.Found? && r.root.Some? ==>
            && own.0.None? && r.isRoot
            && FirstRepliedTo(data.referencedTweets).Some?
            && includes.Some? && includes.value.tweets.Some?
            && r.root == FindTweet(includes.value.tweets.value, FirstRepliedTo(data.referencedTweets).value.id)
            && ExtractImageUrl(Doc(r.root, includes)).0 == Some(r.url))
      && (r.Malformed? <==> own.0.None? && FirstRepliedTo(data.referencedTweets).Some?
                            && includes.Some? && includes.value.tweets.None?)
  {
    var own := ExtractImageUrl(Doc(Some(data), includes));
    ExtractImageUrlFinds(Doc(Some(data), includes));
    var r := LocateImage(data, includes);
    if r.Found? && r.root.Some? {
      ExtractImageUrlFinds(Doc(r.root, includes));
    }
  }

  /** The original poster is only ever named for an image that was found in
      the root tweet, and the requester is the author of the tweet itself. */
  lemma UsernamesOfAuthors(data: TweetData, includes: Option<Includes>, isRoot: bool, root: Option<TweetData>)
    ensures var names := Usernames(data, includes, isRoot, root);
      && (names.1.Some? ==> isRoot && root.Some?
                            && exists u :: u in includes.value.users.value && u.id == root.value.authorId
                                           && u.username == names.1.value)
      && (names.0.Some? ==> exists u :: u in includes.value.users.value && u.id == data.authorId
                                         && u.username == names.0.value)
  {
    var names := Usernames(data, includes, isRoot, root);
    if names.0.Some? {
      var u := FindUser(includes.value.users.value, data.authorId).value;
      assert u in includes.value.users.value;
    }
    if names.1.Some? {
      var u := FindUser(includes.value.users.value, root.value.authorId).value;
      assert u in includes.value.users.value;
    }
  }

  // ---------------------------------------------------------------------------
  // Properties of `detect_image`

  /** Every Twitter call is made right after a wait on the Twitter limiter,
      and every subnet call right after a wait on the Bittensor limiter. */
  predicate Paced(calls: seq<Call>)
  {
    forall i :: 0 <= i < |calls| ==> PacedAt(calls, i)
  }

  /** The call at position `i` follows the wait it needs. */
  predicate PacedAt(calls: seq<Call>, i: nat)
    requires i < |calls|
  {
    && (calls[i].GetTweet? || calls[i].CreateTweet? ==> 0 < i && calls[i - 1] == TwitterWait)
    && (calls[i].CallSubnet? ==> 0 < i && calls[i - 1] == BittensorWait)
  }

  lemma {:induction false} PacedAppend(a: seq<Call>, b: seq<Call>)
    requires Paced(a) && Paced(b)
    ensures Paced(a + b)
  {
    forall i | 0 <= i < |a + b|
      ensures PacedAt(a + b, i)
    {
      if i >= |a| {
        var j := i - |a|;
        assert PacedAt(b, j);
        assert (a + b)[i] == b[j];
        if j > 0 {
          assert (a + b)[i - 1] == b[j - 1];
        }
      } else {
        assert PacedAt(a, i);
        assert (a + b)[i] == a[i];
        if i > 0 {
          assert (a + b)[i - 1] == a[i - 1];
        }
      }
    }
  }

  /** `detect_image` never calls Twitter or the subnet without first waiting
      on the matching rate limiter. */
  lemma DetectIsPaced(cfg: WorkerConfig, s: WorkerState, tweetId: string, now: int, response: TweetFetch,
                      answer: SubnetReply, replyError: Option<string>)
    ensures Paced(DetectOf(cfg, s, tweetId, now, response, answer, replyError).calls)
  {
    var asked := [TwitterWait, GetTweet(tweetId)];
    assert PacedAt(asked, 1);
    DetectCalls(cfg, s, tweetId, now, response, answer, replyError);
    if response.Fetched? && response.doc.Doc? && response.doc.data.Some? {
      var w := WaitOf(cfg.twitter, s.twitter, now);
      var rest := AnswerOf(cfg, s.(twitter := w.window), Resumed(now, w), tweetId, response.doc.data.value,
                           response.doc.includes, answer, replyError);
      AnswerIsPaced(cfg, s.(twitter := w.window), Resumed(now, w), tweetId, response.doc.data.value,
                    response.doc.includes, answer, replyError);
      PacedAppend(asked, rest.calls);
    }
  }

  /** `detect_image` first waits and fetches the tweet, and goes on only
      when the tweet's data came back. */
  lemma DetectCalls(cfg: WorkerConfig, s: WorkerState, tweetId: string, now: int, response: TweetFetch,
                    answer: SubnetReply, replyError: Option<string>)
    ensures var d := DetectOf(cfg, s, tweetId, now, response, answer, replyError);
      var w := WaitOf(cfg.twitter, s.twitter, now);
      if response.Fetched? && response.doc.Doc? && response.doc.data.Some? then
        d.calls == [TwitterWait, GetTweet(tweetId)]
                   + AnswerOf(cfg, s.(twitter := w.window), Resumed(now, w), tweetId, response.doc.data.value,
                              response.doc.includes, answer, replyError).calls
      else d.calls == [TwitterWait, GetTweet(tweetId)]
  {
  }

  lemma AnswerIsPaced(cfg: WorkerConfig, s: WorkerState, t: int, tweetId: string, data: TweetData,
                      includes: Option<Includes>, answer: SubnetReply, replyError: Option<string>)
    ensures Paced(AnswerOf(cfg, s, t, tweetId, data, includes, answer, replyError).calls)
  {
    match LocateImage(data, includes)
    case Found(url, isRoot, root) =>
      var names := Usernames(data, includes, isRoot, root);
      AnalyzeIsPaced(cfg, s, t, tweetId, url, names.0, names.1, isRoot, answer, replyError);
    case _ =>
  }

  lemma AnalyzeIsPaced(cfg: WorkerConfig, s: WorkerState, t: int, tweetId: string, url: string,
                       requester: Option<string>, poster: Option<string>, isRoot: bool,
                       answer: SubnetReply, replyError: Option<string>)
    ensures Paced(AnalyzeOf(cfg, s, t, tweetId, url, requester, poster, isRoot, answer, replyError).calls)
  {
    var look := GetOf(s.analyses, url, t, cfg.cacheExpiry, cfg.cacheInterval);
    if look.value.Some? {
      var r := AnalyzeOf(cfg, s, t, tweetId, url, requester, poster, isRoot, answer, replyError);
      assert PacedAt(r.calls, 1);
    } else {
      SubnetIsPaced(cfg, s.(analyses := look.state), t, tweetId, url, requester, poster, isRoot, answer, replyError);
    }
  }

  lemma SubnetIsPaced(cfg: WorkerConfig, s: WorkerState, t: int, tweetId: string, url: string,
                      requester: Option<string>, poster: Option<string>, isRoot: bool,
                      answer: SubnetReply, replyError: Option<string>)
    ensures Paced(SubnetOf(cfg, s, t, tweetId, url, requester, poster, isRoot, answer, replyError).calls)
  {
    var r := SubnetOf(cfg, s, t, tweetId, url, requester, poster, isRoot, answer, replyError);
    var called := [BittensorWait, CallSubnet(url)];
    assert PacedAt(called, 1);
    if answer.Result? {
      var replied := [TwitterWait, CreateTweet(tweetId, r.result.message)];
      assert PacedAt(replied, 1);
      PacedAppend(called, replied);
      assert r.calls == called + replied;
    } else {
      assert r.calls == called;
    }
  }

  /** On a cache hit the subnet is not called, the Bittensor limiter is not
      touched, and the cached analysis is reported and posted as the reply. */
  lemma CacheHitSkipsSubnet(cfg: WorkerConfig, s: WorkerState, t: int, tweetId: string, url: string,
                            requester: Option<string>, poster: Option<string>, isRoot: bool,
                            answer: SubnetReply, other: SubnetReply, replyError: Option<string>)
    requires GetOf(s.analyses, url, t, cfg.cacheExpiry, cfg.cacheInterval).value.Some?
    ensures var a := GetOf(s.analyses, url, t, cfg.cacheExpiry, cfg.cacheInterval).value.value;
            var r := AnalyzeOf(cfg, s, t, tweetId, url, requester, poster, isRoot, answer, replyError);
      && r == AnalyzeOf(cfg, s, t, tweetId, url, requester, poster, isRoot, other, replyError)
      && r.result == Detection(Done, FormatAnalysisResponse(a.isAI, a.confidence, requester, poster, isRoot), Some(a))
      && r.calls == [TwitterWait, CreateTweet(tweetId, r.result.message)]
      && r.state.bittensor == s.bittensor
  {
  }

  /** On a cache miss a valid answer is cached under the image URL at the
      time of the subnet call, so a lookup within the expiry returns it; the
      answer is reported and posted as the reply. */
  lemma ValidAnswerIsCached(cfg: WorkerConfig, s: WorkerState, t: int, tweetId: string, url: string,
                            requester: Option<string>, poster: Option<string>, isRoot: bool,
                            a: Analysis, replyError: Option<string>, later: int)
    requires url != ""
    requires GetOf(s.analyses, url, t, cfg.cacheExpiry, cfg.cacheInterval).value.None?
    ensures var t2 := Resumed(t, WaitOf(cfg.bittensor, s.bittensor, t));
            var r := AnalyzeOf(cfg, s, t, tweetId, url, requester, poster, isRoot, Result(a), replyError);
      && r.result == Detection(Done, FormatAnalysisResponse(a.isAI, a.confidence, requester, poster, isRoot), Some(a))
      && r.calls == [BittensorWait, CallSubnet(url), TwitterWait, CreateTweet(tweetId, r.result.message)]
      && url in r.state.analyses.entries && r.state.analyses.entries[url] == CacheEntry(a, t2)
      && GetOf(r.state.analyses, url, later, cfg.cacheExpiry, cfg.cacheInterval).value
         == if later - t2 <= cfg.cacheExpiry then Some(a) else None
  {
    var look := GetOf(s.analyses, url, t, cfg.cacheExpiry, cfg.cacheInterval);
    var w := WaitOf(cfg.bittensor, s.bittensor, t);
    var s2 := s.(analyses := look.state).(bittensor := w.window);
    SetThenGet(s2.analyses, url, a, Resumed(t, w), later, cfg.cacheExpiry, cfg.cacheInterval);
  }

  /** On a cache miss an empty, malformed or failed answer is not cached: the
      cache is left as the lookup left it, the failure is counted as an
      `analysis_error`, and no reply is posted. */
  lemma FailedAnswerIsNotCached(cfg: WorkerConfig, s: WorkerState, t: int, tweetId: string, url: string,
                                requester: Option<string>, poster: Option<string>, isRoot: bool,
                                answer: SubnetReply, replyError: Option<string>)
    requires !answer.Result?
    requires GetOf(s.analyses, url, t, cfg.cacheExpiry, cfg.cacheInterval).value.None?
    ensures var t2 := Resumed(t, WaitOf(cfg.bittensor, s.bittensor, t));
            var r := AnalyzeOf(cfg, s, t, tweetId, url, requester, poster, isRoot, answer, replyError);
      && r.result.status == Failed && r.result.analysis.None?
      && r.calls == [BittensorWait, CallSubnet(url)]
      && r.state.analyses == GetOf(s.analyses, url, t, cfg.cacheExpiry, cfg.cacheInterval).state
      && r.state.twitter == s.twitter
      && r.state.errors == TrackOf(s.errors, AnalysisError, t2, cfg.resetInterval, cfg.alertThreshold).state
  {
  }

  /** A step reports DONE exactly when it carries an analysis; a DONE step
      ends by posting its message in reply to the tweet, and a FAILED step
      posts nothing. */
  predicate RepliesOnSuccess(d: DetectStep, tweetId: string)
  {
    && (d.result.status == Done <==> d.result.analysis.Some?)
    && (d.result.status == Done ==>
          |d.calls| >= 2 && d.calls[|d.calls| - 2..] == [TwitterWait, CreateTweet(tweetId, d.result.message)])
    && (d.result.status == Failed ==> forall i :: 0 <= i < |d.calls| ==> !d.calls[i].CreateTweet?)
  }

  lemma AnalyzeRepliesOnSuccess(cfg: WorkerConfig, s: WorkerState, t: int, tweetId: string, url: string,
                                requester: Option<string>, poster: Option<string>, isRoot: bool,
                                answer: SubnetReply, replyError: Option<string>)
    ensures RepliesOnSuccess(AnalyzeOf(cfg, s, t, tweetId, url, requester, poster, isRoot, answer, replyError), tweetId)
  {
    var look := GetOf(s.analyses, url, t, cfg.cacheExpiry, cfg.cacheInterval);
    if look.value.None? {
      SubnetRepliesOnSuccess(cfg, s.(analyses := look.state), t, tweetId, url, requester, poster, isRoot,
                             answer, replyError);
    }
  }

  lemma SubnetRepliesOnSuccess(cfg: WorkerConfig, s: WorkerState, t: int, tweetId: string, url: string,
                               requester: Option<string>, poster: Option<string>, isRoot: bool,
                               answer: SubnetReply, replyError: Option<string>)
    ensures RepliesOnSuccess(SubnetOf(cfg, s, t, tweetId, url, requester, poster, isRoot, answer, replyError), tweetId)
  {
    var d := SubnetOf(cfg, s, t, tweetId, url, requester, poster, isRoot, answer, replyError);
    var called := [BittensorWait, CallSubnet(url)];
    if answer.Result? {
      var replied := [TwitterWait, CreateTweet(tweetId, d.result.message)];
      assert d.calls == called + replied;
      assert d.calls[|d.calls| - 2..] == replied;
    } else {
      assert d.calls == called;
    }
  }

  lemma AnswerRepliesOnSuccess(cfg: WorkerConfig, s: WorkerState, t: int, tweetId: string, data: TweetData,
                               includes: Option<Includes>, answer: SubnetReply, replyError: Option<string>)
    ensures RepliesOnSuccess(AnswerOf(cfg, s, t, tweetId, data, includes, answer, replyError), tweetId)
  {
    match LocateImage(data, includes)
    case Found(url, isRoot, root) =>
      var names := Usernames(data, includes, isRoot, root);
      AnalyzeRepliesOnSuccess(cfg, s, t, tweetId, url, names.0, names.1, isRoot, answer, replyError);
    case _ =>
  }

  /** Prefixing the Twitter fetch keeps a step replying exactly on success. */
  lemma {:induction false} RepliesAfterFetch(d: DetectStep, rest: DetectStep, tweetId: string)
    requires RepliesOnSuccess(rest, tweetId)
    requires d.result == rest.result && d.calls == [TwitterWait, GetTweet(tweetId)] + rest.calls
    ensures RepliesOnSuccess(d, tweetId)
  {
    var calls := d.calls;
    if rest.result.status == Done {
      assert calls[|calls| - 2..] == rest.calls[|rest.calls| - 2..];
    } else {
      forall i | 0 <= i < |calls|
        ensures !calls[i].CreateTweet?
      {
        if i >= 2 {
          assert calls[i] == rest.calls[i - 2];
        }
      }
    }
  }

  /** A reply is posted exactly when detection succeeds, and it carries the
      reported message in reply to the tweet; a success always carries the
      analysis. */
  lemma RepliesExactlyOnSuccess(cfg: WorkerConfig, s: WorkerState, tweetId: string, now: int, response: TweetFetch,
                                answer: SubnetReply, replyError: Option<string>)
    ensures var d := DetectOf(cfg, s, tweetId, now, response, answer, replyError);
      && (d.result.status == Done <==> d.result.analysis.Some?)
      && (d.result.status == Done ==> |d.calls| >= 2 && d.calls[|d.calls| - 2..] == [TwitterWait, CreateTweet(tweetId, d.result.message)])
      && (d.result.status == Failed ==> forall i :: 0 <= i < |d.calls| ==> !d.calls[i].CreateTweet?)
  {
    var d := DetectOf(cfg, s, tweetId, now, response, answer, replyError);
    if response.Fetched? && response.doc.Doc? && response.doc.data.Some? {
      var w := WaitOf(cfg.twitter, s.twitter, now);
      var rest := AnswerOf(cfg, s.(twitter := w.window), Resumed(now, w), tweetId, response.doc.data.value,
                           response.doc.includes, answer, replyError);
      AnswerRepliesOnSuccess(cfg, s.(twitter := w.window), Resumed(now, w), tweetId, response.doc.data.value,
                             response.doc.includes, answer, replyError);
      RepliesAfterFetch(d, rest, tweetId);
    } else {
      assert d.result.status == Failed && d.result.analysis == None && d.calls == [TwitterWait, GetTweet(tweetId)];
    }
    assert RepliesOnSuccess(d, tweetId);
  }

  /** Posting the reply and failing to post it leave the same limiters and
      cache. */
  lemma ReplyOutcomeOnlyCounted(cfg: WorkerConfig, s: WorkerState, t: int, e: string)
    ensures var failed := ReplyOf(cfg, s, t, Some(e));
            var posted := ReplyOf(cfg, s, t, None);
      && failed.twitter == posted.twitter && failed.bittensor == posted.bittensor && failed.analyses == posted.analyses
  {
  }

  lemma AnalyzeReplyOnlyCounted(cfg: WorkerConfig, s: WorkerState, t: int, tweetId: string, url: string,
                                requester: Option<string>, poster: Option<string>, isRoot: bool,
                                answer: SubnetReply, e: string)
    ensures var failed := AnalyzeOf(cfg, s, t, tweetId, url, requester, poster, isRoot, answer, Some(e));
            var posted := AnalyzeOf(cfg, s, t, tweetId, url, requester, poster, isRoot, answer, None);
      && failed.result == posted.result && failed.calls == posted.calls
      && failed.state.twitter == posted.state.twitter && failed.state.bittensor == posted.state.bittensor
      && failed.state.analyses == posted.state.analyses
      && (posted.result.status == Failed ==> failed.state.errors == posted.state.errors)
  {
    var look := GetOf(s.analyses, url, t, cfg.cacheExpiry, cfg.cacheInterval);
    var s1 := s.(analyses := look.state);
    if look.value.Some? {
      ReplyOutcomeOnlyCounted(cfg, s1, t, e);
    } else if answer.Result? {
      var w := WaitOf(cfg.bittensor, s1.bittensor, t);
      var s2 := s1.(bittensor := w.window);
      ReplyOutcomeOnlyCounted(cfg, s2.(analyses := SetOf(s2.analyses, url, answer.analysis, Resumed(t, w))), Resumed(t, w), e);
    }
  }

  /** Whether the reply could be posted changes only the error counts: the
      result, the calls, the limiters and the cache are the same. */
  lemma ReplyFailureOnlyCounted(cfg: WorkerConfig, s: WorkerState, tweetId: string, now: int, response: TweetFetch,
                                answer: SubnetReply, e: string)
    ensures var failed := DetectOf(cfg, s, tweetId, now, response, answer, Some(e));
            var posted := DetectOf(cfg, s, tweetId, now, response, answer, None);
      && failed.result == posted.result && failed.calls == posted.calls
      && failed.state.twitter == posted.state.twitter && failed.state.bittensor == posted.state.bittensor
      && failed.state.analyses == posted.state.analyses
      && (posted.result.status == Failed ==> failed.state.errors == posted.state.errors)
  {
    if response.Fetched? && response.doc.Doc? && response.doc.data.Some? {
      var w := WaitOf(cfg.twitter, s.twitter, now);
      var data := response.doc.data.value;
      var includes := response.doc.includes;
      var search := LocateImage(data, includes);
      if search.Found? {
        var names := Usernames(data, includes, search.isRoot, search.root);
        AnalyzeReplyOnlyCounted(cfg, s.(twitter := w.window), Resumed(now, w), tweetId, search.url, names.0, names.1,
                                search.isRoot, answer, e);
      }
    }
  }

  /** A tweet that cannot be fetched, or a response without tweet data, ends
      after the one Twitter call; only an exception is counted, as a
      `general_error`. */
  lemma NoTweetData(cfg: WorkerConfig, s: WorkerState, tweetId: string, now: int, response: TweetFetch,
                    answer: SubnetReply, replyError: Option<string>)
    requires !(response.Fetched? && response.doc.Doc? && response.doc.data.Some?)
    ensures var w := WaitOf(cfg.twitter, s.twitter, now);
            var d := DetectOf(cfg, s, tweetId, now, response, answer, replyError);
      && d.calls == [TwitterWait, GetTweet(tweetId)]
      && d.state.twitter == w.window && d.state.bittensor == s.bittensor && d.state.analyses == s.analyses
      && (response.FetchRaised? ==>
            d.result == Detection(Failed, "Operation failed: " + response.error, None)
            && d.state.errors == TrackOf(s.errors, GeneralError, Resumed(now, w), cfg.resetInterval, cfg.alertThreshold).state)
      && (!response.FetchRaised? ==>
            d.result == Detection(Failed, "Could not retrieve tweet data", None) && d.state.errors == s.errors)
  {
  }

  // ---------------------------------------------------------------------------
  // The worker

  class BittensorImageWorker {
    const twitterLimiter: RateLimiter
    const bittensorLimiter: RateLimiter
    const analysisCache: Cache<Analysis>
    const errorTracker: ErrorTracker

    predicate Valid()
    {
      twitterLimiter != bittensorLimiter
    }

    function Config(): WorkerConfig
    {
      WorkerConfig(twitterLimiter.Config(), bittensorLimiter.Config(), analysisCache.expirySeconds,
                   analysisCache.cleanupInterval, errorTracker.resetInterval, errorTracker.alertThreshold)
    }

    function State(): WorkerState
      reads twitterLimiter, bittensorLimiter, analysisCache, errorTracker
    {
      WorkerState(twitterLimiter.State(), bittensorLimiter.State(), analysisCache.State(), errorTracker.State())
    }

    /** The worker's components, built from the configured limits: Twitter
        (900 s window, 15 requests, buffer 1, sleeps 60..900), Bittensor (60 s
        window, 100 requests, buffer 0, sleeps 1..30), a one-hour analysis
        cache swept every 300 s, and a tracker reset hourly that warns past 10
        errors of a kind. */
    constructor (now: int)
      ensures Valid()
      ensures Config() == WorkerConfig(Limits(900, 15, 1, 60, 900), Limits(60, 100, 0, 1, 30), 3600, 300, 3600, 10)
      ensures State() == WorkerState(Window(0, 0), Window(0, 0), CacheState(map[], now), TrackerState(map[], now))
    {
      twitterLimiter := new RateLimiter("Twitter", 900, 15, 1, 60, 900);
      bittensorLimiter := new RateLimiter("Bittensor", 60, 100, 0, 1, 30);
      analysisCache := new Cache(3600, 300, now);
      errorTracker := new ErrorTracker(3600, 10, now);
    }

    /** `error_tracker.track(kind, context, error)` at time `t`. */
    method TrackError(kind: string, context: Option<string>, error: Option<string>, t: int)
      modifies errorTracker
      ensures State() == Tracked(Config(), old(State()), kind, t)
    {
      var warned, line := errorTracker.Track(kind, context, error, t);
    }

    /** `twitter_limiter.wait()` at time `t`, answering the time it resumes at. */
    method WaitTwitter(t: int) returns (resumed: int)
      requires Valid()
      modifies twitterLimiter
      ensures var w := WaitOf(Config().twitter, old(State()).twitter, t);
              State() == old(State()).(twitter := w.window) && resumed == Resumed(t, w)
    {
      var slept := twitterLimiter.Wait(t);
      resumed := t + slept;
    }

    /** `bittensor_limiter.wait()` at time `t`, answering the time it resumes at. */
    method WaitBittensor(t: int) returns (resumed: int)
      requires Valid()
      modifies bittensorLimiter
      ensures var w := WaitOf(Config().bittensor, old(State()).bittensor, t);
              State() == old(State()).(bittensor := w.window) && resumed == Resumed(t, w)
    {
      var slept := bittensorLimiter.Wait(t);
      resumed := t + slept;
    }

    /** `analysis_cache.get(image_url)` at time `t`. */
    method CachedAnalysis(url: string, t: int) returns (a: Option<Analysis>)
      modifies analysisCache
      ensures var look := GetOf(old(State()).analyses, url, t, Config().cacheExpiry, Config().cacheInterval);
              State() == old(State()).(analyses := look.state) && a == look.value
    {
      a := analysisCache.Get(url, t);
    }

    /** `analysis_cache.set(image_url, analysis)` at time `t`. */
    method CacheAnalysis(url: string, a: Analysis, t: int)
      modifies analysisCache
      ensures State() == old(State()).(analyses := SetOf(old(State()).analyses, url, a, t))
    {
      analysisCache.Set(url, a, t);
    }

    /** `_post_twitter_reply(tweet_id, text)` at time `now`. */
    method PostTwitterReply(tweetId: string, text: string, now: int, replyError: Option<string>)
      requires Valid()
      modifies twitterLimiter, errorTracker
      ensures State() == ReplyOf(Config(), old(State()), now, replyError)
    {
      var resumed := WaitTwitter(now);
      if replyError.Some? {
        TrackError(ReplyError, Some("Failed to post reply"), replyError, resumed);
      }
    }

    /** `detect_image(tweet_id)` at time `now`. */
    method DetectImage(tweetId: string, now: int, response: TweetFetch, answer: SubnetReply,
                       replyError: Option<string>)
      returns (r: Detection, calls: seq<Call>)
      requires Valid()
      modifies twitterLimiter, bittensorLimiter, analysisCache, errorTracker
      ensures DetectOf(Config(), old(State()), tweetId, now, response, answer, replyError) == DetectStep(State(), r, calls)
    {
      var t := WaitTwitter(now);
      calls := [TwitterWait, GetTweet(tweetId)];
      if response.FetchRaised? {
        TrackError(GeneralError, Some("Error in detect_image"), Some(response.error), t);
        return Detection(Failed, "Operation failed: " + response.error, None), calls;
      }
      if response.NoTweet? || !(response.doc.Doc? && response.doc.data.Some?) {
        return Detection(Failed, "Could not retrieve tweet data", None), calls;
      }
      var rest, restCalls := Answer(t, tweetId, response.doc.data.value, response.doc.includes, answer, replyError);
      return rest, calls + restCalls;
    }

    /** `detect_image` once the tweet's data is in hand, at time `t`. */
    method Answer(t: int, tweetId: string, data: TweetData, includes: Option<Includes>, answer: SubnetReply,
                  replyError: Option<string>)
      returns (r: Detection, calls: seq<Call>)
      requires Valid()
      modifies twitterLimiter, bittensorLimiter, analysisCache, errorTracker
      ensures AnswerOf(Config(), old(State()), t, tweetId, data, includes, answer, replyError) == DetectStep(State(), r, calls)
    {
      var search := LocateImage(data, includes);
      if search.Malformed? {
        TrackError(GeneralError, Some("Error in detect_image"), Some(search.error), t);
        return Detection(Failed, "Operation failed: " + search.error, None), [];
      }
      if search.NoImage? {
        return Detection(Failed, "No image found to analyze", None), [];
      }
      var names := Usernames(data, includes, search.isRoot, search.root);
      r, calls := Analyze(t, tweetId, search.url, names.0, names.1, search.isRoot, answer, replyError);
    }

    /** `detect_image` from the cache lookup on, at time `t`. */
    method Analyze(t: int, tweetId: string, url: string, requester: Option<string>, poster: Option<string>,
                   isRoot: bool, answer: SubnetReply, replyError: Option<string>)
      returns (r: Detection, calls: seq<Call>)
      requires Valid()
      modifies twitterLimiter, bittensorLimiter, analysisCache, errorTracker
      ensures AnalyzeOf(Config(), old(State()), t, tweetId, url, requester, poster, isRoot, answer, replyError)
              == DetectStep(State(), r, calls)
    {
      var cached := CachedAnalysis(url, t);
      if cached.Some? {
        var a := cached.value;
        var text := FormatAnalysisResponse(a.isAI, a.confidence, requester, poster, isRoot);
        PostTwitterReply(tweetId, text, t, replyError);
        return Detection(Done, text, Some(a)), [TwitterWait, CreateTweet(tweetId, text)];
      }
      r, calls := AskSubnet(t, tweetId, url, requester, poster, isRoot, answer, replyError);
    }

    /** The cache-miss part of `detect_image`'s analysis. */
    method AskSubnet(t: int, tweetId: string, url: string, requester: Option<string>, poster: Option<string>,
                     isRoot: bool, answer: SubnetReply, replyError: Option<string>)
      returns (r: Detection, calls: seq<Call>)
      requires Valid()
      modifies twitterLimiter, bittensorLimiter, analysisCache, errorTracker
      ensures var d := SubnetOf(Config(), old(State()), t, tweetId, url, requester, poster, isRoot, answer, replyError);
              State() == d.state && r == d.result && calls == d.calls
    {
      var t2 := WaitBittensor(t);
      calls := [BittensorWait, CallSubnet(url)];
      if !answer.Result? {
        var tracked := SubnetFailureContext(answer);
        TrackError(AnalysisError, tracked.0, tracked.1, t2);
        return Detection(Failed, SubnetFailureMessage(answer), None), calls;
      }
      var a := answer.analysis;
      CacheAnalysis(url, a, t2);
      var text := FormatAnalysisResponse(a.isAI, a.confidence, requester, poster, isRoot);
      PostTwitterReply(tweetId, text, t2, replyError);
      return Detection(Done, text, Some(a)), calls + [TwitterWait, CreateTweet(tweetId, text)];
    }
  }
}
