/** The thread verifier of `opacity_worker.py`: from any tweet of a thread it
    walks up the `replied_to` references to the thread's original tweet,
    takes the proof ID from the end of that tweet's text (ignoring the case
    of the "Proof ID:" marker), fetches the proof and has it verified.

    The Twitter client, the prover's HTTP endpoint and the Opacity plugin are
    oracles: functions from the requested id to the outcome of the call. The
    walk, a `while True` loop in the source, is given a bound on the number
    of parent fetches; running out of it is the model-only outcome
    `TooDeep`. */
module OpacityWorker {
  import opened Common
  import opened Tweets
  import opened ProofId

  /** The outcome of one `get_tweet` call: it raised, it returned nothing or
      a response without `data`, or it returned a tweet. */
  datatype TweetFetch = FetchRaised(error: string) | NoData | Fetched(tweet: TweetData)

  /** The exceptions `_get_original_tweet` raises. */
  datatype TweetError = AuthFailed | NotFound(tweetId: string) | Forbidden | AccessError(detail: string)

  /** `{'id': ..., 'text': ...}` of the original tweet. */
  datatype Original = Original(id: string, text: string)

  /** What `_get_original_tweet` ends with. */
  datatype Walk = Root(tweet: Original) | Lost | Raised(error: TweetError) | TooDeep

  /** `str(e)` of the exceptions above. */
  function ErrorText(e: TweetError): string
  {
    match e
    case AuthFailed => "Twitter API authentication failed. Please check your credentials."
    case NotFound(id) => "Tweet with ID " + id + " does not exist"
    case Forbidden => "Twitter API access forbidden. Please check API permissions."
    case AccessError(detail) => "Error accessing tweet: " + detail
  }

  /** The handler of `_get_original_tweet`: the lower-cased message is tested
      for "unauthorized", then "not found", then "forbidden". */
  function ClassifyTweetError(tweetId: string, message: string): (e: TweetError)
    ensures e.AuthFailed? <==> Contains(Lower(message), "unauthorized")
    ensures e.NotFound? <==> !Contains(Lower(message), "unauthorized") && Contains(Lower(message), "not found")
    ensures e.NotFound? ==> e.tweetId == tweetId
    ensures e.Forbidden? <==>
      !Contains(Lower(message), "unauthorized") && !Contains(Lower(message), "not found")
      && Contains(Lower(message), "forbidden")
    ensures e.AccessError? ==> e.detail == message
  {
    var m := Lower(message);
    if Contains(m, "unauthorized") then AuthFailed
    else if Contains(m, "not found") then NotFound(tweetId)
    else if Contains(m, "forbidden") then Forbidden
    else AccessError(message)
  }

  /** The message raised when the first tweet cannot be fetched. */
  function NotFoundMessage(tweetId: string): string
  {
    "Tweet with ID " + tweetId + " not found"
  }

  /** The loop of `_get_original_tweet` from `current`: stop at a tweet with
      no `replied_to` reference, otherwise fetch the parent. */
  function WalkFrom(current: TweetData, fetch: string -> TweetFetch, tweetId: string, fuel: nat): Walk
    decreases fuel
  {
    match FirstRepliedTo(current.referencedTweets)
    case None => Root(Original(current.id, current.text))
    case Some(parent) =>
      if fuel == 0 then TooDeep
      else
        match fetch(parent.id)
        case FetchRaised(e) => Raised(ClassifyTweetError(tweetId, e))
        case NoData => Lost
        case Fetched(p) => WalkFrom(p, fetch, tweetId, fuel - 1)
  }

  /** `_get_original_tweet(tweet_id)` with at most `fuel` parent fetches. */
  function OriginalTweet(tweetId: string, fetch: string -> TweetFetch, fuel: nat): Walk
  {
    match fetch(tweetId)
    case FetchRaised(e) => Raised(ClassifyTweetError(tweetId, e))
    case NoData => Raised(ClassifyTweetError(tweetId, NotFoundMessage(tweetId)))
    case Fetched(t) =>
      if t.referencedTweets == [] then Root(Original(t.id, t.text))
      else WalkFrom(t, fetch, tweetId, fuel)
  }

  /** The inner `for` loop: the first `replied_to` reference. */
  method FindParent(refs: seq<Ref>) returns (parent: Option<Ref>)
    ensures parent == FirstRepliedTo(refs)
  {
    parent := None;
    var i := 0;
    while i < |refs|
      invariant 0 <= i <= |refs|
      invariant forall k :: 0 <= k < i ==> refs[k].refType != RepliedTo
    {
      if refs[i].refType == RepliedTo {
        parent := Some(refs[i]);
        FirstRepliedToAt(refs, i);
        return;
      }
      i := i + 1;
    }
  }

  /** The first `replied_to` reference is the one at the first index that
      has that type. */
  lemma {:induction false} FirstRepliedToAt(refs: seq<Ref>, i: int)
    requires 0 <= i < |refs| && refs[i].refType == RepliedTo
    requires forall k :: 0 <= k < i ==> refs[k].refType != RepliedTo
    ensures FirstRepliedTo(refs) == Some(refs[i])
    decreases i
  {
    if i > 0 {
      assert refs[0].refType != RepliedTo;
      assert forall k :: 0 <= k < i - 1 ==> refs[1..][k] == refs[k + 1];
      FirstRepliedToAt(refs[1..], i - 1);
    }
  }

  /** `_get_original_tweet(tweet_id)`, walking up the thread one parent per
      iteration. */
  method GetOriginalTweet(tweetId: string, fetch: string -> TweetFetch, fuel: nat) returns (r: Walk)
    ensures r == OriginalTweet(tweetId, fetch, fuel)
  {
    var first := fetch(tweetId);
    if first.FetchRaised? {
      return Raised(ClassifyTweetError(tweetId, first.error));
    }
    if first.NoData? {
      return Raised(ClassifyTweetError(tweetId, NotFoundMessage(tweetId)));
    }
    var current := first.tweet;
    if current.referencedTweets == [] {
      return Root(Original(current.id, current.text));
    }
    r := Climb(current, fetch, tweetId, fuel);
  }

  /** The `while True` loop of `_get_original_tweet`, from `start`, with at
      most `fuel` parent fetches. */
  method Climb(start: TweetData, fetch: string -> TweetFetch, tweetId: string, fuel: nat) returns (r: Walk)
    ensures r == WalkFrom(start, fetch, tweetId, fuel)
  {
    var current := start;
    var steps := fuel;
    ghost var goal := WalkFrom(start, fetch, tweetId, fuel);
    while true
      invariant WalkFrom(current, fetch, tweetId, steps) == goal
      decreases steps
    {
      var parent := FindParent(current.referencedTweets);
      if parent.None? {
        return Root(Original(current.id, current.text));
      }
      if steps == 0 {
        return TooDeep;
      }
      var next := fetch(parent.value.id);
      if next.FetchRaised? {
        return Raised(ClassifyTweetError(tweetId, next.error));
      }
      if next.NoData? {
        return Lost;
      }
      ClimbStep(current, fetch, tweetId, steps);
      current := next.tweet;
      steps := steps - 1;
    }
  }

  /** One step of the walk: a fetched parent continues it with one fetch less. */
  lemma ClimbStep(current: TweetData, fetch: string -> TweetFetch, tweetId: string, fuel: nat)
    requires FirstRepliedTo(current.referencedTweets).Some? && fuel > 0
    requires fetch(FirstRepliedTo(current.referencedTweets).value.id).Fetched?
    ensures WalkFrom(current, fetch, tweetId, fuel)
      == WalkFrom(fetch(FirstRepliedTo(current.referencedTweets).value.id).tweet, fetch, tweetId, fuel - 1)
  {
  }

  // ---------------------------------------------------------------------------
  // Properties of the walk

  /** The walk stops only at a fetched tweet that has no `replied_to`
      reference, and reports that tweet's id and text. */
  lemma {:induction false} WalkFromEndsAtRoot(current: TweetData, fetch: string -> TweetFetch, tweetId: string, fuel: nat)
    requires WalkFrom(current, fetch, tweetId, fuel).Root?
    ensures var o := WalkFrom(current, fetch, tweetId, fuel).tweet;
      || (FirstRepliedTo(current.referencedTweets).None? && o == Original(current.id, current.text))
      || exists x :: fetch(x).Fetched? && FirstRepliedTo(fetch(x).tweet.referencedTweets).None?
                     && o == Original(fetch(x).tweet.id, fetch(x).tweet.text)
    decreases fuel
  {
    match FirstRepliedTo(current.referencedTweets)
    case None =>
    case Some(parent) =>
      var p := fetch(parent.id).tweet;
      WalkFromEndsAtRoot(p, fetch, tweetId, fuel - 1);
  }

  /** The original tweet returned is a tweet the client returned that has no
      `replied_to` reference. */
  lemma OriginalTweetHasNoParent(tweetId: string, fetch: string -> TweetFetch, fuel: nat)
    requires OriginalTweet(tweetId, fetch, fuel).Root?
    ensures var o := OriginalTweet(tweetId, fetch, fuel).tweet;
      exists x :: fetch(x).Fetched? && FirstRepliedTo(fetch(x).tweet.referencedTweets).None?
                  && o == Original(fetch(x).tweet.id, fetch(x).tweet.text)
  {
    var t := fetch(tweetId).tweet;
    if t.referencedTweets != [] {
      WalkFromEndsAtRoot(t, fetch, tweetId, fuel);
    }
    assert fetch(tweetId).Fetched?;
  }

  /** The bound on parent fetches only cuts the walk short: any outcome other
      than `TooDeep` stays the same with a larger bound. */
  lemma {:induction false} WalkFromFuelOnlyTruncates(current: TweetData, fetch: string -> TweetFetch, tweetId: string, fuel: nat, more: nat)
    requires fuel <= more
    requires !WalkFrom(current, fetch, tweetId, fuel).TooDeep?
    ensures WalkFrom(current, fetch, tweetId, more) == WalkFrom(current, fetch, tweetId, fuel)
    decreases fuel
  {
    match FirstRepliedTo(current.referencedTweets)
    case None =>
    case Some(parent) =>
      match fetch(parent.id)
      case FetchRaised(e) =>
      case NoData =>
      case Fetched(p) => WalkFromFuelOnlyTruncates(p, fetch, tweetId, fuel - 1, more - 1);
  }

  lemma OriginalTweetFuelOnlyTruncates(tweetId: string, fetch: string -> TweetFetch, fuel: nat, more: nat)
    requires fuel <= more
    requires !OriginalTweet(tweetId, fetch, fuel).TooDeep?
    ensures OriginalTweet(tweetId, fetch, more) == OriginalTweet(tweetId, fetch, fuel)
  {
    if fetch(tweetId).Fetched? && fetch(tweetId).tweet.referencedTweets != [] {
      WalkFromFuelOnlyTruncates(fetch(tweetId).tweet, fetch, tweetId, fuel, more);
    }
  }

  /** A parent that cannot be fetched ends the walk with no original tweet
      (not an exception), while a missing first tweet is an exception. */
  lemma MissingTweetOutcomes(tweetId: string, fetch: string -> TweetFetch, fuel: nat)
    ensures fetch(tweetId).NoData? ==>
      OriginalTweet(tweetId, fetch, fuel) == Raised(ClassifyTweetError(tweetId, NotFoundMessage(tweetId)))
    ensures fetch(tweetId).Fetched? && fuel > 0 ==>
      var t := fetch(tweetId).tweet;
      var parent := FirstRepliedTo(t.referencedTweets);
      parent.Some? && fetch(parent.value.id).NoData? ==> OriginalTweet(tweetId, fetch, fuel) == Lost
  {
  }

  /** The tweet `k` parent fetches above `current`, when every one of those
      fetches returned data. */
  function Ancestor(current: TweetData, fetch: string -> TweetFetch, k: nat): Option<TweetData>
    decreases k
  {
    if k == 0 then Some(current)
    else
      match FirstRepliedTo(current.referencedTweets)
      case None => None
      case Some(parent) =>
        match fetch(parent.id)
        case Fetched(p) => Ancestor(p, fetch, k - 1)
        case _ => None
  }

  /** The tweet `k` steps up has a parent whose fetch returns no data. */
  predicate LostAt(current: TweetData, fetch: string -> TweetFetch, k: nat)
  {
    var a := Ancestor(current, fetch, k);
    && a.Some?
    && FirstRepliedTo(a.value.referencedTweets).Some?
    && fetch(FirstRepliedTo(a.value.referencedTweets).value.id).NoData?
  }

  /** The walk ends with no original tweet exactly when, within the step
      bound, it reaches a tweet whose parent cannot be fetched, at any depth. */
  lemma {:induction false} WalkFromLostIff(current: TweetData, fetch: string -> TweetFetch, tweetId: string, fuel: nat)
    ensures WalkFrom(current, fetch, tweetId, fuel) == Lost <==> exists k :: 0 <= k < fuel && LostAt(current, fetch, k)
    decreases fuel
  {
    var w := WalkFrom(current, fetch, tweetId, fuel);
    match FirstRepliedTo(current.referencedTweets)
    case None =>
      forall k | 0 <= k < fuel
        ensures !LostAt(current, fetch, k)
      {
        if k > 0 {
          assert Ancestor(current, fetch, k) == None;
        }
      }
    case Some(parent) =>
      if fuel > 0 {
        match fetch(parent.id)
        case FetchRaised(_) =>
          forall k | 0 <= k < fuel
            ensures !LostAt(current, fetch, k)
          {
            if k > 0 {
              assert Ancestor(current, fetch, k) == None;
            }
          }
        case NoData =>
          assert LostAt(current, fetch, 0);
        case Fetched(p) =>
          assert w == WalkFrom(p, fetch, tweetId, fuel - 1);
          WalkFromLostIff(p, fetch, tweetId, fuel - 1);
          forall k | 0 <= k < fuel - 1
            ensures LostAt(current, fetch, k + 1) == LostAt(p, fetch, k)
          {
            assert Ancestor(current, fetch, k + 1) == Ancestor(p, fetch, k);
          }
          assert !LostAt(current, fetch, 0);
          if w == Lost {
            var k :| 0 <= k < fuel - 1 && LostAt(p, fetch, k);
            assert LostAt(current, fetch, k + 1);
          }
          if exists k :: 0 <= k < fuel && LostAt(current, fetch, k) {
            var k :| 0 <= k < fuel && LostAt(current, fetch, k);
            assert LostAt(p, fetch, k - 1);
          }
      }
  }

  /** `_get_original_tweet` answers None exactly when the first tweet was
      fetched and the walk up from it, within the step bound, reaches a tweet
      whose parent cannot be fetched. */
  lemma OriginalTweetLostIff(tweetId: string, fetch: string -> TweetFetch, fuel: nat)
    ensures OriginalTweet(tweetId, fetch, fuel) == Lost <==>
      fetch(tweetId).Fetched? && exists k :: 0 <= k < fuel && LostAt(fetch(tweetId).tweet, fetch, k)
  {
    if fetch(tweetId).Fetched? {
      var t := fetch(tweetId).tweet;
      WalkFromLostIff(t, fetch, tweetId, fuel);
      if t.referencedTweets == [] {
        assert FirstRepliedTo(t.referencedTweets) == None;
      }
    }
  }

  /** The message raised for a missing first tweet always reads "not found"
      once lower-cased, whatever the id. */
  lemma NotFoundMessageSaysNotFound(tweetId: string)
    ensures Contains(Lower(NotFoundMessage(tweetId)), "not found")
  {
    var m := NotFoundMessage(tweetId);
    var l := Lower(m);
    var n := |tweetId|;
    assert m == "Tweet with ID " + tweetId + " not found";
    forall k | 0 <= k < 9 ensures l[15 + n + k] == "not found"[k] {
      assert m[15 + n + k] == " not found"[k + 1];
    }
    assert l[15 + n..24 + n] == "not found";
    ContainsAt(l, "not found", 15 + n);
  }

  /** ... and, for a numeric id, never reads "unauthorized". */
  lemma NumericNotFoundMessageIsNotUnauthorized(tweetId: string)
    requires forall k :: 0 <= k < |tweetId| ==> '0' <= tweetId[k] <= '9'
    ensures !Contains(Lower(NotFoundMessage(tweetId)), "unauthorized")
  {
    var m := NotFoundMessage(tweetId);
    var l := Lower(m);
    var n := |tweetId|;
    assert m == "Tweet with ID " + tweetId + " not found";
    MessageHeadHasNoU();
    forall i | 0 <= i < 14 + n ensures m[i] != 'u' && m[i] != 'U' {
      if i < 14 {
        assert m[i] == "Tweet with ID "[i];
      } else {
        assert m[i] == tweetId[i - 14];
      }
    }
    forall i ensures !OccursAt(l, "unauthorized", i) {
      if 0 <= i && i + 12 <= |l| {
        assert l[i..i + 12][0] == LowerChar(m[i]);
      }
    }
    ContainsIff(l, "unauthorized");
  }

  /** The fixed head of that message has no letter u in either case. */
  lemma MessageHeadHasNoU()
    ensures forall i :: 0 <= i < 14 ==> "Tweet with ID "[i] != 'u' && "Tweet with ID "[i] != 'U'
  {
  }

  /** For a numeric tweet id, the "not found" raised for a missing first
      tweet is re-raised as "Tweet with ID <id> does not exist". */
  lemma MissingNumericTweetIsNotFound(tweetId: string)
    requires forall k :: 0 <= k < |tweetId| ==> '0' <= tweetId[k] <= '9'
    ensures ClassifyTweetError(tweetId, NotFoundMessage(tweetId)) == NotFound(tweetId)
    ensures ErrorText(ClassifyTweetError(tweetId, NotFoundMessage(tweetId))) == "Tweet with ID " + tweetId + " does not exist"
  {
    NotFoundMessageSaysNotFound(tweetId);
    NumericNotFoundMessageIsNotUnauthorized(tweetId);
  }

  // ---------------------------------------------------------------------------
  // verify_tweet_thread

  /** What `requests.get` on the prover's log endpoint gives: the proof JSON,
      a response that is not `ok` (with its body), or an exception. */
  datatype ProofFetch = ProofFetched(proof: string) | NotOk(body: string) | RequestRaised(error: string)

  /** What `verify_proof` does: return a verdict or raise. */
  datatype VerifyOutcome = Verdict(valid: bool) | VerifyRaised(error: string)

  /** The dictionary part of the result. */
  datatype Payload =
    | NoPayload
    | TweetOnly(originalTweetId: string)
    | TweetAndProof(originalTweetId: string, proofId: string)
    | Verified(valid: bool, originalTweetId: string, proofId: string)

  datatype Outcome = Outcome(status: Status, message: string, payload: Payload) | OutOfFuel

  /** The message of the exception raised when the proof cannot be fetched. */
  function ProofFetchError(f: ProofFetch): string
    requires !f.ProofFetched?
  {
    "Error fetching proof data: "
      + (if f.NotOk? then "Failed to fetch proof data: " + f.body else f.error)
  }

  /** `verify_tweet_thread(tweet_id)`. */
  function VerifyTweetThreadOf(tweetId: string, fetch: string -> TweetFetch, fuel: nat,
                               fetchProof: string -> ProofFetch, verify: string -> VerifyOutcome): Outcome
  {
    if tweetId == "" then Outcome(Failed, "Invalid tweet ID provided", NoPayload)
    else
      match OriginalTweet(tweetId, fetch, fuel)
      case TooDeep => OutOfFuel
      case Lost => Outcome(Failed, "Could not retrieve original tweet", NoPayload)
      case Raised(e) => Outcome(Failed, "Error retrieving tweet: " + ErrorText(e), NoPayload)
      case Root(o) =>
        match ExtractProofId(o.text, true)
        case None => Outcome(Failed, "No proof ID found in the original tweet", TweetOnly(o.id))
        case Some(proofId) =>
          var f := fetchProof(proofId);
          if !f.ProofFetched? then
            Outcome(Failed, "Error during proof verification: " + ProofFetchError(f), TweetAndProof(o.id, proofId))
          else
            match verify(f.proof)
            case VerifyRaised(e) =>
              Outcome(Failed, "Error during proof verification: " + e, TweetAndProof(o.id, proofId))
            case Verdict(valid) =>
              Outcome(Done, "Proof verification completed", Verified(valid, o.id, proofId))
  }

  /** `verify_tweet_thread(tweet_id)`: the early-return chain, calling the
      walk. */
  method VerifyTweetThread(tweetId: string, fetch: string -> TweetFetch, fuel: nat,
                           fetchProof: string -> ProofFetch, verify: string -> VerifyOutcome)
    returns (r: Outcome)
    ensures r == VerifyTweetThreadOf(tweetId, fetch, fuel, fetchProof, verify)
  {
    if tweetId == "" {
      return Outcome(Failed, "Invalid tweet ID provided", NoPayload);
    }
    var original := GetOriginalTweet(tweetId, fetch, fuel);
    if original.TooDeep? {
      return OutOfFuel;
    }
    if original.Lost? {
      return Outcome(Failed, "Could not retrieve original tweet", NoPayload);
    }
    if original.Raised? {
      return Outcome(Failed, "Error retrieving tweet: " + ErrorText(original.error), NoPayload);
    }
    var o := original.tweet;
    var proofId := ExtractProofId(o.text, true);
    if proofId.None? {
      return Outcome(Failed, "No proof ID found in the original tweet", TweetOnly(o.id));
    }
    var f := fetchProof(proofId.value);
    if !f.ProofFetched? {
      return Outcome(Failed, "Error during proof verification: " + ProofFetchError(f), TweetAndProof(o.id, proofId.value));
    }
    var verdict := verify(f.proof);
    if verdict.VerifyRaised? {
      return Outcome(Failed, "Error during proof verification: " + verdict.error, TweetAndProof(o.id, proofId.value));
    }
    return Outcome(Done, "Proof verification completed", Verified(verdict.valid, o.id, proofId.value));
  }

  // ---------------------------------------------------------------------------
  // Properties of verify_tweet_thread

  /** An empty tweet id fails before anything is fetched: the outcome does not
      depend on any oracle. */
  lemma EmptyIdFailsBeforeAnyFetch(fetch1: string -> TweetFetch, fetch2: string -> TweetFetch, fuel: nat,
                                   fetchProof1: string -> ProofFetch, fetchProof2: string -> ProofFetch,
                                   verify1: string -> VerifyOutcome, verify2: string -> VerifyOutcome)
    ensures VerifyTweetThreadOf("", fetch1, fuel, fetchProof1, verify1) == Outcome(Failed, "Invalid tweet ID provided", NoPayload)
    ensures VerifyTweetThreadOf("", fetch1, fuel, fetchProof1, verify1) == VerifyTweetThreadOf("", fetch2, fuel, fetchProof2, verify2)
  {
  }

  /** The result is DONE exactly when the original tweet was found, its text
      ends with a proof ID (marker case ignored), the proof was fetched and
      the verifier returned; it then carries exactly the verdict, the original
      tweet's id and that proof ID. */
  lemma VerifyDoneIff(tweetId: string, fetch: string -> TweetFetch, fuel: nat,
                      fetchProof: string -> ProofFetch, verify: string -> VerifyOutcome)
    ensures var r := VerifyTweetThreadOf(tweetId, fetch, fuel, fetchProof, verify);
      var w := OriginalTweet(tweetId, fetch, fuel);
      (r.Outcome? && r.status == Done) <==>
        && tweetId != "" && w.Root?
        && ExtractProofId(w.tweet.text, true).Some?
        && fetchProof(ExtractProofId(w.tweet.text, true).value).ProofFetched?
        && verify(fetchProof(ExtractProofId(w.tweet.text, true).value).proof).Verdict?
    ensures var r := VerifyTweetThreadOf(tweetId, fetch, fuel, fetchProof, verify);
      var w := OriginalTweet(tweetId, fetch, fuel);
      r.Outcome? && r.status == Done ==>
        var proofId := ExtractProofId(w.tweet.text, true).value;
        r.payload == Verified(verify(fetchProof(proofId).proof).valid, w.tweet.id, proofId)
  {
  }

  /** Once the original tweet is known, every failure names it, and every
      failure after the proof ID was found names the proof ID too. */
  lemma FailuresCarryWhatIsKnown(tweetId: string, fetch: string -> TweetFetch, fuel: nat,
                                 fetchProof: string -> ProofFetch, verify: string -> VerifyOutcome)
    requires tweetId != "" && OriginalTweet(tweetId, fetch, fuel).Root?
    ensures var r := VerifyTweetThreadOf(tweetId, fetch, fuel, fetchProof, verify);
      var o := OriginalTweet(tweetId, fetch, fuel).tweet;
      && r.Outcome?
      && (ExtractProofId(o.text, true).None? ==>
            r == Outcome(Failed, "No proof ID found in the original tweet", TweetOnly(o.id)))
      && (ExtractProofId(o.text, true).Some? && r.status == Failed ==>
            r.payload == TweetAndProof(o.id, ExtractProofId(o.text, true).value))
  {
  }
}
