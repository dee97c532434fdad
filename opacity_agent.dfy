/** The mention handler of `opacity_agent.py`: for each mention of the bot,
    the proof ID is read from the end of the mention's own text (the
    "Proof ID:" marker matched case-sensitively), the Opacity plugin verifies
    it, and the bot replies. It counts the mentions that carried a proof and
    the proofs whose verification returned.

    Only the second `verify_mentioned_results` is modelled: it rebinds the
    name, so the first definition is never called. The Twitter and Opacity
    calls are oracles indexed by the mention's position in the list. */
module OpacityAgent {
  import opened Common
  import opened ProofId

  /** A mention as the plugin returns it; `text` defaults to "". */
  datatype Mention = Mention(id: Option<string>, text: string, authorId: Option<string>)

  /** Which of the three replies the bot sends. */
  datatype ReplyKind = NoProofReply | VerdictReply(valid: bool) | ErrorReply

  /** A reply the bot attempts: the tweet replied to, the mention's author and
      which reply it is; `ReplyText` gives its text. */
  datatype Reply = Reply(tweetId: Option<string>, authorId: Option<string>, kind: ReplyKind)

  /** What `verify_proof` does for a mention: return a verdict or raise. */
  datatype VerifyOutcome = Verdict(valid: bool) | VerifyRaised(error: string)

  /** The outcome of the handler: its status, its message and the replies it
      attempted, in order. */
  datatype AgentOutcome = AgentOutcome(status: Status, message: string, replies: seq<Reply>)

  // ---------------------------------------------------------------------------
  // Reply texts

  /** `twitter.com/x/status/{original_tweet_id}`. */
  function StatusRef(originalTweetId: Option<string>): string
  {
    "twitter.com/x/status/" + Show(originalTweetId)
  }

  const SuccessOpening := "✅ Verification successful!"
  const FailureOpening := "❌ Verification failed."
  const SuccessHead := SuccessOpening + " The AI inference result in the original tweet ("
  const FailureHead := FailureOpening + " The proof (ID: "

  /** `reply_to_verification_tweet`: the text of the verdict reply, from the
      `valid`, `original_tweet_id` and `proof_id` entries of the result (an
      absent entry reads "None"). */
  function VerdictText(valid: bool, originalTweetId: Option<string>, proofId: Option<string>): string
  {
    if valid then
      SuccessHead + StatusRef(originalTweetId) + ") has been verified with Proof ID: "
        + Show(proofId) + " via @opacity_protocol."
    else
      FailureHead + Show(proofId) + ") in the original tweet ("
        + StatusRef(originalTweetId) + ") is invalid. Please ensure you've provided a valid proof ID."
  }

  /** The reply to a mention that carries no proof ID. */
  function NoProofText(authorId: Option<string>): string
  {
    "@" + Show(authorId) + " I couldn't find any proof data in your tweet. "
      + "Please include the proof in JSON format between triple backticks or provide a valid proof URL."
  }

  /** The reply when verification raised. */
  function VerifyErrorText(authorId: Option<string>): string
  {
    "@" + Show(authorId) + " Sorry, I encountered an error while verifying your proof. "
      + "Please ensure the proof data is correctly formatted."
  }

  /** The text of a reply. The verdict reply is built from `{'valid': ...}`
      alone, so its proof ID and original tweet id are absent. */
  function ReplyText(r: Reply): string
  {
    match r.kind
    case NoProofReply => NoProofText(r.authorId)
    case VerdictReply(valid) => VerdictText(valid, None, None)
    case ErrorReply => VerifyErrorText(r.authorId)
  }

  /** Where the second and fourth parts sit in a five-part text. */
  lemma FiveParts(a: string, b: string, c: string, d: string, e: string)
    ensures OccursAt(a + b + c + d + e, b, |a|)
    ensures OccursAt(a + b + c + d + e, d, |a| + |b| + |c|)
    ensures a <= a + b + c + d + e
  {
    var t := a + b + c + d + e;
    assert t[|a|..|a| + |b|] == b;
    assert t[|a| + |b| + |c|..|a| + |b| + |c| + |d|] == d;
  }

  /** The verdict reply opens with "✅ Verification successful!" exactly when
      the proof is valid and with "❌ Verification failed." otherwise, and both
      texts name the proof ID and link the original tweet. */
  lemma VerdictTextShape(valid: bool, originalTweetId: Option<string>, proofId: Option<string>)
    ensures var t := VerdictText(valid, originalTweetId, proofId);
      && (valid <==> SuccessOpening <= t)
      && (!valid <==> FailureOpening <= t)
      && Contains(t, StatusRef(originalTweetId))
      && Contains(t, Show(proofId))
  {
    var t := VerdictText(valid, originalTweetId, proofId);
    var ref := StatusRef(originalTweetId);
    var pid := Show(proofId);
    assert SuccessOpening <= SuccessHead && FailureOpening <= FailureHead;
    assert SuccessHead[0] != FailureHead[0];
    if valid {
      FiveParts(SuccessHead, ref, ") has been verified with Proof ID: ", pid, " via @opacity_protocol.");
      ContainsAt(t, ref, |SuccessHead|);
      ContainsAt(t, pid, |SuccessHead| + |ref| + |") has been verified with Proof ID: "|);
      assert t[0] == SuccessHead[0];
    } else {
      FiveParts(FailureHead, pid, ") in the original tweet (", ref,
                ") is invalid. Please ensure you've provided a valid proof ID.");
      ContainsAt(t, pid, |FailureHead|);
      ContainsAt(t, ref, |FailureHead| + |pid| + |") in the original tweet ("|);
      assert t[0] == FailureHead[0];
    }
  }

  /** `b` occurs in `a + b + c`. */
  lemma MiddleOccurs(a: string, b: string, c: string)
    ensures Contains(a + b + c, b)
  {
    assert (a + b + c)[|a|..|a| + |b|] == b;
    ContainsAt(a + b + c, b, |a|);
  }

  /** As the handler sends it, the verdict reply is built from `valid` alone:
      it opens with the success line exactly when the proof is valid, it
      links `twitter.com/x/status/None`, and it gives the proof ID as "None":
      "Proof ID: None" in the success text, "(ID: None)" in the failure text. */
  lemma HandlerVerdictNamesNone(r: Reply)
    requires r.kind.VerdictReply?
    ensures r.kind.valid <==> SuccessOpening <= ReplyText(r)
    ensures Contains(ReplyText(r), "twitter.com/x/status/None")
    ensures r.kind.valid ==> Contains(ReplyText(r), "Proof ID: None")
    ensures !r.kind.valid ==> Contains(ReplyText(r), "(ID: None)")
  {
    VerdictTextShape(r.kind.valid, None, None);
    assert StatusRef(None) == "twitter.com/x/status/None";
    if r.kind.valid {
      SuccessTextNamesNone();
    } else {
      FailureTextNamesNone();
    }
  }

  lemma SuccessTextNamesNone()
    ensures Contains(VerdictText(true, None, None), "Proof ID: None")
  {
    var c1, c2 := ") has been verified with ", "Proof ID: ";
    var tail := " via @opacity_protocol.";
    assert c1 + c2 == ") has been verified with Proof ID: ";
    assert VerdictText(true, None, None) == SuccessHead + StatusRef(None) + (c1 + c2) + "None" + tail;
    NameAfterLabel(SuccessHead, StatusRef(None), c1, c2, "None", tail);
    assert c2 + "None" == "Proof ID: None";
  }

  lemma FailureTextNamesNone()
    ensures Contains(VerdictText(false, None, None), "(ID: None)")
  {
    var c1, c2 := " The proof ", "(ID: ";
    var tail := " in the original tweet (" + StatusRef(None)
      + ") is invalid. Please ensure you've provided a valid proof ID.";
    assert FailureHead == FailureOpening + c1 + c2;
    assert ") in the original tweet (" == ")" + " in the original tweet (";
    assert VerdictText(false, None, None) == FailureHead + "None" + (")" + tail);
    assert VerdictText(false, None, None) == FailureOpening + c1 + (c2 + "None" + ")") + tail;
    assert c2 + "None" + ")" == "(ID: None)";
    MiddleOccurs(FailureOpening + c1, "(ID: None)", tail);
  }

  /** In `a + b + (c1 + c2) + d + e` the label `c2` is directly followed by `d`. */
  lemma NameAfterLabel(a: string, b: string, c1: string, c2: string, d: string, e: string)
    ensures Contains(a + b + (c1 + c2) + d + e, c2 + d)
  {
    assert a + b + (c1 + c2) + d + e == (a + b + c1) + (c2 + d) + e;
    MiddleOccurs(a + b + c1, c2 + d, e);
  }

  // ---------------------------------------------------------------------------
  // One mention

  /** What handling one mention does: it replies (the reply send may raise,
      which ends the whole handler) and says whether the mention counts as
      processed and as verified. */
  datatype MentionStep =
    | Handled(processed: bool, verified: bool, reply: Reply)
    | SendRaised(error: string, reply: Reply)

  /** The body of the loop for the mention at position `i`. The verdict reply
      swallows a send error; the other two replies do not. */
  function HandleMention(m: Mention, i: nat, proofOf: string -> Option<string>, verify: nat -> VerifyOutcome, sendError: nat -> Option<string>): (r: MentionStep)
    ensures r.SendRaised? <==>
      sendError(i).Some? && !(proofOf(m.text).Some? && verify(i).Verdict?)
    ensures r.Handled? ==> (r.processed <==> proofOf(m.text).Some?)
    ensures r.Handled? ==> (r.verified <==> r.processed && verify(i).Verdict?)
    ensures r.reply.tweetId == m.id && r.reply.authorId == m.authorId
    ensures r.reply.kind.NoProofReply? <==> proofOf(m.text).None?
    ensures r.reply.kind.VerdictReply? <==> proofOf(m.text).Some? && verify(i).Verdict?
    ensures r.reply.kind.VerdictReply? ==> r.reply.kind.valid == verify(i).valid
    ensures r.SendRaised? ==> r.error == sendError(i).value
  {
    match proofOf(m.text)
    case None =>
      var reply := Reply(m.id, m.authorId, NoProofReply);
      if sendError(i).Some? then SendRaised(sendError(i).value, reply) else Handled(false, false, reply)
    case Some(_) =>
      match verify(i)
      case Verdict(valid) => Handled(true, true, Reply(m.id, m.authorId, VerdictReply(valid)))
      case VerifyRaised(_) =>
        var reply := Reply(m.id, m.authorId, ErrorReply);
        if sendError(i).Some? then SendRaised(sendError(i).value, reply) else Handled(true, false, reply)
  }

  // ---------------------------------------------------------------------------
  // verify_mentioned_results

  function Summary(processed: nat, verified: nat): string
  {
    "Processed " + NatToString(processed) + " mentions, verified " + NatToString(verified) + " proofs"
  }

  function ErrorMessage(e: string): string
  {
    "Error encountered while processing mentions: " + e
  }

  /** The loop from position `i` with the counters and replies so far. */
  function RunFrom(ms: seq<Mention>, i: nat, processed: nat, verified: nat, replies: seq<Reply>,
                   proofOf: string -> Option<string>, verify: nat -> VerifyOutcome, sendError: nat -> Option<string>): AgentOutcome
    requires i <= |ms|
    decreases |ms| - i
  {
    if i == |ms| then AgentOutcome(Done, Summary(processed, verified), replies)
    else
      match HandleMention(ms[i], i, proofOf, verify, sendError)
      case SendRaised(e, reply) => AgentOutcome(Failed, ErrorMessage(e), replies + [reply])
      case Handled(p, v, reply) =>
        RunFrom(ms, i + 1, processed + (if p then 1 else 0), verified + (if v then 1 else 0),
                replies + [reply], proofOf, verify, sendError)
  }

  /** `extract_proof_from_tweet`: the case-sensitive proof-ID match. */
  const MentionProofId: string -> Option<string> := (text: string) => ExtractProofId(text, false)

  /** `verify_mentioned_results`: `mentions` is what the mention lookup
      returned (`None` when it failed). */
  function VerifyMentionedResultsOf(mentions: Option<seq<Mention>>, verify: nat -> VerifyOutcome,
                                    sendError: nat -> Option<string>): AgentOutcome
  {
    if mentions.None? || mentions.value == [] then AgentOutcome(Done, "No new mentions to process", [])
    else RunFrom(mentions.value, 0, 0, 0, [], MentionProofId, verify, sendError)
  }

  /** `verify_mentioned_results`, the loop over the mentions with its two
      counters. */
  method VerifyMentionedResults(mentions: Option<seq<Mention>>, verify: nat -> VerifyOutcome,
                                sendError: nat -> Option<string>)
    returns (r: AgentOutcome)
    ensures r == VerifyMentionedResultsOf(mentions, verify, sendError)
  {
    if mentions.None? || mentions.value == [] {
      return AgentOutcome(Done, "No new mentions to process", []);
    }
    var ms := mentions.value;
    var processed, verified, replies := 0, 0, [];
    for i := 0 to |ms|
      invariant RunFrom(ms, i, processed, verified, replies, MentionProofId, verify, sendError)
             == RunFrom(ms, 0, 0, 0, [], MentionProofId, verify, sendError)
    {
      var proof := ExtractProofId(ms[i].text, false);
      if proof.None? {
        var reply := Reply(ms[i].id, ms[i].authorId, NoProofReply);
        replies := replies + [reply];
        if sendError(i).Some? {
          return AgentOutcome(Failed, ErrorMessage(sendError(i).value), replies);
        }
        continue;
      }
      var outcome := verify(i);
      if outcome.Verdict? {
        replies := replies + [Reply(ms[i].id, ms[i].authorId, VerdictReply(outcome.valid))];
        verified := verified + 1;
      } else {
        replies := replies + [Reply(ms[i].id, ms[i].authorId, ErrorReply)];
        if sendError(i).Some? {
          return AgentOutcome(Failed, ErrorMessage(sendError(i).value), replies);
        }
      }
      processed := processed + 1;
    }
    return AgentOutcome(Done, Summary(processed, verified), replies);
  }

  // ---------------------------------------------------------------------------
  // Properties of the handler

  /** Mentions from position `i` on that carry a proof ID. */
  function WithProof(ms: seq<Mention>, i: nat, proofOf: string -> Option<string>): nat
    requires i <= |ms|
    decreases |ms| - i
  {
    if i == |ms| then 0
    else (if proofOf(ms[i].text).Some? then 1 else 0) + WithProof(ms, i + 1, proofOf)
  }

  /** Mentions from position `i` on that carry a proof ID whose verification
      returned. */
  function Verifications(ms: seq<Mention>, i: nat, proofOf: string -> Option<string>, verify: nat -> VerifyOutcome): nat
    requires i <= |ms|
    decreases |ms| - i
  {
    if i == |ms| then 0
    else (if proofOf(ms[i].text).Some? && verify(i).Verdict? then 1 else 0)
         + Verifications(ms, i + 1, proofOf, verify)
  }

  /** A proof counted as verified was counted as processed, and each mention
      is counted at most once. */
  lemma {:induction false} CountsAreNested(ms: seq<Mention>, i: nat, proofOf: string -> Option<string>, verify: nat -> VerifyOutcome)
    requires i <= |ms|
    ensures Verifications(ms, i, proofOf, verify) <= WithProof(ms, i, proofOf) <= |ms| - i
    decreases |ms| - i
  {
    if i < |ms| {
      CountsAreNested(ms, i + 1, proofOf, verify);
    }
  }

  /** Whether the reply to the mention at `k` raises out of the handler. */
  predicate Aborts(ms: seq<Mention>, k: nat, proofOf: string -> Option<string>, verify: nat -> VerifyOutcome, sendError: nat -> Option<string>)
    requires k < |ms|
  {
    HandleMention(ms[k], k, proofOf, verify, sendError).SendRaised?
  }

  /** The loop from `i` ends DONE exactly when no reply from `i` on raises. */
  lemma {:induction false} RunFromDoneIff(ms: seq<Mention>, i: nat, processed: nat, verified: nat, replies: seq<Reply>,
                                          proofOf: string -> Option<string>, verify: nat -> VerifyOutcome, sendError: nat -> Option<string>)
    requires i <= |ms|
    ensures RunFrom(ms, i, processed, verified, replies, proofOf, verify, sendError).status == Done
            <==> forall k :: i <= k < |ms| ==> !Aborts(ms, k, proofOf, verify, sendError)
    decreases |ms| - i
  {
    if i < |ms| {
      var step := HandleMention(ms[i], i, proofOf, verify, sendError);
      if step.Handled? {
        RunFromDoneIff(ms, i + 1, processed + (if step.processed then 1 else 0),
                       verified + (if step.verified then 1 else 0), replies + [step.reply], proofOf, verify, sendError);
        assert !Aborts(ms, i, proofOf, verify, sendError);
      } else {
        assert Aborts(ms, i, proofOf, verify, sendError);
      }
    }
  }

  /** The mention at `k` is the first from `i` on whose reply raises. */
  predicate FirstAbort(ms: seq<Mention>, i: nat, k: nat, proofOf: string -> Option<string>, verify: nat -> VerifyOutcome,
                       sendError: nat -> Option<string>)
    requires i <= k < |ms|
  {
    Aborts(ms, k, proofOf, verify, sendError) && forall j :: i <= j < k ==> !Aborts(ms, j, proofOf, verify, sendError)
  }

  /** When the loop from `i` ends FAILED, it stopped at the first mention whose
      reply raised, reporting that send error, after one reply per mention up
      to and including it. */
  lemma {:induction false} RunFromFails(ms: seq<Mention>, i: nat, processed: nat, verified: nat, replies: seq<Reply>,
                                        proofOf: string -> Option<string>, verify: nat -> VerifyOutcome, sendError: nat -> Option<string>)
    requires i <= |ms|
    requires RunFrom(ms, i, processed, verified, replies, proofOf, verify, sendError).status == Failed
    ensures exists k :: (i <= k < |ms| && FirstAbort(ms, i, k, proofOf, verify, sendError)
      && RunFrom(ms, i, processed, verified, replies, proofOf, verify, sendError).message == ErrorMessage(sendError(k).value)
      && |RunFrom(ms, i, processed, verified, replies, proofOf, verify, sendError).replies| == |replies| + k - i + 1)
    decreases |ms| - i
  {
    var step := HandleMention(ms[i], i, proofOf, verify, sendError);
    var r := RunFrom(ms, i, processed, verified, replies, proofOf, verify, sendError);
    if step.Handled? {
      var p := processed + (if step.processed then 1 else 0);
      var v := verified + (if step.verified then 1 else 0);
      assert r == RunFrom(ms, i + 1, p, v, replies + [step.reply], proofOf, verify, sendError);
      RunFromFails(ms, i + 1, p, v, replies + [step.reply], proofOf, verify, sendError);
      var k :| i + 1 <= k < |ms| && FirstAbort(ms, i + 1, k, proofOf, verify, sendError)
        && r.message == ErrorMessage(sendError(k).value) && |r.replies| == |replies| + 1 + k - (i + 1) + 1;
      assert !Aborts(ms, i, proofOf, verify, sendError);
      assert FirstAbort(ms, i, k, proofOf, verify, sendError);
    } else {
      assert r == AgentOutcome(Failed, ErrorMessage(step.error), replies + [step.reply]);
      assert FirstAbort(ms, i, i, proofOf, verify, sendError);
    }
  }

  /** When the loop from `i` ends DONE, it reports the counters grown by the
      proofs found and the verifications that returned from `i` on, and it has
      attempted one more reply per mention. */
  lemma {:induction false} RunFromCounts(ms: seq<Mention>, i: nat, processed: nat, verified: nat, replies: seq<Reply>,
                                         proofOf: string -> Option<string>, verify: nat -> VerifyOutcome, sendError: nat -> Option<string>)
    requires i <= |ms|
    requires RunFrom(ms, i, processed, verified, replies, proofOf, verify, sendError).status == Done
    ensures var r := RunFrom(ms, i, processed, verified, replies, proofOf, verify, sendError);
      && r.message == Summary(processed + WithProof(ms, i, proofOf), verified + Verifications(ms, i, proofOf, verify))
      && |r.replies| == |replies| + |ms| - i
    decreases |ms| - i
  {
    if i < |ms| {
      var step := HandleMention(ms[i], i, proofOf, verify, sendError);
      var p := processed + (if step.processed then 1 else 0);
      var v := verified + (if step.verified then 1 else 0);
      assert RunFrom(ms, i, processed, verified, replies, proofOf, verify, sendError)
          == RunFrom(ms, i + 1, p, v, replies + [step.reply], proofOf, verify, sendError);
      RunFromCounts(ms, i + 1, p, v, replies + [step.reply], proofOf, verify, sendError);
      assert p + WithProof(ms, i + 1, proofOf) == processed + WithProof(ms, i, proofOf);
      assert v + Verifications(ms, i + 1, proofOf, verify) == verified + Verifications(ms, i, proofOf, verify);
    }
  }

  /** The replies of the loop, however it ends, are those made so far
      followed by one reply per mention handled from `i` on, in order. */
  lemma {:induction false} RunFromReplies(ms: seq<Mention>, i: nat, processed: nat, verified: nat, replies: seq<Reply>,
                                          proofOf: string -> Option<string>, verify: nat -> VerifyOutcome, sendError: nat -> Option<string>)
    requires i <= |ms|
    ensures var r := RunFrom(ms, i, processed, verified, replies, proofOf, verify, sendError);
      && |replies| <= |r.replies|
      && r.replies[..|replies|] == replies
      && forall k :: i <= k < |ms| && |replies| + k - i < |r.replies| ==>
           r.replies[|replies| + k - i] == HandleMention(ms[k], k, proofOf, verify, sendError).reply
    decreases |ms| - i
  {
    if i < |ms| {
      var step := HandleMention(ms[i], i, proofOf, verify, sendError);
      var replies' := replies + [step.reply];
      var r := RunFrom(ms, i, processed, verified, replies, proofOf, verify, sendError);
      if step.Handled? {
        var p := processed + (if step.processed then 1 else 0);
        var v := verified + (if step.verified then 1 else 0);
        assert r == RunFrom(ms, i + 1, p, v, replies', proofOf, verify, sendError);
        RunFromReplies(ms, i + 1, p, v, replies', proofOf, verify, sendError);
        assert r.replies[..|replies'|] == replies';
        forall k | i <= k < |ms| && |replies| + k - i < |r.replies|
          ensures r.replies[|replies| + k - i] == HandleMention(ms[k], k, proofOf, verify, sendError).reply
        {
          if k == i {
            assert r.replies[..|replies'|][|replies|] == step.reply;
          } else {
            assert |replies'| + k - (i + 1) == |replies| + k - i;
          }
        }
      } else {
        assert r.replies == replies';
      }
      assert r.replies[..|replies|] == replies'[..|replies|];
    }
  }

  /** The whole loop, for any proof-ID extractor. */
  lemma RunCounts(ms: seq<Mention>, proofOf: string -> Option<string>, verify: nat -> VerifyOutcome,
                  sendError: nat -> Option<string>)
    ensures var r := RunFrom(ms, 0, 0, 0, [], proofOf, verify, sendError);
      && (r.status == Done <==> forall k :: 0 <= k < |ms| ==> !Aborts(ms, k, proofOf, verify, sendError))
      && (r.status == Done ==>
            && r.message == Summary(WithProof(ms, 0, proofOf), Verifications(ms, 0, proofOf, verify))
            && |r.replies| == |ms|
            && forall k :: 0 <= k < |ms| ==> r.replies[k] == HandleMention(ms[k], k, proofOf, verify, sendError).reply)
    ensures var r := RunFrom(ms, 0, 0, 0, [], proofOf, verify, sendError);
      r.status == Failed ==> exists k :: (0 <= k < |ms| && FirstAbort(ms, 0, k, proofOf, verify, sendError)
        && r.message == ErrorMessage(sendError(k).value)
        && |r.replies| == k + 1
        && forall j :: 0 <= j <= k ==> r.replies[j] == HandleMention(ms[j], j, proofOf, verify, sendError).reply)
    ensures Verifications(ms, 0, proofOf, verify) <= WithProof(ms, 0, proofOf) <= |ms|
  {
    var r := RunFrom(ms, 0, 0, 0, [], proofOf, verify, sendError);
    RunFromDoneIff(ms, 0, 0, 0, [], proofOf, verify, sendError);
    if r.status == Done {
      RunFromCounts(ms, 0, 0, 0, [], proofOf, verify, sendError);
      RunFromReplies(ms, 0, 0, 0, [], proofOf, verify, sendError);
      forall k | 0 <= k < |ms|
        ensures r.replies[k] == HandleMention(ms[k], k, proofOf, verify, sendError).reply
      {
        assert r.replies[0 + k - 0] == r.replies[k];
      }
    } else {
      RunFails(ms, proofOf, verify, sendError);
    }
    CountsAreNested(ms, 0, proofOf, verify);
  }

  /** A whole loop that ends FAILED stopped at the first mention whose reply
      raised, reporting that send error, with the replies up to and including
      that mention, in order. */
  lemma RunFails(ms: seq<Mention>, proofOf: string -> Option<string>, verify: nat -> VerifyOutcome,
                 sendError: nat -> Option<string>)
    requires RunFrom(ms, 0, 0, 0, [], proofOf, verify, sendError).status == Failed
    ensures var r := RunFrom(ms, 0, 0, 0, [], proofOf, verify, sendError);
      exists k :: (0 <= k < |ms| && FirstAbort(ms, 0, k, proofOf, verify, sendError)
        && r.message == ErrorMessage(sendError(k).value)
        && |r.replies| == k + 1
        && forall j :: 0 <= j <= k ==> r.replies[j] == HandleMention(ms[j], j, proofOf, verify, sendError).reply)
  {
    var r := RunFrom(ms, 0, 0, 0, [], proofOf, verify, sendError);
    RunFromReplies(ms, 0, 0, 0, [], proofOf, verify, sendError);
    RunFromFails(ms, 0, 0, 0, [], proofOf, verify, sendError);
    var k :| 0 <= k < |ms| && FirstAbort(ms, 0, k, proofOf, verify, sendError)
      && r.message == ErrorMessage(sendError(k).value) && |r.replies| == k + 1;
    forall j | 0 <= j <= k
      ensures r.replies[j] == HandleMention(ms[j], j, proofOf, verify, sendError).reply
    {
      assert r.replies[0 + j - 0] == r.replies[j];
    }
  }

  /** The handler succeeds exactly when no unprotected reply fails; it then
      reports `processed` as the number of mentions carrying a proof ID and
      `verified` as those whose verification returned, so
      verified <= processed <= number of mentions, and it has attempted one
      reply per mention, in order. */
  lemma VerifyMentionedResultsCounts(ms: seq<Mention>, verify: nat -> VerifyOutcome, sendError: nat -> Option<string>)
    requires ms != []
    ensures var r := VerifyMentionedResultsOf(Some(ms), verify, sendError);
      && (r.status == Done <==> forall k :: 0 <= k < |ms| ==> !Aborts(ms, k, MentionProofId, verify, sendError))
      && (r.status == Done ==>
            && r.message == Summary(WithProof(ms, 0, MentionProofId), Verifications(ms, 0, MentionProofId, verify))
            && |r.replies| == |ms|
            && forall k :: 0 <= k < |ms| ==> r.replies[k] == HandleMention(ms[k], k, MentionProofId, verify, sendError).reply)
    ensures var r := VerifyMentionedResultsOf(Some(ms), verify, sendError);
      r.status == Failed ==> exists k :: (0 <= k < |ms| && FirstAbort(ms, 0, k, MentionProofId, verify, sendError)
        && r.message == ErrorMessage(sendError(k).value)
        && |r.replies| == k + 1
        && forall j :: 0 <= j <= k ==> r.replies[j] == HandleMention(ms[j], j, MentionProofId, verify, sendError).reply)
    ensures Verifications(ms, 0, MentionProofId, verify) <= WithProof(ms, 0, MentionProofId) <= |ms|
  {
    assert VerifyMentionedResultsOf(Some(ms), verify, sendError) == RunFrom(ms, 0, 0, 0, [], MentionProofId, verify, sendError);
    RunCounts(ms, MentionProofId, verify, sendError);
  }

  /** A failed reply send ends the handler FAILED with the error, unless it is
      the verdict reply, whose send error is swallowed. */
  lemma SendErrorsAbortExceptVerdict(m: Mention, i: nat, verify: nat -> VerifyOutcome, sendError: nat -> Option<string>)
    requires sendError(i).Some?
    ensures MentionProofId(m.text).Some? && verify(i).Verdict? ==>
      HandleMention(m, i, MentionProofId, verify, sendError).Handled?
    ensures MentionProofId(m.text).None? ==>
      HandleMention(m, i, MentionProofId, verify, sendError) == SendRaised(sendError(i).value, Reply(m.id, m.authorId, NoProofReply))
  {
  }

  /** No mentions, or a failed lookup, is a DONE with nothing replied to. */
  lemma NoMentionsNoWork(verify: nat -> VerifyOutcome, sendError: nat -> Option<string>)
    ensures VerifyMentionedResultsOf(None, verify, sendError) == AgentOutcome(Done, "No new mentions to process", [])
    ensures VerifyMentionedResultsOf(Some([]), verify, sendError) == AgentOutcome(Done, "No new mentions to process", [])
  {
  }
}
