/** `utils/formatters.py`: the search for an image URL in a tweet response
    and the text of the analysis report posted as a reply. Both are pure. */
module Formatters {
  import opened Common
  import opened Tweets

  // ---------------------------------------------------------------------------
  // Image URL extraction

  /** The URL one element of `includes.media` offers for the listed media
      keys: a photo's `url`, or a video's or animated GIF's
      `preview_image_url`, when that field is present and non-empty. */
  function MediaUrl(entry: MediaEntry, keys: seq<string>): (r: Option<string>)
    ensures r.Some? ==> Truthy(r)
  {
    match entry
    case NonDictMedia => None
    case MediaItem(m) =>
      if m.mediaKey.Some? && m.mediaKey.value in keys then
        if m.kind == Some("photo") then
          (if Truthy(m.url) then m.url else None)
        else if m.kind == Some("video") || m.kind == Some("animated_gif") then
          (if Truthy(m.previewImageUrl) then m.previewImageUrl else None)
        else None
      else None
  }

  /** The loop over `includes.media`: the URL of the first element that offers
      one. */
  function FindMediaUrl(media: seq<MediaEntry>, keys: seq<string>): (r: Option<string>)
    ensures r.None? <==> forall i :: 0 <= i < |media| ==> MediaUrl(media[i], keys).None?
    ensures r.Some? ==> exists i :: 0 <= i < |media| && MediaUrl(media[i], keys) == r
                                    && forall j :: 0 <= j < i ==> MediaUrl(media[j], keys).None?
  {
    if media == [] then None
    else if MediaUrl(media[0], keys).Some? then MediaUrl(media[0], keys)
    else
      var r := FindMediaUrl(media[1..], keys);
      assert forall i :: 1 <= i < |media| ==> media[i] == media[1..][i - 1];
      r
  }

  /** `extract_image_url`: the image URL of the tweet in `data`, and whether
      that tweet is a root tweet (it references no other tweet). */
  function ExtractImageUrl(doc: TweetDoc): (r: (Option<string>, bool))
  {
    match doc
    case NonDict => (None, false)
    case Doc(data, includes) =>
      if data.None? then (None, false)
      else
        var isRoot := data.value.referencedTweets == [];
        var keys := data.value.mediaKeys;
        if keys != [] && includes.Some? then
          var url := FindMediaUrl(includes.value.media, keys);
          if url.Some? then (url, isRoot) else (None, false)
        else (None, false)
  }

  /** What `extract_image_url` finds: nothing for a response that is not a
      dictionary or has no `data`; otherwise a URL exactly when the tweet lists
      media keys, the response has `includes`, and some included media element
      offers a URL, in which case it is the first such element's URL. The root
      flag is set exactly when a URL is found and the tweet references no
      other tweet. */
  lemma ExtractImageUrlFinds(doc: TweetDoc)
    ensures var r := ExtractImageUrl(doc);
      && (doc.NonDict? || doc.data.None? ==> r == (None, false))
      && (doc.Doc? && doc.data.Some? ==>
            var d := doc.data.value;
            && (r.0.Some? <==> d.mediaKeys != [] && doc.includes.Some?
                               && exists i :: 0 <= i < |doc.includes.value.media| && MediaUrl(doc.includes.value.media[i], d.mediaKeys).Some?)
            && (r.0.Some? ==> r.0 == FindMediaUrl(doc.includes.value.media, d.mediaKeys) && Truthy(r.0)))
      && (r.1 <==> r.0.Some? && doc.data.value.referencedTweets == [])
  {
  }

  /** A photo whose key is listed yields its `url`; a video or animated GIF
      yields its `preview_image_url`; an element of any other type, or whose
      key is absent or unlisted, yields nothing. */
  lemma MediaUrlByKind(m: Media, keys: seq<string>)
    ensures m.mediaKey.None? || m.mediaKey.value !in keys ==> MediaUrl(MediaItem(m), keys).None?
    ensures m.mediaKey.Some? && m.mediaKey.value in keys && m.kind == Some("photo") && Truthy(m.url) ==>
      MediaUrl(MediaItem(m), keys) == m.url
    ensures m.mediaKey.Some? && m.mediaKey.value in keys && (m.kind == Some("video") || m.kind == Some("animated_gif"))
            && Truthy(m.previewImageUrl) ==>
      MediaUrl(MediaItem(m), keys) == m.previewImageUrl
    ensures m.kind != Some("photo") && m.kind != Some("video") && m.kind != Some("animated_gif") ==>
      MediaUrl(MediaItem(m), keys).None?
  {
  }

  // ---------------------------------------------------------------------------
  // The analysis report

  const GithubLink := "\nhttps://github.com/BitMind-AI/bitmind-subnet"

  /** `"@<requester> "` when a requester is known, else nothing. */
  function RequesterPrefix(requester: Option<string>): string
  {
    if Truthy(requester) then "@" + requester.value + " " else ""
  }

  /** The line naming the original poster, only for an image taken from the
      root tweet whose poster is known. */
  function SourceNote(isRoot: bool, poster: Option<string>): string
  {
    if isRoot && Truthy(poster) then "Analyzing image from @" + poster.value + "\n" else ""
  }

  /** The status verdict. */
  function Verdict(isAI: bool): string
  {
    if isAI then "AI-Generated \U{1F916}" else "Not AI-Generated \U{1F464}"
  }

  /** The report proper. `confidence` is the text of the percentage. */
  function Report(isAI: bool, confidence: string): string
  {
    "\U{1F4CA} SYNTHETIC MEDIA ANALYSIS REPORT\n"
      + "Status: " + Verdict(isAI) + "\n"
      + "Confidence of AI-Generation: " + confidence + "%\n"
      + "Network: SN34 (BitMind)\n"
      + GithubLink
  }

  /** `format_analysis_response`. */
  function FormatAnalysisResponse(isAI: bool, confidence: string, requester: Option<string>,
                                  poster: Option<string>, isRoot: bool): string
  {
    RequesterPrefix(requester) + SourceNote(isRoot, poster) + Report(isAI, confidence)
  }

  /** The report opens with the chart emoji and closes with the link. */
  lemma ReportShape(isAI: bool, confidence: string)
    ensures var rep := Report(isAI, confidence);
      && |rep| > |GithubLink| && rep[0] == '\U{1F4CA}'
      && rep[|rep| - |GithubLink|..] == GithubLink
  {
  }

  // Positions in a concatenation of three strings.
  lemma FirstOfThree(p: string, n: string, rep: string)
    requires |rep| > 0
    ensures (p + n + rep)[0] == (if p != [] then p[0] else if n != [] then n[0] else rep[0])
  {
  }

  /** The reply starts with '@' exactly when a requester is known, and then
      with `"@<requester> "`. */
  lemma FormatAddressesRequester(isAI: bool, confidence: string, requester: Option<string>,
                                 poster: Option<string>, isRoot: bool)
    ensures var r := FormatAnalysisResponse(isAI, confidence, requester, poster, isRoot);
      && (r[0] == '@' <==> Truthy(requester))
      && (Truthy(requester) ==> r[..|requester.value| + 2] == "@" + requester.value + " ")
  {
    var p := RequesterPrefix(requester);
    var n := SourceNote(isRoot, poster);
    var rep := Report(isAI, confidence);
    ReportShape(isAI, confidence);
    FirstOfThree(p, n, rep);
    assert n != [] ==> n[0] == 'A';
  }

  lemma SliceOfThree(a: string, b: string, c: string)
    ensures (a + b + c)[|a|..|a| + |b|] == b
    ensures |b| > 0 ==> (a + b + c)[|a|] == b[0]
    ensures |b| == 0 && |c| > 0 ==> (a + b + c)[|a|] == c[0]
  {
  }

  /** The source note, when present, is "Analyzing image from @<poster>" and a newline. */
  lemma SourceNoteShape(isRoot: bool, poster: Option<string>)
    ensures isRoot && Truthy(poster) ==>
      var n := SourceNote(isRoot, poster);
      |n| == 23 + |poster.value| && n[0] == 'A' && n[..22 + |poster.value|] == "Analyzing image from @" + poster.value
    ensures !(isRoot && Truthy(poster)) ==> SourceNote(isRoot, poster) == ""
  {
  }

  lemma PrefixOfMiddle(a: string, b: string, c: string, k: nat)
    requires k <= |b|
    ensures (a + b + c)[|a|..|a| + k] == b[..k]
  {
  }

  /** Right after the requester prefix comes the source note exactly when the
      image is from the root tweet and its poster is known: the reply
      continues with "Analyzing image from @<poster>" in that case, and with
      the report's first character otherwise. */
  lemma FormatNamesPosterOnlyForRoot(isAI: bool, confidence: string, requester: Option<string>,
                                     poster: Option<string>, isRoot: bool)
    ensures var r := FormatAnalysisResponse(isAI, confidence, requester, poster, isRoot);
      var p := |RequesterPrefix(requester)|;
      && (r[p] == 'A' <==> isRoot && Truthy(poster))
      && (isRoot && Truthy(poster) ==> r[p..p + 22 + |poster.value|] == "Analyzing image from @" + poster.value)
  {
    var p := RequesterPrefix(requester);
    var n := SourceNote(isRoot, poster);
    var rep := Report(isAI, confidence);
    ReportShape(isAI, confidence);
    SourceNoteShape(isRoot, poster);
    SliceOfThree(p, n, rep);
    if isRoot && Truthy(poster) {
      var r := FormatAnalysisResponse(isAI, confidence, requester, poster, isRoot);
      var k := 22 + |poster.value|;
      assert r == p + n + rep;
      PrefixOfMiddle(p, n, rep, k);
      assert r[|p|..|p| + k] == n[..k];
    }
  }

  /** `s` ends with `suffix`. */
  predicate EndsWith(s: string, suffix: string)
  {
    |s| >= |suffix| && s[|s| - |suffix|..] == suffix
  }

  lemma EndsWithAppend(front: string, s: string, suffix: string)
    requires EndsWith(s, suffix)
    ensures EndsWith(front + s, suffix)
  {
    assert (front + s)[|front + s| - |suffix|..] == s[|s| - |suffix|..];
  }

  /** Every reply ends with the link to the bitmind-subnet repository. */
  lemma FormatEndsWithLink(isAI: bool, confidence: string, requester: Option<string>,
                           poster: Option<string>, isRoot: bool)
    ensures EndsWith(FormatAnalysisResponse(isAI, confidence, requester, poster, isRoot), GithubLink)
  {
    ReportShape(isAI, confidence);
    EndsWithAppend(RequesterPrefix(requester) + SourceNote(isRoot, poster), Report(isAI, confidence), GithubLink);
  }

  /** The verdict is the only part of the report that depends on it. */
  lemma ReportSplitsAtVerdict(isAI: bool, confidence: string)
    ensures Report(isAI, confidence) == ReportHead + Verdict(isAI) + ReportTail(confidence)
  {
  }

  const ReportHead := "\U{1F4CA} SYNTHETIC MEDIA ANALYSIS REPORT\n" + "Status: "

  function ReportTail(confidence: string): string
  {
    "\n" + "Confidence of AI-Generation: " + confidence + "%\n" + "Network: SN34 (BitMind)\n" + GithubLink
  }

  /** The status line is "AI-Generated 🤖" for an AI verdict and
      "Not AI-Generated 👤" otherwise, so the two verdicts never give the same
      reply. */
  lemma FormatDistinguishesVerdict(confidence: string, requester: Option<string>,
                                   poster: Option<string>, isRoot: bool)
    ensures var front := RequesterPrefix(requester) + SourceNote(isRoot, poster) + ReportHead;
      && FormatAnalysisResponse(true, confidence, requester, poster, isRoot)[|front|..|front| + 14] == "AI-Generated \U{1F916}"
      && FormatAnalysisResponse(false, confidence, requester, poster, isRoot)[|front|..|front| + 18] == "Not AI-Generated \U{1F464}"
    ensures FormatAnalysisResponse(true, confidence, requester, poster, isRoot)
         != FormatAnalysisResponse(false, confidence, requester, poster, isRoot)
  {
    var lead := RequesterPrefix(requester) + SourceNote(isRoot, poster);
    var front := lead + ReportHead;
    var tail := ReportTail(confidence);
    ReportSplitsAtVerdict(true, confidence);
    ReportSplitsAtVerdict(false, confidence);
    ThreeRegrouped(lead, ReportHead, Verdict(true), tail);
    ThreeRegrouped(lead, ReportHead, Verdict(false), tail);
    SliceOfThree(front, Verdict(true), tail);
    SliceOfThree(front, Verdict(false), tail);
  }

  lemma ThreeRegrouped(a: string, b: string, c: string, d: string)
    ensures a + (b + c + d) == (a + b) + c + d
  {
  }
}
