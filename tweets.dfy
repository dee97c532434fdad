/** The parts of a Twitter API v2 tweet response that the workers read: the
    tweet itself (`data`), its references to other tweets, its attached media
    keys, and the `includes` section with expanded media, tweets and users.

    A field that the code reads with `.get(field, [])` is a plain sequence
    here (absent and empty mean the same); a field whose absence changes what
    happens is an `Option`. */
module Tweets {
  import opened Common

  /** One entry of `referenced_tweets`: its `type` and the referenced `id`. */
  datatype Ref = Ref(refType: string, id: string)

  /** A tweet object: `id`, `text`, `author_id`, `referenced_tweets` and
      `attachments.media_keys`. */
  datatype TweetData = TweetData(id: string, text: string, authorId: string,
                                 referencedTweets: seq<Ref>, mediaKeys: seq<string>)

  /** A media object with its optional `media_key`, `type`, `url` and
      `preview_image_url`. */
  datatype Media = Media(mediaKey: Option<string>, kind: Option<string>,
                         url: Option<string>, previewImageUrl: Option<string>)

  /** An element of `includes.media`, which need not be a dictionary. */
  datatype MediaEntry = NonDictMedia | MediaItem(media: Media)

  datatype User = User(id: string, username: string)

  /** The `includes` section: `media` (absent means empty), and the optional
      `tweets` and `users` lists. */
  datatype Includes = Includes(media: seq<MediaEntry>, tweets: Option<seq<TweetData>>, users: Option<seq<User>>)

  /** A whole response: not a dictionary at all, or a dictionary with optional
      `data` and `includes`. */
  datatype TweetDoc = NonDict | Doc(data: Option<TweetData>, includes: Option<Includes>)

  const RepliedTo := "replied_to"

  /** The first element of `xs` that `test` accepts. */
  function FindFirst<T>(xs: seq<T>, test: T -> bool): (r: Option<T>)
    ensures r.None? <==> forall i :: 0 <= i < |xs| ==> !test(xs[i])
    ensures r.Some? ==> exists i :: 0 <= i < |xs| && xs[i] == r.value && test(xs[i])
                                    && forall j :: 0 <= j < i ==> !test(xs[j])
  {
    if xs == [] then None
    else if test(xs[0]) then Some(xs[0])
    else
      var r := FindFirst(xs[1..], test);
      assert forall i :: 1 <= i < |xs| ==> xs[i] == xs[1..][i - 1];
      r
  }

  /** The first reference of type `replied_to`, as `next(...)` over the
      references finds it. */
  function FirstRepliedTo(refs: seq<Ref>): (r: Option<Ref>)
    ensures r.None? <==> forall i :: 0 <= i < |refs| ==> refs[i].refType != RepliedTo
    ensures r.Some? ==> exists i :: 0 <= i < |refs| && refs[i] == r.value && refs[i].refType == RepliedTo
                                    && forall j :: 0 <= j < i ==> refs[j].refType != RepliedTo
  {
    FindFirst(refs, (ref: Ref) => ref.refType == RepliedTo)
  }

  /** The first tweet with the given id. */
  function FindTweet(tweets: seq<TweetData>, id: string): (r: Option<TweetData>)
    ensures r.None? <==> forall i :: 0 <= i < |tweets| ==> tweets[i].id != id
    ensures r.Some? ==> exists i :: 0 <= i < |tweets| && tweets[i] == r.value && tweets[i].id == id
                                    && forall j :: 0 <= j < i ==> tweets[j].id != id
  {
    FindFirst(tweets, (t: TweetData) => t.id == id)
  }

  /** The first user with the given id. */
  function FindUser(users: seq<User>, id: string): (r: Option<User>)
    ensures r.None? <==> forall i :: 0 <= i < |users| ==> users[i].id != id
    ensures r.Some? ==> exists i :: 0 <= i < |users| && users[i] == r.value && users[i].id == id
                                    && forall j :: 0 <= j < i ==> users[j].id != id
  {
    FindFirst(users, (u: User) => u.id == id)
  }
}
