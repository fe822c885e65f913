/** Turning the cards read off a listing into posts. */
module RedditCards {
  import opened Common
  import opened DetailPool

  /** `createdAt` is the parsed time of the card, None when absent or unreadable; `readAt` the clock when the
      card is normalised. */
  datatype Card = Card(
    id: string, permalink: string, title: string, body: Option<string>, author: Option<string>,
    subreddit: Option<string>, score: Option<int>, commentCount: Option<int>, createdAt: Option<int>, readAt: int,
    mediaUrls: seq<string>, promoted: bool, pinned: bool, nsfw: bool)

  datatype Source = Source(
    targetPostCount: int, maxScrolls: int, maxStallRounds: int, subreddit: Option<string>,
    includePromoted: bool, includePinned: bool, includeNsfw: bool, detailEnabled: bool)

  predicate Alphanumeric(c: char) { '0' <= c <= '9' || 'a' <= c <= 'z' || 'A' <= c <= 'Z' }

  function Lower(c: char): char { if 'A' <= c <= 'Z' then c - 'A' + 'a' else c }

  const COMMENTS := "/comments/"

  predicate IsComments(s: string) {
    |s| == |COMMENTS| && forall i | 0 <= i < |s| :: Lower(s[i]) == COMMENTS[i]
  }

  /** The length of the longest alphanumeric prefix. */
  function Run(s: string): (n: nat)
    ensures n <= |s|
  {
    if s == "" || !Alphanumeric(s[0]) then 0 else 1 + Run(s[1..])
  }

  /** "/comments/" at position `i`, then letters and digits up to a slash or the end. */
  predicate MatchAt(link: string, i: nat) {
    && i + 10 <= |link| && IsComments(link[i..i + 10])
    && var n := Run(link[i + 10..]); n > 0 && (i + 10 + n == |link| || link[i + 10 + n] == '/')
  }

  /** The id in the first match from position `i` on. */
  function CommentsId(link: string, i: nat): Option<string>
    decreases |link| - i
  {
    if i >= |link| then None
    else if MatchAt(link, i) then Some(link[i + 10..i + 10 + Run(link[i + 10..])])
    else CommentsId(link, i + 1)
  }

  const PREFIX := "t3_"

  function ExternalId(card: Card): Option<string> {
    if PREFIX <= card.id then Some(card.id)
    else
      match CommentsId(card.permalink, 0)
      case None => None
      case Some(raw) => Some(if PREFIX <= raw then raw else PREFIX + raw)
  }

  function OrElse<T>(x: Option<T>, y: T): T { if x.Some? then x.value else y }

  function NormalizeCard(source: Source, card: Card): Option<Post> {
    match ExternalId(card)
    case None => None
    case Some(id) =>
      Some(Post(id, card.permalink, OrElse(card.subreddit, OrElse(source.subreddit, "unknown")), card.author,
                card.title,
                OrElse(card.body, ""), OrElse(card.score, 0), OrElse(card.commentCount, 0),
                OrElse(card.createdAt, card.readAt), card.mediaUrls, [], false))
  }

  predicate Wanted(source: Source, card: Card) {
    (card.promoted ==> source.includePromoted) && (card.pinned ==> source.includePinned)
        && (card.nsfw ==> source.includeNsfw)
  }

  /** The post of a card that passes the filters and has an id. */
  function Accepted(source: Source, card: Card): Option<Post> {
    if Wanted(source, card) then NormalizeCard(source, card) else None
  }

  // ---------- the id ----------

  /** A digit or a letter by its ASCII code. */
  predicate LetterOrDigit(c: char) {
    48 <= c as int <= 57 || 65 <= c as int <= 90 || 97 <= c as int <= 122
  }

  lemma AlphanumericIs(c: char)
    ensures Alphanumeric(c) <==> LetterOrDigit(c)
  {
  }

  /** `word` is "/comments/" in letters of either case. */
  predicate ReadsComments(word: string) {
    |word| == 10 && forall i | 0 <= i < 10 :: word[i] == "/comments/"[i] || word[i] == "/COMMENTS/"[i]
  }

  lemma IsCommentsIs(word: string)
    ensures IsComments(word) <==> ReadsComments(word)
  {
    forall i | 0 <= i < 10 && |word| == 10
      ensures Lower(word[i]) == COMMENTS[i] <==> word[i] == "/comments/"[i] || word[i] == "/COMMENTS/"[i]
    {
    }
  }

  /** From position `i` the link reads "/comments/", `n` > 0 letters or digits, then a slash or the end. */
  predicate Matches(link: string, i: nat, n: nat) {
    && i + 10 + n <= |link| && ReadsComments(link[i..i + 10]) && n > 0
    && (forall k | i + 10 <= k < i + 10 + n :: LetterOrDigit(link[k]))
    && (i + 10 + n == |link| || link[i + 10 + n] == '/')
  }

  lemma {:induction false} RunIsLongest(s: string)
    ensures Run(s) <= |s| && (forall k | 0 <= k < Run(s) :: Alphanumeric(s[k]))
    ensures Run(s) < |s| ==> !Alphanumeric(s[Run(s)])
  {
    if s != "" && Alphanumeric(s[0]) {
      RunIsLongest(s[1..]);
      forall k | 0 <= k < Run(s) ensures Alphanumeric(s[k]) {
        assert k > 0 ==> s[k] == s[1..][k - 1];
      }
    }
  }

  /** Looking at the longest run only loses no match: the pattern matches at a position with some run of
      letters and digits exactly when it does with the longest. */
  lemma LongestRunDecides(link: string, i: nat, n: nat)
    ensures Matches(link, i, n) <==> MatchAt(link, i) && n == Run(link[i + 10..])
  {
    if i + 10 <= |link| {
      var rest := link[i + 10..];
      RunIsLongest(rest);
      IsCommentsIs(link[i..i + 10]);
      forall k | 0 <= k < |rest|
        ensures rest[k] == link[i + 10 + k] && (Alphanumeric(rest[k]) <==> LetterOrDigit(rest[k]))
      {
        AlphanumericIs(rest[k]);
      }
      assert forall k | i + 10 <= k < |link| :: link[k] == rest[k - i - 10];
    }
  }

  /** `id` is what the leftmost match from position `i` on, at `j`, captures. */
  ghost predicate Leftmost(link: string, i: nat, j: nat, id: string) {
    && i <= j && Matches(link, j, |id|) && id == link[j + 10..j + 10 + |id|]
    && forall k: nat, n: nat | i <= k < j :: !Matches(link, k, n)
  }

  /** An id is found exactly when the pattern matches somewhere, and it is what follows "/comments/" at the
      leftmost such position. */
  lemma {:induction false} CommentsIdIsLeftmost(link: string, i: nat)
    ensures CommentsId(link, i).None? ==> forall j: nat, n: nat | i <= j :: !Matches(link, j, n)
    ensures CommentsId(link, i).Some? ==> exists j: nat :: Leftmost(link, i, j, CommentsId(link, i).value)
    decreases if i <= |link| then |link| - i else 0
  {
    if i < |link| && MatchAt(link, i) {
      LongestRunDecides(link, i, Run(link[i + 10..]));
      assert Leftmost(link, i, i, CommentsId(link, i).value);
    } else if i < |link| {
      CommentsIdIsLeftmost(link, i + 1);
      forall n: nat ensures !Matches(link, i, n) { LongestRunDecides(link, i, n); }
      if CommentsId(link, i).Some? {
        var j: nat :| Leftmost(link, i + 1, j, CommentsId(link, i).value);
        assert Leftmost(link, i, j, CommentsId(link, i).value);
      }
    }
  }

  /** What the card says is taken over; what it does not say gets the source's subreddit or the empty value. */
  predicate TakenFrom(post: Post, source: Source, card: Card) {
    && post.title == card.title && post.canonicalUrl == card.permalink && post.authorUsername == card.author
    && post.mediaUrls == card.mediaUrls && post.topComments == [] && !post.detailFetched
    && (if card.body.Some? then card.body == Some(post.body) else post.body == "")
    && (if card.score.Some? then card.score == Some(post.score) else post.score == 0)
    && (if card.commentCount.Some? then card.commentCount == Some(post.commentCount) else post.commentCount == 0)
    && (if card.createdAt.Some? then card.createdAt == Some(post.postedAt) else post.postedAt == card.readAt)
    && (card.subreddit.Some? ==> card.subreddit == Some(post.subreddit))
    && (card.subreddit.None? && source.subreddit.Some? ==> source.subreddit == Some(post.subreddit))
    && (card.subreddit.None? && source.subreddit.None? ==> post.subreddit == "unknown")
  }

  /** The id of a normalised card starts "t3_": the card's own id if it does, else "t3_" and the id its link
      names, which never has the prefix itself. A card with neither is dropped. */
  lemma NormalizedId(source: Source, card: Card)
    ensures var post, named := NormalizeCard(source, card), CommentsId(card.permalink, 0);
      && (post.None? <==> !("t3_" <= card.id) && named.None?)
      && ("t3_" <= card.id ==> post.value.externalPostId == card.id)
      && (!("t3_" <= card.id) && named.Some? ==>
          post.value.externalPostId == "t3_" + named.value && named.value != "")
    ensures var post := NormalizeCard(source, card); post.Some? ==> TakenFrom(post.value, source, card)
  {
    CommentsIdIsLeftmost(card.permalink, 0);
    var named := CommentsId(card.permalink, 0);
    if named.Some? {
      var j: nat :| Leftmost(card.permalink, 0, j, named.value);
      assert |named.value| > 2 ==> Alphanumeric(named.value[2]);
      assert !Alphanumeric(PREFIX[2]);
    }
  }
}
