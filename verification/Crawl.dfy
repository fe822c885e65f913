/** Collecting a public source: rounds of reading the cards off a scrolled or paged listing, driven by whatever
    the browser shows. */
module Crawl {
  import opened Common
  import opened DetailPool
  import opened RedditCards
  import FirstSeen

  /** What one round shows: the cards, whether the page is an old.reddit.com one, and whether it has a next link. */
  datatype Round = Round(cards: seq<Card>, onOldReddit: bool, nextVisible: bool)

  type Pages = nat -> Round

  datatype Outcome = Collected(posts: seq<Post>) | Refused(status: int)

  datatype Limits = Limits(target: nat, maxScrolls: nat, maxStalls: nat)

  function Clamp(x: int, most: int): nat
    requires most >= 1
  {
    var capped := if x < most then x else most;
    if capped > 1 then capped else 1
  }

  function LimitsOf(source: Source): Limits {
    Limits(Clamp(source.targetPostCount, 2000), Clamp(source.maxScrolls, 100), Clamp(source.maxStallRounds, 12))
  }

  /** A configured number is used as it is inside its range, and moved to the nearer end outside. */
  lemma LimitsAreInRange(source: Source)
    ensures var l := LimitsOf(source);
      && 1 <= l.target <= 2000 && 1 <= l.maxScrolls <= 100 && 1 <= l.maxStalls <= 12
      && (1 <= source.targetPostCount <= 2000 ==> l.target == source.targetPostCount)
      && (1 <= source.maxScrolls <= 100 ==> l.maxScrolls == source.maxScrolls)
      && (1 <= source.maxStallRounds <= 12 ==> l.maxStalls == source.maxStallRounds)
      && (source.targetPostCount > 2000 ==> l.target == 2000) && (source.maxScrolls > 100 ==> l.maxScrolls == 100)
      && (source.maxStallRounds > 12 ==> l.maxStalls == 12)
      && (source.targetPostCount < 1 ==> l.target == 1) && (source.maxScrolls < 1 ==> l.maxScrolls == 1)
      && (source.maxStallRounds < 1 ==> l.maxStalls == 1)
  {
  }

  // ---------- what the rounds offer ----------

  type Accept = Card -> Option<Post>

  function Acceptor(source: Source): Accept { card => Accepted(source, card) }

  function Offered(accept: Accept, cards: seq<Card>): seq<Post> {
    if cards == [] then []
    else
      var n := |cards| - 1;
      Offered(accept, cards[..n]) + if accept(cards[n]).Some? then [accept(cards[n]).value] else []
  }

  /** Everything acceptable in the first `n` rounds, in order, repetitions included. */
  function Stream(accept: Accept, pages: Pages, n: nat): seq<Post> {
    if n == 0 then [] else Stream(accept, pages, n - 1) + Offered(accept, pages(n - 1).cards)
  }

  function IdOf(p: Post): string { p.externalPostId }

  function Capped(target: nat, posts: seq<Post>): seq<Post> {
    if |posts| > target then posts[..target] else posts
  }

  /** The first `target` posts of a stream with distinct ids. */
  function Distinctly(target: nat, stream: seq<Post>): seq<Post> {
    Capped(target, FirstSeen.Firsts(IdOf, stream))
  }

  /** What the crawl holds after `n` rounds. */
  function Held(target: nat, accept: Accept, pages: Pages, n: nat): seq<Post> {
    Distinctly(target, Stream(accept, pages, n))
  }

  lemma DistinctlyStep(target: nat, stream: seq<Post>, x: Post)
    requires |Distinctly(target, stream)| < target
    ensures Distinctly(target, stream + [x])
            == if FirstSeen.Has(IdOf, Distinctly(target, stream), IdOf(x)) then Distinctly(target, stream)
               else Distinctly(target, stream) + [x]
  {
    FirstSeen.FirstsStep(IdOf, stream, x);
  }

  lemma DistinctlyGrows(target: nat, stream: seq<Post>, more: seq<Post>)
    ensures Distinctly(target, stream) <= Distinctly(target, stream + more)
    ensures |Distinctly(target, stream)| == target ==> Distinctly(target, stream + more) == Distinctly(target, stream)
  {
    FirstSeen.FirstsGrow(IdOf, stream, more);
  }

  lemma {:induction false} OfferedSplits(accept: Accept, a: seq<Card>, b: seq<Card>)
    ensures Offered(accept, a + b) == Offered(accept, a) + Offered(accept, b)
  {
    if b == [] {
      assert a + b == a;
    } else {
      var n := |b| - 1;
      OfferedSplits(accept, a, b[..n]);
      assert (a + b)[..|a + b| - 1] == a + b[..n];
    }
  }

  lemma {:induction false} OfferedMembers(accept: Accept, cards: seq<Card>, p: Post)
    ensures p in Offered(accept, cards) <==> exists c :: c in cards && accept(c) == Some(p)
  {
    if cards != [] {
      var n := |cards| - 1;
      OfferedMembers(accept, cards[..n], p);
      assert cards == cards[..n] + [cards[n]];
    }
  }

  ghost predicate OfferedIn(accept: Accept, pages: Pages, r: nat, p: Post) {
    exists c :: c in pages(r).cards && accept(c) == Some(p)
  }

  lemma {:induction false} StreamMembers(accept: Accept, pages: Pages, n: nat, p: Post)
    ensures p in Stream(accept, pages, n) <==> exists r: nat :: r < n && OfferedIn(accept, pages, r, p)
  {
    if n > 0 {
      StreamMembers(accept, pages, n - 1, p);
      OfferedMembers(accept, pages(n - 1).cards, p);
      assert p in Offered(accept, pages(n - 1).cards) <==> OfferedIn(accept, pages, n - 1, p);
    }
  }

  lemma {:induction false} FirstsAreMembers(stream: seq<Post>)
    ensures forall p | p in FirstSeen.Firsts(IdOf, stream) :: p in stream
  {
    if stream != [] { FirstsAreMembers(stream[..|stream| - 1]); }
  }

  /** What the crawl holds after `n` rounds: at most the target, no id twice, only accepted cards of those rounds;
      below the target nothing accepted is missing; and a later round only appends. */
  lemma HeldIsExact(target: nat, accept: Accept, pages: Pages, n: nat)
    ensures var held := Held(target, accept, pages, n);
      && |held| <= target && FirstSeen.Distinct(IdOf, held)
      && (forall p | p in held :: exists r: nat :: r < n && OfferedIn(accept, pages, r, p))
      && (|held| < target ==> forall r: nat, p | r < n && OfferedIn(accept, pages, r, p) ::
          FirstSeen.Has(IdOf, held, IdOf(p)))
      && held <= Held(target, accept, pages, n + 1)
  {
    var stream := Stream(accept, pages, n);
    FirstSeen.FirstsKeys(IdOf, stream);
    FirstsAreMembers(stream);
    DistinctlyGrows(target, stream, Offered(accept, pages(n).cards));
    forall p | p in Held(target, accept, pages, n) ensures exists r: nat :: r < n && OfferedIn(accept, pages, r, p) {
      assert p in FirstSeen.Firsts(IdOf, stream);
      StreamMembers(accept, pages, n, p);
    }
    forall r: nat, p | r < n && OfferedIn(accept, pages, r, p) && |Held(target, accept, pages, n)| < target
      ensures FirstSeen.Has(IdOf, Held(target, accept, pages, n), IdOf(p))
    {
      StreamMembers(accept, pages, n, p);
      var i :| 0 <= i < |stream| && stream[i] == p;
      assert FirstSeen.Has(IdOf, stream, IdOf(p));
    }
  }

  /** The held posts are the earliest accepted card of each id, in the order the cards were read. */
  lemma HeldIsFirstSeen(target: nat, accept: Accept, pages: Pages, n: nat) returns (at: seq<int>)
    ensures FirstSeen.FirstPositions(IdOf, Stream(accept, pages, n), at)
    ensures |Held(target, accept, pages, n)| == if |at| > target then target else |at|
    ensures forall k | 0 <= k < |Held(target, accept, pages, n)| ::
      0 <= at[k] < |Stream(accept, pages, n)| && Held(target, accept, pages, n)[k] == Stream(accept, pages, n)[at[k]]
  {
    at := FirstSeen.FirstsArePositions(IdOf, Stream(accept, pages, n));
  }

  // ---------- which cards are collected ----------

  /** Promoted, pinned and adult cards are collected only if the source asks for them. */
  predicate Admissible(source: Source, card: Card) {
    !(card.promoted && !source.includePromoted) && !(card.pinned && !source.includePinned)
    && !(card.nsfw && !source.includeNsfw)
  }

  /** The card has a post id, or its link names one. */
  predicate Identified(card: Card) { "t3_" <= card.id || CommentsId(card.permalink, 0).Some? }

  ghost predicate ShownIn(source: Source, round: Round, p: Post) {
    exists card :: card in round.cards && Admissible(source, card) && NormalizeCard(source, card) == Some(p)
  }

  /** One of the first `n` rounds shows an admissible card of the post. */
  ghost predicate Shown(source: Source, pages: Pages, n: nat, p: Post) {
    exists r: nat :: r < n && ShownIn(source, pages(r), p)
  }

  /** Everything admissible in the first `n` rounds that has an id is among the posts. */
  ghost predicate Complete(source: Source, pages: Pages, n: nat, posts: seq<Post>) {
    forall r: nat, card | r < n && card in pages(r).cards && Admissible(source, card) && Identified(card) ::
      FirstSeen.Has(IdOf, posts, IdOf(NormalizeCard(source, card).value))
  }

  /** The crawl holds only posts of admissible cards that it was shown, and below the target all of them. */
  lemma HeldIsShown(target: nat, source: Source, pages: Pages, n: nat)
    ensures var held := Held(target, Acceptor(source), pages, n);
      && (forall p | p in held :: Shown(source, pages, n, p))
      && (|held| < target ==> Complete(source, pages, n, held))
  {
    var accept := Acceptor(source);
    var held := Held(target, accept, pages, n);
    HeldIsExact(target, accept, pages, n);
    forall p | p in held ensures Shown(source, pages, n, p) {
      var r: nat :| r < n && OfferedIn(accept, pages, r, p);
      var card :| card in pages(r).cards && accept(card) == Some(p);
      assert ShownIn(source, pages(r), p);
    }
    forall r: nat, card | |held| < target && r < n && card in pages(r).cards && Admissible(source, card)
                          && Identified(card)
      ensures FirstSeen.Has(IdOf, held, IdOf(NormalizeCard(source, card).value))
    {
      assert accept(card) == NormalizeCard(source, card);
      assert OfferedIn(accept, pages, r, NormalizeCard(source, card).value);
    }
  }

  /** All but what the detail page adds. */
  predicate SamePost(p: Post, q: Post) {
    q == p.(body := q.body, mediaUrls := q.mediaUrls, topComments := q.topComments, detailFetched := q.detailFetched)
  }

  ghost predicate ShownAs(source: Source, pages: Pages, n: nat, q: Post) {
    exists p :: SamePost(p, q) && Shown(source, pages, n, p)
  }

  /** The posts of a finished crawl are what its rounds showed, enriched or not. */
  ghost predicate Gathered(source: Source, pages: Pages, n: nat, posts: seq<Post>) {
    && (forall i | 0 <= i < |posts| :: ShownAs(source, pages, n, posts[i]))
    && (|posts| < LimitsOf(source).target ==> Complete(source, pages, n, posts))
    && |posts| <= LimitsOf(source).target && FirstSeen.Distinct(IdOf, posts)
  }

  lemma HeldIsGathered(source: Source, pages: Pages, n: nat, posts: seq<Post>)
    requires var held := Held(LimitsOf(source).target, Acceptor(source), pages, n);
      |posts| == |held| && forall i | 0 <= i < |held| :: SamePost(held[i], posts[i])
    ensures Gathered(source, pages, n, posts)
  {
    var target := LimitsOf(source).target;
    var held := Held(target, Acceptor(source), pages, n);
    HeldIsShown(target, source, pages, n);
    HeldIsExact(target, Acceptor(source), pages, n);
    forall i | 0 <= i < |posts| ensures ShownAs(source, pages, n, posts[i]) {
      assert held[i] in held && SamePost(held[i], posts[i]);
    }
    forall k | FirstSeen.Has(IdOf, held, k) ensures FirstSeen.Has(IdOf, posts, k) {
      var i :| 0 <= i < |held| && IdOf(held[i]) == k;
      assert IdOf(posts[i]) == k;
    }
  }

  // ---------- when the crawl stops ----------

  /** All that the end of a crawl depends on: how many posts are held after `n` rounds, which rounds show an old
      listing without a next page, whether there is a subreddit to fall back to and whether that is refused. */
  datatype Course = Course(size: nat -> nat, deadEnd: nat -> bool, subreddit: bool, refused: bool)

  /** Round `r` is given up for the old.reddit.com listing. */
  predicate FallsBack(c: Course, r: nat) { r == 1 && c.size(2) == 0 && c.subreddit }

  /** Round `r` added nothing and counts as a stall. */
  predicate Quiet(c: Course, r: nat) { c.size(r + 1) == c.size(r) && !FallsBack(c, r) }

  predicate TargetReached(l: Limits, c: Course, r: nat) { c.size(r + 1) >= l.target }

  predicate StallLimit(l: Limits, c: Course, r: nat) {
    r + 1 >= l.maxStalls && forall i: nat | r + 1 - l.maxStalls <= i <= r :: Quiet(c, i)
  }

  predicate NoNextPage(c: Course, r: nat) { !FallsBack(c, r) && c.deadEnd(r) }

  predicate FallbackRefused(c: Course, r: nat) { FallsBack(c, r) && c.refused }

  /** Round `r` is the last one. */
  predicate Stops(l: Limits, c: Course, r: nat) {
    TargetReached(l, c, r) || StallLimit(l, c, r) || NoNextPage(c, r) || FallbackRefused(c, r) || r >= l.maxScrolls
  }

  /** None of the first `n` rounds is the last one. */
  ghost predicate GoesOn(l: Limits, c: Course, n: nat) {
    forall r: nat | r < n :: !Stops(l, c, r)
  }

  /** The crawl reads exactly `rounds` rounds. */
  ghost predicate Reads(l: Limits, c: Course, rounds: nat) {
    rounds >= 1 && Stops(l, c, rounds - 1) && GoesOn(l, c, rounds - 1)
  }

  /** The number of rounds is determined, and at most maxScrolls + 1. */
  lemma RoundsAreBounded(l: Limits, c: Course, rounds: nat, others: nat)
    requires Reads(l, c, rounds) && Reads(l, c, others)
    ensures rounds == others && rounds <= l.maxScrolls + 1
  {
    assert Stops(l, c, l.maxScrolls);
  }

  ghost predicate Growing(c: Course) {
    c.size(0) == 0 && forall n: nat, m: nat | m == n + 1 :: c.size(n) <= c.size(m)
  }

  /** The old listing is tried at most once, and exactly when two rounds gave nothing, the source names a
      subreddit, one empty round is not already the stall limit, and the first page was not a dead end. */
  lemma FallbackIff(l: Limits, c: Course, rounds: nat)
    requires Reads(l, c, rounds) && Growing(c) && l.target >= 1 && l.maxScrolls >= 1 && l.maxStalls >= 1
    ensures (exists r: nat :: r < rounds && FallsBack(c, r)) <==>
      c.size(2) == 0 && c.subreddit && l.maxStalls > 1 && !c.deadEnd(0)
    ensures forall q: nat, r: nat | FallsBack(c, q) && FallsBack(c, r) :: q == r
  {
    if c.size(2) == 0 && c.subreddit {
      assert c.size(0) <= c.size(1) <= c.size(2);
      assert Quiet(c, 0) && FallsBack(c, 1);
      assert Stops(l, c, 0) <==> l.maxStalls == 1 || c.deadEnd(0);
    }
  }

  // ---------- stalls ----------

  /** How many quiet rounds in a row there are just before `r`. */
  function Streak(c: Course, r: nat): nat {
    if r == 0 || !Quiet(c, r - 1) then 0 else Streak(c, r - 1) + 1
  }

  lemma {:induction false} StreakIsMaximal(c: Course, r: nat)
    ensures var n := Streak(c, r);
      n <= r && (forall i: nat | r - n <= i < r :: Quiet(c, i)) && (n < r ==> !Quiet(c, r - n - 1))
  {
    if r > 0 && Quiet(c, r - 1) { StreakIsMaximal(c, r - 1); }
  }

  lemma StallsReachLimit(l: Limits, c: Course, r: nat)
    ensures StallLimit(l, c, r) <==> Streak(c, r + 1) >= l.maxStalls
  {
    StreakIsMaximal(c, r + 1);
    var n := Streak(c, r + 1);
    if n < l.maxStalls && n < r + 1 { assert !Quiet(c, r - n); }
  }

  /** The loop variables before round `round`. */
  ghost predicate LoopOk(l: Limits, c: Course, round: nat, stalls: nat, oldReddit: bool) {
    && stalls == Streak(c, round)
    && (oldReddit <==> round >= 2 && FallsBack(c, 1))
    && GoesOn(l, c, if round < l.maxScrolls then round else l.maxScrolls)
    && (round > l.maxScrolls ==> !FallbackRefused(c, l.maxScrolls))
  }

  lemma {:induction false} GrowsFar(c: Course, m: nat, n: nat)
    requires Growing(c) && m <= n
    ensures c.size(m) <= c.size(n)
  {
    if m < n {
      GrowsFar(c, m, n - 1);
      assert n == (n - 1) + 1;
    }
  }

  /** What the loop does after reading round `round` without reaching the target. */
  lemma AfterRound(l: Limits, c: Course, round: nat, stalls: nat, oldReddit: bool)
    requires LoopOk(l, c, round, stalls, oldReddit) && Growing(c) && round <= l.maxScrolls
        && c.size(round + 1) < l.target
    ensures FallsBack(c, round) <==> c.size(round + 1) == 0 && round >= 1 && c.subreddit && !oldReddit
    ensures FallsBack(c, round) && !c.refused && l.maxStalls > 0 ==> LoopOk(l, c, round + 1, 0, true)
    ensures FallsBack(c, round) && c.refused ==> Reads(l, c, round + 1)
    ensures !FallsBack(c, round) ==>
      var after := if c.size(round + 1) == c.size(round) then stalls + 1 else 0;
      if after >= l.maxStalls || c.deadEnd(round) then Reads(l, c, round + 1)
      else LoopOk(l, c, round + 1, after, oldReddit)
  {
    if round >= 2 { GrowsFar(c, 2, round + 1); }
    StallsReachLimit(l, c, round);
  }

  // ---------- the loop ----------

  predicate HasSubreddit(source: Source) { source.subreddit.Some? && source.subreddit.value != "" }

  predicate Blocked(status: Option<int>) { status.Some? && status.value >= 400 }

  function CourseOf(source: Source, pages: Pages, second: Option<int>): Course {
    Course(n requires n >= 0 => |Held(LimitsOf(source).target, Acceptor(source), pages, n)|,
           r requires r >= 0 => pages(r).onOldReddit && !pages(r).nextVisible,
           HasSubreddit(source), Blocked(second))
  }

  /** The course knows how many posts are held before round `n`, and whether that round is a dead end. */
  predicate RoundDescribed(c: Course, target: nat, source: Source, pages: Pages, n: nat) {
    && c.size(n) == |Held(target, Acceptor(source), pages, n)|
    && (c.deadEnd(n) <==> pages(n).onOldReddit && !pages(n).nextVisible)
  }

  /** `c` is the course of this crawl. */
  ghost predicate Describes(c: Course, target: nat, source: Source, pages: Pages, second: Option<int>) {
    && (forall n: nat :: RoundDescribed(c, target, source, pages, n))
    && c.subreddit == HasSubreddit(source) && c.refused == Blocked(second) && Growing(c)
  }

  lemma CourseIsDescribed(source: Source, pages: Pages, second: Option<int>)
    ensures Describes(CourseOf(source, pages, second), LimitsOf(source).target, source, pages, second)
    ensures var c := CourseOf(source, pages, second);
      && (c.subreddit <==> source.subreddit.Some? && source.subreddit.value != "")
      && (c.refused <==> second.Some? && second.value >= 400)
      && forall r: nat :: c.deadEnd(r) <==> pages(r).onOldReddit && !pages(r).nextVisible
  {
    var c := CourseOf(source, pages, second);
    forall n: nat, m: nat | m == n + 1 ensures c.size(n) <= c.size(m) {
      HeldIsExact(LimitsOf(source).target, Acceptor(source), pages, n);
    }
  }

  /** The posts after one more card. */
  function AfterCard(accept: Accept, card: Card, posts: seq<Post>): seq<Post> {
    var post := accept(card);
    if post.Some? && !FirstSeen.Has(IdOf, posts, IdOf(post.value)) then posts + [post.value] else posts
  }

  lemma OneMoreCard(accept: Accept, cards: seq<Card>, i: nat, target: nat, stream: seq<Post>)
    requires i < |cards| && |Distinctly(target, stream + Offered(accept, cards[..i]))| < target
    ensures Distinctly(target, stream + Offered(accept, cards[..i + 1]))
            == AfterCard(accept, cards[i], Distinctly(target, stream + Offered(accept, cards[..i])))
  {
    assert cards[..i + 1][..i] == cards[..i];
    var seen := stream + Offered(accept, cards[..i]);
    if accept(cards[i]).Some? {
      assert stream + Offered(accept, cards[..i + 1]) == seen + [accept(cards[i]).value];
      DistinctlyStep(target, seen, accept(cards[i]).value);
    } else {
      assert stream + Offered(accept, cards[..i + 1]) == seen;
    }
  }

  lemma FullIgnoresTheRest(accept: Accept, cards: seq<Card>, i: nat, target: nat, stream: seq<Post>)
    requires i <= |cards| && |Distinctly(target, stream + Offered(accept, cards[..i]))| == target
    ensures Distinctly(target, stream + Offered(accept, cards))
        == Distinctly(target, stream + Offered(accept, cards[..i]))
  {
    var some, more := Offered(accept, cards[..i]), Offered(accept, cards[i..]);
    assert cards == cards[..i] + cards[i..];
    OfferedSplits(accept, cards[..i], cards[i..]);
    assert stream + (some + more) == (stream + some) + more;
    DistinctlyGrows(target, stream + some, more);
  }

  /** The cards of round `round`, up to the target. */
  method ReadCards(source: Source, pages: Pages, round: nat, target: nat, before: seq<Post>) returns (posts: seq<Post>)
    requires before == Held(target, Acceptor(source), pages, round) && |before| < target
    ensures posts == Held(target, Acceptor(source), pages, round + 1)
  {
    posts := before;
    var cards := pages(round).cards;
    ghost var accept, stream := Acceptor(source), Stream(Acceptor(source), pages, round);
    assert stream + [] == stream;
    for i := 0 to |cards|
      invariant |posts| < target && posts == Distinctly(target, stream + Offered(accept, cards[..i]))
    {
      var card := cards[i];
      OneMoreCard(accept, cards, i, target, stream);
      if card.promoted && !source.includePromoted { continue; }
      if card.pinned && !source.includePinned { continue; }
      if card.nsfw && !source.includeNsfw { continue; }
      var normalized := NormalizeCard(source, card);
      if normalized.None? || FirstSeen.Has(IdOf, posts, normalized.value.externalPostId) { continue; }
      posts := posts + [normalized.value];
      if |posts| >= target {
        FullIgnoresTheRest(accept, cards, i + 1, target, stream);
        return;
      }
    }
    assert cards[..|cards|] == cards;
  }

  datatype Verdict = GoOn | Finish | Refuse

  /** What follows a verdict on round `round`. */
  ghost predicate Justified(v: Verdict, l: Limits, c: Course, round: nat, stalls: nat, oldReddit: bool) {
    match v
    case GoOn => LoopOk(l, c, round + 1, stalls, oldReddit)
    case Finish => Reads(l, c, round + 1) && !FallbackRefused(c, round)
    case Refuse => Reads(l, c, round + 1) && FallbackRefused(c, round)
  }

  /** The part of a round after its cards: fall back, stop, or go on. */
  method Decide(l: Limits, source: Source, page: Round, second: Option<int>, round: nat, size: nat, sizeBefore: nat,
                stalls: nat, oldReddit: bool, ghost c: Course)
    returns (v: Verdict, stalls': nat, oldReddit': bool)
    requires LoopOk(l, c, round, stalls, oldReddit) && Growing(c) && round <= l.maxScrolls && l.maxStalls > 0
    requires c.size(round) == sizeBefore && c.size(round + 1) == size < l.target
    requires c.deadEnd(round) <==> page.onOldReddit && !page.nextVisible
    requires c.subreddit == HasSubreddit(source) && c.refused == Blocked(second)
    ensures Justified(v, l, c, round, stalls', oldReddit') && (v.Refuse? ==> Blocked(second))
  {
    AfterRound(l, c, round, stalls, oldReddit);
    stalls', oldReddit' := stalls, oldReddit;
    if size == 0 && round >= 1 && source.subreddit.Some? && source.subreddit.value != "" && !oldReddit {
      oldReddit', stalls' := true, 0;
      v := if second.Some? && second.value >= 400 then Refuse else GoOn;
      return;
    }
    stalls' := if size == sizeBefore then stalls + 1 else 0;
    v := if stalls' >= l.maxStalls || (page.onOldReddit && !page.nextVisible) then Finish else GoOn;
  }

  lemma LoopEnds(l: Limits, c: Course, round: nat, stalls: nat, oldReddit: bool)
    requires LoopOk(l, c, round, stalls, oldReddit)
    ensures round == l.maxScrolls + 1 ==> Reads(l, c, round) && !FallbackRefused(c, l.maxScrolls)
    ensures round <= l.maxScrolls && c.size(round + 1) >= l.target > 0 && Growing(c) ==>
      Reads(l, c, round + 1) && !FallbackRefused(c, round)
  {
  }

  lemma RoundIs(c: Course, target: nat, source: Source, pages: Pages, second: Option<int>, n: nat)
    requires Describes(c, target, source, pages, second)
    ensures c.size(n) == |Held(target, Acceptor(source), pages, n)|
    ensures c.size(n + 1) == |Held(target, Acceptor(source), pages, n + 1)|
    ensures c.deadEnd(n) <==> pages(n).onOldReddit && !pages(n).nextVisible
  {
    assert RoundDescribed(c, target, source, pages, n) && RoundDescribed(c, target, source, pages, n + 1);
  }

  /** The rounds of one source; `second` is the status of the fallback navigation. */
  method Scroll(l: Limits, source: Source, pages: Pages, second: Option<int>, ghost c: Course)
    returns (refused: bool, posts: seq<Post>, ghost rounds: nat)
    requires Describes(c, l.target, source, pages, second) && l.target > 0 && l.maxStalls > 0
    ensures Reads(l, c, rounds)
    ensures refused <==> FallbackRefused(c, rounds - 1)
    ensures refused ==> Blocked(second)
    ensures posts == Held(l.target, Acceptor(source), pages, rounds)
  {
    posts := [];
    var stalls, oldReddit, round := 0, false, 0;
    while round <= l.maxScrolls && |posts| < l.target
      invariant 0 <= round <= l.maxScrolls + 1 && |posts| < l.target
      invariant posts == Held(l.target, Acceptor(source), pages, round)
      invariant LoopOk(l, c, round, stalls, oldReddit)
    {
      var sizeBefore := |posts|;
      posts := ReadCards(source, pages, round, l.target, posts);
      RoundIs(c, l.target, source, pages, second, round);
      rounds := round + 1;
      LoopEnds(l, c, round, stalls, oldReddit);
      if |posts| >= l.target {
        return false, posts, rounds;
      }
      var verdict;
      verdict, stalls, oldReddit :=
        Decide(l, source, pages(round), second, round, |posts|, sizeBefore, stalls, oldReddit, c);
      if !verdict.GoOn? {
        return verdict.Refuse?, posts, rounds;
      }
      round := round + 1;
    }
    LoopEnds(l, c, round, stalls, oldReddit);
    refused, rounds := false, round;
  }

  /** The last of the rounds fell back to the old listing, and that navigation was answered with an error. */
  predicate FallbackFails(source: Source, pages: Pages, second: Option<int>, rounds: nat) {
    rounds >= 1 && FallsBack(CourseOf(source, pages, second), rounds - 1) && second.Some? && second.value >= 400
  }

  /** `first` and `second` are the statuses of the two navigations, `fetch` the detail pages. */
  method CollectSource(source: Source, pages: Pages, first: Option<int>, second: Option<int>, fetch: Fetch,
                       maxParallel: int)
    returns (outcome: Outcome, ghost rounds: nat)
    ensures Blocked(first) ==> outcome == Refused(first.value)
    ensures Blocked(first) <==> first.Some? && first.value >= 400
    ensures !Blocked(first) ==> (outcome.Refused? <==> FallbackFails(source, pages, second, rounds))
    ensures !Blocked(first) ==> Reads(LimitsOf(source), CourseOf(source, pages, second), rounds)
    ensures !Blocked(first) && FallbackRefused(CourseOf(source, pages, second), rounds - 1) ==>
      outcome == Refused(second.value)
    ensures !Blocked(first) && !FallbackRefused(CourseOf(source, pages, second), rounds - 1) ==>
      var held := Held(LimitsOf(source).target, Acceptor(source), pages, rounds);
      outcome == Collected(if source.detailEnabled then EnrichAll(held, fetch) else held)
    ensures outcome.Collected? ==> Gathered(source, pages, rounds, outcome.posts)
  {
    if first.Some? && first.value >= 400 {
      return Refused(first.value), 0;
    }
    CourseIsDescribed(source, pages, second);
    var refused, posts;
    refused, posts, rounds := Scroll(LimitsOf(source), source, pages, second, CourseOf(source, pages, second));
    if refused {
      return Refused(second.value), rounds;
    }
    if !source.detailEnabled || |posts| == 0 {
      HeldIsGathered(source, pages, rounds, posts);
      return Collected(posts), rounds;
    }
    var enriched := EnrichRedditPostDetails(posts, fetch, maxParallel);
    forall i | 0 <= i < |posts| ensures SamePost(posts[i], enriched[i]) { EnrichKeepsIdentity(posts, fetch, i); }
    HeldIsGathered(source, pages, rounds, enriched);
    outcome := Collected(enriched);
  }
}
