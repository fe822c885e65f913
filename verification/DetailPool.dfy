/** The pool of workers that fetches the details of the collected posts.
    The workers share a cursor and overwrite the results in place; each runs until it awaits its fetch, so one
    step of a worker stores the detail it waited for and claims the next index. */
module DetailPool {
  import opened Common
  import FirstSeen

  datatype Post = Post(
    externalPostId: string, canonicalUrl: string, subreddit: string, authorUsername: Option<string>, title: string,
    body: string, score: int, commentCount: int, postedAt: int,
    mediaUrls: seq<string>, topComments: seq<string>, detailFetched: bool)

  datatype Detail = Detail(body: Option<string>, mediaUrls: seq<string>, topComments: seq<string>)

  /** What the page of each post yields; None when fetching it throws. */
  type Fetch = nat -> Option<Detail>

  datatype Job = Waiting | Fetching(index: nat, post: Post) | Finished

  datatype State = State(cursor: nat, results: seq<Post>, jobs: seq<Job>)

  function Media(post: seq<string>, detail: seq<string>): seq<string> {
    var all := FirstSeen.Firsts((u: string) => u, post + detail);
    if |all| > 20 then all[..20] else all
  }

  function Enriched(post: Post, detail: Option<Detail>): Post {
    match detail
    case None => post.(detailFetched := false)
    case Some(d) =>
      post.(body := if d.body.Some? && d.body.value != "" then d.body.value else post.body,
            mediaUrls := Media(post.mediaUrls, d.mediaUrls), topComments := d.topComments, detailFetched := true)
  }

  /** The sequential meaning: every post enriched with its own detail. */
  function EnrichAll(posts: seq<Post>, fetch: Fetch): (r: seq<Post>)
    ensures |r| == |posts|
  {
    seq(|posts|, i requires 0 <= i < |posts| => Enriched(posts[i], fetch(i)))
  }

  function Concurrency(maxParallel: int): nat {
    var most := if maxParallel < 4 then maxParallel else 4;
    if most > 1 then most else 1
  }

  function Start(posts: seq<Post>, workers: nat): State {
    State(0, posts, seq(workers, w => Waiting))
  }

  predicate CanStep(s: State, w: nat) {
    w < |s.jobs| && !s.jobs[w].Finished? && (s.jobs[w].Fetching? ==> s.jobs[w].index < |s.results|)
  }

  function Stored(fetch: Fetch, s: State, w: nat): seq<Post>
    requires CanStep(s, w)
  {
    match s.jobs[w]
    case Fetching(i, post) => s.results[i := Enriched(post, fetch(i))]
    case _ => s.results
  }

  function Next(fetch: Fetch, s: State, w: nat): State {
    if !CanStep(s, w) then s
    else
      var results := Stored(fetch, s, w);
      if s.cursor < |results| then State(s.cursor + 1, results, s.jobs[w := Fetching(s.cursor, results[s.cursor])])
      else State(s.cursor, results, s.jobs[w := Finished])
  }

  function Exec(fetch: Fetch, s: State, run: seq<nat>): State
    decreases run
  {
    if run == [] then s else Exec(fetch, Next(fetch, s, run[0]), run[1..])
  }

  // ---------- the invariant ----------

  predicate Busy(s: State, i: int) {
    exists w :: 0 <= w < |s.jobs| && s.jobs[w].Fetching? && s.jobs[w].index == i
  }

  predicate JobsOk(posts: seq<Post>, s: State) {
    && (forall w | 0 <= w < |s.jobs| && s.jobs[w].Fetching? ::
          s.jobs[w].index < s.cursor <= |posts| && s.jobs[w].post == posts[s.jobs[w].index])
    && (forall v, w | 0 <= v < w < |s.jobs| && s.jobs[v].Fetching? && s.jobs[w].Fetching? ::
        s.jobs[v].index != s.jobs[w].index)
    && (forall w | 0 <= w < |s.jobs| && s.jobs[w].Finished? :: s.cursor == |posts|)
  }

  predicate ResultsOk(posts: seq<Post>, fetch: Fetch, s: State) {
    |s.results| == |posts| && s.cursor <= |posts|
    && forall i | 0 <= i < |posts| ::
         s.results[i] == if i < s.cursor && !Busy(s, i) then Enriched(posts[i], fetch(i)) else posts[i]
  }

  lemma StepBusy(fetch: Fetch, s: State, w: nat, i: nat)
    requires CanStep(s, w)
    requires forall v, w | 0 <= v < w < |s.jobs| && s.jobs[v].Fetching? && s.jobs[w].Fetching? ::
        s.jobs[v].index != s.jobs[w].index
    ensures var done := s.jobs[w].Fetching? && s.jobs[w].index == i;
      Busy(Next(fetch, s, w), i) <==> (i == s.cursor < |s.results|) || (Busy(s, i) && !done)
  {
    var t := Next(fetch, s, w);
    if Busy(s, i) {
      var v :| 0 <= v < |s.jobs| && s.jobs[v].Fetching? && s.jobs[v].index == i;
      assert v != w ==> t.jobs[v] == s.jobs[v];
    }
    if i == s.cursor < |s.results| { assert t.jobs[w].Fetching? && t.jobs[w].index == i; }
    if Busy(t, i) {
      var v :| 0 <= v < |t.jobs| && t.jobs[v].Fetching? && t.jobs[v].index == i;
      assert v != w ==> s.jobs[v] == t.jobs[v];
    }
  }

  lemma StepKeepsJobs(posts: seq<Post>, fetch: Fetch, s: State, w: nat)
    requires JobsOk(posts, s) && ResultsOk(posts, fetch, s)
    ensures JobsOk(posts, Next(fetch, s, w))
  {
    if CanStep(s, w) && s.cursor < |posts| {
      assert !Busy(s, s.cursor);
      assert Stored(fetch, s, w)[s.cursor] == posts[s.cursor];
    }
  }

  lemma StepKeepsResults(posts: seq<Post>, fetch: Fetch, s: State, w: nat)
    requires JobsOk(posts, s) && ResultsOk(posts, fetch, s)
    ensures ResultsOk(posts, fetch, Next(fetch, s, w))
  {
    var t := Next(fetch, s, w);
    if CanStep(s, w) {
      forall i: nat | i < |posts|
        ensures t.results[i] == if i < t.cursor && !Busy(t, i) then Enriched(posts[i], fetch(i)) else posts[i]
      {
        StepBusy(fetch, s, w, i);
        if s.jobs[w].Fetching? && s.jobs[w].index == i { assert Busy(s, i); }
      }
    }
  }

  lemma {:induction false} RunKeepsOk(posts: seq<Post>, fetch: Fetch, s: State, run: seq<nat>)
    requires JobsOk(posts, s) && ResultsOk(posts, fetch, s)
    ensures JobsOk(posts, Exec(fetch, s, run)) && ResultsOk(posts, fetch, Exec(fetch, s, run))
    decreases run
  {
    if run != [] {
      StepKeepsJobs(posts, fetch, s, run[0]);
      StepKeepsResults(posts, fetch, s, run[0]);
      RunKeepsOk(posts, fetch, Next(fetch, s, run[0]), run[1..]);
    }
  }

  // ---------- every interleaving computes the sequential map ----------

  predicate AllFinished(s: State) {
    forall w | 0 <= w < |s.jobs| :: s.jobs[w].Finished?
  }

  /** In whatever order the workers take their steps, once all have finished the results are those of the
      sequential map; and at any earlier moment every result is either the untouched post or its enrichment. */
  lemma EveryInterleavingIsTheMap(posts: seq<Post>, fetch: Fetch, maxParallel: int, run: seq<nat>)
    ensures var s := Exec(fetch, Start(posts, Concurrency(maxParallel)), run);
      && (AllFinished(s) ==> s.results == EnrichAll(posts, fetch))
      && |s.results| == |posts|
      && (forall i | 0 <= i < |posts| :: s.results[i] in {posts[i], EnrichAll(posts, fetch)[i]})
  {
    var s0 := Start(posts, Concurrency(maxParallel));
    RunKeepsOk(posts, fetch, s0, run);
    JobsRemain(fetch, s0, run);
    var s := Exec(fetch, s0, run);
    if AllFinished(s) {
      assert s.jobs[0].Finished?;
      assert forall i :: !Busy(s, i);
    }
  }

  lemma {:induction false} JobsRemain(fetch: Fetch, s: State, run: seq<nat>)
    ensures |Exec(fetch, s, run).jobs| == |s.jobs|
    decreases run
  {
    if run != [] { JobsRemain(fetch, Next(fetch, s, run[0]), run[1..]); }
  }

  function BusySet(s: State): set<nat> {
    set w | 0 <= w < |s.jobs| && s.jobs[w].Fetching? :: s.jobs[w].index
  }

  lemma {:induction false} BusyBound(jobs: seq<Job>, r: nat, c: seq<Post>)
    ensures |BusySet(State(r, c, jobs))| <= |jobs|
  {
    if jobs == [] {
      assert BusySet(State(r, c, jobs)) == {};
    } else {
      var n := |jobs| - 1;
      BusyBound(jobs[..n], r, c);
      var before := BusySet(State(r, c, jobs[..n]));
      assert BusySet(State(r, c, jobs)) == if jobs[n].Fetching? then before + {jobs[n].index} else before;
    }
  }

  /** One to four workers are started as configured, otherwise the nearer of one and four. */
  lemma ConcurrencyIs(maxParallel: int)
    ensures 1 <= Concurrency(maxParallel) <= 4
    ensures 1 <= maxParallel <= 4 ==> Concurrency(maxParallel) == maxParallel
    ensures maxParallel < 1 ==> Concurrency(maxParallel) == 1
    ensures maxParallel > 4 ==> Concurrency(maxParallel) == 4
  {
  }

  /** Whatever the configured parallelism, at most four fetches are in flight, each for another post. */
  lemma AtMostFourInFlight(posts: seq<Post>, fetch: Fetch, maxParallel: int, run: seq<nat>)
    ensures var s := Exec(fetch, Start(posts, Concurrency(maxParallel)), run);
      && |BusySet(s)| <= Concurrency(maxParallel) <= 4
      && (forall v, w | 0 <= v < w < |s.jobs| && s.jobs[v].Fetching? && s.jobs[w].Fetching? ::
          s.jobs[v].index != s.jobs[w].index)
  {
    var s0 := Start(posts, Concurrency(maxParallel));
    RunKeepsOk(posts, fetch, s0, run);
    JobsRemain(fetch, s0, run);
    var s := Exec(fetch, s0, run);
    BusyBound(s.jobs, s.cursor, s.results);
  }

  // ---------- every index is claimed once ----------

  datatype Claim = Claim(worker: nat, index: nat)

  /** The claims a run makes. */
  function Claims(fetch: Fetch, s: State, run: seq<nat>): seq<Claim>
    decreases run
  {
    if run == [] then []
    else
      var t := Next(fetch, s, run[0]);
      (if t.cursor > s.cursor then [Claim(run[0], s.cursor)] else []) + Claims(fetch, t, run[1..])
  }

  lemma {:induction false} ClaimsCount(fetch: Fetch, s: State, run: seq<nat>)
    ensures var cs := Claims(fetch, s, run);
      |cs| == Exec(fetch, s, run).cursor - s.cursor && forall n | 0 <= n < |cs| :: cs[n].index == s.cursor + n
    decreases run
  {
    if run != [] { ClaimsCount(fetch, Next(fetch, s, run[0]), run[1..]); }
  }

  function Unfinished(jobs: seq<Job>): nat {
    if jobs == [] then 0 else (if jobs[0].Finished? then 0 else 1) + Unfinished(jobs[1..])
  }

  /** A run in which only workers that have not finished take steps. */
  predicate Effective(fetch: Fetch, s: State, run: seq<nat>)
    decreases run
  {
    run == [] || (CanStep(s, run[0]) && Effective(fetch, Next(fetch, s, run[0]), run[1..]))
  }

  lemma {:induction false} UnfinishedUpdate(jobs: seq<Job>, w: nat, job: Job)
    requires w < |jobs| && !jobs[w].Finished?
    ensures Unfinished(jobs[w := job]) == Unfinished(jobs) - if job.Finished? then 1 else 0
  {
    if w > 0 {
      UnfinishedUpdate(jobs[1..], w - 1, job);
      assert jobs[w := job][1..] == jobs[1..][w - 1 := job];
    } else {
      assert jobs[0 := job][1..] == jobs[1..];
    }
  }

  lemma {:induction false} StepsAdd(posts: seq<Post>, fetch: Fetch, s: State, run: seq<nat>)
    requires JobsOk(posts, s) && ResultsOk(posts, fetch, s) && Effective(fetch, s, run)
    ensures var t := Exec(fetch, s, run);
      |run| == (t.cursor - s.cursor) + (Unfinished(s.jobs) - Unfinished(t.jobs))
    decreases run
  {
    if run != [] {
      StepKeepsJobs(posts, fetch, s, run[0]);
      StepKeepsResults(posts, fetch, s, run[0]);
      UnfinishedUpdate(s.jobs, run[0], Next(fetch, s, run[0]).jobs[run[0]]);
      StepsAdd(posts, fetch, Next(fetch, s, run[0]), run[1..]);
    }
  }

  lemma {:induction false} UnfinishedEnds(jobs: seq<Job>)
    ensures Unfinished(jobs) <= |jobs|
    ensures (forall w | 0 <= w < |jobs| :: jobs[w].Finished?) ==> Unfinished(jobs) == 0
    ensures (forall w | 0 <= w < |jobs| :: !jobs[w].Finished?) ==> Unfinished(jobs) == |jobs|
  {
    if jobs != [] { UnfinishedEnds(jobs[1..]); }
  }

  /** The indices are claimed in order, none twice; when all workers have finished every index has been
      claimed; and every run in which workers keep stepping ends after one step per post and worker. */
  lemma EachIndexClaimedOnce(posts: seq<Post>, fetch: Fetch, maxParallel: int, run: seq<nat>)
    requires Effective(fetch, Start(posts, Concurrency(maxParallel)), run)
    ensures var s0 := Start(posts, Concurrency(maxParallel));
      var s, claims := Exec(fetch, s0, run), Claims(fetch, s0, run);
      && |claims| <= |posts| && (forall n | 0 <= n < |claims| :: claims[n].index == n)
      && |run| <= |posts| + Concurrency(maxParallel)
      && (AllFinished(s) ==> |claims| == |posts| && |run| == |posts| + Concurrency(maxParallel))
  {
    var s0 := Start(posts, Concurrency(maxParallel));
    RunKeepsOk(posts, fetch, s0, run);
    JobsRemain(fetch, s0, run);
    ClaimsCount(fetch, s0, run);
    StepsAdd(posts, fetch, s0, run);
    UnfinishedEnds(s0.jobs);
    UnfinishedEnds(Exec(fetch, s0, run).jobs);
    assert AllFinished(Exec(fetch, s0, run)) ==> Exec(fetch, s0, run).jobs[0].Finished?;
  }

  // ---------- the enrichment itself ----------

  /** Enriching keeps the order and the identity of the posts and never empties a body; the media are the
      distinct ones of post and page, at most twenty, those of the post first. */
  lemma EnrichKeepsIdentity(posts: seq<Post>, fetch: Fetch, i: nat)
    requires i < |posts|
    ensures var p, q := posts[i], EnrichAll(posts, fetch)[i];
      && q == p.(body := q.body, mediaUrls := q.mediaUrls, topComments := q.topComments,
                 detailFetched := q.detailFetched)
      && (q.detailFetched <==> fetch(i).Some?)
      && (p.body != "" ==> q.body != "")
      && (fetch(i).None? ==> q == p.(detailFetched := false))
      && (fetch(i).Some? ==> q.topComments == fetch(i).value.topComments)
      && (fetch(i).Some? ==>
            if fetch(i).value.body in {None, Some("")} then q.body == p.body else fetch(i).value.body == Some(q.body))
      && (q.detailFetched ==> |q.mediaUrls| <= 20 && FirstSeen.Distinct((u: string) => u, q.mediaUrls))
      && (q.detailFetched ==> forall u | u in q.mediaUrls :: u in p.mediaUrls || u in fetch(i).value.mediaUrls)
      && (q.detailFetched ==> Media(p.mediaUrls, []) <= q.mediaUrls)
  {
    if fetch(i).Some? {
      var p, d := posts[i], fetch(i).value;
      MediaFacts(p.mediaUrls, d.mediaUrls);
    }
  }

  lemma MediaFacts(post: seq<string>, detail: seq<string>)
    ensures |Media(post, detail)| <= 20 && FirstSeen.Distinct((u: string) => u, Media(post, detail))
    ensures forall u | u in Media(post, detail) :: u in post || u in detail
    ensures |Media(post, detail)| < 20 ==> forall u | u in post || u in detail :: u in Media(post, detail)
    ensures Media(post, []) <= Media(post, detail)
  {
    var same := (u: string) => u;
    assert post + [] == post;
    FirstSeen.FirstsGrow(same, post, detail);
    var all := FirstSeen.Firsts(same, post + detail);
    FirstSeen.FirstsKeys(same, post + detail);
    forall u | u in Media(post, detail) ensures u in post || u in detail {
      var i :| 0 <= i < |Media(post, detail)| && Media(post, detail)[i] == u;
      assert all[i] == u;
      assert FirstSeen.Has(same, all, u);
      assert FirstSeen.Has(same, post + detail, u);
    }
    forall u | (u in post || u in detail) && |Media(post, detail)| < 20 ensures u in Media(post, detail) {
      assert u in post + detail;
      var i :| 0 <= i < |post + detail| && (post + detail)[i] == u;
      assert FirstSeen.Has(same, post + detail, u);
      assert FirstSeen.Has(same, all, u);
    }
  }

  // ---------- the pool ----------

  /** What the workers share. */
  class WorkerPool {
    const fetch: Fetch
    const results: array<Post>
    const jobs: array<Job>
    var cursor: nat

    ghost function View(): State
      reads this, results, jobs
    {
      State(cursor, results[..], jobs[..])
    }

    constructor (posts: seq<Post>, fetch: Fetch, maxParallel: int)
      ensures View() == Start(posts, Concurrency(maxParallel)) && this.fetch == fetch
      ensures fresh(results) && fresh(jobs)
    {
      var most := if maxParallel < 4 then maxParallel else 4;
      var concurrency := if 1 < most then most else 1;
      this.fetch := fetch;
      results := new Post[|posts|](i requires 0 <= i < |posts| => posts[i]);
      jobs := new Job[concurrency](w => Waiting);
      cursor := 0;
    }

    /** One worker runs from its await to the next, or to its end. */
    method Resume(w: nat)
      requires CanStep(View(), w)
      modifies this, results, jobs
      ensures View() == Next(fetch, old(View()), w)
    {
      if jobs[w].Fetching? {
        var index, post := jobs[w].index, jobs[w].post;
        results[index] := Enriched(post, fetch(index));
      }
      assert results[..] == Stored(fetch, old(View()), w);
      if cursor < results.Length {
        jobs[w] := Fetching(cursor, results[cursor]);
        cursor := cursor + 1;
      } else {
        jobs[w] := Finished;
      }
    }
  }

  /** Runs the workers until all have finished; `w` is whichever worker the event loop resumes next. */
  method EnrichRedditPostDetails(posts: seq<Post>, fetch: Fetch, maxParallel: int) returns (results: seq<Post>)
    ensures results == EnrichAll(posts, fetch)
  {
    var pool := new WorkerPool(posts, fetch, maxParallel);
    while exists w :: 0 <= w < pool.jobs.Length && !pool.jobs[w].Finished?
      invariant fresh(pool) && fresh(pool.results) && fresh(pool.jobs)
      invariant pool.fetch == fetch && pool.jobs.Length > 0
      invariant JobsOk(posts, pool.View()) && ResultsOk(posts, fetch, pool.View())
      decreases |posts| - pool.cursor, Unfinished(pool.jobs[..])
    {
      var w :| 0 <= w < pool.jobs.Length && !pool.jobs[w].Finished?;
      StepKeepsJobs(posts, fetch, pool.View(), w);
      StepKeepsResults(posts, fetch, pool.View(), w);
      UnfinishedUpdate(pool.jobs[..], w, Finished);
      pool.Resume(w);
    }
    results := pool.results[..];
    assert pool.View().jobs[0].Finished?;
    assert forall i :: !Busy(pool.View(), i);
  }
}
