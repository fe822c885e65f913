/** Recording collected posts: each record is upserted by its external id, its discovery row is looked up, then
    upserted, and the post is queued for classification if the lookup found no row. */
module DiscoveryLedger {
  import FirstSeen

  type Workspace = nat
  type Source = nat
  type PostId = string
  type Pid = nat

  /** A discovery row's unique key. */
  datatype Key = Key(workspace: Workspace, post: PostId, source: Source)

  datatype Job = Job(workspace: Workspace, post: PostId)

  function JobOf(k: Key): Job { Job(k.workspace, k.post) }

  // ---------- one batch at a time ----------

  /** `rest` stands for the other columns, which both writers overwrite alike. */
  datatype Record = Record(post: PostId, body: string, rest: nat)

  datatype Row = Row(body: string, rest: nat)

  /** Ingestion keeps the stored body when the new one is empty, the collector overwrites it. */
  datatype Writer = Ingest | Collector

  function Upserted(w: Writer, posts: map<PostId, Row>, r: Record): map<PostId, Row> {
    var keep := w.Ingest? && r.body == "" && r.post in posts;
    posts[r.post := Row(if keep then posts[r.post].body else r.body, r.rest)]
  }

  /** The posts after the batch. */
  function Written(w: Writer, posts: map<PostId, Row>, batch: seq<Record>): map<PostId, Row> {
    if batch == [] then posts else Upserted(w, Written(w, posts, batch[..|batch| - 1]), batch[|batch| - 1])
  }

  function KeysOf(workspace: Workspace, source: Source, batch: seq<Record>): seq<Key> {
    seq(|batch|, i requires 0 <= i < |batch| => Key(workspace, batch[i].post, source))
  }

  /** The keys of the batch that had no row, each once, in order. */
  function New(rows: set<Key>, keys: seq<Key>): seq<Key> {
    if keys == [] then []
    else
      var k, before := keys[|keys| - 1], New(rows, keys[..|keys| - 1]);
      if k in rows || k in before then before else before + [k]
  }

  lemma {:induction false} NewKeys(rows: set<Key>, keys: seq<Key>)
    ensures FirstSeen.Distinct((k: Key) => k, New(rows, keys))
    ensures forall k :: k in New(rows, keys) <==> k in keys && k !in rows
  {
    if keys != [] {
      var n := |keys| - 1;
      NewKeys(rows, keys[..n]);
      assert keys == keys[..n] + [keys[n]];
    }
  }

  lemma {:induction false} SetOfDistinct(ks: seq<Key>)
    requires FirstSeen.Distinct((k: Key) => k, ks)
    ensures |set k | k in ks| == |ks|
  {
    if ks != [] {
      var n := |ks| - 1;
      SetOfDistinct(ks[..n]);
      assert ks == ks[..n] + [ks[n]];
      assert (set k | k in ks) == (set k | k in ks[..n]) + {ks[n]};
      assert ks[n] !in ks[..n];
    }
  }

  /** The rows a batch adds are as many as its new keys. */
  lemma RowsGrowByNew(rows: set<Key>, keys: seq<Key>)
    ensures |rows + set k | k in keys| == |rows| + |New(rows, keys)|
  {
    NewKeys(rows, keys);
    SetOfDistinct(New(rows, keys));
    var added := set k | k in New(rows, keys);
    assert rows + (set k | k in keys) == rows + added;
    assert rows !! added;
  }

  /** Record `i` is the batch's last word on the post, and has no body. */
  predicate EndsEmpty(batch: seq<Record>, post: PostId, i: int) {
    && 0 <= i < |batch| && batch[i].post == post && batch[i].body == ""
    && forall j | i < j < |batch| :: batch[j].post != post
  }

  /** A stored body is lost exactly when the collector's last record of the post has none; ingestion never loses one. */
  lemma {:induction false} BodyIsLostIff(w: Writer, posts: map<PostId, Row>, batch: seq<Record>, post: PostId)
    requires post in posts && posts[post].body != ""
    ensures post in Written(w, posts, batch)
    ensures Written(w, posts, batch)[post].body == "" <==> w.Collector? && exists i :: EndsEmpty(batch, post, i)
  {
    if batch != [] {
      var n := |batch| - 1;
      BodyIsLostIff(w, posts, batch[..n], post);
      if batch[n].post == post {
        assert batch[n].body == "" ==> EndsEmpty(batch, post, n);
        assert forall i | EndsEmpty(batch, post, i) :: i == n;
      } else {
        forall i ensures EndsEmpty(batch, post, i) <==> EndsEmpty(batch[..n], post, i) {
          assert 0 <= i < n ==> forall j | i <= j < n :: batch[j] == batch[..n][j];
        }
      }
    }
  }

  /** Record `i` is the last one of the post in the batch. */
  predicate LastOf(batch: seq<Record>, post: PostId, i: int) {
    0 <= i < |batch| && batch[i].post == post && forall j | i < j < |batch| :: batch[j].post != post
  }

  /** Record `i` is the last one of the post that has a body. */
  predicate LastBody(batch: seq<Record>, post: PostId, i: int) {
    && 0 <= i < |batch| && batch[i].post == post && batch[i].body != ""
    && forall j | i < j < |batch| && batch[j].post == post :: batch[j].body == ""
  }

  predicate Mentions(batch: seq<Record>, post: PostId) {
    exists i :: 0 <= i < |batch| && batch[i].post == post
  }

  /** What the batch leaves of a post it mentions: the other columns of its last record; the body of its last record
      if the collector writes, of its last record with a body if ingestion does, which otherwise keeps the old one. */
  ghost predicate Latest(w: Writer, posts: map<PostId, Row>, batch: seq<Record>, post: PostId, row: Row) {
    && (exists i :: LastOf(batch, post, i) && row.rest == batch[i].rest && (w.Collector? ==> row.body == batch[i].body))
    && (w.Ingest? ==>
          && (forall i | LastBody(batch, post, i) :: row.body == batch[i].body)
          && ((forall i :: !LastBody(batch, post, i)) ==> row.body == if post in posts then posts[post].body else ""))
  }

  lemma LastOfLonger(batch: seq<Record>, post: PostId, i: int)
    requires batch != []
    ensures batch[|batch| - 1].post != post ==> (LastOf(batch, post, i) <==> LastOf(batch[..|batch| - 1], post, i))
    ensures batch[|batch| - 1].post != post || batch[|batch| - 1].body == "" ==>
        (LastBody(batch, post, i) <==> LastBody(batch[..|batch| - 1], post, i))
  {
    var n := |batch| - 1;
    assert forall j | 0 <= j < n :: batch[..n][j] == batch[j];
  }

  /** Posts that the batch does not mention stay as they are; the others get the latest the batch says of them. */
  lemma {:induction false} WrittenIsLatest(w: Writer, posts: map<PostId, Row>, batch: seq<Record>, post: PostId)
    ensures post in Written(w, posts, batch) <==> post in posts || Mentions(batch, post)
    ensures !Mentions(batch, post) && post in posts ==> Written(w, posts, batch)[post] == posts[post]
    ensures Mentions(batch, post) ==> Latest(w, posts, batch, post, Written(w, posts, batch)[post])
  {
    if batch != [] {
      var n := |batch| - 1;
      WrittenIsLatest(w, posts, batch[..n], post);
      forall i
        ensures batch[n].post != post ==> (LastOf(batch, post, i) <==> LastOf(batch[..n], post, i))
        ensures batch[n].post != post || batch[n].body == "" ==>
            (LastBody(batch, post, i) <==> LastBody(batch[..n], post, i))
      {
        LastOfLonger(batch, post, i);
      }
      if batch[n].post == post {
        assert LastOf(batch, post, n);
        if batch[n].body != "" { assert LastBody(batch, post, n); }
        assert !Mentions(batch[..n], post) ==> forall i :: !LastBody(batch[..n], post, i);
      }
    }
  }

  // ---------- requests that overlap ----------

  /** A request between its lookup and its row (with what the lookup found), or between its row and its enqueue. */
  datatype Stage = Found(key: Key, existing: bool) | Owes(key: Key)

  datatype State = State(rows: set<Key>, asked: seq<Key>, requests: map<Pid, Stage>)

  datatype Action = Find(pid: Pid, key: Key) | Store(pid: Pid) | Ask(pid: Pid)

  const INITIAL := State({}, [], map[])

  function Next(s: State, a: Action): State {
    match a
    case Find(pid, key) => if pid in s.requests then s else s.(requests := s.requests[pid := Found(key, key in s.rows)])
    case Store(pid) =>
      if pid in s.requests && s.requests[pid].Found? then
        var r := s.requests[pid];
        State(s.rows + {r.key}, s.asked, if r.existing then s.requests - {pid} else s.requests[pid := Owes(r.key)])
      else s
    case Ask(pid) =>
      if pid in s.requests && s.requests[pid].Owes? then
        State(s.rows, s.asked + [s.requests[pid].key], s.requests - {pid})
      else s
  }

  function Exec(s: State, run: seq<Action>): State
    decreases run
  {
    if run == [] then s else Exec(Next(s, run[0]), run[1..])
  }

  ghost predicate Owed(s: State, k: Key) {
    exists pid :: pid in s.requests && s.requests[pid] == Owes(k)
  }

  ghost predicate Covered(s: State) {
    && (forall k | k in s.rows :: k in s.asked || Owed(s, k))
    && (forall k | k in s.asked :: k in s.rows)
    && (forall pid | pid in s.requests && (s.requests[pid].Owes? || s.requests[pid].existing) ::
        s.requests[pid].key in s.rows)
  }

  lemma StepKeepsCovered(s: State, a: Action)
    requires Covered(s)
    ensures Covered(Next(s, a))
  {
    var t := Next(s, a);
    forall k | k in t.rows ensures k in t.asked || Owed(t, k) {
      if k in s.rows && k !in s.asked {
        assert Owed(s, k);
        var pid :| pid in s.requests && s.requests[pid] == Owes(k);
        if pid != a.pid || !a.Ask? { assert t.requests[pid] == Owes(k); }
      } else if k !in s.rows {
        assert t.requests[a.pid] == Owes(k);
      }
    }
  }

  lemma {:induction false} RunKeepsCovered(s: State, run: seq<Action>)
    requires Covered(s)
    ensures Covered(Exec(s, run))
    decreases run
  {
    if run != [] {
      StepKeepsCovered(s, run[0]);
      RunKeepsCovered(Next(s, run[0]), run[1..]);
    }
  }

  /** However requests interleave, every discovery row has been enqueued or some request is about to enqueue it;
      once no request is open, exactly the rows have been enqueued. */
  lemma EveryRowIsEnqueued(run: seq<Action>)
    ensures var s := Exec(INITIAL, run);
      && (forall k | k in s.rows :: k in s.asked || Owed(s, k))
      && (s.requests == map[] ==> forall k :: k in s.rows <==> k in s.asked)
  {
    RunKeepsCovered(INITIAL, run);
    var s := Exec(INITIAL, run);
    forall k | s.requests == map[] ensures k in s.rows <==> k in s.asked {
      assert !Owed(s, k);
    }
  }

  /** A request with nothing in between leaves its row there, enqueues it exactly if it was new, and is over. */
  lemma RequestAlone(s: State, pid: Pid, k: Key)
    requires pid !in s.requests
    ensures var t := Next(Next(Next(s, Find(pid, k)), Store(pid)), Ask(pid));
      t.requests == s.requests && t.rows == s.rows + {k} && t.asked == if k in s.rows then s.asked else s.asked + [k]
  {
    assert Next(Next(Next(s, Find(pid, k)), Store(pid)), Ask(pid)).requests == s.requests;
  }

  // ---------- enqueued twice, exactly after a race ----------

  predicate Once(asked: seq<Key>) {
    forall i, j | 0 <= i < j < |asked| :: asked[i] != asked[j]
  }

  /** How often the row was enqueued. */
  function Times(asked: seq<Key>, k: Key): nat {
    if asked == [] then 0 else Times(asked[..|asked| - 1], k) + if asked[|asked| - 1] == k then 1 else 0
  }

  /** The open requests whose lookup found no row `k`. */
  function Claimants(s: State, k: Key): set<Pid> {
    set p | p in s.requests && s.requests[p] in {Found(k, false), Owes(k)}
  }

  /** A lookup of `k` that finds no row while an earlier one that found none has not stored it yet. */
  ghost predicate RacesAt(s: State, a: Action, k: Key) {
    a.Find? && a.key == k && a.pid !in s.requests && k !in s.rows && Claimants(s, k) != {}
  }

  ghost predicate Races(s: State, run: seq<Action>, k: Key)
    decreases run
  {
    run != [] && (RacesAt(s, run[0], k) || Races(Next(s, run[0]), run[1..], k))
  }

  /** Every lookup that finds no row leads to one enqueue; only after a race (`raced`) are there two. */
  ghost predicate Tally(s: State, k: Key, raced: bool) {
    var total := |Claimants(s, k)| + Times(s.asked, k);
    if raced then total >= 2 else total <= 1
  }

  lemma {:induction false} TimesIsZero(asked: seq<Key>, k: Key)
    ensures Times(asked, k) == 0 <==> k !in asked
  {
    if asked != [] {
      TimesIsZero(asked[..|asked| - 1], k);
      assert asked == asked[..|asked| - 1] + [asked[|asked| - 1]];
    }
  }

  lemma FindTallies(s: State, pid: Pid, key: Key, k: Key, raced: bool)
    requires Covered(s) && Tally(s, k, raced) && pid !in s.requests
    ensures Tally(Next(s, Find(pid, key)), k, raced || RacesAt(s, Find(pid, key), k))
  {
    var t := Next(s, Find(pid, key));
    if key == k && k !in s.rows {
      assert Claimants(t, k) == Claimants(s, k) + {pid};
      TimesIsZero(s.asked, k);
    } else {
      assert Claimants(t, k) == Claimants(s, k);
    }
  }

  lemma StoreTallies(s: State, pid: Pid, k: Key)
    requires pid in s.requests && s.requests[pid].Found?
    ensures Claimants(Next(s, Store(pid)), k) == Claimants(s, k)
  {
  }

  lemma AskTallies(s: State, pid: Pid, k: Key)
    requires pid in s.requests && s.requests[pid].Owes?
    ensures var t := Next(s, Ask(pid));
      |Claimants(t, k)| + Times(t.asked, k) == |Claimants(s, k)| + Times(s.asked, k)
  {
    var t := Next(s, Ask(pid));
    assert t.asked[..|s.asked|] == s.asked;
    assert Claimants(t, k) == Claimants(s, k) - {pid};
    assert pid in Claimants(s, k) <==> s.requests[pid].key == k;
  }

  lemma {:induction false} RunTallies(s: State, run: seq<Action>, k: Key, raced: bool)
    requires Covered(s) && Tally(s, k, raced)
    ensures Tally(Exec(s, run), k, raced || Races(s, run, k))
    decreases run
  {
    if run != [] {
      var a := run[0];
      StepKeepsCovered(s, a);
      match a {
        case Find(pid, key) => if pid !in s.requests { FindTallies(s, pid, key, k, raced); }
        case Store(pid) => if pid in s.requests && s.requests[pid].Found? { StoreTallies(s, pid, k); }
        case Ask(pid) => if pid in s.requests && s.requests[pid].Owes? { AskTallies(s, pid, k); }
      }
      RunTallies(Next(s, a), run[1..], k, raced || RacesAt(s, a, k));
    }
  }

  /** Once no request on `k` is open, the row was enqueued more than once if and only if some lookup raced: it found
      no row between another lookup that found none and its row. Overlaps of any other kind are harmless. */
  lemma EnqueuedTwiceIffRaced(run: seq<Action>, k: Key)
    ensures var s := Exec(INITIAL, run);
      && (Claimants(s, k) == {} ==> (Times(s.asked, k) > 1 <==> Races(INITIAL, run, k)))
      && (!Races(INITIAL, run, k) ==> Times(s.asked, k) <= 1)
  {
    assert Claimants(INITIAL, k) == {};
    RunTallies(INITIAL, run, k, false);
  }

  // ---------- at most one request on a row at a time ----------

  function OpenOn(s: State, k: Key): set<Pid> {
    set p | p in s.requests && s.requests[p].key == k
  }

  /** At most `n` requests on `k` are open at any moment of the run, however many there are on other rows. */
  ghost predicate AtMost(n: nat, k: Key, s: State, run: seq<Action>)
    decreases run
  {
    |OpenOn(s, k)| <= n && (run == [] || AtMost(n, k, Next(s, run[0]), run[1..]))
  }

  lemma RaceNeedsTwo(s: State, a: Action, k: Key)
    requires RacesAt(s, a, k)
    ensures |OpenOn(Next(s, a), k)| >= 2
  {
    assert OpenOn(Next(s, a), k) == OpenOn(s, k) + {a.pid};
    var p :| p in Claimants(s, k);
    assert p in OpenOn(s, k);
    assert |OpenOn(s, k)| == |OpenOn(s, k) - {p}| + 1;
  }

  lemma {:induction false} AloneNeverRaces(s: State, run: seq<Action>, k: Key)
    requires AtMost(1, k, s, run)
    ensures !Races(s, run, k)
    decreases run
  {
    if run != [] {
      if RacesAt(s, run[0], k) { RaceNeedsTwo(s, run[0], k); }
      AloneNeverRaces(Next(s, run[0]), run[1..], k);
    }
  }

  function Race(k: Key): seq<Action> {
    [Find(0, k), Find(1, k), Store(0), Store(1), Ask(0), Ask(1)]
  }

  function RaceState(k: Key, n: nat): State
    requires n <= 6
  {
    if n == 0 then INITIAL
    else if n == 1 then State({}, [], map[0 := Found(k, false)])
    else if n == 2 then State({}, [], map[0 := Found(k, false), 1 := Found(k, false)])
    else if n == 3 then State({k}, [], map[0 := Owes(k), 1 := Found(k, false)])
    else if n == 4 then State({k}, [], map[0 := Owes(k), 1 := Owes(k)])
    else if n == 5 then State({k}, [k], map[1 := Owes(k)])
    else State({k}, [k, k], map[])
  }

  lemma RaceStep(k: Key, n: nat)
    requires n < 6
    ensures Next(RaceState(k, n), Race(k)[n]) == RaceState(k, n + 1)
  {
    var t := Next(RaceState(k, n), Race(k)[n]);
    assert t.requests == RaceState(k, n + 1).requests;
  }

  lemma RaceIsSmall(k: Key, n: nat)
    requires n <= 6
    ensures |OpenOn(RaceState(k, n), k)| <= 2
  {
    var open := OpenOn(RaceState(k, n), k);
    assert open <= {0, 1};
    assert |open| <= |{0, 1} - ({0, 1} - open)|;
  }

  /** Two requests that both look before either stores enqueue the row twice. */
  lemma {:induction false} RaceEnqueuesTwice(k: Key, n: nat)
    requires n <= 6
    ensures AtMost(2, k, RaceState(k, n), Race(k)[n..])
    ensures Exec(RaceState(k, n), Race(k)[n..]) == State({k}, [k, k], map[])
    decreases 6 - n
  {
    RaceIsSmall(k, n);
    if n < 6 {
      RaceStep(k, n);
      assert Race(k)[n..][0] == Race(k)[n] && Race(k)[n..][1..] == Race(k)[n + 1..];
      RaceEnqueuesTwice(k, n + 1);
    }
  }

  lemma {:induction false} AtMostGrows(n: nat, m: nat, k: Key, s: State, run: seq<Action>)
    requires n <= m && AtMost(n, k, s, run)
    ensures AtMost(m, k, s, run)
    decreases run
  {
    if run != [] { AtMostGrows(n, m, k, Next(s, run[0]), run[1..]); }
  }

  ghost predicate EnqueuedOnce(n: nat, k: Key) {
    forall run | AtMost(n, k, INITIAL, run) :: Times(Exec(INITIAL, run).asked, k) <= 1
  }

  /** Row by row: it is enqueued at most once in every run with at most `n` requests on it at a time, exactly when `n`
      is at most 1. */
  lemma EnqueuedOnceIffSequential(n: nat, k: Key)
    ensures EnqueuedOnce(n, k) <==> n <= 1
  {
    if n <= 1 {
      forall run | AtMost(n, k, INITIAL, run) ensures Times(Exec(INITIAL, run).asked, k) <= 1 {
        AtMostGrows(n, 1, k, INITIAL, run);
        AloneNeverRaces(INITIAL, run, k);
        EnqueuedTwiceIffRaced(run, k);
      }
    } else {
      RaceEnqueuesTwice(k, 0);
      assert Race(k)[0..] == Race(k);
      AtMostGrows(2, n, k, INITIAL, Race(k));
      assert [k, k][..1] == [k] && [k][..0] == [];
      assert Times([k], k) == 1 && Times([k, k], k) == 2;
    }
  }

  // ---------- the service ----------

  /** `jobs`: the classification jobs, a job id is used once. `asked`: the rows whose creation enqueued, in order. */
  datatype Tables = Tables(posts: map<PostId, Row>, rows: set<Key>, jobs: set<Job>, asked: seq<Key>)

  function Recorded(w: Writer, st: Tables, workspace: Workspace, source: Source, r: Record): Tables {
    var k := Key(workspace, r.post, source);
    if k in st.rows then st.(posts := Upserted(w, st.posts, r))
    else Tables(Upserted(w, st.posts, r), st.rows + {k}, st.jobs + {JobOf(k)}, st.asked + [k])
  }

  function RecordedAll(w: Writer, st: Tables, workspace: Workspace, source: Source, batch: seq<Record>): Tables {
    if batch == [] then st
    else Recorded(w, RecordedAll(w, st, workspace, source, batch[..|batch| - 1]), workspace, source, batch[|batch| - 1])
  }

  lemma KeysStep(workspace: Workspace, source: Source, batch: seq<Record>)
    requires batch != []
    ensures var keys, n := KeysOf(workspace, source, batch), |batch| - 1;
      keys[..n] == KeysOf(workspace, source, batch[..n]) && keys[n] == Key(workspace, batch[n].post, source)
  {
  }

  lemma {:induction false} RowsRecorded(w: Writer, st: Tables, workspace: Workspace, source: Source,
                                        batch: seq<Record>, k: Key)
    ensures k in RecordedAll(w, st, workspace, source, batch).rows
        <==> k in st.rows || k in KeysOf(workspace, source, batch)
  {
    if batch != [] {
      var keys, n := KeysOf(workspace, source, batch), |batch| - 1;
      RowsRecorded(w, st, workspace, source, batch[..n], k);
      KeysStep(workspace, source, batch);
      assert k in keys <==> k in keys[..n] || k == keys[n];
    }
  }

  lemma {:induction false} PostsRecorded(w: Writer, st: Tables, workspace: Workspace, source: Source,
                                         batch: seq<Record>)
    ensures RecordedAll(w, st, workspace, source, batch).posts == Written(w, st.posts, batch)
  {
    if batch != [] { PostsRecorded(w, st, workspace, source, batch[..|batch| - 1]); }
  }

  lemma {:induction false} AskedRecorded(w: Writer, st: Tables, workspace: Workspace, source: Source,
                                         batch: seq<Record>)
    ensures RecordedAll(w, st, workspace, source, batch).asked
        == st.asked + New(st.rows, KeysOf(workspace, source, batch))
  {
    if batch == [] {
      assert st.asked + [] == st.asked;
    } else {
      var n := |batch| - 1;
      var k := Key(workspace, batch[n].post, source);
      AskedRecorded(w, st, workspace, source, batch[..n]);
      KeysStep(workspace, source, batch);
      RowsRecorded(w, st, workspace, source, batch[..n], k);
      NewKeys(st.rows, KeysOf(workspace, source, batch[..n]));
      var before := New(st.rows, KeysOf(workspace, source, batch[..n]));
      assert st.asked + (before + [k]) == (st.asked + before) + [k];
    }
  }

  /** What a batch leaves: the posts written in order, a row for every key, an enqueue for every new key. */
  lemma BatchLeaves(w: Writer, st: Tables, workspace: Workspace, source: Source, batch: seq<Record>)
    ensures var keys, t := KeysOf(workspace, source, batch), RecordedAll(w, st, workspace, source, batch);
      && t.posts == Written(w, st.posts, batch)
      && t.rows == st.rows + (set k | k in keys)
      && t.asked == st.asked + New(st.rows, keys)
      && |t.asked| - |st.asked| == |t.rows| - |st.rows|
  {
    PostsRecorded(w, st, workspace, source, batch);
    AskedRecorded(w, st, workspace, source, batch);
    forall k ensures k in RecordedAll(w, st, workspace, source, batch).rows
                     <==> k in st.rows + set x | x in KeysOf(workspace, source, batch)
    {
      RowsRecorded(w, st, workspace, source, batch, k);
    }
    RowsGrowByNew(st.rows, KeysOf(workspace, source, batch));
  }

  lemma OneMoreRecord(w: Writer, st: Tables, workspace: Workspace, source: Source, batch: seq<Record>, i: nat)
    requires i < |batch|
    ensures RecordedAll(w, st, workspace, source, batch[..i + 1])
            == Recorded(w, RecordedAll(w, st, workspace, source, batch[..i]), workspace, source, batch[i])
  {
    assert batch[..i + 1][..i] == batch[..i];
  }

  predicate Discovered(rows: set<Key>, j: Job) {
    exists k :: k in rows && k.workspace == j.workspace && k.post == j.post
  }

  /** Enqueues and rows correspond one to one, and a post is queued in a workspace when some source found it there. */
  ghost predicate Consistent(st: Tables) {
    && Once(st.asked) && (forall k :: k in st.asked <==> k in st.rows)
    && (forall j :: j in st.jobs <==> Discovered(st.rows, j))
  }

  lemma RecordKeepsConsistent(w: Writer, st: Tables, workspace: Workspace, source: Source, r: Record)
    requires Consistent(st)
    ensures Consistent(Recorded(w, st, workspace, source, r))
  {
    var k := Key(workspace, r.post, source);
    if k !in st.rows {
      forall j ensures j in st.jobs + {JobOf(k)} <==> Discovered(st.rows + {k}, j) {
        if Discovered(st.rows, j) {
          var x :| x in st.rows && x.workspace == j.workspace && x.post == j.post;
          assert x in st.rows + {k};
        }
        if j == JobOf(k) { assert k in st.rows + {k}; }
      }
    }
  }

  /** Batch after batch, by either writer. */
  lemma {:induction false} BatchKeepsConsistent(w: Writer, st: Tables, workspace: Workspace, source: Source,
                                                batch: seq<Record>)
    requires Consistent(st)
    ensures Consistent(RecordedAll(w, st, workspace, source, batch))
  {
    if batch != [] {
      var n := |batch| - 1;
      BatchKeepsConsistent(w, st, workspace, source, batch[..n]);
      RecordKeepsConsistent(w, RecordedAll(w, st, workspace, source, batch[..n]), workspace, source, batch[n]);
    }
  }

  class Ledger {
    var posts: map<PostId, Row>
    var rows: set<Key>
    var jobs: set<Job>
    ghost var asked: seq<Key>

    ghost function View(): Tables
      reads this
    {
      Tables(posts, rows, jobs, asked)
    }

    constructor ()
      ensures View() == Tables(map[], {}, {}, []) && Consistent(View())
    {
      posts, rows, jobs, asked := map[], {}, {}, [];
    }

    /** One record; the result says whether its discovery is new. */
    method Persist(w: Writer, workspace: Workspace, source: Source, r: Record) returns (isNew: bool)
      modifies this
      ensures View() == Recorded(w, old(View()), workspace, source, r)
      ensures isNew == (Key(workspace, r.post, source) !in old(rows))
    {
      var body := r.body;
      if w.Ingest? && r.body == "" && r.post in posts {
        body := posts[r.post].body;
      }
      posts := posts[r.post := Row(body, r.rest)];
      var k := Key(workspace, r.post, source);
      var existing := k in rows;
      rows := rows + {k};
      if existing {
        assert rows == old(rows);
        return false;
      }
      jobs := jobs + {Job(workspace, r.post)};
      asked := asked + [k];
      return true;
    }

    /** The loop over a batch of posts; `valid` says which pass validation. The first that does not ends the
        request there and leaves what was recorded before. */
    method RecordPosts(workspace: Workspace, source: Source, batch: seq<Record>, valid: nat -> bool,
                       ghost before: Tables)
      returns (done: bool, discovered: nat, refreshed: nat)
      requires View() == before
      modifies this
      ensures discovered + refreshed <= |batch| && (forall i: nat | i < discovered + refreshed :: valid(i))
      ensures if done then discovered + refreshed == |batch| else !valid(discovered + refreshed)
      ensures View() == RecordedAll(Ingest, before, workspace, source, batch[..discovered + refreshed])
      ensures discovered == |asked| - |before.asked|
    {
      discovered, refreshed, done := 0, 0, true;
      for i := 0 to |batch|
        invariant discovered + refreshed == i && done
        invariant forall j: nat | j < i :: valid(j)
        invariant View() == RecordedAll(Ingest, before, workspace, source, batch[..i])
        invariant discovered == |asked| - |before.asked|
      {
        if !valid(i) {
          done := false;
          break;
        }
        OneMoreRecord(Ingest, before, workspace, source, batch, i);
        var isNew := Persist(Ingest, workspace, source, batch[i]);
        if isNew {
          discovered := discovered + 1;
        } else {
          refreshed := refreshed + 1;
        }
      }
    }

    /** The posts of one request, and its counts. */
    method IngestPosts(workspace: Workspace, source: Source, batch: seq<Record>, valid: nat -> bool)
      returns (done: bool, discovered: nat, refreshed: nat)
      modifies this
      ensures discovered + refreshed <= |batch| && (forall i: nat | i < discovered + refreshed :: valid(i))
      ensures if done then discovered + refreshed == |batch| else !valid(discovered + refreshed)
      ensures View() == RecordedAll(Ingest, old(View()), workspace, source, batch[..discovered + refreshed])
      ensures discovered == |rows| - |old(rows)| == |asked| - |old(asked)|
    {
      ghost var before := View();
      done, discovered, refreshed := RecordPosts(workspace, source, batch, valid, before);
      BatchLeaves(Ingest, before, workspace, source, batch[..discovered + refreshed]);
    }
  }
}
