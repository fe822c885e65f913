/** The fixed-window request counter in Redis, for one policy.
    A request reads the clock, increments the counter of its window, sets the key's expiry if it was the first,
    and answers; other requests and the passing of time may come between these commands. Times are
    milliseconds on one clock; a key is gone once the clock is past its expiry. */
module RateLimit {
  import opened Common

  type Subject = nat
  type Pid = nat

  datatype Policy = Policy(limit: nat, windowSeconds: nat)

  predicate ValidPolicy(p: Policy) { p.windowSeconds >= 1 }

  function Width(p: Policy): nat { 1000 * p.windowSeconds }

  function Quotient(a: nat, b: nat): nat
    requires b >= 1
  {
    a / b
  }

  /** Math.floor(now / 1000 / windowSeconds). */
  function WindowId(p: Policy, now: nat): nat
    requires ValidPolicy(p)
  {
    Quotient(now, Width(p))
  }

  datatype Key = Key(subject: Subject, window: nat)

  /** `expiresAt` None: no expiry has been set yet. */
  datatype Counter = Counter(count: nat, expiresAt: Option<nat>)

  datatype Request = Reading(key: Key, readAt: nat) | Counted(key: Key, current: nat)

  /** An increment: which request's key, when its clock was read, and the value INCR returned. */
  datatype Hit = Hit(key: Key, readAt: nat, current: nat)

  datatype State = State(now: nat, counters: map<Key, Counter>, requests: map<Pid, Request>, hits: seq<Hit>)

  datatype Action =
    | Wait(ms: nat)
    | ReadClock(pid: Pid, subject: Subject)
    | Increment(pid: Pid)
    | SetExpiry(pid: Pid)

  const INITIAL := State(0, map[], map[], [])

  predicate Alive(c: Counter, now: nat) { c.expiresAt.Some? ==> now <= c.expiresAt.value }

  /** The count INCR finds: an expired or missing key counts from zero. */
  function Count(s: State, k: Key): nat {
    if k in s.counters && Alive(s.counters[k], s.now) then s.counters[k].count else 0
  }

  function Expiry(s: State, k: Key): Option<nat> {
    if k in s.counters && Alive(s.counters[k], s.now) then s.counters[k].expiresAt else None
  }

  function AfterIncrement(s: State, pid: Pid, key: Key, readAt: nat): State {
    var current := Count(s, key) + 1;
    State(s.now, s.counters[key := Counter(current, Expiry(s, key))], s.requests[pid := Counted(key, current)],
          s.hits + [Hit(key, readAt, current)])
  }

  function AfterExpire(p: Policy, s: State, pid: Pid, key: Key, current: nat): State {
    var counters :=
      if current == 1 && key in s.counters && Alive(s.counters[key], s.now)
      then s.counters[key := s.counters[key].(expiresAt := Some(s.now + Width(p)))]
      else s.counters;
    s.(counters := counters, requests := s.requests - {pid})
  }

  function Next(p: Policy, s: State, a: Action): State
    requires ValidPolicy(p)
  {
    match a
    case Wait(ms) => s.(now := s.now + ms)
    case ReadClock(pid, subject) =>
      if pid in s.requests then s
      else s.(requests := s.requests[pid := Reading(Key(subject, WindowId(p, s.now)), s.now)])
    case Increment(pid) =>
      if pid in s.requests && s.requests[pid].Reading?
          then AfterIncrement(s, pid, s.requests[pid].key, s.requests[pid].readAt)
      else s
    case SetExpiry(pid) =>
      if pid in s.requests && s.requests[pid].Counted?
          then AfterExpire(p, s, pid, s.requests[pid].key, s.requests[pid].current)
      else s
  }

  function Exec(p: Policy, s: State, run: seq<Action>): State
    requires ValidPolicy(p)
    decreases run
  {
    if run == [] then s else Exec(p, Next(p, s, run[0]), run[1..])
  }

  // ---------- counting what was allowed ----------

  function Hits(hits: seq<Hit>, k: Key): nat {
    if hits == [] then 0 else Hits(hits[..|hits| - 1], k) + if hits[|hits| - 1].key == k then 1 else 0
  }

  /** The requests of the key answered with allowed = true. */
  function Allowed(p: Policy, hits: seq<Hit>, k: Key): nat {
    if hits == [] then 0
    else
      var h := hits[|hits| - 1];
      Allowed(p, hits[..|hits| - 1], k) + if h.key == k && h.current <= p.limit then 1 else 0
  }

  /** The requests of a subject allowed at clock readings in [from, to). */
  function AllowedIn(p: Policy, hits: seq<Hit>, subject: Subject, from: nat, to: nat): nat {
    if hits == [] then 0
    else
      var h := hits[|hits| - 1];
      AllowedIn(p, hits[..|hits| - 1], subject, from, to)
      + if h.key.subject == subject && from <= h.readAt < to && h.current <= p.limit then 1 else 0
  }

  function Min(a: nat, b: nat): nat { if a < b then a else b }

  // ---------- windows ----------

  lemma QuotientBounds(a: nat, b: nat)
    requires b >= 1
    ensures Quotient(a, b) * b <= a < (Quotient(a, b) + 1) * b
  {
    assert a == (a / b) * b + a % b;
  }

  lemma MulMonotone(x: nat, y: nat, b: nat)
    requires x <= y
    ensures x * b <= y * b
  {
  }

  lemma QuotientMonotone(a: nat, c: nat, b: nat)
    requires b >= 1 && a <= c
    ensures Quotient(a, b) <= Quotient(c, b)
  {
    QuotientBounds(a, b);
    QuotientBounds(c, b);
    if Quotient(a, b) > Quotient(c, b) { MulMonotone(Quotient(c, b) + 1, Quotient(a, b), b); }
  }

  lemma QuotientIs(a: nat, b: nat, q: nat)
    requires b >= 1 && q * b <= a < (q + 1) * b
    ensures Quotient(a, b) == q
  {
    QuotientBounds(a, b);
    if Quotient(a, b) < q { MulMonotone(Quotient(a, b) + 1, q, b); }
    if Quotient(a, b) > q { MulMonotone(q + 1, Quotient(a, b), b); }
  }

  /** Window number `window` lasts `windowSeconds` seconds from `window` times as many after the epoch. */
  lemma WindowsAreAligned(p: Policy, now: nat, window: nat)
    requires ValidPolicy(p)
    ensures WindowId(p, now) == window
       <==> window * (1000 * p.windowSeconds) <= now < (window + 1) * (1000 * p.windowSeconds)
  {
    QuotientBounds(now, Width(p));
    if window * Width(p) <= now < (window + 1) * Width(p) { QuotientIs(now, Width(p), window); }
  }

  /** The end of a window. */
  function WindowEnd(p: Policy, window: nat): nat { (window + 1) * Width(p) }

  /** `at` is before the end of its own window, and one width on it is past the end of every window up to its own. */
  lemma InOwnWindow(p: Policy, at: nat)
    requires ValidPolicy(p)
    ensures at < WindowEnd(p, WindowId(p, at))
    ensures forall w: nat | w <= WindowId(p, at) :: WindowEnd(p, w) <= at + Width(p)
  {
    QuotientBounds(at, Width(p));
    forall w: nat | w <= WindowId(p, at) ensures WindowEnd(p, w) <= at + Width(p) {
      MulMonotone(w, WindowId(p, at), Width(p));
    }
  }

  // ---------- a key outlives its window ----------

  ghost predicate Lasting(p: Policy, s: State)
    requires ValidPolicy(p)
  {
    && (forall k | k in s.counters && s.counters[k].expiresAt.Some? ::
        WindowEnd(p, k.window) <= s.counters[k].expiresAt.value)
    && (forall pid | pid in s.requests :: s.requests[pid].key.window <= WindowId(p, s.now))
  }

  lemma StepKeepsLasting(p: Policy, s: State, a: Action)
    requires ValidPolicy(p) && Lasting(p, s)
    ensures Lasting(p, Next(p, s, a))
  {
    InOwnWindow(p, s.now);
    if a.Wait? { QuotientMonotone(s.now, s.now + a.ms, Width(p)); }
  }

  lemma {:induction false} RunKeepsLasting(p: Policy, s: State, run: seq<Action>)
    requires ValidPolicy(p) && Lasting(p, s)
    ensures Lasting(p, Exec(p, s, run))
    decreases run
  {
    if run != [] {
      StepKeepsLasting(p, s, run[0]);
      RunKeepsLasting(p, Next(p, s, run[0]), run[1..]);
    }
  }

  /** However requests interleave and are delayed, a key never expires inside its own window. */
  lemma KeyOutlivesItsWindow(p: Policy, run: seq<Action>, k: Key)
    requires ValidPolicy(p)
    ensures var s := Exec(p, INITIAL, run);
      k in s.counters && WindowId(p, s.now) <= k.window ==> Alive(s.counters[k], s.now)
  {
    RunKeepsLasting(p, INITIAL, run);
    var s := Exec(p, INITIAL, run);
    InOwnWindow(p, s.now);
    if WindowId(p, s.now) <= k.window { MulMonotone(WindowId(p, s.now) + 1, k.window + 1, Width(p)); }
  }

  /** A request has made the first increment of the key and is about to set its expiry. */
  ghost predicate AboutToExpire(s: State, k: Key) {
    exists pid :: pid in s.requests && s.requests[pid] == Counted(k, 1)
  }

  /** Every key has an expiry, at most one window ahead, or gets it from a request on its way. */
  ghost predicate Expiring(p: Policy, s: State) {
    forall k | k in s.counters ::
      if s.counters[k].expiresAt.None? then AboutToExpire(s, k)
      else s.counters[k].expiresAt.value <= s.now + 1000 * p.windowSeconds
  }

  lemma StepKeepsExpiring(p: Policy, s: State, a: Action)
    requires ValidPolicy(p) && Expiring(p, s)
    ensures Expiring(p, Next(p, s, a))
  {
    var t := Next(p, s, a);
    forall k | k in t.counters && t.counters[k].expiresAt.None? ensures AboutToExpire(t, k) {
      if k in s.counters && s.counters[k].expiresAt.None? {
        var pid :| pid in s.requests && s.requests[pid] == Counted(k, 1);
        assert t.requests[pid] == Counted(k, 1);
      } else {
        assert t.requests[a.pid] == Counted(k, 1);
      }
    }
  }

  lemma {:induction false} RunKeepsExpiring(p: Policy, s: State, run: seq<Action>)
    requires ValidPolicy(p) && Expiring(p, s)
    ensures Expiring(p, Exec(p, s, run))
    decreases run
  {
    if run != [] {
      StepKeepsExpiring(p, s, run[0]);
      RunKeepsExpiring(p, Next(p, s, run[0]), run[1..]);
    }
  }

  /** However requests interleave, no key is left without an expiry: either a request is about to set it, or it lies at
      most windowSeconds seconds ahead. */
  lemma KeysExpire(p: Policy, run: seq<Action>, k: Key)
    requires ValidPolicy(p) && k in Exec(p, INITIAL, run).counters
    ensures var s := Exec(p, INITIAL, run);
      if s.counters[k].expiresAt.None? then AboutToExpire(s, k)
      else s.counters[k].expiresAt.value <= s.now + 1000 * p.windowSeconds
  {
    RunKeepsExpiring(p, INITIAL, run);
  }

  // ---------- when a window's limit holds ----------

  /** The action increments key `k` and finds it expired, so it counts from zero again. */
  predicate ExpiredAt(s: State, a: Action, k: Key) {
    && a.Increment? && a.pid in s.requests && s.requests[a.pid].Reading? && s.requests[a.pid].key == k
    && k in s.counters && !Alive(s.counters[k], s.now)
  }

  /** Some increment of the run finds key `k` expired. */
  predicate FindsExpired(p: Policy, s: State, run: seq<Action>, k: Key)
    requires ValidPolicy(p)
    decreases run
  {
    run != [] && (ExpiredAt(s, run[0], k) || FindsExpired(p, Next(p, s, run[0]), run[1..], k))
  }

  /** `late`: the key was found expired. Then its counter has forgotten some hits. */
  predicate Tally(p: Policy, s: State, k: Key, late: bool) {
    var hits, allowed := Hits(s.hits, k), Allowed(p, s.hits, k);
    && (k !in s.counters ==> hits == 0 && !late)
    && (k in s.counters ==> 1 <= s.counters[k].count <= hits && (s.counters[k].count == hits <==> !late))
    && (hits <= p.limit ==> allowed == hits)
    && (hits > p.limit ==> if late && p.limit >= 1 then allowed > p.limit else allowed == p.limit)
  }

  lemma IncrementTallies(p: Policy, s: State, pid: Pid, key: Key, readAt: nat, k: Key, late: bool)
    requires Tally(p, s, k, late)
    ensures var expired := key == k && k in s.counters && !Alive(s.counters[k], s.now);
      Tally(p, AfterIncrement(s, pid, key, readAt), k, late || expired)
  {
    var t := AfterIncrement(s, pid, key, readAt);
    assert t.hits[..|s.hits|] == s.hits;
  }

  lemma StepTallies(p: Policy, s: State, a: Action, k: Key, late: bool)
    requires ValidPolicy(p) && Tally(p, s, k, late)
    ensures Tally(p, Next(p, s, a), k, late || ExpiredAt(s, a, k))
  {
    if a.Increment? && a.pid in s.requests && s.requests[a.pid].Reading? {
      IncrementTallies(p, s, a.pid, s.requests[a.pid].key, s.requests[a.pid].readAt, k, late);
    }
  }

  lemma {:induction false} RunTallies(p: Policy, s: State, run: seq<Action>, k: Key, late: bool)
    requires ValidPolicy(p) && Tally(p, s, k, late)
    ensures Tally(p, Exec(p, s, run), k, late || FindsExpired(p, s, run, k))
    decreases run
  {
    if run != [] {
      StepTallies(p, s, run[0], k, late);
      RunTallies(p, Next(p, s, run[0]), run[1..], k, late || ExpiredAt(s, run[0], k));
    }
  }

  /** Unless one of its increments finds the key expired, exactly the first `limit` requests of a window are
      allowed. With such an increment more than `limit` are, as soon as there are more. */
  lemma AllowedPerWindow(p: Policy, run: seq<Action>, k: Key)
    requires ValidPolicy(p)
    ensures var hits := Exec(p, INITIAL, run).hits; var late := FindsExpired(p, INITIAL, run, k);
      && (!late ==> Allowed(p, hits, k) == Min(Hits(hits, k), p.limit))
      && (Allowed(p, hits, k) > p.limit <==> late && Hits(hits, k) > p.limit >= 1)
  {
    RunTallies(p, INITIAL, run, k, false);
  }

  // ---------- increments that are in time ----------

  /** Every increment of key `k` happens at the end of its window at the latest, however long it waited. */
  predicate InTime(p: Policy, s: State, run: seq<Action>, k: Key)
    requires ValidPolicy(p)
    decreases run
  {
    run == [] || (OnTime(p, s, run[0], k) && InTime(p, Next(p, s, run[0]), run[1..], k))
  }

  predicate OnTime(p: Policy, s: State, a: Action, k: Key) {
    a.Increment? && a.pid in s.requests && s.requests[a.pid].Reading? && s.requests[a.pid].key == k ==>
      s.now <= WindowEnd(p, k.window)
  }

  lemma {:induction false} InTimeFrom(p: Policy, s: State, run: seq<Action>, k: Key)
    requires ValidPolicy(p) && Lasting(p, s) && InTime(p, s, run, k)
    ensures !FindsExpired(p, s, run, k)
    decreases run
  {
    if run != [] {
      StepKeepsLasting(p, s, run[0]);
      InTimeFrom(p, Next(p, s, run[0]), run[1..], k);
    }
  }

  /** An increment up to the end of its window never finds the key expired. */
  lemma InTimeNeverExpired(p: Policy, run: seq<Action>, k: Key)
    requires ValidPolicy(p) && InTime(p, INITIAL, run, k)
    ensures !FindsExpired(p, INITIAL, run, k)
  {
    InTimeFrom(p, INITIAL, run, k);
  }

  /** The hits carry the window of their clock reading. */
  ghost predicate Reads(p: Policy, s: State)
    requires ValidPolicy(p)
  {
    && (forall pid | pid in s.requests && s.requests[pid].Reading? ::
          s.requests[pid].readAt <= s.now && s.requests[pid].key.window == WindowId(p, s.requests[pid].readAt))
    && (forall i | 0 <= i < |s.hits| :: s.hits[i].key.window == WindowId(p, s.hits[i].readAt))
  }

  lemma StepKeepsReads(p: Policy, s: State, a: Action)
    requires ValidPolicy(p) && Reads(p, s)
    ensures Reads(p, Next(p, s, a))
  {
  }

  lemma {:induction false} RunKeepsReads(p: Policy, s: State, run: seq<Action>)
    requires ValidPolicy(p) && Reads(p, s)
    ensures Reads(p, Exec(p, s, run))
    decreases run
  {
    if run != [] {
      StepKeepsReads(p, s, run[0]);
      RunKeepsReads(p, Next(p, s, run[0]), run[1..]);
    }
  }

  /** No request waits longer than `delay` between reading the clock and its increment. */
  ghost predicate Within(p: Policy, delay: nat, s: State, run: seq<Action>)
    requires ValidPolicy(p)
    decreases run
  {
    Fresh(delay, s) && (run == [] || Within(p, delay, Next(p, s, run[0]), run[1..]))
  }

  ghost predicate Fresh(delay: nat, s: State) {
    forall pid | pid in s.requests && s.requests[pid].Reading? :: s.now <= s.requests[pid].readAt + delay
  }

  lemma {:induction false} OneMillisecondIsInTime(p: Policy, s: State, run: seq<Action>, k: Key)
    requires ValidPolicy(p) && Reads(p, s) && Within(p, 1, s, run)
    ensures InTime(p, s, run, k)
    decreases run
  {
    if run != [] {
      var a := run[0];
      if a.Increment? && a.pid in s.requests && s.requests[a.pid].Reading? {
        InOwnWindow(p, s.requests[a.pid].readAt);
      }
      StepKeepsReads(p, s, a);
      OneMillisecondIsInTime(p, Next(p, s, a), run[1..], k);
    }
  }

  // ---------- any interval ----------

  /** The requests allowed in the windows first, first + 1, ..., first + n - 1. */
  function AllowedOver(p: Policy, hits: seq<Hit>, subject: Subject, first: nat, n: nat): nat {
    if n == 0 then 0
    else AllowedOver(p, hits, subject, first, n - 1) + Allowed(p, hits, Key(subject, first + n - 1))
  }

  lemma {:induction false} OneMoreHit(p: Policy, hits: seq<Hit>, subject: Subject, first: nat, n: nat)
    requires hits != []
    ensures var h, before := hits[|hits| - 1], hits[..|hits| - 1];
      AllowedOver(p, hits, subject, first, n) == AllowedOver(p, before, subject, first, n)
      + if h.key.subject == subject && first <= h.key.window < first + n && h.current <= p.limit then 1 else 0
  {
    if n > 0 { OneMoreHit(p, hits, subject, first, n - 1); }
  }

  lemma {:induction false} EmptyOver(p: Policy, subject: Subject, first: nat, n: nat)
    ensures AllowedOver(p, [], subject, first, n) == 0
  {
    if n > 0 { EmptyOver(p, subject, first, n - 1); }
  }

  lemma {:induction false} IntervalWithinWindows(p: Policy, hits: seq<Hit>, subject: Subject, from: nat, to: nat,
                                                 first: nat, n: nat)
    requires forall i | 0 <= i < |hits| && from <= hits[i].readAt < to :: first <= hits[i].key.window < first + n
    ensures AllowedIn(p, hits, subject, from, to) <= AllowedOver(p, hits, subject, first, n)
  {
    if hits == [] {
      EmptyOver(p, subject, first, n);
    } else {
      IntervalWithinWindows(p, hits[..|hits| - 1], subject, from, to, first, n);
      OneMoreHit(p, hits, subject, first, n);
    }
  }

  lemma {:induction false} OverAtMost(p: Policy, hits: seq<Hit>, subject: Subject, first: nat, n: nat)
    requires forall w: nat | first <= w < first + n :: Allowed(p, hits, Key(subject, w)) <= p.limit
    ensures AllowedOver(p, hits, subject, first, n) <= n * p.limit
  {
    if n > 0 {
      OverAtMost(p, hits, subject, first, n - 1);
      assert n * p.limit == (n - 1) * p.limit + p.limit;
    }
  }

  lemma IntervalMeetsWindows(p: Policy, from: nat, n: nat, at: nat)
    requires ValidPolicy(p) && from <= at < from + n * Width(p)
    ensures WindowId(p, from) <= WindowId(p, at) < WindowId(p, from) + n + 1
  {
    var w, q := Width(p), WindowId(p, from);
    QuotientMonotone(from, at, w);
    QuotientBounds(from, w);
    QuotientBounds(at, w);
    assert (q + 1) * w + n * w == (q + 1 + n) * w;
    if WindowId(p, at) >= q + n + 1 { MulMonotone(q + n + 1, WindowId(p, at), w); }
  }

  /** An interval as long as n windows, open at its end, sees at most (n + 1) * limit allowed requests of a subject,
      unless one of the windows it meets has an increment that finds its key expired. */
  lemma AllowedPerInterval(p: Policy, run: seq<Action>, subject: Subject, from: nat, n: nat)
    requires ValidPolicy(p)
    requires forall w: nat | WindowId(p, from) <= w <= WindowId(p, from) + n ::
        !FindsExpired(p, INITIAL, run, Key(subject, w))
    ensures AllowedIn(p, Exec(p, INITIAL, run).hits, subject, from, from + n * Width(p)) <= (n + 1) * p.limit
  {
    RunKeepsReads(p, INITIAL, run);
    var hits := Exec(p, INITIAL, run).hits;
    forall i | 0 <= i < |hits| && from <= hits[i].readAt < from + n * Width(p)
      ensures WindowId(p, from) <= hits[i].key.window < WindowId(p, from) + n + 1
    {
      IntervalMeetsWindows(p, from, n, hits[i].readAt);
    }
    forall w: nat | WindowId(p, from) <= w < WindowId(p, from) + (n + 1)
      ensures Allowed(p, hits, Key(subject, w)) <= p.limit
    {
      AllowedPerWindow(p, run, Key(subject, w));
    }
    IntervalWithinWindows(p, hits, subject, from, from + n * Width(p), WindowId(p, from), n + 1);
    OverAtMost(p, hits, subject, WindowId(p, from), n + 1);
  }

  // ---------- bursts ----------

  lemma {:induction false} RunsCompose(p: Policy, delay: nat, s: State, a: seq<Action>, b: seq<Action>)
    requires ValidPolicy(p)
    ensures Exec(p, s, a + b) == Exec(p, Exec(p, s, a), b)
    ensures Within(p, delay, s, a) && Within(p, delay, Exec(p, s, a), b) ==> Within(p, delay, s, a + b)
    decreases a
  {
    if a == [] {
      assert a + b == b;
    } else {
      assert (a + b)[1..] == a[1..] + b;
      RunsCompose(p, delay, Next(p, s, a[0]), a[1..], b);
    }
  }

  /** One request, start to end. */
  function Whole(): seq<Action> { [ReadClock(0, 0), Increment(0), SetExpiry(0)] }

  lemma OneRequest(p: Policy, s: State, key: Key)
    requires ValidPolicy(p) && s.requests == map[] && key == Key(0, WindowId(p, s.now))
    ensures var current := Count(s, key) + 1;
      var expiry := if current == 1 then Some(s.now + Width(p)) else Expiry(s, key);
      Exec(p, s, Whole())
      == State(s.now, s.counters[key := Counter(current, expiry)], map[], s.hits + [Hit(key, s.now, current)])
    ensures Within(p, 0, s, Whole())
  {
    var s1 := Next(p, s, ReadClock(0, 0));
    var s2 := Next(p, s1, Increment(0));
    var s3 := Next(p, s2, SetExpiry(0));
    var current := Count(s, key) + 1;
    assert s1.requests == map[0 := Reading(key, s.now)];
    assert s2 == AfterIncrement(s1, 0, key, s.now);
    assert s2.requests == map[0 := Counted(key, current)];
    assert s3.requests == map[];
    if current == 1 {
      assert s3.counters == s.counters[key := Counter(1, Some(s.now + Width(p)))];
    }
    assert Whole()[1..] == [Increment(0), SetExpiry(0)] && Whole()[1..][1..] == [SetExpiry(0)]
        && Whole()[1..][1..][1..] == [];
    assert Exec(p, s2, [SetExpiry(0)]) == s3;
    assert Exec(p, s1, [Increment(0), SetExpiry(0)]) == s3;
    assert Within(p, 0, s3, []) && Within(p, 0, s2, [SetExpiry(0)]) && Within(p, 0, s1, [Increment(0), SetExpiry(0)]);
  }

  function Burst(m: nat): seq<Action> {
    if m == 0 then [] else Burst(m - 1) + Whole()
  }

  /** The hits of `m` requests of a fresh key. */
  function Served(key: Key, at: nat, m: nat): seq<Hit> {
    if m == 0 then [] else Served(key, at, m - 1) + [Hit(key, at, m)]
  }

  lemma {:induction false} BurstServes(p: Policy, s: State, key: Key, m: nat)
    requires ValidPolicy(p) && s.requests == map[] && key == Key(0, WindowId(p, s.now)) && key !in s.counters
    ensures var counter := Counter(m, Some(s.now + Width(p)));
      Exec(p, s, Burst(m))
      == State(s.now, if m == 0 then s.counters else s.counters[key := counter], map[], s.hits + Served(key, s.now, m))
    ensures Within(p, 0, s, Burst(m))
  {
    if m == 0 {
      assert s.hits + [] == s.hits;
    } else {
      BurstServes(p, s, key, m - 1);
      var t := Exec(p, s, Burst(m - 1));
      OneRequest(p, t, key);
      RunsCompose(p, 0, s, Burst(m - 1), Whole());
      assert Count(t, key) == m - 1;
      assert (s.hits + Served(key, s.now, m - 1)) + [Hit(key, s.now, m)] == s.hits + Served(key, s.now, m);
    }
  }

  lemma {:induction false} ServedAllowed(p: Policy, hits: seq<Hit>, key: Key, at: nat, m: nat, from: nat, to: nat)
    requires m <= p.limit
    ensures Allowed(p, hits + Served(key, at, m), key) == Allowed(p, hits, key) + m
    ensures AllowedIn(p, hits + Served(key, at, m), key.subject, from, to)
            == AllowedIn(p, hits, key.subject, from, to) + if from <= at < to then m else 0
  {
    var all := hits + Served(key, at, m);
    if m == 0 {
      assert all == hits;
    } else {
      ServedAllowed(p, hits, key, at, m - 1, from, to);
      assert all[..|all| - 1] == hits + Served(key, at, m - 1);
    }
  }

  // ---------- the interval bound is attained ----------

  /** A full burst at the last millisecond of window 0, and one at the start of each of the next `n` windows. */
  function Bursts(p: Policy, n: nat): seq<Action>
    requires ValidPolicy(p)
  {
    if n == 0 then [Wait(Width(p) - 1)] + Burst(p.limit)
    else Bursts(p, n - 1) + ([Wait(Gap(p, n))] + Burst(p.limit))
  }

  /** From the burst before to the `n`-th. */
  function Gap(p: Policy, n: nat): nat { if n == 1 then 1 else Width(p) }

  function BurstTime(p: Policy, n: nat): nat
    requires ValidPolicy(p)
  {
    if n == 0 then Width(p) - 1 else n * Width(p)
  }

  lemma WaitThenBurst(p: Policy, s: State, ms: nat, key: Key)
    requires ValidPolicy(p) && s.requests == map[] && key == Key(0, WindowId(p, s.now + ms)) && key !in s.counters
    ensures var t, at := Exec(p, s, [Wait(ms)] + Burst(p.limit)), s.now + ms;
      && t.now == at && t.requests == map[] && t.hits == s.hits + Served(key, at, p.limit)
      && forall k | k in t.counters :: k == key || k in s.counters
    ensures Within(p, 0, s, [Wait(ms)] + Burst(p.limit))
  {
    var t := s.(now := s.now + ms);
    assert [Wait(ms)][1..] == [];
    assert Exec(p, s, [Wait(ms)]) == t && Within(p, 0, s, [Wait(ms)]);
    RunsCompose(p, 0, s, [Wait(ms)], Burst(p.limit));
    BurstServes(p, t, key, p.limit);
  }

  lemma {:induction false} BurstsServe(p: Policy, n: nat, to: nat)
    requires ValidPolicy(p)
    ensures var s := Exec(p, INITIAL, Bursts(p, n));
      && s.now == BurstTime(p, n) && s.requests == map[] && (forall k | k in s.counters :: k.window <= n)
      && (to > s.now ==> AllowedIn(p, s.hits, 0, Width(p) - 1, to) == (n + 1) * p.limit)
    ensures Within(p, 0, INITIAL, Bursts(p, n))
  {
    var w := Width(p);
    QuotientIs(BurstTime(p, n), w, n);
    var key := Key(0, n);
    if n == 0 {
      WaitThenBurst(p, INITIAL, w - 1, key);
      ServedAllowed(p, [], key, w - 1, p.limit, w - 1, to);
    } else {
      BurstsServe(p, n - 1, to);
      var s := Exec(p, INITIAL, Bursts(p, n - 1));
      BurstTimes(p, n);
      OneMoreTimes(n, p.limit);
      WaitThenBurst(p, s, Gap(p, n), key);
      RunsCompose(p, 0, INITIAL, Bursts(p, n - 1), [Wait(Gap(p, n))] + Burst(p.limit));
      ServedAllowed(p, s.hits, key, n * w, p.limit, w - 1, to);
    }
  }

  lemma OneMoreTimes(n: nat, k: nat)
    ensures (n + 1) * k == n * k + k
  {
  }

  lemma BurstTimes(p: Policy, n: nat)
    requires ValidPolicy(p) && n > 0
    ensures BurstTime(p, n) == BurstTime(p, n - 1) + Gap(p, n) == n * Width(p) >= Width(p)
  {
    MulMonotone(1, n, Width(p));
    OneMoreTimes(n - 1, Width(p));
  }

  /** The bound of AllowedPerInterval cannot be lowered, even if no request waits at all. */
  lemma IntervalBoundIsAttained(p: Policy, n: nat)
    requires ValidPolicy(p) && n > 0
    ensures Within(p, 0, INITIAL, Bursts(p, n)) && forall k :: !FindsExpired(p, INITIAL, Bursts(p, n), k)
    ensures AllowedIn(p, Exec(p, INITIAL, Bursts(p, n)).hits, 0, Width(p) - 1, Width(p) - 1 + n * Width(p))
        == (n + 1) * p.limit
  {
    BurstsServe(p, n, Width(p) - 1 + n * Width(p));
    WithinMore(p, INITIAL, Bursts(p, n), 0, 1);
    forall k ensures !FindsExpired(p, INITIAL, Bursts(p, n), k) {
      OneMillisecondIsInTime(p, INITIAL, Bursts(p, n), k);
      InTimeNeverExpired(p, Bursts(p, n), k);
    }
  }

  // ---------- a delay of two milliseconds can break the per-window limit ----------

  /** A full burst at time 0; one more request reads the clock in the last millisecond of the window and is
      counted two milliseconds later, when the key is gone. */
  function LateRun(p: Policy): seq<Action>
    requires ValidPolicy(p)
  {
    Burst(p.limit) + [Wait(Width(p) - 1), ReadClock(0, 0), Wait(2), Increment(0)]
  }

  lemma LateRequestIsAllowed(p: Policy)
    requires ValidPolicy(p) && p.limit >= 1
    ensures Within(p, 2, INITIAL, LateRun(p))
    ensures Allowed(p, Exec(p, INITIAL, LateRun(p)).hits, Key(0, 0)) == p.limit + 1
  {
    var w, key, m := Width(p), Key(0, 0), p.limit;
    QuotientIs(0, w, 0);
    QuotientIs(w - 1, w, 0);
    BurstServes(p, INITIAL, key, m);
    var tail := [Wait(w - 1), ReadClock(0, 0), Wait(2), Increment(0)];
    RunsCompose(p, 2, INITIAL, Burst(m), tail);
    var s := Exec(p, INITIAL, Burst(m));
    LateTail(p, s, key);
    WithinMore(p, INITIAL, Burst(m), 0, 2);
    ServedAllowed(p, [], key, 0, m, 0, 0);
    assert [] + Served(key, 0, m) == Served(key, 0, m);
    var hits := s.hits + [Hit(key, w - 1, 1)];
    assert hits[..|hits| - 1] == s.hits;
  }

  lemma LateTail(p: Policy, s: State, key: Key)
    requires ValidPolicy(p) && s.now == 0 && s.requests == map[] && key == Key(0, 0) && WindowId(p, Width(p) - 1) == 0
    requires key in s.counters && s.counters[key].expiresAt == Some(Width(p))
    ensures var tail := [Wait(Width(p) - 1), ReadClock(0, 0), Wait(2), Increment(0)];
      Within(p, 2, s, tail) && Exec(p, s, tail).hits == s.hits + [Hit(key, Width(p) - 1, 1)]
  {
    var tail := [Wait(Width(p) - 1), ReadClock(0, 0), Wait(2), Increment(0)];
    var s1 := Next(p, s, tail[0]);
    var s2 := Next(p, s1, tail[1]);
    var s3 := Next(p, s2, tail[2]);
    var s4 := Next(p, s3, tail[3]);
    assert s2.requests == map[0 := Reading(key, Width(p) - 1)];
    assert s3.now == Width(p) + 1 && Count(s3, key) == 0;
    assert tail[1..][1..] == tail[2..] && tail[2..][1..] == tail[3..] && tail[3..][1..] == [];
    assert Within(p, 2, s4, []) && Within(p, 2, s3, tail[3..]) && Within(p, 2, s2, tail[2..])
        && Within(p, 2, s1, tail[1..]);
    assert Exec(p, s3, tail[3..]) == s4;
    assert Exec(p, s2, tail[2..]) == s4;
    assert Exec(p, s1, tail[1..]) == s4;
  }

  lemma {:induction false} WithinMore(p: Policy, s: State, run: seq<Action>, delay: nat, more: nat)
    requires ValidPolicy(p) && Within(p, delay, s, run) && delay <= more
    ensures Within(p, more, s, run)
    decreases run
  {
    if run != [] { WithinMore(p, Next(p, s, run[0]), run[1..], delay, more); }
  }

  ghost predicate LimitHolds(p: Policy, delay: nat)
    requires ValidPolicy(p)
  {
    forall run: seq<Action>, k: Key | Within(p, delay, INITIAL, run) ::
        Allowed(p, Exec(p, INITIAL, run).hits, k) <= p.limit
  }

  /** Among uniform bounds on the delay, one millisecond is the largest that keeps the per-window limit in every
      run, unless nothing is ever allowed. */
  lemma LimitHoldsIffDelayAtMostOne(p: Policy, delay: nat)
    requires ValidPolicy(p)
    ensures LimitHolds(p, delay) <==> delay <= 1 || p.limit == 0
  {
    forall run: seq<Action>, k: Key | Within(p, delay, INITIAL, run) && (delay <= 1 || p.limit == 0)
      ensures Allowed(p, Exec(p, INITIAL, run).hits, k) <= p.limit
    {
      AllowedPerWindow(p, run, k);
      if delay <= 1 {
        WithinMore(p, INITIAL, run, delay, 1);
        OneMillisecondIsInTime(p, INITIAL, run, k);
        InTimeNeverExpired(p, run, k);
      }
    }
    if delay > 1 && p.limit > 0 {
      LateRequestIsAllowed(p);
      WithinMore(p, INITIAL, LateRun(p), 2, delay);
      assert Allowed(p, Exec(p, INITIAL, LateRun(p)).hits, Key(0, 0)) > p.limit;
    }
  }

  // ---------- the service ----------

  datatype RateLimitResult = RateLimitResult(allowed: bool, remaining: int, resetSeconds: int)

  class RateLimitService {
    const policy: Policy
    var now: nat
    var counters: map<Key, Counter>
    var requests: map<Pid, Request>
    ghost var hits: seq<Hit>

    ghost function View(): State
      reads this
    {
      State(now, counters, requests, hits)
    }

    constructor (policy: Policy)
      requires ValidPolicy(policy)
      ensures View() == INITIAL && this.policy == policy
    {
      this.policy := policy;
      now, counters, requests, hits := 0, map[], map[], [];
    }

    /** The clock reading and the key of a request. */
    method Begin(pid: Pid, subject: Subject)
      requires ValidPolicy(policy) && pid !in requests
      modifies this
      ensures View() == Next(policy, old(View()), ReadClock(pid, subject))
    {
      var windowId := Quotient(now, 1000 * policy.windowSeconds);
      requests := requests[pid := Reading(Key(subject, windowId), now)];
    }

    /** INCR: an expired key is missing, a missing key counts from zero, and the expiry of a live key stays. */
    method Incr(pid: Pid) returns (current: nat)
      requires ValidPolicy(policy) && pid in requests && requests[pid].Reading?
      modifies this
      ensures View() == Next(policy, old(View()), Increment(pid))
      ensures requests[pid] == Counted(old(requests)[pid].key, current)
    {
      var key := requests[pid].key;
      var expiresAt := None;
      current := 1;
      if key in counters && (counters[key].expiresAt.None? || now <= counters[key].expiresAt.value) {
        current := counters[key].count + 1;
        expiresAt := counters[key].expiresAt;
      }
      hits := hits + [Hit(key, requests[pid].readAt, current)];
      counters := counters[key := Counter(current, expiresAt)];
      requests := requests[pid := Counted(key, current)];
    }

    /** EXPIRE after the first increment, then the answer; `ttl` is whatever the TTL command returns. */
    method Finish(pid: Pid, ttl: int) returns (result: RateLimitResult)
      requires ValidPolicy(policy) && pid in requests && requests[pid].Counted?
      modifies this
      ensures View() == Next(policy, old(View()), SetExpiry(pid))
      ensures result.allowed <==> old(requests)[pid].current <= policy.limit
      ensures result.remaining + old(requests)[pid].current == policy.limit
          || (result.remaining == 0 && old(requests)[pid].current > policy.limit)
      ensures result.resetSeconds >= 1 && result.resetSeconds >= ttl && result.resetSeconds in {1, ttl}
    {
      var key, current := requests[pid].key, requests[pid].current;
      if current == 1 && key in counters && (counters[key].expiresAt.None? || now <= counters[key].expiresAt.value) {
        counters := counters[key := counters[key].(expiresAt := Some(now + 1000 * policy.windowSeconds))];
      }
      requests := requests - {pid};
      result := RateLimitResult(current <= policy.limit, if policy.limit > current then policy.limit - current else 0,
                                if ttl > 1 then ttl else 1);
    }
  }
}
