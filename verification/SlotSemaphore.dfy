/** The counting semaphore in Redis: a counter with a time to live that every acquire renews.
    Each script is one atomic action; leases are history, which the server does not keep. A key is gone once
    the clock is past its expiry. */
module SlotSemaphore {
  import opened Common

  type LeaseId = nat

  const TTL := 120_000

  datatype Key = Key(count: nat, expiresAt: int)

  /** The Redis key of one (workspace, connection, model), the leases out on it, the clock, and the time of the
      latest acquire that was granted. */
  datatype State = State(key: Option<Key>, leases: map<LeaseId, int>, now: int, renewed: int)

  datatype Action = Acquire(id: LeaseId, at: int) | Release(id: LeaseId, at: int)

  const INITIAL := State(None, map[], 0, 0)

  /** The counter a script reads: an expired key is gone. */
  function Count(key: Option<Key>, now: int): nat {
    if key.Some? && now <= key.value.expiresAt then key.value.count else 0
  }

  function AfterAcquire(limit: int, s: State, id: LeaseId, at: int): State {
    var c := Count(s.key, at);
    if c >= limit then s.(now := at)
    else State(Some(Key(c + 1, at + TTL)), s.leases[id := at], at, at)
  }

  function AfterRelease(s: State, id: LeaseId, at: int): State {
    var c := Count(s.key, at);
    State(if c <= 1 then None else Some(Key(c - 1, s.key.value.expiresAt)), s.leases - {id}, at, s.renewed)
  }

  /** Clocks do not run backwards, lease ids are new, and only a lease that is out can be released. */
  function Next(limit: int, s: State, a: Action): State {
    if a.at < s.now then s
    else
      match a
      case Acquire(id, at) => if id in s.leases then s else AfterAcquire(limit, s, id, at)
      case Release(id, at) => if id !in s.leases then s else AfterRelease(s, id, at)
  }

  function Exec(limit: int, s: State, run: seq<Action>): State
    decreases run
  {
    if run == [] then s else Exec(limit, Next(limit, s, run[0]), run[1..])
  }

  function NoMoreThan(limit: int): nat { if limit < 0 then 0 else limit }

  // ---------- without any timing assumption ----------

  predicate Loose(limit: int, s: State) {
    s.key.Some? ==> 1 <= s.key.value.count <= NoMoreThan(limit) && s.key.value.count <= |s.leases|
  }

  lemma StepKeepsLoose(limit: int, s: State, a: Action)
    requires Loose(limit, s)
    ensures Loose(limit, Next(limit, s, a))
  {
    if a.Release? && a.id in s.leases {
      assert |s.leases - {a.id}| == |s.leases| - 1 by { RemoveOne(s.leases, a.id); }
    }
  }

  lemma RemoveOne(m: map<LeaseId, int>, id: LeaseId)
    requires id in m
    ensures |m - {id}| == |m| - 1
  {
    assert (m - {id}).Keys == m.Keys - {id};
    assert |m.Keys - {id}| == |m.Keys| - 1;
    assert |m| == |m.Keys| && |m - {id}| == |(m - {id}).Keys|;
  }

  lemma {:induction false} RunKeepsLoose(limit: int, s: State, run: seq<Action>)
    requires Loose(limit, s)
    ensures Loose(limit, Exec(limit, s, run))
    decreases run
  {
    if run != [] {
      StepKeepsLoose(limit, s, run[0]);
      RunKeepsLoose(limit, Next(limit, s, run[0]), run[1..]);
    }
  }

  /** Whatever the timing, at every moment the counter lies between 0 and min(limit, holders). */
  lemma CounterNeverOvershoots(limit: int, run: seq<Action>, now: int)
    ensures var s := Exec(limit, INITIAL, run);
      Count(s.key, now) <= NoMoreThan(limit) && Count(s.key, now) <= |s.leases|
  {
    RunKeepsLoose(limit, INITIAL, run);
  }

  // ---------- while the latest acquire is recent ----------

  /** At time `at` no lease is out, or the latest acquire is at most 120000 ms old: the key has not expired. */
  predicate Recent(s: State, at: int) {
    s.leases == map[] || at <= s.renewed + 120_000
  }

  /** Every action of the run meets a key that has not expired under a holder. */
  predicate AlwaysRecent(limit: int, s: State, run: seq<Action>)
    decreases run
  {
    run == [] || (Recent(s, run[0].at) && AlwaysRecent(limit, Next(limit, s, run[0]), run[1..]))
  }

  /** Every action of the run reads the number of leases out. */
  predicate AlwaysReadsHolders(limit: int, s: State, run: seq<Action>)
    decreases run
  {
    run == [] || (Count(s.key, run[0].at) == |s.leases| && AlwaysReadsHolders(limit, Next(limit, s, run[0]), run[1..]))
  }

  /** The counter is the number of leases out, and its key expires 120000 ms after the latest acquire. */
  predicate Exact(limit: int, s: State) {
    && |s.leases| <= NoMoreThan(limit) && s.renewed <= s.now
    && (forall id | id in s.leases :: s.leases[id] <= s.renewed)
    && (s.key.None? <==> s.leases == map[])
    && (s.key.Some? ==> s.key.value == Key(|s.leases|, s.renewed + TTL))
  }

  lemma NobodyOut(m: map<LeaseId, int>)
    ensures |m| == 0 <==> m == map[]
  {
    if |m| == 0 {
      assert m.Keys == {};
    }
  }

  lemma ReadsHoldersIffRecent(limit: int, s: State, at: int)
    requires Exact(limit, s)
    ensures Count(s.key, at) == |s.leases| <==> Recent(s, at)
  {
    NobodyOut(s.leases);
  }

  lemma StepKeepsExact(limit: int, s: State, a: Action)
    requires Exact(limit, s) && Recent(s, a.at)
    ensures Exact(limit, Next(limit, s, a))
  {
    ReadsHoldersIffRecent(limit, s, a.at);
    if a.at >= s.now && a.Release? && a.id in s.leases {
      RemoveOne(s.leases, a.id);
      NobodyOut(s.leases);
      NobodyOut(s.leases - {a.id});
    }
  }

  lemma {:induction false} RunKeepsExact(limit: int, s: State, run: seq<Action>)
    requires Exact(limit, s) && AlwaysRecent(limit, s, run)
    ensures Exact(limit, Exec(limit, s, run))
    decreases run
  {
    if run != [] {
      StepKeepsExact(limit, s, run[0]);
      RunKeepsExact(limit, Next(limit, s, run[0]), run[1..]);
    }
  }

  lemma {:induction false} ReadsHoldersFrom(limit: int, s: State, run: seq<Action>)
    requires Exact(limit, s)
    ensures AlwaysReadsHolders(limit, s, run) <==> AlwaysRecent(limit, s, run)
    decreases run
  {
    if run != [] {
      ReadsHoldersIffRecent(limit, s, run[0].at);
      if Recent(s, run[0].at) {
        StepKeepsExact(limit, s, run[0]);
        ReadsHoldersFrom(limit, Next(limit, s, run[0]), run[1..]);
      }
    }
  }

  /** Every script of a run reads exactly the number of leases out if and only if each finds the latest acquire at
      most 120000 ms old, or nobody out. However long single leases last, the limit then holds. */
  lemma CounterIsHolders(limit: int, run: seq<Action>)
    ensures AlwaysReadsHolders(limit, INITIAL, run) <==> AlwaysRecent(limit, INITIAL, run)
    ensures AlwaysRecent(limit, INITIAL, run) ==> |Exec(limit, INITIAL, run).leases| <= NoMoreThan(limit)
  {
    ReadsHoldersFrom(limit, INITIAL, run);
    if AlwaysRecent(limit, INITIAL, run) {
      RunKeepsExact(limit, INITIAL, run);
    }
  }

  /** While the key lives, an acquire is granted exactly when fewer than `limit` leases are out; it adds its own lease
      and no other. */
  lemma GrantedIffRoom(limit: int, run: seq<Action>, id: LeaseId, at: int)
    requires AlwaysRecent(limit, INITIAL, run) && Recent(Exec(limit, INITIAL, run), at)
    requires Exec(limit, INITIAL, run).now <= at && id !in Exec(limit, INITIAL, run).leases
    ensures var s := Exec(limit, INITIAL, run);
      Next(limit, s, Acquire(id, at)).leases == if |s.leases| < limit then s.leases[id := at] else s.leases
  {
    RunKeepsExact(limit, INITIAL, run);
    ReadsHoldersIffRecent(limit, Exec(limit, INITIAL, run), at);
  }

  /** A released lease is gone, and its room can be taken while the key lives. */
  lemma ReleaseMakesRoom(limit: int, run: seq<Action>, id: LeaseId, at: int, other: LeaseId, later: int)
    requires AlwaysRecent(limit, INITIAL, run) && Recent(Exec(limit, INITIAL, run), at)
    requires Exec(limit, INITIAL, run).now <= at <= later
    requires id in Exec(limit, INITIAL, run).leases && other !in Exec(limit, INITIAL, run).leases
    requires Recent(Next(limit, Exec(limit, INITIAL, run), Release(id, at)), later)
    ensures var s := Exec(limit, INITIAL, run);
      Next(limit, Next(limit, s, Release(id, at)), Acquire(other, later)).leases == (s.leases - {id})[other := later]
  {
    RunKeepsExact(limit, INITIAL, run);
    var s := Exec(limit, INITIAL, run);
    StepKeepsExact(limit, s, Release(id, at));
    RemoveOne(s.leases, id);
    ReadsHoldersIffRecent(limit, Next(limit, s, Release(id, at)), later);
  }

  // ---------- when every lease is released in time ----------

  /** At time `at` no lease still out has been held for more than `hold` ms. */
  predicate Young(hold: int, s: State, at: int) {
    forall id | id in s.leases :: at <= s.leases[id] + hold
  }

  /** No lease is ever held for more than `hold` ms. */
  predicate Prompt(hold: int, limit: int, s: State, run: seq<Action>)
    decreases run
  {
    run == [] || (Young(hold, s, run[0].at) && Prompt(hold, limit, Next(limit, s, run[0]), run[1..]))
  }

  lemma YoungIsRecent(limit: int, s: State, at: int)
    requires Exact(limit, s) && Young(TTL, s, at)
    ensures Recent(s, at)
  {
    if s.leases != map[] {
      NobodyOut(s.leases);
      assert s.leases.Keys != {};
      var id :| id in s.leases.Keys;
    }
  }

  lemma {:induction false} PromptIsRecent(limit: int, s: State, run: seq<Action>)
    requires Exact(limit, s) && Prompt(TTL, limit, s, run)
    ensures AlwaysRecent(limit, s, run)
    decreases run
  {
    if run != [] {
      YoungIsRecent(limit, s, run[0].at);
      StepKeepsExact(limit, s, run[0]);
      PromptIsRecent(limit, Next(limit, s, run[0]), run[1..]);
    }
  }

  // ---------- the timing bound is needed, and tight ----------

  function Fill(n: nat): seq<Action> {
    if n == 0 then [] else Fill(n - 1) + [Acquire(n - 1, 0)]
  }

  lemma {:induction false} ExecAppend(limit: int, s: State, run: seq<Action>, a: Action)
    ensures Exec(limit, s, run + [a]) == Next(limit, Exec(limit, s, run), a)
    decreases run
  {
    if run == [] {
      assert run + [a] == [a] && [a][1..] == [];
    } else {
      assert (run + [a])[1..] == run[1..] + [a];
      ExecAppend(limit, Next(limit, s, run[0]), run[1..], a);
    }
  }

  lemma {:induction false} FillFills(limit: int, n: nat)
    requires n <= limit
    ensures var s := Exec(limit, INITIAL, Fill(n));
      |s.leases| == n && s.now == 0 && (forall id | id in s.leases :: id < n && s.leases[id] == 0)
      && s.key == if n == 0 then None else Some(Key(n, TTL))
  {
    if n > 0 {
      FillFills(limit, n - 1);
      ExecAppend(limit, INITIAL, Fill(n - 1), Acquire(n - 1, 0));
      var t := Exec(limit, INITIAL, Fill(n - 1));
      assert n - 1 !in t.leases;
      assert Next(limit, t, Acquire(n - 1, 0)) == AfterAcquire(limit, t, n - 1, 0);
    }
  }

  /** Leases held for 120001 ms are enough to break the limit: the key expires under them and one more lease is
      granted. */
  lemma HeldTooLongBreaksTheLimit(limit: int)
    requires limit >= 1
    ensures var s := Exec(limit, INITIAL, Fill(limit) + [Acquire(limit, 120_001)]);
      && |s.leases| == limit + 1 && s.now == 120_001
      && forall id | id in s.leases :: 0 <= s.now - s.leases[id] <= 120_001
  {
    FillFills(limit, limit);
    ExecAppend(limit, INITIAL, Fill(limit), Acquire(limit, TTL + 1));
  }

  lemma {:induction false} PromptAppend(hold: int, limit: int, s: State, run: seq<Action>, a: Action)
    requires Prompt(hold, limit, s, run) && Young(hold, Exec(limit, s, run), a.at)
    ensures Prompt(hold, limit, s, run + [a])
    decreases run
  {
    if run == [] {
      assert run + [a] == [a] && [a][1..] == [];
    } else {
      assert (run + [a])[1..] == run[1..] + [a];
      PromptAppend(hold, limit, Next(limit, s, run[0]), run[1..], a);
    }
  }

  lemma {:induction false} FillIsPrompt(hold: int, limit: int, n: nat)
    requires n <= limit && hold >= 0
    ensures Prompt(hold, limit, INITIAL, Fill(n))
  {
    if n > 0 {
      FillIsPrompt(hold, limit, n - 1);
      FillFills(limit, n - 1);
      PromptAppend(hold, limit, INITIAL, Fill(n - 1), Acquire(n - 1, 0));
    }
  }

  lemma {:induction false} PromptLess(hold: int, more: int, limit: int, s: State, run: seq<Action>)
    requires hold <= more && Prompt(hold, limit, s, run)
    ensures Prompt(more, limit, s, run)
    decreases run
  {
    if run != [] { PromptLess(hold, more, limit, Next(limit, s, run[0]), run[1..]); }
  }

  ghost predicate LimitHolds(hold: int, limit: int) {
    forall run | Prompt(hold, limit, INITIAL, run) :: |Exec(limit, INITIAL, run).leases| <= limit
  }

  /** Among uniform bounds on the time leases are held, 120000 ms is the largest that keeps the number of leases out
      within the limit in every run. */
  lemma LimitHoldsIffPrompt(hold: int, limit: int)
    requires limit >= 1
    ensures LimitHolds(hold, limit) <==> hold <= 120_000
  {
    if hold <= TTL {
      forall run | Prompt(hold, limit, INITIAL, run) ensures |Exec(limit, INITIAL, run).leases| <= limit {
        PromptLess(hold, TTL, limit, INITIAL, run);
        PromptIsRecent(limit, INITIAL, run);
        RunKeepsExact(limit, INITIAL, run);
      }
    } else {
      FillIsPrompt(hold, limit, limit);
      FillFills(limit, limit);
      PromptAppend(hold, limit, INITIAL, Fill(limit), Acquire(limit, TTL + 1));
      HeldTooLongBreaksTheLimit(limit);
    }
  }

  // ---------- the service ----------

  class SlotManager {
    var key: Option<Key>
    ghost var leases: map<LeaseId, int>
    ghost var now: int
    ghost var renewed: int

    ghost function View(): State
      reads this
    {
      State(key, leases, now, renewed)
    }

    constructor ()
      ensures View() == INITIAL
    {
      key, leases, now, renewed := None, map[], 0, 0;
    }

    /** The acquire script: read, compare, increment, renew the expiry. */
    method TryAcquire(limit: int, id: LeaseId, at: int) returns (granted: bool)
      requires now <= at && id !in leases
      modifies this
      ensures View() == Next(limit, old(View()), Acquire(id, at))
      ensures granted <==> id in leases
    {
      var c := if key.Some? && at <= key.value.expiresAt then key.value.count else 0;
      now := at;
      if c >= limit {
        return false;
      }
      key := Some(Key(c + 1, at + TTL));
      leases, renewed := leases[id := at], at;
      granted := true;
    }

    /** The release script: delete the key at one or less, else decrement and keep its expiry. */
    method ReleaseSlot(limit: int, id: LeaseId, at: int)
      requires now <= at && id in leases
      modifies this
      ensures View() == Next(limit, old(View()), Release(id, at))
    {
      var c := if key.Some? && at <= key.value.expiresAt then key.value.count else 0;
      now := at;
      if c <= 1 {
        key := None;
      } else {
        key := Some(key.value.(count := c - 1));
      }
      leases := leases - {id};
    }
  }
}
