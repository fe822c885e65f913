/** Pairing a device with a one-time code: look up the code, check the workspace's capacity, then claim the
    code and create user, membership and device in one transaction. Others may come between. */
module Pairing {
  type Code = nat
  type Workspace = nat
  type User = nat
  type Device = nat
  type Pid = nat

  datatype CodeRow = CodeRow(workspace: Workspace, expiresAt: int, used: bool)

  datatype Request = Found(code: Code) | Passed(code: Code)

  /** What one successful pairing created. */
  datatype Made = Made(code: Code, workspace: Workspace, user: User, device: Device)

  datatype State = State(
    codes: map<Code, CodeRow>, users: set<User>, seats: map<Workspace, set<User>>, devices: map<Device, User>,
    requests: map<Pid, Request>, made: seq<Made>)

  datatype Action =
    | Offer(code: Code, workspace: Workspace, expiresAt: int)
    | Lookup(pid: Pid, code: Code, at: int)
    | CheckCapacity(pid: Pid)
    | Commit(pid: Pid, user: User, device: Device, at: int)

  predicate Usable(s: State, code: Code, at: int) {
    code in s.codes && !s.codes[code].used && s.codes[code].expiresAt > at
  }

  function Members(s: State, w: Workspace): set<User> { if w in s.seats then s.seats[w] else {} }

  function Limit(configured: int): int { if configured > 1 then configured else 1 }

  function End(s: State, pid: Pid): State { s.(requests := s.requests - {pid}) }

  function Created(s: State, pid: Pid, code: Code, user: User, device: Device): State
    requires code in s.codes
  {
    var row := s.codes[code];
    State(s.codes[code := row.(used := true)], s.users + {user},
          s.seats[row.workspace := Members(s, row.workspace) + {user}], s.devices[device := user],
          s.requests - {pid}, s.made + [Made(code, row.workspace, user, device)])
  }

  /** User and device ids are freshly generated. */
  predicate Fresh(s: State, user: User, device: Device) {
    user !in s.users && device !in s.devices && forall w | w in s.seats :: user !in s.seats[w]
  }

  function Next(limit: int, s: State, a: Action): State {
    match a
    case Offer(code, workspace, expiresAt) =>
      if code in s.codes then s else s.(codes := s.codes[code := CodeRow(workspace, expiresAt, false)])
    case Lookup(pid, code, at) =>
      if pid !in s.requests && Usable(s, code, at) then s.(requests := s.requests[pid := Found(code)]) else s
    case CheckCapacity(pid) =>
      if pid in s.requests && s.requests[pid].Found? && s.requests[pid].code in s.codes then
        var code := s.requests[pid].code;
        if |Members(s, s.codes[code].workspace)| >= limit then End(s, pid)
        else s.(requests := s.requests[pid := Passed(code)])
      else s
    case Commit(pid, user, device, at) =>
      if pid in s.requests && s.requests[pid].Passed? && Fresh(s, user, device) then
        if Usable(s, s.requests[pid].code, at) then Created(s, pid, s.requests[pid].code, user, device) else End(s, pid)
      else s
  }

  function Exec(limit: int, s: State, run: seq<Action>): State
    decreases run
  {
    if run == [] then s else Exec(limit, Next(limit, s, run[0]), run[1..])
  }

  // ---------- each code makes one user, membership and device ----------

  ghost predicate MadeBy(s: State, code: Code) {
    exists i | 0 <= i < |s.made| :: s.made[i].code == code
  }

  ghost predicate MadeOk(s: State, m: Made) {
    && m.code in s.codes && s.codes[m.code].used && s.codes[m.code].workspace == m.workspace
    && m.user in s.users && m.user in Members(s, m.workspace)
    && m.device in s.devices && s.devices[m.device] == m.user
  }

  ghost predicate Inv(s: State) {
    && (forall code | code in s.codes && s.codes[code].used :: MadeBy(s, code))
    && (forall i | 0 <= i < |s.made| :: MadeOk(s, s.made[i]))
    && (forall i, j | 0 <= i < j < |s.made| ::
          s.made[i].code != s.made[j].code && s.made[i].user != s.made[j].user && s.made[i].device != s.made[j].device)
  }

  lemma CreatedKeepsInv(s: State, pid: Pid, code: Code, user: User, device: Device, at: int)
    requires Inv(s) && Usable(s, code, at) && Fresh(s, user, device)
    ensures Inv(Created(s, pid, code, user, device))
  {
    var t := Created(s, pid, code, user, device);
    var n := |s.made|;
    assert t.made[n].code == code;
    forall c | c in t.codes && t.codes[c].used ensures MadeBy(t, c) {
      if c != code {
        assert MadeBy(s, c);
        var i :| 0 <= i < n && s.made[i].code == c;
        assert t.made[i].code == c;
      }
    }
    forall i | 0 <= i < n ensures MadeOk(t, t.made[i]) {
      assert t.made[i] == s.made[i] && MadeOk(s, s.made[i]);
    }
  }

  lemma StepKeepsInv(limit: int, s: State, a: Action)
    requires Inv(s)
    ensures Inv(Next(limit, s, a))
  {
    var t := Next(limit, s, a);
    if t.made != s.made {
      CreatedKeepsInv(s, a.pid, s.requests[a.pid].code, a.user, a.device, a.at);
    } else {
      assert t.users == s.users && t.seats == s.seats && t.devices == s.devices;
      forall c | c in t.codes && t.codes[c].used ensures MadeBy(t, c) {
        assert MadeBy(s, c);
      }
      forall i | 0 <= i < |t.made| ensures MadeOk(t, t.made[i]) {
        assert MadeOk(s, s.made[i]);
      }
    }
  }

  lemma {:induction false} RunKeepsInv(limit: int, s: State, run: seq<Action>)
    requires Inv(s)
    ensures Inv(Exec(limit, s, run))
    decreases run
  {
    if run != [] {
      StepKeepsInv(limit, s, run[0]);
      RunKeepsInv(limit, Next(limit, s, run[0]), run[1..]);
    }
  }

  /** A used code made exactly one user, membership and device; an unused one made nothing. */
  lemma CodeMakesOneDevice(limit: int, s: State, run: seq<Action>, code: Code)
    requires Inv(s) && code in Exec(limit, s, run).codes
    ensures var t := Exec(limit, s, run);
      && (t.codes[code].used <==> exists i | 0 <= i < |t.made| :: t.made[i].code == code)
      && (forall i, j | 0 <= i < |t.made| && 0 <= j < |t.made| && t.made[i].code == code && t.made[j].code == code ::
          i == j)
      && (forall i | 0 <= i < |t.made| && t.made[i].code == code :: MadeOk(t, t.made[i]))
      && (forall i, j | 0 <= i < j < |t.made| ::
          t.made[i].user != t.made[j].user && t.made[i].device != t.made[j].device)
  {
    RunKeepsInv(limit, s, run);
    var t := Exec(limit, s, run);
    if t.codes[code].used { assert MadeBy(t, code); }
    if i :| 0 <= i < |t.made| && t.made[i].code == code { assert MadeOk(t, t.made[i]); }
  }

  // ---------- capacity ----------

  /** Requests past the capacity check of the workspace and not yet committed. */
  function InFlight(s: State, w: Workspace): set<Pid> {
    set p | p in s.requests && s.requests[p].Passed? && s.requests[p].code in s.codes
            && s.codes[s.requests[p].code].workspace == w
  }

  /** At most `k` pairings of the workspace are past the check at any moment of the run. */
  predicate AtMost(limit: int, k: nat, w: Workspace, s: State, run: seq<Action>)
    decreases run
  {
    |InFlight(s, w)| <= k && (run == [] || AtMost(limit, k, w, Next(limit, s, run[0]), run[1..]))
  }

  predicate Bounded(limit: int, k: nat, s: State, w: Workspace) {
    |Members(s, w)| + |InFlight(s, w)| <= limit - 1 + k
  }

  predicate KnownCodes(s: State) {
    forall p | p in s.requests :: s.requests[p].code in s.codes
  }

  lemma CommitLeavesFlight(s: State, pid: Pid, code: Code, user: User, device: Device, w: Workspace)
    requires pid in s.requests && code in s.codes
    ensures InFlight(End(s, pid), w) == InFlight(s, w) - {pid}
    ensures InFlight(Created(s, pid, code, user, device), w) == InFlight(s, w) - {pid}
  {
    assert forall c | c in s.codes ::
      s.codes[c].workspace == Created(s, pid, code, user, device).codes[c].workspace;
  }

  lemma CommitAddsMember(s: State, pid: Pid, code: Code, user: User, device: Device, w: Workspace)
    requires code in s.codes && user !in Members(s, w)
    ensures var t := Created(s, pid, code, user, device);
      |Members(t, w)| == |Members(s, w)| + (if s.codes[code].workspace == w then 1 else 0)
  {
    if s.codes[code].workspace == w {
      assert Members(Created(s, pid, code, user, device), w) == Members(s, w) + {user};
    }
  }

  lemma CommitKeepsBound(limit: int, k: nat, s: State, pid: Pid, user: User, device: Device, at: int, w: Workspace)
    requires Bounded(limit, k, s, w) && pid in s.requests && s.requests[pid].Passed? && s.requests[pid].code in s.codes
    requires Fresh(s, user, device)
    ensures Bounded(limit, k, Next(limit, s, Commit(pid, user, device, at)), w)
  {
    var code := s.requests[pid].code;
    CommitLeavesFlight(s, pid, code, user, device, w);
    assert s.codes[code].workspace == w ==> pid in InFlight(s, w);
    if Usable(s, code, at) {
      CommitAddsMember(s, pid, code, user, device, w);
    } else {
      assert Members(End(s, pid), w) == Members(s, w);
    }
  }

  lemma CapacityKeepsBound(limit: int, k: nat, s: State, pid: Pid, w: Workspace)
    requires Bounded(limit, k, s, w) && pid in s.requests && s.requests[pid].Found? && s.requests[pid].code in s.codes
    requires |InFlight(Next(limit, s, CheckCapacity(pid)), w)| <= k
    ensures Bounded(limit, k, Next(limit, s, CheckCapacity(pid)), w)
  {
    var t := Next(limit, s, CheckCapacity(pid));
    assert Members(t, w) == Members(s, w);
    if pid in t.requests && s.codes[s.requests[pid].code].workspace == w {
      assert |Members(s, w)| < limit;
    } else {
      assert InFlight(t, w) == InFlight(s, w);
    }
  }

  lemma StepKeepsCodes(limit: int, s: State, a: Action)
    requires KnownCodes(s)
    ensures KnownCodes(Next(limit, s, a))
  {
  }

  lemma StepKeepsBound(limit: int, k: nat, s: State, a: Action, w: Workspace)
    requires Bounded(limit, k, s, w) && KnownCodes(s) && |InFlight(Next(limit, s, a), w)| <= k
    ensures Bounded(limit, k, Next(limit, s, a), w)
  {
    var t := Next(limit, s, a);
    if t != s {
      match a {
        case Offer(_, _, _) => assert InFlight(t, w) == InFlight(s, w);
        case Lookup(_, _, _) => assert InFlight(t, w) == InFlight(s, w);
        case CheckCapacity(pid) => CapacityKeepsBound(limit, k, s, pid, w);
        case Commit(pid, user, device, at) => CommitKeepsBound(limit, k, s, pid, user, device, at, w);
      }
    }
  }

  /** With at most `k` pairings past the capacity check at once, `pair` never takes the workspace beyond
      limit + k - 1 members. */
  lemma {:induction false} MembersStayBounded(limit: int, k: nat, s: State, run: seq<Action>, w: Workspace)
    requires KnownCodes(s) && Bounded(limit, k, s, w) && AtMost(limit, k, w, s, run)
    ensures |Members(Exec(limit, s, run), w)| <= limit - 1 + k
    decreases run
  {
    if run != [] {
      StepKeepsCodes(limit, s, run[0]);
      StepKeepsBound(limit, k, s, run[0], w);
      MembersStayBounded(limit, k, Next(limit, s, run[0]), run[1..], w);
    }
  }

  // ---------- the bound is attained ----------

  predicate Below(k: int, n: nat) { 0 <= k < n }

  function UpTo(n: nat): set<nat> { set k: nat | k < n && Below(k, n) }

  lemma {:induction false} UpToSize(n: nat)
    ensures |UpTo(n)| == n
  {
    if n > 0 {
      UpToSize(n - 1);
      assert UpTo(n) == UpTo(n - 1) + {n - 1};
    }
  }

  /** `k` codes, the first `n` of them used. */
  function UsedTo(k: nat, n: nat): map<Code, CodeRow> {
    map c | c in UpTo(k) :: CodeRow(0, 1, Below(c, n))
  }

  /** One seat left, `k` codes out. */
  function AlmostFull(limit: nat, k: nat): State
    requires limit >= 1
  {
    State(UsedTo(k, 0), UpTo(limit - 1), map[0 := UpTo(limit - 1)], map[], map[], [])
  }

  /** Pairings `i`, ..., k - 1 are looked up and pass the capacity check; then all commit from the first on. */
  function EnterFrom(limit: nat, k: nat, i: nat): seq<Action>
    requires limit >= 1 && i <= k
    decreases k - i
  {
    if i == k then Leaving(limit, k) else [Lookup(i, i, 0)] + ([CheckCapacity(i)] + EnterFrom(limit, k, i + 1))
  }

  /** All of them commit, the first one first. */
  function Leaving(limit: nat, k: nat): seq<Action>
    requires limit >= 1
  {
    seq(k, i requires 0 <= i => Commit(i, limit - 1 + i, i, 0))
  }

  /** The first `i` pairings have passed the check. */
  ghost predicate Waiting(s: State, limit: nat, k: nat, i: nat)
    requires limit >= 1
  {
    && s == AlmostFull(limit, k).(requests := s.requests)
    && (forall p :: p in s.requests <==> 0 <= p < i) && (forall p | p in s.requests :: s.requests[p] == Passed(p))
  }

  function LeftFrom(k: nat, n: nat): map<Pid, Request> { map p: nat | p in UpTo(k) && n <= p :: Passed(p) }

  function Paired(limit: nat, n: nat): map<Device, User>
    requires limit >= 1
  {
    map d | d in UpTo(n) :: limit - 1 + d
  }

  function MadeUpTo(limit: nat, n: nat): seq<Made>
    requires limit >= 1
  {
    if n == 0 then [] else MadeUpTo(limit, n - 1) + [Made(n - 1, 0, limit - 1 + (n - 1), n - 1)]
  }

  /** The first `n` of them have committed. */
  function Seated(limit: nat, k: nat, n: nat): State
    requires limit >= 1
  {
    var users := UpTo(limit - 1 + n);
    State(UsedTo(k, n), users, map[0 := users], Paired(limit, n), LeftFrom(k, n), MadeUpTo(limit, n))
  }

  lemma FewInFlight(s: State, k: nat)
    requires forall p | p in s.requests :: 0 <= p < k
    ensures |InFlight(s, 0)| <= k
  {
    UpToSize(k);
    assert InFlight(s, 0) <= UpTo(k);
    assert UpTo(k) == InFlight(s, 0) + (UpTo(k) - InFlight(s, 0));
  }

  lemma OneEnters(s: State, limit: nat, k: nat, i: nat)
    requires limit >= 1 && i < k && Waiting(s, limit, k, i)
    ensures var t, u := s.(requests := s.requests[i := Found(i)]), s.(requests := s.requests[i := Passed(i)]);
      Next(limit, s, Lookup(i, i, 0)) == t && Next(limit, t, CheckCapacity(i)) == u
  {
    var t := s.(requests := s.requests[i := Found(i)]);
    assert t.requests[i := Passed(i)] == s.requests[i := Passed(i)];
    UpToSize(limit - 1);
    assert Members(t, 0) == UpTo(limit - 1);
  }

  lemma EnteredWaits(s: State, limit: nat, k: nat, i: nat)
    requires limit >= 1 && i < k && Waiting(s, limit, k, i)
    ensures |InFlight(s.(requests := s.requests[i := Found(i)]), 0)| <= k
    ensures Waiting(s.(requests := s.requests[i := Passed(i)]), limit, k, i + 1)
  {
    FewInFlight(s.(requests := s.requests[i := Found(i)]), k);
  }

  lemma CommitCreates(limit: nat, k: nat, n: nat)
    requires limit >= 1 && n < k
    ensures var s := Seated(limit, k, n);
      Next(limit, s, Commit(n, limit - 1 + n, n, 0)) == Created(s, n, n, limit - 1 + n, n)
  {
    var s := Seated(limit, k, n);
    assert Fresh(s, limit - 1 + n, n);
    assert Usable(s, n, 0);
  }

  lemma SeatTaken(limit: nat, n: nat)
    requires limit >= 1
    ensures UpTo(limit - 1 + n) + {limit - 1 + n} == UpTo(limit - 1 + (n + 1))
  {
  }

  lemma CreatedIsSeated(limit: nat, k: nat, n: nat)
    requires limit >= 1 && n < k
    ensures Created(Seated(limit, k, n), n, n, limit - 1 + n, n) == Seated(limit, k, n + 1)
  {
    assert UsedTo(k, n)[n := CodeRow(0, 1, true)] == UsedTo(k, n + 1);
    assert LeftFrom(k, n) - {n} == LeftFrom(k, n + 1);
    assert Paired(limit, n)[n := limit - 1 + n] == Paired(limit, n + 1);
    SeatTaken(limit, n);
    var users := UpTo(limit - 1 + n);
    assert map[0 := users][0 := users + {limit - 1 + n}] == map[0 := UpTo(limit - 1 + (n + 1))];
  }

  lemma CommitNext(limit: nat, k: nat, n: nat)
    requires limit >= 1 && n < k
    ensures Next(limit, Seated(limit, k, n), Commit(n, limit - 1 + n, n, 0)) == Seated(limit, k, n + 1)
  {
    CommitCreates(limit, k, n);
    CreatedIsSeated(limit, k, n);
  }

  lemma SeatedCounts(limit: nat, k: nat, n: nat)
    requires limit >= 1 && n <= k
    ensures var s := Seated(limit, k, n); |InFlight(s, 0)| <= k && |Members(s, 0)| == limit - 1 + n
  {
    UpToSize(limit - 1 + n);
    FewInFlight(Seated(limit, k, n), k);
  }

  lemma WaitingIsSeated(s: State, limit: nat, k: nat)
    requires limit >= 1 && Waiting(s, limit, k, k)
    ensures s == Seated(limit, k, 0)
  {
    assert s.requests == LeftFrom(k, 0);
  }

  /** The members at the end of a run that keeps at most `k` in flight, -1 for any other run. */
  function Final(limit: int, k: nat, s: State, run: seq<Action>): int {
    if AtMost(limit, k, 0, s, run) then |Members(Exec(limit, s, run), 0)| else -1
  }

  lemma FinalLater(limit: int, k: nat, s: State, a: Action, t: State, rest: seq<Action>, m: nat)
    requires |InFlight(s, 0)| <= k && Next(limit, s, a) == t && Final(limit, k, t, rest) == m
    ensures Final(limit, k, s, [a] + rest) == m
  {
    assert ([a] + rest)[1..] == rest;
  }

  /** `states` are the states of the run, none with more than `k` in flight. */
  ghost predicate Passes(limit: int, k: nat, states: seq<State>, run: seq<Action>) {
    && |states| == |run| + 1
    && (forall i, j | 0 <= i < |run| && j == i + 1 :: Next(limit, states[i], run[i]) == states[j])
    && (forall i | 0 <= i < |states| :: |InFlight(states[i], 0)| <= k)
  }

  lemma {:induction false} PassesFinal(limit: int, k: nat, states: seq<State>, run: seq<Action>)
    requires Passes(limit, k, states, run)
    ensures Final(limit, k, states[0], run) == |Members(states[|run|], 0)|
    decreases run
  {
    if run != [] {
      assert Next(limit, states[0], run[0]) == states[1];
      PassesFinal(limit, k, states[1..], run[1..]);
    }
  }

  /** The states between the commits of `Leaving`. */
  function Seatings(limit: nat, k: nat): seq<State>
    requires limit >= 1
  {
    seq(k + 1, i requires 0 <= i => Seated(limit, k, i))
  }

  lemma OneLeaves(limit: nat, k: nat, i: nat, s: State, a: Action, t: State)
    requires limit >= 1 && i < k && s == Seated(limit, k, i) && t == Seated(limit, k, i + 1)
    requires a == Commit(i, limit - 1 + i, i, 0)
    ensures Next(limit, s, a) == t
  {
    CommitNext(limit, k, i);
  }

  lemma FewLeft(limit: nat, k: nat, i: nat)
    requires limit >= 1 && i <= k
    ensures |InFlight(Seatings(limit, k)[i], 0)| <= k
  {
    SeatedCounts(limit, k, i);
  }

  lemma LeaveStep(limit: nat, k: nat, states: seq<State>, run: seq<Action>)
    requires limit >= 1 && states == Seatings(limit, k) && run == Leaving(limit, k)
    ensures forall i, j | 0 <= i < |run| && j == i + 1 :: Next(limit, states[i], run[i]) == states[j]
  {
    forall i, j | 0 <= i < |run| && j == i + 1 ensures Next(limit, states[i], run[i]) == states[j] {
      OneLeaves(limit, k, i, states[i], run[i], states[j]);
    }
  }

  lemma LeaveFew(limit: nat, k: nat, states: seq<State>)
    requires limit >= 1 && states == Seatings(limit, k)
    ensures forall i | 0 <= i < |states| :: |InFlight(states[i], 0)| <= k
  {
    forall i | 0 <= i < |states| ensures |InFlight(states[i], 0)| <= k {
      FewLeft(limit, k, i);
    }
  }

  lemma AllLeave(limit: nat, k: nat)
    requires limit >= 1
    ensures Passes(limit, k, Seatings(limit, k), Leaving(limit, k))
  {
    var states, run := Seatings(limit, k), Leaving(limit, k);
    LeaveStep(limit, k, states, run);
    LeaveFew(limit, k, states);
  }

  lemma AllCommit(limit: nat, k: nat)
    requires limit >= 1
    ensures Final(limit, k, Seated(limit, k, 0), Leaving(limit, k)) == limit - 1 + k
  {
    AllLeave(limit, k);
    PassesFinal(limit, k, Seatings(limit, k), Leaving(limit, k));
    SeatedCounts(limit, k, k);
  }

  lemma OneMoreEnters(s: State, limit: nat, k: nat, i: nat, rest: seq<Action>, m: nat)
    requires limit >= 1 && i < k && Waiting(s, limit, k, i)
    requires Final(limit, k, s.(requests := s.requests[i := Passed(i)]), rest) == m
    ensures Final(limit, k, s, [Lookup(i, i, 0)] + ([CheckCapacity(i)] + rest)) == m
  {
    var t, u := s.(requests := s.requests[i := Found(i)]), s.(requests := s.requests[i := Passed(i)]);
    FewInFlight(s, k);
    OneEnters(s, limit, k, i);
    EnteredWaits(s, limit, k, i);
    FinalLater(limit, k, t, CheckCapacity(i), u, rest, m);
    FinalLater(limit, k, s, Lookup(i, i, 0), t, [CheckCapacity(i)] + rest, m);
  }

  lemma {:induction false} AllEnter(s: State, limit: nat, k: nat, i: nat)
    requires limit >= 1 && i <= k && Waiting(s, limit, k, i)
    ensures Final(limit, k, s, EnterFrom(limit, k, i)) == limit - 1 + k
    decreases k - i
  {
    if i < k {
      EnteredWaits(s, limit, k, i);
      AllEnter(s.(requests := s.requests[i := Passed(i)]), limit, k, i + 1);
      OneMoreEnters(s, limit, k, i, EnterFrom(limit, k, i + 1), limit - 1 + k);
    } else {
      WaitingIsSeated(s, limit, k);
      AllCommit(limit, k);
    }
  }

  /** For every `k`, `k` pairings that pass the check of an almost full workspace together take it to limit + k - 1. */
  lemma BoundIsAttained(limit: nat, k: nat)
    requires limit >= 1
    ensures var s, run := AlmostFull(limit, k), EnterFrom(limit, k, 0);
      && s.requests == map[] && |Members(s, 0)| == limit - 1 && AtMost(limit, k, 0, s, run)
      && |Members(Exec(limit, s, run), 0)| == limit - 1 + k
  {
    UpToSize(limit - 1);
    AllEnter(AlmostFull(limit, k), limit, k, 0);
  }

  // ---------- the limit holds exactly for sequential pairings ----------

  ghost predicate LimitHolds(limit: int, k: nat) {
    forall s: State, run: seq<Action>, w: Workspace | s.requests == map[] && |Members(s, w)| <= limit
        && AtMost(limit, k, w, s, run) ::
      |Members(Exec(limit, s, run), w)| <= limit
  }

  lemma {:induction false} AtMostGrows(limit: int, k: nat, l: nat, w: Workspace, s: State, run: seq<Action>)
    requires k <= l && AtMost(limit, k, w, s, run)
    ensures AtMost(limit, l, w, s, run)
    decreases run
  {
    if run != [] {
      AtMostGrows(limit, k, l, w, Next(limit, s, run[0]), run[1..]);
    }
  }

  /** The member limit is kept exactly when no two pairings overlap between check and commit. */
  lemma LimitHoldsIffSequential(limit: nat, k: nat)
    requires limit >= 1
    ensures LimitHolds(limit, k) <==> k <= 1
  {
    if k <= 1 {
      forall s: State, run: seq<Action>, w: Workspace
        | s.requests == map[] && |Members(s, w)| <= limit && AtMost(limit, k, w, s, run)
        ensures |Members(Exec(limit, s, run), w)| <= limit
      {
        AtMostGrows(limit, k, 1, w, s, run);
        assert InFlight(s, w) == {};
        MembersStayBounded(limit, 1, s, run, w);
      }
    } else {
      BoundIsAttained(limit, k);
      var s, run := AlmostFull(limit, k), EnterFrom(limit, k, 0);
      assert s.requests == map[] && |Members(s, 0)| <= limit && AtMost(limit, k, 0, s, run);
    }
  }

  // ---------- the service ----------

  class PairingService {
    var codes: map<Code, CodeRow>
    var users: set<User>
    var seats: map<Workspace, set<User>>
    var devices: map<Device, User>
    var requests: map<Pid, Request>
    ghost var made: seq<Made>

    ghost function View(): State
      reads this
    {
      State(codes, users, seats, devices, requests, made)
    }

    constructor ()
      ensures View() == State(map[], {}, map[], map[], map[], [])
    {
      codes, users, seats, devices, requests, made := map[], {}, map[], map[], map[], [];
    }

    method FindCode(pid: Pid, code: Code, at: int) returns (ok: bool)
      requires pid !in requests
      modifies this
      ensures forall limit :: View() == Next(limit, old(View()), Lookup(pid, code, at))
      ensures ok <==> pid in requests
    {
      ok := code in codes && !codes[code].used && codes[code].expiresAt > at;
      if ok {
        requests := requests[pid := Found(code)];
      }
    }

    /** assertWorkspaceCapacity; `configured` is MAX_PRIVATE_USERS. */
    method AssertCapacity(configured: int, pid: Pid) returns (ok: bool)
      requires pid in requests && requests[pid].Found? && requests[pid].code in codes
      modifies this
      ensures View() == Next(Limit(configured), old(View()), CheckCapacity(pid))
      ensures ok <==> pid in requests
    {
      var code := requests[pid].code;
      var w := codes[code].workspace;
      var members := if w in seats then |seats[w]| else 0;
      var limit := if configured > 1 then configured else 1;
      if members >= limit {
        requests := requests - {pid};
        return false;
      }
      requests := requests[pid := Passed(code)];
      ok := true;
    }

    /** The pairing transaction. */
    method ClaimCode(pid: Pid, user: User, device: Device, at: int) returns (ok: bool)
      requires pid in requests && requests[pid].Passed? && Fresh(View(), user, device)
      modifies this
      ensures forall limit :: View() == Next(limit, old(View()), Commit(pid, user, device, at))
      ensures ok <==> Usable(old(View()), old(requests)[pid].code, at)
    {
      var code := requests[pid].code;
      requests := requests - {pid};
      ok := code in codes && !codes[code].used && codes[code].expiresAt > at;
      if ok {
        var row := codes[code];
        codes := codes[code := row.(used := true)];
        users := users + {user};
        seats := seats[row.workspace := (if row.workspace in seats then seats[row.workspace] else {}) + {user}];
        devices := devices[device := user];
        made := made + [Made(code, row.workspace, user, device)];
      }
    }
  }
}
