/** The extension login handshake: a challenge becomes a ticket, and a ticket is spent by `exchangeTicket`
    or by `sync`. Each request reads first and writes conditionally later; others may come between.
    Times are the milliseconds the statements read; nothing here depends on their order. */
module Handshake {
  import opened Common

  type DeviceId = nat
  type Workspace = nat
  type ChallengeId = nat
  type TicketId = nat
  type Pid = nat

  const CHALLENGE_MS := 120_000
  const TICKET_MS := 60_000

  datatype Device = Device(workspace: Workspace, active: bool)

  datatype Challenge = Challenge(device: DeviceId, nonce: nat, createdAt: int, used: bool)

  /** `origin` is history: the challenge whose verification created the ticket. */
  datatype Ticket = Ticket(device: DeviceId, expiresAt: int, used: bool, origin: ChallengeId)

  datatype Consumer = Exchange | SessionSync

  datatype Spend = Spend(ticket: TicketId, via: Consumer, at: int)

  /** What a request has checked and is about to write. */
  datatype Request =
    | Challenging(device: DeviceId)
    | Verifying(challenge: ChallengeId)
    | Spending(ticket: TicketId, via: Consumer)

  datatype State = State(
    devices: map<DeviceId, Device>, challenges: map<ChallengeId, Challenge>, tickets: map<TicketId, Ticket>,
    requests: map<Pid, Request>, spends: seq<Spend>)

  datatype Action =
    | Pair(device: DeviceId, workspace: Workspace, at: int)
    | Revoke(device: DeviceId, workspace: Workspace, role: Option<Role>, at: int)
    | ReadDevice(pid: Pid, device: DeviceId, at: int)
    | CreateChallenge(pid: Pid, challenge: ChallengeId, nonce: nat, at: int)
    | ReadChallenge(pid: Pid, challenge: ChallengeId, device: DeviceId, nonce: nat, signed: bool, at: int)
    | ConsumeChallenge(pid: Pid, ticket: TicketId, at: int)
    | ReadTicket(pid: Pid, ticket: TicketId, via: Consumer, at: int)
    | SpendTicket(pid: Pid, at: int)

  const INITIAL := State(map[], map[], map[], map[], [])

  predicate IsActive(s: State, d: DeviceId) { d in s.devices && s.devices[d].active }

  /** Owners and admins may revoke. */
  predicate MayRevoke(role: Option<Role>) { role == Some(OWNER) || role == Some(ADMIN) }

  predicate CanRevoke(s: State, d: DeviceId, w: Workspace, role: Option<Role>) {
    MayRevoke(role) && IsActive(s, d) && s.devices[d].workspace == w
  }

  predicate ChallengeOpen(s: State, c: ChallengeId, at: int) {
    c in s.challenges && !s.challenges[c].used && s.challenges[c].createdAt + CHALLENGE_MS > at
  }

  predicate TicketOpen(s: State, t: TicketId, at: int) {
    t in s.tickets && !s.tickets[t].used && s.tickets[t].expiresAt > at
  }

  function Begin(s: State, pid: Pid, r: Request): State { s.(requests := s.requests[pid := r]) }

  function End(s: State, pid: Pid): State { s.(requests := s.requests - {pid}) }

  function Opened(s: State, pid: Pid, c: ChallengeId, d: DeviceId, nonce: nat, at: int): State {
    End(s, pid).(challenges := s.challenges[c := Challenge(d, nonce, at, false)])
  }

  function Verified(s: State, pid: Pid, c: ChallengeId, t: TicketId, at: int): State
    requires c in s.challenges
  {
    End(s, pid).(challenges := s.challenges[c := s.challenges[c].(used := true)],
                 tickets := s.tickets[t := Ticket(s.challenges[c].device, at + TICKET_MS, false, c)])
  }

  function Spent(s: State, pid: Pid, t: TicketId, via: Consumer, at: int): State
    requires t in s.tickets
  {
    End(s, pid).(tickets := s.tickets[t := s.tickets[t].(used := true)], spends := s.spends + [Spend(t, via, at)])
  }

  /** A request that fails a check ends there. */
  function Next(s: State, a: Action): State {
    match a
    case Pair(d, w, _) => if d in s.devices then s else s.(devices := s.devices[d := Device(w, true)])
    case Revoke(d, w, role, _) =>
      if CanRevoke(s, d, w, role) then s.(devices := s.devices[d := s.devices[d].(active := false)]) else s
    case ReadDevice(pid, d, _) =>
      if pid !in s.requests && IsActive(s, d) then Begin(s, pid, Challenging(d)) else s
    case CreateChallenge(pid, c, nonce, at) =>
      if pid in s.requests && s.requests[pid].Challenging? && c !in s.challenges
      then Opened(s, pid, c, s.requests[pid].device, nonce, at) else s
    case ReadChallenge(pid, c, d, nonce, signed, at) =>
      if pid !in s.requests && ChallengeOpen(s, c, at) && s.challenges[c].device == d && s.challenges[c].nonce == nonce
         && IsActive(s, d) && signed
      then Begin(s, pid, Verifying(c)) else s
    case ConsumeChallenge(pid, t, at) =>
      if pid in s.requests && s.requests[pid].Verifying? && t !in s.tickets then
        var c := s.requests[pid].challenge;
        if ChallengeOpen(s, c, at) then Verified(s, pid, c, t, at) else End(s, pid)
      else s
    case ReadTicket(pid, t, via, at) =>
      if pid !in s.requests && TicketOpen(s, t, at) && IsActive(s, s.tickets[t].device)
      then Begin(s, pid, Spending(t, via)) else s
    case SpendTicket(pid, at) =>
      if pid in s.requests && s.requests[pid].Spending? then
        var t := s.requests[pid].ticket;
        if TicketOpen(s, t, at) then Spent(s, pid, t, s.requests[pid].via, at) else End(s, pid)
      else s
  }

  function Exec(s: State, run: seq<Action>): State
    decreases run
  {
    if run == [] then s else Exec(Next(s, run[0]), run[1..])
  }

  // ---------- the invariant ----------

  /** Tickets and used challenges correspond one to one, within one device. */
  ghost predicate Bijection(s: State) {
    && (forall t | t in s.tickets :: var c := s.tickets[t].origin;
          c in s.challenges && s.challenges[c].used && s.challenges[c].device == s.tickets[t].device
          && s.tickets[t].expiresAt < s.challenges[c].createdAt + CHALLENGE_MS + TICKET_MS)
    && (forall t, u | t in s.tickets && u in s.tickets && s.tickets[t].origin == s.tickets[u].origin :: t == u)
    && (forall c | c in s.challenges && s.challenges[c].used :: HasTicket(s, c))
  }

  ghost predicate HasTicket(s: State, c: ChallengeId) {
    exists t :: t in s.tickets && s.tickets[t].origin == c
  }

  /** Tickets are marked used exactly when spent, and spent once, before they expire. */
  ghost predicate SpentOnce(s: State) {
    && (forall t | t in s.tickets :: s.tickets[t].used <==> IsSpent(s.spends, t))
    && (forall e | e in s.spends :: e.ticket in s.tickets && e.at < s.tickets[e.ticket].expiresAt)
    && (forall i, j | 0 <= i < j < |s.spends| :: s.spends[i].ticket != s.spends[j].ticket)
  }

  ghost predicate IsSpent(spends: seq<Spend>, t: TicketId) {
    exists i | 0 <= i < |spends| :: spends[i].ticket == t
  }

  function DeviceOf(s: State, r: Request): Option<DeviceId> {
    match r
    case Challenging(d) => Some(d)
    case Verifying(c) => if c in s.challenges then Some(s.challenges[c].device) else None
    case Spending(t, _) => if t in s.tickets then Some(s.tickets[t].device) else None
  }

  /** Requests only refer to rows that exist. */
  predicate KnownRows(s: State) {
    forall p | p in s.requests :: DeviceOf(s, s.requests[p]).Some?
  }

  ghost predicate Inv(s: State) { Bijection(s) && SpentOnce(s) && KnownRows(s) }

  lemma VerifiedKeepsBijection(s: State, pid: Pid, c: ChallengeId, t: TicketId, at: int)
    requires Bijection(s) && t !in s.tickets && ChallengeOpen(s, c, at)
    ensures Bijection(Verified(s, pid, c, t, at))
  {
    var n := Verified(s, pid, c, t, at);
    assert n.tickets[t].origin == c;
    forall d | d in n.challenges && n.challenges[d].used ensures HasTicket(n, d) {
      if d != c {
        assert HasTicket(s, d);
        var u :| u in s.tickets && s.tickets[u].origin == d;
        assert u in n.tickets && n.tickets[u].origin == d;
      }
    }
  }

  lemma VerifiedKeepsSpentOnce(s: State, pid: Pid, c: ChallengeId, t: TicketId, at: int)
    requires SpentOnce(s) && t !in s.tickets && c in s.challenges
    ensures SpentOnce(Verified(s, pid, c, t, at))
  {
    forall i | 0 <= i < |s.spends| ensures s.spends[i].ticket != t { assert s.spends[i] in s.spends; }
  }

  lemma SpentKeepsSpentOnce(s: State, pid: Pid, t: TicketId, via: Consumer, at: int)
    requires SpentOnce(s) && TicketOpen(s, t, at)
    ensures SpentOnce(Spent(s, pid, t, via, at))
  {
    var n := Spent(s, pid, t, via, at);
    assert n.spends[|s.spends|].ticket == t;
    forall u | u in n.tickets ensures n.tickets[u].used <==> IsSpent(n.spends, u) {
      if i :| 0 <= i < |s.spends| && s.spends[i].ticket == u { assert n.spends[i].ticket == u; }
      if i :| 0 <= i < |n.spends| && n.spends[i].ticket == u && u != t { assert s.spends[i].ticket == u; }
    }
    forall i | 0 <= i < |s.spends| ensures n.spends[i].ticket != t {
      assert !IsSpent(s.spends, t);
    }
  }

  lemma SpentKeepsBijection(s: State, pid: Pid, t: TicketId, via: Consumer, at: int)
    requires Bijection(s) && t in s.tickets
    ensures Bijection(Spent(s, pid, t, via, at))
  {
    var n := Spent(s, pid, t, via, at);
    forall c | c in n.challenges && n.challenges[c].used ensures HasTicket(n, c) {
      assert HasTicket(s, c);
      var u :| u in s.tickets && s.tickets[u].origin == c;
      assert u in n.tickets && n.tickets[u].origin == c;
    }
  }

  /** Tickets, spends and old challenges are as before; new challenges are unused. */
  predicate Frame(s: State, n: State) {
    && n.tickets == s.tickets && n.spends == s.spends
    && (forall c | c in s.challenges :: c in n.challenges && n.challenges[c] == s.challenges[c])
    && (forall c | c in n.challenges && n.challenges[c].used :: c in s.challenges)
  }

  lemma FrameKeeps(s: State, n: State)
    requires Bijection(s) && SpentOnce(s) && Frame(s, n)
    ensures Bijection(n) && SpentOnce(n)
  {
    forall c | c in n.challenges && n.challenges[c].used ensures HasTicket(n, c) {
      assert HasTicket(s, c);
    }
  }

  /** The two actions that write tickets, when their conditional update matches. */
  predicate Claims(s: State, a: Action) {
    || (a.ConsumeChallenge? && a.pid in s.requests && s.requests[a.pid].Verifying? && a.ticket !in s.tickets
        && ChallengeOpen(s, s.requests[a.pid].challenge, a.at))
    || (a.SpendTicket? && a.pid in s.requests && s.requests[a.pid].Spending?
        && TicketOpen(s, s.requests[a.pid].ticket, a.at))
  }

  lemma OtherActionsFrame(s: State, a: Action)
    requires !Claims(s, a)
    ensures Frame(s, Next(s, a))
  {
  }

  lemma StepKeepsRows(s: State, a: Action)
    requires KnownRows(s)
    ensures KnownRows(Next(s, a))
  {
  }

  lemma ClaimsKeepInv(s: State, a: Action)
    requires Bijection(s) && SpentOnce(s) && Claims(s, a)
    ensures Bijection(Next(s, a)) && SpentOnce(Next(s, a))
  {
    if a.ConsumeChallenge? {
      VerifiedKeepsBijection(s, a.pid, s.requests[a.pid].challenge, a.ticket, a.at);
      VerifiedKeepsSpentOnce(s, a.pid, s.requests[a.pid].challenge, a.ticket, a.at);
    } else {
      SpentKeepsBijection(s, a.pid, s.requests[a.pid].ticket, s.requests[a.pid].via, a.at);
      SpentKeepsSpentOnce(s, a.pid, s.requests[a.pid].ticket, s.requests[a.pid].via, a.at);
    }
  }

  lemma StepKeepsInv(s: State, a: Action)
    requires Inv(s)
    ensures Inv(Next(s, a))
  {
    StepKeepsRows(s, a);
    if Claims(s, a) {
      ClaimsKeepInv(s, a);
    } else {
      OtherActionsFrame(s, a);
      FrameKeeps(s, Next(s, a));
    }
  }

  lemma {:induction false} RunKeepsInv(s: State, run: seq<Action>)
    requires Inv(s)
    ensures Inv(Exec(s, run))
    decreases run
  {
    if run != [] {
      StepKeepsInv(s, run[0]);
      RunKeepsInv(Next(s, run[0]), run[1..]);
    }
  }

  // ---------- what holds over every run ----------

  /** Every ticket comes from its own used challenge of the same device, and every used challenge has one. */
  lemma TicketsMatchUsedChallenges(run: seq<Action>)
    ensures Bijection(Exec(INITIAL, run))
  {
    RunKeepsInv(INITIAL, run);
  }

  /** The challenge a spend goes back to. */
  function OriginOf(s: State, e: Spend): Option<ChallengeId> {
    if e.ticket in s.tickets then Some(s.tickets[e.ticket].origin) else None
  }

  /** Every spend goes back to a challenge of its device created less than 180 s before: at most 179998 ms. */
  lemma SpendsAreTimely(run: seq<Action>, i: nat)
    requires i < |Exec(INITIAL, run).spends|
    ensures var s := Exec(INITIAL, run); var e := s.spends[i];
      e.ticket in s.tickets && s.tickets[e.ticket].used && OriginOf(s, e).value in s.challenges
    ensures var s := Exec(INITIAL, run); var e := s.spends[i]; var c := s.challenges[OriginOf(s, e).value];
      c.device == s.tickets[e.ticket].device && e.at <= c.createdAt + 179_998
  {
    RunKeepsInv(INITIAL, run);
    var s := Exec(INITIAL, run);
    assert s.spends[i] in s.spends;
    assert IsSpent(s.spends, s.spends[i].ticket);
  }

  lemma OneSpendPerOrigin(s: State, i: nat, j: nat)
    requires Bijection(s) && SpentOnce(s) && i < |s.spends| && j < |s.spends|
    requires OriginOf(s, s.spends[i]) == OriginOf(s, s.spends[j])
    ensures i == j
  {
    assert s.spends[i] in s.spends && s.spends[j] in s.spends;
    assert s.spends[i].ticket == s.spends[j].ticket;
  }

  /** A challenge leads to at most one spend, whichever consumer makes it. */
  lemma SpendsAreUnique(run: seq<Action>, i: nat, j: nat)
    requires i < |Exec(INITIAL, run).spends| && j < |Exec(INITIAL, run).spends|
    requires OriginOf(Exec(INITIAL, run), Exec(INITIAL, run).spends[i])
          == OriginOf(Exec(INITIAL, run), Exec(INITIAL, run).spends[j])
    ensures i == j
  {
    RunKeepsInv(INITIAL, run);
    OneSpendPerOrigin(Exec(INITIAL, run), i, j);
  }

  // ---------- revocation ----------

  predicate Inactive(s: State, d: DeviceId) { d in s.devices && !s.devices[d].active }

  /** The device is revoked and no request that saw it active is still on its way. */
  predicate ShutOut(s: State, d: DeviceId) {
    && Inactive(s, d)
    && (forall p | p in s.requests :: DeviceOf(s, s.requests[p]) != Some(d))
  }

  function ChallengesOf(s: State, d: DeviceId): set<ChallengeId> {
    set c | c in s.challenges && s.challenges[c].device == d
  }

  function TicketsOf(s: State, d: DeviceId): set<TicketId> {
    set t | t in s.tickets && s.tickets[t].device == d
  }

  function SpendsOf(s: State, d: DeviceId): set<Spend> {
    set e | e in s.spends && e.ticket in s.tickets && s.tickets[e.ticket].device == d
  }

  lemma ShutOutStays(s: State, a: Action, d: DeviceId)
    requires KnownRows(s) && ShutOut(s, d)
    ensures ShutOut(Next(s, a), d)
  {
  }

  lemma NothingWhileShutOut(s: State, a: Action, d: DeviceId)
    requires KnownRows(s) && ShutOut(s, d)
    ensures ChallengesOf(Next(s, a), d) == ChallengesOf(s, d)
    ensures TicketsOf(Next(s, a), d) == TicketsOf(s, d)
  {
  }

  lemma NoSpendWhileShutOut(s: State, a: Action, d: DeviceId)
    requires KnownRows(s) && ShutOut(s, d) && SpentOnce(s)
    ensures SpendsOf(Next(s, a), d) == SpendsOf(s, d)
  {
    if Claims(s, a) && a.SpendTicket? {
      var t := s.requests[a.pid].ticket;
      assert DeviceOf(s, s.requests[a.pid]) != Some(d);
    }
  }

  /** From then on the device gets no challenge, no ticket and no session. */
  lemma {:induction false} ShutOutForever(s: State, run: seq<Action>, d: DeviceId)
    requires Inv(s) && ShutOut(s, d)
    ensures var n := Exec(s, run);
      ShutOut(n, d) && ChallengesOf(n, d) == ChallengesOf(s, d) && TicketsOf(n, d) == TicketsOf(s, d)
      && SpendsOf(n, d) == SpendsOf(s, d)
    decreases run
  {
    if run != [] {
      ShutOutStays(s, run[0], d);
      NothingWhileShutOut(s, run[0], d);
      NoSpendWhileShutOut(s, run[0], d);
      StepKeepsInv(s, run[0]);
      ShutOutForever(Next(s, run[0]), run[1..], d);
    }
  }

  // ---------- what a revocation does not stop ----------

  /** The requests on the device that passed their checks and have not written yet. */
  function InFlight(s: State, d: DeviceId): set<Pid> {
    set p | p in s.requests && DeviceOf(s, s.requests[p]) == Some(d)
  }

  /** All that the device has been given, and what may still come. */
  function Given(s: State, d: DeviceId): nat {
    |ChallengesOf(s, d)| + |TicketsOf(s, d)| + |SpendsOf(s, d)|
  }

  /** The action writes the challenge of a request. */
  predicate Creates(s: State, a: Action) {
    a.CreateChallenge? && a.pid in s.requests && s.requests[a.pid].Challenging? && a.challenge !in s.challenges
  }

  /** No request of the device has come up since `s`, and each thing it was given since used one up. */
  predicate Drained(s: State, n: State, d: DeviceId) {
    InFlight(n, d) <= InFlight(s, d) && Given(n, d) + |InFlight(n, d)| <= Given(s, d) + |InFlight(s, d)|
  }

  lemma FlightOthers(s: State, a: Action, d: DeviceId)
    requires KnownRows(s) && Inactive(s, d) && !Creates(s, a) && !Claims(s, a)
    ensures InFlight(Next(s, a), d) <= InFlight(s, d)
    ensures ChallengesOf(Next(s, a), d) == ChallengesOf(s, d) && TicketsOf(Next(s, a), d) == TicketsOf(s, d)
    ensures SpendsOf(Next(s, a), d) == SpendsOf(s, d)
  {
  }

  /** A write for request `pid` gave the device `given` more things. */
  predicate GivenFor(s: State, n: State, d: DeviceId, pid: Pid, given: nat) {
    InFlight(n, d) == InFlight(s, d) - {pid} && Given(n, d) == Given(s, d) + given
  }

  lemma GivenDrains(s: State, n: State, d: DeviceId, pid: Pid, given: nat)
    requires GivenFor(s, n, d, pid, given) && given <= 1 && (given == 1 ==> pid in InFlight(s, d))
    ensures Drained(s, n, d)
  {
    if given == 0 { SmallerIsFewer(InFlight(n, d), InFlight(s, d)); }
  }

  lemma OpenedSets(s: State, pid: Pid, c: ChallengeId, owner: DeviceId, nonce: nat, at: int, d: DeviceId)
    requires c !in s.challenges
    ensures var n := Opened(s, pid, c, owner, nonce, at);
      TicketsOf(n, d) == TicketsOf(s, d) && SpendsOf(n, d) == SpendsOf(s, d)
      && ChallengesOf(n, d) == ChallengesOf(s, d) + if owner == d then {c} else {}
  {
  }

  lemma FlightOpens(s: State, pid: Pid, c: ChallengeId, nonce: nat, at: int, d: DeviceId)
    requires KnownRows(s) && pid in s.requests && s.requests[pid].Challenging? && c !in s.challenges
    ensures Drained(s, Opened(s, pid, c, s.requests[pid].device, nonce, at), d)
  {
    var owner := s.requests[pid].device;
    var n := Opened(s, pid, c, owner, nonce, at);
    FlightRest(s, n, pid, d);
    OpenedSets(s, pid, c, owner, nonce, at, d);
    assert c !in ChallengesOf(s, d);
    GivenDrains(s, n, d, pid, if owner == d then 1 else 0);
  }

  lemma VerifiedSets(s: State, pid: Pid, c: ChallengeId, t: TicketId, at: int, d: DeviceId)
    requires c in s.challenges && t !in s.tickets && forall e | e in s.spends :: e.ticket in s.tickets
    ensures var n := Verified(s, pid, c, t, at);
      ChallengesOf(n, d) == ChallengesOf(s, d) && SpendsOf(n, d) == SpendsOf(s, d)
      && TicketsOf(n, d) == TicketsOf(s, d) + if s.challenges[c].device == d then {t} else {}
  {
  }

  lemma FlightVerifies(s: State, pid: Pid, c: ChallengeId, t: TicketId, at: int, d: DeviceId)
    requires KnownRows(s) && pid in s.requests && s.requests[pid] == Verifying(c) && c in s.challenges
        && t !in s.tickets
    requires forall e | e in s.spends :: e.ticket in s.tickets
    ensures Drained(s, Verified(s, pid, c, t, at), d)
  {
    var n := Verified(s, pid, c, t, at);
    FlightRest(s, n, pid, d);
    VerifiedSets(s, pid, c, t, at, d);
    assert t !in TicketsOf(s, d);
    GivenDrains(s, n, d, pid, if s.challenges[c].device == d then 1 else 0);
  }

  lemma SpentSets(s: State, pid: Pid, t: TicketId, via: Consumer, at: int, d: DeviceId)
    requires t in s.tickets
    ensures var n := Spent(s, pid, t, via, at);
      ChallengesOf(n, d) == ChallengesOf(s, d) && TicketsOf(n, d) == TicketsOf(s, d)
      && SpendsOf(n, d) == SpendsOf(s, d) + if s.tickets[t].device == d then {Spend(t, via, at)} else {}
  {
  }

  lemma FlightSpends(s: State, pid: Pid, t: TicketId, via: Consumer, at: int, d: DeviceId)
    requires KnownRows(s) && pid in s.requests && s.requests[pid] == Spending(t, via) && t in s.tickets
    requires forall e | e in s.spends :: e.ticket != t
    ensures Drained(s, Spent(s, pid, t, via, at), d)
  {
    var n := Spent(s, pid, t, via, at);
    FlightRest(s, n, pid, d);
    SpentSets(s, pid, t, via, at, d);
    assert Spend(t, via, at) !in SpendsOf(s, d);
    GivenDrains(s, n, d, pid, if s.tickets[t].device == d then 1 else 0);
  }

  /** A write ends its request and moves no other request to another device. */
  lemma FlightRest(s: State, n: State, pid: Pid, d: DeviceId)
    requires KnownRows(s) && n.requests == s.requests - {pid}
    requires forall c | c in s.challenges :: c in n.challenges && n.challenges[c].device == s.challenges[c].device
    requires forall t | t in s.tickets :: t in n.tickets && n.tickets[t].device == s.tickets[t].device
    ensures InFlight(n, d) == InFlight(s, d) - {pid}
  {
  }

  lemma UnusedIsUnspent(s: State, t: TicketId)
    requires SpentOnce(s) && t in s.tickets && !s.tickets[t].used
    ensures forall e | e in s.spends :: e.ticket != t
  {
    forall e | e in s.spends ensures e.ticket != t {
      var i :| 0 <= i < |s.spends| && s.spends[i] == e;
      assert !IsSpent(s.spends, t);
    }
  }

  lemma StepDrains(s: State, a: Action, d: DeviceId)
    requires KnownRows(s) && SpentOnce(s) && Inactive(s, d)
    ensures Drained(s, Next(s, a), d)
  {
    if Creates(s, a) {
      FlightOpens(s, a.pid, a.challenge, a.nonce, a.at, d);
    } else if Claims(s, a) && a.ConsumeChallenge? {
      FlightVerifies(s, a.pid, s.requests[a.pid].challenge, a.ticket, a.at, d);
    } else if Claims(s, a) {
      UnusedIsUnspent(s, s.requests[a.pid].ticket);
      FlightSpends(s, a.pid, s.requests[a.pid].ticket, s.requests[a.pid].via, a.at, d);
    } else {
      FlightOthers(s, a, d);
      SmallerIsFewer(InFlight(Next(s, a), d), InFlight(s, d));
    }
  }

  lemma StaysInactive(s: State, a: Action, d: DeviceId)
    requires Inactive(s, d)
    ensures Inactive(Next(s, a), d)
  {
  }

  /** From a revocation on no new request gets past its checks, and the device is given at most as many further
      challenges, tickets and spends together as it had requests past their checks at that moment. */
  lemma {:induction false} RevocationDrains(s: State, run: seq<Action>, d: DeviceId)
    requires Inv(s) && Inactive(s, d)
    ensures var n := Exec(s, run);
      InFlight(n, d) <= InFlight(s, d) && Given(n, d) + |InFlight(n, d)| <= Given(s, d) + |InFlight(s, d)|
    decreases run
  {
    if run != [] {
      StepDrains(s, run[0], d);
      StepKeepsInv(s, run[0]);
      StaysInactive(s, run[0], d);
      RevocationDrains(Next(s, run[0]), run[1..], d);
    }
  }

  // ---------- exactly when a revocation is the end ----------

  /** The write that the request is about to make would go through at `now`. */
  predicate CanWrite(s: State, r: Request, now: int) {
    match r
    case Challenging(_) => true
    case Verifying(c) => ChallengeOpen(s, c, now)
    case Spending(t, _) => TicketOpen(s, t, now)
  }

  /** None of the device's requests in flight can write any more. */
  predicate Finished(s: State, d: DeviceId, now: int) {
    forall p | p in InFlight(s, d) :: !CanWrite(s, s.requests[p], now)
  }

  predicate Later(now: int, run: seq<Action>) {
    forall i | 0 <= i < |run| :: run[i].at >= now
  }

  predicate SameGifts(s: State, n: State, d: DeviceId) {
    && ChallengesOf(n, d) == ChallengesOf(s, d) && TicketsOf(n, d) == TicketsOf(s, d)
    && SpendsOf(n, d) == SpendsOf(s, d)
  }

  /** A request that cannot write now never can again. */
  lemma StaysUnable(s: State, a: Action, r: Request, now: int)
    requires DeviceOf(s, r).Some? && CanWrite(Next(s, a), r, now)
    ensures CanWrite(s, r, now)
  {
  }

  lemma FlightKeeps(s: State, a: Action, d: DeviceId, p: Pid)
    requires KnownRows(s) && Inactive(s, d) && p in InFlight(Next(s, a), d)
    ensures p in InFlight(s, d) && Next(s, a).requests[p] == s.requests[p]
  {
  }

  lemma WritesElsewhere(s: State, a: Action, d: DeviceId)
    requires KnownRows(s) && SpentOnce(s) && (Creates(s, a) || Claims(s, a)) && a.pid !in InFlight(s, d)
    ensures SameGifts(s, Next(s, a), d)
  {
    if Creates(s, a) {
      OpenedSets(s, a.pid, a.challenge, s.requests[a.pid].device, a.nonce, a.at, d);
    } else if a.ConsumeChallenge? {
      VerifiedSets(s, a.pid, s.requests[a.pid].challenge, a.ticket, a.at, d);
    } else {
      SpentSets(s, a.pid, s.requests[a.pid].ticket, s.requests[a.pid].via, a.at, d);
    }
  }

  /** A write at `now` or later can be made at `now`. */
  lemma WritersCanWrite(s: State, a: Action, now: int)
    requires (Creates(s, a) || Claims(s, a)) && a.at >= now
    ensures a.pid in s.requests && CanWrite(s, s.requests[a.pid], now)
  {
  }

  lemma StepGivesNothing(s: State, a: Action, d: DeviceId, now: int)
    requires Inv(s) && Inactive(s, d) && Finished(s, d, now) && a.at >= now
    ensures Finished(Next(s, a), d, now) && SameGifts(s, Next(s, a), d)
  {
    forall p | p in InFlight(Next(s, a), d) ensures !CanWrite(Next(s, a), Next(s, a).requests[p], now) {
      FlightKeeps(s, a, d, p);
      if CanWrite(Next(s, a), s.requests[p], now) { StaysUnable(s, a, s.requests[p], now); }
    }
    if Creates(s, a) || Claims(s, a) {
      WritersCanWrite(s, a, now);
      WritesElsewhere(s, a, d);
    } else {
      FlightOthers(s, a, d);
    }
  }

  lemma {:induction false} RunGivesNothing(s: State, run: seq<Action>, d: DeviceId, now: int)
    requires Inv(s) && Inactive(s, d) && Finished(s, d, now) && Later(now, run)
    ensures SameGifts(s, Exec(s, run), d)
    decreases run
  {
    if run != [] {
      StepGivesNothing(s, run[0], d, now);
      StepKeepsInv(s, run[0]);
      StaysInactive(s, run[0], d);
      RunGivesNothing(Next(s, run[0]), run[1..], d, now);
    }
  }

  lemma {:induction false} Unused(used: set<nat>) returns (n: nat)
    ensures forall m | m in used :: m < n
  {
    if used == {} {
      n := 0;
    } else {
      var m :| m in used;
      var rest := Unused(used - {m});
      n := if m < rest then rest else m + 1;
      forall k | k in used ensures k < n {
        assert k != m ==> k in used - {m};
      }
    }
  }

  /** A request that can write now does so in one step, and the device is given something. */
  lemma OneWrite(s: State, d: DeviceId, p: Pid, now: int) returns (a: Action)
    requires Inv(s) && p in InFlight(s, d) && CanWrite(s, s.requests[p], now)
    ensures a.at == now && !SameGifts(s, Next(s, a), d)
  {
    match s.requests[p] {
      case Challenging(owner) =>
        var c := Unused(s.challenges.Keys);
        a := CreateChallenge(p, c, 0, now);
        OpenedSets(s, p, c, owner, 0, now, d);
        assert c in ChallengesOf(Next(s, a), d) && c !in ChallengesOf(s, d);
      case Verifying(c) =>
        var t := Unused(s.tickets.Keys);
        a := ConsumeChallenge(p, t, now);
        VerifiedSets(s, p, c, t, now, d);
        assert t in TicketsOf(Next(s, a), d) && t !in TicketsOf(s, d);
      case Spending(t, via) =>
        a := SpendTicket(p, now);
        UnusedIsUnspent(s, t);
        SpentSets(s, p, t, via, now, d);
        assert Spend(t, via, now) in SpendsOf(Next(s, a), d) && Spend(t, via, now) !in SpendsOf(s, d);
    }
  }

  ghost predicate NothingMore(s: State, d: DeviceId, now: int) {
    forall run | Later(now, run) :: SameGifts(s, Exec(s, run), d)
  }

  /** A revoked device is given nothing more, whatever happens from `now` on, if and only if none of its requests past
      their checks can still write: no challenge to be created, no open challenge, no open ticket. */
  lemma RevocationIsFinalIff(s: State, d: DeviceId, now: int)
    requires Inv(s) && Inactive(s, d)
    ensures NothingMore(s, d, now) <==> forall p | p in InFlight(s, d) :: !CanWrite(s, s.requests[p], now)
  {
    if Finished(s, d, now) {
      forall run | Later(now, run) ensures SameGifts(s, Exec(s, run), d) {
        RunGivesNothing(s, run, d, now);
      }
    } else {
      var p :| p in InFlight(s, d) && CanWrite(s, s.requests[p], now);
      var a := OneWrite(s, d, p, now);
      assert [a][1..] == [];
      assert Exec(s, [a]) == Next(s, a) && Later(now, [a]);
    }
  }

  /** A device is verified and its ticket looked up as late as possible; it is revoked before the ticket is spent. */
  function LateRun(): seq<Action> {
    [ Pair(0, 0, 0), ReadDevice(0, 0, 0), CreateChallenge(0, 0, 0, 0), ReadChallenge(0, 0, 0, 0, true, 119_999),
      ConsumeChallenge(0, 0, 119_999), ReadTicket(0, 0, Exchange, 179_998), Revoke(0, 0, Some(OWNER), 179_998),
      SpendTicket(0, 179_998) ]
  }

  /** The state it ends in. */
  const LATE_END := State(map[0 := Device(0, false)], map[0 := Challenge(0, 0, 0, true)],
                          map[0 := Ticket(0, 179_999, true, 0)], map[], [Spend(0, Exchange, 179_998)])

  function LateState(n: nat): State
    requires n <= 8
  {
    var device, gone := map[0 := Device(0, true)], map[0 := Device(0, false)];
    var open, used := map[0 := Challenge(0, 0, 0, false)], map[0 := Challenge(0, 0, 0, true)];
    var ticket := map[0 := Ticket(0, 179_999, false, 0)];
    if n == 0 then INITIAL
    else if n == 1 then State(device, map[], map[], map[], [])
    else if n == 2 then State(device, map[], map[], map[0 := Challenging(0)], [])
    else if n == 3 then State(device, open, map[], map[], [])
    else if n == 4 then State(device, open, map[], map[0 := Verifying(0)], [])
    else if n == 5 then State(device, used, ticket, map[], [])
    else if n == 6 then State(device, used, ticket, map[0 := Spending(0, Exchange)], [])
    else if n == 7 then State(gone, used, ticket, map[0 := Spending(0, Exchange)], [])
    else LATE_END
  }

  lemma UntilTheTicket(n: nat)
    requires n < 5
    ensures Next(LateState(n), LateRun()[n]) == LateState(n + 1)
  {
    assert Next(LateState(n), LateRun()[n]).requests == LateState(n + 1).requests;
  }

  lemma FromTheTicket(n: nat)
    requires 5 <= n < 8
    ensures Next(LateState(n), LateRun()[n]) == LateState(n + 1)
  {
    assert Next(LateState(n), LateRun()[n]).requests == LateState(n + 1).requests;
  }

  lemma {:induction false} LateSteps(n: nat)
    requires n <= 8
    ensures Exec(LateState(n), LateRun()[n..]) == LATE_END
    decreases 8 - n
  {
    if n < 8 {
      if n < 5 { UntilTheTicket(n); } else { FromTheTicket(n); }
      assert LateRun()[n..][0] == LateRun()[n] && LateRun()[n..][1..] == LateRun()[n + 1..];
      LateSteps(n + 1);
    }
  }

  /** Both are real: a ticket looked up before the revocation is spent after it, and 179998 ms after the challenge. */
  lemma RevokedTicketIsSpent()
    ensures Exec(INITIAL, LateRun()) == LATE_END
  {
    LateSteps(0);
    assert LateRun()[0..] == LateRun();
  }

  lemma SmallerIsFewer<T>(a: set<T>, b: set<T>)
    requires a <= b
    ensures |a| <= |b|
  {
    assert b == a + (b - a);
  }

  // ---------- the service ----------

  datatype Revocation = Forbidden | NotFound | Revoked

  class HandshakeService {
    var devices: map<DeviceId, Device>
    var challenges: map<ChallengeId, Challenge>
    var tickets: map<TicketId, Ticket>
    var requests: map<Pid, Request>
    ghost var spends: seq<Spend>

    ghost function View(): State
      reads this
    {
      State(devices, challenges, tickets, requests, spends)
    }

    constructor ()
      ensures View() == INITIAL
    {
      devices, challenges, tickets, requests, spends := map[], map[], map[], map[], [];
    }

    /** `role` is the actor's membership in the workspace, if any. */
    method RevokeDevice(d: DeviceId, workspace: Workspace, role: Option<Role>, at: int) returns (outcome: Revocation)
      modifies this
      ensures View() == Next(old(View()), Revoke(d, workspace, role, at))
      ensures outcome.Forbidden? <==> role.None? || role.value.MEMBER? || role.value.VIEWER?
      ensures outcome.Revoked? <==> CanRevoke(old(View()), d, workspace, role)
    {
      if role.None? || (role.value != OWNER && role.value != ADMIN) {
        return Forbidden;
      }
      if d !in devices || devices[d].workspace != workspace || !devices[d].active {
        return NotFound;
      }
      devices := devices[d := devices[d].(active := false)];
      outcome := Revoked;
    }

    /** createChallenge, after the device was read as active; id and nonce are freshly generated. */
    method InsertChallenge(pid: Pid, c: ChallengeId, nonce: nat, at: int)
      requires pid in requests && requests[pid].Challenging? && c !in challenges
      modifies this
      ensures View() == Next(old(View()), CreateChallenge(pid, c, nonce, at))
    {
      challenges := challenges[c := Challenge(requests[pid].device, nonce, at, false)];
      requests := requests - {pid};
    }

    /** The checks of verifyChallenge; `signed` is the signature verdict. */
    method CheckChallenge(pid: Pid, c: ChallengeId, d: DeviceId, nonce: nat, signed: bool, at: int) returns (ok: bool)
      requires pid !in requests
      modifies this
      ensures View() == Next(old(View()), ReadChallenge(pid, c, d, nonce, signed, at))
      ensures ok <==> pid in requests
    {
      ok := false;
      if c !in challenges || challenges[c].device != d {
        return;
      }
      var row := challenges[c];
      if row.used || row.createdAt + 120_000 <= at || row.nonce != nonce {
        return;
      }
      if d !in devices || !devices[d].active || !signed {
        return;
      }
      requests := requests[pid := Verifying(c)];
      ok := true;
    }

    /** The transaction of verifyChallenge: claim the challenge and create its ticket. */
    method VerifyChallenge(pid: Pid, t: TicketId, at: int) returns (ok: bool)
      requires pid in requests && requests[pid].Verifying? && t !in tickets
      modifies this
      ensures View() == Next(old(View()), ConsumeChallenge(pid, t, at))
      ensures ok <==> t in tickets
    {
      var c := requests[pid].challenge;
      requests := requests - {pid};
      ok := c in challenges && !challenges[c].used && challenges[c].createdAt + 120_000 > at;
      if ok {
        challenges := challenges[c := challenges[c].(used := true)];
        tickets := tickets[t := Ticket(challenges[c].device, at + 60_000, false, c)];
      }
    }

    /** The lookup that exchangeTicket and sync share. */
    method FindTicket(pid: Pid, t: TicketId, via: Consumer, at: int) returns (ok: bool)
      requires pid !in requests
      modifies this
      ensures View() == Next(old(View()), ReadTicket(pid, t, via, at))
      ensures ok <==> pid in requests
    {
      ok := t in tickets && !tickets[t].used && tickets[t].expiresAt > at
            && tickets[t].device in devices && devices[tickets[t].device].active;
      if ok {
        requests := requests[pid := Spending(t, via)];
      }
    }

    /** The conditional update that spends the ticket. */
    method ConsumeTicket(pid: Pid, at: int) returns (ok: bool)
      requires pid in requests && requests[pid].Spending?
      modifies this
      ensures View() == Next(old(View()), SpendTicket(pid, at))
      ensures ok <==> TicketOpen(old(View()), old(requests)[pid].ticket, at)
    {
      var r := requests[pid];
      requests := requests - {pid};
      ok := r.ticket in tickets && !tickets[r.ticket].used && tickets[r.ticket].expiresAt > at;
      if ok {
        tickets := tickets[r.ticket := tickets[r.ticket].(used := true)];
        spends := spends + [Spend(r.ticket, r.via, at)];
      }
    }
  }
}
