/** What the tickets and spends of a run owe to its actions, told without the statements' own guards: who paired and
    revoked which device, which challenge was signed when, and when a login on its own succeeds. */
module HandshakeHistory {
  import opened Common
  import opened Handshake

  lemma {:induction false} LastStep(s: State, run: seq<Action>)
    requires run != []
    ensures Exec(s, run) == Next(Exec(s, run[..|run| - 1]), run[|run| - 1])
    decreases run
  {
    if |run| > 1 {
      LastStep(Next(s, run[0]), run[1..]);
      assert run[1..][..|run| - 2] == run[..|run| - 1][1..];
    }
  }

  // ---------- devices ----------

  /** The workspace that first paired the device. */
  function Home(run: seq<Action>, d: DeviceId): Option<Workspace> {
    if run == [] then None
    else
      var before, a := Home(run[..|run| - 1], d), run[|run| - 1];
      if before.None? && a.Pair? && a.device == d then Some(a.workspace) else before
  }

  /** An owner or an admin of that workspace has revoked it since. */
  function Banned(run: seq<Action>, d: DeviceId): bool {
    if run == [] then false
    else
      var before, a := run[..|run| - 1], run[|run| - 1];
      || Banned(before, d)
      || (a.Revoke? && a.device == d && Home(before, d) == Some(a.workspace) && a.role in {Some(OWNER), Some(ADMIN)})
  }

  predicate Trusted(run: seq<Action>, d: DeviceId) { Home(run, d).Some? && !Banned(run, d) }

  /** A device belongs to the workspace that paired it, and is active exactly until an owner or admin of that
      workspace revokes it. */
  lemma {:induction false} DevicesFollowHistory(run: seq<Action>, d: DeviceId)
    ensures var devices := Exec(INITIAL, run).devices;
      && (d in devices <==> Home(run, d).Some?)
      && (d in devices ==> Some(devices[d].workspace) == Home(run, d) && (devices[d].active <==> !Banned(run, d)))
      && (Banned(run, d) ==> Home(run, d).Some?)
  {
    if run != [] {
      DevicesFollowHistory(run[..|run| - 1], d);
      LastStep(INITIAL, run);
    }
  }

  // ---------- requests, challenges, tickets and spends ----------

  /** Action `i` of the run read device `d` for request `p` while it was trusted. */
  predicate ReadsDevice(run: seq<Action>, i: int, p: Pid, d: DeviceId) {
    0 <= i < |run| && run[i].ReadDevice? && run[i].pid == p && run[i].device == d && Trusted(run[..i], d)
  }

  /** Action `i` created challenge `c` as `row`, for a device read before by the same request. */
  ghost predicate Creates(run: seq<Action>, i: int, c: ChallengeId, row: Challenge) {
    && 0 <= i < |run| && run[i].CreateChallenge? && run[i].challenge == c
    && row.nonce == run[i].nonce && row.createdAt == run[i].at
    && exists m :: m < i && ReadsDevice(run, m, run[i].pid, row.device)
  }

  /** Action `i` presented a valid signature of challenge `c`, created as `row`, with its own device and nonce, in time
      and while the device was trusted. */
  predicate Proves(run: seq<Action>, i: int, p: Pid, c: ChallengeId, row: Challenge) {
    && 0 <= i < |run| && run[i].ReadChallenge? && run[i].pid == p && run[i].challenge == c
    && run[i].device == row.device && run[i].nonce == row.nonce && run[i].signed
    && run[i].at < row.createdAt + 120_000 && Trusted(run[..i], row.device)
  }

  /** Action `j` made ticket `t` as `row` for challenge `c`, proved before by the same request. */
  ghost predicate Issues(run: seq<Action>, j: int, t: TicketId, row: Ticket, c: Challenge) {
    && 0 <= j < |run| && run[j].ConsumeChallenge? && run[j].ticket == t
    && run[j].at < c.createdAt + 120_000 && row.expiresAt == run[j].at + 60_000 && row.device == c.device
    && exists i :: i < j && Proves(run, i, run[j].pid, row.origin, c)
  }

  /** Action `i` found ticket `t` for `via` in time and while its device was trusted. */
  predicate Finds(run: seq<Action>, i: int, p: Pid, t: TicketId, via: Consumer, row: Ticket) {
    && 0 <= i < |run| && run[i].ReadTicket? && run[i].pid == p && run[i].ticket == t && run[i].via == via
    && run[i].at < row.expiresAt && Trusted(run[..i], row.device)
  }

  ghost predicate Spends(run: seq<Action>, j: int, e: Spend, row: Ticket) {
    && 0 <= j < |run| && run[j].SpendTicket? && run[j].at == e.at && e.at < row.expiresAt
    && exists i :: i < j && Finds(run, i, run[j].pid, e.ticket, e.via, row)
  }

  // Only the use of a row changes after its creation.

  ghost predicate ChallengeTold(run: seq<Action>, s: State, c: ChallengeId)
    requires c in s.challenges
  {
    exists i :: Creates(run, i, c, s.challenges[c].(used := false))
  }

  ghost predicate TicketTold(run: seq<Action>, s: State, t: TicketId)
    requires t in s.tickets
  {
    && s.tickets[t].origin in s.challenges
    && exists j :: Issues(run, j, t, s.tickets[t].(used := false), s.challenges[s.tickets[t].origin].(used := false))
  }

  ghost predicate SpendTold(run: seq<Action>, s: State, e: Spend) {
    e.ticket in s.tickets && exists j :: Spends(run, j, e, s.tickets[e.ticket].(used := false))
  }

  ghost predicate RequestTold(run: seq<Action>, s: State, p: Pid)
    requires p in s.requests
  {
    match s.requests[p]
    case Challenging(d) => exists i :: ReadsDevice(run, i, p, d)
    case Verifying(c) => c in s.challenges && exists i :: Proves(run, i, p, c, s.challenges[c].(used := false))
    case Spending(t, via) => t in s.tickets && exists i :: Finds(run, i, p, t, via, s.tickets[t].(used := false))
  }

  ghost predicate Told(run: seq<Action>, s: State) {
    && (forall c | c in s.challenges :: ChallengeTold(run, s, c))
    && (forall t | t in s.tickets :: TicketTold(run, s, t))
    && (forall e | e in s.spends :: SpendTold(run, s, e))
    && (forall p | p in s.requests :: RequestTold(run, s, p))
  }

  // ---------- a longer run tells as much ----------

  lemma ReadsLater(before: seq<Action>, run: seq<Action>, i: int, p: Pid, d: DeviceId)
    requires before <= run && ReadsDevice(before, i, p, d)
    ensures ReadsDevice(run, i, p, d)
  {
    assert run[..i] == before[..i];
  }

  lemma ProvesLater(before: seq<Action>, run: seq<Action>, i: int, p: Pid, c: ChallengeId, row: Challenge)
    requires before <= run && Proves(before, i, p, c, row)
    ensures Proves(run, i, p, c, row)
  {
    assert run[..i] == before[..i];
  }

  lemma FindsLater(before: seq<Action>, run: seq<Action>, i: int, p: Pid, t: TicketId, via: Consumer, row: Ticket)
    requires before <= run && Finds(before, i, p, t, via, row)
    ensures Finds(run, i, p, t, via, row)
  {
    assert run[..i] == before[..i];
  }

  lemma CreatesLater(before: seq<Action>, run: seq<Action>, i: int, c: ChallengeId, row: Challenge)
    requires before <= run && Creates(before, i, c, row)
    ensures Creates(run, i, c, row)
  {
    var m :| m < i && ReadsDevice(before, m, before[i].pid, row.device);
    ReadsLater(before, run, m, before[i].pid, row.device);
  }

  lemma IssuesLater(before: seq<Action>, run: seq<Action>, j: int, t: TicketId, row: Ticket, c: Challenge)
    requires before <= run && Issues(before, j, t, row, c)
    ensures Issues(run, j, t, row, c)
  {
    var i :| i < j && Proves(before, i, before[j].pid, row.origin, c);
    ProvesLater(before, run, i, before[j].pid, row.origin, c);
  }

  lemma SpendsLater(before: seq<Action>, run: seq<Action>, j: int, e: Spend, row: Ticket)
    requires before <= run && Spends(before, j, e, row)
    ensures Spends(run, j, e, row)
  {
    var i :| i < j && Finds(before, i, before[j].pid, e.ticket, e.via, row);
    FindsLater(before, run, i, before[j].pid, e.ticket, e.via, row);
  }

  // ---------- every step is told ----------

  /** No row is forgotten or changes more than its use. */
  predicate SameRows(s: State, n: State) {
    && (forall c | c in s.challenges ::
          c in n.challenges && n.challenges[c].(used := false) == s.challenges[c].(used := false))
    && (forall t | t in s.tickets :: t in n.tickets && n.tickets[t].(used := false) == s.tickets[t].(used := false))
  }

  lemma RowsStay(s: State, a: Action)
    ensures SameRows(s, Next(s, a))
  {
  }

  lemma StepTellsChallenge(run: seq<Action>, s: State, a: Action, c: ChallengeId)
    requires Told(run, s) && c in Next(s, a).challenges
    ensures ChallengeTold(run + [a], Next(s, a), c)
  {
    var longer := run + [a];
    if c in s.challenges {
      RowsStay(s, a);
      assert ChallengeTold(run, s, c);
      var i :| Creates(run, i, c, s.challenges[c].(used := false));
      CreatesLater(run, longer, i, c, s.challenges[c].(used := false));
    } else {
      assert RequestTold(run, s, a.pid);
      var m :| ReadsDevice(run, m, a.pid, s.requests[a.pid].device);
      ReadsLater(run, longer, m, a.pid, s.requests[a.pid].device);
      assert Creates(longer, |run|, c, Next(s, a).challenges[c]);
    }
  }

  lemma NewTicket(s: State, a: Action, t: TicketId)
    requires t in Next(s, a).tickets && t !in s.tickets
    ensures a.ConsumeChallenge? && a.ticket == t && a.pid in s.requests && s.requests[a.pid].Verifying?
    ensures var c := s.requests[a.pid].challenge;
      && c in s.challenges && s.challenges[c].createdAt + CHALLENGE_MS > a.at
      && Next(s, a).tickets[t] == Ticket(s.challenges[c].device, a.at + TICKET_MS, false, c)
  {
  }

  lemma StepTellsTicket(run: seq<Action>, s: State, a: Action, t: TicketId)
    requires Told(run, s) && t in Next(s, a).tickets
    ensures TicketTold(run + [a], Next(s, a), t)
  {
    var n, longer := Next(s, a), run + [a];
    RowsStay(s, a);
    if t in s.tickets {
      assert TicketTold(run, s, t);
      var row, c := s.tickets[t].(used := false), s.challenges[s.tickets[t].origin].(used := false);
      var j :| Issues(run, j, t, row, c);
      IssuesLater(run, longer, j, t, row, c);
    } else {
      NewTicket(s, a, t);
      assert RequestTold(run, s, a.pid);
      var id := s.requests[a.pid].challenge;
      var c := s.challenges[id].(used := false);
      var i :| Proves(run, i, a.pid, id, c);
      ProvesLater(run, longer, i, a.pid, id, c);
      assert Issues(longer, |run|, t, n.tickets[t], c);
    }
  }

  lemma NewSpend(s: State, a: Action, e: Spend)
    requires e in Next(s, a).spends && e !in s.spends
    ensures a.SpendTicket? && a.pid in s.requests && s.requests[a.pid] == Spending(e.ticket, e.via) && a.at == e.at
    ensures e.ticket in s.tickets && e.at < s.tickets[e.ticket].expiresAt
  {
  }

  lemma StepTellsSpend(run: seq<Action>, s: State, a: Action, e: Spend)
    requires Told(run, s) && e in Next(s, a).spends
    ensures SpendTold(run + [a], Next(s, a), e)
  {
    var longer := run + [a];
    RowsStay(s, a);
    if e in s.spends {
      assert SpendTold(run, s, e);
      var j :| Spends(run, j, e, s.tickets[e.ticket].(used := false));
      SpendsLater(run, longer, j, e, s.tickets[e.ticket].(used := false));
    } else {
      NewSpend(s, a, e);
      assert RequestTold(run, s, a.pid);
      var row := s.tickets[e.ticket].(used := false);
      var i :| Finds(run, i, a.pid, e.ticket, e.via, row);
      FindsLater(run, longer, i, a.pid, e.ticket, e.via, row);
      assert Spends(longer, |run|, e, row);
    }
  }

  lemma RequestStaysTold(run: seq<Action>, s: State, longer: seq<Action>, n: State, p: Pid)
    requires run <= longer && p in s.requests && p in n.requests && n.requests[p] == s.requests[p]
    requires RequestTold(run, s, p) && SameRows(s, n)
    ensures RequestTold(longer, n, p)
  {
    match s.requests[p] {
      case Challenging(d) =>
        var i :| ReadsDevice(run, i, p, d);
        ReadsLater(run, longer, i, p, d);
      case Verifying(c) =>
        var i :| Proves(run, i, p, c, s.challenges[c].(used := false));
        ProvesLater(run, longer, i, p, c, s.challenges[c].(used := false));
      case Spending(t, via) =>
        var i :| Finds(run, i, p, t, via, s.tickets[t].(used := false));
        FindsLater(run, longer, i, p, t, via, s.tickets[t].(used := false));
    }
  }

  lemma OldRequestTold(run: seq<Action>, s: State, a: Action, p: Pid)
    requires Told(run, s) && p in s.requests && p in Next(s, a).requests
    ensures RequestTold(run + [a], Next(s, a), p)
  {
    RowsStay(s, a);
    RequestStaysTold(run, s, run + [a], Next(s, a), p);
  }

  lemma NewRequestTold(run: seq<Action>, a: Action, p: Pid)
    requires p !in Exec(INITIAL, run).requests && p in Next(Exec(INITIAL, run), a).requests
    ensures RequestTold(run + [a], Next(Exec(INITIAL, run), a), p)
  {
    var s, longer := Exec(INITIAL, run), run + [a];
    assert longer[..|run|] == run;
    match a {
      case ReadDevice(_, d, _) =>
        DevicesFollowHistory(run, d);
        assert ReadsDevice(longer, |run|, p, d);
      case ReadChallenge(_, c, d, _, _, _) =>
        DevicesFollowHistory(run, d);
        assert Proves(longer, |run|, p, c, s.challenges[c].(used := false));
      case ReadTicket(_, t, via, _) =>
        DevicesFollowHistory(run, s.tickets[t].device);
        assert Finds(longer, |run|, p, t, via, s.tickets[t].(used := false));
      case _ =>
    }
  }

  lemma StepIsTold(run: seq<Action>, a: Action)
    requires Told(run, Exec(INITIAL, run))
    ensures Told(run + [a], Next(Exec(INITIAL, run), a))
  {
    var s, n, longer := Exec(INITIAL, run), Next(Exec(INITIAL, run), a), run + [a];
    forall c | c in n.challenges ensures ChallengeTold(longer, n, c) { StepTellsChallenge(run, s, a, c); }
    forall t | t in n.tickets ensures TicketTold(longer, n, t) { StepTellsTicket(run, s, a, t); }
    forall e | e in n.spends ensures SpendTold(longer, n, e) { StepTellsSpend(run, s, a, e); }
    forall p | p in n.requests ensures RequestTold(longer, n, p) {
      if p in s.requests { OldRequestTold(run, s, a, p); } else { NewRequestTold(run, a, p); }
    }
  }

  lemma {:induction false} RunIsTold(run: seq<Action>)
    ensures Told(run, Exec(INITIAL, run))
  {
    if run != [] {
      var before := run[..|run| - 1];
      RunIsTold(before);
      LastStep(INITIAL, run);
      StepIsTold(before, run[|run| - 1]);
      assert run == before + [run[|run| - 1]];
    }
  }

  /** Every ticket comes from a valid signature over a challenge of its device: the run created that challenge for the
      trusted device, then met a signed proof with the challenge's own device and nonce while it was open and the
      device still trusted, and then made the ticket, all in time. */
  lemma TicketsAreProven(run: seq<Action>, t: TicketId) returns (k: int, i: int, j: int)
    requires t in Exec(INITIAL, run).tickets
    ensures var s := Exec(INITIAL, run); var row := s.tickets[t];
      && row.origin in s.challenges
      && var c := s.challenges[row.origin].(used := false);
      && Creates(run, k, row.origin, c) && Issues(run, j, t, row.(used := false), c)
      && i < j && Proves(run, i, run[j].pid, row.origin, c)
  {
    RunIsTold(run);
    var s := Exec(INITIAL, run);
    assert TicketTold(run, s, t);
    var row, c := s.tickets[t].(used := false), s.challenges[s.tickets[t].origin].(used := false);
    j :| Issues(run, j, t, row, c);
    i :| i < j && Proves(run, i, run[j].pid, row.origin, c);
    assert ChallengeTold(run, s, row.origin);
    k :| Creates(run, k, row.origin, c);
  }

  /** Every spend was looked up before it, by the same request for the same consumer, while the ticket had not expired
      and its device was trusted. */
  lemma SpendsAreLookedUp(run: seq<Action>, n: nat)
    requires n < |Exec(INITIAL, run).spends|
    ensures var s := Exec(INITIAL, run); var e := s.spends[n];
      e.ticket in s.tickets && exists j :: Spends(run, j, e, s.tickets[e.ticket].(used := false))
  {
    RunIsTold(run);
    var s := Exec(INITIAL, run);
    assert s.spends[n] in s.spends && SpendTold(run, s, s.spends[n]);
  }

  // ---------- one login on its own ----------

  /** A challenge for device `d`, a proof for `device` and `nonce`, and a spend of the ticket, at these times. */
  datatype Attempt = Attempt(d: DeviceId, created: int, device: DeviceId, nonce: nat, signed: bool,
                             read: int, verified: int, found: int, spent: int)

  function Login(p: Pid, c: ChallengeId, nonce: nat, t: TicketId, via: Consumer, x: Attempt): seq<Action> {
    [ ReadDevice(p, x.d, x.created), CreateChallenge(p, c, nonce, x.created),
      ReadChallenge(p, c, x.device, x.nonce, x.signed, x.read), ConsumeChallenge(p, t, x.verified),
      ReadTicket(p, t, via, x.found), SpendTicket(p, x.spent) ]
  }

  predicate Succeeds(s: State, nonce: nat, x: Attempt) {
    && x.d in s.devices && s.devices[x.d].active && x.device == x.d && x.nonce == nonce && x.signed
    && x.read < x.created + 120_000 && x.verified < x.created + 120_000
    && x.found < x.verified + 60_000 && x.spent < x.verified + 60_000
  }

  lemma {:induction false} ExecAppend(s: State, a: seq<Action>, b: seq<Action>)
    ensures Exec(s, a + b) == Exec(Exec(s, a), b)
    decreases a
  {
    if a == [] {
      assert a + b == b;
    } else {
      assert (a + b)[1..] == a[1..] + b;
      ExecAppend(Next(s, a[0]), a[1..], b);
    }
  }

  lemma ExecTwo(s: State, a: Action, b: Action)
    ensures Exec(s, [a, b]) == Next(Next(s, a), b)
  {
    assert [a, b][1..] == [b] && [b][1..] == [];
    assert Exec(Next(s, a), [b]) == Next(Next(s, a), b);
  }

  /** The challenge of an active device, and nothing for another. */
  lemma ChallengeAlone(s: State, p: Pid, d: DeviceId, c: ChallengeId, nonce: nat, at: int)
    requires p !in s.requests && c !in s.challenges
    ensures Next(Next(s, ReadDevice(p, d, at)), CreateChallenge(p, c, nonce, at)) ==
      if IsActive(s, d) then s.(challenges := s.challenges[c := Challenge(d, nonce, at, false)]) else s
  {
    var n := Next(Next(s, ReadDevice(p, d, at)), CreateChallenge(p, c, nonce, at));
    assert n.requests == s.requests;
  }

  lemma ProofAlone(s: State, p: Pid, c: ChallengeId, t: TicketId, x: Attempt)
    requires p !in s.requests && c in s.challenges && !s.challenges[c].used && t !in s.tickets
    ensures var row := s.challenges[c];
      Next(Next(s, ReadChallenge(p, c, x.device, x.nonce, x.signed, x.read)), ConsumeChallenge(p, t, x.verified)) ==
      if IsActive(s, row.device) && x.device == row.device && x.nonce == row.nonce && x.signed
         && x.read < row.createdAt + 120_000 && x.verified < row.createdAt + 120_000
      then s.(challenges := s.challenges[c := row.(used := true)],
              tickets := s.tickets[t := Ticket(row.device, x.verified + 60_000, false, c)])
      else s
  {
    var u := Next(s, ReadChallenge(p, c, x.device, x.nonce, x.signed, x.read));
    assert Next(u, ConsumeChallenge(p, t, x.verified)).requests == s.requests;
  }

  lemma SpendAlone(s: State, p: Pid, t: TicketId, via: Consumer, x: Attempt)
    requires p !in s.requests && t in s.tickets && !s.tickets[t].used
    ensures var row := s.tickets[t];
      Next(Next(s, ReadTicket(p, t, via, x.found)), SpendTicket(p, x.spent)) ==
      if IsActive(s, row.device) && x.found < row.expiresAt && x.spent < row.expiresAt
      then s.(tickets := s.tickets[t := row.(used := true)], spends := s.spends + [Spend(t, via, x.spent)])
      else s
  {
    var n := Next(Next(s, ReadTicket(p, t, via, x.found)), SpendTicket(p, x.spent));
    assert n.requests == s.requests;
  }

  /** Without a challenge row or a ticket row the later statements do nothing. */
  lemma NothingToProve(s: State, p: Pid, c: ChallengeId, t: TicketId, via: Consumer, x: Attempt)
    requires p !in s.requests
    ensures c !in s.challenges ==>
      Next(Next(s, ReadChallenge(p, c, x.device, x.nonce, x.signed, x.read)), ConsumeChallenge(p, t, x.verified)) == s
    ensures t !in s.tickets ==> Next(Next(s, ReadTicket(p, t, via, x.found)), SpendTicket(p, x.spent)) == s
  {
  }

  /** A login with nothing in between gives the consumer one session exactly when an active device signs its own
      challenge, with its nonce, within 120 s, and spends the ticket within 60 s of getting it. */
  lemma LoginAlone(s: State, p: Pid, c: ChallengeId, nonce: nat, t: TicketId, via: Consumer, x: Attempt)
    requires p !in s.requests && c !in s.challenges && t !in s.tickets
    ensures Exec(s, Login(p, c, nonce, t, via, x)).spends ==
      if Succeeds(s, nonce, x) then s.spends + [Spend(t, via, x.spent)] else s.spends
  {
    var run := Login(p, c, nonce, t, via, x);
    var s1 := Exec(s, run[..2]);
    var s2 := Exec(s1, run[2..4]);
    assert run[..2] == [run[0], run[1]] && run[2..4] == [run[2], run[3]] && run[4..] == [run[4], run[5]];
    ExecTwo(s, run[0], run[1]);
    ExecTwo(s1, run[2], run[3]);
    ExecTwo(s2, run[4], run[5]);
    assert run == run[..2] + (run[2..4] + run[4..]);
    ExecAppend(s, run[..2], run[2..4] + run[4..]);
    ExecAppend(s1, run[2..4], run[4..]);
    ChallengeAlone(s, p, x.d, c, nonce, x.created);
    NothingToProve(s1, p, c, t, via, x);
    if c in s1.challenges { ProofAlone(s1, p, c, t, x); }
    NothingToProve(s2, p, c, t, via, x);
    if t in s2.tickets { SpendAlone(s2, p, t, via, x); }
  }
}
