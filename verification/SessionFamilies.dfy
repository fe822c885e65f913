/** Refresh-token sessions: every interleaving of logins, refreshes and logouts.
    A refresh is three statements (read, claim-and-insert, revoke family) that other requests may come
    between. A run is any sequence of actions; an action that cannot happen leaves the state alone. */
module SessionFamilies {
  import opened Common

  type Hash = nat
  type Family = nat
  type Pid = nat

  /** A row of AuthSession, keyed by its unique token hash. */
  datatype Session = Session(user: nat, family: Family, replacedBy: Option<Hash>, revoked: bool, expiresAt: int)

  /** Where one call of `refresh` stands, and what it read. */
  datatype Request =
    | Claiming(token: Hash, family: Family)
    | Revoking(token: Hash, family: Family)
    | Rotated(token: Hash, next: Hash)
    | Reused(token: Hash, family: Family)
    | Refused(token: Hash)

  datatype State = State(sessions: map<Hash, Session>, requests: map<Pid, Request>)

  datatype Action =
    | Login(token: Hash, family: Family, user: nat, expiresAt: int)
    | Read(pid: Pid, token: Hash, now: int)
    | Claim(pid: Pid, next: Hash, expiresAt: int)
    | RevokeAll(pid: Pid)
    | Logout(token: Hash, user: nat)

  const INITIAL := State(map[], map[])

  predicate FreshFamily(s: State, f: Family) {
    forall h | h in s.sessions :: s.sessions[h].family != f
  }

  function Revoked(sessions: map<Hash, Session>, f: Family): map<Hash, Session> {
    map h | h in sessions :: if sessions[h].family == f then sessions[h].(revoked := true) else sessions[h]
  }

  function AfterRead(s: State, token: Hash, now: int): Request {
    if token !in s.sessions then Refused(token)
    else
      var row := s.sessions[token];
      if row.replacedBy.Some? || row.revoked then Revoking(token, row.family)
      else if row.expiresAt <= now then Refused(token)
      else Claiming(token, row.family)
  }

  predicate Claimable(s: State, token: Hash) {
    token in s.sessions && s.sessions[token].replacedBy.None? && !s.sessions[token].revoked
  }

  function AfterClaim(s: State, pid: Pid, next: Hash, expiresAt: int): State
    requires pid in s.requests && s.requests[pid].Claiming?
  {
    var r := s.requests[pid];
    if Claimable(s, r.token) then
      var row := s.sessions[r.token];
      State(s.sessions[r.token := row.(replacedBy := Some(next), revoked := true)]
                      [next := Session(row.user, row.family, None, false, expiresAt)],
            s.requests[pid := Rotated(r.token, next)])
    else State(s.sessions, s.requests[pid := Revoking(r.token, r.family)])
  }

  function Next(s: State, a: Action): State {
    match a
    case Login(token, family, user, expiresAt) =>
      if token in s.sessions || !FreshFamily(s, family) then s
      else s.(sessions := s.sessions[token := Session(user, family, None, false, expiresAt)])
    case Read(pid, token, now) =>
      if pid in s.requests then s else s.(requests := s.requests[pid := AfterRead(s, token, now)])
    case Claim(pid, next, expiresAt) =>
      if pid in s.requests && s.requests[pid].Claiming? && next !in s.sessions
      then AfterClaim(s, pid, next, expiresAt) else s
    case RevokeAll(pid) =>
      if pid in s.requests && s.requests[pid].Revoking? then
        var r := s.requests[pid];
        State(Revoked(s.sessions, r.family), s.requests[pid := Reused(r.token, r.family)])
      else s
    case Logout(token, user) =>
      if token in s.sessions && s.sessions[token].user == user
      then s.(sessions := s.sessions[token := s.sessions[token].(revoked := true)]) else s
  }

  function Exec(s: State, run: seq<Action>): State
    decreases run
  {
    if run == [] then s else Exec(Next(s, run[0]), run[1..])
  }

  // ---------- the invariant ----------

  /** `c` lists the sessions of the family from its login to its tip; each but the tip is replaced by
      the next one and revoked. */
  ghost predicate IsChain(sessions: map<Hash, Session>, f: Family, c: seq<Hash>) {
    && c != []
    && (forall i, j | 0 <= i < j < |c| :: c[i] != c[j])
    && (forall h :: h in c <==> h in sessions && sessions[h].family == f)
    && (forall i, j | 0 <= i < |c| && 0 <= j < |c| && j == i + 1 ::
          sessions[c[i]].replacedBy == Some(c[j]) && sessions[c[i]].revoked)
    && sessions[c[|c| - 1]].replacedBy.None?
  }

  ghost predicate HasChain(sessions: map<Hash, Session>, f: Family) {
    exists c :: IsChain(sessions, f, c)
  }

  ghost predicate Chained(sessions: map<Hash, Session>) {
    forall h {:trigger HasChain(sessions, sessions[h].family)} | h in sessions ::
      HasChain(sessions, sessions[h].family)
  }

  predicate Dead(s: State, f: Family) {
    forall h | h in s.sessions && s.sessions[h].family == f :: s.sessions[h].revoked
  }

  ghost predicate KnowsItsRow(s: State, r: Request) {
    match r
    case Claiming(token, f) => token in s.sessions && s.sessions[token].family == f
    case Revoking(token, f) => token in s.sessions && s.sessions[token].family == f
    case Rotated(token, next) => token in s.sessions && s.sessions[token].replacedBy == Some(next)
    case Reused(token, f) => token in s.sessions && s.sessions[token].family == f && Dead(s, f)
    case Refused(_) => true
  }

  ghost predicate RotatedOnce(s: State) {
    forall p, q | p in s.requests && q in s.requests && s.requests[p].Rotated? && s.requests[q].Rotated?
                  && s.requests[p].token == s.requests[q].token :: p == q
  }

  ghost predicate Inv(s: State) {
    && Chained(s.sessions)
    && (forall p | p in s.requests :: KnowsItsRow(s, s.requests[p]))
    && RotatedOnce(s)
  }

  // ---------- chains survive every step ----------

  lemma OnlyTheTip(sessions: map<Hash, Session>, f: Family, c: seq<Hash>, h: Hash)
    requires IsChain(sessions, f, c) && h in sessions && sessions[h].family == f && h != c[|c| - 1]
    ensures sessions[h].replacedBy.Some? && sessions[h].replacedBy.value in c && sessions[h].revoked
  {
    assert h in c;
    var i :| 0 <= i < |c| && c[i] == h;
    var j := i + 1;
    assert sessions[c[i]].replacedBy == Some(c[j]);
  }

  lemma ChainFrame(sessions: map<Hash, Session>, t: map<Hash, Session>, f: Family, c: seq<Hash>)
    requires IsChain(sessions, f, c)
    requires forall h | h in sessions && sessions[h].family == f :: h in t && t[h] == sessions[h]
    requires forall h | h in t && t[h].family == f :: h in sessions && sessions[h].family == f
    ensures IsChain(t, f, c)
  {
    forall i | 0 <= i < |c| ensures c[i] in t && t[c[i]] == sessions[c[i]] {
      assert c[i] in c;
    }
    forall h ensures h in c <==> h in t && t[h].family == f {
    }
    forall i, j | 0 <= i < |c| && 0 <= j < |c| && j == i + 1
      ensures t[c[i]].replacedBy == Some(c[j]) && t[c[i]].revoked
    {
      assert sessions[c[i]].replacedBy == Some(c[j]) && sessions[c[i]].revoked;
    }
  }

  lemma LoginChains(sessions: map<Hash, Session>, token: Hash, row: Session)
    requires Chained(sessions) && token !in sessions && row.replacedBy.None?
    requires forall h | h in sessions :: sessions[h].family != row.family
    ensures Chained(sessions[token := row])
  {
    var t := sessions[token := row];
    forall h | h in t ensures HasChain(t, t[h].family) {
      if h == token {
        assert IsChain(t, row.family, [token]);
      } else {
        assert HasChain(sessions, sessions[h].family);
        var c :| IsChain(sessions, sessions[h].family, c);
        ChainFrame(sessions, t, t[h].family, c);
      }
    }
  }

  /** Revoking rows changes no link. */
  lemma RevokingChains(sessions: map<Hash, Session>, t: map<Hash, Session>)
    requires Chained(sessions) && t.Keys == sessions.Keys
    requires forall h | h in t :: t[h] == sessions[h] || t[h] == sessions[h].(revoked := true)
    ensures Chained(t)
  {
    forall h | h in t ensures HasChain(t, t[h].family) {
      assert HasChain(sessions, sessions[h].family);
      var c :| IsChain(sessions, sessions[h].family, c);
      SameLinks(sessions, t, t[h].family, c);
    }
  }

  lemma SameLinks(sessions: map<Hash, Session>, t: map<Hash, Session>, f: Family, c: seq<Hash>)
    requires IsChain(sessions, f, c) && t.Keys == sessions.Keys
    requires forall h | h in t :: t[h] == sessions[h] || t[h] == sessions[h].(revoked := true)
    ensures IsChain(t, f, c)
  {
    assert forall i | 0 <= i < |c| :: c[i] in c;
    forall h ensures h in c <==> h in t && t[h].family == f {}
    forall i, j | 0 <= i < |c| && 0 <= j < |c| && j == i + 1
      ensures t[c[i]].replacedBy == Some(c[j]) && t[c[i]].revoked
    {
      assert sessions[c[i]].replacedBy == Some(c[j]) && sessions[c[i]].revoked;
    }
  }

  /** The claimed row is the tip of its chain, and its successor becomes the new tip. */
  lemma ClaimExtends(sessions: map<Hash, Session>, t: map<Hash, Session>, token: Hash, next: Hash, c: seq<Hash>)
    requires token in sessions && next !in sessions && sessions[token].replacedBy.None?
    requires IsChain(sessions, sessions[token].family, c)
    requires next in t && t[next].family == sessions[token].family && t[next].replacedBy.None?
    requires t == sessions[token := sessions[token].(replacedBy := Some(next), revoked := true)][next := t[next]]
    ensures IsChain(t, sessions[token].family, c + [next])
  {
    if c[|c| - 1] != token { OnlyTheTip(sessions, sessions[token].family, c, token); }
    var d := c + [next];
    assert d[|d| - 1] == next;
    forall h ensures h in d <==> h in t && t[h].family == sessions[token].family {
      assert h in d <==> h in c || h == next;
    }
    forall i, j | 0 <= i < |d| && 0 <= j < |d| && j == i + 1
      ensures t[d[i]].replacedBy == Some(d[j]) && t[d[i]].revoked
    {
      assert d[i] == c[i] && c[i] in c;
      if j < |c| {
        assert d[j] == c[j];
        assert c[i] != c[|c| - 1];
      }
    }
  }

  lemma ClaimChains(sessions: map<Hash, Session>, t: map<Hash, Session>, token: Hash, next: Hash)
    requires Chained(sessions) && token in sessions && next !in sessions && sessions[token].replacedBy.None?
    requires next in t && t[next].family == sessions[token].family && t[next].replacedBy.None?
    requires t == sessions[token := sessions[token].(replacedBy := Some(next), revoked := true)][next := t[next]]
    ensures Chained(t)
  {
    var f := sessions[token].family;
    assert HasChain(sessions, f);
    var d :| IsChain(sessions, f, d);
    ClaimExtends(sessions, t, token, next, d);
    forall h | h in t ensures HasChain(t, t[h].family) {
      if t[h].family != f {
        assert HasChain(sessions, sessions[h].family);
        var c :| IsChain(sessions, sessions[h].family, c);
        ChainFrame(sessions, t, t[h].family, c);
      }
    }
  }

  lemma StepKeepsChains(s: State, a: Action)
    requires Inv(s)
    ensures Chained(Next(s, a).sessions)
  {
    match a {
      case Login(token, family, user, expiresAt) =>
        if token !in s.sessions && FreshFamily(s, family) {
          LoginChains(s.sessions, token, Session(user, family, None, false, expiresAt));
        }
      case Claim(pid, next, expiresAt) =>
        if pid in s.requests && s.requests[pid].Claiming? && next !in s.sessions
           && Claimable(s, s.requests[pid].token) {
          ClaimChains(s.sessions, Next(s, a).sessions, s.requests[pid].token, next);
        }
      case RevokeAll(_) => RevokingChains(s.sessions, Next(s, a).sessions);
      case Logout(_, _) => RevokingChains(s.sessions, Next(s, a).sessions);
      case Read(_, _, _) =>
    }
  }

  /** No step brings a dead family back, forgets a link, or moves a session to another family. */
  lemma StepIsMonotone(s: State, a: Action)
    requires Inv(s)
    ensures forall h | h in s.sessions ::
        h in Next(s, a).sessions && Next(s, a).sessions[h].family == s.sessions[h].family
    ensures forall h | h in s.sessions && s.sessions[h].replacedBy.Some? ::
              Next(s, a).sessions[h].replacedBy == s.sessions[h].replacedBy
    ensures forall f | Dead(s, f) && !FreshFamily(s, f) :: Dead(Next(s, a), f)
  {
  }

  lemma StepKeepsInv(s: State, a: Action)
    requires Inv(s)
    ensures Inv(Next(s, a))
  {
    StepKeepsChains(s, a);
    StepIsMonotone(s, a);
    var t := Next(s, a);
    forall p | p in t.requests ensures KnowsItsRow(t, t.requests[p]) {
      if p in s.requests && t.requests[p] == s.requests[p] {
        assert KnowsItsRow(s, s.requests[p]);
      }
    }
  }

  lemma {:induction false} RunKeepsInv(s: State, run: seq<Action>)
    requires Inv(s)
    ensures Inv(Exec(s, run))
    decreases run
  {
    if run != [] {
      StepKeepsInv(s, run[0]);
      RunKeepsInv(Next(s, run[0]), run[1..]);
    }
  }

  // ---------- what holds over every run ----------

  /** In every reachable state each family is one chain, and at most one session of it is unrevoked:
      the tip, the only one without a replacement. */
  lemma FamiliesAreChains(run: seq<Action>, h: Hash)
    requires h in Exec(INITIAL, run).sessions
    ensures var t := Exec(INITIAL, run).sessions;
      exists c :: IsChain(t, t[h].family, c)
        && (forall k | k in t && t[k].family == t[h].family && !t[k].revoked :: k == c[|c| - 1])
        && (forall k | k in t && t[k].family == t[h].family && t[k].replacedBy.None? :: k == c[|c| - 1])
  {
    RunKeepsInv(INITIAL, run);
    var t := Exec(INITIAL, run).sessions;
    assert HasChain(t, t[h].family);
    var c :| IsChain(t, t[h].family, c);
    forall k | k in t && t[k].family == t[h].family && (!t[k].revoked || t[k].replacedBy.None?)
      ensures k == c[|c| - 1]
    {
      if k != c[|c| - 1] { OnlyTheTip(t, t[h].family, c, k); }
    }
  }

  /** A family without a live session never has one again. */
  lemma {:induction false} DeadForever(s: State, run: seq<Action>, f: Family)
    requires Inv(s) && Dead(s, f) && !FreshFamily(s, f)
    ensures Dead(Exec(s, run), f)
    decreases run
  {
    if run != [] {
      StepIsMonotone(s, run[0]);
      StepKeepsInv(s, run[0]);
      DeadForever(Next(s, run[0]), run[1..], f);
    }
  }

  /** Two requests on one token. */
  predicate BothOn(s: State, p: Pid, q: Pid) {
    p in s.requests && q in s.requests && s.requests[p].token == s.requests[q].token
  }

  /** Each token is exchanged for a new one by at most one request, whatever the interleaving. */
  lemma TokenRotatesOnce(run: seq<Action>, p: Pid, q: Pid)
    requires BothOn(Exec(INITIAL, run), p, q) && Exec(INITIAL, run).requests[p].Rotated?
    requires Exec(INITIAL, run).requests[q].Rotated?
    ensures p == q
  {
    RunKeepsInv(INITIAL, run);
  }

  predicate Finished(r: Request) { r.Rotated? || r.Reused? }

  /** The family of the token that `p` presented is dead, and so is the session `p` got for it, if any. */
  predicate KilledBy(s: State, p: Pid)
    requires p in s.requests
  {
    var r := s.requests[p];
    && r.token in s.sessions
    && Dead(s, s.sessions[r.token].family)
    && (r.Rotated? ==> r.next in s.sessions && s.sessions[r.next].revoked)
  }

  /** When two requests that presented one token have both finished, the family is dead, the winner's
      new session included, and stays dead. */
  lemma TokenPresentedTwice(run: seq<Action>, p: Pid, q: Pid, later: seq<Action>)
    requires p != q && BothOn(Exec(INITIAL, run), p, q)
    requires Finished(Exec(INITIAL, run).requests[p]) && Finished(Exec(INITIAL, run).requests[q])
    ensures KilledBy(Exec(INITIAL, run), p)
    ensures Dead(Exec(Exec(INITIAL, run), later),
                 Exec(INITIAL, run).sessions[Exec(INITIAL, run).requests[p].token].family)
  {
    RunKeepsInv(INITIAL, run);
    var s := Exec(INITIAL, run);
    assert KnowsItsRow(s, s.requests[p]) && KnowsItsRow(s, s.requests[q]);
    var h := s.requests[p].token;
    DeadForever(s, later, s.sessions[h].family);
    if s.requests[p].Rotated? {
      LinkStaysInFamily(s, h);
    }
  }

  lemma LinkStaysInFamily(s: State, h: Hash)
    requires Inv(s) && h in s.sessions && s.sessions[h].replacedBy.Some?
    ensures var n := s.sessions[h].replacedBy.value; n in s.sessions && s.sessions[n].family == s.sessions[h].family
  {
    assert HasChain(s.sessions, s.sessions[h].family);
    var c :| IsChain(s.sessions, s.sessions[h].family, c);
    OnlyTheTip(s.sessions, s.sessions[h].family, c, h);
    assert s.sessions[h].replacedBy.value in c;
  }

  /** A request keeps its token to the end, and one that reached the claim is never simply refused. */
  lemma {:induction false} RequestsKeepTheirToken(s: State, run: seq<Action>, p: Pid)
    requires p in s.requests && !s.requests[p].Refused?
    ensures p in Exec(s, run).requests
    ensures Exec(s, run).requests[p].token == s.requests[p].token && !Exec(s, run).requests[p].Refused?
    decreases run
  {
    if run != [] {
      RequestsKeepTheirToken(Next(s, run[0]), run[1..], p);
    }
  }

  /** Two refreshes of one token that both reach the claim leave the family dead once both finish. */
  lemma RacingClaimsKillTheFamily(run: seq<Action>, more: seq<Action>, p: Pid, q: Pid)
    requires p != q && BothOn(Exec(INITIAL, run), p, q)
    requires Exec(INITIAL, run).requests[p].Claiming? && Exec(INITIAL, run).requests[q].Claiming?
    requires BothOn(Exec(Exec(INITIAL, run), more), p, q)
    requires Finished(Exec(Exec(INITIAL, run), more).requests[p])
        && Finished(Exec(Exec(INITIAL, run), more).requests[q])
    ensures Dead(Exec(Exec(INITIAL, run), more), Exec(INITIAL, run).requests[p].family)
  {
    var s := Exec(INITIAL, run);
    RunKeepsInv(INITIAL, run);
    assert KnowsItsRow(s, s.requests[p]);
    RequestsKeepTheirToken(s, more, p);
    RequestsKeepTheirToken(s, more, q);
    FamilyKept(s, more, s.requests[p].token);
    ExecAppend(INITIAL, run, more);
    TokenPresentedTwice(run + more, p, q, []);
  }

  lemma {:induction false} FamilyKept(s: State, run: seq<Action>, h: Hash)
    requires Inv(s) && h in s.sessions
    ensures h in Exec(s, run).sessions && Exec(s, run).sessions[h].family == s.sessions[h].family
    decreases run
  {
    if run != [] {
      StepIsMonotone(s, run[0]);
      StepKeepsInv(s, run[0]);
      FamilyKept(Next(s, run[0]), run[1..], h);
    }
  }

  lemma {:induction false} ExecAppend(s: State, a: seq<Action>, b: seq<Action>)
    ensures Exec(s, a + b) == Exec(Exec(s, a), b)
    decreases a
  {
    if a == [] {
      assert a + b == b;
    } else {
      assert (a + b)[1..] == a[1..] + b;
      ExecAppend(Next(s, a[0]), a[1..], b);
    }
  }

  // ---------- the service ----------

  /** The AuthSession table and the calls of `refresh` in flight; each method is one statement or
      transaction of the service. */
  class SessionService {
    var sessions: map<Hash, Session>
    var requests: map<Pid, Request>

    ghost function View(): State
      reads this
    {
      State(sessions, requests)
    }

    constructor ()
      ensures View() == INITIAL
    {
      sessions, requests := map[], map[];
    }

    /** The new token hash and family id come from a random generator: nobody has them yet. */
    method IssueSession(token: Hash, family: Family, user: nat, expiresAt: int)
      requires token !in sessions && FreshFamily(View(), family)
      modifies this
      ensures View() == Next(old(View()), Login(token, family, user, expiresAt))
    {
      sessions := sessions[token := Session(user, family, None, false, expiresAt)];
    }

    method ReadSession(pid: Pid, token: Hash, now: int)
      requires pid !in requests
      modifies this
      ensures View() == Next(old(View()), Read(pid, token, now))
    {
      if token !in sessions {
        requests := requests[pid := Refused(token)];
        return;
      }
      var current := sessions[token];
      if current.replacedBy.Some? || current.revoked {
        requests := requests[pid := Revoking(token, current.family)];
      } else if current.expiresAt <= now {
        requests := requests[pid := Refused(token)];
      } else {
        requests := requests[pid := Claiming(token, current.family)];
      }
    }

    /** The transaction that marks the old row and inserts its successor. */
    method Rotate(pid: Pid, next: Hash, expiresAt: int) returns (rotated: bool)
      requires pid in requests && requests[pid].Claiming? && next !in sessions
      modifies this
      ensures View() == Next(old(View()), Claim(pid, next, expiresAt))
      ensures rotated <==> requests[pid].Rotated?
    {
      var r := requests[pid];
      rotated := false;
      if r.token in sessions {
        var row := sessions[r.token];
        if row.replacedBy.None? && !row.revoked {
          sessions := sessions[r.token := row.(replacedBy := Some(next), revoked := true)];
          sessions := sessions[next := Session(row.user, row.family, None, false, expiresAt)];
          rotated := true;
        }
      }
      requests := requests[pid := if rotated then Rotated(r.token, next) else Revoking(r.token, r.family)];
    }

    method RevokeFamily(pid: Pid)
      requires pid in requests && requests[pid].Revoking?
      modifies this
      ensures View() == Next(old(View()), RevokeAll(pid))
    {
      var r := requests[pid];
      sessions := map h | h in sessions ::
        if sessions[h].family == r.family then sessions[h].(revoked := true) else sessions[h];
      requests := requests[pid := Reused(r.token, r.family)];
    }

    method LogoutSession(token: Hash, user: nat)
      modifies this
      ensures View() == Next(old(View()), Logout(token, user))
    {
      if token in sessions && sessions[token].user == user {
        sessions := sessions[token := sessions[token].(revoked := true)];
      }
    }
  }
}
