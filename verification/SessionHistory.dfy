/** What the sessions of a run owe to its actions: whose they are, why they are revoked, and what one refresh does
    when nothing comes between its statements. */
module SessionHistory {
  import opened Common
  import opened SessionFamilies

  lemma {:induction false} LastStep(s: State, run: seq<Action>)
    requires run != []
    ensures Exec(s, run) == Next(Exec(s, run[..|run| - 1]), run[|run| - 1])
    decreases run
  {
    if |run| > 1 {
      LastStep(Next(s, run[0]), run[1..]);
      assert run[1..][..|run| - 2] == run[..|run| - 1][1..];
    }
  }

  // ---------- whose session it is ----------

  /** The action of the run that inserted the session: a login, or the claim of a refresh. */
  ghost predicate Born(run: seq<Action>, h: Hash, row: Session) {
    || Login(h, row.family, row.user, row.expiresAt) in run
    || exists pid :: Claim(pid, h, row.expiresAt) in run
  }

  /** Some login of the run opened the family for the user. */
  ghost predicate Opened(run: seq<Action>, family: Family, user: nat) {
    exists token, expiresAt :: Login(token, family, user, expiresAt) in run
  }

  predicate OneOwner(s: State, h: Hash, k: Hash)
    requires h in s.sessions && k in s.sessions
  {
    s.sessions[h].family == s.sessions[k].family ==> s.sessions[h].user == s.sessions[k].user
  }

  /** The token was exchanged for `next`, a session of the same user in the same family. */
  predicate Exchanged(s: State, token: Hash, next: Hash) {
    && token in s.sessions && next in s.sessions
    && s.sessions[token].replacedBy == Some(next) && s.sessions[token].revoked
    && s.sessions[next].user == s.sessions[token].user && s.sessions[next].family == s.sessions[token].family
  }

  ghost predicate Owned(run: seq<Action>, s: State) {
    && (forall h | h in s.sessions ::
          Born(run, h, s.sessions[h]) && Opened(run, s.sessions[h].family, s.sessions[h].user))
    && (forall h, k | h in s.sessions && k in s.sessions :: OneOwner(s, h, k))
    && (forall p | p in s.requests && s.requests[p].Rotated? :: Exchanged(s, s.requests[p].token, s.requests[p].next))
  }

  lemma LongerRun(before: seq<Action>, run: seq<Action>, h: Hash, row: Session)
    requires before <= run
    ensures Born(before, h, row) ==> Born(run, h, row)
    ensures Opened(before, row.family, row.user) ==> Opened(run, row.family, row.user)
  {
    assert forall a | a in before :: a in run;
    if pid :| Claim(pid, h, row.expiresAt) in before { assert Claim(pid, h, row.expiresAt) in run; }
    if token, e :| Login(token, row.family, row.user, e) in before {
      assert Login(token, row.family, row.user, e) in run;
    }
  }

  /** Only a login and a successful claim insert sessions, and nothing else changes one's user or family. */
  lemma StepInserts(s: State, a: Action, h: Hash)
    requires h in Next(s, a).sessions
    ensures var row := Next(s, a).sessions[h];
      || (h in s.sessions && row.user == s.sessions[h].user && row.family == s.sessions[h].family
          && row.expiresAt == s.sessions[h].expiresAt)
      || (h !in s.sessions && a == Login(h, row.family, row.user, row.expiresAt) && FreshFamily(s, row.family))
      || (h !in s.sessions && a.Claim? && a.next == h && a.expiresAt == row.expiresAt && a.pid in s.requests
          && s.requests[a.pid].token in s.sessions
          && s.sessions[s.requests[a.pid].token].family == row.family
          && s.sessions[s.requests[a.pid].token].user == row.user)
  {
  }

  lemma StepKeepsOwned(run: seq<Action>, s: State, a: Action)
    requires Owned(run, s)
    ensures Owned(run + [a], Next(s, a))
  {
    var t, longer := Next(s, a), run + [a];
    forall h | h in t.sessions
      ensures Born(longer, h, t.sessions[h]) && Opened(longer, t.sessions[h].family, t.sessions[h].user)
    {
      StepInserts(s, a, h);
      LongerRun(run, longer, h, t.sessions[h]);
      if h in s.sessions {
        LongerRun(run, longer, h, s.sessions[h]);
      } else if a.Login? {
        assert a in longer;
      } else {
        assert a == Claim(a.pid, h, t.sessions[h].expiresAt) && a in longer;
        LongerRun(run, longer, s.requests[a.pid].token, s.sessions[s.requests[a.pid].token]);
      }
    }
    forall h, k | h in t.sessions && k in t.sessions ensures OneOwner(t, h, k) {
      StepInserts(s, a, h);
      StepInserts(s, a, k);
      OwnersAgree(s, a, h, k);
    }
  }

  lemma OwnersAgree(s: State, a: Action, h: Hash, k: Hash)
    requires forall h, k | h in s.sessions && k in s.sessions :: OneOwner(s, h, k)
    requires h in Next(s, a).sessions && k in Next(s, a).sessions
    ensures OneOwner(Next(s, a), h, k)
  {
    StepInserts(s, a, h);
    StepInserts(s, a, k);
  }

  lemma {:induction false} RunKeepsOwned(run: seq<Action>)
    ensures Owned(run, Exec(INITIAL, run))
  {
    if run != [] {
      var before := run[..|run| - 1];
      RunKeepsOwned(before);
      LastStep(INITIAL, run);
      StepKeepsOwned(before, Exec(INITIAL, before), run[|run| - 1]);
      assert run == before + [run[|run| - 1]];
    }
  }

  /** All sessions of a family belong to one user, for whom a login of the run opened the family; each carries the
      expiry of the login or the claim that inserted it. */
  lemma FamiliesHaveOneUser(run: seq<Action>, h: Hash, k: Hash)
    requires h in Exec(INITIAL, run).sessions && k in Exec(INITIAL, run).sessions
    ensures var t := Exec(INITIAL, run).sessions;
      && Born(run, h, t[h]) && Opened(run, t[h].family, t[h].user)
      && (t[h].family == t[k].family ==> t[h].user == t[k].user)
  {
    RunKeepsOwned(run);
    assert OneOwner(Exec(INITIAL, run), h, k);
  }

  /** A rotation gives the new session to the user and the family of the presented token, which is revoked. */
  lemma RotationKeepsTheUser(run: seq<Action>, p: Pid)
    requires p in Exec(INITIAL, run).requests && Exec(INITIAL, run).requests[p].Rotated?
    ensures var t := Exec(INITIAL, run); Exchanged(t, t.requests[p].token, t.requests[p].next)
  {
    RunKeepsOwned(run);
  }

  // ---------- why it is revoked ----------

  /** The user logged out of the session while it existed. */
  ghost predicate LoggedOut(run: seq<Action>, h: Hash, user: nat) {
    exists i :: LogsOutAt(run, i, h, user)
  }

  ghost predicate LogsOutAt(run: seq<Action>, i: int, h: Hash, user: nat) {
    0 <= i < |run| && run[i] == Logout(h, user) && h in Exec(INITIAL, run[..i]).sessions
  }

  /** A reuse was detected in the family. */
  ghost predicate Detected(s: State, family: Family) {
    exists p :: p in s.requests && s.requests[p].Reused? && s.requests[p].family == family
  }

  ghost predicate Caused(run: seq<Action>, s: State, h: Hash)
    requires h in s.sessions
  {
    var row := s.sessions[h];
    row.revoked <==> row.replacedBy.Some? || LoggedOut(run, h, row.user) || Detected(s, row.family)
  }

  lemma OneMoreLogout(run: seq<Action>, a: Action, h: Hash, user: nat)
    ensures LoggedOut(run + [a], h, user)
       <==> LoggedOut(run, h, user) || (a == Logout(h, user) && h in Exec(INITIAL, run).sessions)
  {
    var longer := run + [a];
    forall i | 0 <= i < |run| ensures LogsOutAt(longer, i, h, user) <==> LogsOutAt(run, i, h, user) {
      assert longer[..i] == run[..i];
    }
    assert longer[..|run|] == run;
    assert LogsOutAt(longer, |run|, h, user) <==> a == Logout(h, user) && h in Exec(INITIAL, run).sessions;
  }

  lemma LoggedOutExists(run: seq<Action>, h: Hash, user: nat)
    requires LoggedOut(run, h, user)
    ensures h in Exec(INITIAL, run).sessions
  {
    var i :| LogsOutAt(run, i, h, user);
    RunKeepsInv(INITIAL, run[..i]);
    FamilyKept(Exec(INITIAL, run[..i]), run[i..], h);
    ExecAppend(INITIAL, run[..i], run[i..]);
    assert run[..i] + run[i..] == run;
  }

  /** Detections are never forgotten, and a step adds at most that of its own request. */
  lemma DetectedNext(s: State, a: Action, family: Family)
    ensures Detected(Next(s, a), family) <==>
      || Detected(s, family)
      || (a.RevokeAll? && a.pid in s.requests && s.requests[a.pid].Revoking? && s.requests[a.pid].family == family)
  {
    var t := Next(s, a);
    if p :| p in s.requests && s.requests[p].Reused? && s.requests[p].family == family {
      assert t.requests[p] == s.requests[p];
    }
    if a.RevokeAll? && a.pid in s.requests && s.requests[a.pid].Revoking? { assert t.requests[a.pid].Reused?; }
  }

  lemma DetectedIsDead(s: State, family: Family)
    requires Inv(s) && Detected(s, family)
    ensures Dead(s, family) && !FreshFamily(s, family)
  {
    var p :| p in s.requests && s.requests[p].Reused? && s.requests[p].family == family;
    assert KnowsItsRow(s, s.requests[p]);
  }

  lemma NewIsUndetected(s: State, a: Action, h: Hash)
    requires Inv(s) && h in Next(s, a).sessions && h !in s.sessions
    ensures !Next(s, a).sessions[h].revoked && Next(s, a).sessions[h].replacedBy.None?
    ensures !Detected(s, Next(s, a).sessions[h].family)
  {
    var family := Next(s, a).sessions[h].family;
    if Detected(s, family) { DetectedIsDead(s, family); }
  }

  lemma StepKeepsCaused(run: seq<Action>, a: Action, h: Hash)
    requires Inv(Exec(INITIAL, run)) && h in Next(Exec(INITIAL, run), a).sessions
    requires h in Exec(INITIAL, run).sessions ==> Caused(run, Exec(INITIAL, run), h)
    ensures Caused(run + [a], Next(Exec(INITIAL, run), a), h)
  {
    var s := Exec(INITIAL, run);
    var row := Next(s, a).sessions[h];
    OneMoreLogout(run, a, h, row.user);
    DetectedNext(s, a, row.family);
    StepInserts(s, a, h);
    if h in s.sessions {
      if Detected(s, row.family) { DetectedIsDead(s, row.family); }
    } else {
      NewIsUndetected(s, a, h);
      if LoggedOut(run, h, row.user) { LoggedOutExists(run, h, row.user); }
    }
  }

  /** A session is revoked exactly when its token was exchanged, its own user logged out of it, or a reuse was
      detected in its family. */
  lemma {:induction false} RevokedIff(run: seq<Action>, h: Hash)
    requires h in Exec(INITIAL, run).sessions
    ensures Caused(run, Exec(INITIAL, run), h)
  {
    if run != [] {
      var before := run[..|run| - 1];
      LastStep(INITIAL, run);
      RunKeepsInv(INITIAL, before);
      if h in Exec(INITIAL, before).sessions { RevokedIff(before, h); }
      StepKeepsCaused(before, run[|run| - 1], h);
      assert run == before + [run[|run| - 1]];
    }
  }

  // ---------- one refresh on its own ----------

  /** The statements of one refresh with nothing in between. */
  function Refresh(s: State, p: Pid, token: Hash, now: int, next: Hash, expiresAt: int): State {
    Next(Next(Next(s, Read(p, token, now)), Claim(p, next, expiresAt)), RevokeAll(p))
  }

  predicate Live(s: State, token: Hash, now: int) {
    token in s.sessions && !s.sessions[token].revoked && now < s.sessions[token].expiresAt
  }

  lemma ReplacedIsRevoked(s: State, h: Hash)
    requires Inv(s) && h in s.sessions && s.sessions[h].replacedBy.Some?
    ensures s.sessions[h].revoked
  {
    assert HasChain(s.sessions, s.sessions[h].family);
    var c :| IsChain(s.sessions, s.sessions[h].family, c);
    OnlyTheTip(s.sessions, s.sessions[h].family, c, h);
  }

  /** A refresh rotates exactly a live token: one new live session of the same user and family replaces it, all others
      stay. A revoked token kills its family and no other; a missing or expired one changes nothing. */
  lemma RefreshAlone(s: State, p: Pid, token: Hash, now: int, next: Hash, expiresAt: int)
    requires Inv(s) && p !in s.requests && next !in s.sessions
    ensures var t := Refresh(s, p, token, now, next, expiresAt);
      && t.requests.Keys == s.requests.Keys + {p} && (forall q | q in s.requests :: t.requests[q] == s.requests[q])
      && (if Live(s, token, now) then
            && t.requests[p] == Rotated(token, next) && Exchanged(t, token, next)
            && t.sessions.Keys == s.sessions.Keys + {next}
            && Live(t, next, expiresAt - 1) && !Live(t, next, expiresAt) && t.sessions[next].replacedBy.None?
            && (forall h | h in s.sessions && h != token :: t.sessions[h] == s.sessions[h])
          else if token in s.sessions && s.sessions[token].revoked then
            && t.requests[p].Reused? && t.sessions.Keys == s.sessions.Keys && Dead(t, s.sessions[token].family)
            && (forall h | h in s.sessions && s.sessions[h].family != s.sessions[token].family ::
                  t.sessions[h] == s.sessions[h])
          else t.requests[p] == Refused(token) && t.sessions == s.sessions)
  {
    if token in s.sessions && s.sessions[token].replacedBy.Some? { ReplacedIsRevoked(s, token); }
  }

  /** A request that has read a live token and comes to its claim, whatever happened since: it rotates the token if it
      is still unrevoked, and otherwise has lost a race and kills the family. */
  lemma ClaimAlone(s: State, p: Pid, next: Hash, expiresAt: int)
    requires Inv(s) && p in s.requests && s.requests[p].Claiming? && next !in s.sessions
    ensures var t := Next(Next(s, Claim(p, next, expiresAt)), RevokeAll(p)); var token := s.requests[p].token;
      if s.sessions[token].revoked then t.requests[p].Reused? && Dead(t, s.sessions[token].family)
      else t.requests[p] == Rotated(token, next) && Exchanged(t, token, next)
  {
    assert KnowsItsRow(s, s.requests[p]);
    if s.sessions[s.requests[p].token].replacedBy.Some? { ReplacedIsRevoked(s, s.requests[p].token); }
  }

  /** A new login can be refreshed exactly until it expires, by whoever presents its token. */
  lemma LoginThenRefresh(s: State, token: Hash, family: Family, user: nat, expiresAt: int, p: Pid, now: int,
                         next: Hash, later: int)
    requires Inv(s) && token !in s.sessions && FreshFamily(s, family)
    requires p !in s.requests && next !in s.sessions && next != token
    ensures var t := Refresh(Next(s, Login(token, family, user, expiresAt)), p, token, now, next, later);
      && (t.requests[p] == Rotated(token, next) <==> now < expiresAt)
      && (now < expiresAt ==> next in t.sessions && t.sessions[next] == Session(user, family, None, false, later))
      && (forall h | h in s.sessions :: h in t.sessions && t.sessions[h] == s.sessions[h])
  {
    StepKeepsInv(s, Login(token, family, user, expiresAt));
    RefreshAlone(Next(s, Login(token, family, user, expiresAt)), p, token, now, next, later);
  }
}
