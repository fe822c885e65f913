/** Which memberships a run's invitations gave, told by its actions, and what one acceptance does on its own. */
module InvitationHistory {
  import opened Common
  import opened Invitations

  lemma {:induction false} LastStep(s: State, run: seq<Action>)
    requires run != []
    ensures Exec(s, run) == Next(Exec(s, run[..|run| - 1]), run[|run| - 1])
    decreases run
  {
    if |run| > 1 {
      LastStep(Next(s, run[0]), run[1..]);
      assert run[1..][..|run| - 2] == run[..|run| - 1][1..];
    }
  }

  // ---------- invitations ----------

  /** The first action of the run that invites under this id. */
  function Sent(run: seq<Action>, id: InvitationId): Option<Action> {
    if run == [] then None
    else
      var before, a := Sent(run[..|run| - 1], id), run[|run| - 1];
      if before.None? && a.Invite? && a.id == id then Some(a) else before
  }

  /** It has been withdrawn since. */
  function Withdrawn(run: seq<Action>, id: InvitationId): bool {
    if run == [] then false
    else
      var before := run[..|run| - 1];
      Withdrawn(before, id) || (Sent(before, id).Some? && run[|run| - 1] == Withdraw(id))
  }

  /** What the run says about an invitation is what its row says. */
  predicate Follows(run: seq<Action>, s: State, id: InvitationId) {
    && (id in s.invitations <==> Sent(run, id).Some?) && (Withdrawn(run, id) ==> Sent(run, id).Some?)
    && (Sent(run, id).Some? ==> Sent(run, id).value.Invite?)
    && (id in s.invitations ==>
          var row, sent := s.invitations[id], Sent(run, id).value;
          && row.workspace == sent.workspace && row.email == sent.email && row.role == sent.role
          && row.expiresAt == sent.expiresAt && (row.revoked <==> Withdrawn(run, id)))
  }

  lemma OneMoreSent(run: seq<Action>, a: Action, id: InvitationId)
    ensures Sent(run + [a], id) == if Sent(run, id).None? && a.Invite? && a.id == id then Some(a) else Sent(run, id)
    ensures Withdrawn(run + [a], id) <==> Withdrawn(run, id) || (Sent(run, id).Some? && a == Withdraw(id))
  {
    assert (run + [a])[..|run|] == run;
  }

  lemma FollowsStep(run: seq<Action>, s: State, a: Action, id: InvitationId)
    requires Follows(run, s, id)
    ensures Follows(run + [a], Next(s, a), id)
  {
    OneMoreSent(run, a, id);
  }

  /** An invitation is what its first Invite says, and revoked exactly once withdrawn. */
  lemma {:induction false} InvitationsFollowHistory(emails: map<User, string>, run: seq<Action>, id: InvitationId)
    ensures Follows(run, Exec(Initial(emails), run), id) && Exec(Initial(emails), run).emails == emails
  {
    if run != [] {
      var before := run[..|run| - 1];
      InvitationsFollowHistory(emails, before, id);
      LastStep(Initial(emails), run);
      FollowsStep(before, Exec(Initial(emails), before), run[|run| - 1], id);
      assert run == before + [run[|run| - 1]];
    }
  }

  // ---------- grants ----------

  /** Action `i` claimed the invitation for the user, before it expired and while it was not withdrawn. */
  predicate ClaimedAt(run: seq<Action>, i: int, p: Pid, id: InvitationId, user: User) {
    && 0 <= i < |run| && run[i].Claim? && run[i].pid == p && run[i].id == id && run[i].user == user
    && Sent(run[..i], id).Some? && Sent(run[..i], id).value.Invite? && run[i].at < Sent(run[..i], id).value.expiresAt
    && !Withdrawn(run[..i], id)
  }

  /** Action `j` decided in favour of a request that had claimed the invitation before. */
  ghost predicate GrantedAt(run: seq<Action>, j: int, g: Grant) {
    0 <= j < |run| && run[j].Decide? && exists i :: i < j && ClaimedAt(run, i, run[j].pid, g.id, g.user)
  }

  ghost predicate GrantTold(run: seq<Action>, s: State, g: Grant) {
    && (exists j :: GrantedAt(run, j, g))
    && g.id in s.invitations && g.user in s.emails && s.emails[g.user] == s.invitations[g.id].email
  }

  ghost predicate RequestTold(run: seq<Action>, s: State, p: Pid)
    requires p in s.requests
  {
    s.requests[p].NotFound? || exists i :: ClaimedAt(run, i, p, s.requests[p].id, s.requests[p].user)
  }

  /** The latest grant of the seat. */
  ghost predicate LatestFor(s: State, seat: Seat, i: int) {
    && 0 <= i < |s.grants| && IsFor(s, s.grants[i], seat)
    && forall j | i < j < |s.grants| :: !IsFor(s, s.grants[j], seat)
  }

  predicate IsFor(s: State, g: Grant, seat: Seat) {
    g.user == seat.user && g.id in s.invitations && s.invitations[g.id].workspace == seat.workspace
  }

  ghost predicate RoleTold(s: State, seat: Seat)
    requires seat in s.members
  {
    exists i :: LatestFor(s, seat, i) && s.members[seat] == s.invitations[s.grants[i].id].role
  }

  ghost predicate Told(run: seq<Action>, s: State) {
    && (forall p | p in s.requests :: RequestTold(run, s, p))
    && (forall i | 0 <= i < |s.grants| :: GrantTold(run, s, s.grants[i]))
    && (forall seat | seat in s.members :: RoleTold(s, seat))
  }

  lemma ClaimedLater(before: seq<Action>, run: seq<Action>, i: int, p: Pid, id: InvitationId, user: User)
    requires before <= run && ClaimedAt(before, i, p, id, user)
    ensures ClaimedAt(run, i, p, id, user)
  {
    assert run[..i] == before[..i];
  }

  lemma GrantedLater(before: seq<Action>, run: seq<Action>, j: int, g: Grant)
    requires before <= run && GrantedAt(before, j, g)
    ensures GrantedAt(run, j, g)
  {
    var i :| i < j && ClaimedAt(before, i, before[j].pid, g.id, g.user);
    ClaimedLater(before, run, i, before[j].pid, g.id, g.user);
  }

  /** No step forgets an invitation or rewrites what it says, and a step adds at most one grant. */
  predicate Extends(s: State, t: State) {
    && t.emails == s.emails
    && (forall id | id in s.invitations :: id in t.invitations && SayTheSame(s.invitations[id], t.invitations[id]))
  }

  predicate SayTheSame(a: Invitation, b: Invitation) {
    a.workspace == b.workspace && a.email == b.email && a.role == b.role && a.expiresAt == b.expiresAt
  }

  lemma StepExtends(s: State, a: Action)
    ensures Extends(s, Next(s, a))
    ensures Next(s, a).grants == s.grants ==> Next(s, a).members == s.members
  {
  }

  lemma StepTellsRequest(emails: map<User, string>, run: seq<Action>, a: Action, p: Pid)
    requires Told(run, Exec(Initial(emails), run)) && p in Next(Exec(Initial(emails), run), a).requests
    ensures RequestTold(run + [a], Next(Exec(Initial(emails), run), a), p)
  {
    var s, longer := Exec(Initial(emails), run), run + [a];
    assert longer[..|run|] == run;
    if p in s.requests {
      assert RequestTold(run, s, p);
      if !s.requests[p].NotFound? {
        var i :| ClaimedAt(run, i, p, s.requests[p].id, s.requests[p].user);
        ClaimedLater(run, longer, i, p, s.requests[p].id, s.requests[p].user);
      }
    } else if !Next(s, a).requests[p].NotFound? {
      InvitationsFollowHistory(emails, run, a.id);
      assert ClaimedAt(longer, |run|, p, a.id, a.user);
    }
  }

  /** A grant is given by deciding for a claimant with the invited email, and sets the role of its seat. */
  lemma NewGrant(s: State, a: Action)
    requires Next(s, a).grants != s.grants
    ensures a.Decide? && a.pid in s.requests && s.requests[a.pid].Claimed?
    ensures var r := s.requests[a.pid];
      && r.id in s.invitations && r.user in s.emails && s.emails[r.user] == s.invitations[r.id].email
      && Next(s, a).grants == s.grants + [Grant(r.id, r.user)] && Next(s, a).invitations == s.invitations
      && Next(s, a).members == s.members[Seat(s.invitations[r.id].workspace, r.user) := s.invitations[r.id].role]
  {
  }

  lemma GrantStaysTold(run: seq<Action>, s: State, longer: seq<Action>, t: State, g: Grant)
    requires run <= longer && GrantTold(run, s, g) && Extends(s, t)
    ensures GrantTold(longer, t, g)
  {
    var j :| GrantedAt(run, j, g);
    GrantedLater(run, longer, j, g);
  }

  lemma StepTellsGrants(run: seq<Action>, s: State, a: Action, k: nat)
    requires Told(run, s) && k < |Next(s, a).grants|
    ensures GrantTold(run + [a], Next(s, a), Next(s, a).grants[k])
  {
    var t, longer := Next(s, a), run + [a];
    StepExtends(s, a);
    if t.grants != s.grants { NewGrant(s, a); }
    if k < |s.grants| {
      GrantStaysTold(run, s, longer, t, s.grants[k]);
    } else {
      assert RequestTold(run, s, a.pid);
      var g := t.grants[k];
      var i :| ClaimedAt(run, i, a.pid, g.id, g.user);
      ClaimedLater(run, longer, i, a.pid, g.id, g.user);
      assert GrantedAt(longer, |run|, g);
    }
  }

  lemma RoleStaysTold(run: seq<Action>, s: State, t: State, seat: Seat)
    requires Told(run, s) && seat in s.members && seat in t.members && t.members[seat] == s.members[seat]
    requires Extends(s, t) && s.grants <= t.grants
    requires forall k | |s.grants| <= k < |t.grants| :: !IsFor(t, t.grants[k], seat)
    ensures RoleTold(t, seat)
  {
    assert RoleTold(s, seat);
    var i :| LatestFor(s, seat, i) && s.members[seat] == s.invitations[s.grants[i].id].role;
    forall j | i < j < |s.grants| ensures !IsFor(t, t.grants[j], seat) {
      assert t.grants[j] == s.grants[j] && !IsFor(s, s.grants[j], seat) && GrantTold(run, s, s.grants[j]);
    }
    assert LatestFor(t, seat, i);
  }

  lemma StepTellsRole(run: seq<Action>, s: State, a: Action, seat: Seat)
    requires Told(run, s) && seat in Next(s, a).members
    ensures RoleTold(Next(s, a), seat)
  {
    var t := Next(s, a);
    StepExtends(s, a);
    if t.grants == s.grants {
      RoleStaysTold(run, s, t, seat);
    } else {
      NewGrant(s, a);
      var r := s.requests[a.pid];
      if seat == Seat(s.invitations[r.id].workspace, r.user) {
        assert LatestFor(t, seat, |s.grants|);
      } else {
        RoleStaysTold(run, s, t, seat);
      }
    }
  }

  lemma {:induction false} RunIsTold(emails: map<User, string>, run: seq<Action>)
    ensures Told(run, Exec(Initial(emails), run))
  {
    if run != [] {
      var before, a := run[..|run| - 1], run[|run| - 1];
      var s := Exec(Initial(emails), before);
      RunIsTold(emails, before);
      LastStep(Initial(emails), run);
      assert run == before + [a];
      forall p | p in Next(s, a).requests ensures RequestTold(run, Next(s, a), p) {
        StepTellsRequest(emails, before, a, p);
      }
      forall k: nat | k < |Next(s, a).grants| ensures GrantTold(run, Next(s, a), Next(s, a).grants[k]) {
        StepTellsGrants(before, s, a, k);
      }
      forall seat | seat in Next(s, a).members ensures RoleTold(Next(s, a), seat) {
        StepTellsRole(before, s, a, seat);
      }
    }
  }

  /** Behind every grant there is an invitation of the user's address, claimed by that user before it expired and
      while nobody had withdrawn it. */
  lemma GrantsAreClaimedInTime(emails: map<User, string>, run: seq<Action>, k: nat)
    requires k < |Exec(Initial(emails), run).grants|
    ensures var g := Exec(Initial(emails), run).grants[k]; var sent := Sent(run, g.id);
      && (exists j :: GrantedAt(run, j, g))
      && sent.Some? && sent.value.Invite? && g.user in emails && emails[g.user] == sent.value.email
  {
    RunIsTold(emails, run);
    var s := Exec(Initial(emails), run);
    assert GrantTold(run, s, s.grants[k]);
    InvitationsFollowHistory(emails, run, s.grants[k].id);
  }

  /** A member's role is that of the latest invitation granted to the seat. */
  lemma RolesComeFromTheLatestGrant(emails: map<User, string>, run: seq<Action>, seat: Seat)
    requires seat in Exec(Initial(emails), run).members
    ensures RoleTold(Exec(Initial(emails), run), seat)
  {
    RunIsTold(emails, run);
  }

  // ---------- one acceptance on its own ----------

  predicate Acceptable(s: State, id: InvitationId, at: int) {
    && id in s.invitations && s.invitations[id].acceptedAt.None? && !s.invitations[id].revoked
    && at < s.invitations[id].expiresAt
  }

  /** An acceptance with nothing in between grants the seat exactly to an account with the invited address, while the
      invitation is neither used nor withdrawn nor expired; otherwise it leaves invitations and members alone. */
  lemma AcceptAlone(s: State, p: Pid, id: InvitationId, user: User, at: int)
    requires p !in s.requests
    ensures var t := Next(Next(s, Claim(p, id, user, at)), Decide(p));
      if Acceptable(s, id, at) && user in s.emails && s.emails[user] == s.invitations[id].email then
        && t.requests == s.requests[p := Granted(id, user)] && t.grants == s.grants + [Grant(id, user)]
        && t.members == s.members[Seat(s.invitations[id].workspace, user) := s.invitations[id].role]
        && t.invitations == s.invitations[id := s.invitations[id].(acceptedAt := Some(at))]
      else
        && t.members == s.members && t.invitations == s.invitations && t.grants == s.grants
        && t.requests == s.requests[p := if Acceptable(s, id, at) && user in s.emails then Mismatched(id, user)
                                        else NotFound]
  {
  }
}
