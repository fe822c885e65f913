/** Accepting a workspace invitation: a conditional claim, a comparison of emails, and then either a
    membership or an undo of the claim. Other acceptors may come between the two statements. */
module Invitations {
  import opened Common

  type InvitationId = nat
  type User = nat
  type Workspace = nat
  type Pid = nat

  datatype Invitation = Invitation(
    workspace: Workspace, email: string, role: Role, expiresAt: int, revoked: bool, acceptedAt: Option<int>)

  datatype Request =
    | Claimed(id: InvitationId, user: User)
    | Granted(id: InvitationId, user: User)
    | Mismatched(id: InvitationId, user: User)
    | NotFound

  datatype Seat = Seat(workspace: Workspace, user: User)

  datatype Grant = Grant(id: InvitationId, user: User)

  /** `emails` holds each account's address in lower case; `grants` is history. */
  datatype State = State(
    emails: map<User, string>, invitations: map<InvitationId, Invitation>, members: map<Seat, Role>,
    requests: map<Pid, Request>, grants: seq<Grant>)

  /** Withdraw stands for whatever sets `revokedAt`; the service only reads that column. */
  datatype Action =
    | Invite(id: InvitationId, workspace: Workspace, email: string, role: Role, expiresAt: int)
    | Withdraw(id: InvitationId)
    | Claim(pid: Pid, id: InvitationId, user: User, at: int)
    | Decide(pid: Pid)

  function Initial(emails: map<User, string>): State { State(emails, map[], map[], map[], []) }

  predicate Open(s: State, id: InvitationId, at: int) {
    && id in s.invitations
    && s.invitations[id].acceptedAt.None? && !s.invitations[id].revoked && s.invitations[id].expiresAt > at
  }

  function AfterDecide(s: State, pid: Pid): State
    requires pid in s.requests && s.requests[pid].Claimed?
  {
    var r := s.requests[pid];
    if r.id !in s.invitations then s
    else
      var row := s.invitations[r.id];
      if r.user !in s.emails || row.email != s.emails[r.user] then
        s.(invitations := s.invitations[r.id := row.(acceptedAt := None)],
           requests := s.requests[pid := Mismatched(r.id, r.user)])
      else
        s.(members := s.members[Seat(row.workspace, r.user) := row.role],
           requests := s.requests[pid := Granted(r.id, r.user)],
           grants := s.grants + [Grant(r.id, r.user)])
  }

  function Next(s: State, a: Action): State {
    match a
    case Invite(id, workspace, email, role, expiresAt) =>
      if id in s.invitations then s
      else s.(invitations := s.invitations[id := Invitation(workspace, email, role, expiresAt, false, None)])
    case Withdraw(id) =>
      if id !in s.invitations then s
      else s.(invitations := s.invitations[id := s.invitations[id].(revoked := true)])
    case Claim(pid, id, user, at) =>
      if pid in s.requests then s
      else if Open(s, id, at) && user in s.emails then
        s.(invitations := s.invitations[id := s.invitations[id].(acceptedAt := Some(at))],
           requests := s.requests[pid := Claimed(id, user)])
      else s.(requests := s.requests[pid := NotFound])
    case Decide(pid) =>
      if pid in s.requests && s.requests[pid].Claimed? then AfterDecide(s, pid) else s
  }

  function Exec(s: State, run: seq<Action>): State
    decreases run
  {
    if run == [] then s else Exec(Next(s, run[0]), run[1..])
  }

  // ---------- the invariant ----------

  /** Who accounts for a set `acceptedAt`: a claimant on its way, or a completed grant. */
  predicate Owns(s: State, p: Pid, id: InvitationId) {
    p in s.requests && (s.requests[p].Claimed? || s.requests[p].Granted?) && s.requests[p].id == id
  }

  ghost predicate Owned(s: State, id: InvitationId) {
    exists p :: Owns(s, p, id)
  }

  ghost predicate Ownership(s: State) {
    && (forall id | id in s.invitations && s.invitations[id].acceptedAt.Some? :: Owned(s, id))
    && (forall p, id | Owns(s, p, id) :: id in s.invitations && s.invitations[id].acceptedAt.Some?)
    && (forall p, q, id | Owns(s, p, id) && Owns(s, q, id) :: p == q)
  }

  predicate HasGrant(s: State, p: Pid, g: Grant) {
    p in s.requests && s.requests[p] == Granted(g.id, g.user)
  }

  /** Each grant is one finished request whose account has the invited email, and gave a seat. */
  ghost predicate GrantOk(s: State, g: Grant) {
    && (exists p :: HasGrant(s, p, g))
    && g.id in s.invitations && g.user in s.emails && s.emails[g.user] == s.invitations[g.id].email
    && Seat(s.invitations[g.id].workspace, g.user) in s.members
  }

  ghost predicate Grants(s: State) {
    && (forall i | 0 <= i < |s.grants| :: GrantOk(s, s.grants[i]))
    && (forall i, j | 0 <= i < j < |s.grants| :: s.grants[i].id != s.grants[j].id)
    && (forall seat | seat in s.members :: SeatGranted(s, seat))
  }

  /** A seat in a workspace comes from a grant on an invitation to that workspace. */
  ghost predicate SeatGranted(s: State, seat: Seat) {
    exists i | 0 <= i < |s.grants| ::
      s.grants[i].user == seat.user && s.grants[i].id in s.invitations
      && s.invitations[s.grants[i].id].workspace == seat.workspace
  }

  ghost predicate Inv(s: State) { Ownership(s) && Grants(s) }

  lemma OwnsAfter(s: State, a: Action, p: Pid, id: InvitationId)
    ensures Owns(Next(s, a), p, id) <==>
      || (Owns(s, p, id) && !(a == Decide(p) && s.requests[p].Claimed? && Next(s, a).requests[p].Mismatched?))
      || (a.Claim? && a.pid == p && a.id == id && p !in s.requests && Open(s, id, a.at) && a.user in s.emails)
  {
  }

  lemma AcceptedIsOwned(s: State, a: Action, id: InvitationId)
    requires Ownership(s) && id in Next(s, a).invitations && Next(s, a).invitations[id].acceptedAt.Some?
    ensures Owned(Next(s, a), id)
  {
    if id in s.invitations && s.invitations[id].acceptedAt.Some? {
      assert Owned(s, id);
      var p :| Owns(s, p, id);
      OwnsAfter(s, a, p, id);
      assert Owns(Next(s, a), p, id);
    } else {
      OwnsAfter(s, a, a.pid, id);
      assert Owns(Next(s, a), a.pid, id);
    }
  }

  lemma OwnedIsAccepted(s: State, a: Action, p: Pid, id: InvitationId)
    requires Ownership(s) && Owns(Next(s, a), p, id)
    ensures id in Next(s, a).invitations && Next(s, a).invitations[id].acceptedAt.Some?
  {
    OwnsAfter(s, a, p, id);
    if a.Decide? && a.pid in s.requests && s.requests[a.pid].Claimed? {
      assert Owns(s, a.pid, s.requests[a.pid].id);
    }
  }

  lemma StepKeepsOwnership(s: State, a: Action)
    requires Ownership(s)
    ensures Ownership(Next(s, a))
  {
    var t := Next(s, a);
    forall id | id in t.invitations && t.invitations[id].acceptedAt.Some? ensures Owned(t, id) {
      AcceptedIsOwned(s, a, id);
    }
    forall p, id | Owns(t, p, id) ensures id in t.invitations && t.invitations[id].acceptedAt.Some? {
      OwnedIsAccepted(s, a, p, id);
    }
    forall p, q, id | Owns(t, p, id) && Owns(t, q, id) ensures p == q {
      OwnsAfter(s, a, p, id);
      OwnsAfter(s, a, q, id);
    }
  }

  lemma GrantSurvives(s: State, a: Action, g: Grant)
    requires GrantOk(s, g)
    ensures GrantOk(Next(s, a), g)
  {
    var p :| HasGrant(s, p, g);
    assert HasGrant(Next(s, a), p, g);
  }

  /** Deciding in favour of a claimant. */
  predicate Grantable(s: State, p: Pid) {
    p in s.requests && s.requests[p].Claimed? && AfterDecide(s, p).grants != s.grants
  }

  lemma OldGrantsAreOthers(s: State, p: Pid, g: Grant)
    requires Ownership(s) && Grantable(s, p) && GrantOk(s, g)
    ensures g.id != s.requests[p].id
  {
    var q :| HasGrant(s, q, g);
    assert Owns(s, q, g.id) && Owns(s, p, s.requests[p].id);
  }

  lemma OldGrantStays(s: State, p: Pid, i: nat)
    requires Inv(s) && Grantable(s, p) && i < |s.grants|
    ensures i < |AfterDecide(s, p).grants| && AfterDecide(s, p).grants[i] == s.grants[i]
    ensures GrantOk(AfterDecide(s, p), s.grants[i]) && s.grants[i].id != s.requests[p].id
  {
    assert GrantOk(s, s.grants[i]);
    GrantSurvives(s, Decide(p), s.grants[i]);
    OldGrantsAreOthers(s, p, s.grants[i]);
  }

  lemma NewGrantIsOk(s: State, p: Pid)
    requires Grantable(s, p)
    ensures var t := AfterDecide(s, p); var g := Grant(s.requests[p].id, s.requests[p].user);
      t.grants == s.grants + [g] && GrantOk(t, g)
  {
    assert HasGrant(AfterDecide(s, p), p, Grant(s.requests[p].id, s.requests[p].user));
  }

  lemma SeatsAfterGrant(s: State, p: Pid, seat: Seat)
    requires Grants(s) && Grantable(s, p) && seat in AfterDecide(s, p).members
    ensures SeatGranted(AfterDecide(s, p), seat)
  {
    var t, n := AfterDecide(s, p), |s.grants|;
    if seat in s.members {
      assert SeatGranted(s, seat);
      var i :| 0 <= i < n && s.grants[i].user == seat.user && s.grants[i].id in s.invitations
        && s.invitations[s.grants[i].id].workspace == seat.workspace;
      assert t.grants[i] == s.grants[i];
    } else {
      assert t.grants[n] == Grant(s.requests[p].id, s.requests[p].user);
    }
  }

  lemma GrantsAfter(s: State, p: Pid, i: nat)
    requires Inv(s) && Grantable(s, p) && i < |AfterDecide(s, p).grants|
    ensures GrantOk(AfterDecide(s, p), AfterDecide(s, p).grants[i])
    ensures forall j | 0 <= j < i :: AfterDecide(s, p).grants[j].id != AfterDecide(s, p).grants[i].id
  {
    NewGrantIsOk(s, p);
    if i < |s.grants| {
      OldGrantStays(s, p, i);
    } else {
      forall j | 0 <= j < i ensures AfterDecide(s, p).grants[j].id != s.requests[p].id {
        OldGrantStays(s, p, j);
      }
    }
  }

  lemma NewGrant(s: State, p: Pid)
    requires Inv(s) && Grantable(s, p)
    ensures Grants(AfterDecide(s, p))
  {
    var t := AfterDecide(s, p);
    forall i: nat | i < |t.grants|
      ensures GrantOk(t, t.grants[i]) && forall j | 0 <= j < i :: t.grants[j].id != t.grants[i].id
    {
      GrantsAfter(s, p, i);
    }
    forall seat | seat in t.members ensures SeatGranted(t, seat) {
      SeatsAfterGrant(s, p, seat);
    }
  }

  lemma SeatSurvives(s: State, t: State, seat: Seat)
    requires SeatGranted(s, seat) && t.grants == s.grants
    requires forall id | id in s.invitations ::
        id in t.invitations && t.invitations[id].workspace == s.invitations[id].workspace
    ensures SeatGranted(t, seat)
  {
    var i :| 0 <= i < |s.grants| && s.grants[i].user == seat.user && s.grants[i].id in s.invitations
      && s.invitations[s.grants[i].id].workspace == seat.workspace;
    assert t.grants[i] == s.grants[i];
  }

  lemma WorkspacesStay(s: State, a: Action)
    ensures forall id | id in s.invitations ::
      id in Next(s, a).invitations && Next(s, a).invitations[id].workspace == s.invitations[id].workspace
    ensures Next(s, a).grants == s.grants ==> Next(s, a).members == s.members
  {
  }

  lemma NoNewGrant(s: State, a: Action)
    requires Grants(s) && Next(s, a).grants == s.grants
    ensures Grants(Next(s, a))
  {
    var t := Next(s, a);
    WorkspacesStay(s, a);
    forall i | 0 <= i < |t.grants| ensures GrantOk(t, t.grants[i]) {
      GrantSurvives(s, a, s.grants[i]);
    }
    forall seat | seat in t.members ensures SeatGranted(t, seat) {
      SeatSurvives(s, t, seat);
    }
  }

  lemma StepKeepsInv(s: State, a: Action)
    requires Inv(s)
    ensures Inv(Next(s, a))
  {
    StepKeepsOwnership(s, a);
    if Next(s, a).grants != s.grants {
      NewGrant(s, a.pid);
    } else {
      NoNewGrant(s, a);
    }
  }

  lemma {:induction false} RunKeepsInv(s: State, run: seq<Action>)
    requires Inv(s)
    ensures Inv(Exec(s, run))
    decreases run
  {
    if run != [] {
      StepKeepsInv(s, run[0]);
      RunKeepsInv(Next(s, run[0]), run[1..]);
    }
  }

  // ---------- what holds over every run ----------

  /** A set `acceptedAt` always belongs to exactly one claimant in flight or one completed grant. */
  lemma AcceptanceHasOneOwner(emails: map<User, string>, run: seq<Action>, id: InvitationId)
    requires id in Exec(Initial(emails), run).invitations
    ensures var s := Exec(Initial(emails), run);
      && (s.invitations[id].acceptedAt.Some? <==> exists p :: Owns(s, p, id))
      && (forall p, q | Owns(s, p, id) && Owns(s, q, id) :: p == q)
  {
    RunKeepsInv(Initial(emails), run);
    var s := Exec(Initial(emails), run);
    assert s.invitations[id].acceptedAt.Some? ==> Owned(s, id);
  }

  /** An invitation grants at most one membership, to an account with the invited email. */
  lemma OneGrantPerInvitation(emails: map<User, string>, run: seq<Action>, i: nat)
    requires i < |Exec(Initial(emails), run).grants|
    ensures var s := Exec(Initial(emails), run); var g := s.grants[i];
      && g.id in s.invitations && g.user in s.emails && s.emails[g.user] == s.invitations[g.id].email
      && Seat(s.invitations[g.id].workspace, g.user) in s.members
      && (forall j | 0 <= j < |s.grants| && s.grants[j].id == g.id :: j == i)
  {
    RunKeepsInv(Initial(emails), run);
    assert GrantOk(Exec(Initial(emails), run), Exec(Initial(emails), run).grants[i]);
  }

  /** Every seat was granted through an invitation to its workspace. */
  lemma SeatsComeFromGrants(emails: map<User, string>, run: seq<Action>, seat: Seat)
    requires seat in Exec(Initial(emails), run).members
    ensures SeatGranted(Exec(Initial(emails), run), seat)
  {
    RunKeepsInv(Initial(emails), run);
  }

  /** Request `p` of `user` holds the claim it made at `at` on invitation `id`, which was `row`; only its
      withdrawal may have come since. */
  predicate HoldsClaim(u: State, p: Pid, id: InvitationId, user: User, at: int, row: Invitation) {
    && p in u.requests && u.requests[p] == Claimed(id, user) && user in u.emails && u.emails[user] != row.email
    && id in u.invitations && u.invitations[id] == row.(acceptedAt := Some(at), revoked := u.invitations[id].revoked)
  }

  lemma OthersLeaveTheClaim(u: State, a: Action, p: Pid, id: InvitationId, user: User, at: int, row: Invitation)
    requires Ownership(u) && HoldsClaim(u, p, id, user, at, row) && a != Decide(p)
    ensures HoldsClaim(Next(u, a), p, id, user, at, row)
  {
    assert Owns(u, p, id);
    if a.Decide? && a.pid in u.requests && u.requests[a.pid].Claimed? {
      assert Owns(u, a.pid, u.requests[a.pid].id);
    }
  }

  lemma {:induction false} ClaimLasts(u: State, run: seq<Action>, p: Pid, id: InvitationId, user: User, at: int,
                                      row: Invitation)
    requires Inv(u) && HoldsClaim(u, p, id, user, at, row) && Decide(p) !in run
    ensures Inv(Exec(u, run)) && HoldsClaim(Exec(u, run), p, id, user, at, row)
    decreases run
  {
    if run != [] {
      StepKeepsInv(u, run[0]);
      OthersLeaveTheClaim(u, run[0], p, id, user, at, row);
      ClaimLasts(Next(u, run[0]), run[1..], p, id, user, at, row);
    }
  }

  lemma NobodyElseIsGranted(u: State, p: Pid, id: InvitationId)
    requires Inv(u) && Owns(u, p, id) && u.requests[p].Claimed?
    ensures forall g | g in u.grants :: g.id != id
  {
    forall g | g in u.grants ensures g.id != id {
      var i :| 0 <= i < |u.grants| && u.grants[i] == g;
      assert GrantOk(u, g);
      var q :| HasGrant(u, q, g);
      assert Owns(u, q, g.id);
    }
  }

  /** Whatever other requests do between the claim of a mismatching acceptor and its undo, none of them is granted
      the invitation meanwhile, and the undo gives nobody a seat and leaves the invitation as it was before the
      claim, for the right account to use, unless it was withdrawn. */
  lemma MismatchUndoesItsClaim(s: State, p: Pid, id: InvitationId, user: User, at: int, others: seq<Action>)
    requires Inv(s) && p !in s.requests && Open(s, id, at) && user in s.emails
    requires s.emails[user] != s.invitations[id].email && Decide(p) !in others
    ensures var u := Exec(Next(s, Claim(p, id, user, at)), others); var v := Next(u, Decide(p));
      && (forall g | g in u.grants :: g.id != id)
      && v.members == u.members && v.grants == u.grants && v.requests == u.requests[p := Mismatched(id, user)]
      && id in v.invitations && v.invitations == u.invitations[id := v.invitations[id]]
      && v.invitations[id] == s.invitations[id].(revoked := v.invitations[id].revoked)
  {
    var t := Next(s, Claim(p, id, user, at));
    StepKeepsInv(s, Claim(p, id, user, at));
    ClaimLasts(t, others, p, id, user, at, s.invitations[id]);
    assert Owns(Exec(t, others), p, id);
    NobodyElseIsGranted(Exec(t, others), p, id);
  }

  // ---------- the service ----------

  class InvitationDesk {
    const emails: map<User, string>
    var invitations: map<InvitationId, Invitation>
    var members: map<Seat, Role>
    var requests: map<Pid, Request>
    ghost var grants: seq<Grant>

    ghost function View(): State
      reads this
    {
      State(emails, invitations, members, requests, grants)
    }

    constructor (emails: map<User, string>)
      ensures View() == Initial(emails)
    {
      this.emails := emails;
      invitations, members, requests, grants := map[], map[], map[], [];
    }

    /** The claiming UPDATE, with its join on the account. */
    method ClaimInvitation(pid: Pid, id: InvitationId, user: User, at: int)
      requires pid !in requests
      modifies this
      ensures View() == Next(old(View()), Claim(pid, id, user, at))
    {
      if id in invitations && user in emails {
        var row := invitations[id];
        if row.acceptedAt.None? && !row.revoked && row.expiresAt > at {
          invitations := invitations[id := row.(acceptedAt := Some(at))];
          requests := requests[pid := Claimed(id, user)];
          return;
        }
      }
      requests := requests[pid := NotFound];
    }

    /** The statement after the claim: undo on a mismatch, otherwise upsert the member. */
    method Settle(pid: Pid) returns (granted: bool)
      requires pid in requests && requests[pid].Claimed? && requests[pid].id in invitations
      modifies this
      ensures View() == Next(old(View()), Decide(pid))
      ensures granted <==> requests[pid].Granted?
    {
      var r := requests[pid];
      var row := invitations[r.id];
      granted := r.user in emails && row.email == emails[r.user];
      if !granted {
        invitations := invitations[r.id := row.(acceptedAt := None)];
        requests := requests[pid := Mismatched(r.id, r.user)];
      } else {
        members := members[Seat(row.workspace, r.user) := row.role];
        requests := requests[pid := Granted(r.id, r.user)];
        grants := grants + [Grant(r.id, r.user)];
      }
    }
  }
}
