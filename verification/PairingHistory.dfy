/** Which pairings a run made, told by its actions, and what one pairing does on its own. */
module PairingHistory {
  import opened Common
  import opened Pairing

  lemma {:induction false} LastStep(limit: int, s: State, run: seq<Action>)
    requires run != []
    ensures Exec(limit, s, run) == Next(limit, Exec(limit, s, run[..|run| - 1]), run[|run| - 1])
    decreases run
  {
    if |run| > 1 {
      LastStep(limit, Next(limit, s, run[0]), run[1..]);
      assert run[1..][..|run| - 2] == run[..|run| - 1][1..];
    }
  }

  const EMPTY := State(map[], {}, map[], map[], map[], [])

  /** The first offer of the code. */
  function Offered(run: seq<Action>, code: Code): Option<Action> {
    if run == [] then None
    else
      var before, a := Offered(run[..|run| - 1], code), run[|run| - 1];
      if before.None? && a.Offer? && a.code == code then Some(a) else before
  }

  predicate Follows(run: seq<Action>, s: State, code: Code) {
    && (code in s.codes <==> Offered(run, code).Some?)
    && (Offered(run, code).Some? ==> Offered(run, code).value.Offer?)
    && (code in s.codes ==>
          var row, offer := s.codes[code], Offered(run, code).value;
          row.workspace == offer.workspace && row.expiresAt == offer.expiresAt)
  }

  lemma OneMoreOffer(run: seq<Action>, a: Action, code: Code)
    ensures Offered(run + [a], code)
         == if Offered(run, code).None? && a.Offer? && a.code == code then Some(a) else Offered(run, code)
  {
    assert (run + [a])[..|run|] == run;
  }

  /** A code belongs to the workspace of its first offer and expires with it. */
  lemma {:induction false} CodesFollowHistory(limit: int, run: seq<Action>, code: Code)
    ensures Follows(run, Exec(limit, EMPTY, run), code)
  {
    if run != [] {
      var before, a := run[..|run| - 1], run[|run| - 1];
      CodesFollowHistory(limit, before, code);
      LastStep(limit, EMPTY, run);
      OneMoreOffer(before, a, code);
      assert run == before + [a];
    }
  }

  // ---------- what was made ----------

  /** Action `i` looked the code up in time. */
  predicate LookedUp(run: seq<Action>, i: int, pid: Pid, code: Code) {
    && 0 <= i < |run| && run[i].Lookup? && run[i].pid == pid && run[i].code == code
    && Offered(run[..i], code).Some? && Offered(run[..i], code).value.Offer?
    && run[i].at < Offered(run[..i], code).value.expiresAt
  }

  /** Action `k` checked the capacity for that request, and found room in the workspace. */
  ghost predicate FoundRoom(limit: int, run: seq<Action>, k: int, pid: Pid, code: Code) {
    && 0 <= k < |run| && run[k] == CheckCapacity(pid) && (exists i :: i < k && LookedUp(run, i, pid, code))
    && Offered(run[..k], code).Some? && Offered(run[..k], code).value.Offer?
    && |Members(Exec(limit, EMPTY, run[..k]), Offered(run[..k], code).value.workspace)| < limit
  }

  /** Action `j` made the pairing `m`, in time. */
  ghost predicate MadeAt(limit: int, run: seq<Action>, j: int, m: Made) {
    && 0 <= j < |run| && run[j].Commit? && run[j].user == m.user && run[j].device == m.device
    && Offered(run[..j], m.code).Some? && Offered(run[..j], m.code).value.Offer?
    && run[j].at < Offered(run[..j], m.code).value.expiresAt
    && m.workspace == Offered(run[..j], m.code).value.workspace
    && exists k :: k < j && FoundRoom(limit, run, k, run[j].pid, m.code)
  }

  ghost predicate MadeTold(limit: int, run: seq<Action>, m: Made) {
    exists j :: MadeAt(limit, run, j, m)
  }

  ghost predicate RequestTold(limit: int, run: seq<Action>, pid: Pid, r: Request) {
    if r.Found? then exists i :: LookedUp(run, i, pid, r.code) else exists k :: FoundRoom(limit, run, k, pid, r.code)
  }

  ghost predicate Told(limit: int, run: seq<Action>, s: State) {
    && (forall pid | pid in s.requests :: RequestTold(limit, run, pid, s.requests[pid]))
    && (forall i | 0 <= i < |s.made| :: MadeTold(limit, run, s.made[i]))
  }

  lemma LookedUpLater(before: seq<Action>, run: seq<Action>, i: int, pid: Pid, code: Code)
    requires before <= run && LookedUp(before, i, pid, code)
    ensures LookedUp(run, i, pid, code)
  {
    assert run[..i] == before[..i];
  }

  lemma FoundRoomLater(limit: int, before: seq<Action>, run: seq<Action>, k: int, pid: Pid, code: Code)
    requires before <= run && FoundRoom(limit, before, k, pid, code)
    ensures FoundRoom(limit, run, k, pid, code)
  {
    assert run[..k] == before[..k];
    var i :| i < k && LookedUp(before, i, pid, code);
    LookedUpLater(before, run, i, pid, code);
  }

  lemma MadeLater(limit: int, before: seq<Action>, run: seq<Action>, j: int, m: Made)
    requires before <= run && MadeAt(limit, before, j, m)
    ensures MadeAt(limit, run, j, m)
  {
    assert run[..j] == before[..j];
    var k :| k < j && FoundRoom(limit, before, k, before[j].pid, m.code);
    FoundRoomLater(limit, before, run, k, before[j].pid, m.code);
  }

  lemma RequestLater(limit: int, before: seq<Action>, run: seq<Action>, pid: Pid, r: Request)
    requires before <= run && RequestTold(limit, before, pid, r)
    ensures RequestTold(limit, run, pid, r)
  {
    if r.Found? {
      var i :| LookedUp(before, i, pid, r.code);
      LookedUpLater(before, run, i, pid, r.code);
    } else {
      var k :| FoundRoom(limit, before, k, pid, r.code);
      FoundRoomLater(limit, before, run, k, pid, r.code);
    }
  }

  /** A request begins with a lookup in time, and gets past the check only with room in the workspace. */
  lemma RequestMoves(limit: int, s: State, a: Action, pid: Pid)
    requires pid in Next(limit, s, a).requests
    ensures var r := Next(limit, s, a).requests[pid];
      || (pid in s.requests && r == s.requests[pid])
      || (r.Found? && a.Lookup? && a.pid == pid && a.code == r.code && r.code in s.codes
          && a.at < s.codes[r.code].expiresAt)
      || (r.Passed? && a == CheckCapacity(pid) && pid in s.requests && s.requests[pid] == Found(r.code)
          && r.code in s.codes && |Members(s, s.codes[r.code].workspace)| < limit)
  {
  }

  lemma StepTellsRequest(limit: int, run: seq<Action>, s: State, a: Action, pid: Pid)
    requires s == Exec(limit, EMPTY, run) && Told(limit, run, s) && pid in Next(limit, s, a).requests
    ensures RequestTold(limit, run + [a], pid, Next(limit, s, a).requests[pid])
  {
    var r, longer := Next(limit, s, a).requests[pid], run + [a];
    assert longer[..|run|] == run;
    RequestMoves(limit, s, a, pid);
    CodesFollowHistory(limit, run, r.code);
    if pid in s.requests && r == s.requests[pid] {
      RequestLater(limit, run, longer, pid, r);
    } else if r.Found? {
      assert LookedUp(longer, |run|, pid, r.code);
    } else {
      var i :| LookedUp(run, i, pid, r.code);
      LookedUpLater(run, longer, i, pid, r.code);
      assert FoundRoom(limit, longer, |run|, pid, r.code);
    }
  }

  /** A pairing is made by a commit of a request past the check, in time. */
  lemma NewMade(limit: int, s: State, a: Action)
    requires Next(limit, s, a).made != s.made
    ensures a.Commit? && a.pid in s.requests && s.requests[a.pid].Passed?
    ensures var code := s.requests[a.pid].code;
      && code in s.codes && a.at < s.codes[code].expiresAt
      && Next(limit, s, a).made == s.made + [Made(code, s.codes[code].workspace, a.user, a.device)]
  {
  }

  lemma StepTellsMade(limit: int, run: seq<Action>, s: State, a: Action, i: nat)
    requires s == Exec(limit, EMPTY, run) && Told(limit, run, s) && i < |Next(limit, s, a).made|
    ensures MadeTold(limit, run + [a], Next(limit, s, a).made[i])
  {
    var m, longer := Next(limit, s, a).made[i], run + [a];
    assert longer[..|run|] == run;
    if Next(limit, s, a).made != s.made { NewMade(limit, s, a); }
    if i < |s.made| {
      assert MadeTold(limit, run, s.made[i]);
      var j :| MadeAt(limit, run, j, s.made[i]);
      MadeLater(limit, run, longer, j, s.made[i]);
    } else {
      CodesFollowHistory(limit, run, m.code);
      assert RequestTold(limit, run, a.pid, s.requests[a.pid]);
      var k :| FoundRoom(limit, run, k, a.pid, m.code);
      FoundRoomLater(limit, run, longer, k, a.pid, m.code);
      assert MadeAt(limit, longer, |run|, m);
    }
  }

  lemma {:induction false} RunIsTold(limit: int, run: seq<Action>)
    ensures Told(limit, run, Exec(limit, EMPTY, run))
  {
    if run != [] {
      var before, a := run[..|run| - 1], run[|run| - 1];
      var s := Exec(limit, EMPTY, before);
      RunIsTold(limit, before);
      LastStep(limit, EMPTY, run);
      assert run == before + [a];
      forall pid | pid in Next(limit, s, a).requests
        ensures RequestTold(limit, run, pid, Next(limit, s, a).requests[pid])
      {
        StepTellsRequest(limit, before, s, a, pid);
      }
      forall i: nat | i < |Next(limit, s, a).made| ensures MadeTold(limit, run, Next(limit, s, a).made[i]) {
        StepTellsMade(limit, before, s, a, i);
      }
    }
  }

  /** Every pairing goes back to an offer of its code for its workspace, a lookup in time, a capacity check that found
      room, and a commit in time, in this order. */
  lemma PairingsAreCheckedInTime(limit: int, run: seq<Action>, i: nat)
    requires i < |Exec(limit, EMPTY, run).made|
    ensures exists j :: MadeAt(limit, run, j, Exec(limit, EMPTY, run).made[i])
  {
    RunIsTold(limit, run);
    assert MadeTold(limit, run, Exec(limit, EMPTY, run).made[i]);
  }

  // ---------- one pairing on its own ----------

  predicate HasRoom(configured: int, members: nat) { members < configured || members == 0 }

  lemma CheckAlone(configured: int, s: State, pid: Pid, code: Code, found: int)
    requires pid !in s.requests
    ensures Next(Limit(configured), Next(Limit(configured), s, Lookup(pid, code, found)), CheckCapacity(pid)) ==
      if code in s.codes && !s.codes[code].used && found < s.codes[code].expiresAt
         && HasRoom(configured, |Members(s, s.codes[code].workspace)|)
      then s.(requests := s.requests[pid := Passed(code)]) else s
  {
    var t := Next(Limit(configured), Next(Limit(configured), s, Lookup(pid, code, found)), CheckCapacity(pid));
    assert pid !in t.requests ==> t.requests == s.requests;
    assert pid in t.requests ==> t.requests == s.requests[pid := Passed(code)];
  }

  /** What a pairing makes, and nothing else. */
  ghost predicate Paired(s: State, t: State, code: Code, user: User, device: Device)
    requires code in s.codes
  {
    var w := s.codes[code].workspace;
    && t.codes == s.codes[code := CodeRow(w, s.codes[code].expiresAt, true)]
    && Members(t, w) == Members(s, w) + {user} && (forall v | v != w :: Members(t, v) == Members(s, v))
    && t.users == s.users + {user} && t.devices == s.devices[device := user]
    && t.made == s.made + [Made(code, w, user, device)]
  }

  lemma CommitAlone(limit: int, s: State, pid: Pid, code: Code, user: User, device: Device, at: int)
    requires pid in s.requests && s.requests[pid] == Passed(code) && Fresh(s, user, device)
    ensures var t := Next(limit, s, Commit(pid, user, device, at));
      && t.requests == s.requests - {pid}
      && if code in s.codes && !s.codes[code].used && at < s.codes[code].expiresAt then Paired(s, t, code, user, device)
         else t == s.(requests := s.requests - {pid})
  {
  }

  /** A pairing with nothing in between makes its user, seat and device exactly when the code is unused and has not
      expired at its lookup and its commit, and the workspace has fewer members than MAX_PRIVATE_USERS, or none if that
      is less than one; otherwise it leaves everything alone. */
  lemma PairAlone(configured: int, s: State, pid: Pid, code: Code, found: int, user: User, device: Device, at: int)
    requires pid !in s.requests && Fresh(s, user, device)
    ensures var limit := Limit(configured);
      var t := Next(limit, Next(limit, Next(limit, s, Lookup(pid, code, found)), CheckCapacity(pid)),
                    Commit(pid, user, device, at));
      if code in s.codes && !s.codes[code].used && found < s.codes[code].expiresAt && at < s.codes[code].expiresAt
         && HasRoom(configured, |Members(s, s.codes[code].workspace)|)
      then Paired(s, t, code, user, device) && t.requests == s.requests
      else t == s
  {
    var limit := Limit(configured);
    CheckAlone(configured, s, pid, code, found);
    var u := s.(requests := s.requests[pid := Passed(code)]);
    CommitAlone(limit, u, pid, code, user, device, at);
    assert u.requests - {pid} == s.requests;
    assert Next(limit, s, Commit(pid, user, device, at)) == s;
  }
}
