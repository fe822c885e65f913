/** What acceptance of a signed request means: in its window, and not seen for ten minutes. */
module NonceHistory {
  import opened ReplayNonces

  lemma {:induction false} LastStep(s: State, run: seq<Action>)
    requires run != []
    ensures Exec(s, run) == Next(Exec(s, run[..|run| - 1]), run[|run| - 1])
    decreases run
  {
    if |run| > 1 {
      LastStep(Next(s, run[0]), run[1..]);
      assert run[1..][..|run| - 2] == run[..|run| - 1][1..];
    }
  }

  /** Action `i` presented the request, at most five minutes from its timestamp. */
  predicate CheckedAt(run: seq<Action>, i: int, pid: Pid, r: Request) {
    && 0 <= i < |run| && run[i] == Check(pid, r.via, r.device, r.timestamp, r.nonce, r.checkedAt)
    && r.timestamp - 300_000 <= r.checkedAt <= r.timestamp + 300_000
  }

  /** Action `j` stored the nonce for a request presented before. */
  ghost predicate AcceptedAt(run: seq<Action>, j: int, e: Acceptance) {
    && 0 <= j < |run| && run[j].Insert? && run[j].at == e.at
    && exists i :: i < j && CheckedAt(run, i, run[j].pid, e.request)
  }

  ghost predicate AcceptanceTold(run: seq<Action>, e: Acceptance) {
    exists j :: AcceptedAt(run, j, e)
  }

  ghost predicate RequestTold(run: seq<Action>, pid: Pid, r: Request) {
    exists i :: CheckedAt(run, i, pid, r)
  }

  /** A row of the table was stored by an acceptance, and expires ten minutes after it. */
  ghost predicate RowTold(s: State, k: NonceKey)
    requires k in s.nonces
  {
    exists e :: e in s.accepted && KeyOf(e.request) == k && s.nonces[k] == e.at + 600_000
  }

  ghost predicate Told(run: seq<Action>, s: State) {
    && (forall pid | pid in s.checked :: RequestTold(run, pid, s.checked[pid]))
    && (forall e | e in s.accepted :: AcceptanceTold(run, e))
    && (forall k | k in s.nonces :: RowTold(s, k))
  }

  lemma CheckedLater(before: seq<Action>, run: seq<Action>, pid: Pid, r: Request)
    requires before <= run && RequestTold(before, pid, r)
    ensures RequestTold(run, pid, r)
  {
    var i :| CheckedAt(before, i, pid, r);
    assert CheckedAt(run, i, pid, r);
  }

  lemma AcceptedLater(before: seq<Action>, run: seq<Action>, e: Acceptance)
    requires before <= run && AcceptanceTold(before, e)
    ensures AcceptanceTold(run, e)
  {
    var j :| AcceptedAt(before, j, e);
    var i :| i < j && CheckedAt(before, i, before[j].pid, e.request);
    assert CheckedAt(run, i, run[j].pid, e.request);
    assert AcceptedAt(run, j, e);
  }

  lemma StepTellsRequest(run: seq<Action>, s: State, a: Action, pid: Pid)
    requires Told(run, s) && pid in Next(s, a).checked
    ensures RequestTold(run + [a], pid, Next(s, a).checked[pid])
  {
    if pid in s.checked {
      CheckedLater(run, run + [a], pid, s.checked[pid]);
    } else {
      assert CheckedAt(run + [a], |run|, pid, Next(s, a).checked[pid]);
    }
  }

  lemma StepTellsAcceptance(run: seq<Action>, s: State, a: Action, e: Acceptance)
    requires Told(run, s) && e in Next(s, a).accepted
    ensures AcceptanceTold(run + [a], e)
  {
    var longer := run + [a];
    if e in s.accepted {
      AcceptedLater(run, longer, e);
    } else {
      assert RequestTold(run, a.pid, s.checked[a.pid]);
      var i :| CheckedAt(run, i, a.pid, s.checked[a.pid]);
      assert CheckedAt(longer, i, longer[|run|].pid, e.request);
      assert AcceptedAt(longer, |run|, e);
    }
  }

  lemma StepTellsRow(run: seq<Action>, s: State, a: Action, k: NonceKey)
    requires Told(run, s) && k in Next(s, a).nonces
    ensures RowTold(Next(s, a), k)
  {
    var t := Next(s, a);
    if k in s.nonces && t.nonces[k] == s.nonces[k] {
      var e :| e in s.accepted && KeyOf(e.request) == k && s.nonces[k] == e.at + 600_000;
      assert e in t.accepted;
    } else {
      assert Acceptance(s.checked[a.pid], a.at) in t.accepted;
    }
  }

  lemma {:induction false} RunIsTold(run: seq<Action>)
    ensures Told(run, Exec(INITIAL, run))
  {
    if run != [] {
      var before, a := run[..|run| - 1], run[|run| - 1];
      var s := Exec(INITIAL, before);
      RunIsTold(before);
      LastStep(INITIAL, run);
      assert run == before + [a];
      forall pid | pid in Next(s, a).checked ensures RequestTold(run, pid, Next(s, a).checked[pid]) {
        StepTellsRequest(before, s, a, pid);
      }
      forall e | e in Next(s, a).accepted ensures AcceptanceTold(run, e) { StepTellsAcceptance(before, s, a, e); }
      forall k | k in Next(s, a).nonces ensures RowTold(Next(s, a), k) { StepTellsRow(before, s, a, k); }
    }
  }

  /** Every acceptance was presented within five minutes of its timestamp, and stored its nonce later, by the same
      request. */
  lemma AcceptancesArePresentedInTime(run: seq<Action>, n: nat)
    requires n < |Exec(INITIAL, run).accepted|
    ensures exists j :: AcceptedAt(run, j, Exec(INITIAL, run).accepted[n])
  {
    RunIsTold(run);
    var s := Exec(INITIAL, run);
    assert s.accepted[n] in s.accepted && AcceptanceTold(run, s.accepted[n]);
  }

  // ---------- one request on its own ----------

  /** The nonce was accepted for the device during the ten minutes before `at`. */
  ghost predicate SeenLately(s: State, device: Device, nonce: Hash, at: int) {
    exists e :: e in s.accepted && e.request.device == device && e.request.nonce == nonce && at <= e.at + 600_000
  }

  lemma CollectedIsUnseen(run: seq<Action>, collected: int, r: Request)
    requires Exec(INITIAL, run).now <= collected
    ensures var s := Exec(INITIAL, run);
      KeyOf(r) in Next(s, Collect(collected)).nonces <==> SeenLately(s, r.device, r.nonce, collected)
  {
    RunKeepsInv(INITIAL, run);
    RunIsTold(run);
    var s, k := Exec(INITIAL, run), KeyOf(r);
    if k in s.nonces { assert RowTold(s, k); }
    forall e | e in s.accepted && KeyOf(e.request) == k
      ensures (k in s.nonces && s.nonces[k] >= e.at + 600_000) || s.now > e.at + 600_000
    {
      assert Remembered(s, e);
    }
  }

  /** A presented request is over with its insert or its rejection, and only an accepted one leaves anything. */
  lemma InsertAlone(s: State, pid: Pid, r: Request, at: int)
    requires s.now <= r.checkedAt <= at && pid !in s.checked
    ensures var u := Next(s, Check(pid, r.via, r.device, r.timestamp, r.nonce, r.checkedAt));
      && Next(u, Insert(pid, at)) ==
        (if r.timestamp - 300_000 <= r.checkedAt <= r.timestamp + 300_000 && KeyOf(r) !in s.nonces
         then State(s.nonces[KeyOf(r) := at + 600_000], s.checked, at, s.accepted + [Acceptance(r, at)])
         else s.(now := at))
      && Next(u, Drop(pid, at)) == s.(now := at)
  {
    var u := Next(s, Check(pid, r.via, r.device, r.timestamp, r.nonce, r.checkedAt));
    assert u.checked - {pid} == s.checked;
  }

  /** After the expired rows are collected, a request with nothing in between is accepted exactly when its timestamp is
      within five minutes and the device has not used the nonce during the last ten. */
  lemma RequestAlone(run: seq<Action>, collected: int, pid: Pid, r: Request, at: int)
    requires Exec(INITIAL, run).now <= collected <= r.checkedAt <= at && pid !in Exec(INITIAL, run).checked
    ensures var s := Exec(INITIAL, run);
      var t := Next(Next(Next(s, Collect(collected)),
                         Check(pid, r.via, r.device, r.timestamp, r.nonce, r.checkedAt)), Insert(pid, at));
      t.accepted ==
        if r.timestamp - 300_000 <= r.checkedAt <= r.timestamp + 300_000
           && !SeenLately(s, r.device, r.nonce, collected)
        then s.accepted + [Acceptance(r, at)] else s.accepted
  {
    CollectedIsUnseen(run, collected, r);
    InsertAlone(Next(Exec(INITIAL, run), Collect(collected)), pid, r, at);
  }
}
