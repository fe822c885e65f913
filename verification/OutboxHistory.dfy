/** When an email may be claimed again, told by the times of the run's actions, and what one batch does on its own. */
module OutboxHistory {
  import opened Common
  import opened EmailOutbox

  lemma {:induction false} LastStep(s: State, run: seq<Action>)
    requires run != []
    ensures Exec(s, run) == Next(Exec(s, run[..|run| - 1]), run[|run| - 1])
    decreases run
  {
    if |run| > 1 {
      LastStep(Next(s, run[0]), run[1..]);
      assert run[1..][..|run| - 2] == run[..|run| - 1][1..];
    }
  }

  /** The state before action `i` of the run. */
  ghost function Upto(run: seq<Action>, i: nat): State
    requires i <= |run|
  {
    Exec(INITIAL, run[..i])
  }

  lemma OneFurther(run: seq<Action>, i: nat)
    requires i < |run|
    ensures Upto(run, i + 1) == Next(Upto(run, i), run[i])
  {
    LastStep(INITIAL, run[..i + 1]);
    assert run[..i + 1][..i] == run[..i];
  }

  // ---------- who is claimed ----------

  /** Action `j` of the run is a claim that starts another attempt of the email. */
  ghost predicate Takes(run: seq<Action>, j: int, id: Id) {
    && 0 <= j < |run| && run[j].Claim? && id in Upto(run, j).rows && id in Upto(run, j + 1).rows
    && Upto(run, j + 1).rows[id].attempts > Upto(run, j).rows[id].attempts
  }

  /** At time `at` the email is due: unsent, with an attempt left, available, and not locked during the last five
      minutes. */
  predicate Due(row: Row, at: int) {
    && row.sentAt.None? && row.attempts < row.maxAttempts && row.availableAt <= at
    && (row.lockedAt.Some? ==> at - row.lockedAt.value > 300_000)
  }

  lemma Taken(s: State, a: Action, id: Id)
    requires id in s.rows && a.Claim? && id in Next(s, a).rows && Next(s, a).rows[id].attempts > s.rows[id].attempts
    ensures Idle(s.batches, a.worker) && Picked(s.rows, a.ids, a.size, a.at) && id in a.ids
    ensures Next(s, a).rows[id].attempts == s.rows[id].attempts + 1
  {
  }

  /** A claim takes only emails that are due, at most as many as its size; one that is due and left behind is no older
      than any that is taken, and the claim is full. */
  lemma ClaimsAreFair(run: seq<Action>, j: int, id: Id, other: Id)
    requires Takes(run, j, id)
    ensures Due(Upto(run, j).rows[id], run[j].at)
    ensures other in Upto(run, j).rows && Due(Upto(run, j).rows[other], run[j].at) && !Takes(run, j, other) ==>
        Upto(run, j).rows[id].createdAt <= Upto(run, j).rows[other].createdAt
    ensures |run[j].ids| <= run[j].size && (forall k | k in run[j].ids :: Takes(run, j, k))
    ensures other in Upto(run, j).rows && Due(Upto(run, j).rows[other], run[j].at) && !Takes(run, j, other) ==>
        |run[j].ids| == run[j].size
  {
    OneFurther(run, j);
    Taken(Upto(run, j), run[j], id);
  }

  /** Any choice of due emails that is fair in this sense can be claimed by an idle worker. */
  lemma FairClaimsAreTaken(s: State, w: Worker, ids: seq<Id>, size: nat, at: int)
    requires Idle(s.batches, w) && |ids| <= size && (forall i, j | 0 <= i < j < |ids| :: ids[i] != ids[j])
    requires forall id | id in ids :: id in s.rows && Due(s.rows[id], at)
    requires forall id, other | id in ids && other in s.rows && other !in ids && Due(s.rows[other], at) ::
        s.rows[id].createdAt <= s.rows[other].createdAt
    requires forall other | other in s.rows && other !in ids && Due(s.rows[other], at) :: |ids| == size
    ensures var t := Next(s, Claim(w, ids, size, at));
      && t.rows.Keys == s.rows.Keys && (forall id | id in s.rows && id !in ids :: t.rows[id] == s.rows[id])
      && (forall id | id in ids :: t.rows[id] == TakenRow(s.rows[id], w, at))
  {
    forall id | id in s.rows ensures Due(s.rows[id], at) <==> Eligible(s.rows[id], at) {
    }
  }

  // ---------- how long a failed email waits ----------

  /** Action `i` marks attempt `n` of the email as failed, by the worker that still holds its lock. */
  ghost predicate Fails(run: seq<Action>, i: int, id: Id, n: nat) {
    && 0 <= i < |run| && run[i].Mark? && IsAnsweredHead(Upto(run, i), run[i].worker, Item(id, n))
    && Upto(run, i).batches[run[i].worker].delivered == Some(false)
    && id in Upto(run, i).rows && Upto(run, i).rows[id].lockedBy == Some(run[i].worker)
  }

  /** Nobody holds the email, and it is put off until `at`. */
  predicate PutOff(s: State, id: Id, at: int) {
    id in s.rows && s.rows[id].lockedBy.None? && s.rows[id].availableAt == at
  }

  lemma FailurePutsOff(s: State, w: Worker, at: int, id: Id, n: nat)
    requires IsAnsweredHead(s, w, Item(id, n)) && s.batches[w].delivered == Some(false)
    requires id in s.rows && s.rows[id].lockedBy == Some(w)
    ensures PutOff(Next(s, Mark(w, at)), id, at + 1000 * RetryDelaySeconds(n))
  {
  }

  lemma StaysPutOff(s: State, a: Action, id: Id, at: int)
    requires PutOff(s, id, at) && !(a.Claim? && Next(s, a).rows[id].attempts > s.rows[id].attempts)
    ensures PutOff(Next(s, a), id, at)
  {
  }

  lemma {:induction false} PutOffUntil(run: seq<Action>, i: nat, k: nat, id: Id, at: int)
    requires i <= k <= |run| && PutOff(Upto(run, i), id, at) && forall m | i <= m < k :: !Takes(run, m, id)
    ensures PutOff(Upto(run, k), id, at)
    decreases k - i
  {
    if i < k {
      OneFurther(run, i);
      assert !Takes(run, i, id);
      RowsRemain(Upto(run, i), run[i], id);
      StaysPutOff(Upto(run, i), run[i], id, at);
      PutOffUntil(run, i + 1, k, id, at);
    }
  }

  lemma RowsRemain(s: State, a: Action, id: Id)
    requires id in s.rows
    ensures id in Next(s, a).rows
  {
  }

  /** After attempt `n` has failed, the next attempt of the email starts no sooner than the delay of attempt `n` after
      the failure was recorded. */
  lemma NextAttemptWaits(run: seq<Action>, i: int, j: int, id: Id, n: nat)
    requires Fails(run, i, id, n) && Takes(run, j, id) && i < j && forall k | i < k < j :: !Takes(run, k, id)
    ensures run[j].at >= run[i].at + 1000 * RetryDelaySeconds(n)
  {
    OneFurther(run, i);
    FailurePutsOff(Upto(run, i), run[i].worker, run[i].at, id, n);
    PutOffUntil(run, i + 1, j, id, run[i].at + 1000 * RetryDelaySeconds(n));
    OneFurther(run, j);
    Taken(Upto(run, j), run[j], id);
  }

  // ---------- when clocks disagree ----------

  /** The times of the statements run backwards by at most `d` ms. */
  predicate Skewed(d: nat, run: seq<Action>) {
    forall i, j | 0 <= i < j < |run| && !run[i].Deliver? && !run[j].Deliver? :: run[i].at <= run[j].at + d
  }

  /** Until the email is claimed again, its row changes only when its own worker marks the attempt in hand. */
  lemma RowMoves(s: State, a: Action, id: Id)
    requires Inv(s) && id in s.rows
    requires id in Next(s, a).rows && !(a.Claim? && Next(s, a).rows[id].attempts > s.rows[id].attempts)
    ensures var row := s.rows[id];
      || Next(s, a).rows[id] == row
      || (a.Mark? && row.lockedBy == Some(a.worker) && IsAnsweredHead(s, a.worker, Item(id, row.attempts))
          && Next(s, a).rows[id].attempts == row.attempts
          && (Next(s, a).rows[id].sentAt.Some? || s.batches[a.worker].delivered == Some(false)))
  {
    if a.Mark? && CanMark(s, a.worker) && s.rows[id].lockedBy == Some(a.worker) && s.batches[a.worker].todo[0].id == id
    {
      LockBelongsToCurrentAttempt(s, a.worker, 0);
    }
  }

  /** Since claim `k` started attempt `n` of the email, either its lock is still there, or the email was sent, or the
      attempt failed and the email is put off. */
  ghost predicate Resting(run: seq<Action>, k: int, x: nat, id: Id, n: nat)
    requires 0 <= k < |run| && run[k].Claim? && x <= |run|
  {
    var s := Upto(run, x);
    && id in s.rows && s.rows[id].attempts == n
    && (s.rows[id].sentAt.Some? || s.rows[id].lockedAt == Some(run[k].at) || PutOffSince(run, k, x, id, n))
  }

  ghost predicate PutOffSince(run: seq<Action>, k: int, x: nat, id: Id, n: nat)
    requires x <= |run|
  {
    exists m :: k < m < x && Fails(run, m, id, n) && PutOff(Upto(run, x), id, run[m].at + 1000 * RetryDelaySeconds(n))
  }

  lemma StaysResting(run: seq<Action>, k: int, x: nat, id: Id, n: nat)
    requires 0 <= k < x < |run| && run[k].Claim? && Resting(run, k, x, id, n) && !Takes(run, x, id)
    ensures Resting(run, k, x + 1, id, n)
  {
    var s, a := Upto(run, x), run[x];
    RunKeepsInv(INITIAL, run[..x]);
    OneFurther(run, x);
    RowsRemain(s, a, id);
    RowMoves(s, a, id);
    if Next(s, a).rows[id] == s.rows[id] {
      if PutOffSince(run, k, x, id, n) {
        var m :| k < m < x && Fails(run, m, id, n) && PutOff(s, id, run[m].at + 1000 * RetryDelaySeconds(n));
        assert PutOff(Upto(run, x + 1), id, run[m].at + 1000 * RetryDelaySeconds(n));
      }
    } else if Next(s, a).rows[id].sentAt.None? {
      assert Fails(run, x, id, n);
      FailurePutsOff(s, a.worker, a.at, id, n);
    }
  }

  lemma {:induction false} RestingUntil(run: seq<Action>, k: int, x: nat, j: nat, id: Id, n: nat)
    requires 0 <= k < x <= j <= |run| && run[k].Claim? && Resting(run, k, x, id, n)
    requires forall m | k < m < j :: !Takes(run, m, id)
    ensures Resting(run, k, j, id, n)
    decreases j - x
  {
    if x < j {
      StaysResting(run, k, x, id, n);
      RestingUntil(run, k, x + 1, j, id, n);
    }
  }

  lemma SecondDelay(n: nat)
    requires n >= 2
    ensures RetryDelaySeconds(n) >= 30
  {
    Power2Grows(1, n - 1);
  }

  /** From the second attempt on, the next one starts no sooner than the one before, if clocks run back by at most 30
      seconds. */
  lemma TakesGoForward(d: nat, run: seq<Action>, k: int, j: int, id: Id)
    requires d <= 30_000 && Skewed(d, run) && Takes(run, k, id) && Takes(run, j, id) && k < j
    requires (forall m | k < m < j :: !Takes(run, m, id)) && Upto(run, k).rows[id].attempts >= 1
    ensures run[j].at >= run[k].at
  {
    var n := Upto(run, k).rows[id].attempts + 1;
    OneFurther(run, k);
    Taken(Upto(run, k), run[k], id);
    assert Resting(run, k, k + 1, id, n);
    RestingUntil(run, k, k + 1, j, id, n);
    OneFurther(run, j);
    Taken(Upto(run, j), run[j], id);
    if PutOffSince(run, k, j, id, n) {
      var m :| k < m < j && Fails(run, m, id, n)
        && PutOff(Upto(run, j), id, run[m].at + 1000 * RetryDelaySeconds(n));
      SecondDelay(n);
    }
  }

  lemma {:induction false} AttemptsStay(run: seq<Action>, i: nat, k: nat, id: Id)
    requires i <= k <= |run| && id in Upto(run, i).rows
    ensures id in Upto(run, k).rows && Upto(run, k).rows[id].attempts >= Upto(run, i).rows[id].attempts
    decreases k
  {
    if i < k {
      AttemptsStay(run, i, k - 1, id);
      OneFurther(run, k - 1);
      AttemptsGrow(Upto(run, k - 1), run[k - 1], id);
    }
  }

  lemma AttemptsGrow(s: State, a: Action, id: Id)
    requires id in s.rows
    ensures id in Next(s, a).rows && Next(s, a).rows[id].attempts >= s.rows[id].attempts
  {
  }

  lemma {:induction false} LatestTake(run: seq<Action>, i: int, j: int, id: Id) returns (k: int)
    requires exists m :: i < m < j && Takes(run, m, id)
    ensures i < k < j && Takes(run, k, id) && forall m | k < m < j :: !Takes(run, m, id)
    decreases j - i
  {
    k :| i < k < j && Takes(run, k, id);
    if exists m :: k < m < j && Takes(run, m, id) { k := LatestTake(run, k, j, id); }
  }

  lemma FailedOnce(run: seq<Action>, i: int, id: Id, n: nat)
    requires Fails(run, i, id, n)
    ensures Upto(run, i).rows[id].attempts >= 1
  {
    var s, w := Upto(run, i), run[i].worker;
    RunKeepsInv(INITIAL, run[..i]);
    assert Holds(s, w, Item(id, n)) && ItemOk(s, w, Item(id, n));
  }

  lemma {:induction false} LaterAttemptsWait(d: nat, run: seq<Action>, i: int, j: int, id: Id, n: nat)
    requires d <= 30_000 && Skewed(d, run) && Fails(run, i, id, n) && Takes(run, j, id) && i < j
    ensures run[j].at >= run[i].at + 1000 * RetryDelaySeconds(n)
    decreases j
  {
    if exists k :: i < k < j && Takes(run, k, id) {
      var k := LatestTake(run, i, j, id);
      LaterAttemptsWait(d, run, i, k, id, n);
      FailedOnce(run, i, id, n);
      AttemptsStay(run, i, k, id);
      TakesGoForward(d, run, k, j, id);
    } else {
      NextAttemptWaits(run, i, j, id, n);
    }
  }

  /** Whatever the workers do, no attempt after a failed one starts before the delay of the failed one is over. */
  ghost predicate EveryAttemptWaits(d: nat) {
    forall run: seq<Action>, i, j, id: Id, n: nat
      | Skewed(d, run) && Fails(run, i, id, n) && Takes(run, j, id) && i < j ::
      run[j].at >= run[i].at + 1000 * RetryDelaySeconds(n)
  }

  /** A second attempt that is marked by a clock `d` ms behind the one that claimed it. */
  function SkewedRun(d: nat, id: Id): seq<Action> {
    [ Enqueue(id, 8, 0), Claim(1, [id], 20, 0), Deliver(1, false), Mark(1, 0), Claim(1, [id], 20, 15_000),
      Deliver(1, false), Mark(1, 15_000 - d), Claim(1, [id], 20, 45_000 - d) ]
  }

  function SkewedRow(d: nat, n: nat): Row {
    if n <= 1 then Row(0, 8, 0, 0, None, None, None)
    else if n <= 3 then Row(1, 8, 0, 0, Some(0), Some(1), None)
    else if n == 4 then Row(1, 8, 15_000, 0, None, None, None)
    else if n <= 6 then Row(2, 8, 15_000, 0, Some(15_000), Some(1), None)
    else if n == 7 then Row(2, 8, 45_000 - d, 0, None, None, None)
    else Row(3, 8, 45_000 - d, 0, Some(45_000 - d), Some(1), None)
  }

  function SkewedBatch(id: Id, n: nat): Batch {
    if n == 2 then Batch([Item(id, 1)], None, 1, 0, 0)
    else if n == 3 then Batch([Item(id, 1)], Some(false), 1, 0, 0)
    else if n == 5 then Batch([Item(id, 2)], None, 1, 0, 0)
    else if n == 6 then Batch([Item(id, 2)], Some(false), 1, 0, 0)
    else if n == 8 then Batch([Item(id, 3)], None, 1, 0, 0)
    else Batch([], None, 1, 0, 1)
  }

  /** The states of that run. */
  function SkewedState(d: nat, id: Id, n: nat): State {
    var log := [Delivery(Item(id, 1), false), Delivery(Item(id, 2), false)];
    if n == 0 then INITIAL
    else State(map[id := SkewedRow(d, n)], if n == 1 then map[] else map[1 := SkewedBatch(id, n)],
               map[id := SkewedRow(d, n).attempts], if n <= 2 then [] else if n <= 5 then log[..1] else log)
  }

  lemma SkewedClaim(d: nat, id: Id, n: nat)
    requires n in {1, 4, 7}
    ensures Next(SkewedState(d, id, n), SkewedRun(d, id)[n]) == SkewedState(d, id, n + 1)
  {
    var s, at := SkewedState(d, id, n), SkewedRun(d, id)[n].at;
    assert s.rows == map[id := SkewedRow(d, n)] && Eligible(SkewedRow(d, n), at);
    assert Locked(SkewedRow(d, n), 1, at) == SkewedRow(d, n + 1);
    ClaimOnly(s, id, 1, 20, at);
  }

  lemma SkewedDelivery(d: nat, id: Id, n: nat)
    requires n in {2, 5}
    ensures Next(SkewedState(d, id, n), SkewedRun(d, id)[n]) == SkewedState(d, id, n + 1)
  {
    var s, t := SkewedState(d, id, n), SkewedState(d, id, n + 1);
    var log := [Delivery(Item(id, 1), false), Delivery(Item(id, 2), false)];
    assert log[..1] == [log[0]] && t.log == s.log + [Delivery(SkewedBatch(id, n).todo[0], false)];
    assert s.batches[1 := SkewedBatch(id, n + 1)] == t.batches;
  }

  lemma SkewedMark(d: nat, id: Id, n: nat)
    requires n in {3, 6}
    ensures Next(SkewedState(d, id, n), SkewedRun(d, id)[n]) == SkewedState(d, id, n + 1)
  {
    var s, t := SkewedState(d, id, n), SkewedState(d, id, n + 1);
    DelayDoublesUpToAnHour(1);
    assert SkewedBatch(id, n).todo[1..] == [];
    assert s.batches[1 := SkewedBatch(id, n + 1)] == t.batches;
    assert s.rows[id := SkewedRow(d, n + 1)] == t.rows;
  }

  lemma SkewedStep(d: nat, id: Id, n: nat)
    requires n < 8
    ensures Next(SkewedState(d, id, n), SkewedRun(d, id)[n]) == SkewedState(d, id, n + 1)
  {
    if n in {1, 4, 7} {
      SkewedClaim(d, id, n);
    } else if n in {2, 5} {
      SkewedDelivery(d, id, n);
    } else if n in {3, 6} {
      SkewedMark(d, id, n);
    }
  }

  lemma {:induction false} SkewedUpto(d: nat, id: Id, n: nat)
    requires n <= 8
    ensures Upto(SkewedRun(d, id), n) == SkewedState(d, id, n)
  {
    if n > 0 {
      SkewedUpto(d, id, n - 1);
      SkewedStep(d, id, n - 1);
      OneFurther(SkewedRun(d, id), n - 1);
    }
  }

  lemma SkewIsD(d: nat, id: Id)
    requires d >= 30_000
    ensures Skewed(d, SkewedRun(d, id))
  {
  }

  /** Every attempt after a failed one waits out its delay, in all runs whose times run backwards by at most `d` ms, if
      and only if `d` is at most thirty seconds, the delay of the second attempt. */
  lemma EveryAttemptWaitsIffClocksAgree(d: nat)
    ensures EveryAttemptWaits(d) <==> d <= 30_000
  {
    if d <= 30_000 {
      forall run: seq<Action>, i, j, id: Id, n: nat
        | Skewed(d, run) && Fails(run, i, id, n) && Takes(run, j, id) && i < j
        ensures run[j].at >= run[i].at + 1000 * RetryDelaySeconds(n)
      {
        LaterAttemptsWait(d, run, i, j, id, n);
      }
    } else {
      SkewIsD(d, 0);
      SkewedUpto(d, 0, 3);
      SkewedUpto(d, 0, 7);
      SkewedUpto(d, 0, 8);
      assert Fails(SkewedRun(d, 0), 3, 0, 1) && Takes(SkewedRun(d, 0), 7, 0);
      assert SkewedRun(d, 0)[7].at < SkewedRun(d, 0)[3].at + 1000 * RetryDelaySeconds(1);
    }
  }

  // ---------- one batch on its own ----------

  /** What becomes of a row: sent, or put off by the delay of the attempt that failed. */
  function Outcome(row: Row, r: Reply): Row {
    var n := row.attempts + 1;
    if r.ok then Row(n, row.maxAttempts, row.availableAt, row.createdAt, None, None, Some(r.at))
    else Row(n, row.maxAttempts, r.at + 1000 * RetryDelaySeconds(n), row.createdAt, None, None, row.sentAt)
  }

  function TakenRow(row: Row, w: Worker, at: int): Row {
    Row(row.attempts + 1, row.maxAttempts, row.availableAt, row.createdAt, Some(at), Some(w), row.sentAt)
  }

  /** The first `n` rows of the batch are done, the others claimed, all others as they were. */
  ghost predicate RowsHalfway(rows: map<Id, Row>, now: map<Id, Row>, w: Worker, ids: seq<Id>, at: int,
                              replies: seq<Reply>, n: nat)
    requires n <= |replies| == |ids| && forall id | id in ids :: id in rows
  {
    && now.Keys == rows.Keys && (forall id | id in rows && id !in ids :: now[id] == rows[id])
    && (forall k | 0 <= k < n :: now[ids[k]] == Outcome(rows[ids[k]], replies[k]))
    && (forall k | n <= k < |ids| :: now[ids[k]] == TakenRow(rows[ids[k]], w, at))
  }

  function ItemAt(rows: map<Id, Row>, ids: seq<Id>, k: nat): Item
    requires k < |ids| && ids[k] in rows
  {
    Item(ids[k], rows[ids[k]].attempts + 1)
  }

  /** The worker still has the other items to do, and nobody else's batch has changed. */
  ghost predicate TodoHalfway(s: State, t: State, w: Worker, ids: seq<Id>, n: nat)
    requires n <= |ids| && forall id | id in ids :: id in s.rows
  {
    && t.batches.Keys == s.batches.Keys + {w} && (forall v | v in s.batches && v != w :: t.batches[v] == s.batches[v])
    && t.batches[w].delivered.None? && |t.batches[w].todo| == |ids| - n
    && (forall k | n <= k < |ids| :: t.batches[w].todo[k - n] == ItemAt(s.rows, ids, k))
  }

  /** The transport got the first `n` items, one after the other. */
  ghost predicate LogHalfway(s: State, t: State, ids: seq<Id>, replies: seq<Reply>, n: nat)
    requires n <= |replies| == |ids| && forall id | id in ids :: id in s.rows
  {
    t.log == s.log + seq(n, k requires 0 <= k < n =>
      assert ids[k] in ids; Delivery(ItemAt(s.rows, ids, k), replies[k].ok))
  }

  /** The worker's own counts. */
  ghost predicate CountsHalfway(t: State, w: Worker, replies: seq<Reply>, n: nat)
    requires n <= |replies|
  {
    && w in t.batches && t.batches[w].claimed == |replies|
    && t.batches[w].sent == Oks(replies[..n]) && t.batches[w].failed == n - Oks(replies[..n])
  }

  ghost predicate Halfway(s: State, t: State, w: Worker, ids: seq<Id>, at: int, replies: seq<Reply>, n: nat)
    requires n <= |replies| == |ids| && forall id | id in ids :: id in s.rows
  {
    && RowsHalfway(s.rows, t.rows, w, ids, at, replies, n) && TodoHalfway(s, t, w, ids, n)
    && LogHalfway(s, t, ids, replies, n) && CountsHalfway(t, w, replies, n)
  }

  lemma ClaimedHalfway(s: State, w: Worker, ids: seq<Id>, size: nat, at: int, replies: seq<Reply>)
    requires Idle(s.batches, w) && Picked(s.rows, ids, size, at) && |replies| == |ids|
    ensures Halfway(s, Next(s, Claim(w, ids, size, at)), w, ids, at, replies, 0)
  {
  }

  /** What the delivery of the head and its mark do to a worker that holds the lock. */
  lemma HeadDone(t: State, w: Worker, item: Item, row: Row, r: Reply, at: int)
    requires w in t.batches && t.batches[w].todo != [] && t.batches[w].todo[0] == item && t.batches[w].delivered.None?
    requires item.id in t.rows && t.rows[item.id] == TakenRow(row, w, at) && item.attempt == row.attempts + 1
    requires row.sentAt.None?
    ensures var n := Next(Next(t, Deliver(w, r.ok)), Mark(w, r.at));
      && n.rows == t.rows[item.id := Outcome(row, r)] && n.log == t.log + [Delivery(item, r.ok)]
      && n.batches == t.batches[w := n.batches[w]] && w in n.batches && n.batches[w].delivered.None?
      && n.batches[w].todo == t.batches[w].todo[1..] && n.batches[w].claimed == t.batches[w].claimed
      && n.batches[w].sent == t.batches[w].sent + (if r.ok then 1 else 0)
      && n.batches[w].failed == t.batches[w].failed + (if r.ok then 0 else 1)
  {
  }

  lemma RowsOneMore(rows: map<Id, Row>, now: map<Id, Row>, w: Worker, ids: seq<Id>, at: int, replies: seq<Reply>,
                    n: nat)
    requires n < |replies| == |ids| && (forall id | id in ids :: id in rows)
    requires forall i, j | 0 <= i < j < |ids| :: ids[i] != ids[j]
    requires RowsHalfway(rows, now, w, ids, at, replies, n)
    ensures RowsHalfway(rows, now[ids[n] := Outcome(rows[ids[n]], replies[n])], w, ids, at, replies, n + 1)
  {
    assert ids[n] in ids;
  }

  lemma OneMoreHalfway(s: State, t: State, w: Worker, ids: seq<Id>, size: nat, at: int, replies: seq<Reply>, n: nat)
    requires n < |replies| == |ids| && Picked(s.rows, ids, size, at)
    requires Halfway(s, t, w, ids, at, replies, n)
    ensures Halfway(s, Next(Next(t, Deliver(w, replies[n].ok)), Mark(w, replies[n].at)), w, ids, at, replies, n + 1)
  {
    assert ids[n] in ids;
    var u := Next(Next(t, Deliver(w, replies[n].ok)), Mark(w, replies[n].at));
    HeadDone(t, w, ItemAt(s.rows, ids, n), s.rows[ids[n]], replies[n], at);
    RowsOneMore(s.rows, t.rows, w, ids, at, replies, n);
    assert TodoHalfway(s, u, w, ids, n + 1);
    assert replies[..n + 1][..n] == replies[..n];
  }

  lemma StepsOneMore(t: State, w: Worker, replies: seq<Reply>, n: nat)
    requires n < |replies|
    ensures Exec(t, Steps(w, replies[..n + 1]))
         == Next(Next(Exec(t, Steps(w, replies[..n])), Deliver(w, replies[n].ok)), Mark(w, replies[n].at))
  {
    assert replies[..n + 1][..n] == replies[..n];
    ExecPair(t, Steps(w, replies[..n]), Deliver(w, replies[n].ok), Mark(w, replies[n].at));
  }

  lemma HalfwayNext(s: State, t: State, w: Worker, ids: seq<Id>, size: nat, at: int, replies: seq<Reply>, n: nat)
    returns (u: State)
    requires n < |replies| == |ids| && Picked(s.rows, ids, size, at) && Halfway(s, t, w, ids, at, replies, n)
    ensures u == Next(Next(t, Deliver(w, replies[n].ok)), Mark(w, replies[n].at))
    ensures Halfway(s, u, w, ids, at, replies, n + 1)
  {
    u := Next(Next(t, Deliver(w, replies[n].ok)), Mark(w, replies[n].at));
    OneMoreHalfway(s, t, w, ids, size, at, replies, n);
  }

  /** The batch is over: the rows, the log and the counts say so. */
  ghost predicate Over(s: State, t: State, w: Worker, ids: seq<Id>, replies: seq<Reply>)
    requires |replies| == |ids| && forall id | id in ids :: id in s.rows
  {
    && t.rows.Keys == s.rows.Keys && (forall id | id in s.rows && id !in ids :: t.rows[id] == s.rows[id])
    && (forall k | 0 <= k < |ids| :: t.rows[ids[k]] == Outcome(s.rows[ids[k]], replies[k]))
    && |t.log| == |s.log| + |ids| && s.log <= t.log
    && (forall k | 0 <= k < |ids| ::
          t.log[|s.log| + k] == Delivery(Item(ids[k], s.rows[ids[k]].attempts + 1), replies[k].ok))
    && w in t.batches && t.batches[w].todo == [] && t.batches[w].claimed == |ids|
    && t.batches[w].sent == Oks(replies) && t.batches[w].failed == |ids| - Oks(replies)
  }

  lemma LogIsOver(s: State, t: State, ids: seq<Id>, replies: seq<Reply>)
    requires |replies| == |ids| && (forall id | id in ids :: id in s.rows) && LogHalfway(s, t, ids, replies, |ids|)
    ensures |t.log| == |s.log| + |ids| && s.log <= t.log
    ensures forall k | 0 <= k < |ids| ::
      t.log[|s.log| + k] == Delivery(Item(ids[k], s.rows[ids[k]].attempts + 1), replies[k].ok)
  {
    forall k | 0 <= k < |ids|
      ensures t.log[|s.log| + k] == Delivery(Item(ids[k], s.rows[ids[k]].attempts + 1), replies[k].ok)
    {
      assert ids[k] in ids;
    }
  }

  lemma CountsAreOver(t: State, w: Worker, replies: seq<Reply>)
    requires CountsHalfway(t, w, replies, |replies|)
    ensures w in t.batches && t.batches[w].claimed == |replies|
    ensures t.batches[w].sent == Oks(replies) && t.batches[w].failed == |replies| - Oks(replies)
  {
    assert replies[..|replies|] == replies;
  }

  lemma HalfwayIsOver(s: State, t: State, w: Worker, ids: seq<Id>, at: int, replies: seq<Reply>)
    requires |replies| == |ids| && (forall id | id in ids :: id in s.rows)
    requires Halfway(s, t, w, ids, at, replies, |ids|)
    ensures Over(s, t, w, ids, replies)
  {
    LogIsOver(s, t, ids, replies);
    CountsAreOver(t, w, replies);
  }

  lemma BatchEnds(s: State, w: Worker, ids: seq<Id>, size: nat, at: int, replies: seq<Reply>) returns (t: State)
    requires Idle(s.batches, w) && Picked(s.rows, ids, size, at) && |replies| == |ids|
    ensures t == Exec(Next(s, Claim(w, ids, size, at)), Steps(w, replies))
    ensures Halfway(s, t, w, ids, at, replies, |ids|)
  {
    var start := Next(s, Claim(w, ids, size, at));
    t := start;
    ClaimedHalfway(s, w, ids, size, at, replies);
    for n := 0 to |ids|
      invariant t == Exec(start, Steps(w, replies[..n])) && Halfway(s, t, w, ids, at, replies, n)
    {
      StepsOneMore(start, w, replies, n);
      t := HalfwayNext(s, t, w, ids, size, at, replies, n);
    }
    assert replies[..|ids|] == replies;
  }

  /** A batch with nothing in between hands each claimed email to the transport once, in the order of the batch, marks
      the accepted ones sent and puts the others off by the delay of the attempt, and counts them; every other row
      stays. */
  lemma BatchAlone(s: State, w: Worker, ids: seq<Id>, size: nat, at: int, replies: seq<Reply>)
    requires Idle(s.batches, w) && Picked(s.rows, ids, size, at) && |replies| == |ids|
    ensures Over(s, Exec(Next(s, Claim(w, ids, size, at)), Steps(w, replies)), w, ids, replies)
  {
    var t := BatchEnds(s, w, ids, size, at, replies);
    HalfwayIsOver(s, t, w, ids, at, replies);
  }
}
