/** The email outbox: several workers share a table whose row locks expire.
    A worker claims a batch in one statement, then delivers and marks its rows one by one; other workers
    may come between any two of these. Times are the milliseconds the statements read; nothing here depends on
    their order. */
module EmailOutbox {
  import opened Common

  type Id = nat
  type Worker = nat

  const LOCK_MS := 300_000

  datatype Row = Row(
    attempts: nat, maxAttempts: nat, availableAt: int, createdAt: int,
    lockedAt: Option<int>, lockedBy: Option<Worker>, sentAt: Option<int>)

  /** A claimed row as the worker holds it: which email, and the number of this attempt. */
  datatype Item = Item(id: Id, attempt: nat)

  /** A batch in progress; `delivered` is the outcome of the head once the transport has answered. */
  datatype Batch = Batch(todo: seq<Item>, delivered: Option<bool>, claimed: nat, sent: nat, failed: nat)

  datatype Delivery = Delivery(item: Item, ok: bool)

  /** Table, workers, and the histories of claims and transport calls. */
  datatype State = State(rows: map<Id, Row>, batches: map<Worker, Batch>, claims: map<Id, nat>, log: seq<Delivery>)

  datatype Action =
    | Enqueue(id: Id, maxAttempts: nat, at: int)
    | Claim(worker: Worker, ids: seq<Id>, size: nat, at: int)
    | Deliver(worker: Worker, ok: bool)
    | Mark(worker: Worker, at: int)

  const INITIAL := State(map[], map[], map[], [])

  // ---------- back-off ----------

  function Power2(n: nat): nat { if n == 0 then 1 else 2 * Power2(n - 1) }

  /** emailRetryDelaySeconds */
  function RetryDelaySeconds(attempt: int): int {
    var n := if attempt - 1 > 0 then attempt - 1 else 0;
    if 15 * Power2(n) < 3600 then 15 * Power2(n) else 3600
  }

  lemma {:induction false} Power2Grows(n: nat, m: nat)
    requires n <= m
    ensures Power2(n) <= Power2(m)
  {
    if n < m { Power2Grows(n, m - 1); }
  }

  /** The delay starts at 15 s, doubles with each attempt, and is one hour exactly from the ninth on. */
  lemma DelayDoublesUpToAnHour(attempt: int)
    ensures attempt <= 1 ==> RetryDelaySeconds(attempt) == 15
    ensures 1 <= attempt <= 7 ==> RetryDelaySeconds(attempt + 1) == 2 * RetryDelaySeconds(attempt)
    ensures attempt >= 9 <==> RetryDelaySeconds(attempt) == 3600
  {
    assert Power2(8) == 256 by { assert Power2(4) == 16; }
    if attempt >= 9 {
      Power2Grows(8, attempt - 1);
    } else if attempt > 1 {
      Power2Grows(attempt - 1, 7);
      if attempt <= 7 { Power2Grows(attempt, 7); }
    }
  }

  // ---------- the statements ----------

  predicate Eligible(row: Row, at: int) {
    && row.sentAt.None? && row.attempts < row.maxAttempts && row.availableAt <= at
    && (row.lockedAt.None? || row.lockedAt.value < at - LOCK_MS)
  }

  /** What the candidate query may return: the oldest `size` eligible rows, in any order. */
  ghost predicate Picked(rows: map<Id, Row>, ids: seq<Id>, size: nat, at: int) {
    && |ids| <= size
    && (forall i, j | 0 <= i < j < |ids| :: ids[i] != ids[j])
    && (forall id | id in ids :: id in rows && Eligible(rows[id], at))
    && (forall other | other in rows && Eligible(rows[other], at) && other !in ids ::
          |ids| == size && forall id | id in ids :: rows[id].createdAt <= rows[other].createdAt)
  }

  predicate Idle(batches: map<Worker, Batch>, w: Worker) {
    w in batches ==> batches[w].todo == []
  }

  function Locked(row: Row, w: Worker, at: int): Row {
    row.(attempts := row.attempts + 1, lockedAt := Some(at), lockedBy := Some(w))
  }

  function Unlocked(row: Row): Row { row.(lockedAt := None, lockedBy := None) }

  function ItemsOf(rows: map<Id, Row>, ids: seq<Id>): seq<Item>
    requires forall id | id in ids :: id in rows
  {
    seq(|ids|, i requires 0 <= i < |ids| => assert ids[i] in ids; Item(ids[i], rows[ids[i]].attempts))
  }

  function AfterClaim(s: State, w: Worker, ids: seq<Id>, at: int): State
    requires forall id | id in ids :: id in s.rows
  {
    var rows := map id | id in s.rows :: if id in ids then Locked(s.rows[id], w, at) else s.rows[id];
    State(rows,
          s.batches[w := Batch(ItemsOf(rows, ids), None, |ids|, 0, 0)],
          map id | id in s.claims :: if id in ids then s.claims[id] + 1 else s.claims[id],
          s.log)
  }

  function AfterMark(s: State, w: Worker, at: int): State
    requires w in s.batches && s.batches[w].todo != [] && s.batches[w].delivered.Some?
  {
    var b := s.batches[w];
    var item, ok := b.todo[0], b.delivered.value;
    var mine := item.id in s.rows && s.rows[item.id].lockedBy == Some(w);
    var rows :=
      if !mine then s.rows
      else if ok then s.rows[item.id := Unlocked(s.rows[item.id]).(sentAt := Some(at))]
      else s.rows[item.id := Unlocked(s.rows[item.id]).(availableAt := at + RetryDelaySeconds(item.attempt) * 1000)];
    var batch := if ok then b.(sent := b.sent + 1) else b.(failed := b.failed + 1);
    s.(rows := rows, batches := s.batches[w := batch.(todo := b.todo[1..], delivered := None)])
  }

  ghost function Next(s: State, a: Action): State {
    match a
    case Enqueue(id, maxAttempts, at) =>
      if id in s.rows then s
      else s.(rows := s.rows[id := Row(0, maxAttempts, at, at, None, None, None)], claims := s.claims[id := 0])
    case Claim(w, ids, size, at) =>
      if Idle(s.batches, w) && Picked(s.rows, ids, size, at) then AfterClaim(s, w, ids, at) else s
    case Deliver(w, ok) =>
      if w in s.batches && s.batches[w].todo != [] && s.batches[w].delivered.None? then
        s.(batches := s.batches[w := s.batches[w].(delivered := Some(ok))],
           log := s.log + [Delivery(s.batches[w].todo[0], ok)])
      else s
    case Mark(w, at) =>
      if w in s.batches && s.batches[w].todo != [] && s.batches[w].delivered.Some? then AfterMark(s, w, at) else s
  }

  ghost function Exec(s: State, run: seq<Action>): State
    decreases run
  {
    if run == [] then s else Exec(Next(s, run[0]), run[1..])
  }

  // ---------- the invariant ----------

  /** A lock comes with its time and its worker, stands for the row's latest attempt, and is gone once
      the row is sent. */
  ghost predicate RowOk(s: State, id: Id)
    requires id in s.rows
  {
    var row := s.rows[id];
    && row.attempts <= row.maxAttempts
    && id in s.claims && s.claims[id] == row.attempts
    && (row.lockedAt.Some? <==> row.lockedBy.Some?)
    && (row.sentAt.Some? ==> row.lockedBy.None?)
    && (row.sentAt.Some? ==> exists k :: Delivery(Item(id, k), true) in s.log)
    && (row.lockedBy.Some? ==> Holds(s, row.lockedBy.value, Item(id, row.attempts)))
  }

  ghost predicate Holds(s: State, w: Worker, item: Item) {
    w in s.batches && item in s.batches[w].todo
  }

  /** A held item is a past claim, held by nobody else, not yet delivered unless it is the answered head. */
  ghost predicate ItemOk(s: State, w: Worker, item: Item) {
    && item.id in s.rows && 1 <= item.attempt <= s.rows[item.id].attempts
    && (forall v | Holds(s, v, item) :: v == w)
    && (InLog(s.log, item) ==> IsAnsweredHead(s, w, item))
  }

  predicate IsAnsweredHead(s: State, w: Worker, item: Item) {
    && w in s.batches && s.batches[w].todo != []
    && s.batches[w].todo[0] == item && s.batches[w].delivered.Some?
  }

  ghost predicate InLog(log: seq<Delivery>, item: Item) {
    exists ok :: Delivery(item, ok) in log
  }

  ghost predicate BatchOk(b: Batch) {
    && b.claimed == b.sent + b.failed + |b.todo|
    && (forall i, j | 0 <= i < j < |b.todo| :: b.todo[i].id != b.todo[j].id)
    && (b.delivered.Some? ==> b.todo != [])
  }

  /** No attempt was handed to the transport twice, and each was claimed before. */
  ghost predicate LogOk(s: State) {
    && (forall i, j | 0 <= i < j < |s.log| :: s.log[i].item != s.log[j].item)
    && (forall i | 0 <= i < |s.log| :: var item := s.log[i].item;
          item.id in s.rows && 1 <= item.attempt <= s.rows[item.id].attempts)
  }

  ghost predicate HeadsOk(s: State) {
    forall w | w in s.batches && s.batches[w].delivered.Some? && s.batches[w].todo != [] ::
      Delivery(s.batches[w].todo[0], s.batches[w].delivered.value) in s.log
  }

  ghost predicate Inv(s: State) {
    && (forall id | id in s.rows :: RowOk(s, id))
    && (forall w | w in s.batches :: BatchOk(s.batches[w]))
    && (forall w, item | Holds(s, w, item) :: ItemOk(s, w, item))
    && LogOk(s) && HeadsOk(s)
  }

  // ---------- every step keeps it ----------

  lemma EnqueueKeepsInv(s: State, id: Id, maxAttempts: nat, at: int)
    requires Inv(s)
    ensures Inv(Next(s, Enqueue(id, maxAttempts, at)))
  {
    var t := Next(s, Enqueue(id, maxAttempts, at));
    forall x | x in t.rows ensures RowOk(t, x) {
      if x in s.rows { assert RowOk(s, x); }
    }
    forall w, item | Holds(t, w, item) ensures ItemOk(t, w, item) {
      assert Holds(s, w, item);
      forall v | Holds(t, v, item) ensures v == w { assert Holds(s, v, item); }
    }
  }

  /** An idle worker holds nothing, so no row is locked by it. */
  lemma IdleLocksNothing(s: State, w: Worker)
    requires Inv(s) && Idle(s.batches, w)
    ensures forall id | id in s.rows :: s.rows[id].lockedBy != Some(w)
    ensures forall item :: !Holds(s, w, item)
  {
    forall id | id in s.rows ensures s.rows[id].lockedBy != Some(w) { assert RowOk(s, id); }
  }

  lemma ClaimedItems(s: State, w: Worker, ids: seq<Id>, at: int, v: Worker, item: Item)
    requires Inv(s) && Idle(s.batches, w) && forall id | id in ids :: id in s.rows
    ensures Holds(AfterClaim(s, w, ids, at), v, item) <==>
      if v == w then item.id in ids && item.attempt == s.rows[item.id].attempts + 1 else Holds(s, v, item)
  {
    var t := AfterClaim(s, w, ids, at);
    if v == w {
      var items := t.batches[w].todo;
      if item.id in ids && item.attempt == s.rows[item.id].attempts + 1 {
        var i :| 0 <= i < |ids| && ids[i] == item.id;
        assert items[i] == item;
      }
      if item in items {
        var i :| 0 <= i < |items| && items[i] == item;
        assert ids[i] in ids;
      }
    }
  }

  lemma ClaimKeepsItems(s: State, w: Worker, ids: seq<Id>, size: nat, at: int)
    requires Inv(s) && Idle(s.batches, w) && Picked(s.rows, ids, size, at)
    ensures var t := AfterClaim(s, w, ids, at); forall v, item | Holds(t, v, item) :: ItemOk(t, v, item)
  {
    var t := AfterClaim(s, w, ids, at);
    forall v, item | Holds(t, v, item) ensures ItemOk(t, v, item) {
      ClaimedItems(s, w, ids, at, v, item);
      forall u | Holds(t, u, item) ensures u == v {
        ClaimedItems(s, w, ids, at, u, item);
      }
      if v == w && InLog(s.log, item) {
        assert false;
      }
    }
  }

  lemma ClaimKeepsInv(s: State, w: Worker, ids: seq<Id>, size: nat, at: int)
    requires Inv(s) && Idle(s.batches, w) && Picked(s.rows, ids, size, at)
    ensures Inv(AfterClaim(s, w, ids, at))
  {
    var t := AfterClaim(s, w, ids, at);
    IdleLocksNothing(s, w);
    ClaimKeepsItems(s, w, ids, size, at);
    forall id | id in t.rows ensures RowOk(t, id) {
      assert RowOk(s, id);
      if t.rows[id].lockedBy.Some? {
        ClaimedItems(s, w, ids, at, t.rows[id].lockedBy.value, Item(id, t.rows[id].attempts));
      }
    }
  }

  lemma DeliveredRow(s: State, w: Worker, ok: bool, id: Id)
    requires id in s.rows && RowOk(s, id)
    ensures id in Next(s, Deliver(w, ok)).rows && RowOk(Next(s, Deliver(w, ok)), id)
  {
    var t := Next(s, Deliver(w, ok));
    if t.rows[id].sentAt.Some? {
      var k :| Delivery(Item(id, k), true) in s.log;
      assert Delivery(Item(id, k), true) in t.log;
    }
    if t.rows[id].lockedBy.Some? { assert Holds(t, t.rows[id].lockedBy.value, Item(id, t.rows[id].attempts)); }
  }

  /** What the transport is about to be given was never given to it before. */
  lemma HeadIsNew(s: State, w: Worker)
    requires Inv(s) && w in s.batches && s.batches[w].todo != [] && s.batches[w].delivered.None?
    ensures Holds(s, w, s.batches[w].todo[0]) && ItemOk(s, w, s.batches[w].todo[0])
    ensures forall i | 0 <= i < |s.log| :: s.log[i].item != s.batches[w].todo[0]
  {
    var head := s.batches[w].todo[0];
    assert Holds(s, w, head) && ItemOk(s, w, head);
    assert !InLog(s.log, head);
    forall i | 0 <= i < |s.log| ensures s.log[i].item != head {
      assert Delivery(s.log[i].item, s.log[i].ok) in s.log;
    }
  }

  lemma DeliveredItem(s: State, w: Worker, ok: bool, v: Worker, item: Item)
    requires Inv(s) && Holds(Next(s, Deliver(w, ok)), v, item)
    ensures ItemOk(Next(s, Deliver(w, ok)), v, item)
  {
    var t := Next(s, Deliver(w, ok));
    assert Holds(s, v, item) && ItemOk(s, v, item);
    if t != s {
      var d := Delivery(s.batches[w].todo[0], ok);
      assert forall e :: e in t.log <==> e in s.log || e == d;
      assert Holds(s, w, d.item);
    }
    forall u | Holds(t, u, item) ensures u == v { assert Holds(s, u, item); }
  }

  lemma DeliverKeepsLog(s: State, w: Worker, ok: bool)
    requires Inv(s)
    ensures LogOk(Next(s, Deliver(w, ok))) && HeadsOk(Next(s, Deliver(w, ok)))
  {
    if w in s.batches && s.batches[w].todo != [] && s.batches[w].delivered.None? {
      HeadIsNew(s, w);
      var log, d := s.log, Delivery(s.batches[w].todo[0], ok);
      assert forall e :: e in log + [d] <==> e in log || e == d;
    }
  }

  lemma DeliverKeepsInv(s: State, w: Worker, ok: bool)
    requires Inv(s)
    ensures Inv(Next(s, Deliver(w, ok)))
  {
    var t := Next(s, Deliver(w, ok));
    forall id | id in t.rows ensures RowOk(t, id) { DeliveredRow(s, w, ok, id); }
    forall v, item | Holds(t, v, item) ensures ItemOk(t, v, item) { DeliveredItem(s, w, ok, v, item); }
    DeliverKeepsLog(s, w, ok);
  }

  lemma MarkedItems(s: State, w: Worker, at: int, v: Worker, item: Item)
    requires w in s.batches && s.batches[w].todo != [] && s.batches[w].delivered.Some? && BatchOk(s.batches[w])
    ensures Holds(AfterMark(s, w, at), v, item) <==> Holds(s, v, item) && !(v == w && item == s.batches[w].todo[0])
  {
    var todo := s.batches[w].todo;
    assert todo == [todo[0]] + todo[1..];
  }

  /** The worker has an answer to mark. */
  predicate CanMark(s: State, w: Worker) {
    w in s.batches && s.batches[w].todo != [] && s.batches[w].delivered.Some?
  }

  lemma MarkedRow(s: State, w: Worker, at: int, id: Id)
    requires Inv(s) && CanMark(s, w) && id in s.rows
    ensures RowOk(AfterMark(s, w, at), id)
  {
    var t := AfterMark(s, w, at);
    var head := s.batches[w].todo[0];
    assert Holds(s, w, head) && ItemOk(s, w, head) && RowOk(s, id);
    if t.rows[id].lockedBy.Some? {
      MarkedItems(s, w, at, t.rows[id].lockedBy.value, Item(id, t.rows[id].attempts));
    }
  }

  lemma MarkedItem(s: State, w: Worker, at: int, v: Worker, item: Item)
    requires Inv(s) && CanMark(s, w) && Holds(AfterMark(s, w, at), v, item)
    ensures ItemOk(AfterMark(s, w, at), v, item)
  {
    MarkedItems(s, w, at, v, item);
    assert ItemOk(s, v, item);
    forall u | Holds(AfterMark(s, w, at), u, item) ensures u == v { MarkedItems(s, w, at, u, item); }
  }

  lemma MarkKeepsInv(s: State, w: Worker, at: int)
    requires Inv(s) && CanMark(s, w)
    ensures Inv(AfterMark(s, w, at))
  {
    var t := AfterMark(s, w, at);
    forall id | id in t.rows ensures RowOk(t, id) { MarkedRow(s, w, at, id); }
    forall v, item | Holds(t, v, item) ensures ItemOk(t, v, item) { MarkedItem(s, w, at, v, item); }
  }

  lemma StepKeepsInv(s: State, a: Action)
    requires Inv(s)
    ensures Inv(Next(s, a))
  {
    match a {
      case Enqueue(id, maxAttempts, at) => EnqueueKeepsInv(s, id, maxAttempts, at);
      case Claim(w, ids, size, at) =>
        if Idle(s.batches, w) && Picked(s.rows, ids, size, at) { ClaimKeepsInv(s, w, ids, size, at); }
      case Deliver(w, ok) => DeliverKeepsInv(s, w, ok);
      case Mark(w, at) =>
        if w in s.batches && s.batches[w].todo != [] && s.batches[w].delivered.Some? { MarkKeepsInv(s, w, at); }
    }
  }

  lemma {:induction false} RunKeepsInv(s: State, run: seq<Action>)
    requires Inv(s)
    ensures Inv(Exec(s, run))
    decreases run
  {
    if run != [] {
      StepKeepsInv(s, run[0]);
      RunKeepsInv(Next(s, run[0]), run[1..]);
    }
  }

  // ---------- what holds over every run ----------

  /** Attempts count the claims and never exceed the maximum. */
  lemma AttemptsAreClaims(run: seq<Action>, id: Id)
    requires id in Exec(INITIAL, run).rows
    ensures var s := Exec(INITIAL, run);
      id in s.claims && s.claims[id] == s.rows[id].attempts <= s.rows[id].maxAttempts
  {
    RunKeepsInv(INITIAL, run);
    assert RowOk(Exec(INITIAL, run), id);
  }

  /** Transport calls made for one email. */
  function Calls(log: seq<Delivery>, id: Id): nat {
    if log == [] then 0
    else Calls(log[..|log| - 1], id) + if log[|log| - 1].item.id == id then 1 else 0
  }

  lemma {:induction false} CallsAreAttempts(log: seq<Delivery>, id: Id, used: set<nat>)
    requires forall i, j | 0 <= i < j < |log| :: log[i].item != log[j].item
    requires forall i | 0 <= i < |log| && log[i].item.id == id :: log[i].item.attempt in used
    ensures Calls(log, id) <= |used|
    decreases |log|
  {
    if log != [] {
      var n := |log| - 1;
      if log[n].item.id == id {
        CallsAreAttempts(log[..n], id, used - {log[n].item.attempt});
      } else {
        CallsAreAttempts(log[..n], id, used);
      }
    }
  }

  function UpTo(n: nat): (ks: set<nat>)
    ensures |ks| == n && forall k :: k in ks <==> 1 <= k <= n
  {
    if n == 0 then {} else UpTo(n - 1) + {n}
  }

  /** An email is handed to the transport at most once per claim. */
  lemma CallsNeverExceedAttempts(run: seq<Action>, id: Id)
    requires id in Exec(INITIAL, run).rows
    ensures Calls(Exec(INITIAL, run).log, id) <= Exec(INITIAL, run).rows[id].attempts
  {
    RunKeepsInv(INITIAL, run);
    var s := Exec(INITIAL, run);
    CallsAreAttempts(s.log, id, UpTo(s.rows[id].attempts));
  }

  /** Until it is five minutes old, a lock is lifted only by its own worker's mark and never taken over. */
  lemma UnexpiredLockIsRespected(s: State, a: Action, id: Id)
    requires Inv(s) && id in s.rows && s.rows[id].lockedBy.Some? && s.rows[id].lockedAt.Some?
    requires a.Claim? ==> a.at <= s.rows[id].lockedAt.value + LOCK_MS
    ensures id in Next(s, a).rows
    ensures Next(s, a).rows[id] != s.rows[id] ==>
      a.Mark? && s.rows[id].lockedBy == Some(a.worker) && Next(s, a).rows[id].lockedBy.None?
  {
  }

  /** The worker still has the item to do, but not the lock on it. */
  ghost predicate LostLock(s: State, w: Worker, item: Item) {
    Holds(s, w, item) && item.id in s.rows && s.rows[item.id].lockedBy != Some(w)
  }

  /** The item is done with, and its attempt is over. */
  ghost predicate PutAway(s: State, w: Worker, item: Item) {
    !Holds(s, w, item) && item.id in s.rows && item.attempt <= s.rows[item.id].attempts
  }

  lemma StepLeavesItLost(s: State, a: Action, w: Worker, item: Item)
    requires Inv(s) && (LostLock(s, w, item) || PutAway(s, w, item))
    ensures LostLock(Next(s, a), w, item) || PutAway(Next(s, a), w, item)
  {
    if Holds(s, w, item) { assert ItemOk(s, w, item); }
    if a.Claim? && Idle(s.batches, a.worker) && Picked(s.rows, a.ids, a.size, a.at) {
      ClaimedItems(s, a.worker, a.ids, a.at, w, item);
    } else if a.Mark? && CanMark(s, a.worker) {
      MarkedItems(s, a.worker, a.at, w, item);
    }
  }

  /** A worker that lost the lock on an item never gets it back for that item, and marking the item changes nothing
      in the table, whatever happens in between. */
  lemma {:induction false} LostLockChangesNothing(s: State, run: seq<Action>, w: Worker, item: Item, at: int)
    requires Inv(s) && (LostLock(s, w, item) || PutAway(s, w, item))
    ensures var t := Exec(s, run);
      && (Holds(t, w, item) ==> LostLock(t, w, item))
      && (IsAnsweredHead(t, w, item) ==> Next(t, Mark(w, at)).rows == t.rows)
    decreases run
  {
    if run == [] {
      assert IsAnsweredHead(s, w, item) ==> Holds(s, w, item);
    } else {
      StepLeavesItLost(s, run[0], w, item);
      StepKeepsInv(s, run[0]);
      LostLockChangesNothing(Next(s, run[0]), run[1..], w, item, at);
    }
  }

  /** The lock a worker still has is the one it took for the attempt it is working on. */
  lemma LockBelongsToCurrentAttempt(s: State, w: Worker, i: nat)
    requires Inv(s) && w in s.batches && i < |s.batches[w].todo|
    requires s.batches[w].todo[i].id in s.rows && s.rows[s.batches[w].todo[i].id].lockedBy == Some(w)
    ensures s.batches[w].todo[i].attempt == s.rows[s.batches[w].todo[i].id].attempts
  {
    var item := s.batches[w].todo[i];
    assert Holds(s, w, item) && ItemOk(s, w, item) && RowOk(s, item.id);
    var mine := Item(item.id, s.rows[item.id].attempts);
    var j :| 0 <= j < |s.batches[w].todo| && s.batches[w].todo[j] == mine;
    assert i == j;
  }

  /** A sent row stays as it is forever, unlocked. */
  lemma {:induction false} SentIsFrozen(s: State, run: seq<Action>, id: Id)
    requires Inv(s) && id in s.rows && s.rows[id].sentAt.Some?
    ensures id in Exec(s, run).rows && Exec(s, run).rows[id] == s.rows[id] && s.rows[id].lockedBy.None?
    decreases run
  {
    assert RowOk(s, id);
    if run != [] {
      StepKeepsInv(s, run[0]);
      assert Next(s, run[0]).rows[id] == s.rows[id];
      SentIsFrozen(Next(s, run[0]), run[1..], id);
    }
  }

  /** A row is marked sent only after the transport accepted one of its attempts. */
  lemma SentMeansDelivered(run: seq<Action>, id: Id)
    requires id in Exec(INITIAL, run).rows && Exec(INITIAL, run).rows[id].sentAt.Some?
    ensures exists k :: Delivery(Item(id, k), true) in Exec(INITIAL, run).log
  {
    RunKeepsInv(INITIAL, run);
    assert RowOk(Exec(INITIAL, run), id);
  }

  /** Every finished batch has claimed = sent + failed. */
  lemma BatchAddsUp(run: seq<Action>, w: Worker)
    requires w in Exec(INITIAL, run).batches && Exec(INITIAL, run).batches[w].todo == []
    ensures var b := Exec(INITIAL, run).batches[w]; b.claimed == b.sent + b.failed
  {
    RunKeepsInv(INITIAL, run);
  }

  // ---------- one success per email, unless its lock is taken over ----------

  /** A claim picks email `id` although a worker still holds its lock. */
  ghost predicate TakesOver(s: State, a: Action, id: Id) {
    && a.Claim? && Idle(s.batches, a.worker) && Picked(s.rows, a.ids, a.size, a.at)
    && id in a.ids && s.rows[id].lockedBy.Some?
  }

  ghost predicate NeverTakenOver(s: State, run: seq<Action>, id: Id)
    decreases run
  {
    run == [] || (!TakesOver(s, run[0], id) && NeverTakenOver(Next(s, run[0]), run[1..], id))
  }

  ghost predicate Accepted(s: State, id: Id, k: nat) { Delivery(Item(id, k), true) in s.log }

  /** An accepted attempt of the email is marked, or about to be. */
  ghost predicate Settled(s: State, id: Id, k: nat) {
    id in s.rows && (s.rows[id].sentAt.Some? || exists w :: IsAnsweredHead(s, w, Item(id, k)))
  }

  /** Whoever holds the email holds its lock, and once accepted it is sent or about to be marked so. */
  ghost predicate Exclusive(s: State, id: Id) {
    && (forall w: Worker, item: Item | Holds(s, w, item) && item.id == id ::
          id in s.rows && s.rows[id].lockedBy == Some(w) && s.rows[id].attempts == item.attempt)
    && (forall k | Accepted(s, id, k) :: Settled(s, id, k))
    && (forall k, l | Accepted(s, id, k) && Accepted(s, id, l) :: k == l)
  }

  lemma ClaimKeepsExclusive(s: State, w: Worker, ids: seq<Id>, size: nat, at: int, id: Id)
    requires Inv(s) && Exclusive(s, id) && !TakesOver(s, Claim(w, ids, size, at), id)
    requires Idle(s.batches, w) && Picked(s.rows, ids, size, at)
    ensures Exclusive(AfterClaim(s, w, ids, at), id)
  {
    var t := AfterClaim(s, w, ids, at);
    forall v: Worker, item: Item | Holds(t, v, item) && item.id == id
      ensures id in t.rows && t.rows[id].lockedBy == Some(v) && t.rows[id].attempts == item.attempt
    {
      ClaimedItems(s, w, ids, at, v, item);
    }
    forall k | Accepted(t, id, k) ensures Settled(t, id, k) {
      assert Accepted(s, id, k) && Settled(s, id, k);
      if s.rows[id].sentAt.None? {
        var v :| IsAnsweredHead(s, v, Item(id, k));
        assert v != w;
        assert IsAnsweredHead(t, v, Item(id, k));
      }
    }
    assert forall k :: Accepted(t, id, k) <==> Accepted(s, id, k);
  }

  /** An accepted attempt leaves nobody else with the email to deliver. */
  lemma AcceptedIsOver(s: State, w: Worker, id: Id, k: nat, l: nat)
    requires Inv(s) && Exclusive(s, id) && Accepted(s, id, k) && CanDeliver(s, w)
    ensures s.batches[w].todo[0] != Item(id, l)
  {
    assert Settled(s, id, k);
    HeadIsNew(s, w);
    if s.batches[w].todo[0] == Item(id, l) {
      assert RowOk(s, id);
      var v :| IsAnsweredHead(s, v, Item(id, k));
      HeadIsHeld(s, v, Item(id, k));
    }
  }

  lemma HeadIsHeld(s: State, v: Worker, item: Item)
    requires IsAnsweredHead(s, v, item)
    ensures Holds(s, v, item)
  {
    assert s.batches[v].todo[0] in s.batches[v].todo;
  }

  predicate CanDeliver(s: State, w: Worker) {
    w in s.batches && s.batches[w].todo != [] && s.batches[w].delivered.None?
  }

  lemma DeliverKeepsExclusive(s: State, w: Worker, ok: bool, id: Id)
    requires Inv(s) && Exclusive(s, id) && CanDeliver(s, w)
    ensures Exclusive(Next(s, Deliver(w, ok)), id)
  {
    var t := Next(s, Deliver(w, ok));
    var head := s.batches[w].todo[0];
    assert Holds(s, w, head) && ItemOk(s, w, head);
    assert forall k :: Accepted(t, id, k) <==> Accepted(s, id, k) || (ok && Item(id, k) == head);
    assert forall v, item :: Holds(t, v, item) <==> Holds(s, v, item);
    assert IsAnsweredHead(t, w, head);
    forall k | Accepted(t, id, k) ensures Settled(t, id, k) {
      if Accepted(s, id, k) && s.rows[id].sentAt.None? {
        assert Settled(s, id, k);
        var v :| IsAnsweredHead(s, v, Item(id, k));
        assert IsAnsweredHead(t, v, Item(id, k));
      }
    }
    forall k, l | Accepted(s, id, k) ensures head != Item(id, l) { AcceptedIsOver(s, w, id, k, l); }
  }

  lemma MarkKeepsExclusive(s: State, w: Worker, at: int, id: Id)
    requires Inv(s) && Exclusive(s, id) && CanMark(s, w)
    ensures Exclusive(AfterMark(s, w, at), id)
  {
    var t := AfterMark(s, w, at);
    var head, ok := s.batches[w].todo[0], s.batches[w].delivered.value;
    HeadIsHeld(s, w, head);
    forall v: Worker, item: Item | Holds(t, v, item) && item.id == id
      ensures id in t.rows && t.rows[id].lockedBy == Some(v) && t.rows[id].attempts == item.attempt
    {
      MarkedItems(s, w, at, v, item);
    }
    assert forall k :: Accepted(t, id, k) <==> Accepted(s, id, k);
    forall k | Accepted(t, id, k) ensures Settled(t, id, k) {
      assert Settled(s, id, k);
      if s.rows[id].sentAt.None? {
        var v :| IsAnsweredHead(s, v, Item(id, k));
        if v == w {
          OneOutcome(s, head, ok);
        } else {
          assert IsAnsweredHead(t, v, Item(id, k));
        }
      }
    }
  }

  lemma OneOutcome(s: State, item: Item, ok: bool)
    requires LogOk(s) && Delivery(item, ok) in s.log && Delivery(item, true) in s.log
    ensures ok
  {
    var i :| 0 <= i < |s.log| && s.log[i] == Delivery(item, ok);
    var j :| 0 <= j < |s.log| && s.log[j] == Delivery(item, true);
    assert i == j;
  }

  lemma EnqueueKeepsExclusive(s: State, new': Id, maxAttempts: nat, at: int, id: Id)
    requires Inv(s) && Exclusive(s, id)
    ensures Exclusive(Next(s, Enqueue(new', maxAttempts, at)), id)
  {
    var t := Next(s, Enqueue(new', maxAttempts, at));
    assert forall v, item :: Holds(t, v, item) <==> Holds(s, v, item);
    assert forall k :: Accepted(t, id, k) <==> Accepted(s, id, k);
    forall k | Accepted(t, id, k) ensures Settled(t, id, k) {
      assert Settled(s, id, k);
      if w :| IsAnsweredHead(s, w, Item(id, k)) { assert IsAnsweredHead(t, w, Item(id, k)); }
    }
  }

  lemma StepKeepsExclusive(s: State, a: Action, id: Id)
    requires Inv(s) && Exclusive(s, id) && !TakesOver(s, a, id)
    ensures Exclusive(Next(s, a), id)
  {
    match a {
      case Enqueue(new', maxAttempts, at) => EnqueueKeepsExclusive(s, new', maxAttempts, at, id);
      case Claim(w, ids, size, at) =>
        if Idle(s.batches, w) && Picked(s.rows, ids, size, at) { ClaimKeepsExclusive(s, w, ids, size, at, id); }
      case Deliver(w, ok) => if CanDeliver(s, w) { DeliverKeepsExclusive(s, w, ok, id); }
      case Mark(w, at) => if CanMark(s, w) { MarkKeepsExclusive(s, w, at, id); }
    }
  }

  lemma {:induction false} RunKeepsExclusive(s: State, run: seq<Action>, id: Id)
    requires Inv(s) && Exclusive(s, id) && NeverTakenOver(s, run, id)
    ensures Exclusive(Exec(s, run), id) && Inv(Exec(s, run))
    decreases run
  {
    if run != [] {
      StepKeepsInv(s, run[0]);
      StepKeepsExclusive(s, run[0], id);
      RunKeepsExclusive(Next(s, run[0]), run[1..], id);
    }
  }

  predicate DeliveredOnce(log: seq<Delivery>, id: Id) {
    forall i, j | 0 <= i < |log| && 0 <= j < |log| && log[i].ok && log[j].ok
                  && log[i].item.id == id && log[j].item.id == id :: i == j
  }

  /** An email whose lock is never taken over is accepted by the transport at most once, whatever happens to the
      other emails. */
  lemma AcceptedAtMostOnce(run: seq<Action>, id: Id)
    requires NeverTakenOver(INITIAL, run, id)
    ensures DeliveredOnce(Exec(INITIAL, run).log, id)
  {
    assert forall k :: !Accepted(INITIAL, id, k);
    RunKeepsExclusive(INITIAL, run, id);
    var s := Exec(INITIAL, run);
    forall i, j | 0 <= i < |s.log| && 0 <= j < |s.log| && s.log[i].ok && s.log[j].ok
                  && s.log[i].item.id == id && s.log[j].item.id == id
      ensures i == j
    {
      assert Accepted(s, id, s.log[i].item.attempt) && Accepted(s, id, s.log[j].item.attempt);
    }
  }

  // ---------- how old the locks may get ----------

  /** A claim that picks `id` meets no lock on it older than `age` ms; other emails' locks may be of any age. */
  ghost predicate NoLockOlder(age: nat, s: State, a: Action, id: Id) {
    a.Claim? && id in a.ids && id in s.rows && s.rows[id].lockedAt.Some? ==> s.rows[id].lockedAt.value >= a.at - age
  }

  ghost predicate Punctual(age: nat, s: State, run: seq<Action>, id: Id)
    decreases run
  {
    run == [] || (NoLockOlder(age, s, run[0], id) && Punctual(age, Next(s, run[0]), run[1..], id))
  }

  lemma {:induction false} PunctualIsNeverTakenOver(age: nat, s: State, run: seq<Action>, id: Id)
    requires Inv(s) && age <= LOCK_MS && Punctual(age, s, run, id)
    ensures NeverTakenOver(s, run, id)
    decreases run
  {
    if run != [] {
      assert id in s.rows ==> RowOk(s, id);
      StepKeepsInv(s, run[0]);
      PunctualIsNeverTakenOver(age, Next(s, run[0]), run[1..], id);
    }
  }

  function SlowRun(id: Id): seq<Action> {
    [ Enqueue(id, 8, 0), Claim(1, [id], 20, 0), Claim(2, [id], 20, LOCK_MS + 1), Deliver(1, true), Deliver(2, true) ]
  }

  const SLOW_ROW := Row(0, 8, 0, 0, None, None, None)

  /** The states of the slow run up to the second claim. */
  function SlowState(id: Id, n: nat): State {
    var first, second := Locked(SLOW_ROW, 1, 0), Locked(Locked(SLOW_ROW, 1, 0), 2, LOCK_MS + 1);
    var one, two := Batch([Item(id, 1)], None, 1, 0, 0), Batch([Item(id, 2)], None, 1, 0, 0);
    if n == 0 then INITIAL
    else if n == 1 then State(map[id := SLOW_ROW], map[], map[id := 0], [])
    else if n == 2 then State(map[id := first], map[1 := one], map[id := 1], [])
    else State(map[id := second], map[1 := one, 2 := two], map[id := 2], [])
  }

  lemma FirstSlowClaim(id: Id)
    ensures Next(INITIAL, SlowRun(id)[0]) == SlowState(id, 1)
    ensures Next(SlowState(id, 1), SlowRun(id)[1]) == SlowState(id, 2)
    ensures NoLockOlder(LOCK_MS + 1, SlowState(id, 1), SlowRun(id)[1], id)
  {
    ClaimOnly(SlowState(id, 1), id, 1, 20, 0);
  }

  lemma SecondSlowClaim(id: Id)
    ensures Next(SlowState(id, 2), SlowRun(id)[2]) == SlowState(id, 3)
    ensures NoLockOlder(LOCK_MS + 1, SlowState(id, 2), SlowRun(id)[2], id)
  {
    ClaimOnly(SlowState(id, 2), id, 2, 20, LOCK_MS + 1);
  }

  lemma BothDeliver(id: Id)
    ensures var run := SlowRun(id);
      Next(Next(SlowState(id, 3), run[3]), run[4]).log == [Delivery(Item(id, 1), true), Delivery(Item(id, 2), true)]
  {
  }

  /** A slow worker and the one that takes over its lock can both deliver the email: the lock was one millisecond
      too old. */
  lemma ExpiredLockCanDeliverTwice(id: Id)
    ensures Exec(INITIAL, SlowRun(id)).log == [Delivery(Item(id, 1), true), Delivery(Item(id, 2), true)]
    ensures Punctual(LOCK_MS + 1, INITIAL, SlowRun(id), id)
  {
    FirstSlowClaim(id);
    SecondSlowClaim(id);
    BothDeliver(id);
    ExecFive(INITIAL, SlowRun(id));
    PunctualFive(LOCK_MS + 1, id, SlowState(id, 2), SlowState(id, 3), SlowRun(id));
  }

  /** The punctuality of a run of five actions whose third is its last claim. */
  lemma PunctualFive(age: nat, id: Id, s2: State, s3: State, run: seq<Action>)
    requires |run| == 5 && !run[0].Claim? && !run[3].Claim? && !run[4].Claim?
    requires Next(Next(INITIAL, run[0]), run[1]) == s2 && Next(s2, run[2]) == s3
    requires NoLockOlder(age, Next(INITIAL, run[0]), run[1], id) && NoLockOlder(age, s2, run[2], id)
    ensures Punctual(age, INITIAL, run, id)
  {
    var s1, s4 := Next(INITIAL, run[0]), Next(s3, run[3]);
    assert run[1..][1..] == run[2..] && run[2..][1..] == run[3..] && run[3..][1..] == run[4..] && run[4..][1..] == [];
    assert Punctual(age, s4, run[4..], id);
    assert Punctual(age, s3, run[3..], id);
    assert Punctual(age, s2, run[2..], id);
    assert Punctual(age, s1, run[1..], id);
  }

  lemma {:induction false} PunctualLess(age: nat, more: nat, s: State, run: seq<Action>, id: Id)
    requires age <= more && Punctual(age, s, run, id)
    ensures Punctual(more, s, run, id)
    decreases run
  {
    if run != [] { PunctualLess(age, more, Next(s, run[0]), run[1..], id); }
  }

  ghost predicate NeverTwice(age: nat, id: Id) {
    forall run | Punctual(age, INITIAL, run, id) :: DeliveredOnce(Exec(INITIAL, run).log, id)
  }

  /** Email by email: if its claims meet no lock on it older than `age`, it is accepted at most once in every run,
      exactly when `age` is at most five minutes. */
  lemma NeverTwiceIffLocksOutliveDelivery(age: nat, id: Id)
    ensures NeverTwice(age, id) <==> age <= LOCK_MS
  {
    if age <= LOCK_MS {
      forall run | Punctual(age, INITIAL, run, id) ensures DeliveredOnce(Exec(INITIAL, run).log, id) {
        PunctualIsNeverTakenOver(age, INITIAL, run, id);
        AcceptedAtMostOnce(run, id);
      }
    } else {
      ExpiredLockCanDeliverTwice(id);
      PunctualLess(LOCK_MS + 1, age, INITIAL, SlowRun(id), id);
      var log := Exec(INITIAL, SlowRun(id)).log;
      assert log[0].ok && log[1].ok && log[0].item.id == log[1].item.id == id;
    }
  }

  /** Claiming the one row there is. */
  lemma ClaimOnly(s: State, id: Id, w: Worker, size: nat, at: int)
    requires s.rows.Keys == {id} && s.claims.Keys == {id} && Idle(s.batches, w)
    requires Eligible(s.rows[id], at) && size > 0
    ensures var row := Locked(s.rows[id], w, at);
      Next(s, Claim(w, [id], size, at))
      == State(map[id := row], s.batches[w := Batch([Item(id, row.attempts)], None, 1, 0, 0)],
               map[id := s.claims[id] + 1], s.log)
  {
    var t := AfterClaim(s, w, [id], at);
    var row := Locked(s.rows[id], w, at);
    assert t.rows.Keys == {id} && t.claims.Keys == {id};
    assert t.rows == map[id := row];
    assert t.claims == map[id := s.claims[id] + 1];
    assert ItemsOf(t.rows, [id]) == [Item(id, row.attempts)];
  }

  lemma ExecFive(s: State, run: seq<Action>)
    requires |run| == 5
    ensures Exec(s, run) == Next(Next(Next(Next(Next(s, run[0]), run[1]), run[2]), run[3]), run[4])
  {
    var s1 := Next(s, run[0]);
    var s2 := Next(s1, run[1]);
    var s3 := Next(s2, run[2]);
    var s4 := Next(s3, run[3]);
    assert run[1..][1..] == run[2..] && run[2..][1..] == run[3..] && run[3..][1..] == run[4..] && run[4..][1..] == [];
    assert Exec(s3, run[3..]) == Exec(s4, run[4..]) == Next(s4, run[4]);
    assert Exec(s1, run[1..]) == Exec(s2, run[2..]) == Exec(s3, run[3..]);
  }

  // ---------- the service ----------

  datatype Reply = Reply(ok: bool, at: int)

  /** What a worker left alone does after its claim: deliver and mark, row by row. */
  function Steps(w: Worker, replies: seq<Reply>): seq<Action> {
    if replies == [] then []
    else
      var r := replies[|replies| - 1];
      Steps(w, replies[..|replies| - 1]) + [Deliver(w, r.ok), Mark(w, r.at)]
  }

  function Oks(replies: seq<Reply>): nat {
    if replies == [] then 0
    else Oks(replies[..|replies| - 1]) + if replies[|replies| - 1].ok then 1 else 0
  }

  lemma {:induction false} ExecAppend(s: State, a: seq<Action>, b: seq<Action>)
    ensures Exec(s, a + b) == Exec(Exec(s, a), b)
    decreases a
  {
    if a == [] {
      assert a + b == b;
    } else {
      assert (a + b)[1..] == a[1..] + b;
      ExecAppend(Next(s, a[0]), a[1..], b);
    }
  }

  lemma ExecPair(s: State, run: seq<Action>, a: Action, b: Action)
    ensures Exec(s, run + [a, b]) == Next(Next(Exec(s, run), a), b)
  {
    ExecAppend(s, run, [a, b]);
    assert [a, b][1..] == [b] && [b][1..] == [];
    var t := Exec(s, run);
    assert Exec(t, [a, b]) == Exec(Next(t, a), [b]) == Exec(Next(Next(t, a), b), []);
  }

  class EmailOutboxService {
    var rows: map<Id, Row>
    var batches: map<Worker, Batch>
    ghost var claims: map<Id, nat>
    ghost var log: seq<Delivery>

    ghost function View(): State
      reads this
    {
      State(rows, batches, claims, log)
    }

    constructor ()
      ensures View() == INITIAL
    {
      rows, batches, claims, log := map[], map[], map[], [];
    }

    /** The claiming UPDATE; `ids` is what its candidate query returned. */
    method ClaimBatch(w: Worker, ids: seq<Id>, size: nat, at: int)
      requires Idle(batches, w) && Picked(rows, ids, size, at)
      modifies this
      ensures View() == Next(old(View()), Claim(w, ids, size, at))
    {
      rows := map id | id in rows ::
        if id in ids then rows[id].(attempts := rows[id].attempts + 1, lockedAt := Some(at), lockedBy := Some(w))
        else rows[id];
      claims := map id | id in claims :: if id in ids then claims[id] + 1 else claims[id];
      assert rows == AfterClaim(old(View()), w, ids, at).rows;
      batches := batches[w := Batch(ItemsOf(rows, ids), None, |ids|, 0, 0)];
    }

    /** The transport's answer for the row at hand. */
    method DeliverHead(w: Worker, ok: bool)
      requires w in batches && batches[w].todo != [] && batches[w].delivered.None?
      modifies this
      ensures View() == Next(old(View()), Deliver(w, ok))
    {
      log := log + [Delivery(batches[w].todo[0], ok)];
      batches := batches[w := batches[w].(delivered := Some(ok))];
    }

    /** The UPDATE after the answer, guarded by the worker's own lock. */
    method MarkHead(w: Worker, at: int)
      requires w in batches && batches[w].todo != [] && batches[w].delivered.Some?
      modifies this
      ensures View() == Next(old(View()), Mark(w, at))
    {
      var b := batches[w];
      var item := b.todo[0];
      var mine := item.id in rows && rows[item.id].lockedBy == Some(w);
      if b.delivered.value {
        if mine {
          rows := rows[item.id := rows[item.id].(sentAt := Some(at), lockedAt := None, lockedBy := None)];
        }
        b := b.(sent := b.sent + 1);
      } else {
        if mine {
          var retryAt := at + RetryDelaySeconds(item.attempt) * 1000;
          rows := rows[item.id := rows[item.id].(availableAt := retryAt, lockedAt := None, lockedBy := None)];
        }
        b := b.(failed := b.failed + 1);
      }
      batches := batches[w := b.(todo := b.todo[1..], delivered := None)];
    }

    /** processBatch, when no other worker comes between its statements. */
    method ProcessBatch(w: Worker, ids: seq<Id>, size: nat, at: int, replies: seq<Reply>)
      returns (claimed: nat, sent: nat, failed: nat)
      requires Idle(batches, w) && Picked(rows, ids, size, at) && |replies| == |ids|
      modifies this
      ensures View() == Exec(Next(old(View()), Claim(w, ids, size, at)), Steps(w, replies))
      ensures claimed == |ids| == sent + failed && sent == Oks(replies)
    {
      ClaimBatch(w, ids, size, at);
      ghost var start := View();
      var i := 0;
      while i < |ids|
        invariant i <= |ids|
        invariant View() == Exec(start, Steps(w, replies[..i]))
        invariant w in batches && |batches[w].todo| == |ids| - i && batches[w].delivered.None?
        invariant batches[w].claimed == |ids|
        invariant batches[w].sent == Oks(replies[..i]) && batches[w].sent + batches[w].failed == i
      {
        DeliverHead(w, replies[i].ok);
        MarkHead(w, replies[i].at);
        assert replies[..i + 1][..i] == replies[..i];
        ExecPair(start, Steps(w, replies[..i]), Deliver(w, replies[i].ok), Mark(w, replies[i].at));
        i := i + 1;
      }
      assert replies[..i] == replies;
      return batches[w].claimed, batches[w].sent, batches[w].failed;
    }
  }
}
