/** The replay-nonce table shared by batch ingestion and source-config requests.
    A request checks its timestamp against the clock, and some statements later inserts its nonce; other
    requests and the garbage collection of expired nonces may come between. Times are milliseconds. */
module ReplayNonces {
  type Device = nat
  type Hash = nat
  type Pid = nat

  const WINDOW := 300_000
  const LIFETIME := 600_000

  datatype Consumer = Ingest | Resolve

  datatype Request = Request(via: Consumer, device: Device, timestamp: int, nonce: Hash, checkedAt: int)

  datatype Acceptance = Acceptance(request: Request, at: int)

  datatype NonceKey = NonceKey(device: Device, nonce: Hash)

  /** The table, the requests past their timestamp check, the clock, and the requests accepted so far. */
  datatype State = State(nonces: map<NonceKey, int>, checked: map<Pid, Request>, now: int, accepted: seq<Acceptance>)

  datatype Action =
    | Check(pid: Pid, via: Consumer, device: Device, timestamp: int, nonce: Hash, at: int)
    | Insert(pid: Pid, at: int)
    | Drop(pid: Pid, at: int)
    | Collect(at: int)

  const INITIAL := State(map[], map[], 0, [])

  function Abs(x: int): int { if x < 0 then -x else x }

  predicate InWindow(timestamp: int, at: int) { Abs(at - timestamp) <= WINDOW }

  function KeyOf(r: Request): NonceKey { NonceKey(r.device, r.nonce) }

  function AfterInsert(s: State, pid: Pid, at: int): State
    requires pid in s.checked
  {
    var r := s.checked[pid];
    var rest := s.checked - {pid};
    if KeyOf(r) in s.nonces then State(s.nonces, rest, at, s.accepted)
    else State(s.nonces[KeyOf(r) := at + LIFETIME], rest, at, s.accepted + [Acceptance(r, at)])
  }

  /** Drop stands for every other rejection: inactive device, bad signature, nonce found by the lookup. */
  function Next(s: State, a: Action): State {
    if a.at < s.now then s
    else
      match a
      case Check(pid, via, device, timestamp, nonce, at) =>
        if pid in s.checked || !InWindow(timestamp, at) then s.(now := at)
        else s.(checked := s.checked[pid := Request(via, device, timestamp, nonce, at)], now := at)
      case Insert(pid, at) => if pid in s.checked then AfterInsert(s, pid, at) else s.(now := at)
      case Drop(pid, at) => s.(checked := s.checked - {pid}, now := at)
      case Collect(at) =>
        s.(nonces := map k | k in s.nonces && s.nonces[k] >= at :: s.nonces[k], now := at)
  }

  function Exec(s: State, run: seq<Action>): State
    decreases run
  {
    if run == [] then s else Exec(Next(s, run[0]), run[1..])
  }

  // ---------- the invariant ----------

  /** An accepted nonce is still in the table, or its 600000 ms are over. */
  predicate Remembered(s: State, e: Acceptance) {
    || (KeyOf(e.request) in s.nonces && s.nonces[KeyOf(e.request)] >= e.at + LIFETIME)
    || s.now > e.at + LIFETIME
  }

  predicate SameNonce(e: Acceptance, f: Acceptance) { KeyOf(e.request) == KeyOf(f.request) }

  ghost predicate Inv(s: State) {
    && (forall p | p in s.checked ::
          InWindow(s.checked[p].timestamp, s.checked[p].checkedAt) && s.checked[p].checkedAt <= s.now)
    && (forall e | e in s.accepted ::
          InWindow(e.request.timestamp, e.request.checkedAt) && e.request.checkedAt <= e.at <= s.now
              && Remembered(s, e))
    && (forall i, j | 0 <= i < j < |s.accepted| && SameNonce(s.accepted[i], s.accepted[j]) ::
          s.accepted[j].at > s.accepted[i].at + LIFETIME)
  }

  lemma InsertKeepsInv(s: State, pid: Pid, at: int)
    requires Inv(s) && pid in s.checked && at >= s.now
    ensures Inv(AfterInsert(s, pid, at))
  {
    var t := AfterInsert(s, pid, at);
    forall i, j | 0 <= i < j < |t.accepted| && SameNonce(t.accepted[i], t.accepted[j])
      ensures t.accepted[j].at > t.accepted[i].at + LIFETIME
    {
      if j == |s.accepted| {
        assert t.accepted[i] == s.accepted[i] && s.accepted[i] in s.accepted;
      }
    }
  }

  lemma StepKeepsInv(s: State, a: Action)
    requires Inv(s)
    ensures Inv(Next(s, a))
  {
    if a.at >= s.now && a.Insert? && a.pid in s.checked {
      InsertKeepsInv(s, a.pid, a.at);
    }
  }

  lemma {:induction false} RunKeepsInv(s: State, run: seq<Action>)
    requires Inv(s)
    ensures Inv(Exec(s, run))
    decreases run
  {
    if run != [] {
      StepKeepsInv(s, run[0]);
      RunKeepsInv(Next(s, run[0]), run[1..]);
    }
  }

  // ---------- no replay ----------

  /** Some device, timestamp and nonce was accepted twice. */
  ghost predicate Replayed(s: State) {
    exists i, j :: ReplayedAt(s, i, j)
  }

  predicate ReplayedAt(s: State, i: int, j: int) {
    0 <= i < j < |s.accepted| && SameNonce(s.accepted[i], s.accepted[j])
    && s.accepted[i].request.timestamp == s.accepted[j].request.timestamp
  }

  /** A replay can only be accepted by an insert made after the timestamp's window has closed, by a request
      that checked its timestamp before. */
  lemma ReplayNeedsALateInsert(run: seq<Action>, i: int, j: int)
    requires ReplayedAt(Exec(INITIAL, run), i, j)
    ensures var f := Exec(INITIAL, run).accepted[j];
      f.request.checkedAt <= f.request.timestamp + WINDOW < f.at
  {
    RunKeepsInv(INITIAL, run);
    var s := Exec(INITIAL, run);
    assert s.accepted[i] in s.accepted && s.accepted[j] in s.accepted;
  }

  /** The longest time a request lets pass between its check and its insert. */
  predicate Within(s: State, delay: nat) {
    forall e | e in s.accepted :: e.at - e.request.checkedAt <= delay
  }

  function ReplayRun(): seq<Action> {
    [ Check(0, Ingest, 0, WINDOW, 0, 0), Insert(0, 0),
      Check(1, Ingest, 0, WINDOW, 0, LIFETIME), Collect(LIFETIME + 1), Insert(1, LIFETIME + 1) ]
  }

  const FIRST_REQUEST := Request(Ingest, 0, WINDOW, 0, 0)
  const SECOND_REQUEST := Request(Ingest, 0, WINDOW, 0, LIFETIME)

  /** The states of that run after its first insert, and at its end. */
  const USED_ONCE := State(map[NonceKey(0, 0) := LIFETIME], map[], 0, [Acceptance(FIRST_REQUEST, 0)])
  const USED_TWICE := State(map[NonceKey(0, 0) := LIFETIME + 1 + LIFETIME], map[], LIFETIME + 1,
                       [Acceptance(FIRST_REQUEST, 0), Acceptance(SECOND_REQUEST, LIFETIME + 1)])

  lemma FirstUse()
    ensures Next(Next(INITIAL, ReplayRun()[0]), ReplayRun()[1]) == USED_ONCE
  {
    var s1 := Next(INITIAL, ReplayRun()[0]);
    assert s1 == State(map[], map[0 := FIRST_REQUEST], 0, []);
    assert s1.checked - {0} == map[];
  }

  lemma SecondUse()
    ensures Next(Next(Next(USED_ONCE, ReplayRun()[2]), ReplayRun()[3]), ReplayRun()[4]) == USED_TWICE
  {
    var s3 := Next(USED_ONCE, ReplayRun()[2]);
    assert s3 == State(USED_ONCE.nonces, map[1 := SECOND_REQUEST], LIFETIME, USED_ONCE.accepted);
    var s4 := Next(s3, ReplayRun()[3]);
    assert s4 == State(map[], map[1 := SECOND_REQUEST], LIFETIME + 1, USED_ONCE.accepted);
    assert s4.checked - {1} == map[];
  }

  /** One millisecond between check and insert is enough for a replay. */
  lemma OneMillisecondSuffices()
    ensures Replayed(Exec(INITIAL, ReplayRun())) && Within(Exec(INITIAL, ReplayRun()), 1)
    ensures LateBy(Exec(INITIAL, ReplayRun()), 1)
  {
    FirstUse();
    SecondUse();
    ExecFive(INITIAL, ReplayRun());
    assert ReplayedAt(USED_TWICE, 0, 1);
  }

  lemma ExecFive(s: State, run: seq<Action>)
    requires |run| == 5
    ensures Exec(s, run) == Next(Next(Next(Next(Next(s, run[0]), run[1]), run[2]), run[3]), run[4])
  {
    var s1 := Next(s, run[0]);
    var s2 := Next(s1, run[1]);
    var s3 := Next(s2, run[2]);
    var s4 := Next(s3, run[3]);
    assert run[1..][1..] == run[2..] && run[2..][1..] == run[3..] && run[3..][1..] == run[4..] && run[4..][1..] == [];
    assert Exec(s3, run[3..]) == Exec(s4, run[4..]) == Next(s4, run[4]);
    assert Exec(s1, run[1..]) == Exec(s2, run[2..]) == Exec(s3, run[3..]);
  }

  ghost predicate NeverReplayedWithin(delay: nat) {
    forall run | Within(Exec(INITIAL, run), delay) :: !Replayed(Exec(INITIAL, run))
  }

  /** Checking the window and inserting the nonce at one instant is exactly what rules replays out: with no
      delay no triple is ever accepted twice by the two consumers together, although nonces are collected;
      with any delay there is a run that accepts one twice. */
  lemma NoReplayIffInstant(delay: nat)
    ensures NeverReplayedWithin(delay) <==> delay == 0
  {
    OneMillisecondSuffices();
    if delay == 0 {
      forall run | Within(Exec(INITIAL, run), 0) ensures !Replayed(Exec(INITIAL, run)) {
        var s := Exec(INITIAL, run);
        if Replayed(s) {
          var i, j :| ReplayedAt(s, i, j);
          assert s.accepted[j] in s.accepted;
          ReplayNeedsALateInsert(run, i, j);
        }
      }
    } else {
      assert Within(Exec(INITIAL, ReplayRun()), delay);
    }
  }

  /** Accepted requests insert at most `late` ms after the window of their timestamp has closed. */
  predicate LateBy(s: State, late: int) {
    forall e | e in s.accepted :: e.at <= e.request.timestamp + WINDOW + late
  }

  ghost predicate NeverReplayedLateBy(late: int) {
    forall run | LateBy(Exec(INITIAL, run), late) :: !Replayed(Exec(INITIAL, run))
  }

  /** However long requests take between check and insert, no triple is ever accepted twice exactly when none is
      accepted after its timestamp's window has closed; one millisecond after is enough. */
  lemma NoReplayIffNeverLate(late: int)
    ensures NeverReplayedLateBy(late) <==> late <= 0
  {
    if late <= 0 {
      forall run | LateBy(Exec(INITIAL, run), late) ensures !Replayed(Exec(INITIAL, run)) {
        var s := Exec(INITIAL, run);
        if Replayed(s) {
          var i, j :| ReplayedAt(s, i, j);
          assert s.accepted[j] in s.accepted;
          ReplayNeedsALateInsert(run, i, j);
        }
      }
    } else {
      OneMillisecondSuffices();
      assert LateBy(Exec(INITIAL, ReplayRun()), late);
    }
  }

  // ---------- the service ----------

  class NonceStore {
    var nonces: map<NonceKey, int>
    var checked: map<Pid, Request>
    ghost var now: int
    ghost var accepted: seq<Acceptance>

    ghost function View(): State
      reads this
    {
      State(nonces, checked, now, accepted)
    }

    constructor ()
      ensures View() == INITIAL
    {
      nonces, checked, now, accepted := map[], map[], 0, [];
    }

    method CheckTimestamp(pid: Pid, via: Consumer, device: Device, timestamp: int, nonce: Hash, at: int)
      returns (ok: bool)
      requires at >= now && pid !in checked
      modifies this
      ensures View() == Next(old(View()), Check(pid, via, device, timestamp, nonce, at))
      ensures ok <==> timestamp - WINDOW <= at <= timestamp + WINDOW
    {
      now := at;
      ok := Abs(at - timestamp) <= 300_000;
      if ok {
        checked := checked[pid := Request(via, device, timestamp, nonce, at)];
      }
    }

    /** The INSERT, which the unique (device, nonce) index refuses when the nonce is there. */
    method RecordNonce(pid: Pid, at: int) returns (ok: bool)
      requires at >= now && pid in checked
      modifies this
      ensures View() == Next(old(View()), Insert(pid, at))
      ensures ok <==> KeyOf(old(checked)[pid]) !in old(nonces)
    {
      var r := checked[pid];
      now, checked := at, checked - {pid};
      ok := NonceKey(r.device, r.nonce) !in nonces;
      if ok {
        nonces := nonces[NonceKey(r.device, r.nonce) := at + 600_000];
        accepted := accepted + [Acceptance(r, at)];
      }
    }

    method CollectExpired(at: int)
      requires at >= now
      modifies this
      ensures View() == Next(old(View()), Collect(at))
    {
      now := at;
      nonces := map k | k in nonces && !(nonces[k] < at) :: nonces[k];
    }
  }
}
