/** What the flat plan of the router means, independently of the loops that walk it. */
module RouterPlan {
  import opened Common
  import opened PoolRouter

  // ---------- which events are planned, and in which order ----------

  ghost predicate Reached(routes: seq<Route>, i: nat) {
    i < |routes| && forall k | 0 <= k < i :: !routes[k].rule
  }

  predicate Retryable(r: Reply) { r.Bad? && r.retryable }

  /** The events the router may come to: routes before the first rule route, connections with a slot,
      and a retry only after retryable failures of all earlier tries. */
  ghost predicate Planned(routes: seq<Route>, e: Event) {
    && Reached(routes, e.i) && e.route == routes[e.i]
    && match e
       case RuleEngine(_, route) => route.rule
       case SetupFailed(_, j, route, account, error) =>
         && !route.rule && j < |route.accounts| && account == route.accounts[j]
         && account.granted && account.setupError == Some(error)
       case Attempt(_, j, route, account, retry, reply) =>
         && !route.rule && j < |route.accounts| && account == route.accounts[j]
         && account.granted && account.setupError.None?
         && retry <= route.maxRetries && reply == account.replies(retry)
         && forall m | 0 <= m < retry :: Retryable(account.replies(m))
  }

  function Column(e: Event): nat { if e.RuleEngine? then 0 else e.j }

  function Try(e: Event): nat { if e.Attempt? then e.retry else 0 }

  /** The flattened order: route, then connection, then retry. */
  predicate Before(e: Event, f: Event) {
    || e.i < f.i
    || (e.i == f.i && Column(e) < Column(f))
    || (e.i == f.i && Column(e) == Column(f) && Try(e) < Try(f))
  }

  ghost predicate Ordered(events: seq<Event>) {
    forall p, q | 0 <= p < q < |events| :: Before(events[p], events[q])
  }

  ghost predicate OnAccount(i: nat, j: nat, route: Route, account: Account, retry: nat, e: Event) {
    && e.Attempt? && e.i == i && e.j == j && e.route == route && e.account == account
    && retry <= e.retry <= route.maxRetries && e.reply == account.replies(e.retry)
    && forall m | retry <= m < e.retry :: Retryable(account.replies(m))
  }

  lemma {:induction false} TriesMembers(i: nat, j: nat, route: Route, account: Account, retry: nat)
    ensures forall e :: e in TriesFrom(i, j, route, account, retry) <==> OnAccount(i, j, route, account, retry, e)
    ensures Ordered(TriesFrom(i, j, route, account, retry))
    decreases route.maxRetries + 1 - retry
  {
    if retry <= route.maxRetries {
      TriesMembers(i, j, route, account, retry + 1);
      var reply := account.replies(retry);
      var first := Attempt(i, j, route, account, retry, reply);
      forall e ensures e in TriesFrom(i, j, route, account, retry) <==> OnAccount(i, j, route, account, retry, e) {
        if OnAccount(i, j, route, account, retry, e) && e != first {
          assert e.retry > retry;
          assert OnAccount(i, j, route, account, retry + 1, e);
        }
      }
      OrderedConcat([first], if Retryable(reply) then TriesFrom(i, j, route, account, retry + 1) else []);
    }
  }

  lemma OrderedConcat(a: seq<Event>, b: seq<Event>)
    requires Ordered(a) && Ordered(b)
    requires forall e, f | e in a && f in b :: Before(e, f)
    ensures Ordered(a + b)
  {
    forall p, q | 0 <= p < q < |a + b| ensures Before((a + b)[p], (a + b)[q]) {
      if p < |a| <= q { assert a[p] in a && b[q - |a|] in b; }
    }
  }

  ghost predicate OfAccount(i: nat, j: nat, route: Route, account: Account, e: Event) {
    account.granted && !e.RuleEngine? && e.i == i && e.j == j && e.route == route && e.account == account &&
    match e
    case SetupFailed(_, _, _, _, error) => account.setupError == Some(error)
    case Attempt(_, _, _, _, retry, reply) => account.setupError.None? && OnAccount(i, j, route, account, 0, e)
  }

  lemma AccountMembers(i: nat, j: nat, route: Route, account: Account)
    ensures forall e :: e in AccountPlan(i, j, route, account) <==> OfAccount(i, j, route, account, e)
    ensures Ordered(AccountPlan(i, j, route, account))
  {
    TriesMembers(i, j, route, account, 0);
  }

  lemma {:induction false} AccountsMembers(i: nat, route: Route, j: nat)
    requires j <= |route.accounts|
    ensures forall e :: e in AccountsFrom(i, route, j) <==>
              !e.RuleEngine? && j <= e.j < |route.accounts| && OfAccount(i, e.j, route, route.accounts[e.j], e)
    ensures Ordered(AccountsFrom(i, route, j))
    decreases |route.accounts| - j
  {
    if j < |route.accounts| {
      AccountMembers(i, j, route, route.accounts[j]);
      AccountsMembers(i, route, j + 1);
      OrderedConcat(AccountPlan(i, j, route, route.accounts[j]), AccountsFrom(i, route, j + 1));
    }
  }

  lemma {:induction false} PlanMembersFrom(routes: seq<Route>, i: nat)
    requires i <= |routes| && forall k | 0 <= k < i :: !routes[k].rule
    ensures forall e :: e in PlanFrom(routes, i) <==> e.i >= i && Planned(routes, e)
    ensures Ordered(PlanFrom(routes, i))
    decreases |routes| - i
  {
    if i < |routes| && !routes[i].rule {
      AccountsMembers(i, routes[i], 0);
      PlanMembersFrom(routes, i + 1);
      forall e ensures e in PlanFrom(routes, i) <==> e.i >= i && Planned(routes, e) {
        if e.i == i {
          assert Planned(routes, e) <==> e in AccountsFrom(i, routes[i], 0);
        }
      }
      OrderedConcat(AccountsFrom(i, routes[i], 0), PlanFrom(routes, i + 1));
    }
  }

  /** The plan lists exactly the planned events, each once, in the flattened order. */
  lemma PlanIsOrderedAndComplete(routes: seq<Route>)
    ensures forall e :: e in Plan(routes) <==> Planned(routes, e)
    ensures Ordered(Plan(routes))
  {
    PlanMembersFrom(routes, 0);
  }

  // ---------- the answer is the first success ----------

  lemma {:induction false} ExecutedIsPrefix(plan: seq<Event>)
    ensures Executed(plan) <= plan
    ensures forall p | 0 <= p < |Executed(plan)| - 1 :: !IsHit(Executed(plan)[p])
    ensures Executed(plan) != plan ==> Executed(plan) != [] && IsHit(Executed(plan)[|Executed(plan)| - 1])
  {
    if plan != [] && !IsHit(plan[0]) {
      ExecutedIsPrefix(plan[1..]);
      var rest := Executed(plan[1..]);
      assert plan == [plan[0]] + plan[1..];
      forall p | 0 <= p < |Executed(plan)| - 1 ensures !IsHit(Executed(plan)[p]) {
        if p > 0 { assert Executed(plan)[p] == rest[p - 1]; }
      }
    }
  }

  ghost predicate FirstHit(routes: seq<Route>, e: Event) {
    Planned(routes, e) && IsHit(e) && forall f | Planned(routes, f) && IsHit(f) :: f == e || Before(e, f)
  }

  /** How an answer names the event it came from. */
  predicate Names(answer: Answer, e: Event) {
    match e
    case RuleEngine(i, route) => answer == ByRule(i, PriorityOf(route.ruleScore))
    case Attempt(i, j, _, _, _, Good(score)) => answer == ByAccount(i, j, PriorityOf(score))
    case _ => false
  }

  /** The first hit of an ordered plan comes before every other planned hit. */
  lemma FirstHitAt(routes: seq<Route>, plan: seq<Event>, n: nat)
    requires Ordered(plan) && forall e :: e in plan <==> Planned(routes, e)
    requires n < |plan| && IsHit(plan[n]) && forall p | 0 <= p < n :: !IsHit(plan[p])
    ensures FirstHit(routes, plan[n])
  {
    var e := plan[n];
    assert e in plan;
    forall f | Planned(routes, f) && IsHit(f) ensures f == e || Before(e, f) {
      assert f in plan;
      var p :| 0 <= p < |plan| && plan[p] == f;
      assert n <= p;
    }
  }

  lemma HitIsNamed(events: seq<Event>)
    requires events != [] && IsHit(events[|events| - 1])
    ensures Names(AnswerOf(events), events[|events| - 1])
  {
  }

  lemma NoHitInPlan(plan: seq<Event>)
    requires AnswerOf(Executed(plan)).AllRoutesFailed?
    ensures NoHit(plan)
  {
    ExecutedIsPrefix(plan);
    var events := Executed(plan);
    if events != [] { assert !IsHit(events[|events| - 1]); }
  }

  lemma LastIsFirstHit(routes: seq<Route>)
    requires !AnswerOf(Executed(Plan(routes))).AllRoutesFailed?
    ensures var events := Executed(Plan(routes));
      events != [] && IsHit(events[|events| - 1]) && FirstHit(routes, events[|events| - 1])
  {
    var plan, events := Plan(routes), Executed(Plan(routes));
    ExecutedIsPrefix(plan);
    var n := |events| - 1;
    assert events[n] == plan[n];
    forall p | 0 <= p < n ensures !IsHit(plan[p]) { assert events[p] == plan[p]; }
    PlanIsOrderedAndComplete(routes);
    FirstHitAt(routes, plan, n);
  }

  /** classify answers with the first success in the flattened order, and fails exactly when nothing
      planned succeeds. */
  lemma AnswerIsFirstSuccess(routes: seq<Route>)
    ensures var answer := AnswerOf(Executed(Plan(routes)));
      if answer.AllRoutesFailed? then forall e | Planned(routes, e) :: !IsHit(e)
      else exists e :: FirstHit(routes, e) && Names(answer, e)
  {
    if AnswerOf(Executed(Plan(routes))).AllRoutesFailed? {
      NoHitInPlan(Plan(routes));
      PlanIsOrderedAndComplete(routes);
    } else {
      LastIsFirstHit(routes);
      HitIsNamed(Executed(Plan(routes)));
    }
  }

  /** With a rule route among the enabled ones, classify never ends in ALL_LLM_ROUTES_FAILED. */
  lemma RuleRouteNeverFails(routes: seq<Route>, k: nat)
    requires k < |routes| && routes[k].rule
    ensures !AnswerOf(Executed(Plan(routes))).AllRoutesFailed?
    decreases k
  {
    if m :| 0 <= m < k && routes[m].rule {
      RuleRouteNeverFails(routes, m);
    } else {
      AnswerIsFirstSuccess(routes);
      assert Planned(routes, RuleEngine(k, routes[k]));
    }
  }

  // ---------- attempts, retries, rows and failures ----------

  lemma NothingBetween(d: Event, e: Event, f: Event)
    requires d.Attempt? && e.Attempt? && d.i == e.i && d.j == e.j && e.retry == d.retry + 1
    ensures !(Before(d, f) && Before(f, e))
  {
  }

  /** Within the plan a retry directly follows the retryable failure of the try before it. */
  lemma RetryFollowsRetryableFailure(routes: seq<Route>, q: nat)
    requires q < |Plan(routes)| && Plan(routes)[q].Attempt? && Plan(routes)[q].retry > 0
    ensures q > 0
    ensures var e, d := Plan(routes)[q], Plan(routes)[q - 1];
      d.Attempt? && d.i == e.i && d.j == e.j && d.retry == e.retry - 1 && Retryable(d.reply)
  {
    var plan := Plan(routes);
    PlanIsOrderedAndComplete(routes);
    var e := plan[q];
    assert e in plan;
    var d := e.(retry := e.retry - 1, reply := e.account.replies(e.retry - 1));
    assert Planned(routes, d);
    assert d in plan;
    var p :| 0 <= p < |plan| && plan[p] == d;
    assert Before(d, e);
    assert p != q;
    assert p < q;
    NothingBetween(d, e, plan[p + 1]);
    assert Before(plan[p], plan[p + 1]);
  }

  function Tries(route: Route): nat { if route.maxRetries < 0 then 0 else route.maxRetries + 1 }

  function GrantedFrom(route: Route, j: nat): nat
    requires j <= |route.accounts|
    decreases |route.accounts| - j
  {
    if j == |route.accounts| then 0 else (if route.accounts[j].granted then 1 else 0) + GrantedFrom(route, j + 1)
  }

  /** Leased connections times tries, summed over the routes before the first rule route. */
  function Budget(routes: seq<Route>, i: nat): nat
    requires i <= |routes|
    decreases |routes| - i
  {
    if i == |routes| || routes[i].rule then 0
    else GrantedFrom(routes[i], 0) * Tries(routes[i]) + Budget(routes, i + 1)
  }

  function Attempts(events: seq<Event>): nat {
    if events == [] then 0 else (if events[0].Attempt? then 1 else 0) + Attempts(events[1..])
  }

  lemma {:induction false} AttemptsConcat(a: seq<Event>, b: seq<Event>)
    ensures Attempts(a + b) == Attempts(a) + Attempts(b)
  {
    if a == [] {
      assert a + b == b;
    } else {
      assert (a + b)[1..] == a[1..] + b;
      AttemptsConcat(a[1..], b);
    }
  }

  lemma {:induction false} TriesBound(i: nat, j: nat, route: Route, account: Account, retry: nat)
    ensures Attempts(TriesFrom(i, j, route, account, retry))
         <= if retry > route.maxRetries then 0 else route.maxRetries + 1 - retry
    decreases route.maxRetries + 1 - retry
  {
    if retry <= route.maxRetries {
      TriesBound(i, j, route, account, retry + 1);
      var reply := account.replies(retry);
      AttemptsConcat([Attempt(i, j, route, account, retry, reply)],
                     if Retryable(reply) then TriesFrom(i, j, route, account, retry + 1) else []);
    }
  }

  lemma OneMoreTimes(n: nat, k: nat)
    ensures (1 + n) * k == k + n * k
  {
  }

  lemma {:induction false} AccountsBound(i: nat, route: Route, j: nat)
    requires j <= |route.accounts|
    ensures Attempts(AccountsFrom(i, route, j)) <= GrantedFrom(route, j) * Tries(route)
    decreases |route.accounts| - j
  {
    if j < |route.accounts| {
      var account := route.accounts[j];
      AccountsBound(i, route, j + 1);
      TriesBound(i, j, route, account, 0);
      AttemptsConcat(AccountPlan(i, j, route, account), AccountsFrom(i, route, j + 1));
      OneMoreTimes(GrantedFrom(route, j + 1), Tries(route));
    }
  }

  lemma {:induction false} PlanBound(routes: seq<Route>, i: nat)
    requires i <= |routes|
    ensures Attempts(PlanFrom(routes, i)) <= Budget(routes, i)
    decreases |routes| - i
  {
    if i < |routes| && !routes[i].rule {
      AccountsBound(i, routes[i], 0);
      PlanBound(routes, i + 1);
      AttemptsConcat(AccountsFrom(i, routes[i], 0), PlanFrom(routes, i + 1));
    }
  }

  /** classify makes at most maxRetries+1 attempts per leased connection of each route it may reach. */
  lemma AttemptsAreBounded(routes: seq<Route>)
    ensures |Rows(Executed(Plan(routes)))| <= Budget(routes, 0)
  {
    var plan := Plan(routes);
    PlanBound(routes, 0);
    ExecutedIsPrefix(plan);
    var events := Executed(plan);
    assert plan == events + plan[|events|..];
    AttemptsConcat(events, plan[|events|..]);
    RowsCount(events);
  }

  function FailedAttempts(events: seq<Event>): nat {
    if events == [] then 0
    else
      var e := events[|events| - 1];
      FailedAttempts(events[..|events| - 1]) + if e.Attempt? && e.reply.Bad? then 1 else 0
  }

  function SetupFailures(events: seq<Event>): nat {
    if events == [] then 0
    else SetupFailures(events[..|events| - 1]) + if events[|events| - 1].SetupFailed? then 1 else 0
  }

  function FailedRows(rows: seq<Execution>): nat {
    if rows == [] then 0
    else FailedRows(rows[..|rows| - 1]) + if rows[|rows| - 1].status == FAILED then 1 else 0
  }

  lemma {:induction false} RowsCount(events: seq<Event>)
    ensures |Rows(events)| == Attempts(events)
  {
    if events != [] {
      var before := events[..|events| - 1];
      RowsCount(before);
      assert events == before + [events[|events| - 1]];
      AttemptsConcat(before, [events[|events| - 1]]);
    }
  }

  lemma {:induction false} NoneRunning(events: seq<Event>)
    ensures forall r | r in Rows(events) :: r.status != RUNNING
  {
    if events != [] { NoneRunning(events[..|events| - 1]); }
  }

  lemma FailedRowsStep(before: seq<Event>, e: Event)
    ensures FailedRows(Rows(before + [e])) == FailedRows(Rows(before)) + if e.Attempt? && e.reply.Bad? then 1 else 0
  {
    OneMore(before, e);
    if e.Attempt? {
      OneMoreRow(Rows(before), RowOf(e, Failures(before)));
    } else {
      assert Rows(before) + [] == Rows(before);
    }
  }

  lemma {:induction false} FailedRowsMatch(events: seq<Event>)
    ensures FailedRows(Rows(events)) == FailedAttempts(events)
  {
    if events != [] {
      var e, before := events[|events| - 1], events[..|events| - 1];
      FailedRowsMatch(before);
      FailedRowsStep(before, e);
      assert events == before + [e];
    }
  }

  lemma OneMoreRow(rows: seq<Execution>, row: Execution)
    ensures FailedRows(rows + [row]) == FailedRows(rows) + if row.status == FAILED then 1 else 0
  {
    assert (rows + [row])[..|rows|] == rows;
  }

  lemma {:induction false} FailuresMatch(events: seq<Event>)
    ensures |Failures(events)| == FailedAttempts(events) + SetupFailures(events)
  {
    if events != [] { FailuresMatch(events[..|events| - 1]); }
  }

  lemma {:induction false} RowsPrefix(events: seq<Event>, n: nat)
    requires n <= |events|
    ensures Rows(events[..n]) <= Rows(events)
    decreases |events|
  {
    if n < |events| {
      var before := events[..|events| - 1];
      RowsPrefix(before, n);
      assert before[..n] == events[..n];
    } else {
      assert events[..n] == events;
    }
  }

  /** Each execution row records the failure directly before it as its fallback reason. */
  lemma FallbackReasonIsPreviousFailure(routes: seq<Route>, n: nat)
    requires n < |Executed(Plan(routes))| && Executed(Plan(routes))[n].Attempt?
    ensures var events := Executed(Plan(routes)); var k := |Rows(events[..n])|;
      && k < |Rows(events)|
      && (n > 0 ==> |FailureOf(events[n - 1])| == 1)
      && Rows(events)[k].fallbackReason == if n == 0 then None else Some(FailureOf(events[n - 1])[0])
  {
    ExecutedIsPrefix(Plan(routes));
    FallbackAt(Executed(Plan(routes)), n);
  }

  lemma FallbackAt(events: seq<Event>, n: nat)
    requires n < |events| && events[n].Attempt? && (n > 0 ==> !IsHit(events[n - 1]))
    ensures |Rows(events[..n])| < |Rows(events)|
    ensures n > 0 ==> |FailureOf(events[n - 1])| == 1
    ensures Rows(events)[|Rows(events[..n])|].fallbackReason
         == if n == 0 then None else Some(FailureOf(events[n - 1])[0])
  {
    RowAt(events, n);
    if n > 0 {
      assert events[..n] == events[..n - 1] + [events[n - 1]];
      OneMore(events[..n - 1], events[n - 1]);
    }
  }

  lemma RowAt(events: seq<Event>, n: nat)
    requires n < |events| && events[n].Attempt?
    ensures |Rows(events[..n])| < |Rows(events)|
    ensures Rows(events)[|Rows(events[..n])|] == RowOf(events[n], Failures(events[..n]))
  {
    assert events[..n + 1] == events[..n] + [events[n]];
    OneMore(events[..n], events[n]);
    RowsPrefix(events, n + 1);
  }

  lemma {:induction false} FailuresPrefix(events: seq<Event>, n: nat)
    requires n <= |events|
    ensures Failures(events[..n]) <= Failures(events)
    decreases |events|
  {
    if n < |events| {
      var before := events[..|events| - 1];
      FailuresPrefix(before, n);
      assert before[..n] == events[..n];
    } else {
      assert events[..n] == events;
    }
  }

  /** The entry of the failure list that event `n` adds. */
  lemma FailureAt(events: seq<Event>, n: nat)
    requires n < |events| && |FailureOf(events[n])| == 1
    ensures |Failures(events[..n])| < |Failures(events)|
    ensures Failures(events)[|Failures(events[..n])|] == FailureOf(events[n])[0]
  {
    assert events[..n + 1] == events[..n] + [events[n]];
    OneMore(events[..n], events[n]);
    FailuresPrefix(events, n + 1);
  }

  /** Entry `n` of the failure list is `what`, on that model of that connection. */
  predicate Listed(failures: seq<string>, n: nat, route: Route, account: Account, what: string) {
    n < |failures| && failures[n] == account.name + "/" + route.model + ":" + what
  }

  /** What event `n` leaves behind: an attempt one row of its own, with its connection, model, tier and the number of
      the connection in the route, FAILED with its own code exactly when it failed, and then one entry of the failure
      list; a failed preparation one such entry. */
  ghost predicate Recorded(events: seq<Event>, n: nat)
    requires n < |events|
  {
    var e, row, entry := events[n], |Rows(events[..n])|, |Failures(events[..n])|;
    match e
    case RuleEngine(_, _) => true
    case SetupFailed(_, _, route, account, error) => Listed(Failures(events), entry, route, account, error)
    case Attempt(_, j, route, account, _, reply) =>
      && row < |Rows(events)| && Rows(events)[row].connection == account.id && Rows(events)[row].model == route.model
      && Rows(events)[row].tier == route.tier && Rows(events)[row].accountAttempt == j + 1
      && (if reply.Bad?
          then Rows(events)[row].status == FAILED && Rows(events)[row].errorCode == Some(reply.code)
            && Listed(Failures(events), entry, route, account, reply.code)
          else Rows(events)[row].status == SUCCEEDED && Rows(events)[row].errorCode == None)
  }

  lemma EventIsRecorded(events: seq<Event>, n: nat)
    requires n < |events|
    ensures Recorded(events, n)
  {
    if events[n].Attempt? { RowAt(events, n); }
    if |FailureOf(events[n])| == 1 { FailureAt(events, n); }
  }

  /** Every event is recorded in its own row and list entry, and there is nothing else: no row is left RUNNING, there
      are as many FAILED rows as failed attempts, and as many entries as failed attempts and preparations. */
  lemma RowsAndFailuresMatch(events: seq<Event>)
    ensures forall n: nat | n < |events| :: Recorded(events, n)
    ensures forall r | r in Rows(events) :: r.status != RUNNING
    ensures FailedRows(Rows(events)) == FailedAttempts(events)
    ensures |Failures(events)| == FailedAttempts(events) + SetupFailures(events)
  {
    forall n: nat | n < |events| ensures Recorded(events, n) { EventIsRecorded(events, n); }
    NoneRunning(events);
    FailedRowsMatch(events);
    FailuresMatch(events);
  }
}
