/** The LLM pool router: three nested fallback loops, refined to "first success in a flat plan".
    The slot manager's answer, the credential lookup and the provider's replies are oracles: they are
    part of the account that a route meets. */
module PoolRouter {
  import opened Common

  datatype Reply = Good(score: int) | Bad(code: string, retryable: bool)

  datatype Priority = CRITICAL | HIGH | MEDIUM | LOW

  /** One connection as the router finds it: whether a slot is granted, whether preparing the call
      throws, and what the provider would answer on each retry. */
  datatype Account = Account(id: nat, name: string, health: int, granted: bool, setupError: Option<string>,
                             replies: nat -> Reply)

  datatype Route = Route(tier: int, rule: bool, model: string, maxRetries: int, ruleScore: int, accounts: seq<Account>)

  /** One thing the router does, with the route and connection it does it on. */
  datatype Event =
    | Attempt(i: nat, j: nat, route: Route, account: Account, retry: nat, reply: Reply)
    | SetupFailed(i: nat, j: nat, route: Route, account: Account, error: string)
    | RuleEngine(i: nat, route: Route)

  datatype Status = RUNNING | SUCCEEDED | FAILED

  /** A row of LlmExecution. */
  datatype Execution = Execution(
    connection: nat, model: string, tier: int, accountAttempt: nat, fallbackReason: Option<string>,
    status: Status, errorCode: Option<string>)

  datatype Answer =
    | ByAccount(route: nat, account: nat, priority: Priority)
    | ByRule(route: nat, priority: Priority)
    | AllRoutesFailed(failures: seq<string>)

  datatype LeaseEvent = Acquired(connection: nat) | Released(connection: nat)

  function PriorityOf(score: int): Priority {
    if score >= 80 then CRITICAL else if score >= 60 then HIGH else if score >= 40 then MEDIUM else LOW
  }

  /** The priority is critical exactly from 80 points on, high from 60 to 79, medium from 40 to 59, low below. */
  lemma PriorityBands(score: int)
    ensures PriorityOf(score).CRITICAL? <==> score >= 80
    ensures PriorityOf(score).HIGH? <==> 60 <= score <= 79
    ensures PriorityOf(score).MEDIUM? <==> 40 <= score <= 59
    ensures PriorityOf(score).LOW? <==> score <= 39
  {
  }

  // ---------- the flat plan ----------

  /** The tries on one account from `retry` on: each further one needs a retryable failure before it. */
  function TriesFrom(i: nat, j: nat, route: Route, account: Account, retry: nat): seq<Event>
    decreases route.maxRetries + 1 - retry
  {
    if retry > route.maxRetries then []
    else
      var reply := account.replies(retry);
      [Attempt(i, j, route, account, retry, reply)]
      + if reply.Bad? && reply.retryable then TriesFrom(i, j, route, account, retry + 1) else []
  }

  function AccountPlan(i: nat, j: nat, route: Route, account: Account): seq<Event> {
    if !account.granted then []
    else if account.setupError.Some? then [SetupFailed(i, j, route, account, account.setupError.value)]
    else TriesFrom(i, j, route, account, 0)
  }

  function AccountsFrom(i: nat, route: Route, j: nat): seq<Event>
    requires j <= |route.accounts|
    decreases |route.accounts| - j
  {
    if j == |route.accounts| then []
    else AccountPlan(i, j, route, route.accounts[j]) + AccountsFrom(i, route, j + 1)
  }

  /** Everything the router would try from route `i` on if nothing succeeded; a rule route ends it. */
  function PlanFrom(routes: seq<Route>, i: nat): seq<Event>
    requires i <= |routes|
    decreases |routes| - i
  {
    if i == |routes| then []
    else if routes[i].rule then [RuleEngine(i, routes[i])]
    else AccountsFrom(i, routes[i], 0) + PlanFrom(routes, i + 1)
  }

  function Plan(routes: seq<Route>): seq<Event> { PlanFrom(routes, 0) }

  predicate IsHit(e: Event) {
    e.RuleEngine? || (e.Attempt? && e.reply.Good?)
  }

  ghost predicate NoHit(events: seq<Event>) {
    forall e | e in events :: !IsHit(e)
  }

  /** The plan up to and including its first success. */
  function Executed(plan: seq<Event>): seq<Event> {
    if plan == [] then []
    else if IsHit(plan[0]) then [plan[0]]
    else [plan[0]] + Executed(plan[1..])
  }

  // ---------- what the events leave behind ----------

  function Label(route: Route, account: Account, what: string): string {
    account.name + "/" + route.model + ":" + what
  }

  /** What an event adds to the failure list. */
  function FailureOf(e: Event): seq<string> {
    match e
    case Attempt(_, _, route, account, _, reply) =>
      if reply.Bad? then [Label(route, account, reply.code)] else []
    case SetupFailed(_, _, route, account, error) => [Label(route, account, error)]
    case RuleEngine(_, _) => []
  }

  /** The failure list after these events. */
  function Failures(events: seq<Event>): seq<string> {
    if events == [] then [] else Failures(events[..|events| - 1]) + FailureOf(events[|events| - 1])
  }

  function LastOf(failures: seq<string>): Option<string> {
    if failures == [] then None else Some(failures[|failures| - 1])
  }

  function RowOf(e: Event, failures: seq<string>): Execution
    requires e.Attempt?
  {
    Execution(e.account.id, e.route.model, e.route.tier, e.j + 1, LastOf(failures),
              if e.reply.Good? then SUCCEEDED else FAILED,
              if e.reply.Good? then None else Some(e.reply.code))
  }

  /** The execution rows after these events: one per attempt, none still running. */
  function Rows(events: seq<Event>): seq<Execution> {
    if events == [] then []
    else
      var e, before := events[|events| - 1], events[..|events| - 1];
      Rows(before) + if e.Attempt? then [RowOf(e, Failures(before))] else []
  }

  function AnswerOf(events: seq<Event>): Answer {
    if events != [] && IsHit(events[|events| - 1]) then
      var e := events[|events| - 1];
      if e.RuleEngine? then ByRule(e.i, PriorityOf(e.route.ruleScore))
      else ByAccount(e.i, e.j, PriorityOf(e.reply.score))
    else AllRoutesFailed(Failures(events))
  }

  function LeaseOf(account: Account): seq<LeaseEvent> {
    if account.granted then [Acquired(account.id), Released(account.id)] else []
  }

  /** Each connection with a slot is leased and given back, in this order. */
  function LeasesOf(accounts: seq<Account>): seq<LeaseEvent> {
    if accounts == [] then [] else LeasesOf(accounts[..|accounts| - 1]) + LeaseOf(accounts[|accounts| - 1])
  }

  /** The leases of routes on which nothing succeeded. */
  function LeasesOn(routes: seq<Route>): seq<LeaseEvent> {
    if routes == [] then [] else LeasesOn(routes[..|routes| - 1]) + LeasesOf(routes[|routes| - 1].accounts)
  }

  /** The connections of the route up to the one that succeeded, or all of them. */
  function Used(route: Route, found: Option<(nat, int)>): seq<Account> {
    if found.Some? && found.value.0 < |route.accounts| then route.accounts[..found.value.0 + 1] else route.accounts
  }

  /** The leases behind an answer: all on the routes before it, and on its own route up to its connection. */
  function LeasesFor(routes: seq<Route>, answer: Answer): seq<LeaseEvent> {
    match answer
    case ByAccount(i, j, _) =>
      if i < |routes| && j < |routes[i].accounts| then LeasesOn(routes[..i]) + LeasesOf(routes[i].accounts[..j + 1])
      else []
    case ByRule(i, _) => if i < |routes| then LeasesOn(routes[..i]) else []
    case AllRoutesFailed(_) => LeasesOn(routes)
  }

  /** Every lease is released once, before the next one is taken. */
  predicate Balanced(log: seq<LeaseEvent>) {
    log == [] || (|log| >= 2 && log[0].Acquired? && log[1] == Released(log[0].connection) && Balanced(log[2..]))
  }

  ghost predicate EndsWith(events: seq<Event>, i: nat, j: nat, score: int) {
    && events != []
    && var e := events[|events| - 1];
    && e.Attempt? && e.i == i && e.j == j && e.reply == Good(score)
  }

  /** A success raises the connection's health, up to 100. */
  function Credited(health: map<nat, int>, account: Account): map<nat, int> {
    health[account.id := if account.health + 1 < 100 then account.health + 1 else 100]
  }

  /** Health moves up by one inside its range 0 to 100, and nobody else's changes. */
  lemma CreditStaysInRange(health: map<nat, int>, account: Account)
    requires 0 <= account.health <= 100
    ensures var after := Credited(health, account);
      && after.Keys == health.Keys + {account.id}
      && (forall id | id in health && id != account.id :: after[id] == health[id])
      && 0 <= after[account.id] <= 100
      && (if account.health == 100 then after[account.id] == 100 else after[account.id] - account.health == 1)
  {
  }

  // ---------- the loops ----------

  /** Nothing has succeeded so far, and `left` is what remains of the plan. */
  ghost predicate Ahead(events: seq<Event>, left: seq<Event>, plan: seq<Event>) {
    NoHit(events) && events + left == plan
  }

  lemma Miss(events: seq<Event>, e: Event, left: seq<Event>, plan: seq<Event>)
    requires Ahead(events, [e] + left, plan) && !IsHit(e)
    ensures Ahead(events + [e], left, plan)
  {
    assert events + [e] + left == events + ([e] + left);
  }

  lemma {:induction false} Hit(events: seq<Event>, e: Event, left: seq<Event>, plan: seq<Event>)
    requires Ahead(events, [e] + left, plan) && IsHit(e)
    ensures Executed(plan) == events + [e]
  {
    if events == [] {
      assert plan == [e] + left;
    } else {
      assert events[0] in events;
      assert plan[1..] == events[1..] + ([e] + left);
      Hit(events[1..], e, left, plan[1..]);
    }
  }

  lemma {:induction false} NeverHit(plan: seq<Event>)
    requires NoHit(plan)
    ensures Executed(plan) == plan
  {
    if plan != [] {
      assert plan[0] in plan;
      NeverHit(plan[1..]);
    }
  }

  lemma {:induction false} BalancedConcat(log: seq<LeaseEvent>, more: seq<LeaseEvent>)
    requires Balanced(log) && Balanced(more)
    ensures Balanced(log + more)
  {
    if log == [] {
      assert log + more == more;
    } else {
      assert (log + more)[2..] == log[2..] + more;
      BalancedConcat(log[2..], more);
    }
  }

  lemma BalancedAppend(log: seq<LeaseEvent>, c: nat)
    requires Balanced(log)
    ensures Balanced(log + [Acquired(c), Released(c)])
  {
    var more := [Acquired(c), Released(c)];
    assert more[2..] == [];
    BalancedConcat(log, more);
  }

  lemma OneMoreLease(log: seq<LeaseEvent>, accounts: seq<Account>, j: nat)
    requires j < |accounts|
    ensures (log + LeasesOf(accounts[..j])) + LeaseOf(accounts[j]) == log + LeasesOf(accounts[..j + 1])
  {
    assert accounts[..j + 1][..j] == accounts[..j];
  }

  lemma OneMoreRoute(log: seq<LeaseEvent>, routes: seq<Route>, i: nat)
    requires i < |routes|
    ensures (log + LeasesOn(routes[..i])) + LeasesOf(routes[i].accounts) == log + LeasesOn(routes[..i + 1])
  {
    assert routes[..i + 1][..i] == routes[..i];
  }

  lemma AnsweredHere(log: seq<LeaseEvent>, routes: seq<Route>, i: nat, found: (nat, int), priority: Priority)
    requires i < |routes| && found.0 < |routes[i].accounts|
    ensures (log + LeasesOn(routes[..i])) + LeasesOf(Used(routes[i], Some(found)))
         == log + LeasesFor(routes, ByAccount(i, found.0, priority))
  {
  }

  /** The leases of a list of connections: of those with a slot, each taken once and given back before the next. */
  lemma {:induction false} LeasesAreBalanced(accounts: seq<Account>)
    ensures Balanced(LeasesOf(accounts))
  {
    if accounts != [] {
      var n := |accounts| - 1;
      LeasesAreBalanced(accounts[..n]);
      if accounts[n].granted {
        BalancedAppend(LeasesOf(accounts[..n]), accounts[n].id);
      } else {
        assert LeasesOf(accounts) == LeasesOf(accounts[..n]);
      }
    }
  }

  lemma {:induction false} LeasesOnAreBalanced(routes: seq<Route>)
    ensures Balanced(LeasesOn(routes))
  {
    if routes != [] {
      var n := |routes| - 1;
      LeasesOnAreBalanced(routes[..n]);
      LeasesAreBalanced(routes[n].accounts);
      BalancedConcat(LeasesOn(routes[..n]), LeasesOf(routes[n].accounts));
    }
  }

  /** Whatever classify answers, every lease it took has been given back, before the next was taken. */
  lemma GivenBack(routes: seq<Route>, answer: Answer, log: seq<LeaseEvent>)
    ensures Balanced(log) ==> Balanced(log + LeasesFor(routes, answer))
  {
    match answer {
      case ByAccount(i, j, _) =>
        if i < |routes| && j < |routes[i].accounts| {
          LeasesOnAreBalanced(routes[..i]);
          LeasesAreBalanced(routes[i].accounts[..j + 1]);
          BalancedConcat(LeasesOn(routes[..i]), LeasesOf(routes[i].accounts[..j + 1]));
        }
      case ByRule(i, _) => if i < |routes| { LeasesOnAreBalanced(routes[..i]); }
      case AllRoutesFailed(_) => LeasesOnAreBalanced(routes);
    }
    if Balanced(log) { BalancedConcat(log, LeasesFor(routes, answer)); }
  }

  /** The tries after the one numbered `retry`. */
  function TriesAfter(i: nat, j: nat, route: Route, account: Account, retry: nat): seq<Event> {
    var reply := account.replies(retry);
    if reply.Bad? && reply.retryable then TriesFrom(i, j, route, account, retry + 1) else []
  }

  lemma NextTry(i: nat, j: nat, route: Route, account: Account, retry: nat, rest: seq<Event>)
    requires retry <= route.maxRetries
    ensures TriesFrom(i, j, route, account, retry) + rest
            == [Attempt(i, j, route, account, retry, account.replies(retry))]
               + (TriesAfter(i, j, route, account, retry) + rest)
  {
  }

  lemma NextAccount(i: nat, route: Route, j: nat, later: seq<Event>)
    requires j < |route.accounts|
    ensures AccountsFrom(i, route, j) + later
            == AccountPlan(i, j, route, route.accounts[j]) + (AccountsFrom(i, route, j + 1) + later)
  {
  }

  lemma HitAnswer(events: seq<Event>, i: nat, j: nat, score: int)
    requires EndsWith(events, i, j, score)
    ensures AnswerOf(events) == ByAccount(i, j, PriorityOf(score))
  {
  }

  lemma FinishByRule(events: seq<Event>, i: nat, route: Route, plan: seq<Event>)
    requires Ahead(events, [RuleEngine(i, route)], plan)
    ensures AnswerOf(Executed(plan)) == ByRule(i, PriorityOf(route.ruleScore))
    ensures Rows(Executed(plan)) == Rows(events)
  {
    var e := RuleEngine(i, route);
    assert [e] == [e] + [];
    Hit(events, e, [], plan);
    OneMore(events, e);
  }

  lemma Exhausted(events: seq<Event>, plan: seq<Event>)
    requires Ahead(events, [], plan)
    ensures events == plan == Executed(plan)
    ensures AnswerOf(events) == AllRoutesFailed(Failures(events))
  {
    assert events + [] == events;
    NeverHit(plan);
    if events != [] { assert events[|events| - 1] in events; }
  }

  lemma OneMore(events: seq<Event>, e: Event)
    ensures Failures(events + [e]) == Failures(events) + FailureOf(e)
    ensures Rows(events + [e]) == Rows(events) + if e.Attempt? then [RowOf(e, Failures(events))] else []
  {
    assert (events + [e])[..|events|] == events;
  }

  lemma UpdateLast(rows: seq<Execution>, a: Execution, b: Execution)
    ensures (rows + [a])[|rows| := b] == rows + [b]
  {
  }

  class LlmPoolRouter {
    var executions: seq<Execution>
    var leases: seq<LeaseEvent>
    var health: map<nat, int>

    constructor ()
      ensures executions == [] && leases == [] && health == map[]
    {
      executions, leases, health := [], [], map[];
    }

    /** The tables and lists agree with the events so far. */
    ghost predicate Recorded(events: seq<Event>, failures: seq<string>, before: seq<Execution>)
      reads this`executions
    {
      failures == Failures(events) && executions == before + Rows(events)
    }

    /** One execution row: written as RUNNING, then updated with its outcome. */
    method Record(ghost e: Event, reply: Reply, row: Execution, failures: seq<string>,
                  ghost events: seq<Event>, ghost before: seq<Execution>)
      requires e.Attempt? && e.reply == reply && Recorded(events, failures, before)
      requires row == RowOf(e, failures).(status := RUNNING, errorCode := None)
      modifies this`executions
      ensures Recorded(events + [e], failures + FailureOf(e), before)
    {
      OneMore(events, e);
      var id := |executions|;
      ghost var rows := executions;
      executions := executions + [row];
      var done := if reply.Good? then row.(status := SUCCEEDED)
                  else row.(status := FAILED, errorCode := Some(reply.code));
      UpdateLast(rows, row, done);
      executions := executions[id := done];
    }

    /** The retry loop on one leased connection; `rest` is the plan after this connection. */
    method TryAccount(i: nat, j: nat, route: Route, account: Account, failures: seq<string>,
                      ghost events: seq<Event>, ghost rest: seq<Event>, ghost plan: seq<Event>,
                      ghost before: seq<Execution>)
      returns (score: Option<int>, failures': seq<string>, ghost events': seq<Event>)
      requires Recorded(events, failures, before)
      requires Ahead(events, TriesFrom(i, j, route, account, 0) + rest, plan)
      modifies this`executions, this`health
      ensures Recorded(events', failures', before)
      ensures score.None? ==> Ahead(events', rest, plan) && health == old(health)
      ensures score.Some? ==> events' == Executed(plan) && EndsWith(events', i, j, score.value)
      ensures score.Some? ==> health == Credited(old(health), account)
    {
      failures', events' := failures, events;
      var retry := 0;
      while retry <= route.maxRetries
        invariant 0 <= retry
        invariant Ahead(events', TriesFrom(i, j, route, account, retry) + rest, plan)
        invariant Recorded(events', failures', before)
        invariant health == old(health)
      {
        var reply := account.replies(retry);
        ghost var e := Attempt(i, j, route, account, retry, reply);
        ghost var left := TriesAfter(i, j, route, account, retry) + rest;
        NextTry(i, j, route, account, retry, rest);
        Record(e, reply, Execution(account.id, route.model, route.tier, j + 1, LastOf(failures'), RUNNING, None),
               failures', events', before);
        if reply.Good? {
          health := Credited(health, account);
          Hit(events', e, left, plan);
          assert failures' + FailureOf(e) == failures';
          return Some(reply.score), failures', events' + [e];
        }
        Miss(events', e, left, plan);
        failures', events' := failures' + [Label(route, account, reply.code)], events' + [e];
        if !reply.retryable || retry == route.maxRetries {
          assert [] + rest == rest;
          return None, failures', events';
        }
        retry := retry + 1;
      }
      assert [] + rest == rest;
      score := None;
    }

    /** What one connection contributes: slot, credential, retries, and the slot given back. */
    method TryConnection(i: nat, j: nat, route: Route, account: Account, failures: seq<string>,
                         ghost events: seq<Event>, ghost rest: seq<Event>, ghost plan: seq<Event>,
                         ghost before: seq<Execution>)
      returns (score: Option<int>, failures': seq<string>, ghost events': seq<Event>)
      requires Recorded(events, failures, before)
      requires Ahead(events, AccountPlan(i, j, route, account) + rest, plan)
      modifies this
      ensures Recorded(events', failures', before)
      ensures score.None? ==> Ahead(events', rest, plan) && health == old(health)
      ensures score.Some? ==> events' == Executed(plan) && EndsWith(events', i, j, score.value)
      ensures score.Some? ==> health == Credited(old(health), account)
      ensures leases == old(leases) + LeaseOf(account)
    {
      score, failures', events' := None, failures, events;
      if !account.granted {
        assert [] + rest == rest;
        return;
      }
      leases := leases + [Acquired(account.id)];
      if account.setupError.Some? {
        ghost var e := SetupFailed(i, j, route, account, account.setupError.value);
        OneMore(events, e);
        Miss(events, e, rest, plan);
        events' := events + [e];
        failures' := failures + [Label(route, account, account.setupError.value)];
      } else {
        score, failures', events' := TryAccount(i, j, route, account, failures, events, rest, plan, before);
      }
      leases := leases + [Released(account.id)];
      assert leases == old(leases) + [Acquired(account.id), Released(account.id)];
    }

    /** The connections of one route, best first. */
    method TryRoute(i: nat, route: Route, failures: seq<string>,
                    ghost events: seq<Event>, ghost later: seq<Event>, ghost plan: seq<Event>,
                    ghost before: seq<Execution>)
      returns (found: Option<(nat, int)>, failures': seq<string>, ghost events': seq<Event>)
      requires Recorded(events, failures, before)
      requires Ahead(events, AccountsFrom(i, route, 0) + later, plan)
      modifies this
      ensures Recorded(events', failures', before)
      ensures found.None? ==> Ahead(events', later, plan) && health == old(health)
      ensures found.Some? ==> events' == Executed(plan) && EndsWith(events', i, found.value.0, found.value.1)
      ensures found.Some? ==> found.value.0 < |route.accounts|
      ensures leases == old(leases) + LeasesOf(Used(route, found))
      ensures found.Some? ==> health == Credited(old(health), route.accounts[found.value.0])
    {
      failures', events' := failures, events;
      var j := 0;
      while j < |route.accounts|
        invariant j <= |route.accounts|
        invariant Ahead(events', AccountsFrom(i, route, j) + later, plan)
        invariant Recorded(events', failures', before)
        invariant leases == old(leases) + LeasesOf(route.accounts[..j])
        invariant health == old(health)
      {
        var account := route.accounts[j];
        OneMoreLease(old(leases), route.accounts, j);
        ghost var rest := AccountsFrom(i, route, j + 1) + later;
        NextAccount(i, route, j, later);
        var score: Option<int>;
        score, failures', events' := TryConnection(i, j, route, account, failures', events', rest, plan, before);
        if score.Some? {
          found := Some((j, score.value));
          return;
        }
        j := j + 1;
      }
      assert [] + later == later && route.accounts[..j] == route.accounts;
      found := None;
    }

    /** classify: the routes in tier order. */
    method Classify(routes: seq<Route>) returns (answer: Answer)
      modifies this
      ensures Balanced(old(leases)) ==> Balanced(leases)
      ensures answer == AnswerOf(Executed(Plan(routes)))
      ensures executions == old(executions) + Rows(Executed(Plan(routes)))
      ensures answer.ByAccount? ==> answer.route < |routes| && answer.account < |routes[answer.route].accounts|
      ensures answer.ByRule? ==> answer.route < |routes|
      ensures leases == old(leases) + LeasesFor(routes, answer)
      ensures health == if answer.ByAccount?
        then Credited(old(health), routes[answer.route].accounts[answer.account]) else old(health)
    {
      var failures: seq<string> := [];
      ghost var plan, before := Plan(routes), executions;
      ghost var events: seq<Event> := [];
      var i := 0;
      while i < |routes|
        invariant i <= |routes|
        invariant Ahead(events, PlanFrom(routes, i), plan)
        invariant Recorded(events, failures, before)
        invariant leases == old(leases) + LeasesOn(routes[..i])
        invariant health == old(health)
      {
        var route := routes[i];
        OneMoreRoute(old(leases), routes, i);
        if route.rule {
          answer := ByRule(i, PriorityOf(route.ruleScore));
          FinishByRule(events, i, route, plan);
          GivenBack(routes, answer, old(leases));
          return;
        }
        var found: Option<(nat, int)>;
        found, failures, events := TryRoute(i, route, failures, events, PlanFrom(routes, i + 1), plan, before);
        if found.Some? {
          answer := ByAccount(i, found.value.0, PriorityOf(found.value.1));
          AnsweredHere(old(leases), routes, i, found.value, PriorityOf(found.value.1));
          HitAnswer(events, i, found.value.0, found.value.1);
          GivenBack(routes, answer, old(leases));
          return;
        }
        i := i + 1;
      }
      Exhausted(events, plan);
      assert routes[..i] == routes;
      answer := AllRoutesFailed(failures);
      GivenBack(routes, answer, old(leases));
    }
  }
}
