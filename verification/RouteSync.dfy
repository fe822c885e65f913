/** Keeping the routing policy in step with the connected models, and what that gives the router. */
module RouteSync {
  import PoolRouter
  import RouterPlan

  type Provider = string

  const RULE_ENGINE: Provider := "RULE_ENGINE"
  const RULE_TIER := 999

  /** A row of LlmModelRoute under the workspace's policy. */
  datatype Row = Row(tier: int, provider: Provider, model: string, maxRetries: int, enabled: bool)

  /** A pooled, undeleted connection with its enabled models. */
  datatype Connection = Connection(provider: Provider, models: seq<string>)

  datatype Need = Need(provider: Provider, model: string)

  function NeedsOf(provider: Provider, models: seq<string>): seq<Need> {
    if models == [] then [] else [Need(provider, models[0])] + NeedsOf(provider, models[1..])
  }

  function Needs(connections: seq<Connection>): seq<Need> {
    if connections == [] then [] else NeedsOf(connections[0].provider, connections[0].models) + Needs(connections[1..])
  }

  predicate Serves(row: Row, need: Need) {
    row.provider == need.provider && row.model == need.model
  }

  predicate Covered(rows: seq<Row>, need: Need) {
    exists k | 0 <= k < |rows| :: Serves(rows[k], need)
  }

  predicate HasRule(rows: seq<Row>) {
    exists k | 0 <= k < |rows| :: rows[k].provider == RULE_ENGINE
  }

  /** The highest tier below 999, or 0. */
  function TopTier(rows: seq<Row>): (top: int)
    ensures top >= 0
    ensures forall k | 0 <= k < |rows| && rows[k].tier < RULE_TIER :: rows[k].tier <= top
    ensures top == 0 || exists k | 0 <= k < |rows| :: rows[k].tier == top < RULE_TIER
  {
    if rows == [] then 0
    else
      var n := |rows| - 1;
      var top := TopTier(rows[..n]);
      assert forall k | 0 <= k < n :: rows[..n][k] == rows[k];
      if rows[n].tier < RULE_TIER && rows[n].tier > top then rows[n].tier else top
  }

  function NewRow(tier: int, need: Need): Row {
    Row(tier, need.provider, need.model, 1, true)
  }

  const RULE_ROW := Row(RULE_TIER, RULE_ENGINE, "deterministic-buying-signal-v1", 0, true)

  function AddMissing(rows: seq<Row>, needs: seq<Need>, nextTier: int): seq<Row>
    decreases |needs|
  {
    if needs == [] then rows
    else if Covered(rows, needs[0]) then AddMissing(rows, needs[1..], nextTier)
    else AddMissing(rows + [NewRow(nextTier, needs[0])], needs[1..], nextTier + 1)
  }

  function Synced(rows: seq<Row>, connections: seq<Connection>): seq<Row> {
    var added := AddMissing(rows, Needs(connections), TopTier(rows) + 1);
    if HasRule(added) then added else added + [RULE_ROW]
  }

  // ---------- what one synchronisation does ----------

  lemma {:induction false} AddKeeps(rows: seq<Row>, needs: seq<Need>, nextTier: int)
    ensures rows <= AddMissing(rows, needs, nextTier)
    decreases |needs|
  {
    if needs != [] && !Covered(rows, needs[0]) {
      AddKeeps(rows + [NewRow(nextTier, needs[0])], needs[1..], nextTier + 1);
    } else if needs != [] {
      AddKeeps(rows, needs[1..], nextTier);
    }
  }

  lemma {:induction false} AddCovers(rows: seq<Row>, needs: seq<Need>, nextTier: int)
    ensures forall need | need in needs :: Covered(AddMissing(rows, needs, nextTier), need)
    decreases |needs|
  {
    if needs != [] {
      var rows' := if Covered(rows, needs[0]) then rows else rows + [NewRow(nextTier, needs[0])];
      var tier' := if Covered(rows, needs[0]) then nextTier else nextTier + 1;
      if !Covered(rows, needs[0]) { assert Serves(rows'[|rows|], needs[0]); }
      AddKeeps(rows', needs[1..], tier');
      CoveredGrows(rows', AddMissing(rows', needs[1..], tier'), needs[0]);
      AddCovers(rows', needs[1..], tier');
      assert needs == [needs[0]] + needs[1..];
    }
  }

  /** The k-th added row has the k-th tier above the old ones and serves a need that no old row served. */
  lemma {:induction false} AddedAt(rows: seq<Row>, needs: seq<Need>, nextTier: int, k: nat) returns (need: Need)
    requires |rows| <= k < |AddMissing(rows, needs, nextTier)|
    ensures need in needs && !Covered(rows, need)
    ensures AddMissing(rows, needs, nextTier)[k] == NewRow(nextTier + (k - |rows|), need)
    decreases |needs|
  {
    if Covered(rows, needs[0]) {
      need := AddedAt(rows, needs[1..], nextTier, k);
    } else {
      var rows' := rows + [NewRow(nextTier, needs[0])];
      AddKeeps(rows', needs[1..], nextTier + 1);
      if k == |rows| {
        need := needs[0];
      } else {
        need := AddedAt(rows', needs[1..], nextTier + 1, k);
        CoveredGrows(rows, rows', need);
      }
    }
  }

  lemma CoveredGrows(rows: seq<Row>, more: seq<Row>, need: Need)
    requires rows <= more
    ensures Covered(rows, need) ==> Covered(more, need)
  {
    if k :| 0 <= k < |rows| && Serves(rows[k], need) { assert Serves(more[k], need); }
  }

  /** Every enabled model of every pooled connection has a route afterwards, old routes are untouched,
      and there is a rule route. */
  lemma SyncCovers(rows: seq<Row>, connections: seq<Connection>)
    ensures rows <= Synced(rows, connections)
    ensures forall need | need in Needs(connections) :: Covered(Synced(rows, connections), need)
    ensures HasRule(Synced(rows, connections))
  {
    var added := AddMissing(rows, Needs(connections), TopTier(rows) + 1);
    AddKeeps(rows, Needs(connections), TopTier(rows) + 1);
    AddCovers(rows, Needs(connections), TopTier(rows) + 1);
    forall need | need in Needs(connections) ensures Covered(Synced(rows, connections), need) {
      CoveredGrows(added, Synced(rows, connections), need);
    }
    if !HasRule(added) { assert Synced(rows, connections)[|added|].provider == RULE_ENGINE; }
  }

  /** An added model route takes its tier in turn and serves a need that no old route served. */
  lemma SyncedAt(rows: seq<Row>, connections: seq<Connection>, k: nat) returns (need: Need)
    requires |rows| <= k < |Synced(rows, connections)| && Synced(rows, connections)[k] != RULE_ROW
    ensures need in Needs(connections) && !Covered(rows, need)
    ensures Synced(rows, connections)[k] == NewRow(TopTier(rows) + 1 + (k - |rows|), need)
  {
    need := AddedAt(rows, Needs(connections), TopTier(rows) + 1, k);
  }

  /** Routes added for models have distinct tiers above every earlier tier below 999. */
  lemma NewTiersAreDistinctAndLater(rows: seq<Row>, connections: seq<Connection>, k: nat)
    requires |rows| <= k < |Synced(rows, connections)| && Synced(rows, connections)[k] != RULE_ROW
    ensures Synced(rows, connections)[k].tier == TopTier(rows) + 1 + (k - |rows|)
    ensures forall o | 0 <= o < |rows| && rows[o].tier < RULE_TIER :: rows[o].tier < Synced(rows, connections)[k].tier
    ensures exists need | need in Needs(connections) ::
        Serves(Synced(rows, connections)[k], need) && !Covered(rows, need)
  {
    var need := SyncedAt(rows, connections, k);
    assert Serves(Synced(rows, connections)[k], need);
  }

  /** What a synchronisation has to route: each model of each connection, under the provider of the connection. */
  lemma {:induction false} NeedsAreTheModels(connections: seq<Connection>, need: Need)
    ensures need in Needs(connections)
       <==> exists c :: c in connections && need.provider == c.provider && need.model in c.models
  {
    if connections != [] {
      var c := connections[0];
      NeedsAreTheModels(connections[1..], need);
      NeedsOfAre(c.provider, c.models, need);
      assert connections == [c] + connections[1..];
    }
  }

  lemma {:induction false} NeedsOfAre(provider: Provider, models: seq<string>, need: Need)
    ensures need in NeedsOf(provider, models) <==> need.provider == provider && need.model in models
  {
    if models != [] {
      NeedsOfAre(provider, models[1..], need);
      assert models == [models[0]] + models[1..];
    }
  }

  /** Every added route is enabled. A model's route may be retried once; the rule route comes last, never retries, has
      tier 999, and is added only if there was none. */
  lemma AddedRoutesAreEnabled(rows: seq<Row>, connections: seq<Connection>, k: nat)
    requires |rows| <= k < |Synced(rows, connections)|
    ensures var all := Synced(rows, connections); var row := all[k];
      && row.enabled
      && (row.maxRetries != 1 ==>
            && row == Row(999, "RULE_ENGINE", "deterministic-buying-signal-v1", 0, true) && k == |all| - 1
            && forall l | 0 <= l < k :: all[l].provider != "RULE_ENGINE")
  {
    var all := Synced(rows, connections);
    var added := AddMissing(rows, Needs(connections), TopTier(rows) + 1);
    if k < |added| {
      var need := AddedAt(rows, Needs(connections), TopTier(rows) + 1, k);
    } else {
      assert forall l | 0 <= l < k :: all[l] == added[l];
    }
  }

  lemma {:induction false} NothingMissing(rows: seq<Row>, needs: seq<Need>, nextTier: int)
    requires forall need | need in needs :: Covered(rows, need)
    ensures AddMissing(rows, needs, nextTier) == rows
    decreases |needs|
  {
    if needs != [] {
      assert needs[0] in needs;
      NothingMissing(rows, needs[1..], nextTier);
    }
  }

  lemma SyncedAddsNothing(rows: seq<Row>, connections: seq<Connection>)
    requires HasRule(rows) && forall need | need in Needs(connections) :: Covered(rows, need)
    ensures Synced(rows, connections) == rows
  {
    NothingMissing(rows, Needs(connections), TopTier(rows) + 1);
  }

  /** A second run adds nothing. */
  lemma SyncIsIdempotent(rows: seq<Row>, connections: seq<Connection>)
    ensures Synced(Synced(rows, connections), connections) == Synced(rows, connections)
  {
    SyncCovers(rows, connections);
    SyncedAddsNothing(Synced(rows, connections), connections);
  }

  // ---------- the routes classify sees afterwards ----------

  /** Rule routes sit at tier 999 or later. */
  predicate RuleLast(rows: seq<Row>) {
    forall k | 0 <= k < |rows| && rows[k].provider == RULE_ENGINE :: rows[k].tier >= RULE_TIER
  }

  /** Synchronising keeps the rule last as long as no connection claims to be the rule engine. */
  lemma SyncKeepsRuleLast(rows: seq<Row>, connections: seq<Connection>)
    requires RuleLast(rows) && forall need | need in Needs(connections) :: need.provider != RULE_ENGINE
    ensures RuleLast(Synced(rows, connections))
  {
    SyncCovers(rows, connections);
    var all := Synced(rows, connections);
    forall k | 0 <= k < |all| && all[k].provider == RULE_ENGINE ensures all[k].tier >= RULE_TIER {
      if k < |rows| {
        assert all[k] == rows[k];
      } else if all[k] != RULE_ROW {
        var need := AddedAt(rows, Needs(connections), TopTier(rows) + 1, k);
      }
    }
  }

  /** `order` lists the enabled rows by ascending tier, ties in any order; `at[k]` is the row behind
      `order[k]`, whose connections are whatever the query finds. */
  ghost predicate TierOrder(rows: seq<Row>, order: seq<PoolRouter.Route>, at: seq<nat>) {
    && |order| == |at|
    && (forall k | 0 <= k < |at| :: at[k] < |rows| && rows[at[k]].enabled && order[k].tier == rows[at[k]].tier
          && order[k].rule == (rows[at[k]].provider == RULE_ENGINE) && order[k].model == rows[at[k]].model
          && order[k].maxRetries == rows[at[k]].maxRetries)
    && (forall x | 0 <= x < |rows| && rows[x].enabled :: x in at)
    && (forall k, l | 0 <= k < l < |at| :: at[k] != at[l])
    && (forall k, l | 0 <= k < l < |order| :: order[k].tier <= order[l].tier)
  }

  /** While it is below 999 and rule routes come last, an enabled model route is reached before any rule
      route: everything the router may do on it is in the plan. */
  lemma ModelRoutesComeFirst(rows: seq<Row>, order: seq<PoolRouter.Route>, at: seq<nat>, x: nat)
    requires TierOrder(rows, order, at) && RuleLast(rows)
    requires x < |rows| && rows[x].enabled && rows[x].provider != RULE_ENGINE && rows[x].tier < RULE_TIER
    ensures exists k | 0 <= k < |at| :: at[k] == x && RouterPlan.Reached(order, k) && !order[k].rule
  {
    assert x in at;
    var k :| 0 <= k < |at| && at[k] == x;
    assert RouterPlan.Reached(order, k);
  }

  /** A route whose tier lies past an enabled rule route is never tried. */
  lemma RoutesPastTheRuleAreDead(rows: seq<Row>, order: seq<PoolRouter.Route>, at: seq<nat>, r: nat, k: nat)
    requires TierOrder(rows, order, at) && r < |rows| && rows[r].enabled && rows[r].provider == RULE_ENGINE
    requires k < |at| && rows[r].tier < rows[at[k]].tier
    ensures forall e | e in PoolRouter.Plan(order) :: e.i != k
  {
    assert r in at;
    var l :| 0 <= l < |at| && at[l] == r;
    assert order[l].rule && l < k;
    RouterPlan.PlanIsOrderedAndComplete(order);
    forall e | e in PoolRouter.Plan(order) ensures e.i != k {
      assert RouterPlan.Planned(order, e);
    }
  }

  /** A rule row that classify meets. */
  predicate LiveRule(row: Row) { row.enabled && row.provider == RULE_ENGINE }

  /** Without ties, a model route is reached exactly when every enabled rule route has a larger tier. */
  lemma ReachedIff(rows: seq<Row>, order: seq<PoolRouter.Route>, at: seq<nat>, k: nat)
    requires TierOrder(rows, order, at) && k < |at| && rows[at[k]].provider != RULE_ENGINE
    requires forall r | 0 <= r < |rows| && LiveRule(rows[r]) :: rows[r].tier != rows[at[k]].tier
    ensures RouterPlan.Reached(order, k)
      <==> forall r | 0 <= r < |rows| && LiveRule(rows[r]) :: rows[r].tier > rows[at[k]].tier
  {
    if RouterPlan.Reached(order, k) {
      forall r | 0 <= r < |rows| && LiveRule(rows[r]) ensures rows[r].tier > rows[at[k]].tier {
        assert r in at;
        var l :| 0 <= l < |at| && at[l] == r;
        assert order[l].rule;
      }
    } else {
      var l :| 0 <= l < k && order[l].rule;
      assert LiveRule(rows[at[l]]);
    }
  }

  /** There is something to try on the route: a connection with a slot, and a call to make or a preparation that
      fails. */
  predicate Offers(route: PoolRouter.Route) {
    exists j | 0 <= j < |route.accounts| ::
      route.accounts[j].granted && (route.accounts[j].setupError.Some? || route.maxRetries >= 0)
  }

  ghost predicate Tried(order: seq<PoolRouter.Route>, k: nat) {
    exists e :: e in PoolRouter.Plan(order) && e.i == k
  }

  lemma TriedIffReached(order: seq<PoolRouter.Route>, k: nat)
    requires k < |order| && !order[k].rule
    ensures Tried(order, k) <==> RouterPlan.Reached(order, k) && Offers(order[k])
  {
    RouterPlan.PlanIsOrderedAndComplete(order);
    if Tried(order, k) {
      var e :| e in PoolRouter.Plan(order) && e.i == k;
      assert RouterPlan.Planned(order, e);
    }
    if RouterPlan.Reached(order, k) && Offers(order[k]) {
      var j :| 0 <= j < |order[k].accounts| && order[k].accounts[j].granted
        && (order[k].accounts[j].setupError.Some? || order[k].maxRetries >= 0);
      var account := order[k].accounts[j];
      var e := if account.setupError.Some?
        then PoolRouter.SetupFailed(k, j, order[k], account, account.setupError.value)
        else PoolRouter.Attempt(k, j, order[k], account, 0, account.replies(0));
      assert RouterPlan.Planned(order, e);
    }
  }

  /** Without ties, classify may try a model route exactly when it offers something and every enabled rule route has a
      larger tier. */
  lemma RouteIsTriedIff(rows: seq<Row>, order: seq<PoolRouter.Route>, at: seq<nat>, k: nat)
    requires TierOrder(rows, order, at) && k < |at| && rows[at[k]].provider != RULE_ENGINE
    requires forall r | 0 <= r < |rows| && LiveRule(rows[r]) :: rows[r].tier != rows[at[k]].tier
    ensures Tried(order, k)
      <==> Offers(order[k]) && forall r | 0 <= r < |rows| && LiveRule(rows[r]) :: rows[r].tier > rows[at[k]].tier
  {
    ReachedIff(rows, order, at, k);
    TriedIffReached(order, k);
  }

  /** A tie with the rule route can go either way: both orders are by ascending tier. */
  lemma TieGoesEitherWay(model: PoolRouter.Route, rule: PoolRouter.Route)
    requires model.tier == rule.tier == RULE_TIER && !model.rule && rule.rule
    requires model.model == "m" && model.maxRetries == 1 && rule.model == RULE_ROW.model && rule.maxRetries == 0
    ensures var rows := [Row(RULE_TIER, "OPENAI", "m", 1, true), RULE_ROW];
      && TierOrder(rows, [model, rule], [0, 1]) && RouterPlan.Reached([model, rule], 0)
      && TierOrder(rows, [rule, model], [1, 0]) && !RouterPlan.Reached([rule, model], 1)
  {
    var rows := [Row(RULE_TIER, "OPENAI", "m", 1, true), RULE_ROW];
    forall x | 0 <= x < |rows| ensures x in [0, 1] && x in [1, 0] {
      assert x == [0, 1][x] == [1, 0][1 - x];
    }
    assert [rule, model][0].rule;
  }

  // ---------- synchronising can create routes past the rule ----------

  function OneServed(n: nat): seq<Row> {
    [Row(n, "OPENAI", "served", 1, true), RULE_ROW]
  }

  lemma TwoNeeds()
    ensures Needs([Connection("OPENAI", ["a", "b"])]) == [Need("OPENAI", "a"), Need("OPENAI", "b")]
  {
    assert ["a", "b"][1..] == ["b"] && ["b"][1..] == [];
    assert [Connection("OPENAI", ["a", "b"])][1..] == [];
  }

  lemma TopOfOne()
    ensures TopTier(OneServed(998)) == 998
  {
    var rows := OneServed(998);
    assert rows[..1] == [rows[0]] && rows[..1][..0] == [];
  }

  lemma TwoMoreThanServed()
    ensures Synced(OneServed(998), [Connection("OPENAI", ["a", "b"])])
      == OneServed(998) + [NewRow(999, Need("OPENAI", "a")), NewRow(1000, Need("OPENAI", "b"))]
  {
    var rows, first, second := OneServed(998), Need("OPENAI", "a"), Need("OPENAI", "b");
    TwoNeeds();
    TopOfOne();
    AddTwo(rows, first, second, 999);
    assert (rows + [NewRow(999, first), NewRow(1000, second)])[1].provider == RULE_ENGINE;
  }

  /** From a top tier of 998, two unserved models get tiers 999 and 1000: the second is never tried. */
  lemma SyncPassesTheRule(order: seq<PoolRouter.Route>, at: seq<nat>, k: nat)
    requires TierOrder(Synced(OneServed(998), [Connection("OPENAI", ["a", "b"])]), order, at)
    requires k < |at| && at[k] == 3
    ensures Synced(OneServed(998), [Connection("OPENAI", ["a", "b"])])[3] == NewRow(1000, Need("OPENAI", "b"))
    ensures !Tried(order, k)
  {
    TwoMoreThanServed();
    RoutesPastTheRuleAreDead(Synced(OneServed(998), [Connection("OPENAI", ["a", "b"])]), order, at, 1, k);
  }

  lemma AddTwo(rows: seq<Row>, first: Need, second: Need, tier: int)
    requires first != second && !Covered(rows, first) && !Covered(rows, second)
    ensures AddMissing(rows, [first, second], tier) == rows + [NewRow(tier, first), NewRow(tier + 1, second)]
  {
    var one := rows + [NewRow(tier, first)];
    assert !Covered(one, second);
    assert [first, second][1..] == [second] && [second][1..] == [];
    assert AddMissing(one, [second], tier + 1) == one + [NewRow(tier + 1, second)];
  }

  predicate Distinct(models: seq<string>) {
    forall i, j | 0 <= i < j < |models| :: models[i] != models[j]
  }

  lemma {:induction false} AllAreAdded(rows: seq<Row>, provider: Provider, models: seq<string>, tier: int)
    requires Distinct(models) && forall i | 0 <= i < |models| :: !Covered(rows, Need(provider, models[i]))
    ensures var all := AddMissing(rows, NeedsOf(provider, models), tier);
      |all| == |rows| + |models| && rows <= all
      && forall i | 0 <= i < |models| :: all[|rows| + i] == NewRow(tier + i, Need(provider, models[i]))
    decreases |models|
  {
    if models != [] {
      var need := Need(provider, models[0]);
      var more := rows + [NewRow(tier, need)];
      forall i | 0 <= i < |models[1..]| ensures !Covered(more, Need(provider, models[1..][i])) {
        assert !Covered(rows, Need(provider, models[i + 1]));
      }
      AllAreAdded(more, provider, models[1..], tier + 1);
      assert NeedsOf(provider, models)[1..] == NeedsOf(provider, models[1..]);
      assert !Covered(rows, need);
      var all := AddMissing(rows, NeedsOf(provider, models), tier);
      forall i | 0 <= i < |models| ensures all[|rows| + i] == NewRow(tier + i, Need(provider, models[i])) {
        if i > 0 { assert all[|more| + (i - 1)] == NewRow(tier + 1 + (i - 1), Need(provider, models[1..][i - 1])); }
      }
    }
  }

  /** On the first synchronisation of one connection, model number i gets tier i + 1, so exactly those past number
      998 are past the rule route, and none of these is ever tried. */
  lemma FirstSyncNumbersModels(provider: Provider, models: seq<string>, order: seq<PoolRouter.Route>, at: seq<nat>,
                               k: nat)
    requires provider != RULE_ENGINE && Distinct(models)
    requires TierOrder(Synced([], [Connection(provider, models)]), order, at) && k < |at| && at[k] < |models|
    ensures Synced([], [Connection(provider, models)])[at[k]] == NewRow(at[k] + 1, Need(provider, models[at[k]]))
    ensures at[k] > 998 ==> !Tried(order, k)
    ensures at[k] < 998 ==> RouterPlan.Reached(order, k)
  {
    var rows := Synced([], [Connection(provider, models)]);
    assert [Connection(provider, models)][1..] == [];
    assert Needs([Connection(provider, models)]) == NeedsOf(provider, models);
    var none: seq<Row> := [];
    AllAreAdded(none, provider, models, 1);
    var added := AddMissing([], NeedsOf(provider, models), 1);
    forall i | 0 <= i < |added| ensures added[i].provider != RULE_ENGINE {
      assert added[|none| + i] == NewRow(1 + i, Need(provider, models[i]));
    }
    assert rows == added + [RULE_ROW];
    assert added[|none| + at[k]] == NewRow(1 + at[k], Need(provider, models[at[k]]));
    if at[k] > 998 {
      assert rows[|models|] == RULE_ROW;
      RoutesPastTheRuleAreDead(rows, order, at, |models|, k);
    } else if at[k] < 998 {
      ReachedIff(rows, order, at, k);
    }
  }

  /** With the rule route enabled, a classify that follows never ends in ALL_LLM_ROUTES_FAILED. */
  lemma ClassifyAlwaysAnswers(rows: seq<Row>, order: seq<PoolRouter.Route>, at: seq<nat>, r: nat)
    requires TierOrder(rows, order, at) && r < |rows| && rows[r].enabled && rows[r].provider == RULE_ENGINE
    ensures !PoolRouter.AnswerOf(PoolRouter.Executed(PoolRouter.Plan(order))).AllRoutesFailed?
  {
    assert r in at;
    var l :| 0 <= l < |at| && at[l] == r;
    RouterPlan.RuleRouteNeverFails(order, l);
  }

  // ---------- the loops ----------

  lemma NeedsStep(provider: Provider, models: seq<string>, j: nat, later: seq<Need>)
    requires j < |models|
    ensures NeedsOf(provider, models[j..]) + later
         == [Need(provider, models[j])] + (NeedsOf(provider, models[j + 1..]) + later)
  {
    assert models[j..][1..] == models[j + 1..];
  }

  lemma AddStep(rows: seq<Row>, need: Need, rest: seq<Need>, tier: int)
    ensures AddMissing(rows, [need] + rest, tier) ==
      if Covered(rows, need) then AddMissing(rows, rest, tier)
      else AddMissing(rows + [NewRow(tier, need)], rest, tier + 1)
  {
    assert ([need] + rest)[1..] == rest;
  }

  class LlmService {
    var routes: seq<Row>

    constructor (rows: seq<Row>)
      ensures routes == rows
    {
      routes := rows;
    }

    method FindRoute(need: Need) returns (found: bool)
      ensures found <==> Covered(routes, need)
    {
      found := false;
      for k := 0 to |routes|
        invariant !found
        invariant forall l | 0 <= l < k :: !Serves(routes[l], need)
      {
        if Serves(routes[k], need) {
          return true;
        }
      }
    }

    method SyncRoutes(connections: seq<Connection>)
      modifies this
      ensures routes == Synced(old(routes), connections)
    {
      var nextTier := TopTier(routes) + 1;
      ghost var goal := AddMissing(routes, Needs(connections), nextTier);
      var i := 0;
      while i < |connections|
        invariant i <= |connections|
        invariant AddMissing(routes, Needs(connections[i..]), nextTier) == goal
      {
        var connection := connections[i];
        ghost var later := Needs(connections[i + 1..]);
        assert connections[i..][1..] == connections[i + 1..];
        var j := 0;
        while j < |connection.models|
          invariant j <= |connection.models|
          invariant AddMissing(routes, NeedsOf(connection.provider, connection.models[j..]) + later, nextTier) == goal
        {
          var need := Need(connection.provider, connection.models[j]);
          NeedsStep(connection.provider, connection.models, j, later);
          AddStep(routes, need, NeedsOf(connection.provider, connection.models[j + 1..]) + later, nextTier);
          var found := FindRoute(need);
          if !found {
            routes := routes + [NewRow(nextTier, need)];
            nextTier := nextTier + 1;
          }
          j := j + 1;
        }
        assert [] + later == later;
        i := i + 1;
      }
      if !HasRule(routes) {
        routes := routes + [RULE_ROW];
      }
    }
  }
}
